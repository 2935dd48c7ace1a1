/** The datagram being assembled in the GekkotaXudp record: a fixed number of
    message slots and of buffers, the first buffer being for the header. */
module Datagram {
  import opened Words
  import opened Wrappers
  import opened Messages
  import opened OutgoingQueues

  function Sum(s: seq<nat>): (r: nat)
    decreases |s|
  {
    if s == [] then 0 else Sum(s[..|s| - 1]) + s[|s| - 1]
  }

  class Datagram {
    const messages: array<Kind>
    // the lengths of the buffers; what they point to is the messages and payloads
    const buffers: array<nat>
    var messageCount: nat
    var bufferCount: nat
    var packetSize: nat

    /** packetSize is the header and the lengths of the buffers filled so far. */
    ghost predicate Valid()
      reads this, buffers
    {
      && messages.Length == MAX_MESSAGES && buffers.Length == MAX_BUFFERS
      && messageCount <= MAX_MESSAGES && 1 <= bufferCount <= MAX_BUFFERS
      && packetSize == HEADER_SIZE + Sum(buffers[1..bufferCount])
    }

    function Filled(): Packing
      reads this
    {
      Packing(packetSize, messageCount, bufferCount)
    }

    constructor ()
      ensures Valid() && Filled() == EMPTY_PACKING && fresh(messages) && fresh(buffers)
    {
      messages := new Kind[MAX_MESSAGES](_ => Ping);
      buffers := new nat[MAX_BUFFERS](_ => 0);
      messageCount, bufferCount, packetSize := 0, 1, HEADER_SIZE;
      new;
      assert buffers[1..1] == [];
    }

    /** Starts a new datagram for the next client. */
    method Reset()
      requires Valid()
      modifies this
      ensures Valid() && Filled() == EMPTY_PACKING
    {
      messageCount, bufferCount, packetSize := 0, 1, HEADER_SIZE;
      assert buffers[1..1] == [];
    }

    method AddBuffer(length: nat)
      requires Valid() && bufferCount < MAX_BUFFERS
      modifies this`bufferCount, this`packetSize, buffers
      ensures Valid() && bufferCount == old(bufferCount) + 1 && packetSize == old(packetSize) + length
      ensures buffers[old(bufferCount)] == length && buffers[..old(bufferCount)] == old(buffers[..bufferCount])
    {
      buffers[bufferCount] := length;
      packetSize := packetSize + length;
      bufferCount := bufferCount + 1;
      assert buffers[1..bufferCount][..bufferCount - 2] == old(buffers[1..bufferCount]);
    }

    /** Writes a message of the given kind, and its payload if it has one. */
    method Put(kind: Kind, payload: Option<nat>)
      requires Valid() && messageCount < MAX_MESSAGES && bufferCount + 1 < MAX_BUFFERS + (if payload.None? then 1 else 0)
      modifies this, messages, buffers
      ensures Valid()
      ensures messages[old(messageCount)] == kind && messages[..old(messageCount)] == old(messages[..messageCount])
      ensures messageCount == old(messageCount) + 1
      ensures bufferCount == old(bufferCount) + (if payload.Some? then 2 else 1)
      ensures packetSize == old(packetSize) + Size(kind) + (if payload.Some? then payload.value else 0)
    {
      messages[messageCount] := kind;
      AddBuffer(Size(kind));
      if payload.Some? {
        AddBuffer(payload.value);
      }
      messageCount := messageCount + 1;
    }
  }
}
