# Gekkota, verified

A Dafny model of the core of Gekkota, a C networking library: the XUDP reliable
datagram protocol, the LZF compressor, the CRC, and the list and block pool that
the rest is built on. Source paths below are those of the C files.

What is proved, in short:

- **LZF** (`Lzf.dfy`, `LzfFormat.dfy`, `LzfGreedy.dfy`, `LzfSize.dfy`, `LzfSamples.dfy`).
  Deflate and inflate over byte arrays, for any hash function: the stream stands for
  the source, inflating it gives the source back byte for byte, every index is in
  range, and the output never exceeds `n + ceil(n/32)` bytes and the trailer. Which
  bytes are written is exact: a reference appears if and only if the source repeats,
  when the output is below the worst case is an if-and-only-if, and n equal bytes take
  about three for every 264. The library's own size formula is proved sufficient
  exactly up to 288 bytes.
- **CRC** (`Polynomial.dfy`, `Crc32.dfy`). The table-driven register computes
  polynomial division; the split into buffers does not matter; a burst of at most
  32 bits always changes the checksum.
- **Reliable transport** (`Transport.dfy`, `Completeness.dfy`, `EndToEnd.dfy`, over
  `Incoming.dfy`, `Channel.dfy`, `Fragments.dfy`, `Bitmap.dfy`, `QueueOrder.dfy`,
  `Sequence.dfy`, `Stall.dfy`, `Lateness.dfy`). Over every run of a network that loses, repeats and
  reorders: what a channel delivers is a prefix of what was sent, fragmented packets
  included; once nothing more can be taken it is the longest prefix heard in full;
  what has been acknowledged has been received; and an unreliable packet that is heard
  is delivered unless a later packet overtakes it. Wrap-around is treated
  separately, with the exact condition under which the 16-bit comparisons and the
  sorted queue agree with unbounded numbers, and what follows when they do not.
- **The sending side** (`Client.dfy`, `Datagram.dfy`, `OutgoingQueues.dfy`,
  `OutboxProofs.dfy`, `OutboxRuns.dfy`, `DelayedClose.dfy`, `DelayedCloseRun.dfy`,
  `Retransmission.dfy`, `Survival.dfy`, `InstantZero.dfy`, `InstantZeroRuns.dfy`,
  `Outlasting.dfy`, `Throttle.dfy`, `Clock.dfy`). Queue and window accounting, datagram
  packing, how often exactly a message can be retransmitted to a silent peer in any run
  and any state of the client, exactly when the peer is given up in time, the exact
  rate of the unreliable throttle, and, with both ends of a channel together, that a
  delayed close loses nothing.
- **The host** (`Handshake.dfy`, `Dispatch.dfy`, `DispatchRuns.dfy`, `Bandwidth.dfy`).
  Handshake safety over all runs; fairness of the event dispatch, and that it hands
  every packet over once and in order; and that the outgoing bandwidth is shared out
  within the budget and as far as it goes.
- **List and pool** (`List.dfy`, `MemoryPool.dfy`). The circular list refines a
  sequence; the pool's two lists partition its blocks.

## Conventions

The C code that changes records and arrays in place is written as classes and
methods whose `ensures` tie the new state to a function of the old one; what the
library promises is then proved of those functions as lemmas. C integers are
mathematical integers with their ranges as subset types, and every wrap-around is
written out. The four handlers for application data, `gekkota_xudpclient_receive`
and the queues are the same functions in the method contracts and in the runs.

Findings about the code that the model states as lemmas:

- `gekkota_lzf_get_max_deflated_length` is too small for incompressible input of
  more than 288 bytes (`LzfFormat.LibrarySizeSuffices`). `Deflate` therefore asks
  its caller for a buffer of the true worst length whenever the library's own
  check would let the buffer pass.
- A repeat of three bytes need not make the output shorter: seven equal bytes are written
  with a reference and take the worst length (`LzfSize.ThreeDoNotShrink`).
  `LzfSize.ShrinksExactly` says when the output is below it; a first repeat that goes on
  for four bytes is enough (`LzfSize.ShrinksWhen`).
- The incoming reliable queue can go out of order when its numbers straddle the
  wrap from 0xFFFF to 0 (`QueueOrder.PlacementFails`); `QueueOrder.PlacementExactOnWire`
  says exactly when it does not, by the 16-bit numbers the receiver has, and
  `QueueOrder.LatePlacementExact` the same of unreliable messages. A channel
  whose head has wrapped although the next number has not never delivers a reliable
  packet again (`Stall.StuckForever`), and one plain message that overtakes the wrap
  is enough (`Stall.OvertakingStops`). Runs are therefore stated for numbers below
  0xF000.
- The timeout of a message sent at the instant 0 of the clock is not recorded,
  because 0 stands for "no timeout yet"; and when something is recorded, the timeout
  of a message sent at instant 0 takes it back. `InstantZero.FallingExactly` is the
  exact condition: a message overdue for 30 seconds always ends the connection if and
  only if, of the messages in flight from instant 0, none has a longer timeout than
  one sent before it. `InstantZeroRuns.LateFromNew` is a run of 13 events, from a
  client that has just connected, after which it does not.
- For the same reason a message can outlast more timeouts. Over all runs k of them are
  survived exactly when k is at most 1, or r 2^(k-1) < 30000 and, from k = 6 on,
  r 2^(k-1) < 5000 (`Outlasting.OutlastsExactly`): never more than 13, and never more
  than 6 exactly when r is at least 79 ms (`Outlasting.SixTimeoutsExactly`). Among the
  runs in which the condition above holds throughout, the wait r (2^k - 1) decides, or
  r (2^k - 2) for a message first sent at instant 0, and five are the most exactly from
  80 ms, or 81 ms, on (`Survival.SurvivesExactly`, `Survival.FiveTimeoutsExactly`,
  `Survival.SixthTimeoutSurvived`). Every run that does not meet instant 0 is one of
  these (`Outlasting.UnmetFalls`).
- A message sent 0x8000 to 0xFFFF ms ago may be given the wrong send time
  (`Clock.RebuildExactWhen`).
- The bandwidth loop caps clients in its first round only: subtracting the same
  from bandwidth and data never raises the throttle (`Bandwidth.ShareFalls`,
  `Bandwidth.NoMoreCaps`). It compares every client with the host's incoming
  bandwidth, not with the client's own; the client's own is respected if and only
  if the host's is not larger (`Bandwidth.OwnRespectedExactly`).
- A plain data message that was queued is reported with the code that means
  "dropped". `Incoming.AnsweredExactly` says which data messages are acknowledged:
  fragments only. In no run is a plain packet ever acknowledged
  (`Completeness.AnsweredMeansReceived`), and a client that has sent one and is told
  to close later never does (`DelayedClose.PlainNeverCloses`).
- An unsequenced packet that was not taken before can wait behind an unreliable one whose
  reliable number has not come (`Lateness.NothingLateWithheld`).
- The initiator acknowledges VALIDATE_CONNECT once only. When this answer is lost, the
  initiator is connected and the responder's slot never is
  (`Handshake.LostAnswer`); so when it arrives while VALIDATE_CONNECT has timed out and
  not been sent again (`Handshake.AnswerTooLate`).
- A client whose packets do not inflate is looked at again in every call and can
  keep the clients behind it from being served, for any number of calls
  (`Dispatch.Starved`). `Dispatch.ServedExactly` is the exact condition for a client
  to be served within clientCount calls.

## Model

| member | source | states |
|---|---|---|
| `Lzf.Compressor.EmitLiterals` | src/gekkota/gekkota_lzf.c:284-294 | a pending run of up to 32 literals is written as its length byte and the bytes, after what was there |
| `Lzf.Compressor.EmitReference` | src/gekkota/gekkota_lzf.c:296-307 | a match is written as the two- or three-byte token for its offset and length |
| `Lzf.Compressor.ExtendMatch` | src/gekkota/gekkota_lzf.c:271-282 | the match found agrees with the source byte by byte, has 3 to 264 bytes, and is the longest allowed |
| `Lzf.Compressor.EmitMatch` | src/gekkota/gekkota_lzf.c:271-309 | what is appended is the pending literals and the token for the longest match; the stream goes on decoding to the source read so far, and 32 j <= 33 i is kept |
| `Lzf.Compressor.Lookup` | src/gekkota/gekkota_lzf.c:260-263 | the position last entered under the index is returned, this one takes its place, and every other entry stays |
| `Lzf.Compressor.Rehash` | src/gekkota/gekkota_lzf.c:310-318 | the last two positions of a match are entered, each under its own rolling value, and no other entry changes |
| `Lzf.Compressor.FollowMatch` | src/gekkota/gekkota_lzf.c:265-321 | bytes written, table, rolling value and position after a match are those of Match; the source was not incompressible |
| `Lzf.Compressor.TryMatch` | src/gekkota/gekkota_lzf.c:258-321 | a reference is followed if and only if the position last entered is positive, at most 8192 back, with more than four bytes to go and three bytes agreeing; then bytes, table and position are those of Step, else only the table changes; the stream and the bound are kept |
| `Lzf.Compressor.Advance` | src/gekkota/gekkota_lzf.c:256-348 | one round of the loop: position, literals, table and bytes are those of Step; the stream goes on decoding, and nothing is saved on an incompressible source |
| `Lzf.Compressor.DeflateTokens` | src/gekkota/gekkota_lzf.c:250-350 | the finished stream is Tokens of the source, byte for byte; it decodes to the whole source within the worst length, and reaches it on incompressible input |
| `Lzf.Compressor.Deflate` | src/gekkota/gekkota_lzf.c:209-359 | error cases; on success the stream before the trailer is Tokens of the source and decodes to it, the trailer is its length, and the size is at most n + ceil(n/32) and the trailer |
| `Lzf.Compressor.InflateToken` | src/gekkota/gekkota_lzf.c:405-435 | one token turns the output into what the format says, overlapping copies included, and touches nothing beyond it |
| `Lzf.Compressor.InflateTokens` | src/gekkota/gekkota_lzf.c:403-437 | the loop fills the buffer with what the format's run gives, with every index in range |
| `Lzf.Compressor.Inflate` | src/gekkota/gekkota_lzf.c:361-440 | error cases; on success the returned length is the trailer's and the buffer holds the decoded bytes |
| `Lzf.Compressor.RoundTrip` | src/gekkota/gekkota_xudpclient.c:1024-1079 | deflating any source of two bytes or more and inflating into a buffer of the stated length gives the source back |
| `Lzf.StreamRoundTrip` | src/gekkota/gekkota_lzf.c:145-177 | a stream that decodes to s, with the trailer for s, has inflated length the length of s and runs to exactly s |
| `LzfFormat.DecodeAppend` | src/gekkota/gekkota_lzf.c:403-437 | a token appended to a decodable stream continues its output |
| `LzfFormat.ReplicateMatch` | src/gekkota/gekkota_lzf.c:420-434 | copying from a distance back, overlapping or not, reproduces a source that repeats itself at that distance |
| `LzfFormat.LiteralToken` | src/gekkota/gekkota_lzf.c:407-416 | a literal token decodes to the bytes it carries |
| `LzfFormat.ReferenceTokenDecodes` | src/gekkota/gekkota_lzf.c:296-307 | the token written for a match decodes to the bytes the match covers, for all lengths 3 to 264 and distances up to 8192 |
| `LzfFormat.InflateRunDecodes` | src/gekkota/gekkota_lzf.c:403-437 | for any trailer, the loop on a buffer of exactly the decoded length stops there with the decoded bytes |
| `LzfFormat.TrailerRoundTrip` | src/gekkota/gekkota_lzf.c:355-358 | the length written at the end is the one read back |
| `LzfFormat.StubbornIncompressible` | src/gekkota/gekkota_lzf.c:265-269 | inputs of every length exist on which no back reference is possible |
| `LzfFormat.LibrarySizeSuffices` | src/gekkota/gekkota_lzf.c:206 | the library's size formula covers the worst case if and only if n <= 288, and beyond that a concrete input does not fit |
| `LzfGreedy.CompressesExactly` | src/gekkota/gekkota_lzf.c:258-269 | if and only if, for every index function: the stream has a back reference exactly when the source repeats, that is when at some position, not the last four, the last earlier one under the same index is not the first of all, lies within 8192, and has the same three bytes |
| `LzfGreedy.EqualTokens` | src/gekkota/gekkota_lzf.c:250-350 | for every index function and n >= 7, the exact bytes n equal bytes become: two literals, references of 264 to the byte before, and the last two to four as literals |
| `LzfSize.ShrinksExactly` | src/gekkota/gekkota_lzf.c:271-308 | the stream is never above the worst length, and below it if and only if some match is longer than three bytes, or has no literals pending, or does not cut a run of 32 in two |
| `LzfSize.ShrinksWhen` | src/gekkota/gekkota_lzf.c:265-282 | a source whose first repeat goes on for a fourth byte takes less than the worst length |
| `LzfSize.ThreeDoNotShrink` | src/gekkota/gekkota_lzf.c:265-308 | one of three bytes need not: seven equal bytes repeat, and take the worst length |
| `LzfSize.EqualSize` | src/gekkota/gekkota_lzf.c:271-308 | n equal bytes take at most three for every 264 and 13 more, trailer included, and less than the worst length if and only if n > 7 |
| `LzfSamples.FirstSample` | src/gekkota/gekkota_lzf.c:310-318 | 17 bytes whose stream follows the last but one position of a match |
| `LzfSamples.SecondSample` | src/gekkota/gekkota_lzf.c:310-318 | 17 bytes whose stream follows the last position of a match |
| `Polynomial.DivisionIdentity` | src/gekkota/gekkota_crc32.c:14-15 | the remainder function comes with a quotient: the dividend is quotient times generator plus remainder |
| `Polynomial.RemainderUnique` | src/gekkota/gekkota_crc32.c:14-15 | no other polynomial below degree 32 is a remainder |
| `Polynomial.SerialIsRemainder` | src/gekkota/gekkota_crc32.c:30-34 | feeding a message bit by bit into a register is division of the register followed by the message |
| `Polynomial.SerialLinear` | src/gekkota/gekkota_crc32.c:30-34 | the register is linear in its start and in the message |
| `Polynomial.TableStep` | src/gekkota/gekkota_crc32.c:55-56 | eight bit steps are a shift and a table value that depends on the top byte only |
| `Polynomial.SerialInjective` | src/gekkota/gekkota_crc32.c:14 | different registers stay different, because the generator is odd |
| `Polynomial.BurstDetected` | src/gekkota/gekkota_crc32.c:45-61 | messages that differ only in a window of at most 32 bits leave different registers |
| `Crc32.Calculator.TableEntry` | src/gekkota/gekkota_crc32.c:27-36 | the inner loop computes eight shifts of the byte |
| `Crc32.Calculator.InitializeLookupTable` | src/gekkota/gekkota_crc32.c:20-40 | afterwards every entry of the table is right |
| `Crc32.Calculator.AddBuffer` | src/gekkota/gekkota_crc32.c:52-56 | the loop over one buffer leaves the register its bytes give |
| `Crc32.Calculator.Calculate` | src/gekkota/gekkota_crc32.c:42-62 | the checksum of a list of buffers is that of their concatenation, table initialised or not |
| `Crc32.StepIsSerial` | src/gekkota/gekkota_crc32.c:55-56 | one byte step is eight bit steps of the serial register |
| `Crc32.RunIsSerial` | src/gekkota/gekkota_crc32.c:50-59 | the register after a message is the serial register after its bits |
| `Crc32.RunConcat` | src/gekkota/gekkota_crc32.c:50-59 | two buffers one after the other are one message |
| `Crc32.ChecksumIsRemainder` | src/gekkota/gekkota_crc32.c:45-61 | the complement of the checksum is the remainder of 32 ones followed by the message |
| `Crc32.BurstChangesChecksum` | src/gekkota/gekkota_crc32.c:45-61 | two messages that differ only in at most 32 consecutive bits have different checksums |
| `Crc32.ByteBurstChangesChecksum` | src/gekkota/gekkota_crc32.c:45-61 | and so two that differ only in at most four consecutive bytes |
| `List.InsertLinks` | src/gekkota/gekkota_list.c:31-34 | the four link updates turn the ring into the one with the element before position k |
| `List.RemoveLinks` | src/gekkota/gekkota_list.c:48-49 | the two link updates turn the ring into the one without element k |
| `List.List.Insert` | src/gekkota/gekkota_list.c:15-37 | insertion before a node is insertion in the sequence; an element with links is refused and nothing changes |
| `List.List.Add` | src/gekkota/gekkota_list.h:39-40 | insertion before the sentinel appends |
| `List.List.Remove` | src/gekkota/gekkota_list.c:39-53 | removal of a node is removal from the sequence, and its links are cleared |
| `List.List.IsEmpty` | src/gekkota/gekkota_list.h:42-43 | true exactly for the empty sequence |
| `List.List.Head` | src/gekkota/gekkota_list.h:57-58 | the first element, or the sentinel |
| `List.List.GetCount` | src/gekkota/gekkota_list.c:55-73 | the loop ends, with the length of the sequence |
| `MemoryPool.FastHeap.constructor` | src/gekkota/gekkota_memory.c:48-64 | a heap with empty lists and the requested or default block size |
| `MemoryPool.FastHeap.Populate` | src/gekkota/gekkota_memory.c:66-72 | the blocks with zero links, in order, are free afterwards; the others are lost |
| `MemoryPool.FastHeap.Allocate` | src/gekkota/gekkota_memory.c:121-154 | error, malloc or the first free block, which moves to the allocated list |
| `MemoryPool.FastHeap.Release` | src/gekkota/gekkota_memory.c:214-218 | the block moves to the end of the free list from whichever list it is in |
| `MemoryPool.StepKeepsPartition` | src/gekkota/gekkota_memory.c:142-146 | one allocation or release keeps every block in exactly one list, once |
| `MemoryPool.RunKeepsPartition` | src/gekkota/gekkota_memory.c:121-223 | and so does any run of them, double frees and foreign addresses included |
| `MemoryPool.NoLiveBlockTwice` | src/gekkota/gekkota_memory.c:142-146 | after any run the block handed out next is not live |
| `MemoryPool.ServedInOrder` | src/gekkota/gekkota_memory.c:142-146 | as long as there are free blocks, allocations hand them out in order |
| `MemoryPool.FreedIsServed` | src/gekkota/gekkota_memory.c:142-218 | a live block given back is live again exactly when more allocations follow than blocks were free, and stands last among the free until then |
| `MemoryPool.NewHeapPartition` | src/gekkota/gekkota_memory.c:66-72 | a new heap owns exactly the blocks whose links were zero |
| `Clock.LagAndCompareExact` | src/gekkota/gekkota_time.c:12-31 | within a day of a common base, lag is the distance and comparison the order, across the wrap too |
| `Clock.RebuildExact` | src/gekkota/gekkota_xudp.c:1393-1397 | the 16-bit echoed time is rebuilt to the true one when less than 0x8000 ms have passed |
| `Clock.RebuildExactWhen` | src/gekkota/gekkota_xudp.c:1393-1397 | exactly when it is, for any delay below 2^31 ms |
| `Sequence.OldTestExact` | src/gekkota/gekkota_xudpclient.c:799-812 | the test for an old number agrees with unbounded numbers less than 0x1000 apart |
| `Sequence.OldTestExactWhen` | src/gekkota/gekkota_xudp.c:1990-2003 | exactly when it does, for numbers less than 0x8000 apart |
| `QueueOrder.TrueSlotSorts` | src/gekkota/gekkota_xudpclient.c:820-841 | insertion by unbounded numbers is sorted and without duplicates |
| `QueueOrder.PlainScan` | src/gekkota/gekkota_xudpclient.c:823-839 | below the wrap the scan of the queue is that insertion |
| `QueueOrder.PlacementExactWhen` | src/gekkota/gekkota_xudpclient.c:796-841 | for any queue in order and any number in the window, the scan finds the right place if and only if the wrap lies right |
| `QueueOrder.PlacementExactOnWire` | src/gekkota/gekkota_xudpclient.c:820-841 | the same by the 16-bit numbers the receiver has: those below the last one delivered have wrapped |
| `QueueOrder.PlacementFails` | src/gekkota/gekkota_xudpclient.c:823-839 | two concrete queues for which it does not |
| `QueueOrder.LateScan` | src/gekkota/gekkota_xudpclient.c:857-880 | the scan for an unreliable message is that for a reliable one among the unreliable entries, the unsequenced ones passed over |
| `QueueOrder.LatePlacementExact` | src/gekkota/gekkota_xudpclient.c:847-880 | so it finds the right place among them if and only if the wrap lies right |
| `Stall.StaysStuck` | src/gekkota/gekkota_xudpclient.c:799-841 | no message changes that the head of the queue has wrapped while the next number has not |
| `Stall.StuckForever` | src/gekkota/gekkota_xudpclient.c:300-319 | over all runs of arrivals and receives from there: no reliable packet is delivered again |
| `Stall.OvertakingStops` | src/gekkota/gekkota_xudpclient.c:799-841 | with nothing queued near the wrap, a plain message brings this about exactly when its own number has wrapped |
| `Bitmap.SetBitEffect` | src/gekkota/gekkota_xudp.c:2068 | or-ing in a shifted one sets that bit and no other |
| `Bitmap.ClearCountSet` | src/gekkota/gekkota_xudp.c:2065-2068 | setting a clear bit lowers the number of clear bits by one |
| `Bitmap.ClearCountZero` | src/gekkota/gekkota_xudp.c:2065-2068 | no bit is clear if and only if all fragments have come |
| `Incoming.FindStartLast` | src/gekkota/gekkota_xudp.c:2018-2031 | the search backwards yields the last fragment entry with that number, and none exactly when there is none |
| `Incoming.AnswersExactly` | src/gekkota/gekkota_xudp.c:928-964 | in every state: a message that asks for it in a stamped datagram is acknowledged except by a closing or half-open client, and after a DISCONNECT only a repeated one is |
| `Incoming.VerdictExactly` | src/gekkota/gekkota_xudp.c:1791-2081 | the verdict on every data message in every state: which are dropped, which fail, and that a plain one is dropped exactly when it was queued and fails exactly when nothing changed |
| `Channel.Channel.ScanReliable` | src/gekkota/gekkota_xudpclient.c:823-839 | the backward loop computes ReliableSlot |
| `Channel.Channel.ScanUnreliable` | src/gekkota/gekkota_xudpclient.c:857-880 | the same among unreliable entries, passing over unsequenced ones |
| `Channel.Channel.QueueIncomingMessage` | src/gekkota/gekkota_xudpclient.c:767-914 | the channel changes as Enqueue says; a message refused leaves it as it was |
| `Channel.Channel.FindStartMessage` | src/gekkota/gekkota_xudp.c:2021-2031 | the backward search computes FindStart |
| `Channel.Channel.CopyFragment` | src/gekkota/gekkota_xudp.c:2065-2078 | a fragment is counted and copied once, by its bit |
| `Channel.Channel.OnDataFragment` | src/gekkota/gekkota_xudp.c:1977-2081 | verdict and channel are those of OnFragment, for every fragment |
| `Channel.Channel.Take` | src/gekkota/gekkota_xudpclient.c:282-335 | delivery and channel are those of Receive |
| `Fragments.PiecesCover` | src/gekkota/gekkota_xudpclient.c:441-492 | the fragments of a packet, in order, are the packet: none overlaps, none is missing |
| `Fragments.PieceInside` | src/gekkota/gekkota_xudpclient.c:441-446 | where each of the fragmentCount pieces starts and ends |
| `Fragments.AbsorbKeeps` | src/gekkota/gekkota_xudp.c:2065-2078 | any fragment, new or repeated, leaves every piece whose bit is set in place and the count right |
| `Fragments.CompletePacket` | src/gekkota/gekkota_xudp.c:2065-2078 | when none is missing the buffer is the packet |
| `Fragments.ReassemblyAnyOrder` | src/gekkota/gekkota_xudp.c:2033-2081 | after any order of arrival with repeats a bit is set exactly when its fragment came, fragmentsRemaining is the number of clear bits, and at 0 the buffer is the packet |
| `Transport.SlotByOwner` | src/gekkota/gekkota_xudpclient.c:820-841 | below 0xF000 the scan by number is insertion by the packet's position in the order sent |
| `Transport.OldExactly` | src/gekkota/gekkota_xudpclient.c:799-818 | a number counts as old or repeated exactly when its packet was delivered |
| `Transport.PacketArrives` | src/gekkota/gekkota_xudp.c:1791-1835 | any copy of a plain message at any time keeps the queue in order and made of undelivered packets |
| `Transport.FragmentArrives` | src/gekkota/gekkota_xudp.c:1977-2081 | and so does any copy of a fragment, in any order |
| `Transport.NextDelivered` | src/gekkota/gekkota_xudpclient.c:300-319 | what is delivered is the next packet, whole, and the last number moves past all its fragments |
| `Transport.LateDelivered` | src/gekkota/gekkota_xudpclient.c:285-298 | an unreliable packet is delivered only between the reliable packets it was sent between |
| `Transport.RunKeeps` | src/gekkota/gekkota_xudpclient.c:255-339 | the invariant over every run of sends, arrivals and receives |
| `Transport.DeliveredIsPrefix` | src/gekkota/gekkota_xudpclient.c:300-319 | over all runs: the packets delivered are a prefix of those sent, and the queue is strictly increasing above the last number delivered |
| `Transport.UnreliableInOrder` | src/gekkota/gekkota_xudpclient.c:843-880 | over all runs: unreliable packets delivered were sent, come in order, none twice, each after exactly the reliable packets sent before it |
| `Lateness.LateAcceptedExactly` | src/gekkota/gekkota_xudpclient.c:843-880 | an unreliable message is queued if and only if the client is connected, it is not empty, its reliable number is not old, its own is ahead of the last one delivered and not queued already; it goes between what precedes and what follows it |
| `Lateness.LateAcceptedByNumbers` | src/gekkota/gekkota_xudpclient.c:843-854 | the same by unbounded numbers less than 0x1000 from the last ones delivered |
| `Lateness.LooseAccepted` | src/gekkota/gekkota_xudpclient.c:881-883 | an unsequenced message is always queued, before all others |
| `Lateness.LateTakenExactly` | src/gekkota/gekkota_xudpclient.c:282-298 | the head of the unreliable queue is taken if and only if it is unsequenced or belongs to the last reliable number |
| `Lateness.LateHeard` | src/gekkota/gekkota_xudpclient.c:843-880 | over all runs: an unreliable packet heard is delivered or queued, unless a later unreliable one was delivered first or a reliable one sent after it |
| `Lateness.NothingLateWithheld` | src/gekkota/gekkota_xudpclient.c:282-298 | over all runs: when nothing can be taken, it is queued only while reliable packets sent before it are missing; an unsequenced one waits only behind such a packet |
| `Completeness.EntryStays` | src/gekkota/gekkota_xudpclient.c:767-914 | no message makes the receiver forget an entry or a fragment |
| `Completeness.PacketHeard` | src/gekkota/gekkota_xudp.c:1791-1835 | a connected receiver that hears an undelivered plain message has it in its queue |
| `Completeness.FragmentHeard` | src/gekkota/gekkota_xudp.c:1977-2081 | and an undelivered fragment, with its bit set |
| `Completeness.NextDeliverable` | src/gekkota/gekkota_xudpclient.c:300-319 | with every piece of the next packet in the queue there is something to deliver |
| `Completeness.NothingWithheld` | src/gekkota/gekkota_xudpclient.c:255-339 | over all runs: when nothing can be delivered, some message of the next packet has never been heard, or the packet is empty |
| `Completeness.AnsweredMeansReceived` | src/gekkota/gekkota_xudp.c:922-968 | over all runs: every copy acknowledged is a fragment whose packet is delivered or which is in place in the queue; no copy of a plain packet ever is |
| `EndToEnd.QueuedAsCarried` | src/gekkota/gekkota_xudpclient.c:417-525 | the messages queued for the k-th packet are exactly its copies on the wire, one for each of its numbers, and the counter ends before the next packet's |
| `EndToEnd.UnreliableQueuedAsCarried` | src/gekkota/gekkota_xudpclient.c:951-956 | the message queued for an unreliable packet is its copy on the wire |
| `EndToEnd.UnsequencedQueuedAsCarried` | src/gekkota/gekkota_xudpclient.c:931-977 | the message queued for an unsequenced packet is its copy on the wire; one that does not fit goes reliably |
| `EndToEnd.NumberNamesCopy` | src/gekkota/gekkota_xudp.c:1119-1151 | the number a reliable copy is sent under is the one in the message, and no other copy has it |
| `EndToEnd.AcknowledgedMeansReceived` | src/gekkota/gekkota_xudp.c:922-968 | over all runs of the network: when a number has been answered, the message the sender keeps under it is delivered or in place |
| `Client.Client.SendFragments` | src/gekkota/gekkota_xudpclient.c:438-475 | the loop queues exactly the packet's fragments, with consecutive numbers, and advances the counter by their number |
| `Client.Client.SendReliably` | src/gekkota/gekkota_xudpclient.c:423-525 | a reliable packet is queued whole or in fragments |
| `Client.Client.Send` | src/gekkota/gekkota_xudpclient.c:348-533 | errors in the order of the code, leaving everything as it was; otherwise exactly which messages go to the end of which queue, as Submit says, and which counter advances |
| `Client.SubmissionNew` | src/gekkota/gekkota_xudpclient.c:417-533 | whatever is sent, none of its messages counts as sent or timed out yet, so it may enter the runs |
| `Client.Client.SendAcknowledgements` | src/gekkota/gekkota_xudp.c:2322-2374 | a prefix of the acknowledgements fills the datagram, all of them unless it is full; answering a DISCONNECT ends the client |
| `Client.Client.SendReliable` | src/gekkota/gekkota_xudp.c:2376-2464 | queues, figures and datagram after the loop are those of Transmit |
| `Client.Client.SendUnreliable` | src/gekkota/gekkota_xudp.c:2466-2547 | queue, counter and datagram after the loop are those of FlushUnreliable, and a delayed close completes |
| `Client.Client.CheckForTimeouts` | src/gekkota/gekkota_xudp.c:970-1025 | queues and figures after the scan are those of CheckTimeouts, as is the verdict |
| `Client.Client.DisposeAcknowledgedMessage` | src/gekkota/gekkota_xudp.c:1109-1154 | removes the message with that number and channel, or nothing, and returns its kind |
| `Client.Client.OnAcknowledgeMessage` | src/gekkota/gekkota_xudp.c:1393-1474 | in every live state: an echo from the future changes nothing; otherwise the estimate is updated from the rebuilt send time, the message removed, a connecting client connected or a closing one ended, and a delayed close completed |
| `Client.Client.NotifyDisconnect` | src/gekkota/gekkota_xudp.c:1351-1376 | a client the application does not know, or one whose event is delivered at once, is as new; any other becomes a zombie |
| `Client.Client.AnswerMessage` | src/gekkota/gekkota_xudp.c:922-968 | an acknowledgement is queued at the end exactly when the message asks, the datagram is stamped and the state allows it |
| `Client.Client.ClearMessageQueues` | src/gekkota/gekkota_xudpclient.c:689-726 | every queue is emptied; reliableDataInTransit is left as it was |
| `Client.Client.CloseGracefully` | src/gekkota/gekkota_xudpclient.c:588-621 | in every state: refused when already closed; an open client drops its queues and queues one DISCONNECT; any other is as new |
| `Client.Client.CloseLater` | src/gekkota/gekkota_xudpclient.c:628-647 | in every state: refused when already closed; an open client with something queued delays the close; any other is closed gracefully |
| `Client.Client.BuildDatagram` | src/gekkota/gekkota_xudp.c:2247-2285 | one turn of the send loop: acknowledgements, timeouts, reliable and unreliable messages as Turn says, and packetSize is the header and the buffers filled |
| `Client.TurnKeeps` | src/gekkota/gekkota_xudp.c:2247-2285 | the datagram never exceeds the MTU, 32 messages or 65 buffers; the figures stay right; no reliable message is lost |
| `Client.TurnSends` | src/gekkota/gekkota_xudp.c:2247-2285 | and no turn stops early: unless the client is given up or closed, what is left in either queue has no room in the datagram or in the window; unreliable messages leave only at the head |
| `Client.TurnPrompt` | src/gekkota/gekkota_xudp.c:2255-2285 | the sent queue after a turn: when asked and once the clock has reached the expiry kept for its head, exactly the messages in time stay, else all; what is sent goes behind them |
| `Datagram.Datagram.Put` | src/gekkota/gekkota_xudp.c:2441-2458 | a message and its payload take one slot and one or two buffers, and packetSize grows by their lengths |
| `OutboxProofs.MoveOneKeeps` | src/gekkota/gekkota_xudp.c:2420-2457 | moving one message keeps the accounting and the set of pending messages |
| `OutboxProofs.TransmitKeeps` | src/gekkota/gekkota_xudp.c:2389-2461 | a prefix of outgoing moves to the end of sent, in order; the window and the datagram are respected; the loop stops only for a reason |
| `OutboxProofs.TransmitStops` | src/gekkota/gekkota_xudp.c:2389-2430 | the loop stops only when nothing is left, all slots or buffers are taken, or the rest of the datagram or the window is too small |
| `OutboxProofs.TransmitAppends` | src/gekkota/gekkota_xudp.c:2431-2435 | what was in flight stays as it was, and what is sent stands behind it with the present time |
| `OutboxProofs.CheckTimeoutsKeeps` | src/gekkota/gekkota_xudp.c:981-1022 | the timeout scan loses nothing and keeps the figures right |
| `OutboxProofs.ScanExactly` | src/gekkota/gekkota_xudp.c:981-1022 | a scan that does not give up puts exactly the messages out of time at the head of the outgoing queue, last first, with twice the timeout, and leaves the others in flight in order |
| `OutboxProofs.DisposeKeeps` | src/gekkota/gekkota_xudp.c:1119-1151 | an acknowledgement removes exactly the message it names from the sent queue, or nothing |
| `OutboxProofs.ClosingLeavesOne` | src/gekkota/gekkota_xudpclient.c:588-621 | a graceful close leaves one DISCONNECT on the control channel, nothing else to send or acknowledge, and neither window nor datagram keeps it back |
| `OutboxRuns.RunKeeps` | src/gekkota/gekkota_xudp.c:970-1154 | over all runs: every reliable message is acknowledged or in exactly one queue, reliableDataInTransit is the sent payload, nextTimeout is its head's |
| `OutboxRuns.DelayedCloseLosesNothing` | src/gekkota/gekkota_xudpclient.c:628-647 | over all runs: when the DISCONNECT of a delayed close is queued, every reliable message queued before was acknowledged, and every unreliable one has been through the send loop, in order |
| `OutboxRuns.UnreliableInOrder` | src/gekkota/gekkota_xudp.c:2477-2534 | over all runs, while the client is open: the unreliable messages ever queued are those that went through the send loop, in order, and then those in the queue |
| `OutboxRuns.DelaysExactly` | src/gekkota/gekkota_xudpclient.c:637-644 | an open client told to close later delays the close if and only if one of its three queues holds something, and nothing else changes then |
| `OutboxRuns.CompletesExactly` | src/gekkota/gekkota_xudp.c:1465-1470 | a delayed close is completed if and only if all three queues are empty |
| `OutboxRuns.NoDataWhileDelaying` | src/gekkota/gekkota_xudpclient.c:377-381 | and no application data enters meanwhile, however often send is called: it is the refusal in send, not an assumption on the runs |
| `DelayedClose.AckedIsReceived` | src/gekkota/gekkota_xudp.c:1119-1151 | over all runs of sender, network and receiver, in which only the receiver's answers acknowledge: whatever message of the channel the sender has dropped is a fragment that is delivered or in place |
| `DelayedClose.ClosedMeansReceived` | src/gekkota/gekkota_xudpclient.c:628-647 | over all such runs: when the DISCONNECT of a delayed close is queued, every packet ever sent on the channel went in fragments, and every one of them is delivered or in place |
| `DelayedCloseRun.CloseCompletes` | src/gekkota/gekkota_xudp.c:1466-1472 | the run, for any packet of two fragments, in which it is sent, the close delayed, both fragments received and answered, and the DISCONNECT queued |
| `DelayedClose.PlainNeverCloses` | src/gekkota/gekkota_xudp.c:1466-1472 | over all such runs: a client that has sent one packet in one piece never queues the DISCONNECT of a delayed close |
| `Retransmission.HeardIsCalm` | src/gekkota/gekkota_xudp.c:1403-1420 | whatever has timed out before, an acknowledgement leaves the client as the bounds below require it, the estimate included |
| `Retransmission.MeasuredExact` | src/gekkota/gekkota_xudp.c:1393-1405 | below 0x8000 ms, what is measured is the time the exchange took |
| `Retransmission.SmoothedExactly` | src/gekkota/gekkota_xudp.c:1409-1420 | the estimate moves an eighth of the way to the measurement, rounded towards where it was; the variance keeps three quarters and takes a quarter of the distance left, within 3 ms |
| `Retransmission.AwaitsMeasured` | src/gekkota/gekkota_xudp.c:1409-1420 | a message sent next waits at least as long as the exchange measured, if and only if the variance was not zero or the distance left is none or a multiple of four |
| `Retransmission.DueExpires` | src/gekkota/gekkota_xudp.c:2255-2257 | when a scan is made the first message in flight has timed out, across the wrap of the clock |
| `Retransmission.GivesUpInTime` | src/gekkota/gekkota_xudp.c:981-1022 | over all runs with acknowledgements, in any state and also after a close, while Falling holds: a scan gives the connection up when a message has timed out and waited 30 s since it was first sent, or 5 s with its timeout at the limit |
| `Retransmission.TimeoutKeepsBound` | src/gekkota/gekkota_xudp.c:986-1014 | at the k-th timeout since the peer was heard the wait since the first sending has been at least r (2^k - 1), or r (2^k - 2) when that was at instant 0 |
| `Retransmission.LastTimeoutGivesUp` | src/gekkota/gekkota_xudp.c:995-1005 | a timeout whose wait cannot be survived gives the connection up |
| `Retransmission.FewTimeouts` | src/gekkota/gekkota_xudp.c:995-1005 | no message survives a thirteenth timeout, nor a sixth when its timeout was 80 ms, or 81 ms from instant 0 |
| `Outlasting.AlwaysBounded` | src/gekkota/gekkota_xudp.c:970-1025 | over all runs with acknowledgements, in any state, also after a close, and whatever is in flight from instant 0: a message that timed out k times since the peer was heard, with timeout r then, has k at most 1 or r 2^(k-1) < 30000, and < 5000 from k = 6 on; so k is at most 13, and at most 6 from 79 ms on |
| `Outlasting.OutlastsExactly` | src/gekkota/gekkota_xudp.c:986-1014 | if and only if: k timeouts are survived in some run exactly when that bound allows it |
| `Outlasting.SixTimeoutsExactly` | src/gekkota/gekkota_xudp.c:995-1005 | over all runs: six timeouts are the most if and only if r is at least 79 ms; thirteen are the most for any message, and one with 1 ms survives as many |
| `Retransmission.BoundedRetransmission` | src/gekkota/gekkota_xudp.c:970-1025 | over the same runs, those in which Falling holds, the sharper bound: a message that timed out k times since the peer was heard, with timeout r then, has k at most 5 or r (2^k - 1) < 5000, and r (2^k - 1) < 30000, with r (2^k - 2) for one first sent at instant 0; so k is at most 12, and at most 5 from 80 ms or 81 ms on |
| `Survival.SurvivesExactly` | src/gekkota/gekkota_xudp.c:986-1014 | if and only if, among the runs in which Falling holds: k timeouts since the peer was heard are survived in some of them exactly when the wait they take does not end the connection |
| `Survival.FiveTimeoutsExactly` | src/gekkota/gekkota_xudp.c:995-1005 | if and only if, among the same runs: five is the most exactly when r is at least 80 ms, or 81 ms for a message first sent at instant 0 |
| `Survival.SixthTimeoutSurvived` | src/gekkota/gekkota_xudp.c:991-1005 | the run of twelve events, from instant 0, in which a message with a first timeout of 80 ms survives six |
| `InstantZero.FallingStays` | src/gekkota/gekkota_xudp.c:991-993 | once instant 0 is over no step breaks Falling, so it is a matter of the start alone |
| `Outlasting.UnmetFalls` | src/gekkota/gekkota_xudp.c:991-993 | a run that ends before instant 0, or never meets it, is one in which Falling holds |
| `InstantZero.FallingExactly` | src/gekkota/gekkota_xudp.c:986-1005 | if and only if: from every client with given messages in flight from instant 0, in every run, an overdue message ends the connection, exactly when none of them has a longer timeout than one sent before it (2 ms counting as 1) |
| `InstantZeroRuns.LateFromNew` | src/gekkota/gekkota_xudp.c:991-1005 | the run of 13 events from a client that has just connected after which a scan lets a message live that has waited 30 s |
| `InstantZeroRuns.UnevenSurvives` | src/gekkota/gekkota_xudp.c:991-1005 | three messages in flight, two of them from instant 0, and a run in which the third survives more timeouts than the bound allows |
| `Throttle.FlushKeeps` | src/gekkota/gekkota_xudp.c:2479-2532 | the loop takes a prefix of the queue, keeps exactly what the throttle admits, in order, and does not overfill the datagram |
| `Throttle.FlushStops` | src/gekkota/gekkota_xudp.c:2479-2495 | the loop stops only when the queue is empty or its head has no room in the datagram |
| `Throttle.RateExact` | src/gekkota/gekkota_xudp.c:2498-2511 | of any 32 consecutive packets, from any counter, min(t + 1, 32) are let through |
| `Throttle.AdmittedCount` | src/gekkota/gekkota_xudp.c:2498-2511 | the packets of a queue that are sent are as many as the counter lets through |
| `Throttle.ThrottledBatch` | src/gekkota/gekkota_xudp.c:2498-2511 | so any 32 packets taken from the queue keep min(t + 1, 32) |
| `Bandwidth.Host.CapClients` | src/gekkota/gekkota_xudp.c:2598-2634 | one round caps exactly the clients that exceed, and neither total runs below zero on the way |
| `Bandwidth.Host.FillLimits` | src/gekkota/gekkota_xudp.c:2586-2651 | the loop ends, never divides by zero, and leaves the limits Shared gives |
| `Bandwidth.Host.ThrottleBandwidth` | src/gekkota/gekkota_xudp.c:2549-2657 | once a second, with somebody connected, the limits become those of Shared and the totals are cleared; otherwise nothing changes |
| `Bandwidth.PassFits` | src/gekkota/gekkota_xudp.c:2598-2634 | however many clients are capped in a round, the bandwidth left is at least one for each and the data left covers the open ones |
| `Bandwidth.ShareFalls` | src/gekkota/gekkota_xudp.c:2592-2596 | taking the same from bandwidth and data never raises the throttle |
| `Bandwidth.NoMoreCaps` | src/gekkota/gekkota_xudp.c:2586-2635 | so a second round caps nobody |
| `Bandwidth.BudgetRespected` | src/gekkota/gekkota_xudp.c:2565-2651 | limit times data, summed over the clients, is at most 32 times the budget, apart from limits raised from 0 to 1 |
| `Bandwidth.NobodyExceeds` | src/gekkota/gekkota_xudp.c:2612-2651 | no limit but the least one lets a client of known bandwidth send more than what the code compares it with, and no throttle is above its limit |
| `Bandwidth.SharesMost` | src/gekkota/gekkota_xudp.c:2586-2651 | the sharing is the largest possible: clients capped in the first round get the most their figure allows or the least limit, every other the most that is left; exactly those who exceed are capped, and who does not take part is left alone |
| `Bandwidth.FiguresExact` | src/gekkota/gekkota_xudp.c:2583-2610 | what is shared is what the elapsed time allows, in whole units, or everything when no bandwidth is given |
| `Bandwidth.OwnRespectedExactly` | src/gekkota/gekkota_xudp.c:2610-2619 | if and only if: whoever else takes part, no client with a given incoming bandwidth is promised more than that in the elapsed time, exactly when the host's incoming bandwidth is not larger |
| `Bandwidth.OwnExceeded` | src/gekkota/gekkota_xudp.c:2610-2619 | the one client with a smaller incoming bandwidth than the host that is promised more |
| `Handshake.Responder.OnConnectMessage` | src/gekkota/gekkota_xudp.c:1516-1575 | a repeated CONNECT changes nothing; otherwise the first free slot takes the offer |
| `Handshake.Responder.OnAcknowledgeMessage` | src/gekkota/gekkota_xudp.c:1445-1454 | only the acknowledgement of the VALIDATE_CONNECT moves a slot on |
| `Handshake.Dialer.OnValidateConnectMessage` | src/gekkota/gekkota_xudp.c:1644-1704 | a mismatch ends the attempt; a match sets the remote id and the smaller MTU and connects; anything later is ignored |
| `Handshake.ConnectTakesOne` | src/gekkota/gekkota_xudp.c:1518-1535 | a CONNECT never takes a second slot for the same endpoint and session |
| `Handshake.ConnectExactly` | src/gekkota/gekkota_xudp.c:1516-1575 | a CONNECT takes a slot if and only if none with its endpoint and session is live and one is free: the first, with the terms offered and the MTU brought into range |
| `Handshake.ValidateExactly` | src/gekkota/gekkota_xudp.c:1644-1704 | a connecting initiator connects if and only if every term agrees, with the responder's id and the smaller MTU, else it is done; any other state ignores the message |
| `Handshake.RunKeeps` | src/gekkota/gekkota_xudp.c:1378-1704 | the invariant over every run of messages lost, repeated and reordered |
| `Handshake.InitiatorConnectedSafely` | src/gekkota/gekkota_xudp.c:1656-1703 | over all runs: an initiator is connected only if the slot it names accepted its session with equal channels, compression and MTU |
| `Handshake.ResponderConnectedSafely` | src/gekkota/gekkota_xudp.c:1445-1454 | over all runs: a slot past the handshake belongs to an initiator that validated, with equal MTU; the ids are mutually inverse, and no attempt holds two slots |
| `Handshake.HandshakeCompletes` | src/gekkota/gekkota_xudp.c:501-602 | a fresh offer carried by six messages leaves both sides connected |
| `Handshake.OneAnswer` | src/gekkota/gekkota_xudp.c:1656-1703 | over all runs: VALIDATE_CONNECT is acknowledged at most once, and no slot leaves the handshake of a session unless this acknowledgement arrives |
| `Handshake.LostAnswer` | src/gekkota/gekkota_xudp.c:1445-1454 | after five events the initiator is connected and the slot waits, and whatever follows without that answer arriving, no other is sent and the slot never leaves the handshake |
| `Handshake.AnswerTakesOut` | src/gekkota/gekkota_xudp.c:1445-1454 | if and only if: the answer arriving at a slot in the handshake takes it out exactly when VALIDATE_CONNECT is in its sent queue |
| `Handshake.AnswerTooLate` | src/gekkota/gekkota_xudp.c:1445-1454 | the run in which VALIDATE_CONNECT has timed out when the answer arrives: the slot stays, and for ever unless a further copy arrives |
| `Dispatch.Dispatcher.VisitClient` | src/gekkota/gekkota_xudp.c:1044-1105 | what one client yields, and how it changes |
| `Dispatch.Dispatcher.Dispatch` | src/gekkota/gekkota_xudp.c:1027-1107 | the event, the clients and the last one serviced are those of Scan, and each client is looked at once at most |
| `Dispatch.AtOnce` | src/gekkota/gekkota_xudp.c:1037-1042 | no client is met twice in a round |
| `Dispatch.NothingMissed` | src/gekkota/gekkota_xudp.c:1037-1106 | a call without event found nothing anywhere and changed nothing |
| `Dispatch.ScanFair` | src/gekkota/gekkota_xudp.c:1037-1106 | with a deliverable client a call always yields an event, for it or for a client before it |
| `Dispatch.ServedInTurn` | src/gekkota/gekkota_xudp.c:1037-1106 | a client that stays deliverable is served after at most clientCount - 1 RECEIVE or DISCONNECT events for others |
| `Dispatch.ServedExactly` | src/gekkota/gekkota_xudp.c:1037-1106 | if and only if: a client that stays deliverable is served within clientCount calls, however the clients change, exactly when no client that may stall stands before it |
| `Dispatch.Starved` | src/gekkota/gekkota_xudp.c:1081-1099 | for any number of calls: a client before it with packets that do not inflate keeps it from being served |
| `DispatchRuns.CallSteps` | src/gekkota/gekkota_xudp.c:1037-1106 | what each event says of the clients before and after the call: one packet taken off one channel and nothing else, or one state changed and nothing else |
| `DispatchRuns.NoEventNothing` | src/gekkota/gekkota_xudp.c:1037-1106 | a call yields no event if and only if nobody has just connected or ended and no channel of a connected client has anything to take |
| `DispatchRuns.FirstInTurn` | src/gekkota/gekkota_xudp.c:1037-1101 | the clients between the last one serviced and the one of the event have nothing to report, nor have the channels before the one taken from; the turn moves on with a DISCONNECT or a packet only |
| `DispatchRuns.ChannelHandedOver` | src/gekkota/gekkota_xudp.c:1071-1101 | over any number of calls: the packets reported for a channel are, in order and each once, those taken from it that inflate, and the channel is what taking them leaves |
| `DispatchRuns.EntriesFall` | src/gekkota/gekkota_xudp.c:1071-1101 | over any number of calls, with no client ended: the entries queued fall by one for each packet taken, and by nothing else |
| `DispatchRuns.ToldOnce` | src/gekkota/gekkota_xudp.c:1044-1063 | over any number of calls: a client yields at most one CONNECT and one DISCONNECT event, and only if it has just connected or has ended; others are left alone |

## Left out

- Sockets, names, addresses, modules, platform files and the test programs: I/O, foreign calls or thin wrappers.
- The loop of `_gekkota_xudp_receive` and the parsing of datagrams into messages: a rejected datagram leaves the cursor where it was, so the loop does not end. Each handler is one step.
- The window for unsequenced messages: its macro is unparenthesised and at-most-once delivery does not hold as written.
- `gekkota_buffer_copy` and packet copies: payloads are values. `blank` stands for whatever the memory of a new packet holds.
- The allocator's malloc fallback and `gekkota_memory_realloc`, which shift or lose what they return.
- Allocation failure, reference counts, errno, NULL arguments, and the rollback in `gekkota_xudpclient_send`.
- Multicast groups, pings, and what CONFIGURE_BANDWIDTH and CONFIGURE_THROTTLE announce.
- Compression inside `gekkota_xudpclient_send` and `_receive`: a packet is what goes on the wire, and which packets inflate is a parameter of `Dispatch.Dispatcher.Dispatch`. The codec is proved by itself.
- The CRC32_ENABLED build, and the byte order in which the checksum is returned.
- Window sizes and bandwidth figures in the handshake.
- A host that connects and accepts at once: in `Handshake` the responder's slots are for incoming connections, session ids are unique, and anything acknowledged other than VALIDATE_CONNECT is one kind of message.
- Lzf.Compressor.Deflate: the hash is an arbitrary function into the table, because the expression in `gekkota_lzf_index` shifts by more than the word; the trailer is 4 bytes; a source of one byte is excluded because its second byte is read, and a buffer of the library's size that is below the worst length because the loop checks no bound (`LzfFormat.LibrarySizeSuffices` gives the source that does not fit).
- Lzf.Compressor.RoundTrip: for the same reasons asks for two bytes or more and a buffer of the worst length.
- Lzf.Compressor.Inflate: the buffer must be filled by the stream without running past it, as its caller's exact buffer is; the C loop checks nothing.
- Lzf.Compressor.InflateTokens: the same, for the loop alone.
- Lzf.Compressor.InflateToken: the same, for one token.
- Crc32.Calculator.Calculate: does not convert the result to network byte order.
- MemoryPool.FastHeap.constructor: does not give the number of blocks or its default, or the error for a heap that exists already.
- MemoryPool.FastHeap.Allocate: does not zero the memory, or give the error for a heap that does not exist yet.
- Clock.RebuildExactWhen: messages under way for more than 2^31 ms are not covered.
- Channel.Channel.OnDataFragment: the offset and length of a fragment must not overflow 32 bits when added, which the receiver does not check.
- Channel.Channel.Take: does not inflate the packet or read its end point, and has no multicast case.
- Transport.DeliveredIsPrefix: numbers stay below 0xF000 and the MTU does not change; beyond the wrap there are only the results of `QueueOrder` and `Stall`.
- Client.Client.Send: does not compress, and has no refusals for multicast groups.
- Client.Client.SendAcknowledgements: does not give the number, channel and time written into each acknowledgement.
- Client.Client.CheckForTimeouts: stops where the connection is given up; what is done to the client then is `NotifyDisconnect`.
- Client.Client.OnAcknowledgeMessage: does not adjust the packet throttle or record when the peer was last heard.
- Client.Client.CloseGracefully: does not flush the DISCONNECT that a client not yet open sends before it is destroyed.
- Client.Client.ClearMessageQueues: does not clear the incoming queues, which are the class `Channel`.
- Client.Client.BuildDatagram: does not ping, and does not give the contents of the header.
- Bandwidth.Host.ThrottleBandwidth: requires that no 32-bit product overflows; with an overflow the budget can be 0 and the division fail.
- Handshake.Responder.OnConnectMessage: does not give window sizes, bandwidths or the queued answer.
- Handshake.Responder.OnAcknowledgeMessage: the search of the sent queue is a flag and the number 1, which no other control message has before the numbers wrap; `Client.Client.OnAcknowledgeMessage` has the search.
- Handshake.Dialer.OnValidateConnectMessage: does not give window size or bandwidths.
- Retransmission.GivesUpInTime: says nothing of messages first sent at instant 0, whose first timeout is not recorded (`Outlasting.AlwaysBounded` does).
- InstantZero.FallingExactly: the timeouts of the messages sent at instant 0 end within a day less 30 s, so that the failing run fits into it.
- Retransmission.BoundedRetransmission: asks for Falling in every state of the run, and fails without it (`InstantZeroRuns.UnevenSurvives`); `Outlasting.AlwaysBounded` is the bound for all runs. Runs last less than a day, beyond which the comparison of times fails.
- OutboxRuns.RunKeeps: states nothing after a close, since clearing the queues leaves reliableDataInTransit as it was.
- Client.Client: the record is split by aspect over several classes (`Client`, `Channel`, `Initiator`, `Peer`, `Slot`), each with the fields its code uses; `timeouts` and `firstSent` of a message are history.
