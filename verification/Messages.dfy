/** What travels in XUDP datagrams (gekkota_xudp_internal.h): message bodies with
    the payload slices that follow them, and their sizes on the wire. */
module Messages {
  import opened Words

  const HEADER_SIZE := 12
  const FRAGMENT_SIZE := 28
  const MIN_MTU := 576
  const MAX_MTU := 4096
  const DEFAULT_MTU := 1400
  const MAX_MESSAGES := 32
  const MAX_BUFFERS := 65
  const MAX_PACKET_SIZE := 2_048_000_000

  datatype Kind =
    | Acknowledge | Connect | ValidateConnect | Disconnect | JoinMulticastGroup | LeaveMulticastGroup | Ping
    | ReliableData | UnreliableData | UnsequencedData | DataFragment | ConfigureBandwidth | ConfigureThrottle

  datatype ClientState =
    | Disconnected | Connecting | AcknowledgingConnect | ConnectionPending | ConnectionSucceeded | Connected
    | DelayingDisconnect | Disconnecting | AcknowledgingDisconnect | Zombie

  /** The structure sizes, with the padding of 32-bit aligned fields. */
  function Size(kind: Kind): (r: nat)
    ensures 6 <= r <= 44
  {
    match kind
    case Acknowledge => 10
    case Connect => 44
    case ValidateConnect => 40
    case Disconnect | JoinMulticastGroup | LeaveMulticastGroup | Ping => 6
    case ReliableData => 8
    case UnreliableData => 10
    case UnsequencedData => 10
    case DataFragment => FRAGMENT_SIZE
    case ConfigureBandwidth => 16
    case ConfigureThrottle => 20
  }

  /** The messages that carry application data, with the header's sequence number. */
  datatype DataMessage =
    | Reliable(sequenceNumber: uint16, data: Bytes)
    | Unreliable(sequenceNumber: uint16, unreliableNumber: uint16, data: Bytes)
    | Unsequenced(group: uint16, data: Bytes)
    | Fragment(sequenceNumber: uint16, startNumber: uint16, count: uint32, number: uint32,
               offset: uint32, total: uint32, data: Bytes)
  {
    function Kind(): Kind {
      match this
      case Reliable(_, _) => ReliableData
      case Unreliable(_, _, _) => UnreliableData
      case Unsequenced(_, _) => UnsequencedData
      case Fragment(_, _, _, _, _, _, _) => DataFragment
    }
  }
}
