/**
 * Types, constants and records shared by the kernel programs and the user-space reader
 * (bpf/elephantshrew_shared.h).
 */
module Shared {
  type byte = x: int | 0 <= x < 0x100
  type word16 = x: int | 0 <= x < 0x1_0000
  type word32 = x: int | 0 <= x < 0x1_0000_0000
  type word64 = x: int | 0 <= x < 0x1_0000_0000_0000_0000

  const TWO_64: int := 0x1_0000_0000_0000_0000

  const ABI_VERSION: word16 := 2
  const PARSE_BYTES: nat := 128
  const SNAPSHOT_MAX: nat := 128
  const LINKTYPE_ETHERNET: word16 := 1
  const DIRECTIONS: byte := 2
  const HOOK_TC: byte := 1
  const HOOK_XDP: byte := 2

  // verdicts of a tc program
  const TC_NEXT: int := -1
  const TC_DROP: int := 2

  datatype Option<+T> = None | Some(value: T)

  /** es_parse_status, in the order of its numeric codes. */
  datatype Status = Ok | Truncated | Unsupported | Malformed | Fragment | Skipped {
    function Code(): (c: byte)
      ensures c <= 5
    {
      match this
      case Ok => 0
      case Truncated => 1
      case Unsupported => 2
      case Malformed => 3
      case Fragment => 4
      case Skipped => 5
    }
  }

  function Min(a: int, b: int): int {
    if a < b then a else b
  }

  /** Unsigned 64-bit arithmetic wraps. */
  function Wrap64(x: nat): (r: word64)
    ensures x < TWO_64 ==> r == x
  {
    x % 0x1_0000_0000_0000_0000
  }

  function Plus(x: word64, n: nat): word64 {
    Wrap64(x as int + n)
  }

  function Bit(b: bool): (r: byte) {
    if b then 1 else 0
  }

  function Zeros(n: nat): (z: seq<byte>)
    ensures |z| == n && forall i :: 0 <= i < n ==> z[i] == 0
  {
    seq(n, _ => 0)
  }

  type Address = s: seq<byte> | |s| == 16 witness Zeros(16)
  type Port = s: seq<byte> | |s| == 2 witness Zeros(2)
  type VlanPair = s: seq<word16> | |s| == 2 witness [0, 0]
  type Nibble = x: int | 0 <= x < 16
  type FiveBits = x: int | 0 <= x < 32

  /** The bits of es_tuple.flags; `unknown` holds the four bits without a name. */
  datatype TupleFlags = TupleFlags(l2Valid: bool, addrValid: bool, portsValid: bool, fragment: bool, unknown: Nibble) {
    function ToByte(): byte {
      Bit(l2Valid) + 2 * Bit(addrValid) + 4 * Bit(portsValid) + 8 * Bit(fragment) + 16 * unknown
    }
    static function FromByte(b: byte): TupleFlags {
      TupleFlags(b % 2 == 1, b / 2 % 2 == 1, b / 4 % 2 == 1, b / 8 % 2 == 1, b / 16)
    }
  }

  /** The bits of es_event.flags; `unknown` holds the five bits without a name. */
  datatype EventFlags = EventFlags(prefixTruncated: bool, copyFailed: bool, vlanStripped: bool, unknown: FiveBits) {
    function ToByte(): byte {
      Bit(prefixTruncated) + 2 * Bit(copyFailed) + 4 * Bit(vlanStripped) + 8 * unknown
    }
    static function FromByte(b: byte): EventFlags {
      EventFlags(b % 2 == 1, b / 2 % 2 == 1, b / 4 % 2 == 1, b / 8)
    }
  }

  /** es_tuple. Addresses and ports are kept as the network-order bytes of the frame. */
  datatype Tuple = Tuple(
    src: Address, dst: Address, sport: Port, dport: Port,
    ethertype: word16, vlan: VlanPair, ipVersion: byte, l4Proto: byte,
    flags: TupleFlags, vlanCount: byte, reserved: word16)
  {
    /** One VLAN ID more. */
    function PushVlan(vid: word16): Tuple
      requires vlanCount < 2
    {
      this.(vlan := vlan[vlanCount := vid], vlanCount := vlanCount + 1)
    }
  }

  const NO_FLAGS := TupleFlags(false, false, false, false, 0)
  const ZERO_TUPLE := Tuple(Zeros(16), Zeros(16), Zeros(2), Zeros(2), 0, [0, 0], 0, 0, NO_FLAGS, 0, 0)

  /** es_event: what the observer publishes and DecodeEvent reads back. */
  datatype Event = Event(
    timestamp: word64, sequence: word64, ifindex: word32, originalLen: word32, cpu: word32,
    abiVersion: word16, recordSize: word16, capturedLen: word16, linkType: word16,
    direction: byte, hook: byte, parseStatus: byte, flags: EventFlags,
    tuple: Tuple, prefix: Snapshot)

  type Snapshot = s: seq<byte> | |s| == SNAPSHOT_MAX witness Zeros(SNAPSHOT_MAX)
}
