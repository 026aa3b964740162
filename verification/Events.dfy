/**
 * The 216-byte layout of es_event (bpf/elephantshrew_shared.h) and the reader that validates it
 * (inc/TelemetryTypes.hpp).  Integers other than addresses and ports are little-endian.
 */
module Events {
  import opened Shared

  const TUPLE_SIZE: nat := 48
  const EVENT_SIZE: nat := 216

  function Pow256(n: nat): (p: nat)
    ensures p > 0
  {
    if n == 0 then 1 else 256 * Pow256(n - 1)
  }

  /** `x` in `n` little-endian bytes. */
  function Put(x: nat, n: nat): (s: seq<byte>)
    ensures |s| == n
    decreases n
  {
    if n == 0 then [] else [x % 256] + Put(x / 256, n - 1)
  }

  function Get(s: seq<byte>): (x: nat)
    ensures x < Pow256(|s|)
  {
    if s == [] then 0 else s[0] as int + 256 * Get(s[1..])
  }

  lemma {:induction false} GetPut(x: nat, n: nat)
    requires x < Pow256(n)
    ensures Get(Put(x, n)) == x
    decreases n
  {
    if n > 0 {
      GetPut(x / 256, n - 1);
      assert Put(x, n)[1..] == Put(x / 256, n - 1);
    }
  }

  lemma {:induction false} PutGet(s: seq<byte>)
    ensures Put(Get(s), |s|) == s
  {
    if s != [] {
      PutGet(s[1..]);
      assert s == [s[0]] + s[1..];
    }
  }

  // --- A record of integer fields, in the order and widths of its C declaration ---------------

  datatype Layout = End | Field(width: nat, next: Layout) {
    function Size(): nat {
      if End? then 0 else width + next.Size()
    }
  }

  datatype Values = Nil | Val(v: nat, rest: Values)

  ghost predicate Fits(l: Layout, vs: Values)
    decreases l
  {
    match l
    case End => vs.Nil?
    case Field(width, next) => vs.Val? && vs.v < Pow256(width) && Fits(next, vs.rest)
  }

  function PutAll(l: Layout, vs: Values): (s: seq<byte>)
    requires Fits(l, vs)
    ensures |s| == l.Size()
    decreases vs
  {
    if l.End? then [] else Put(vs.v, l.width) + PutAll(l.next, vs.rest)
  }

  function GetAll(l: Layout, s: seq<byte>): (vs: Values)
    requires |s| == l.Size()
    ensures Fits(l, vs)
    decreases |s|, l
  {
    if l.End? then Nil else Val(Get(s[..l.width]), GetAll(l.next, s[l.width..]))
  }

  lemma {:induction false} GetPutAll(l: Layout, vs: Values)
    requires Fits(l, vs)
    ensures GetAll(l, PutAll(l, vs)) == vs
  {
    if l.Field? {
      var s := PutAll(l, vs);
      GetPut(vs.v, l.width);
      GetPutAll(l.next, vs.rest);
      assert s[..l.width] == Put(vs.v, l.width) && s[l.width..] == PutAll(l.next, vs.rest);
    }
  }

  lemma {:induction false} PutGetAll(l: Layout, s: seq<byte>)
    requires |s| == l.Size()
    ensures PutAll(l, GetAll(l, s)) == s
  {
    if l.Field? {
      PutGet(s[..l.width]);
      PutGetAll(l.next, s[l.width..]);
      assert s == s[..l.width] + s[l.width..];
    }
  }

  // --- The layout -------------------------------------------------------------------------------

  /** The fields of es_event before the tuple, at offsets 0..40. */
  const HEAD := Field(8, Field(8, Field(4, Field(4, Field(4, Field(2, Field(2, Field(2, Field(2,
                  Field(1, Field(1, Field(1, Field(1, End)))))))))))))
  /** The fields of es_tuple behind its addresses and ports, at offsets 36..48. */
  const TAIL := Field(2, Field(2, Field(2, Field(1, Field(1, Field(1, Field(1, Field(2, End))))))))

  function HeadFields(e: Event): (vs: Values)
    ensures Fits(HEAD, vs)
  {
    Val(e.timestamp, Val(e.sequence, Val(e.ifindex, Val(e.originalLen, Val(e.cpu,
    Val(e.abiVersion, Val(e.recordSize, Val(e.capturedLen, Val(e.linkType,
    Val(e.direction, Val(e.hook, Val(e.parseStatus, Val(e.flags.ToByte(), Nil)))))))))))))
  }

  function HeadFrom(vs: Values, tuple: Tuple, prefix: Snapshot): Event
    requires Fits(HEAD, vs)
  {
    match vs
    case Val(timestamp, Val(sequence, Val(ifindex, Val(originalLen, Val(cpu,
         Val(abiVersion, Val(recordSize, Val(capturedLen, Val(linkType,
         Val(direction, Val(hook, Val(parseStatus, Val(flags, Nil))))))))))))) =>
      Event(timestamp, sequence, ifindex, originalLen, cpu, abiVersion, recordSize, capturedLen, linkType,
            direction, hook, parseStatus, EventFlags.FromByte(flags), tuple, prefix)
  }

  function TailFields(t: Tuple): (vs: Values)
    ensures Fits(TAIL, vs)
  {
    Val(t.ethertype, Val(t.vlan[0], Val(t.vlan[1], Val(t.ipVersion, Val(t.l4Proto,
    Val(t.flags.ToByte(), Val(t.vlanCount, Val(t.reserved, Nil))))))))
  }

  function TailFrom(src: Address, dst: Address, sport: Port, dport: Port, vs: Values): Tuple
    requires Fits(TAIL, vs)
  {
    match vs
    case Val(ethertype, Val(vlan0, Val(vlan1, Val(ipVersion, Val(l4Proto,
         Val(flags, Val(vlanCount, Val(reserved, Nil)))))))) =>
      Tuple(src, dst, sport, dport, ethertype, [vlan0, vlan1], ipVersion, l4Proto,
            TupleFlags.FromByte(flags), vlanCount, reserved)
  }

  function WriteTuple(t: Tuple): (s: seq<byte>)
    ensures |s| == TUPLE_SIZE
  {
    t.src + t.dst + t.sport + t.dport + PutAll(TAIL, TailFields(t))
  }

  function ReadTuple(s: seq<byte>): Tuple
    requires |s| == TUPLE_SIZE
  {
    TailFrom(s[..16], s[16..32], s[32..34], s[34..36], GetAll(TAIL, s[36..]))
  }

  function WriteEvent(e: Event): (s: seq<byte>)
    ensures |s| == EVENT_SIZE
  {
    PutAll(HEAD, HeadFields(e)) + WriteTuple(e.tuple) + e.prefix
  }

  function ReadEvent(s: seq<byte>): Event
    requires |s| == EVENT_SIZE
  {
    HeadFrom(GetAll(HEAD, s[..40]), ReadTuple(s[40..88]), s[88..])
  }

  lemma TupleFlagsOfByte(f: TupleFlags)
    ensures TupleFlags.FromByte(f.ToByte()) == f
  {
    var b := f.ToByte();
    assert b / 2 == Bit(f.addrValid) + 2 * Bit(f.portsValid) + 4 * Bit(f.fragment) + 8 * f.unknown;
    assert b / 4 == Bit(f.portsValid) + 2 * Bit(f.fragment) + 4 * f.unknown;
    assert b / 8 == Bit(f.fragment) + 2 * f.unknown;
  }

  lemma ByteOfTupleFlags(b: byte)
    ensures TupleFlags.FromByte(b).ToByte() == b
  {
    assert b == b % 2 + 2 * (b / 2) && b / 2 == b / 2 % 2 + 2 * (b / 4);
    assert b / 4 == b / 4 % 2 + 2 * (b / 8) && b / 8 == b / 8 % 2 + 2 * (b / 16);
  }

  lemma EventFlagsOfByte(f: EventFlags)
    ensures EventFlags.FromByte(f.ToByte()) == f
  {
    var b := f.ToByte();
    assert b / 2 == Bit(f.copyFailed) + 2 * Bit(f.vlanStripped) + 4 * f.unknown;
    assert b / 4 == Bit(f.vlanStripped) + 2 * f.unknown;
  }

  lemma ByteOfEventFlags(b: byte)
    ensures EventFlags.FromByte(b).ToByte() == b
  {
    assert b == b % 2 + 2 * (b / 2) && b / 2 == b / 2 % 2 + 2 * (b / 4) && b / 4 == b / 4 % 2 + 2 * (b / 8);
  }

  lemma TailOfFields(t: Tuple)
    ensures TailFrom(t.src, t.dst, t.sport, t.dport, TailFields(t)) == t
  {
    TupleFlagsOfByte(t.flags);
    assert t.vlan == [t.vlan[0], t.vlan[1]];
  }

  lemma FieldsOfTail(src: Address, dst: Address, sport: Port, dport: Port, vs: Values)
    requires Fits(TAIL, vs)
    ensures TailFields(TailFrom(src, dst, sport, dport, vs)) == vs
  {
    ByteOfTupleFlags(vs.rest.rest.rest.rest.rest.v);
  }

  lemma HeadOfFields(e: Event)
    ensures HeadFrom(HeadFields(e), e.tuple, e.prefix) == e
  {
    EventFlagsOfByte(e.flags);
  }

  lemma FieldsOfHead(vs: Values, tuple: Tuple, prefix: Snapshot)
    requires Fits(HEAD, vs)
    ensures HeadFields(HeadFrom(vs, tuple, prefix)) == vs
  {
    ByteOfEventFlags(vs.rest.rest.rest.rest.rest.rest.rest.rest.rest.rest.rest.rest.v);
  }

  lemma TupleParts(a: Address, b: Address, c: Port, d: Port, tail: seq<byte>)
    requires |tail| == 12
    ensures
      var s := a + b + c + d + tail;
      s[..16] == a && s[16..32] == b && s[32..34] == c && s[34..36] == d && s[36..] == tail
  {
  }

  lemma EventParts(head: seq<byte>, tuple: seq<byte>, prefix: Snapshot)
    requires |head| == 40 && |tuple| == TUPLE_SIZE
    ensures
      var s := head + tuple + prefix;
      s[..40] == head && s[40..88] == tuple && s[88..] == prefix
  {
  }

  lemma ReadWrittenTuple(t: Tuple)
    ensures ReadTuple(WriteTuple(t)) == t
  {
    TupleParts(t.src, t.dst, t.sport, t.dport, PutAll(TAIL, TailFields(t)));
    GetPutAll(TAIL, TailFields(t));
    TailOfFields(t);
  }

  lemma WriteReadTuple(s: seq<byte>)
    requires |s| == TUPLE_SIZE
    ensures WriteTuple(ReadTuple(s)) == s
  {
    FieldsOfTail(s[..16], s[16..32], s[32..34], s[34..36], GetAll(TAIL, s[36..]));
    PutGetAll(TAIL, s[36..]);
    assert s == s[..16] + s[16..32] + s[32..34] + s[34..36] + s[36..];
  }

  /** Writing then reading gives the event back. */
  lemma ReadWrittenEvent(e: Event)
    ensures ReadEvent(WriteEvent(e)) == e
  {
    EventParts(PutAll(HEAD, HeadFields(e)), WriteTuple(e.tuple), e.prefix);
    ReadWrittenTuple(e.tuple);
    GetPutAll(HEAD, HeadFields(e));
    HeadOfFields(e);
  }

  lemma WriteReadParts(head: seq<byte>, body: seq<byte>, prefix: Snapshot)
    requires |head| == 40 && |body| == TUPLE_SIZE
    ensures WriteEvent(HeadFrom(GetAll(HEAD, head), ReadTuple(body), prefix)) == head + body + prefix
  {
    var vs, tuple := GetAll(HEAD, head), ReadTuple(body);
    FieldsOfHead(vs, tuple, prefix);
    PutGetAll(HEAD, head);
    WriteReadTuple(body);
  }

  /** Reading then writing gives the bytes back: the layout has no padding. */
  lemma WriteReadEvent(s: seq<byte>)
    requires |s| == EVENT_SIZE
    ensures WriteEvent(ReadEvent(s)) == s
  {
    WriteReadParts(s[..40], s[40..88], s[88..]);
    Rejoin(s);
  }

  lemma Rejoin(s: seq<byte>)
    requires |s| == EVENT_SIZE
    ensures s[..40] + s[40..88] + s[88..] == s
  {
  }

  // --- The validating reader --------------------------------------------------------------------

  /** DecodeEvent on the `data` of a ring callback; None is a null pointer or a `false` result. */
  function DecodeEvent(data: Option<seq<byte>>): Option<Event> {
    if data.None? || |data.value| != EVENT_SIZE then None else Validated(ReadEvent(data.value))
  }

  /** The checks of DecodeEvent on its byte copy. */
  function Validated(e: Event): Option<Event> {
    if e.abiVersion != ABI_VERSION || e.recordSize != EVENT_SIZE ||
       e.ifindex == 0 || e.direction >= DIRECTIONS ||
       (e.hook != HOOK_TC && e.hook != HOOK_XDP) ||
       e.linkType != LINKTYPE_ETHERNET ||
       e.parseStatus > Skipped.Code() ||
       e.capturedLen > SNAPSHOT_MAX || e.capturedLen > e.originalLen ||
       e.tuple.vlanCount > 2 || e.tuple.reserved != 0 ||
       e.flags.unknown != 0 || e.tuple.flags.unknown != 0 then None
    else if e.flags.copyFailed && e.capturedLen != 0 then None
    else if e.tuple.flags.portsValid &&
            (!e.tuple.flags.addrValid || e.tuple.flags.fragment ||
             (e.tuple.l4Proto != 6 && e.tuple.l4Proto != 17)) then None
    else Some(e)
  }

  /** What a consumer may rely on in every event it is given. */
  ghost predicate Acceptable(e: Event) {
    && e.abiVersion == 2 && e.recordSize == 216 && e.linkType == 1
    && e.ifindex > 0 && e.direction < 2 && (e.hook == 1 || e.hook == 2) && e.parseStatus <= 5
    && e.capturedLen <= 128 && e.capturedLen <= e.originalLen
    && (e.flags.copyFailed ==> e.capturedLen == 0) && e.flags.unknown == 0
    && e.tuple.vlanCount <= 2 && e.tuple.reserved == 0 && e.tuple.flags.unknown == 0
    && (e.tuple.flags.portsValid ==>
          e.tuple.flags.addrValid && !e.tuple.flags.fragment && e.tuple.l4Proto in {6, 17})
  }

  lemma ValidatedIsAcceptable(e: Event)
    ensures Validated(e) == if Acceptable(e) then Some(e) else None
  {
  }

  /** DecodeEvent yields `e` exactly from the layout of `e`, and only for acceptable events. */
  lemma DecodeExactly(data: seq<byte>, e: Event)
    ensures DecodeEvent(Some(data)) == Some(e) <==> data == WriteEvent(e) && Acceptable(e)
  {
    ReadWrittenEvent(e);
    ValidatedIsAcceptable(e);
    if |data| == EVENT_SIZE {
      WriteReadEvent(data);
      ValidatedIsAcceptable(ReadEvent(data));
    }
  }
}
