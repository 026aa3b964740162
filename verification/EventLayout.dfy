/**
 * Where each field of an event lies in its 216 bytes (bpf/elephantshrew_shared.h), byte by byte, so
 * that a reader in any language finds it there.
 */
module EventLayout {
  import opened Shared
  import opened Events

  // Unsigned little-endian integers at an offset.
  function Le16(s: seq<byte>, i: nat): nat
    requires i + 2 <= |s|
  {
    (s[i] as int) + 256 * (s[i + 1] as int)
  }

  function Le32(s: seq<byte>, i: nat): nat
    requires i + 4 <= |s|
  {
    Le16(s, i) + 65536 * Le16(s, i + 2)
  }

  function Le64(s: seq<byte>, i: nat): nat
    requires i + 8 <= |s|
  {
    Le32(s, i) + 4294967296 * Le32(s, i + 4)
  }

  lemma GetStep(s: seq<byte>, i: nat, n: nat)
    requires i + n <= |s| && n > 0
    ensures Get(s[i..i + n]) == (s[i] as int) + 256 * Get(s[i + 1..i + n])
  {
    assert s[i..i + n][1..] == s[i + 1..i + n];
  }

  lemma GetOne(s: seq<byte>, i: nat)
    requires i + 1 <= |s|
    ensures Get(s[i..i + 1]) == s[i]
  {
    GetStep(s, i, 1);
    assert s[i + 1..i + 1] == [];
  }

  lemma Get2(s: seq<byte>, i: nat)
    requires i + 2 <= |s|
    ensures Get(s[i..i + 2]) == Le16(s, i)
  {
    hide Get;
    GetStep(s, i, 2);
    GetOne(s, i + 1);
  }

  lemma Get4(s: seq<byte>, i: nat)
    requires i + 4 <= |s|
    ensures Get(s[i..i + 4]) == Le32(s, i)
  {
    hide Get;
    GetStep(s, i, 4);
    GetStep(s, i + 1, 3);
    Get2(s, i + 2);
  }

  lemma Get8(s: seq<byte>, i: nat)
    requires i + 8 <= |s|
    ensures Get(s[i..i + 8]) == Le64(s, i)
  {
    hide Get;
    GetStep(s, i, 8);
    GetStep(s, i + 1, 7);
    GetStep(s, i + 2, 6);
    GetStep(s, i + 3, 5);
    Get4(s, i + 4);
  }

  // --- Field after field ------------------------------------------------------------------------

  /** What is left of `s` from offset `i` on is the fields `vs` of `l`. */
  ghost predicate Rest(s: seq<byte>, i: nat, l: Layout, vs: Values) {
    i <= |s| && Fits(l, vs) && s[i..] == PutAll(l, vs)
  }

  /** The next field of a record, and the rest behind it. */
  lemma Next(s: seq<byte>, i: nat, l: Layout, vs: Values)
    requires Rest(s, i, l, vs) && l.Field?
    ensures i + l.width <= |s| && Get(s[i..i + l.width]) == vs.v && Rest(s, i + l.width, l.next, vs.rest)
  {
    GetPut(vs.v, l.width);
    var r := s[i..];
    assert r[..l.width] == Put(vs.v, l.width) && r[l.width..] == PutAll(l.next, vs.rest);
    assert s[i..i + l.width] == r[..l.width] && s[i + l.width..] == r[l.width..];
  }

  /** The next field, two, four or eight bytes wide, or one. */
  lemma Next8(s: seq<byte>, i: nat, l: Layout, vs: Values)
    requires Rest(s, i, l, vs) && l.Field? && l.width == 8
    ensures i + 8 <= |s| && Le64(s, i) == vs.v && Rest(s, i + 8, l.next, vs.rest)
  {
    hide Rest, Le64;
    Next(s, i, l, vs);
    Get8(s, i);
  }

  lemma Next4(s: seq<byte>, i: nat, l: Layout, vs: Values)
    requires Rest(s, i, l, vs) && l.Field? && l.width == 4
    ensures i + 4 <= |s| && Le32(s, i) == vs.v && Rest(s, i + 4, l.next, vs.rest)
  {
    hide Rest, Le32;
    Next(s, i, l, vs);
    Get4(s, i);
  }

  lemma Next2(s: seq<byte>, i: nat, l: Layout, vs: Values)
    requires Rest(s, i, l, vs) && l.Field? && l.width == 2
    ensures i + 2 <= |s| && Le16(s, i) == vs.v && Rest(s, i + 2, l.next, vs.rest)
  {
    hide Rest, Le16;
    Next(s, i, l, vs);
    Get2(s, i);
  }

  lemma Next1(s: seq<byte>, i: nat, l: Layout, vs: Values)
    requires Rest(s, i, l, vs) && l.Field? && l.width == 1
    ensures i + 1 <= |s| && s[i] == vs.v && Rest(s, i + 1, l.next, vs.rest)
  {
    hide Rest;
    Next(s, i, l, vs);
    GetOne(s, i);
  }

  // --- The event --------------------------------------------------------------------------------

  lemma WholeRecord(l: Layout, vs: Values)
    requires Fits(l, vs)
    ensures Rest(PutAll(l, vs), 0, l, vs)
  {
    assert PutAll(l, vs)[0..] == PutAll(l, vs);
  }

  lemma HeadSize(e: Event)
    ensures |PutAll(HEAD, HeadFields(e))| == 40
  {
    assert |WriteEvent(e)| == |PutAll(HEAD, HeadFields(e))| + 48 + 128;
  }

  /** The fields before the tuple: eight bytes each for two, four for three, two for four, then one. */
  lemma HeadAt(e: Event)
    ensures
      var s := PutAll(HEAD, HeadFields(e));
      && |s| == 40
      && Le64(s, 0) == e.timestamp && Le64(s, 8) == e.sequence
      && Le32(s, 16) == e.ifindex && Le32(s, 20) == e.originalLen && Le32(s, 24) == e.cpu
      && Le16(s, 28) == e.abiVersion && Le16(s, 30) == e.recordSize
      && Le16(s, 32) == e.capturedLen && Le16(s, 34) == e.linkType
      && s[36] == e.direction && s[37] == e.hook && s[38] == e.parseStatus && s[39] == e.flags.ToByte()
  {
    HeadSize(e);
    hide PutAll, Le64, Le32, Le16, Get, Rest, Fits, EventFlags.ToByte;
    var l, vs := HEAD, HeadFields(e);
    var s := PutAll(l, vs);
    WholeRecord(l, vs);
    Next8(s, 0, l, vs);
    l, vs := l.next, vs.rest;
    Next8(s, 8, l, vs);
    l, vs := l.next, vs.rest;
    Next4(s, 16, l, vs);
    l, vs := l.next, vs.rest;
    Next4(s, 20, l, vs);
    l, vs := l.next, vs.rest;
    Next4(s, 24, l, vs);
    l, vs := l.next, vs.rest;
    Next2(s, 28, l, vs);
    l, vs := l.next, vs.rest;
    Next2(s, 30, l, vs);
    l, vs := l.next, vs.rest;
    Next2(s, 32, l, vs);
    l, vs := l.next, vs.rest;
    Next2(s, 34, l, vs);
    l, vs := l.next, vs.rest;
    Next1(s, 36, l, vs);
    l, vs := l.next, vs.rest;
    Next1(s, 37, l, vs);
    l, vs := l.next, vs.rest;
    Next1(s, 38, l, vs);
    l, vs := l.next, vs.rest;
    Next1(s, 39, l, vs);
  }

  /** The fields of the tuple behind its addresses and ports. */
  lemma TailAt(t: Tuple)
    ensures
      var s := PutAll(TAIL, TailFields(t));
      && |s| == 12
      && Le16(s, 0) == t.ethertype && Le16(s, 2) == t.vlan[0] && Le16(s, 4) == t.vlan[1]
      && s[6] == t.ipVersion && s[7] == t.l4Proto && s[8] == t.flags.ToByte() && s[9] == t.vlanCount
      && Le16(s, 10) == t.reserved
  {
    hide PutAll, Le16, Get, Rest, Fits, TupleFlags.ToByte;
    var l, vs := TAIL, TailFields(t);
    var s := PutAll(l, vs);
    WholeRecord(l, vs);
    Next2(s, 0, l, vs);
    l, vs := l.next, vs.rest;
    Next2(s, 2, l, vs);
    l, vs := l.next, vs.rest;
    Next2(s, 4, l, vs);
    l, vs := l.next, vs.rest;
    Next1(s, 6, l, vs);
    l, vs := l.next, vs.rest;
    Next1(s, 7, l, vs);
    l, vs := l.next, vs.rest;
    Next1(s, 8, l, vs);
    l, vs := l.next, vs.rest;
    Next1(s, 9, l, vs);
    l, vs := l.next, vs.rest;
    Next2(s, 10, l, vs);
  }

  /** The 48 bytes of a tuple. */
  lemma TupleAt(t: Tuple)
    ensures
      var s := WriteTuple(t);
      && s[0..16] == t.src && s[16..32] == t.dst && s[32..34] == t.sport && s[34..36] == t.dport
      && Le16(s, 36) == t.ethertype && Le16(s, 38) == t.vlan[0] && Le16(s, 40) == t.vlan[1]
      && s[42] == t.ipVersion && s[43] == t.l4Proto && s[44] == t.flags.ToByte() && s[45] == t.vlanCount
      && Le16(s, 46) == t.reserved
  {
    hide PutAll;
    TailAt(t);
    var s, tail := WriteTuple(t), PutAll(TAIL, TailFields(t));
    assert forall i :: 0 <= i < 12 ==> s[36 + i] == tail[i];
  }

  ghost predicate IsEventFlags(b: int, f: EventFlags) {
    && (b % 2 == 1 <==> f.prefixTruncated) && (b / 2 % 2 == 1 <==> f.copyFailed)
    && (b / 4 % 2 == 1 <==> f.vlanStripped)
  }

  ghost predicate IsTupleFlags(b: int, f: TupleFlags) {
    && (b % 2 == 1 <==> f.l2Valid) && (b / 2 % 2 == 1 <==> f.addrValid)
    && (b / 4 % 2 == 1 <==> f.portsValid) && (b / 8 % 2 == 1 <==> f.fragment)
  }

  lemma FlagsAt(f: EventFlags, g: TupleFlags)
    ensures IsEventFlags(f.ToByte(), f) && IsTupleFlags(g.ToByte(), g)
  {
    EventFlagsOfByte(f);
    TupleFlagsOfByte(g);
  }

  /** The 216 bytes of an event: every field at its offset, every flag at its bit. */
  lemma EventAt(e: Event)
    ensures
      var s, t := WriteEvent(e), e.tuple;
      && |s| == 216
      && Le64(s, 0) == e.timestamp && Le64(s, 8) == e.sequence
      && Le32(s, 16) == e.ifindex && Le32(s, 20) == e.originalLen && Le32(s, 24) == e.cpu
      && Le16(s, 28) == e.abiVersion && Le16(s, 30) == e.recordSize
      && Le16(s, 32) == e.capturedLen && Le16(s, 34) == e.linkType
      && s[36] == e.direction && s[37] == e.hook && s[38] == e.parseStatus
      && IsEventFlags(s[39], e.flags)
      && s[40..56] == t.src && s[56..72] == t.dst && s[72..74] == t.sport && s[74..76] == t.dport
      && Le16(s, 76) == t.ethertype && Le16(s, 78) == t.vlan[0] && Le16(s, 80) == t.vlan[1]
      && s[82] == t.ipVersion && s[83] == t.l4Proto
      && IsTupleFlags(s[84], t.flags)
      && s[85] == t.vlanCount && Le16(s, 86) == t.reserved
      && s[88..216] == e.prefix
  {
    hide PutAll, WriteTuple, EventFlags.ToByte, TupleFlags.ToByte, IsEventFlags, IsTupleFlags;
    HeadAt(e);
    TupleAt(e.tuple);
    var head, tuple := PutAll(HEAD, HeadFields(e)), WriteTuple(e.tuple);
    var s := WriteEvent(e);
    assert s[..40] == head && s[40..88] == tuple;
    assert forall i :: 0 <= i < 40 ==> s[i] == head[i];
    assert forall i :: 0 <= i < 48 ==> s[40 + i] == tuple[i];
    Parts(s, tuple);
    FlagsAt(e.flags, e.tuple.flags);
  }

  lemma Parts(s: seq<byte>, tuple: seq<byte>)
    requires |s| == 216 && s[40..88] == tuple
    ensures s[40..56] == tuple[0..16] && s[56..72] == tuple[16..32]
    ensures s[72..74] == tuple[32..34] && s[74..76] == tuple[34..36]
  {
  }
}
