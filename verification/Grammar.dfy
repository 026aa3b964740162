/**
 * An unbounded reader of complete frames, written without offsets or capture lengths, and the proof
 * that the bounded decoder agrees with it.
 *
 * Each reader consumes a byte string from the front.  Tag stacks and extension chains are read
 * however long they are; the documented limits (two tags, four extension headers) are applied to
 * the lists that come out.  A reading also says how many leading bytes of the frame it rests on,
 * which is exactly the capture length from which the decoder stops answering Truncated.
 */
module Grammar {
  import opened Shared
  import opened Parser

  const MAX_TAGS: nat := 2
  const MAX_EXTS: nat := 4

  datatype Reading = Reading(status: Status, tuple: Tuple, used: nat) {
    function After(n: nat): Reading {
      this.(used := used + n)
    }
  }

  /** Every tag announced by a type field, the VLAN IDs of those present, and what follows them. */
  datatype TagStack = TagStack(tpids: seq<word16>, vids: seq<word16>, etype: word16, rest: seq<byte>)

  function ReadTags(etype: word16, rest: seq<byte>): (s: TagStack)
    ensures |s.vids| <= |s.tpids| <= |s.vids| + 1
    ensures |s.vids| == |s.tpids| ==> !IsVlan(s.etype)
    ensures |rest| == |s.rest| + 4 * |s.vids|
    decreases |rest|
  {
    if !IsVlan(etype) then TagStack([], [], etype, rest)
    else if |rest| < 4 then TagStack([etype], [], etype, rest)
    else
      var s := ReadTags(Be16(rest, 2), rest[4..]);
      TagStack([etype] + s.tpids, [Be16(rest, 0) % 0x1000] + s.vids, s.etype, s.rest)
  }

  /** An extension header that is present in full: its protocol number and its length. */
  datatype ExtHeader = ExtHeader(kind: byte, len: nat)

  datatype ChainEnd =
    | Upper(proto: byte, payload: seq<byte>)  // something that is not an extension header
    | Cut(kind: byte, seen: nat)              // a header that does not fit; `seen` bytes showed it
    | Fragmented(proto: byte)                 // a fragment header

  datatype Chain = Chain(headers: seq<ExtHeader>, end: ChainEnd) {
    function Behind(h: ExtHeader): Chain {
      Chain([h] + headers, end)
    }
  }

  function ReadExts(next: byte, body: seq<byte>): Chain
    decreases |body|
  {
    if !IsExt(next) then Chain([], Upper(next, body))
    else if |body| < 2 then Chain([], Cut(next, 0))
    else if next == 44 then Chain([], if |body| < 8 then Cut(next, 2) else Fragmented(body[0]))
    else if |body| < ExtLen(next, body[1]) then Chain([], Cut(next, 2))
    else ReadExts(body[0], body[ExtLen(next, body[1])..]).Behind(ExtHeader(next, ExtLen(next, body[1])))
  }

  function Total(headers: seq<ExtHeader>): nat {
    if headers == [] then 0 else headers[0].len + Total(headers[1..])
  }

  /** The protocol number announced after `k` headers. */
  function KindAt(c: Chain, k: nat): byte
    requires k <= |c.headers|
  {
    if k < |c.headers| then c.headers[k].kind
    else match c.end
      case Upper(proto, _) => proto
      case Cut(kind, _) => kind
      case Fragmented(_) => 44
  }

  function ReadTransport(seg: seq<byte>, t: Tuple): Reading {
    var ports :=
      if |seg| < 4 then t
      else t.(sport := seg[..2], dport := seg[2..4], flags := t.flags.(portsValid := true));
    if t.l4Proto == 6 then
      if |seg| < 20 then Reading(Malformed, t, 0)
      else
        var dataOffset := seg[12] / 16 * 4;
        if 20 <= dataOffset <= |seg| then Reading(Ok, ports, 20) else Reading(Malformed, t, 20)
    else if t.l4Proto == 17 then
      if |seg| < 8 then Reading(Malformed, t, 0)
      else if 8 <= Be16(seg, 4) <= |seg| then Reading(Ok, ports, 8)
      else Reading(Malformed, t, 8)
    else Reading(Ok, t, 0)
  }

  function ReadArp(p: seq<byte>, t: Tuple): Reading {
    if |p| < 28 then Reading(Malformed, t, 0)
    else if p[..6] != [0, 1, 8, 0, 6, 4] then Reading(Unsupported, t, 28)
    else Reading(Ok, WithAddresses(t, 4, p[14..18], p[24..28]), 28)
  }

  function ReadV4(p: seq<byte>, t: Tuple): Reading {
    if |p| < 20 then Reading(Malformed, t, 0)
    else
      var ihl, total := p[0] % 16 * 4, Be16(p, 2);
      if p[0] / 16 != 4 || !(20 <= ihl <= total <= |p|) then Reading(Malformed, t, 20)
      else
        ReadV4Header(p[..total], ihl, t)
  }

  function ReadV4Header(d: seq<byte>, ihl: nat, t: Tuple): Reading
    requires 20 <= ihl <= |d|
  {
    var t1 := WithAddresses(t, 4, d[12..16], d[16..20]).(l4Proto := d[9]);
    if Be16(d, 6) % 0x4000 != 0 then Reading(Fragment, t1.(flags := t1.flags.(fragment := true)), ihl)
    else ReadTransport(d[ihl..], t1).After(ihl)
  }

  function ReadV6(p: seq<byte>, t: Tuple): Reading {
    if |p| < 40 then Reading(Malformed, t, 0)
    else
      var payload := Be16(p, 4);
      if p[0] / 16 != 6 then Reading(Malformed, t, 40)
      else if payload == 0 then Reading(Unsupported, t, 40)
      else if payload > |p| - 40 then Reading(Malformed, t, 40)
      else ReadChain(ReadExts(p[6], p[40..][..payload]), WithAddresses(t, 6, p[8..24], p[24..40])).After(40)
  }

  function ReadChain(c: Chain, t: Tuple): Reading {
    if |c.headers| + (if c.end.Upper? then 0 else 1) > MAX_EXTS then
      Reading(Unsupported, t.(l4Proto := KindAt(c, MAX_EXTS)), Total(c.headers[..MAX_EXTS]))
    else
      var seen := Total(c.headers);
      match c.end
      case Cut(_, n) => Reading(Malformed, t, seen + n)
      case Fragmented(proto) => Reading(Fragment, t.(l4Proto := proto, flags := t.flags.(fragment := true)), seen + 8)
      case Upper(proto, payload) =>
        var t1 := t.(l4Proto := proto);
        if proto == 50 then Reading(Unsupported, t1, seen) else ReadTransport(payload, t1).After(seen)
  }

  function ReadNetwork(etype: word16, p: seq<byte>, t: Tuple): Reading {
    if etype == 0x0806 then ReadArp(p, t)
    else if etype == 0x0800 then ReadV4(p, t)
    else if etype == 0x86dd then ReadV6(p, t)
    else Reading(Unsupported, t, 0)
  }

  /** The tuple of a frame whose tags, outermost first, carry the VLAN IDs `vids`. */
  function TaggedTuple(vids: seq<word16>): Tuple
    requires |vids| <= MAX_TAGS
  {
    ZERO_TUPLE.(flags := NO_FLAGS.(l2Valid := true), vlan := vids + [0, 0][|vids|..], vlanCount := |vids|)
  }

  function ReadFrame(f: seq<byte>, stripped: Option<word16>): Reading {
    if |f| < 14 then Reading(Malformed, ZERO_TUPLE, 0)
    else
      var outer := if stripped.Some? then [stripped.value % 0x1000] else [];
      ReadStack(outer, ReadTags(Be16(f, 12), f[14..]), stripped.Some?).After(14)
  }

  /**
   * `outer` are the VLAN IDs already known.  Past the limit the type of the third tag is recorded
   * as the Ethertype, unless one of the first two tags had been stripped.
   */
  function ReadStack(outer: seq<word16>, s: TagStack, strippedOne: bool): Reading
    requires |outer| <= MAX_TAGS && |s.vids| <= |s.tpids| <= |s.vids| + 1
  {
    if |outer| + |s.tpids| > MAX_TAGS then
      var room := MAX_TAGS - |outer|;
      var t := TaggedTuple(outer + s.vids[..room]);
      Reading(Unsupported, if strippedOne then t else t.(ethertype := s.tpids[room]), 4 * room)
    else
      var t := TaggedTuple(outer + s.vids);
      if |s.vids| < |s.tpids| then Reading(Malformed, t, 4 * |s.vids|)
      else ReadNetwork(s.etype, s.rest, t.(ethertype := s.etype)).After(4 * |s.vids|)
  }

  // --- The bounded decoder agrees with the reader -----------------------------------------------

  // Below, `b` is a capture of the frame `f`, that is, a prefix of it.

  /** `o` is what a decoder seeing `c` bytes should answer, given a reading that starts at `base`. */
  ghost predicate Answers(o: Outcome, r: Reading, base: nat, c: nat) {
    && r.status != Truncated
    && (c < base + r.used ==> o.status == Truncated)
    && (c >= base + r.used ==> o == Outcome(r.status, r.tuple))
  }

  lemma SliceOfCapture(b: seq<byte>, f: seq<byte>, off: nat, end: nat, i: nat, j: nat)
    requires i <= j && off + j <= |b| && b <= f && off + j <= end <= |f|
    ensures b[off + i..off + j] == f[off..end][i..j]
  {
    assert forall k :: 0 <= k < j - i ==> b[off + i..off + j][k] == f[off + i + k] == f[off..end][i..j][k];
  }

  lemma SliceOfRest(f: seq<byte>, off: nat, end: nat, n: nat)
    requires off + n <= end <= |f|
    ensures f[off..end][n..] == f[off + n..end]
  {
  }

  lemma TransportAnswers(b: seq<byte>, f: seq<byte>, end: nat, l4: nat, t: Tuple)
    requires l4 <= |b| && b <= f && l4 <= end <= |f|
    ensures Answers(ParseTransport(b, end, l4, t), ReadTransport(f[l4..end], t), l4, |b|)
    ensures ReadTransport(f[l4..end], t).used <= end - l4
  {
    var seg := f[l4..end];
    if l4 + 4 <= |b| && l4 + 4 <= end {
      SliceOfCapture(b, f, l4, end, 0, 2);
      SliceOfCapture(b, f, l4, end, 2, 4);
    }
  }

  /** What ScanExts, allowed `k` more headers, returns on a chain that starts at `off`. */
  ghost function ScanOf(ch: Chain, t: Tuple, off: nat, k: nat, c: nat): ExtScan {
    var seen := Total(ch.headers[..Min(k, |ch.headers|)]);
    if |ch.headers| >= k || ch.end.Upper? then
      if c < off + seen then ExtStop(Outcome(Truncated, t))
      else ExtDone(off + seen, KindAt(ch, Min(k, |ch.headers|)))
    else match ch.end
      case Cut(_, n) => ExtStop(Outcome(if c < off + seen + n then Truncated else Malformed, t))
      case Fragmented(proto) =>
        if c < off + seen + 8 then ExtStop(Outcome(Truncated, t))
        else ExtStop(Outcome(Fragment, t.(l4Proto := proto, flags := t.flags.(fragment := true))))
  }

  lemma ScanOfCons(h: ExtHeader, rest: Chain, t: Tuple, off: nat, k: nat, c: nat)
    ensures
      var s := ScanOf(rest.Behind(h), t, off, k + 1, c);
      if c < off + h.len then s == ExtStop(Outcome(Truncated, t))
      else s == ScanOf(rest, t, off + h.len, k, c)
  {
    var hs, m := [h] + rest.headers, Min(k, |rest.headers|);
    assert hs[..m + 1] == [h] + rest.headers[..m];
    assert ([h] + rest.headers[..m])[1..] == rest.headers[..m];
  }

  /** A whole header that is not a fragment header starts `body`. */
  predicate StartsHeader(next: byte, body: seq<byte>) {
    IsExt(next) && next != 44 && |body| >= 2 && ExtLen(next, body[1]) <= |body|
  }

  lemma ReadExtsCases(next: byte, body: seq<byte>)
    ensures
      var c := ReadExts(next, body);
      if StartsHeader(next, body) then
        var n := ExtLen(next, body[1]);
        c == ReadExts(body[0], body[n..]).Behind(ExtHeader(next, n))
      else
        c.headers == [] && ChainOk(c, body)
  {
  }

  /** One round of the header loop on a capture that may be too short for it. */
  lemma ScanExtsRound(b: seq<byte>, f: seq<byte>, end: nat, off: nat, next: byte, t: Tuple, i: nat)
    requires off <= |b| && b <= f && off <= end <= |f| && i < MAX_EXTS && StartsHeader(next, f[off..end])
    ensures
      var body := f[off..end];
      var n := ExtLen(next, body[1]);
      ScanExts(b, end, off, next, t, i) ==
      if off + n <= |b| then ScanExts(b, end, off + n, body[0], t, i + 1) else ExtStop(Outcome(Truncated, t))
  {
    var body := f[off..end];
    assert off + 2 <= |b| ==> b[off] == body[0] && b[off + 1] == body[1];
  }

  /** The header loop where no header can be passed. */
  lemma ScanExtsHere(b: seq<byte>, f: seq<byte>, end: nat, off: nat, next: byte, t: Tuple, i: nat)
    requires off <= |b| && b <= f && off <= end <= |f| && i < MAX_EXTS && !StartsHeader(next, f[off..end])
    ensures ScanExts(b, end, off, next, t, i) == ScanOf(ReadExts(next, f[off..end]), t, off, MAX_EXTS - i, |b|)
  {
    var body := f[off..end];
    assert off + 2 <= |b| && off + 2 <= end ==> b[off] == body[0] && b[off + 1] == body[1];
  }

  lemma {:induction false} ScanExtsAnswers(b: seq<byte>, f: seq<byte>, end: nat, off: nat, next: byte, t: Tuple, i: nat)
    requires off <= |b| && b <= f && off <= end <= |f| && i <= MAX_EXTS
    ensures ScanExts(b, end, off, next, t, i) == ScanOf(ReadExts(next, f[off..end]), t, off, MAX_EXTS - i, |b|)
    decreases MAX_EXTS - i
  {
    hide ReadExts, ScanOf;
    var body := f[off..end];
    if i == MAX_EXTS {
      ScanOfNothing(ReadExts(next, body), t, off, |b|);
      ReadExtsFirst(next, body);
    } else if StartsHeader(next, body) {
      hide ScanExts;
      var n := ExtLen(next, body[1]);
      ReadExtsCases(next, body);
      SliceOfRest(f, off, end, n);
      ScanOfCons(ExtHeader(next, n), ReadExts(body[0], body[n..]), t, off, MAX_EXTS - i - 1, |b|);
      ScanExtsRound(b, f, end, off, next, t, i);
      if off + n <= |b| {
        ScanExtsAnswers(b, f, end, off + n, body[0], t, i + 1);
      }
    } else {
      hide ScanExts;
      ScanExtsHere(b, f, end, off, next, t, i);
    }
  }

  lemma ScanOfNothing(ch: Chain, t: Tuple, off: nat, c: nat)
    requires off <= c
    ensures ScanOf(ch, t, off, 0, c) == ExtDone(off, KindAt(ch, 0))
  {
  }

  lemma ReadExtsFirst(next: byte, body: seq<byte>)
    ensures KindAt(ReadExts(next, body), 0) == next
  {
  }

  ghost predicate ChainOk(c: Chain, body: seq<byte>) {
    && Total(c.headers) <= |body|
    && (forall h <- c.headers :: IsExt(h.kind))
    && match c.end
       case Upper(proto, payload) => !IsExt(proto) && payload == body[Total(c.headers)..]
       case Cut(kind, seen) => IsExt(kind) && Total(c.headers) + seen <= |body|
       case Fragmented(_) => Total(c.headers) + 8 <= |body|
  }

  lemma ChainOkCons(h: ExtHeader, c: Chain, body: seq<byte>)
    requires h.len <= |body| && IsExt(h.kind) && ChainOk(c, body[h.len..])
    ensures ChainOk(c.Behind(h), body)
  {
    assert c.Behind(h).headers[1..] == c.headers;
    assert body[h.len..][Total(c.headers)..] == body[h.len + Total(c.headers)..];
  }

  lemma {:induction false} ChainFacts(next: byte, body: seq<byte>)
    ensures ChainOk(ReadExts(next, body), body)
    decreases |body|
  {
    hide ReadExts, ChainOk;
    ReadExtsCases(next, body);
    if StartsHeader(next, body) {
      var n := ExtLen(next, body[1]);
      ChainFacts(body[0], body[n..]);
      ChainOkCons(ExtHeader(next, n), ReadExts(body[0], body[n..]), body);
    }
  }

  /** More headers than the decoder follows. */
  lemma LongChainAnswers(b: seq<byte>, end: nat, off: nat, ch: Chain, t: Tuple)
    requires |ch.headers| > MAX_EXTS || (|ch.headers| == MAX_EXTS && !ch.end.Upper?)
    requires IsExt(KindAt(ch, MAX_EXTS))
    ensures Answers(FinishExts(b, end, ScanOf(ch, t, off, MAX_EXTS, |b|), t), ReadChain(ch, t), off, |b|)
  {
  }

  lemma ShortChainAnswers(b: seq<byte>, f: seq<byte>, end: nat, off: nat, ch: Chain, t: Tuple)
    requires b <= f && off <= |b|
    requires |ch.headers| + (if ch.end.Upper? then 0 else 1) <= MAX_EXTS
    requires ch.end.Upper? ==>
               var l4 := off + Total(ch.headers);
               !IsExt(ch.end.proto) && l4 <= end <= |f| && ch.end.payload == f[l4..end]
    ensures Answers(FinishExts(b, end, ScanOf(ch, t, off, MAX_EXTS, |b|), t), ReadChain(ch, t), off, |b|)
    ensures ch.end.Upper? ==> ReadChain(ch, t).used <= end - off
  {
    assert ch.headers[..|ch.headers|] == ch.headers;
    if ch.end.Upper? {
      var l4 := off + Total(ch.headers);
      TransportAnswers(if l4 <= |b| then b else f, f, end, l4, t.(l4Proto := ch.end.proto));
    }
  }

  lemma V6BodyAnswers(b: seq<byte>, f: seq<byte>, end: nat, off: nat, next: byte, t: Tuple)
    requires off <= |b| && b <= f && off <= end <= |f|
    ensures Answers(ParseV6Body(b, end, off, next, t), ReadChain(ReadExts(next, f[off..end]), t), off, |b|)
    ensures ReadChain(ReadExts(next, f[off..end]), t).used <= end - off
  {
    hide ScanExts, ReadExts, ScanOf, FinishExts;
    var ch := ReadExts(next, f[off..end]);
    ScanExtsAnswers(b, f, end, off, next, t, 0);
    ChainFacts(next, f[off..end]);
    if |ch.headers| + (if ch.end.Upper? then 0 else 1) > MAX_EXTS {
      LongChainAnswers(b, end, off, ch, t);
      TotalSplit(ch.headers, MAX_EXTS);
    } else {
      if ch.end.Upper? {
        SliceOfRest(f, off, end, Total(ch.headers));
      }
      ShortChainAnswers(b, f, end, off, ch, t);
    }
  }

  lemma {:induction false} TotalSplit(hs: seq<ExtHeader>, k: nat)
    requires k <= |hs|
    ensures Total(hs[..k]) + Total(hs[k..]) == Total(hs)
  {
    if k > 0 {
      TotalSplit(hs[1..], k - 1);
      assert hs[..k][1..] == hs[1..][..k - 1];
      assert hs[1..][k - 1..] == hs[k..];
    }
  }

  lemma ArpAnswers(b: seq<byte>, f: seq<byte>, off: nat, t: Tuple)
    requires off <= |b| && b <= f
    ensures Answers(ParseArp(b, |f|, off, t), ReadArp(f[off..], t), off, |b|)
    ensures ReadArp(f[off..], t).used <= |f| - off
  {
    var p := f[off..];
    if off + 28 <= |b| {
      assert b[off + 14..off + 18] == p[14..18] && b[off + 24..off + 28] == p[24..28];
      assert p[..6] == [p[0], p[1], p[2], p[3], p[4], p[5]];
    }
  }

  lemma V4HeaderAnswers(b: seq<byte>, f: seq<byte>, off: nat, ihl: nat, total: nat, t: Tuple)
    requires off + 20 <= |b| && b <= f && 20 <= ihl <= total && off + total <= |f|
    ensures
      var r := ReadV4Header(f[off..off + total], ihl, t);
      Answers(ParseV4Header(b, off, ihl, total, t), r, off, |b|) && ihl <= r.used <= total
  {
    var end := off + total;
    var d := f[off..end];
    assert b[off + 6] == d[6] && b[off + 7] == d[7] && b[off + 9] == d[9];
    if off + ihl <= |b| {
      SliceOfCapture(b, f, off, end, 12, 16);
      SliceOfCapture(b, f, off, end, 16, 20);
    }
    SliceOfRest(f, off, end, ihl);
    var t1 := WithAddresses(t, 4, d[12..16], d[16..20]).(l4Proto := d[9]);
    TransportAnswers(if off + ihl <= |b| then b else f, f, end, off + ihl, t1);
  }

  lemma V4SeenAnswers(b: seq<byte>, f: seq<byte>, off: nat, t: Tuple)
    requires off + 20 <= |b| && b <= f
    ensures Answers(ParseV4(b, |f|, off, t), ReadV4(f[off..], t), off, |b|)
    ensures 20 <= ReadV4(f[off..], t).used <= |f| - off
  {
    var p := f[off..];
    assert b[off] == p[0] && b[off + 2] == p[2] && b[off + 3] == p[3];
    var ihl, total := p[0] % 16 * 4, Be16(p, 2);
    if p[0] / 16 == 4 && 20 <= ihl <= total <= |p| {
      assert p[..total] == f[off..off + total];
      V4HeaderAnswers(b, f, off, ihl, total, t);
    }
  }

  lemma V4Answers(b: seq<byte>, f: seq<byte>, off: nat, t: Tuple)
    requires off <= |b| && b <= f
    ensures Answers(ParseV4(b, |f|, off, t), ReadV4(f[off..], t), off, |b|)
    ensures ReadV4(f[off..], t).used <= |f| - off
  {
    if off + 20 <= |f| {
      V4SeenAnswers(if off + 20 <= |b| then b else f, f, off, t);
    }
  }

  lemma V6Answers(b: seq<byte>, f: seq<byte>, off: nat, t: Tuple)
    requires off <= |b| && b <= f
    ensures Answers(ParseV6(b, |f|, off, t), ReadV6(f[off..], t), off, |b|)
    ensures ReadV6(f[off..], t).used <= |f| - off
  {
    hide ParseV6Body, ReadChain, ReadExts, CopyInto;
    var p := f[off..];
    if off + 40 <= |b| {
      assert b[off] == p[0] && b[off + 4] == p[4] && b[off + 5] == p[5] && b[off + 6] == p[6];
      assert f[off..|f|] == p;
      SliceOfCapture(b, f, off, |f|, 8, 24);
      SliceOfCapture(b, f, off, |f|, 24, 40);
    }
    if |p| >= 40 && p[0] / 16 == 6 && 0 < Be16(p, 4) <= |p| - 40 {
      var end := off + 40 + Be16(p, 4);
      assert p[40..][..Be16(p, 4)] == f[off + 40..end];
      V6BodyAnswers(if off + 40 <= |b| then b else f, f, end, off + 40, p[6], WithAddresses(t, 6, p[8..24], p[24..40]));
    }
  }

  lemma NetworkAnswers(b: seq<byte>, f: seq<byte>, off: nat, etype: word16, t: Tuple)
    requires off <= |b| && b <= f && !IsVlan(etype)
    ensures Answers(ParseNetwork(b, |f|, off, etype, t), ReadNetwork(etype, f[off..], t.(ethertype := etype)), off, |b|)
    ensures ReadNetwork(etype, f[off..], t.(ethertype := etype)).used <= |f| - off
  {
    var t1 := t.(ethertype := etype);
    if etype == 0x0806 { ArpAnswers(b, f, off, t1); }
    else if etype == 0x0800 { V4Answers(b, f, off, t1); }
    else if etype == 0x86dd { V6Answers(b, f, off, t1); }
  }

  lemma StackCons(outer: seq<word16>, tpid: word16, vid: word16, s: TagStack, strippedOne: bool)
    requires |outer| < MAX_TAGS && |s.vids| <= |s.tpids| <= |s.vids| + 1
    ensures
      ReadStack(outer, TagStack([tpid] + s.tpids, [vid] + s.vids, s.etype, s.rest), strippedOne)
      == ReadStack(outer + [vid], s, strippedOne).After(4)
  {
    var room := MAX_TAGS - |outer|;
    assert outer + ([vid] + s.vids) == outer + [vid] + s.vids;
    if |outer| + 1 + |s.tpids| > MAX_TAGS {
      assert outer + ([vid] + s.vids)[..room] == outer + [vid] + s.vids[..room - 1];
    }
  }

  ghost predicate TagsAnswer(
    b: seq<byte>, f: seq<byte>, off: nat, etype: word16, outer: seq<word16>, i: nat, strippedOne: bool)
    requires off <= |f| && |outer| <= MAX_TAGS
  {
    var r := ReadStack(outer, ReadTags(etype, f[off..]), strippedOne);
    && Answers(ParseTagged(b, |f|, off, etype, TaggedTuple(outer), i), r, off, |b|)
    && r.used <= |f| - off
  }

  lemma LastTagAnswers(
    b: seq<byte>, f: seq<byte>, off: nat, etype: word16, outer: seq<word16>, i: nat, strippedOne: bool)
    requires off <= |b| && b <= f && |outer| <= MAX_TAGS && |outer| == i + (if strippedOne then 1 else 0)
    requires !IsVlan(etype) || |outer| == MAX_TAGS || off + 4 > |f|
    ensures TagsAnswer(b, f, off, etype, outer, i, strippedOne)
  {
    assert outer + [] == outer;
    if !IsVlan(etype) {
      NetworkAnswers(b, f, off, etype, TaggedTuple(outer));
    } else if |outer| == MAX_TAGS {
      assert outer + ReadTags(etype, f[off..]).vids[..0] == outer;
    }
  }

  lemma TagStep(b: seq<byte>, end: nat, off: nat, etype: word16, t: Tuple, i: nat)
    requires IsVlan(etype) && i < 2 && t.vlanCount < 2 && off + 4 <= end
    ensures
      ParseTagged(b, end, off, etype, t, i) ==
      if off + 4 > |b| then Outcome(Truncated, t)
      else ParseTagged(b, end, off + 4, Be16(b, off + 2), t.PushVlan(Be16(b, off) % 0x1000), i + 1)
  {
  }

  /** From the tag at `off` on, with the VLAN IDs `outer` already collected. */
  lemma {:induction false} TagsAnswers(
    b: seq<byte>, f: seq<byte>, off: nat, etype: word16, outer: seq<word16>, i: nat, strippedOne: bool)
    requires off <= |b| && b <= f && |outer| <= MAX_TAGS && |outer| == i + (if strippedOne then 1 else 0)
    ensures TagsAnswer(b, f, off, etype, outer, i, strippedOne)
    decreases MAX_TAGS - i
  {
    hide ParseTagged, ReadStack;
    if !IsVlan(etype) || |outer| == MAX_TAGS || off + 4 > |f| {
      LastTagAnswers(b, f, off, etype, outer, i, strippedOne);
    } else {
      var rest := f[off..];
      var inner, vid := Be16(rest, 2), Be16(rest, 0) % 0x1000;
      assert rest[4..] == f[off + 4..];
      assert TaggedTuple(outer).PushVlan(vid) == TaggedTuple(outer + [vid]);
      StackCons(outer, etype, vid, ReadTags(inner, f[off + 4..]), strippedOne);
      TagStep(b, |f|, off, etype, TaggedTuple(outer), i);
      if off + 4 <= |b| {
        assert Be16(b, off) == Be16(rest, 0) && Be16(b, off + 2) == inner;
        TagsAnswers(b, f, off + 4, inner, outer + [vid], i + 1, strippedOne);
      } else {
        TagsAnswers(f, f, off + 4, inner, outer + [vid], i + 1, strippedOne);
      }
    }
  }

  /**
   * On every frame and every capture length, the decoder answers Truncated exactly while the
   * capture is shorter than the bytes the reading rests on, and otherwise gives the reading's
   * status and tuple.
   */
  lemma CaptureAnswers(b: seq<byte>, f: seq<byte>, stripped: Option<word16>)
    requires b <= f
    ensures Answers(ParseCapture(b, |f|, stripped), ReadFrame(f, stripped), 0, |b|)
    ensures ReadFrame(f, stripped).used <= |f|
  {
    if |f| >= 14 {
      var outer := if stripped.Some? then [stripped.value % 0x1000] else [];
      assert TaggedTuple(outer) == Labelled(stripped);
      TagsAnswers(if |b| < 14 then f else b, f, 14, Be16(f, 12), outer, 0, stripped.Some?);
    }
  }

  /**
   * es_parse on a capture `p` of the frame `f`.  A complete capture of a frame that fits the parse
   * window is never Truncated.
   */
  lemma ParseAnswers(p: seq<byte>, f: seq<byte>, stripped: Option<word16>)
    requires p <= f
    ensures
      var r, c := ReadFrame(f, stripped), Clamp(|p|, |f|);
      && (Parse(p, |f|, stripped).status == Truncated <==> c < r.used)
      && (c >= r.used ==> Parse(p, |f|, stripped) == Outcome(r.status, r.tuple))
    ensures |p| == |f| <= PARSE_BYTES ==> Parse(p, |f|, stripped).status != Truncated
  {
    CaptureAnswers(p[..Clamp(|p|, |f|)], f, stripped);
  }
}
