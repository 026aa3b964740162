/**
 * Tag offload.  A driver may strip the outermost 802.1Q tag and report its VLAN ID beside the frame.
 * The decoder gives the same answer as for the frame that still carries the tag, four bytes longer.
 */
module TagOffload {
  import opened Shared
  import opened Parser
  import opened Grammar
  import RoundTrip
  import Frames

  /** `b'` holds, four bytes further on, what `b` holds from the type field on. */
  ghost predicate Shifted(b: seq<byte>, b': seq<byte>) {
    |b'| == |b| + 4 && forall i :: 12 <= i < |b| ==> b[i] == b'[i + 4]
  }

  lemma ShiftedSlice(b: seq<byte>, b': seq<byte>, i: nat, j: nat)
    requires Shifted(b, b') && 12 <= i <= j <= |b|
    ensures b'[i + 4..j + 4] == b[i..j]
  {
    assert forall k :: i <= k < j ==> b[k] == b'[i + 4..j + 4][k - i];
  }

  lemma ShiftedBe16(b: seq<byte>, b': seq<byte>, i: nat)
    requires Shifted(b, b') && 12 <= i && i + 1 < |b|
    ensures Be16(b', i + 4) == Be16(b, i)
  {
    assert b[i + 1] == b'[i + 1 + 4];
  }

  lemma TransportShift(b: seq<byte>, b': seq<byte>, end: nat, l4: nat, t: Tuple)
    requires Shifted(b, b') && l4 >= 14
    ensures ParseTransport(b', end + 4, l4 + 4, t) == ParseTransport(b, end, l4, t)
  {
    if l4 + 8 <= |b| {
      ShiftedSlice(b, b', l4, l4 + 2);
      ShiftedSlice(b, b', l4 + 2, l4 + 4);
      ShiftedBe16(b, b', l4 + 4);
      assert l4 + 20 <= |b| ==> b[l4 + 12] == b'[l4 + 12 + 4];
    }
  }

  lemma {:induction false} ExtsShift(b: seq<byte>, b': seq<byte>, end: nat, off: nat, next: byte, t: Tuple, i: nat)
    requires Shifted(b, b') && off >= 14
    ensures
      var s, s' := ScanExts(b, end, off, next, t, i), ScanExts(b', end + 4, off + 4, next, t, i);
      if s.ExtDone? then s' == ExtDone(s.off + 4, s.next) && s.off >= 14 else s' == s
    decreases |b| - off
  {
    if i < 4 && IsExt(next) && Need(off, 2, |b|, end) == Ok {
      assert b[off] == b'[off + 4] && b[off + 1] == b'[off + 1 + 4];
      var len := ExtLen(next, b[off + 1]);
      if next != 44 && Need(off, len, |b|, end) == Ok {
        ExtsShift(b, b', end, off + len, b[off], t, i + 1);
        assert off + 4 + len == off + len + 4;
      }
    }
  }

  lemma V6Shift(b: seq<byte>, b': seq<byte>, end: nat, off: nat, t: Tuple)
    requires Shifted(b, b') && off >= 14
    ensures ParseV6(b', end + 4, off + 4, t) == ParseV6(b, end, off, t)
  {
    if Need(off, 40, |b|, end) == Ok {
      ShiftedBe16(b, b', off + 4);
      ShiftedSlice(b, b', off + 8, off + 24);
      ShiftedSlice(b, b', off + 24, off + 40);
      assert b[off] == b'[off + 4] && b[off + 6] == b'[off + 6 + 4];
      var t1 := WithAddresses(t, 6, b[off + 8..off + 24], b[off + 24..off + 40]);
      V6BodyShift(b, b', off + 40 + Be16(b, off + 4), off + 40, b[off + 6], t1);
    }
  }

  lemma V6BodyShift(b: seq<byte>, b': seq<byte>, end: nat, off: nat, next: byte, t: Tuple)
    requires Shifted(b, b') && off >= 14
    ensures ParseV6Body(b', end + 4, off + 4, next, t) == ParseV6Body(b, end, off, next, t)
  {
    ExtsShift(b, b', end, off, next, t, 0);
    var s := ScanExts(b, end, off, next, t, 0);
    if s.ExtDone? {
      TransportShift(b, b', end, s.off, t.(l4Proto := s.next));
    }
  }

  lemma V4Shift(b: seq<byte>, b': seq<byte>, off: nat, ihl: nat, total: nat, t: Tuple)
    requires Shifted(b, b') && off >= 14 && 20 <= ihl <= total
    ensures ParseV4Header(b', off + 4, ihl, total, t) == ParseV4Header(b, off, ihl, total, t)
  {
    if off + ihl <= |b| {
      ShiftedSlice(b, b', off + 12, off + 16);
      ShiftedSlice(b, b', off + 16, off + 20);
      ShiftedBe16(b, b', off + 6);
      assert b[off + 9] == b'[off + 9 + 4];
      var t1 := WithAddresses(t, 4, b[off + 12..off + 16], b[off + 16..off + 20]).(l4Proto := b[off + 9]);
      TransportShift(b, b', off + total, off + ihl, t1);
    }
  }

  lemma ArpShift(b: seq<byte>, b': seq<byte>, end: nat, off: nat, t: Tuple)
    requires Shifted(b, b') && off >= 14
    ensures ParseArp(b', end + 4, off + 4, t) == ParseArp(b, end, off, t)
  {
    if off + 28 <= |b| {
      ShiftedBe16(b, b', off);
      ShiftedBe16(b, b', off + 2);
      ShiftedSlice(b, b', off + 14, off + 18);
      ShiftedSlice(b, b', off + 24, off + 28);
      assert b[off + 4] == b'[off + 4 + 4] && b[off + 5] == b'[off + 5 + 4];
    }
  }

  lemma NetworkShift(b: seq<byte>, b': seq<byte>, end: nat, off: nat, etype: word16, t: Tuple)
    requires Shifted(b, b') && off >= 14
    ensures ParseNetwork(b', end + 4, off + 4, etype, t) == ParseNetwork(b, end, off, etype, t)
  {
    var t1 := t.(ethertype := etype);
    if etype == 0x0806 {
      ArpShift(b, b', end, off, t1);
    } else if etype == 0x0800 && off + 20 <= |b| {
      ShiftedBe16(b, b', off + 2);
      assert b[off] == b'[off + 4];
      if 20 <= b[off] % 16 * 4 <= Be16(b, off + 2) {
        V4Shift(b, b', off, b[off] % 16 * 4, Be16(b, off + 2), t1);
      }
    } else if etype == 0x86dd {
      V6Shift(b, b', end, off, t1);
    }
  }

  /** Behind a third tag: the in-band run records its type, the offloaded run does not. */
  ghost predicate ThirdTagSeen(b: seq<byte>) {
    |b| >= 18 && IsVlan(Be16(b, 12)) && IsVlan(Be16(b, 16))
  }

  /** From the type field on: one tag known already, found in band on the left, stripped on the right. */
  lemma TaggedShift(b: seq<byte>, b': seq<byte>, end: nat, t: Tuple)
    requires Shifted(b, b') && 14 <= |b| <= end && t.vlanCount == 1 && t.ethertype == 0
    ensures
      var stripped := ParseTagged(b, end, 14, Be16(b, 12), t, 0);
      var inBand := ParseTagged(b', end + 4, 18, Be16(b', 16), t, 1);
      if ThirdTagSeen(b) then
        stripped.status == inBand.status == Unsupported
        && inBand.tuple == stripped.tuple.(ethertype := Be16(b, 16)) && stripped.tuple.ethertype == 0
      else inBand == stripped
  {
    var etype := Be16(b, 12);
    ShiftedBe16(b, b', 12);
    if !IsVlan(etype) {
      NetworkShift(b, b', end, 14, etype, t);
    } else if |b| >= 18 {
      ShiftedBe16(b, b', 14);
      ShiftedBe16(b, b', 16);
      var t1 := t.PushVlan(Be16(b, 14) % 0x1000);
      assert ParseTagged(b, end, 14, etype, t, 0) == ParseTagged(b, end, 18, Be16(b, 16), t1, 1);
      assert ParseTagged(b', end + 4, 18, etype, t, 1) == ParseTagged(b', end + 4, 22, Be16(b, 16), t1, 2);
      NetworkShift(b, b', end, 18, Be16(b, 16), t1);
    }
  }

  /** The frame with an 802.1Q tag between the addresses and the type field. */
  function InsertTag(f: seq<byte>, tpid: word16, tci: word16): seq<byte>
    requires |f| >= 12
  {
    f[..12] + [tpid / 256, tpid % 256, tci / 256, tci % 256] + f[12..]
  }

  /**
   * A capture of at least 14 and at most 124 bytes, with its tag in band or stripped: the status is
   * the same, and so is the tuple, unless a third tag is visible; then only the Ethertype differs and
   * the frame is not decoded either way.
   */
  lemma SmallCaptureOffload(p: seq<byte>, originalLen: nat, tpid: word16, tci: word16)
    requires 14 <= |p| <= originalLen && |p| + 4 <= PARSE_BYTES && IsVlan(tpid)
    ensures
      SameButThirdTag(
        p, Parse(p, originalLen, Some(tci)), Parse(InsertTag(p, tpid, tci), originalLen + 4, None))
  {
    var b' := InsertTag(p, tpid, tci);
    assert p[..|p|] == p && b'[..|b'|] == b';
    assert Be16(b', 12) == tpid && Be16(b', 14) == tci;
    var t := Labelled(Some(tci));
    assert ParseCapture(b', originalLen + 4, None) == ParseTagged(b', originalLen + 4, 18, Be16(b', 16), t, 1);
    TaggedShift(p, b', originalLen, t);
  }

  ghost predicate SameButThirdTag(p: seq<byte>, stripped: Outcome, inBand: Outcome) {
    && inBand.status == stripped.status
    && inBand.tuple == stripped.tuple.(ethertype := inBand.tuple.ethertype)
    && (inBand.tuple == stripped.tuple <==> !ThirdTagSeen(p))
    && (ThirdTagSeen(p) ==> stripped.status == Unsupported)
  }

  /** The last header byte lies in the four bytes of capture that the tag in band pushes out. */
  ghost predicate LateHeader(p: seq<byte>, f: seq<byte>, tci: word16) {
    PARSE_BYTES - 4 < ReadFrame(f, Some(tci)).used <= Min(|p|, PARSE_BYTES)
  }

  /**
   * For every frame `f` and every capture `p` of it: the tag in band or stripped gives the same
   * status exactly if the header is not late, and then the same tuple as far as SameButThirdTag
   * says, unless both runs are Truncated on more than 124 bytes.  With a late header the run with
   * the tag in band is Truncated and the other is not.
   */
  lemma TagOffloadEquivalence(p: seq<byte>, f: seq<byte>, tpid: word16, tci: word16)
    requires |p| >= 14 && p <= f && IsVlan(tpid)
    ensures
      var stripped, inBand := Parse(p, |f|, Some(tci)), Parse(InsertTag(p, tpid, tci), |f| + 4, None);
      && (inBand.status == stripped.status <==> !LateHeader(p, f, tci))
      && (LateHeader(p, f, tci) ==> inBand.status == Truncated)
      && (!LateHeader(p, f, tci) && (stripped.status != Truncated || |p| + 4 <= PARSE_BYTES) ==>
            SameButThirdTag(p, stripped, inBand))
  {
    hide ParseCapture, ReadFrame, ThirdTagSeen;
    var q := p[..Min(|p|, PARSE_BYTES - 4)];
    assert q <= f && Be16(q, 12) == Be16(p, 12);
    SmallCaptureOffload(q, |f|, tpid, tci);
    ParseAnswers(q, f, Some(tci));
    ParseAnswers(p, f, Some(tci));
    SameTagsSeen(q, p);
    assert InsertTag(p, tpid, tci)[..Min(|p| + 4, PARSE_BYTES)] == InsertTag(q, tpid, tci);
    var b' := InsertTag(q, tpid, tci);
    assert b'[..|b'|] == b';
    assert Parse(InsertTag(p, tpid, tci), |f| + 4, None) == Parse(b', |f| + 4, None);
    if |p| + 4 <= PARSE_BYTES {
      assert q == p;
    }
  }

  lemma SameTagsSeen(q: seq<byte>, p: seq<byte>)
    requires q <= p && (|q| >= 18 || q == p)
    ensures ThirdTagSeen(q) == ThirdTagSeen(p)
  {
  }

  /** Frames with a late header: those whose answer rests on the bytes up to byte 125 to 128. */
  lemma LateFrames(d: Frames.Frame, tci: word16)
    requires d.Valid() && PARSE_BYTES - 4 < d.Read(Some(tci)).used <= PARSE_BYTES
    ensures LateHeader(d.Bytes(), d.Bytes(), tci)
  {
    hide ReadFrame, Frames.Frame.Bytes, Frames.Frame.Read;
    var f := d.Bytes();
    RoundTrip.ReadEncoded(d, Some(tci));
    CaptureAnswers(f, f, Some(tci));
  }

  const OPTIONS := Frames.Ext(60, Zeros(62))
  const DATAGRAM := Frames.Udp([0, 53], [0, 53], 8, [0, 0], [])
  const LATE := Frames.Frame(
    Zeros(12), [], Frames.V6(0, Zeros(3), 64, Zeros(16), Zeros(16), [OPTIONS], DATAGRAM), [])

  /** One of them: IPv6 with 64 bytes of destination options, so that the UDP header ends at byte 126. */
  lemma LateFrameExists(tci: word16)
    ensures LATE.Valid() && |LATE.Bytes()| == 126
    ensures
      var r := LATE.Read(Some(tci));
      r.used == 126 && r.status == Ok && r.tuple.flags.portsValid
  {
    assert Frames.ExtBytes([OPTIONS][1..], 17) == [] && Frames.Length([OPTIONS][1..]) == 0;
    assert OPTIONS.Valid();
  }
}
