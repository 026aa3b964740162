/**
 * Trailing bytes.  A frame's outcome survives any padding exactly if the frame does not end short,
 * that is, before bytes that its own headers, as far as they are there, still announce.
 */
module Padding {
  import opened Shared
  import opened Parser
  import opened Grammar
  import opened ParserLaws
  import RoundTrip
  import Frames

  // --- Frames that end short --------------------------------------------------------------------

  /** An IPv4 packet at `off` is not already wrong, and ends before its header or total length. */
  ghost predicate ShortV4(f: seq<byte>, off: nat) {
    && (off < |f| ==> f[off] / 16 == 4 && 20 <= f[off] % 16 * 4)
    && (off + 4 <= |f| ==> f[off] % 16 * 4 <= Be16(f, off + 2))
    && (off + 20 <= |f| ==> |f| < off + Be16(f, off + 2))
  }

  /** The same for IPv6: version 6, and less than the fixed header and the payload length. */
  ghost predicate ShortV6(f: seq<byte>, off: nat) {
    && (off < |f| ==> f[off] / 16 == 6)
    && (off + 40 <= |f| ==> |f| < off + 40 + Be16(f, off + 4))
  }

  ghost predicate ShortNetwork(f: seq<byte>, off: nat, etype: word16) {
    if etype == 0x0806 then |f| < off + 28
    else if etype == 0x0800 then ShortV4(f, off)
    else etype == 0x86dd && ShortV6(f, off)
  }

  /** From a type field on, with `known` tags before it; a third tag ends the decoding. */
  ghost predicate ShortBehind(f: seq<byte>, off: nat, etype: word16, known: nat)
    decreases |f| - off
  {
    if !IsVlan(etype) then ShortNetwork(f, off, etype)
    else known < 2 && (|f| < off + 4 || ShortBehind(f, off + 4, Be16(f, off + 2), known + 1))
  }

  ghost predicate EndsShort(f: seq<byte>, stripped: Option<word16>) {
    |f| < 14 || ShortBehind(f, 14, Be16(f, 12), if stripped.Some? then 1 else 0)
  }

  /** `b` and `b'` are what the decoder sees of a frame and of the same frame with bytes behind it. */
  ghost predicate Seen(f: seq<byte>, g: seq<byte>, b: seq<byte>, b': seq<byte>) {
    f <= g && b == f[..Min(|f|, PARSE_BYTES)] && b' == g[..Min(|g|, PARSE_BYTES)]
  }

  lemma SeenFacts(f: seq<byte>, g: seq<byte>, b: seq<byte>, b': seq<byte>)
    requires Seen(f, g, b, b')
    ensures b <= b' <= g && |f| <= |g| && (forall i :: 0 <= i < |b| ==> b[i] == b'[i] == f[i] == g[i])
  {
    assert b == g[..|b|];
  }

  // --- Frames that do not: their outcome stays --------------------------------------------------

  lemma V4Stays(f: seq<byte>, g: seq<byte>, b: seq<byte>, b': seq<byte>, off: nat, t: Tuple)
    requires Seen(f, g, b, b') && off <= 22 && LinkOnly(t.(ethertype := 0)) && off <= |f| && !ShortV4(f, off)
    requires ParseV4(b, |f|, off, t).status == Malformed
    ensures ParseV4(b', |g|, off, t) == ParseV4(b, |f|, off, t)
  {
    hide ParseV4Header;
    SeenFacts(f, g, b, b');
    if off + 20 <= |f| {
      var ihl, total := f[off] % 16 * 4, Be16(f, off + 2);
      if 20 <= ihl <= total {
        V4HeaderStable(b, b', off, ihl, total, t);
      }
    }
  }

  lemma V6Stays(f: seq<byte>, g: seq<byte>, b: seq<byte>, b': seq<byte>, off: nat, t: Tuple)
    requires Seen(f, g, b, b') && off <= 22 && LinkOnly(t.(ethertype := 0)) && off <= |f| && !ShortV6(f, off)
    requires ParseV6(b, |f|, off, t).status == Malformed
    ensures ParseV6(b', |g|, off, t) == ParseV6(b, |f|, off, t)
  {
    hide ParseV6Body;
    SeenFacts(f, g, b, b');
    if off + 40 <= |f| {
      assert b[off + 8..off + 24] == b'[off + 8..off + 24] && b[off + 24..off + 40] == b'[off + 24..off + 40];
      var t1 := WithAddresses(t, 6, b[off + 8..off + 24], b[off + 24..off + 40]);
      V6BodyStable(b, b', off + 40 + Be16(f, off + 4), off + 40, f[off + 6], t1);
    }
  }

  lemma NetworkStays(f: seq<byte>, g: seq<byte>, b: seq<byte>, b': seq<byte>, off: nat, etype: word16, t: Tuple)
    requires Seen(f, g, b, b') && off <= 22 && LinkOnly(t) && off <= |f|
    requires IsVlan(etype) || !ShortNetwork(f, off, etype)
    requires ParseNetwork(b, |f|, off, etype, t).status == Malformed
    ensures ParseNetwork(b', |g|, off, etype, t) == ParseNetwork(b, |f|, off, etype, t)
  {
    hide ParseV4, ParseV6, ShortV4, ShortV6;
    if etype == 0x0800 {
      V4Stays(f, g, b, b', off, t.(ethertype := etype));
    } else if etype == 0x86dd {
      V6Stays(f, g, b, b', off, t.(ethertype := etype));
    }
  }

  lemma {:induction false} TaggedStays(
    f: seq<byte>, g: seq<byte>, b: seq<byte>, b': seq<byte>, off: nat, etype: word16, t: Tuple, i: nat)
    requires Seen(f, g, b, b') && off == 14 + 4 * i && i <= t.vlanCount <= i + 1 && t.vlanCount <= 2
    requires LinkOnly(t) && off <= |f| && !ShortBehind(f, off, etype, t.vlanCount)
    requires ParseTagged(b, |f|, off, etype, t, i).status == Malformed
    ensures ParseTagged(b', |g|, off, etype, t, i) == ParseTagged(b, |f|, off, etype, t, i)
    decreases 2 - i
  {
    hide ParseNetwork;
    if i >= 2 || !IsVlan(etype) {
      NetworkStays(f, g, b, b', off, etype, t);
    } else if t.vlanCount < 2 {
      SeenFacts(f, g, b, b');
      hide ParseTagged;
      TagStep(b, |f|, off, etype, t, i);
      TagStep(b', |g|, off, etype, t, i);
      TaggedStays(f, g, b, b', off + 4, Be16(f, off + 2), t.PushVlan(Be16(f, off) % 0x1000), i + 1);
    }
  }

  /** Any padding leaves the outcome of a frame that does not end short unchanged. */
  lemma PaddingKeeps(f: seq<byte>, pad: seq<byte>, stripped: Option<word16>)
    requires !EndsShort(f, stripped)
    ensures ParseWhole(f + pad, stripped) == ParseWhole(f, stripped)
  {
    hide ParseTagged;
    var g := f + pad;
    var b, b' := f[..Min(|f|, PARSE_BYTES)], g[..Min(|g|, PARSE_BYTES)];
    SeenFacts(f, g, b, b');
    assert b[..|b|] == b && b'[..|b'|] == b';
    if ParseWhole(f, stripped).status == Malformed {
      TaggedStays(f, g, b, b', 14, Be16(f, 12), Labelled(stripped), 0);
    } else {
      CaptureStable(b, b', |f|, |g|, stripped);
      if |f| >= PARSE_BYTES {
        assert b == b';
      } else {
        ParseAnswers(f, f, stripped); // so it is not Truncated
      }
    }
  }

  // --- Frames that do: some padding changes their outcome ---------------------------------------

  /** The byte whose repetition completes the header the frame ends in: IPv4 with no options, or IPv6. */
  ghost function Filler(f: seq<byte>, off: nat, etype: word16, known: nat): byte
    decreases |f| - off
  {
    if IsVlan(etype) && known < 2 && off + 4 <= |f| then Filler(f, off + 4, Be16(f, off + 2), known + 1)
    else if etype == 0x0800 then 0x45
    else 0x66
  }

  /** More than any length field can announce behind the tags. */
  const LONG: nat := 0x1_0100

  ghost predicate Filled(f: seq<byte>, g: seq<byte>, x: byte) {
    |g| >= |f| + LONG && forall i :: |f| <= i < |g| ==> g[i] == x
  }

  lemma AddressedV4(b: seq<byte>, off: nat, ihl: nat, total: nat, t: Tuple)
    requires 20 <= ihl <= total && off + ihl <= |b| && !t.flags.portsValid
    ensures ParseV4Header(b, off, ihl, total, t).tuple.flags.addrValid
  {
    var t1 := WithAddresses(t, 4, b[off + 12..off + 16], b[off + 16..off + 20]).(l4Proto := b[off + 9]);
    TransportGrows(b, off + total, off + ihl, t1);
  }

  lemma ShortV4Changes(f: seq<byte>, g: seq<byte>, b: seq<byte>, b': seq<byte>, off: nat, t: Tuple)
    requires Seen(f, g, b, b') && off <= 22 && LinkOnly(t.(ethertype := 0)) && off <= |f|
    requires ShortV4(f, off) && Filled(f, g, 0x45)
    ensures ParseV4(b, |f|, off, t) == Outcome(Malformed, t)
    ensures ParseV4(b', |g|, off, t).tuple.flags.addrValid
  {
    hide ParseV4Header;
    SeenFacts(f, g, b, b');
    var ihl, total := g[off] % 16 * 4, Be16(g, off + 2);
    assert g[off] / 16 == 4 && 20 <= ihl <= total;
    AddressedV4(b', off, ihl, total, t);
  }

  lemma ShortV6Changes(f: seq<byte>, g: seq<byte>, b: seq<byte>, b': seq<byte>, off: nat, t: Tuple)
    requires Seen(f, g, b, b') && off <= 22 && LinkOnly(t.(ethertype := 0)) && off <= |f|
    requires ShortV6(f, off) && Filled(f, g, 0x66)
    ensures ParseV6(b, |f|, off, t) == Outcome(Malformed, t)
    ensures ParseV6(b', |g|, off, t) != Outcome(Malformed, t)
  {
    hide ParseV6Body;
    SeenFacts(f, g, b, b');
    assert g[off] / 16 == 6;
    var t1 := WithAddresses(t, 6, b'[off + 8..off + 24], b'[off + 24..off + 40]);
    V6BodyStable(b', b', off + 40 + Be16(b', off + 4), off + 40, b'[off + 6], t1);
  }

  lemma ShortNetworkChanges(f: seq<byte>, g: seq<byte>, b: seq<byte>, b': seq<byte>, off: nat, etype: word16, t: Tuple)
    requires Seen(f, g, b, b') && off <= 22 && LinkOnly(t) && off <= |f| && !IsVlan(etype)
    requires ShortNetwork(f, off, etype) && Filled(f, g, if etype == 0x0800 then 0x45 else 0x66)
    ensures ParseNetwork(b, |f|, off, etype, t).status == Malformed
    ensures ParseNetwork(b', |g|, off, etype, t) != ParseNetwork(b, |f|, off, etype, t)
  {
    hide ParseV4, ParseV6, ShortV4, ShortV6;
    if etype == 0x0800 {
      ShortV4Changes(f, g, b, b', off, t.(ethertype := etype));
    } else if etype == 0x86dd {
      ShortV6Changes(f, g, b, b', off, t.(ethertype := etype));
    }
  }

  /** The tag the frame ends in: without it the tuple has one VLAN ID less. */
  lemma CutTagChanges(
    f: seq<byte>, g: seq<byte>, b: seq<byte>, b': seq<byte>, off: nat, etype: word16, t: Tuple, i: nat)
    requires Seen(f, g, b, b') && off <= 22 && LinkOnly(t) && off <= |f| < off + 4 <= |g|
    requires IsVlan(etype) && i < 2 && t.vlanCount < 2
    ensures ParseTagged(b, |f|, off, etype, t, i) == Outcome(Malformed, t)
    ensures ParseTagged(b', |g|, off, etype, t, i) != Outcome(Malformed, t)
  {
    var t1 := t.PushVlan(Be16(b', off) % 0x1000);
    TagStep(b', |g|, off, etype, t, i);
    TaggedStable(b', b', |g|, |g|, off + 4, Be16(b', off + 2), t1, i + 1);
  }

  lemma {:induction false} ShortTaggedChanges(
    f: seq<byte>, g: seq<byte>, b: seq<byte>, b': seq<byte>, off: nat, etype: word16, t: Tuple, i: nat)
    requires Seen(f, g, b, b') && off == 14 + 4 * i && i <= t.vlanCount <= i + 1 && t.vlanCount <= 2
    requires LinkOnly(t) && off <= |f| && ShortBehind(f, off, etype, t.vlanCount)
    requires Filled(f, g, Filler(f, off, etype, t.vlanCount))
    ensures ParseTagged(b, |f|, off, etype, t, i).status == Malformed
    ensures ParseTagged(b', |g|, off, etype, t, i) != ParseTagged(b, |f|, off, etype, t, i)
    decreases 2 - i
  {
    hide ParseNetwork;
    if !IsVlan(etype) {
      ShortNetworkChanges(f, g, b, b', off, etype, t);
    } else if |f| < off + 4 {
      CutTagChanges(f, g, b, b', off, etype, t, i);
    } else {
      SeenFacts(f, g, b, b');
      hide ParseTagged;
      TagStep(b, |f|, off, etype, t, i);
      TagStep(b', |g|, off, etype, t, i);
      ShortTaggedChanges(f, g, b, b', off + 4, Be16(f, off + 2), t.PushVlan(Be16(f, off) % 0x1000), i + 1);
    }
  }

  /** A frame that ends short is Malformed, and a long enough run of one byte changes its outcome. */
  lemma ShortChanges(f: seq<byte>, stripped: Option<word16>)
    requires EndsShort(f, stripped)
    ensures ParseWhole(f, stripped).status == Malformed
    ensures exists pad: seq<byte> :: ParseWhole(f + pad, stripped) != ParseWhole(f, stripped)
  {
    hide ParseTagged;
    var known := if stripped.Some? then 1 else 0;
    var x := if |f| < 14 then 0 else Filler(f, 14, Be16(f, 12), known);
    var pad: seq<byte> := seq(LONG, _ => x);
    var g := f + pad;
    var b, b' := f[..Min(|f|, PARSE_BYTES)], g[..PARSE_BYTES];
    SeenFacts(f, g, b, b');
    assert b[..|b|] == b && b'[..|b'|] == b';
    if |f| < 14 {
      TaggedStable(b', b', |g|, |g|, 14, Be16(b', 12), Labelled(stripped), 0);
    } else {
      ShortTaggedChanges(f, g, b, b', 14, Be16(f, 12), Labelled(stripped), 0);
    }
    assert ParseWhole(f + pad, stripped) != ParseWhole(f, stripped);
  }

  /** Padding invariance holds exactly of the frames that do not end short. */
  lemma PaddingInvariance(f: seq<byte>, stripped: Option<word16>)
    ensures (forall pad: seq<byte> :: ParseWhole(f + pad, stripped) == ParseWhole(f, stripped))
            <==> !EndsShort(f, stripped)
    ensures EndsShort(f, stripped) ==> ParseWhole(f, stripped).status == Malformed
  {
    if EndsShort(f, stripped) {
      ShortChanges(f, stripped);
    } else {
      forall pad: seq<byte>
        ensures ParseWhole(f + pad, stripped) == ParseWhole(f, stripped)
      {
        PaddingKeeps(f, pad, stripped);
      }
    }
  }

  /**
   * Any described frame that announces a header shows it: cut behind its link header it is
   * Malformed, and its rest repairs that.
   */
  lemma CutToLinkHeader(d: Frames.Frame)
    requires d.Valid() && d.Read(None).used <= PARSE_BYTES && (d.packet.Foreign? ==> d.tags != [])
    ensures
      var f, r := d.Bytes(), d.Read(None);
      && |f| >= 14 && EndsShort(f[..14], None) && ParseWhole(f[..14], None).status == Malformed
      && ParseWhole(f[..14] + f[14..], None) == Outcome(r.status, r.tuple)
  {
    hide EndsShort, ReadFrame, Frames.Frame.Bytes, Frames.Frame.Valid, Frames.Frame.Read, ParseCapture;
    var f := d.Bytes();
    LinkHeaderIsShort(d);
    RoundTrip.ReadEncoded(d, None);
    CaptureAnswers(f, f, None);
    RoundTrip.EncodeParseRoundTrip(d, Min(|f|, PARSE_BYTES), None);
    assert f[..14] + f[14..] == f;
    PaddingInvariance(f[..14], None);
  }

  lemma LinkHeaderIsShort(d: Frames.Frame)
    requires d.Valid() && (d.packet.Foreign? ==> d.tags != [])
    ensures |d.Bytes()| >= 14 && EndsShort(d.Bytes()[..14], None)
  {
    hide Frames.Packet.Bytes;
    var f := d.Bytes();
    RoundTrip.BehindMacs(d.macs, d.Typed());
    RoundTrip.Be16OfU16(f, 12, if d.tags == [] then d.packet.Ethertype() else d.tags[0].tpid);
    assert Be16(f[..14], 12) == Be16(f, 12);
  }
}
