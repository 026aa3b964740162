/**
 * Serialising a described frame and decoding the bytes gives the answer its description calls for:
 * first from the unbounded reader, then from the decoder on any capture.
 */
module RoundTrip {
  import opened Shared
  import opened Parser
  import opened Grammar
  import opened ParserLaws
  import opened Frames

  function AsReading(r: Reply): Reading {
    Reading(r.status, r.tuple, r.used)
  }

  lemma Be16OfU16(s: seq<byte>, i: nat, x: word16)
    requires i + 2 <= |s| && s[i..i + 2] == U16(x)
    ensures Be16(s, i) == x
  {
    assert s[i] == U16(x)[0] && s[i + 1] == U16(x)[1];
  }

  // --- Tags -------------------------------------------------------------------------------------

  function Tpids(tags: seq<Tag>): (v: seq<word16>)
    ensures |v| == |tags| && forall i :: 0 <= i < |v| ==> v[i] == tags[i].tpid
  {
    if tags == [] then [] else [tags[0].tpid] + Tpids(tags[1..])
  }

  lemma {:induction false} ReadTagBytes(tags: seq<Tag>, etype: word16, rest: seq<byte>)
    requires (forall g <- tags :: g.tpid in {0x8100, 0x88a8}) && etype !in {0x8100, 0x88a8}
    ensures
      var s := TagBytes(tags, etype) + rest;
      && |TagBytes(tags, etype)| == 2 + 4 * |tags|
      && ReadTags(Be16(s, 0), s[2..]) == TagStack(Tpids(tags), Vids(tags), etype, rest)
  {
    var s := TagBytes(tags, etype) + rest;
    if tags == [] {
      Be16OfU16(s, 0, etype);
      assert s[2..] == rest;
    } else {
      var inner := TagBytes(tags[1..], etype) + rest;
      ReadTagBytes(tags[1..], etype, rest);
      assert s == U16(tags[0].tpid) + (U16(tags[0].tci) + inner);
      ReadTag(tags[0], inner);
    }
  }

  /** One tag in front of another type field. */
  lemma ReadTag(tag: Tag, inner: seq<byte>)
    requires tag.tpid in {0x8100, 0x88a8} && |inner| >= 2
    ensures
      var s := U16(tag.tpid) + (U16(tag.tci) + inner);
      var deeper := ReadTags(Be16(inner, 0), inner[2..]);
      && Be16(s, 0) == tag.tpid
      && ReadTags(tag.tpid, s[2..]) ==
         TagStack([tag.tpid] + deeper.tpids, [tag.tci % 0x1000] + deeper.vids, deeper.etype, deeper.rest)
  {
    var r := U16(tag.tci) + inner;
    Be16OfU16(U16(tag.tpid) + r, 0, tag.tpid);
    Be16OfU16(r, 0, tag.tci);
    assert (U16(tag.tpid) + r)[2..] == r;
    assert r[4..] == inner[2..];
    assert Be16(r, 2) == Be16(inner, 0);
  }

  lemma {:induction false} VidsPrefix(tags: seq<Tag>, n: nat)
    requires n <= |tags|
    ensures Vids(tags[..n]) == Vids(tags)[..n]
  {
    if n > 0 {
      VidsPrefix(tags[1..], n - 1);
      assert tags[..n][1..] == tags[1..][..n - 1];
    }
  }

  // --- Extension chains -------------------------------------------------------------------------

  function Headers(exts: seq<Ext>): (h: seq<ExtHeader>)
    ensures |h| == |exts| && forall i :: 0 <= i < |h| ==> h[i] == ExtHeader(exts[i].kind, exts[i].Len())
  {
    if exts == [] then [] else [ExtHeader(exts[0].kind, exts[0].Len())] + Headers(exts[1..])
  }

  /** What ends a chain in front of a segment. */
  function End(seg: Segment): ChainEnd
    requires seg.Valid(true)
  {
    if seg.Piece? then Fragmented(seg.data[0])
    else if seg.CutHeader? then ChainEnd.Cut(seg.kind, if |seg.bytes| < 2 then 0 else 2)
    else Upper(seg.Proto(), seg.Bytes())
  }

  lemma ReadEnd(seg: Segment)
    requires seg.Valid(true)
    ensures ReadExts(seg.Proto(), seg.Bytes()) == Chain([], End(seg))
  {
  }

  lemma {:induction false} ReadExtBytes(exts: seq<Ext>, seg: Segment)
    requires (forall e <- exts :: e.Valid()) && seg.Valid(true)
    ensures ReadExts(FirstKind(exts, seg.Proto()), ExtBytes(exts, seg.Proto()) + seg.Bytes()) ==
            Chain(Headers(exts), End(seg))
  {
    if exts == [] {
      assert ExtBytes(exts, seg.Proto()) + seg.Bytes() == seg.Bytes();
      ReadEnd(seg);
    } else {
      hide ReadExts, End, Segment.Proto, Segment.Bytes, Ext.LengthField;
      var proto, e := seg.Proto(), exts[0];
      var rest := ExtBytes(exts[1..], proto) + seg.Bytes();
      assert e in exts && forall x <- exts[1..] :: x in exts;
      assert ExtBytes(exts, proto) + seg.Bytes() ==
             [FirstKind(exts[1..], proto), e.LengthField()] + e.body + rest;
      ReadExtBytes(exts[1..], seg);
      ReadOneExt(e, FirstKind(exts[1..], proto), rest);
    }
  }

  /** One extension header in front of the rest of a chain. */
  lemma ReadOneExt(e: Ext, next: byte, rest: seq<byte>)
    requires e.Valid()
    ensures ReadExts(e.kind, [next, e.LengthField()] + e.body + rest) ==
            ReadExts(next, rest).Behind(ExtHeader(e.kind, e.Len()))
  {
    hide ReadExts;
    var body := [next, e.LengthField()] + e.body + rest;
    assert body[0] == next && body[1] == e.LengthField() && body[e.Len()..] == rest;
    LengthFieldReads(e);
    ReadExtsCases(e.kind, body);
  }

  /** The decoder's length formulas undo the encoder's. */
  lemma LengthFieldReads(e: Ext)
    requires e.Valid()
    ensures ExtLen(e.kind, e.LengthField()) == e.Len() && IsExt(e.kind) && e.kind != 44
  {
  }

  lemma {:induction false} HeadersTotal(exts: seq<Ext>, n: nat)
    requires n <= |exts|
    ensures Total(Headers(exts)[..n]) == Length(exts[..n])
  {
    if n > 0 {
      HeadersTotal(exts[1..], n - 1);
      assert Headers(exts)[..n][1..] == Headers(exts[1..])[..n - 1];
      assert exts[..n][1..] == exts[1..][..n - 1];
    }
  }

  lemma ReadSegment(seg: Segment, v6: bool, t: Tuple)
    requires seg.Valid(v6) && !seg.IsHeader() && (v6 ==> seg.Proto() != 50)
    ensures ReadTransport(seg.Bytes(), t.(l4Proto := seg.Proto())) == AsReading(seg.Read(t, v6))
  {
    var s := seg.Bytes();
    if seg.Tcp? {
      assert s[..2] == seg.sport && s[2..4] == seg.dport && s[12] == seg.offset * 16 + seg.low;
    } else if seg.Udp? {
      assert s[..2] == seg.sport && s[2..4] == seg.dport;
      Be16OfU16(s, 4, seg.length);
    }
  }

  /** The chain of a described packet, its end included. */
  lemma ReadDescribedChain(exts: seq<Ext>, seg: Segment, t: Tuple)
    requires seg.Valid(true)
    ensures ReadChain(Chain(Headers(exts), End(seg)), t).After(40) == AsReading(ChainReply(exts, seg, t))
  {
    hide ReadTransport, Segment.Bytes;
    var all := Headers(exts);
    assert all[..|exts|] == all && exts[..|exts|] == exts;
    HeadersTotal(exts, |exts|);
    if |exts| >= 4 {
      HeadersTotal(exts, 4);
    }
    if !seg.IsHeader() && seg.Proto() != 50 {
      ReadSegment(seg, true, t);
    }
  }

  // --- Packets ----------------------------------------------------------------------------------

  /** No network layer recorded yet. */
  ghost predicate Blank(t: Tuple) {
    t.src == Zeros(16) && t.dst == Zeros(16)
  }

  lemma AddressesMatch(t: Tuple, version: byte, src: seq<byte>, dst: seq<byte>)
    requires Blank(t) && |src| <= 16 && |dst| <= 16
    ensures WithAddresses(t, version, src, dst) == Addressed(t, version, src, dst)
  {
    assert Zeros(16)[|src|..] == Zeros(16 - |src|) && Zeros(16)[|dst|..] == Zeros(16 - |dst|);
  }

  lemma V4Fields(p: Packet)
    requires p.V4? && p.Valid()
    ensures
      var h := p.FixedHeader();
      && h[0] == 4 * 16 + (20 + |p.options|) / 4 && h[2..4] == U16(20 + |p.Tail()|)
      && h[6..8] == U16(p.fragment) && h[9] == p.seg.Proto()
      && h[12..16] == p.src && h[16..20] == p.dst
  {
    hide Segment.Bytes, Segment.Proto;
  }

  lemma HeaderBytes(h: seq<byte>, tail: seq<byte>)
    requires |h| == 20
    ensures
      var d := h + tail;
      && d[2..4] == h[2..4] && d[6..8] == h[6..8] && d[12..16] == h[12..16] && d[16..20] == h[16..20] && d[9] == h[9]
      && forall n :: 0 <= n <= |tail| ==> d[20 + n..] == tail[n..]
  {
  }

  lemma V4BytesFields(p: Packet)
    requires p.V4? && p.Valid()
    ensures
      var d := p.Bytes();
      && d[12..16] == p.src && d[16..20] == p.dst && d[9] == p.seg.Proto() && Be16(d, 6) == p.fragment
      && d[20 + |p.options|..] == p.seg.Bytes()
  {
    hide Packet.FixedHeader, Segment.Bytes, Segment.Valid, Segment.Proto;
    V4Fields(p);
    var h := p.FixedHeader();
    HeaderBytes(h, p.Tail());
    assert p.Tail()[|p.options|..] == p.seg.Bytes();
    Be16OfU16(p.Bytes(), 6, p.fragment);
  }

  lemma ReadV4Datagram(p: Packet, t: Tuple)
    requires p.V4? && p.Valid() && Blank(t)
    ensures ReadV4Header(p.Bytes(), 20 + |p.options|, t) == AsReading(p.Read(t))
  {
    hide Packet.Bytes, Segment.Bytes, Segment.Proto, ReadTransport, Segment.Read;
    V4BytesFields(p);
    AddressesMatch(t, 4, p.src, p.dst);
    if p.fragment % 0x4000 == 0 {
      V4Segment(p, t);
    }
  }

  lemma V4Segment(p: Packet, t: Tuple)
    requires p.V4? && p.Valid()
    ensures ReadTransport(p.seg.Bytes(), Addressed(t, 4, p.src, p.dst).(l4Proto := p.seg.Proto())) ==
            AsReading(p.seg.Read(Addressed(t, 4, p.src, p.dst), false))
  {
    hide Segment.Bytes, Segment.Read, ReadTransport;
    ReadSegment(p.seg, false, Addressed(t, 4, p.src, p.dst));
  }

  lemma ReadV4Packet(p: Packet, padding: seq<byte>, t: Tuple)
    requires p.V4? && p.Valid() && Blank(t)
    ensures ReadV4(p.Bytes() + padding, t) == AsReading(p.Read(t))
  {
    hide ReadV4Header, Segment.Bytes, Segment.Read, Packet.Read;
    var h, d := p.FixedHeader(), p.Bytes();
    V4Fields(p);
    HeaderBytes(h, p.Tail());
    var all, ihl := d + padding, 20 + |p.options|;
    assert all[..|d|] == d;
    assert all[0] == h[0] && h[0] % 16 * 4 == ihl;
    Be16OfU16(all, 2, |d|);
    ReadV4Datagram(p, t);
  }

  lemma V6Fields(p: Packet)
    requires p.V6? && p.Valid()
    ensures
      var h := p.FixedHeader();
      && h[0] == 6 * 16 + p.low && h[4..6] == U16(|p.Tail()|) && h[6] == FirstKind(p.exts, p.seg.Proto())
      && h[8..24] == p.src && h[24..40] == p.dst
  {
    hide ExtBytes, Segment.Bytes, Segment.Proto, FirstKind;
  }

  lemma ReadV6Packet(p: Packet, padding: seq<byte>, t: Tuple)
    requires p.V6? && p.Valid() && Blank(t)
    ensures ReadV6(p.Bytes() + padding, t) == AsReading(p.Read(t))
  {
    hide ReadChain, ReadExts, WithAddresses, ExtBytes, FirstKind, Segment.Bytes, Segment.Proto, ChainReply;
    hide Packet.FixedHeader;
    var h, all := p.FixedHeader(), p.Bytes() + padding;
    V6Fields(p);
    assert all[..40] == h;
    SixFields(h, all);
    Be16OfU16(all, 4, |p.Tail()|);
    assert all[40..][..|p.Tail()|] == p.Tail();
    AddressesMatch(t, 6, p.src, p.dst);
    ReadExtBytes(p.exts, p.seg);
    ReadDescribedChain(p.exts, p.seg, Addressed(t, 6, p.src, p.dst));
  }

  lemma SixFields(h: seq<byte>, all: seq<byte>)
    requires |h| == 40 <= |all| && all[..40] == h
    ensures all[0] == h[0] && all[4..6] == h[4..6] && all[6] == h[6]
    ensures all[8..24] == h[8..24] && all[24..40] == h[24..40]
  {
    assert forall i, j :: 0 <= i <= j <= 40 ==> all[i..j] == all[..40][i..j];
  }

  lemma ReadArpPacket(p: Packet, padding: seq<byte>, t: Tuple)
    requires p.Arp? && p.Valid() && Blank(t)
    ensures ReadArp(p.Bytes() + padding, t) == AsReading(p.Read(t))
  {
    var all := p.Bytes() + padding;
    assert all[..6] == p.format && all[14..18] == p.sender && all[24..28] == p.target;
    AddressesMatch(t, 4, p.sender, p.target);
  }

  lemma ReadWrong4(p: Packet, t: Tuple)
    requires p.Wrong4? && p.Valid()
    ensures ReadV4(p.Bytes(), t) == AsReading(p.Read(t))
  {
    Be16OfU16(p.Bytes(), 2, p.total);
    assert p.Bytes()[0] == p.first;
  }

  lemma ReadWrong6(p: Packet, t: Tuple)
    requires p.Wrong6? && p.Valid()
    ensures ReadV6(p.Bytes(), t) == AsReading(p.Read(t))
  {
    Be16OfU16(p.Bytes(), 4, p.payload);
    assert p.Bytes()[0] == p.first;
  }

  /** Any described packet behind its Ethertype, with or without padding. */
  lemma ReadPacket(p: Packet, padding: seq<byte>, t: Tuple)
    requires p.Valid() && Blank(t) && t.ethertype == p.Ethertype()
    requires p.Wrong4? || p.Wrong6? ==> padding == []
    ensures ReadNetwork(p.Ethertype(), p.Bytes() + padding, t) == AsReading(p.Read(t))
  {
    hide ReadV4, ReadV6, ReadArp;
    if padding == [] {
      assert p.Bytes() + padding == p.Bytes();
    }
    if p.V4? {
      ReadV4Packet(p, padding, t);
    } else if p.V6? {
      ReadV6Packet(p, padding, t);
    } else if p.Arp? {
      ReadArpPacket(p, padding, t);
    } else if p.Wrong4? {
      ReadWrong4(p, t);
    } else if p.Wrong6? {
      ReadWrong6(p, t);
    }
  }

  // --- Frames -----------------------------------------------------------------------------------

  lemma BehindMacs(macs: seq<byte>, typed: seq<byte>)
    requires |macs| == 12 && |typed| >= 2
    ensures Be16(macs + typed, 12) == Be16(typed, 0) && (macs + typed)[14..] == typed[2..]
  {
  }

  lemma ReadEncodedTags(d: Frame)
    requires d.Valid()
    ensures
      var f := d.Bytes();
      |f| >= 14 && ReadTags(Be16(f, 12), f[14..]) ==
                   TagStack(Tpids(d.tags), Vids(d.tags), d.packet.Ethertype(), d.packet.Bytes() + d.padding)
  {
    hide Packet.Bytes, ReadTags;
    ReadTagBytes(d.tags, d.packet.Ethertype(), d.packet.Bytes() + d.padding);
    BehindMacs(d.macs, d.Typed());
  }

  lemma LinksMatch(vids: seq<word16>)
    requires |vids| <= 2
    ensures Linked(vids) == TaggedTuple(vids) && Blank(Linked(vids))
  {
  }

  /** The unbounded reader gives the description's own answer. */
  lemma ReadEncoded(d: Frame, stripped: Option<word16>)
    requires d.Valid()
    ensures ReadFrame(d.Bytes(), stripped) == AsReading(d.Read(stripped))
  {
    hide ReadNetwork, ReadTags, Linked, TaggedTuple, Packet.Read, Packet.Bytes, Frame.Bytes;
    ReadEncodedTags(d);
    var outer := if stripped.Some? then [stripped.value % 0x1000] else [];
    if |outer| + |d.tags| > 2 {
      VidsPrefix(d.tags, 2 - |outer|);
      LinksMatch(outer + Vids(d.tags[..2 - |outer|]));
    } else {
      var vids := outer + Vids(d.tags);
      LinksMatch(vids);
      ReadPacket(d.packet, d.padding, Linked(vids).(ethertype := d.packet.Ethertype()));
    }
  }

  /**
   * Encode, capture, parse: the answer is the description's own, status and tuple, exactly when the
   * capture holds the bytes it rests on, and Truncated otherwise.
   */
  lemma EncodeParseRoundTrip(d: Frame, cap: nat, stripped: Option<word16>)
    requires d.Valid() && cap <= |d.Bytes()|
    ensures
      var o, r := Parse(d.Bytes()[..cap], |d.Bytes()|, stripped), d.Read(stripped);
      if r.used <= Min(cap, PARSE_BYTES) then o == Outcome(r.status, r.tuple) else o.status == Truncated
  {
    hide Frame.Bytes, Frame.Read, Parse, ReadFrame;
    ReadEncoded(d, stripped);
    ParseAnswers(d.Bytes()[..cap], d.Bytes(), stripped);
  }

  /** The same for a whole frame as the hooks hand it over. */
  lemma WholeFrame(d: Frame, stripped: Option<word16>)
    requires d.Valid()
    ensures
      var o, r := ParseWhole(d.Bytes(), stripped), d.Read(stripped);
      && r.status != Truncated
      && if r.used > PARSE_BYTES then o.status == Truncated else o == Outcome(r.status, r.tuple)
  {
    hide Parse, Frame.Bytes, Frame.Read, ReadFrame;
    var f := d.Bytes();
    EncodeParseRoundTrip(d, Min(|f|, PARSE_BYTES), stripped);
    ReadEncoded(d, stripped);
    CaptureAnswers(f, f, stripped);
  }
}
