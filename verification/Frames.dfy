/**
 * Frames described field by field: how each is laid out in bytes, and what a correct decoder says
 * of it.  Nothing here uses the decoder or any part of it; the numbers are those of IEEE 802.1Q,
 * RFC 826, RFC 791, RFC 8200, RFC 4302, RFC 768 and RFC 9293.
 */
module Frames {
  import opened Shared

  function U16(x: word16): (s: seq<byte>)
    ensures |s| == 2
  {
    [x / 256, x % 256]
  }

  /** What the decoder should answer, and how many bytes of the frame that rests on. */
  datatype Reply = Reply(status: Status, tuple: Tuple, used: nat)

  datatype Tag = Tag(tpid: word16, tci: word16)

  /**
   * A non-fragment extension header: `body` is what follows its length field.  Hop-by-hop, routing
   * and destination options come in eight-byte units, the first not counted (sections 4.3, 4.4 and
   * 4.6 of RFC 8200); the authentication header in four-byte units, two not counted (section 2.2 of
   * RFC 4302).
   */
  datatype Ext = Ext(kind: byte, body: seq<byte>) {
    function Len(): nat {
      2 + |body|
    }
    predicate Valid() {
      if kind == 51 then 8 <= Len() <= 1028 && Len() % 4 == 0
      else kind in {0, 43, 60} && Len() <= 2048 && Len() % 8 == 0
    }
    function LengthField(): byte
      requires Valid()
    {
      if kind == 51 then Len() / 4 - 2 else Len() / 8 - 1
    }
  }

  datatype Segment =
    | Tcp(sport: Port, dport: Port, numbers: seq<byte>, offset: Nibble, low: Nibble, fields: seq<byte>, rest: seq<byte>)
    | Udp(sport: Port, dport: Port, length: word16, checksum: Port, data: seq<byte>)
    | Stub(proto: byte, bytes: seq<byte>)        // TCP or UDP without room for its header
    | Other(proto: byte, data: seq<byte>)        // any other upper-layer protocol
    | Piece(data: seq<byte>)                     // IPv6 only: a fragment header and what it is in front of
    | CutHeader(kind: byte, bytes: seq<byte>)    // IPv6 only: an extension header that does not fit
  {
    predicate Valid(v6: bool) {
      match this
      case Tcp(_, _, numbers, _, _, fields, _) => |numbers| == 8 && |fields| == 7
      case Udp(_, _, _, _, _) => true
      case Stub(proto, bytes) => (proto == 6 && |bytes| < 20) || (proto == 17 && |bytes| < 8)
      case Other(proto, _) => proto !in {6, 17} && (v6 ==> proto !in {0, 43, 44, 51, 60})
      case Piece(data) => v6 && |data| >= 8
      case CutHeader(kind, bytes) =>
        && v6 && kind in {0, 43, 44, 51, 60}
        && (|bytes| >= 2 ==>
              var units: int := bytes[1];
              |bytes| < if kind == 44 then 8 else if kind == 51 then (units + 2) * 4 else (units + 1) * 8)
    }
    /** The protocol number announced for it. */
    function Proto(): byte {
      match this
      case Tcp(_, _, _, _, _, _, _) => 6
      case Udp(_, _, _, _, _) => 17
      case Stub(proto, _) => proto
      case Other(proto, _) => proto
      case Piece(_) => 44
      case CutHeader(kind, _) => kind
    }
    /** Is it an extension header itself? */
    predicate IsHeader() {
      Piece? || CutHeader?
    }
    function Bytes(): seq<byte> {
      match this
      case Tcp(sport, dport, numbers, offset, low, fields, rest) =>
        sport + dport + numbers + [offset * 16 + low] + fields + rest
      case Udp(sport, dport, length, checksum, data) => sport + dport + U16(length) + checksum + data
      case Stub(_, bytes) => bytes
      case Other(_, data) => data
      case Piece(data) => data
      case CutHeader(_, bytes) => bytes
    }
    /** The answer for it, in a packet whose addresses are in `t`. */
    function Read(t: Tuple, v6: bool): Reply
      requires Valid(v6)
    {
      match this
      case Tcp(sport, dport, _, offset, _, _, rest) =>
        if 20 <= offset * 4 <= 20 + |rest| then Reply(Ok, WithPorts(t.(l4Proto := 6), sport, dport), 20)
        else Reply(Malformed, t.(l4Proto := 6), 20)
      case Udp(sport, dport, length, _, data) =>
        if 8 <= length <= 8 + |data| then Reply(Ok, WithPorts(t.(l4Proto := 17), sport, dport), 8)
        else Reply(Malformed, t.(l4Proto := 17), 8)
      case Stub(proto, _) => Reply(Malformed, t.(l4Proto := proto), 0)
      case Other(proto, _) => Reply(if v6 && proto == 50 then Unsupported else Ok, t.(l4Proto := proto), 0)
      case Piece(data) => Reply(Fragment, t.(l4Proto := data[0], flags := t.flags.(fragment := true)), 8)
      case CutHeader(_, bytes) => Reply(Malformed, t, if |bytes| < 2 then 0 else 2)
    }
  }

  function WithPorts(t: Tuple, sport: Port, dport: Port): Tuple {
    t.(sport := sport, dport := dport, flags := t.flags.(portsValid := true))
  }

  datatype Packet =
    | V4(tos: byte, id: Port, fragment: word16, ttl: byte, checksum: Port, src: seq<byte>, dst: seq<byte>,
         options: seq<byte>, seg: Segment)
    | V6(low: Nibble, flow: seq<byte>, hops: byte, src: seq<byte>, dst: seq<byte>, exts: seq<Ext>, seg: Segment)
    | Arp(format: seq<byte>, operation: Port, senderMac: seq<byte>, sender: seq<byte>,
          targetMac: seq<byte>, target: seq<byte>)
    | Wrong4(first: byte, tos: byte, total: word16, rest: seq<byte>)        // version or a length is wrong
    | Wrong6(first: byte, flow: seq<byte>, payload: word16, rest: seq<byte>)
    | Foreign(etype: word16, data: seq<byte>)                               // some other Ethertype
  {
    predicate Valid() {
      match this
      case V4(_, _, _, _, _, src, dst, options, seg) =>
        && seg.Valid(false) && |src| == 4 && |dst| == 4
        && |options| % 4 == 0 && |options| <= 40 && 20 + |options| + |seg.Bytes()| < 0x1_0000
      case V6(_, flow, _, src, dst, exts, seg) =>
        && seg.Valid(true) && |flow| == 3 && |src| == 16 && |dst| == 16
        && (forall e <- exts :: e.Valid())
        && 0 < |ExtBytes(exts, seg.Proto())| + |seg.Bytes()| < 0x1_0000
      case Arp(format, _, senderMac, sender, targetMac, target) =>
        |format| == 6 && |senderMac| == 6 && |sender| == 4 && |targetMac| == 6 && |target| == 4
      case Wrong4(first, _, total, rest) =>
        && |rest| >= 16
        && (first / 16 != 4 || first % 16 < 5 || total < first % 16 * 4 || total > 4 + |rest|)
      case Wrong6(first, flow, payload, rest) =>
        |flow| == 3 && |rest| >= 34 && (first / 16 != 6 || payload == 0 || payload > |rest| - 34)
      case Foreign(etype, _) => etype !in {0x8100, 0x88a8, 0x0806, 0x0800, 0x86dd}
    }
    function Ethertype(): word16 {
      match this
      case V4(_, _, _, _, _, _, _, _, _) => 0x0800
      case V6(_, _, _, _, _, _, _) => 0x86dd
      case Arp(_, _, _, _, _, _) => 0x0806
      case Wrong4(_, _, _, _) => 0x0800
      case Wrong6(_, _, _, _) => 0x86dd
      case Foreign(etype, _) => etype
    }
    /** The bytes behind a fixed IP header. */
    function Tail(): seq<byte>
      requires Valid() && (V4? || V6?)
    {
      (if V4? then options else ExtBytes(exts, seg.Proto())) + seg.Bytes()
    }
    function FixedHeader(): (h: seq<byte>)
      requires Valid() && (V4? || V6?)
      ensures |h| == if V4? then 20 else 40
    {
      match this
      case V4(tos, id, fragment, ttl, checksum, src, dst, options, seg) =>
        [4 * 16 + (20 + |options|) / 4, tos] + U16(20 + |Tail()|) + id + U16(fragment)
        + [ttl, seg.Proto()] + checksum + src + dst
      case V6(low, flow, hops, src, dst, exts, seg) =>
        [6 * 16 + low] + flow + U16(|Tail()|) + [FirstKind(exts, seg.Proto()), hops] + src + dst
    }
    function Bytes(): seq<byte>
      requires Valid()
    {
      match this
      case Arp(format, operation, senderMac, sender, targetMac, target) =>
        format + operation + senderMac + sender + targetMac + target
      case Wrong4(first, tos, total, rest) => [first, tos] + U16(total) + rest
      case Wrong6(first, flow, payload, rest) => [first] + flow + U16(payload) + rest
      case Foreign(_, data) => data
      case _ => FixedHeader() + Tail()
    }
    /** The answer for it, `t` being the tuple with the link layer and the Ethertype. */
    function Read(t: Tuple): Reply
      requires Valid()
    {
      match this
      case V4(_, _, fragment, _, _, src, dst, options, seg) =>
        var t1 := Addressed(t, 4, src, dst);
        if fragment % 0x4000 != 0 then
          Reply(Fragment, t1.(l4Proto := seg.Proto(), flags := t1.flags.(fragment := true)), 20 + |options|)
        else
          var r := seg.Read(t1, false);
          r.(used := 20 + |options| + r.used)
      case V6(_, _, _, src, dst, exts, seg) => ChainReply(exts, seg, Addressed(t, 6, src, dst))
      case Arp(format, _, _, sender, _, target) =>
        if format == [0, 1, 8, 0, 6, 4] then Reply(Ok, Addressed(t, 4, sender, target), 28)
        else Reply(Unsupported, t, 28)
      case Wrong4(_, _, _, _) => Reply(Malformed, t, 20)
      case Wrong6(first, _, payload, _) =>
        Reply(if first / 16 == 6 && payload == 0 then Unsupported else Malformed, t, 40)
      case Foreign(_, _) => Reply(Unsupported, t, 0)
    }
  }

  function Addressed(t: Tuple, version: byte, src: seq<byte>, dst: seq<byte>): Tuple
    requires |src| <= 16 && |dst| <= 16
  {
    t.(ipVersion := version, src := src + Zeros(16 - |src|), dst := dst + Zeros(16 - |dst|),
    flags := t.flags.(addrValid := true))
  }

  /** At most four extension headers, a fragment header included, are followed. */
  function ChainReply(exts: seq<Ext>, seg: Segment, t: Tuple): Reply
    requires seg.Valid(true)
  {
    if |exts| > 4 then Reply(Unsupported, t.(l4Proto := exts[4].kind), 40 + Length(exts[..4]))
    else if |exts| == 4 && seg.IsHeader() then Reply(Unsupported, t.(l4Proto := seg.Proto()), 40 + Length(exts))
    else
      var r := seg.Read(t, true);
      r.(used := 40 + Length(exts) + r.used)
  }

  function Length(exts: seq<Ext>): nat {
    if exts == [] then 0 else exts[0].Len() + Length(exts[1..])
  }

  function FirstKind(exts: seq<Ext>, proto: byte): byte {
    if exts == [] then proto else exts[0].kind
  }

  function ExtBytes(exts: seq<Ext>, proto: byte): seq<byte>
    requires forall e <- exts :: e.Valid()
  {
    if exts == [] then []
    else
      assert exts[0] in exts && forall e <- exts[1..] :: e in exts;
      [FirstKind(exts[1..], proto), exts[0].LengthField()] + exts[0].body + ExtBytes(exts[1..], proto)
  }

  datatype Frame = Frame(macs: seq<byte>, tags: seq<Tag>, packet: Packet, padding: seq<byte>) {
    predicate Valid() {
      && |macs| == 12 && (forall g <- tags :: g.tpid in {0x8100, 0x88a8}) && packet.Valid()
      && (packet.Wrong4? || packet.Wrong6? ==> padding == [])
    }
    /** From the first type field on. */
    function Typed(): seq<byte>
      requires Valid()
    {
      TagBytes(tags, packet.Ethertype()) + (packet.Bytes() + padding)
    }
    function Bytes(): seq<byte>
      requires Valid()
    {
      macs + Typed()
    }
    /**
     * The answer for the frame.  With more than two tags, a stripped one included, it is not decoded
     * and the type of the third is recorded as the Ethertype, unless the first had been stripped.
     */
    function Read(stripped: Option<word16>): Reply
      requires Valid()
    {
      var outer := if stripped.Some? then [stripped.value % 4096] else [];
      if |outer| + |tags| > 2 then
        var t := Linked(outer + Vids(tags[..2 - |outer|]));
        Reply(Unsupported, if stripped.Some? then t else t.(ethertype := tags[2].tpid), 14 + 4 * (2 - |outer|))
      else
        var r := packet.Read(Linked(outer + Vids(tags)).(ethertype := packet.Ethertype()));
        r.(used := 14 + 4 * |tags| + r.used)
    }
  }

  /** The tuple of a frame with these VLAN IDs, outermost first, and nothing else known. */
  function Linked(vids: seq<word16>): Tuple
    requires |vids| <= 2
  {
    ZERO_TUPLE.(
      flags := TupleFlags(true, false, false, false, 0),
      vlan := [if |vids| > 0 then vids[0] else 0, if |vids| > 1 then vids[1] else 0],
      vlanCount := |vids|)
  }

  function TagBytes(tags: seq<Tag>, etype: word16): seq<byte> {
    if tags == [] then U16(etype) else U16(tags[0].tpid) + (U16(tags[0].tci) + TagBytes(tags[1..], etype))
  }

  function Vids(tags: seq<Tag>): (v: seq<word16>)
    ensures |v| == |tags|
  {
    if tags == [] then [] else [tags[0].tci % 4096] + Vids(tags[1..])
  }
}
