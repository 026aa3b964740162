/**
 * The bounded frame decoder (bpf/packet_parser.bpf.h).
 *
 * `EsParse` is the decoder itself: two bounded loops over 32-bit unsigned offsets.  It is proved
 * against `Parse`, a function of the bytes below the clamped capture length, about which the other
 * modules prove the properties of the decoder.
 */
module Parser {
  import opened Shared

  newtype u32 = x: int | 0 <= x < 0x1_0000_0000

  datatype Outcome = Outcome(status: Status, tuple: Tuple)

  function Be16(b: seq<byte>, i: nat): word16
    requires i + 1 < |b|
  {
    b[i] as int * 256 + b[i + 1]
  }

  predicate IsVlan(etype: word16) {
    etype == 0x8100 || etype == 0x88a8
  }

  predicate IsExt(next: byte) {
    next == 0 || next == 43 || next == 60 || next == 51 || next == 44
  }

  /** Are the `n` bytes at `off` part of the packet, and are they present in the capture? */
  function Need(off: nat, n: nat, cap: nat, end: nat): Status {
    if off + n > end then Malformed
    else if off + n > cap then Truncated
    else Ok
  }

  function ExtLen(next: byte, units: byte): nat {
    if next == 51 then (units + 2) * 4 else (units + 1) * 8
  }

  /** memcpy of `bytes` over the start of a sixteen byte address. */
  function CopyInto(a: Address, bytes: seq<byte>): Address
    requires |bytes| <= 16
  {
    bytes + a[|bytes|..]
  }

  datatype TagScan = TagStop(out: Outcome) | TagDone(off: nat, etype: word16, t: Tuple)

  function ScanTags(b: seq<byte>, end: nat, off: nat, etype: word16, t: Tuple, i: nat): TagScan
    decreases |b| - off
  {
    if i >= 2 || !IsVlan(etype) then TagDone(off, etype, t)
    else if t.vlanCount >= 2 then TagStop(Outcome(Unsupported, t))
    else
      var rc := Need(off, 4, |b|, end);
      if rc != Ok then TagStop(Outcome(rc, t))
      else ScanTags(b, end, off + 4, Be16(b, off + 2), t.PushVlan(Be16(b, off) % 0x1000), i + 1)
  }

  datatype ExtScan = ExtStop(out: Outcome) | ExtDone(off: nat, next: byte)

  function ScanExts(b: seq<byte>, end: nat, off: nat, next: byte, t: Tuple, i: nat): ExtScan
    decreases |b| - off
  {
    if i >= 4 || !IsExt(next) then ExtDone(off, next)
    else
      var rc := Need(off, 2, |b|, end);
      if rc != Ok then ExtStop(Outcome(rc, t))
      else if next == 44 then
        var rc := Need(off, 8, |b|, end);
        if rc != Ok then ExtStop(Outcome(rc, t))
        else ExtStop(Outcome(Fragment, t.(l4Proto := b[off], flags := t.flags.(fragment := true))))
      else
        var len := ExtLen(next, b[off + 1]);
        var rc := Need(off, len, |b|, end);
        if rc != Ok then ExtStop(Outcome(rc, t))
        else ScanExts(b, end, off + len, b[off], t, i + 1)
  }

  function ParseTransport(b: seq<byte>, end: nat, l4: nat, t: Tuple): Outcome {
    if t.l4Proto == 6 then
      var rc := Need(l4, 20, |b|, end);
      if rc != Ok then Outcome(rc, t)
      else
        var hlen := b[l4 + 12] / 16 * 4;
        if hlen < 20 || l4 + hlen > end then Outcome(Malformed, t) else Outcome(Ok, WithPorts(b, l4, t))
    else if t.l4Proto == 17 then
      var rc := Need(l4, 8, |b|, end);
      if rc != Ok then Outcome(rc, t)
      else
        var ulen := Be16(b, l4 + 4);
        if ulen < 8 || l4 + ulen > end then Outcome(Malformed, t) else Outcome(Ok, WithPorts(b, l4, t))
    else Outcome(Ok, t)
  }

  function WithPorts(b: seq<byte>, l4: nat, t: Tuple): Tuple
    requires l4 + 4 <= |b|
  {
    t.(sport := b[l4..l4 + 2], dport := b[l4 + 2..l4 + 4], flags := t.flags.(portsValid := true))
  }

  function WithAddresses(t: Tuple, version: byte, src: seq<byte>, dst: seq<byte>): Tuple
    requires |src| <= 16 && |dst| <= 16
  {
    t.(ipVersion := version, src := CopyInto(t.src, src), dst := CopyInto(t.dst, dst),
    flags := t.flags.(addrValid := true))
  }

  function ParseArp(b: seq<byte>, end: nat, off: nat, t: Tuple): Outcome {
    var rc := Need(off, 28, |b|, end);
    if rc != Ok then Outcome(rc, t)
    else if Be16(b, off) != 1 || Be16(b, off + 2) != 0x0800 || b[off + 4] != 6 || b[off + 5] != 4 then
      Outcome(Unsupported, t)
    else
      Outcome(Ok, WithAddresses(t, 4, b[off + 14..off + 18], b[off + 24..off + 28]))
  }

  function ParseV4(b: seq<byte>, end: nat, off: nat, t: Tuple): Outcome {
    var rc := Need(off, 20, |b|, end);
    if rc != Ok then Outcome(rc, t)
    else if b[off] / 16 != 4 then Outcome(Malformed, t)
    else
      var ihl, total := b[off] % 16 * 4, Be16(b, off + 2);
      if ihl < 20 || total < ihl || off + total > end then Outcome(Malformed, t)
      else
        ParseV4Header(b, off, ihl, total, t)
  }

  /** An IPv4 header of `ihl` bytes in a datagram of `total` bytes: both lengths are known to fit. */
  function ParseV4Header(b: seq<byte>, off: nat, ihl: nat, total: nat, t: Tuple): Outcome
    requires 20 <= ihl <= total
  {
    var rc := Need(off, ihl, |b|, off + total);
    if rc != Ok then Outcome(rc, t)
    else
      var t1 := WithAddresses(t, 4, b[off + 12..off + 16], b[off + 16..off + 20]).(l4Proto := b[off + 9]);
      if Be16(b, off + 6) % 0x4000 != 0 then
        Outcome(Fragment, t1.(flags := t1.flags.(fragment := true)))
      else ParseTransport(b, off + total, off + ihl, t1)
  }

  function ParseV6(b: seq<byte>, end: nat, off: nat, t: Tuple): Outcome {
    var rc := Need(off, 40, |b|, end);
    if rc != Ok then Outcome(rc, t)
    else if b[off] / 16 != 6 then Outcome(Malformed, t)
    else
      var payload := Be16(b, off + 4);
      if payload == 0 then Outcome(Unsupported, t)
      else if off + 40 + payload > end then Outcome(Malformed, t)
      else
        var t1 := WithAddresses(t, 6, b[off + 8..off + 24], b[off + 24..off + 40]);
        ParseV6Body(b, off + 40 + payload, off + 40, b[off + 6], t1)
  }

  function ParseV6Body(b: seq<byte>, end: nat, off: nat, next: byte, t: Tuple): Outcome {
    FinishExts(b, end, ScanExts(b, end, off, next, t, 0), t)
  }

  function FinishExts(b: seq<byte>, end: nat, scan: ExtScan, t: Tuple): Outcome {
    match scan
    case ExtStop(out) => out
    case ExtDone(l4, proto) =>
      var t1 := t.(l4Proto := proto);
      if IsExt(proto) || proto == 50 then Outcome(Unsupported, t1)
      else ParseTransport(b, end, l4, t1)
  }

  function ParseNetwork(b: seq<byte>, end: nat, off: nat, etype: word16, t: Tuple): Outcome {
    var t1 := t.(ethertype := etype);
    if IsVlan(etype) then Outcome(Unsupported, t1)
    else if etype == 0x0806 then ParseArp(b, end, off, t1)
    else if etype == 0x0800 then ParseV4(b, end, off, t1)
    else if etype == 0x86dd then ParseV6(b, end, off, t1)
    else Outcome(Unsupported, t1)
  }

  /** The tuple after the Ethernet header, with the VLAN ID the driver may have stripped. */
  function Labelled(stripped: Option<word16>): Tuple {
    var t := ZERO_TUPLE.(flags := NO_FLAGS.(l2Valid := true));
    if stripped.Some? then t.PushVlan(stripped.value % 0x1000) else t
  }

  function ParseTagged(b: seq<byte>, end: nat, off: nat, etype: word16, t: Tuple, i: nat): Outcome {
    match ScanTags(b, end, off, etype, t, i)
    case TagStop(out) => out
    case TagDone(off, etype, t) => ParseNetwork(b, end, off, etype, t)
  }

  /** The decoder on a capture `b` of a frame of `originalLen` bytes, before any clamping. */
  function ParseCapture(b: seq<byte>, originalLen: nat, stripped: Option<word16>): Outcome {
    var rc := Need(0, 14, |b|, originalLen);
    if rc != Ok then Outcome(rc, ZERO_TUPLE)
    else ParseTagged(b, originalLen, 14, Be16(b, 12), Labelled(stripped), 0)
  }

  function Clamp(cap: nat, originalLen: nat): nat {
    Min(Min(cap, PARSE_BYTES), originalLen)
  }

  function Parse(p: seq<byte>, originalLen: nat, stripped: Option<word16>): Outcome {
    ParseCapture(p[..Clamp(|p|, originalLen)], originalLen, stripped)
  }

  /** es_need on 32-bit unsigned values: the guards keep both subtractions from wrapping. */
  function EsNeed(off: u32, n: u32, cap: u32, end: u32): (rc: Status)
    ensures rc == Need(off as nat, n as nat, cap as nat, end as nat)
  {
    if off > end || n > end - off then Malformed
    else if off > cap || n > cap - off then Truncated
    else Ok
  }

  /**
   * es_parse.  Every u32 operation is checked not to wrap and every byte is read from the capture
   * below the clamped `cap`.  The blocks of the C function are methods of their own below.
   */
  method EsParse(p: seq<byte>, capIn: u32, originalLen: u32, stripped: Option<word16>)
    returns (rc: Status, t: Tuple)
    requires capIn as int <= |p|
    ensures Outcome(rc, t) == Parse(p[..capIn as int], originalLen as int, stripped)
  {
    var cap := capIn;
    t := ZERO_TUPLE;
    if cap > 128 { cap := 128; }
    if cap > originalLen { cap := originalLen; }
    var b := p[..cap as int];
    assert b == p[..capIn as int][..Clamp(capIn as int, originalLen as int)];
    rc := EsNeed(0, 14, cap, originalLen);
    if rc != Ok { return; }
    var etype := Be16(b, 12);
    t := t.(flags := t.flags.(l2Valid := true));
    if stripped.Some? { t := t.PushVlan(stripped.value % 0x1000); }
    rc, t := EsTags(b, cap, originalLen, etype, t);
  }

  /** The loop over 802.1Q tags and the dispatch on the Ethertype behind them. */
  method EsTags(b: seq<byte>, cap: u32, end: u32, etypeIn: word16, tIn: Tuple) returns (rc: Status, t: Tuple)
    requires 14 <= cap as int == |b| <= PARSE_BYTES && cap <= end
    ensures Outcome(rc, t) == ParseTagged(b, end as int, 14, etypeIn, tIn, 0)
  {
    var off: u32, etype := 14, etypeIn;
    t := tIn;
    rc := Ok;
    for i := 0 to 2
      invariant off <= cap
      invariant ParseTagged(b, end as int, 14, etypeIn, tIn, 0) == ParseTagged(b, end as int, off as int, etype, t, i)
    {
      if !IsVlan(etype) { break; }
      if t.vlanCount >= 2 { return Unsupported, t; }
      rc := EsNeed(off, 4, cap, end);
      if rc != Ok { return; }
      t := t.PushVlan(Be16(b, off as int) % 0x1000);
      etype := Be16(b, off as int + 2);
      off := off + 4;
    }
    t := t.(ethertype := etype);
    if IsVlan(etype) { return Unsupported, t; }
    if etype == 0x0806 {
      rc, t := EsArp(b, cap, end, off, t);
    } else if etype == 0x0800 {
      rc, t := EsIpv4(b, cap, end, off, t);
    } else if etype == 0x86dd {
      rc, t := EsIpv6(b, cap, end, off, t);
    } else {
      return Unsupported, t;
    }
  }

  method EsArp(b: seq<byte>, cap: u32, end: u32, off: u32, tIn: Tuple) returns (rc: Status, t: Tuple)
    requires cap as int == |b|
    ensures Outcome(rc, t) == ParseArp(b, end as int, off as int, tIn)
  {
    t := tIn;
    rc := EsNeed(off, 28, cap, end);
    if rc != Ok { return; }
    var o := off as int;
    if Be16(b, o) != 1 || Be16(b, o + 2) != 0x0800 || b[o + 4] != 6 || b[o + 5] != 4 {
      return Unsupported, t;
    }
    t := t.(src := CopyInto(t.src, b[o + 14..o + 18]));
    t := t.(dst := CopyInto(t.dst, b[o + 24..o + 28]));
    t := t.(ipVersion := 4);
    t := t.(flags := t.flags.(addrValid := true));
    return Ok, t;
  }

  method EsIpv4(b: seq<byte>, cap: u32, endIn: u32, off: u32, tIn: Tuple) returns (rc: Status, t: Tuple)
    requires cap as int == |b| <= PARSE_BYTES
    ensures Outcome(rc, t) == ParseV4(b, endIn as int, off as int, tIn)
  {
    var end := endIn;
    t := tIn;
    rc := EsNeed(off, 20, cap, end);
    if rc != Ok { return; }
    var o := off as int;
    if b[o] / 16 != 4 { return Malformed, t; }
    var ihl: u32 := (b[o] % 16) as u32 * 4;
    var total: u32 := Be16(b, o + 2) as u32;
    if ihl < 20 || total < ihl || total > end - off { return Malformed, t; }
    end := off + total; // Ethernet padding is not transport data
    rc := EsNeed(off, ihl, cap, end);
    if rc != Ok { return; }
    t := t.(ipVersion := 4);
    t := t.(l4Proto := b[o + 9]);
    t := t.(src := CopyInto(t.src, b[o + 12..o + 16]));
    t := t.(dst := CopyInto(t.dst, b[o + 16..o + 20]));
    t := t.(flags := t.flags.(addrValid := true));
    if Be16(b, o + 6) % 0x4000 != 0 {
      t := t.(flags := t.flags.(fragment := true));
      return Fragment, t;
    }
    rc, t := EsTransport(b, cap, end, off + ihl, t);
  }

  /** The IPv6 header and the loop over its extension headers. */
  method EsIpv6(b: seq<byte>, cap: u32, endIn: u32, offIn: u32, tIn: Tuple) returns (rc: Status, t: Tuple)
    requires cap as int == |b| <= PARSE_BYTES
    ensures Outcome(rc, t) == ParseV6(b, endIn as int, offIn as int, tIn)
  {
    var end, off := endIn, offIn;
    t := tIn;
    rc := EsNeed(off, 40, cap, end);
    if rc != Ok { return; }
    var o := off as int;
    if b[o] / 16 != 6 { return Malformed, t; }
    var payload: u32 := Be16(b, o + 4) as u32;
    if payload == 0 { return Unsupported, t; } // no jumbograms
    if payload > end - off - 40 { return Malformed, t; }
    end := off + 40 + payload;
    var next := b[o + 6];
    t := t.(ipVersion := 6);
    t := t.(src := CopyInto(t.src, b[o + 8..o + 24]));
    t := t.(dst := CopyInto(t.dst, b[o + 24..o + 40]));
    t := t.(flags := t.flags.(addrValid := true));
    off := off + 40;
    rc, t := EsExtensions(b, cap, end, off, next, t);
  }

  method EsExtensions(b: seq<byte>, cap: u32, end: u32, offIn: u32, nextIn: byte, tIn: Tuple)
    returns (rc: Status, t: Tuple)
    requires cap as int == |b| <= PARSE_BYTES && offIn <= cap
    ensures Outcome(rc, t) == ParseV6Body(b, end as int, offIn as int, nextIn, tIn)
  {
    var off, next := offIn, nextIn;
    t := tIn;
    rc := Ok;
    for i := 0 to 4
      invariant off <= cap
      invariant t == tIn
      invariant ScanExts(b, end as int, offIn as int, nextIn, tIn, 0) == ScanExts(b, end as int, off as int, next, t, i)
    {
      if !IsExt(next) { break; }
      rc := EsNeed(off, 2, cap, end);
      if rc != Ok { return; }
      var o := off as int;
      if next == 44 {
        rc := EsNeed(off, 8, cap, end);
        if rc != Ok { return; }
        t := t.(l4Proto := b[o]);
        t := t.(flags := t.flags.(fragment := true));
        return Fragment, t;
      }
      var extLen: u32 := if next == 51 then (b[o + 1] as u32 + 2) * 4 else (b[o + 1] as u32 + 1) * 8;
      assert extLen >= 8; // so the guard on short headers, line 136, never fires
      rc := EsNeed(off, extLen, cap, end);
      if rc != Ok { return; }
      next := b[o];
      off := off + extLen;
    }
    t := t.(l4Proto := next);
    if IsExt(next) || next == 50 { return Unsupported, t; }
    rc, t := EsTransport(b, cap, end, off, t);
  }

  method EsTransport(b: seq<byte>, cap: u32, end: u32, l4: u32, tIn: Tuple) returns (rc: Status, t: Tuple)
    requires cap as int == |b|
    ensures Outcome(rc, t) == ParseTransport(b, end as int, l4 as int, tIn)
  {
    t := tIn;
    var l := l4 as int;
    if t.l4Proto == 6 {
      rc := EsNeed(l4, 20, cap, end);
      if rc != Ok { return; }
      var hlen: u32 := (b[l + 12] / 16) as u32 * 4;
      if hlen < 20 || hlen > end - l4 { return Malformed, t; }
    } else if t.l4Proto == 17 {
      rc := EsNeed(l4, 8, cap, end);
      if rc != Ok { return; }
      var ulen: u32 := Be16(b, l + 4) as u32;
      if ulen < 8 || ulen > end - l4 { return Malformed, t; }
    } else {
      return Ok, t;
    }
    t := t.(sport := b[l..l + 2]);
    t := t.(dport := b[l + 2..l + 4]);
    t := t.(flags := t.flags.(portsValid := true));
    return Ok, t;
  }
}
