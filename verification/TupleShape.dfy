/** What holds of the status and the tuple at every return of the decoder. */
module TupleShape {
  import opened Shared
  import opened Parser
  import opened ParserLaws

  ghost predicate VlansShaped(t: Tuple) {
    && t.vlanCount <= 2
    && (forall k :: 0 <= k < 2 ==> t.vlan[k] < 0x1000)
    && (forall k :: t.vlanCount <= k < 2 ==> t.vlan[k] == 0)
  }

  /** The parts of the tuple that no return ever leaves half filled. */
  ghost predicate Shaped(t: Tuple) {
    && t.reserved == 0 && t.flags.unknown == 0 && VlansShaped(t)
    && (t.flags.addrValid <==> t.ipVersion == 4 || t.ipVersion == 6)
    && (!t.flags.addrValid ==> t.ipVersion == 0 && t.src == Zeros(16) && t.dst == Zeros(16) && t.l4Proto == 0)
    && (t.ipVersion == 4 ==> t.src[4..] == Zeros(12) && t.dst[4..] == Zeros(12))
    && (t.flags.portsValid || t.flags.fragment ==> t.flags.addrValid)
    && (!t.flags.portsValid ==> t.sport == Zeros(2) && t.dport == Zeros(2))
    && (t.flags.addrValid ==> t.flags.l2Valid)
  }

  /** Shaped, and the flags say what the status says. */
  ghost predicate WellFormed(o: Outcome) {
    && Shaped(o.tuple)
    && o.status != Skipped
    && (o.tuple.flags.portsValid <==> o.status == Ok && (o.tuple.l4Proto == 6 || o.tuple.l4Proto == 17))
    && (o.tuple.flags.fragment <==> o.status == Fragment)
    && (o.status == Ok ==> o.tuple.flags.addrValid)
    && (!o.tuple.flags.l2Valid ==> o.tuple == ZERO_TUPLE && (o.status == Truncated || o.status == Malformed))
  }

  lemma AddressesShaped(t: Tuple, version: byte, src: seq<byte>, dst: seq<byte>)
    requires Shaped(t) && !t.flags.addrValid && t.flags.l2Valid
    requires (version == 4 && |src| == |dst| == 4) || (version == 6 && |src| == |dst| == 16)
    ensures Shaped(WithAddresses(t, version, src, dst))
  {
    if version == 4 {
      assert (src + t.src[4..])[4..] == Zeros(12) && (dst + t.dst[4..])[4..] == Zeros(12);
    }
  }

  lemma TransportWellFormed(b: seq<byte>, end: nat, l4: nat, t: Tuple)
    requires Shaped(t) && t.flags.addrValid && !t.flags.portsValid && !t.flags.fragment
    ensures WellFormed(ParseTransport(b, end, l4, t))
  {
  }

  lemma {:induction false} ExtsWellFormed(b: seq<byte>, end: nat, off: nat, next: byte, t: Tuple, i: nat)
    requires Shaped(t) && t.flags.addrValid && !t.flags.portsValid && !t.flags.fragment && t.l4Proto == 0
    ensures ScanExts(b, end, off, next, t, i).ExtStop? ==> WellFormed(ScanExts(b, end, off, next, t, i).out)
    decreases |b| - off
  {
    if i < 4 && IsExt(next) && next != 44 && Need(off, 2, |b|, end) == Ok {
      var len := ExtLen(next, b[off + 1]);
      if Need(off, len, |b|, end) == Ok {
        ExtsWellFormed(b, end, off + len, b[off], t, i + 1);
      }
    }
  }

  lemma V6WellFormed(b: seq<byte>, end: nat, off: nat, t: Tuple)
    requires Shaped(t) && LinkOnly(t.(ethertype := 0)) && t.flags.l2Valid
    ensures WellFormed(ParseV6(b, end, off, t))
  {
    if Need(off, 40, |b|, end) == Ok {
      var t1 := WithAddresses(t, 6, b[off + 8..off + 24], b[off + 24..off + 40]);
      AddressesShaped(t, 6, b[off + 8..off + 24], b[off + 24..off + 40]);
      V6BodyWellFormed(b, off + 40 + Be16(b, off + 4), off + 40, b[off + 6], t1);
    }
  }

  lemma V6BodyWellFormed(b: seq<byte>, end: nat, off: nat, next: byte, t: Tuple)
    requires Shaped(t) && t.flags.addrValid && !t.flags.portsValid && !t.flags.fragment && t.l4Proto == 0
    ensures WellFormed(ParseV6Body(b, end, off, next, t))
  {
    ExtsWellFormed(b, end, off, next, t, 0);
    var s := ScanExts(b, end, off, next, t, 0);
    if s.ExtDone? {
      TransportWellFormed(b, end, s.off, t.(l4Proto := s.next));
    }
  }

  lemma V4WellFormed(b: seq<byte>, off: nat, ihl: nat, total: nat, t: Tuple)
    requires 20 <= ihl <= total && Shaped(t) && LinkOnly(t.(ethertype := 0)) && t.flags.l2Valid
    ensures WellFormed(ParseV4Header(b, off, ihl, total, t))
  {
    if off + ihl <= |b| {
      var t1 := WithAddresses(t, 4, b[off + 12..off + 16], b[off + 16..off + 20]);
      AddressesShaped(t, 4, b[off + 12..off + 16], b[off + 16..off + 20]);
      TransportWellFormed(b, off + total, off + ihl, t1.(l4Proto := b[off + 9]));
    }
  }

  lemma NetworkWellFormed(b: seq<byte>, end: nat, off: nat, etype: word16, t: Tuple)
    requires Shaped(t) && LinkOnly(t) && t.flags.l2Valid
    ensures WellFormed(ParseNetwork(b, end, off, etype, t))
  {
    var t1 := t.(ethertype := etype);
    if etype == 0x0806 && Need(off, 28, |b|, end) == Ok {
      AddressesShaped(t1, 4, b[off + 14..off + 18], b[off + 24..off + 28]);
    } else if etype == 0x0800 && Need(off, 20, |b|, end) == Ok {
      var ihl, total := b[off] % 16 * 4, Be16(b, off + 2);
      if 20 <= ihl <= total {
        V4WellFormed(b, off, ihl, total, t1);
      }
    } else if etype == 0x86dd {
      V6WellFormed(b, end, off, t1);
    }
  }

  lemma {:induction false} TaggedWellFormed(b: seq<byte>, end: nat, off: nat, etype: word16, t: Tuple, i: nat)
    requires Shaped(t) && LinkOnly(t) && t.flags.l2Valid
    ensures WellFormed(ParseTagged(b, end, off, etype, t, i))
    decreases |b| - off
  {
    if i >= 2 || !IsVlan(etype) {
      NetworkWellFormed(b, end, off, etype, t);
    } else if t.vlanCount < 2 && Need(off, 4, |b|, end) == Ok {
      TaggedWellFormed(b, end, off + 4, Be16(b, off + 2), t.PushVlan(Be16(b, off) % 0x1000), i + 1);
    }
  }

  /** Every outcome is well formed, whatever the bytes, the lengths and the stripped tag. */
  lemma ParseWellFormed(p: seq<byte>, originalLen: nat, stripped: Option<word16>)
    ensures WellFormed(Parse(p, originalLen, stripped))
  {
    var b := p[..Clamp(|p|, originalLen)];
    if |b| >= 14 {
      TaggedWellFormed(b, originalLen, 14, Be16(b, 12), Labelled(stripped), 0);
    }
  }
}
