/**
 * Laws of the decoder that relate two runs: what a longer capture of a frame, or of a longer frame
 * that starts with it, can still change.
 */
module ParserLaws {
  import opened Shared
  import opened Parser

  // --- Longer captures and padded frames --------------------------------------------------------

  /** Everything recorded in `t` is still there in `u`. */
  ghost predicate Grows(t: Tuple, u: Tuple) {
    && (t.flags.l2Valid ==> u.flags.l2Valid)
    && (t.flags.addrValid ==>
          u.flags.addrValid && u.ipVersion == t.ipVersion && u.src == t.src && u.dst == t.dst)
    && (t.flags.portsValid ==> u.flags.portsValid && u.sport == t.sport && u.dport == t.dport)
    && (t.flags.fragment ==> u.flags.fragment)
    && t.vlanCount <= u.vlanCount
    && (forall k :: 0 <= k < t.vlanCount && k < 2 ==> u.vlan[k] == t.vlan[k])
    && (t.ethertype != 0 ==> u.ethertype == t.ethertype)
    && (t.l4Proto != 0 ==> u.l4Proto == t.l4Proto)
  }

  /** A run on less of a packet against a run on more of it. */
  ghost predicate Stable(less: Outcome, more: Outcome, sameCapture: bool, sameLength: bool) {
    && (less.status != Truncated && less.status != Malformed ==> more == less)
    && (less.status == Malformed && sameLength ==> more == less)
    && (less.status == Truncated && sameCapture ==> more == less)
    && (less.status == Truncated ==> Grows(less.tuple, more.tuple))
  }

  /** No network header has been read into `t` yet. */
  ghost predicate LinkOnly(t: Tuple) {
    t.ethertype == 0 && t.l4Proto == 0 && !t.flags.addrValid && !t.flags.portsValid && !t.flags.fragment
  }

  lemma TransportGrows(b: seq<byte>, end: nat, l4: nat, t: Tuple)
    requires !t.flags.portsValid
    ensures Grows(t, ParseTransport(b, end, l4, t).tuple)
  {
  }

  lemma TransportStable(b: seq<byte>, b': seq<byte>, end: nat, l4: nat, t: Tuple)
    requires b <= b' && !t.flags.portsValid
    ensures Stable(ParseTransport(b, end, l4, t), ParseTransport(b', end, l4, t), b == b', true)
  {
    TransportGrows(b', end, l4, t);
    if l4 + 8 <= |b| {
      assert b[l4..l4 + 2] == b'[l4..l4 + 2] && b[l4 + 2..l4 + 4] == b'[l4 + 2..l4 + 4];
      assert b[l4 + 4] == b'[l4 + 4] && b[l4 + 5] == b'[l4 + 5];
      assert l4 + 20 <= |b| ==> b[l4 + 12] == b'[l4 + 12];
    }
  }

  /** One extension header further, given that the rest of the scan is stable. */
  lemma {:induction false} ExtsStable(b: seq<byte>, b': seq<byte>, end: nat, off: nat, next: byte, t: Tuple, i: nat)
    requires b <= b' && t.l4Proto == 0 && !t.flags.fragment
    ensures
      var s, s' := ScanExts(b, end, off, next, t, i), ScanExts(b', end, off, next, t, i);
      && (s.ExtDone? ==> s' == s)
      && (s.ExtStop? && s.out.status == Truncated && b == b' ==> s' == s)
      && (s.ExtStop? && s.out.status == Truncated ==> s.out.tuple == t)
      && (s.ExtStop? && s.out.status != Truncated ==> s' == s)
      && (s'.ExtStop? ==> Grows(t, s'.out.tuple))
    decreases |b'| - off
  {
    if off + 2 <= |b| {
      assert b[off + 1] == b'[off + 1] && b[off] == b'[off];
    }
    if i < 4 && IsExt(next) && next != 44 && off + 2 <= |b'| && Need(off, ExtLen(next, b'[off + 1]), |b'|, end) == Ok {
      ExtsStable(b, b', end, off + ExtLen(next, b'[off + 1]), b'[off], t, i + 1);
    }
  }

  lemma V6Stable(b: seq<byte>, b': seq<byte>, end: nat, end': nat, off: nat, t: Tuple)
    requires b <= b' && end <= end' && LinkOnly(t.(ethertype := 0))
    ensures Stable(ParseV6(b, end, off, t), ParseV6(b', end', off, t), b == b', end == end')
    ensures Grows(t, ParseV6(b', end', off, t).tuple)
  {
    if off + 40 <= |b'| {
      var t1 := WithAddresses(t, 6, b'[off + 8..off + 24], b'[off + 24..off + 40]);
      V6BodyStable(b, b', off + 40 + Be16(b', off + 4), off + 40, b'[off + 6], t1);
      if off + 40 <= |b| {
        assert b[off + 8..off + 24] == b'[off + 8..off + 24] && b[off + 24..off + 40] == b'[off + 24..off + 40];
        assert b[off] == b'[off] && b[off + 4] == b'[off + 4] && b[off + 5] == b'[off + 5] && b[off + 6] == b'[off + 6];
      }
    }
  }

  lemma V6BodyStable(b: seq<byte>, b': seq<byte>, end: nat, off: nat, next: byte, t: Tuple)
    requires b <= b' && !t.flags.portsValid && t.l4Proto == 0 && !t.flags.fragment
    ensures Stable(ParseV6Body(b, end, off, next, t), ParseV6Body(b', end, off, next, t), b == b', true)
    ensures Grows(t, ParseV6Body(b', end, off, next, t).tuple)
  {
    ExtsStable(b, b', end, off, next, t, 0);
    var s' := ScanExts(b', end, off, next, t, 0);
    if s'.ExtDone? {
      TransportGrows(b', end, s'.off, t.(l4Proto := s'.next));
      TransportStable(b, b', end, s'.off, t.(l4Proto := s'.next));
    }
  }

  lemma V4HeaderGrows(b: seq<byte>, off: nat, ihl: nat, total: nat, t: Tuple)
    requires 20 <= ihl <= total && LinkOnly(t.(ethertype := 0))
    ensures Grows(t, ParseV4Header(b, off, ihl, total, t).tuple)
  {
    if off + ihl <= |b| {
      var t1 := WithAddresses(t, 4, b[off + 12..off + 16], b[off + 16..off + 20]).(l4Proto := b[off + 9]);
      TransportGrows(b, off + total, off + ihl, t1);
    }
  }

  lemma V4HeaderStable(b: seq<byte>, b': seq<byte>, off: nat, ihl: nat, total: nat, t: Tuple)
    requires b <= b' && 20 <= ihl <= total && LinkOnly(t.(ethertype := 0))
    ensures Stable(ParseV4Header(b, off, ihl, total, t), ParseV4Header(b', off, ihl, total, t), b == b', true)
  {
    V4HeaderGrows(b', off, ihl, total, t);
    if off + ihl <= |b| {
      var t1 := WithAddresses(t, 4, b'[off + 12..off + 16], b'[off + 16..off + 20]).(l4Proto := b'[off + 9]);
      assert b[off + 12..off + 16] == b'[off + 12..off + 16];
      assert b[off + 16..off + 20] == b'[off + 16..off + 20];
      assert b[off + 9] == b'[off + 9] && b[off + 6] == b'[off + 6] && b[off + 7] == b'[off + 7];
      assert Grows(t, t1);
      TransportStable(b, b', off + total, off + ihl, t1);
    }
  }

  lemma V4Stable(b: seq<byte>, b': seq<byte>, end: nat, end': nat, off: nat, t: Tuple)
    requires b <= b' && end <= end' && LinkOnly(t.(ethertype := 0))
    ensures Stable(ParseV4(b, end, off, t), ParseV4(b', end', off, t), b == b', end == end')
    ensures Grows(t, ParseV4(b', end', off, t).tuple)
  {
    if off + 20 <= |b'| {
      if off + 20 <= |b| {
        assert b[off] == b'[off] && b[off + 2] == b'[off + 2] && b[off + 3] == b'[off + 3];
      }
      if 20 <= b'[off] % 16 * 4 <= Be16(b', off + 2) {
        V4HeaderGrows(b', off, b'[off] % 16 * 4, Be16(b', off + 2), t);
        V4HeaderStable(b, b', off, b'[off] % 16 * 4, Be16(b', off + 2), t);
      }
    }
  }

  lemma ArpStable(b: seq<byte>, b': seq<byte>, end: nat, end': nat, off: nat, t: Tuple)
    requires b <= b' && end <= end' && !t.flags.addrValid
    ensures Stable(ParseArp(b, end, off, t), ParseArp(b', end', off, t), b == b', end == end')
    ensures Grows(t, ParseArp(b', end', off, t).tuple)
  {
    if off + 28 <= |b| {
      assert b[off + 14..off + 18] == b'[off + 14..off + 18] && b[off + 24..off + 28] == b'[off + 24..off + 28];
    }
  }

  lemma NetworkStable(b: seq<byte>, b': seq<byte>, end: nat, end': nat, off: nat, etype: word16, t: Tuple)
    requires b <= b' && end <= end' && LinkOnly(t)
    ensures Stable(ParseNetwork(b, end, off, etype, t), ParseNetwork(b', end', off, etype, t), b == b', end == end')
    ensures Grows(t, ParseNetwork(b', end', off, etype, t).tuple)
  {
    var t1 := t.(ethertype := etype);
    if IsVlan(etype) {
    } else if etype == 0x0806 {
      ArpStable(b, b', end, end', off, t1);
    } else if etype == 0x0800 {
      V4Stable(b, b', end, end', off, t1);
    } else if etype == 0x86dd {
      V6Stable(b, b', end, end', off, t1);
    }
  }

  lemma {:induction false} TaggedStable(
    b: seq<byte>, b': seq<byte>, end: nat, end': nat, off: nat, etype: word16, t: Tuple, i: nat)
    requires b <= b' && end <= end' && LinkOnly(t)
    ensures Stable(ParseTagged(b, end, off, etype, t, i), ParseTagged(b', end', off, etype, t, i), b == b', end == end')
    ensures Grows(t, ParseTagged(b', end', off, etype, t, i).tuple)
    decreases |b'| - off
  {
    if i >= 2 || !IsVlan(etype) {
      NetworkStable(b, b', end, end', off, etype, t);
    } else if t.vlanCount < 2 && off + 4 <= |b'| && off + 4 <= end' {
      var t1 := t.PushVlan(Be16(b', off) % 0x1000);
      TaggedStable(b, b', end, end', off + 4, Be16(b', off + 2), t1, i + 1);
      if off + 4 <= |b| {
        assert Be16(b, off) == Be16(b', off) && Be16(b, off + 2) == Be16(b', off + 2);
      }
    }
  }

  lemma CaptureStable(b: seq<byte>, b': seq<byte>, n: nat, n': nat, stripped: Option<word16>)
    requires b <= b' && n <= n'
    ensures Stable(ParseCapture(b, n, stripped), ParseCapture(b', n', stripped), b == b', n == n')
  {
    if |b'| >= 14 && n' >= 14 {
      TaggedStable(b, b', n, n', 14, Be16(b', 12), Labelled(stripped), 0);
    }
  }

  /**
   * Prefix stability: a longer capture of the same frame changes nothing once the status is not
   * Truncated, and never takes back what a Truncated run had recorded.
   */
  lemma PrefixStability(p: seq<byte>, p': seq<byte>, originalLen: nat, stripped: Option<word16>)
    requires p <= p'
    ensures
      var less, more := Parse(p, originalLen, stripped), Parse(p', originalLen, stripped);
      if less.status == Truncated then Grows(less.tuple, more.tuple) else more == less
  {
    var b, b' := p[..Clamp(|p|, originalLen)], p'[..Clamp(|p'|, originalLen)];
    assert b <= b';
    CaptureStable(b, b', originalLen, originalLen, stripped);
  }

  /** A whole frame as the hooks hand it over: its first 128 bytes with its length. */
  function ParseWhole(f: seq<byte>, stripped: Option<word16>): Outcome {
    Parse(f[..Min(|f|, PARSE_BYTES)], |f|, stripped)
  }
}
