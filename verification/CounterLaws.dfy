/**
 * What each counter of the observer counts, over whole runs of calls on one slot, by its number in
 * bpf/elephantshrew_shared.h; and what protocol selection lets through.
 */
module CounterLaws {
  import opened Shared
  import opened Counting
  import opened Arithmetic
  import opened Observer
  import opened Sampling
  import opened Parser
  import opened ParserLaws

  /** The decoder's answer, or None where no feature asks for it. */
  function Parsed(cfg: Config, c: Call): Option<Outcome> {
    if cfg.classify == 0 && cfg.flowEnabled == 0 && cfg.selectL4Proto == 0 then None
    else if |c.skb.data| == 0 || !c.h.load then Some(Outcome(Truncated, ZERO_TUPLE))
    else Some(ParseWhole(c.skb.data, if c.skb.vlanPresent then Some((c.skb.vlanTci % 65536) as word16) else None))
  }

  function Partial(cfg: Config): Call -> bool {
    (c: Call) => Parsed(cfg, c).Some? && Parsed(cfg, c).value.status in {Truncated, Unsupported, Fragment}
  }

  function Broken(cfg: Config): Call -> bool {
    (c: Call) => Parsed(cfg, c).Some? && Parsed(cfg, c).value.status == Malformed
  }

  function Selected(cfg: Config): Call -> bool {
    (c: Call) =>
      cfg.selectL4Proto == 0 ||
      (Parsed(cfg, c).Some? && Parsed(cfg, c).value.status == Ok
       && Parsed(cfg, c).value.tuple.l4Proto == cfg.selectL4Proto)
  }

  function TotalBytes(calls: seq<Call>): nat {
    if calls == [] then 0 else TotalBytes(calls[..|calls| - 1]) + |calls[|calls| - 1].skb.data|
  }

  lemma ParsedIsObserved(cfg: Config, c: Call)
    ensures
      var o := Observed(cfg, c.skb, c.h.load);
      if Parsed(cfg, c).None? then o.status == Skipped else o == Parsed(cfg, c).value && o.status != Skipped
  {
    hide ParseWhole;
    DecodeStatus(c.skb, c.h.load);
  }

  /** What one call does to the slot. */
  ghost predicate Moves(cfg: Config, c: Call, s: HookState, t: HookState) {
    && t.counters[0] == Plus(s.counters[0], 1)
    && t.counters[1] == Plus(s.counters[1], |c.skb.data|)
    && t.counters[2] == Plus(s.counters[2], Bit(Selected(cfg)(c)))
    && t.counters[5] == Plus(s.counters[5], Bit(Partial(cfg)(c)))
    && t.counters[6] == Plus(s.counters[6], Bit(Broken(cfg)(c)))
    && (forall i :: 9 <= i < 13 ==> t.counters[i] == s.counters[i])
    && Hits(cfg, c, s, t)
  }

  /** A hit is published if there is room, and counted as lost if there is none. */
  ghost predicate Hits(cfg: Config, c: Call, s: HookState, t: HookState) {
    var hit := Selected(cfg)(c) && cfg.sampleEvery != 0 && t.counters[2] % cfg.sampleEvery == 0;
    && |t.ring| == |s.ring| + Bit(hit && c.h.reserve)
    && t.counters[3] == Plus(s.counters[3], Bit(hit && c.h.reserve))
    && t.counters[4] == Plus(s.counters[4], Bit(hit && !c.h.reserve))
    && t.counters[7] == Plus(s.counters[7], Bit(hit && c.h.reserve && !c.h.copy && CopyAsked(cfg, c)))
  }

  predicate CopyAsked(cfg: Config, c: Call) {
    cfg.snapshotBytes > 0 && |c.skb.data| > 0
  }

  lemma CallHits(cfg: Config, s: HookState, c: Call)
    ensures Hits(cfg, c, s, Step(cfg, s, c.skb, c.direction, c.h))
  {
    hide Observed, Parsed, EventOf, AccountDelta, FlowsAfter, Plus, Selects;
    var t := Step(cfg, s, c.skb, c.direction, c.h);
    SelectsAlike(cfg, c);
    PlusPlus(s.counters[2], 0, 0);
    OnlySampled(cfg, s.flows, c);
    DeltasOf(cfg, s, c, t);
  }

  /** Each counter moves by its delta. */
  lemma DeltasOf(cfg: Config, s: HookState, c: Call, t: HookState)
    requires t == Step(cfg, s, c.skb, c.direction, c.h)
    ensures forall i :: 0 <= i < 13 ==>
              t.counters[i] == Plus(s.counters[i], Delta(cfg, s.counters, s.flows, c.skb, c.direction, c.h, i))
  {
    hide Delta, Plus;
  }

  lemma OnlySampled(cfg: Config, flows: map<FlowKey, FlowValue>, c: Call)
    ensures forall i :: 2 <= i <= 4 || i == 7 ==> AccountDelta(cfg, flows, c.skb, c.direction, c.h, i) == 0
  {
  }

  lemma SelectsAlike(cfg: Config, c: Call)
    ensures Selects(cfg, Observed(cfg, c.skb, c.h.load)) == Selected(cfg)(c)
  {
    hide Observed, Parsed;
    ParsedIsObserved(cfg, c);
  }

  lemma CallMoves(cfg: Config, s: HookState, c: Call)
    ensures Moves(cfg, c, s, Step(cfg, s, c.skb, c.direction, c.h))
  {
    hide Observed, Parsed, EventOf, Admit, FlowsAfter, Plus, Selects, Selected, Hits;
    var t := Step(cfg, s, c.skb, c.direction, c.h);
    ParsedIsObserved(cfg, c);
    SelectsAlike(cfg, c);
    CallHits(cfg, s, c);
    DeltasOf(cfg, s, c, t);
    PlusPlus(s.counters[9], 0, 0);
    PlusPlus(s.counters[10], 0, 0);
    PlusPlus(s.counters[11], 0, 0);
    PlusPlus(s.counters[12], 0, 0);
  }

  /** Published and lost are every `n`-th of those selected, or none. */
  ghost predicate IsFloor(sent: nat, lost: nat, selected: nat, n: nat) {
    sent + lost == if n == 0 then 0 else selected / n
  }

  /** The counters of a slot after `calls`, none of which has wrapped. */
  ghost predicate Means(cfg: Config, calls: seq<Call>, s: HookState) {
    var c := s.counters;
    && c[0] == |calls|
    && c[1] == Wrap64(TotalBytes(calls))
    && c[2] == Count(calls, Selected(cfg))
    && c[3] == |s.ring|
    && IsFloor(c[3], c[4], c[2], cfg.sampleEvery)
    && c[5] == Count(calls, Partial(cfg))
    && c[6] == Count(calls, Broken(cfg))
    && c[7] <= c[3]
    && forall i :: 9 <= i < 13 ==> c[i] == 0
  }

  lemma Adds(x: word64, n: nat)
    ensures x + n < TWO_64 ==> Plus(x, n) == x + n
  {
  }

  lemma WrapAdds(n: nat, k: nat)
    ensures Plus(Wrap64(n), k) == Wrap64(n + k)
  {
  }

  lemma MeansStep(cfg: Config, before: seq<Call>, c: Call, s: HookState, t: HookState)
    requires |before| + 1 < TWO_64 && Means(cfg, before, s) && Moves(cfg, c, s, t)
    ensures Means(cfg, before + [c], t)
  {
    hide Plus, Wrap64, Selected, Partial, Broken, CopyAsked;
    CountAppend(before, c, Selected(cfg));
    CountAppend(before, c, Partial(cfg));
    CountAppend(before, c, Broken(cfg));
    assert (before + [c])[..|before|] == before;
    WrapAdds(TotalBytes(before), |c.skb.data|);
    Adds(s.counters[0], 1);
    Adds(s.counters[2], Bit(Selected(cfg)(c)));
    Adds(s.counters[5], Bit(Partial(cfg)(c)));
    Adds(s.counters[6], Bit(Broken(cfg)(c)));
    HitsKeep(cfg, c, s, t);
  }

  /** The floor law, one call further. */
  lemma HitsKeep(cfg: Config, c: Call, s: HookState, t: HookState)
    requires Hits(cfg, c, s, t) && s.counters[2] + 1 < TWO_64
    requires s.counters[3] == |s.ring| && s.counters[7] <= s.counters[3]
    requires t.counters[2] == s.counters[2] + Bit(Selected(cfg)(c))
    requires IsFloor(s.counters[3], s.counters[4], s.counters[2], cfg.sampleEvery)
    ensures t.counters[3] == |t.ring| && t.counters[7] <= t.counters[3]
    ensures IsFloor(t.counters[3], t.counters[4], t.counters[2], cfg.sampleEvery)
  {
    hide Plus, Selected, CopyAsked;
    var n, k := cfg.sampleEvery, s.counters[2];
    if n > 0 {
      FloorStep(k, n);
      QuotientAtMost(k, n);
    }
    Adds(s.counters[3], 0);
    Adds(s.counters[3], 1);
    Adds(s.counters[4], 0);
    Adds(s.counters[4], 1);
    Adds(s.counters[7], 0);
    Adds(s.counters[7], 1);
  }

  lemma {:induction false} QuotientAtMost(k: nat, n: nat)
    requires n > 0
    ensures k / n <= k
    decreases k
  {
    if k > 0 {
      QuotientAtMost(k - 1, n);
      FloorStep(k - 1, n);
    }
  }

  /**
   * Below 2^64 calls on a slot: 0 counts the packets, 1 their bytes, 2 those selected, 3 the events
   * in the ring, 4 those lost to it, 5 the partial and 6 the malformed parses, 7 failed snapshots; 9
   * to 12 are not the observer's.
   */
  lemma {:induction false} CountersMean(cfg: Config, calls: seq<Call>)
    requires |calls| < TWO_64
    ensures Means(cfg, calls, RunCalls(cfg, calls))
  {
    hide Means, Moves, Step, RunCalls, Count;
    if calls == [] {
      NothingYet(cfg);
    } else {
      var before, c := calls[..|calls| - 1], calls[|calls| - 1];
      assert calls == before + [c];
      CountersMean(cfg, before);
      CallMoves(cfg, RunCalls(cfg, before), c);
      RunOneMore(cfg, before, c);
      MeansStep(cfg, before, c, RunCalls(cfg, before), RunCalls(cfg, calls));
    }
  }

  lemma RunOneMore(cfg: Config, before: seq<Call>, c: Call)
    ensures RunCalls(cfg, before + [c]) == Step(cfg, RunCalls(cfg, before), c.skb, c.direction, c.h)
  {
    hide Step;
    assert (before + [c])[..|before|] == before;
  }

  lemma NothingYet(cfg: Config)
    ensures Means(cfg, [], RunCalls(cfg, []))
  {
    hide Step;
    if cfg.sampleEvery > 0 {
      QuotientAtMost(0, cfg.sampleEvery);
    }
  }

  /** With a protocol selected, only packets that decode to that protocol are ever published. */
  lemma {:induction false} OnlySelectedPublished(cfg: Config, calls: seq<Call>)
    requires cfg.selectL4Proto != 0
    ensures forall e <- RunCalls(cfg, calls).ring :: e.parseStatus == 0 && e.tuple.l4Proto == cfg.selectL4Proto
  {
    if calls != [] {
      hide CountersAfter, Observed;
      var before, c := calls[..|calls| - 1], calls[|calls| - 1];
      OnlySelectedPublished(cfg, before);
    }
  }
}
