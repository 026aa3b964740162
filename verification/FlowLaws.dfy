/**
 * The flow table over runs in which the map never fails: it then has an entry for exactly the flows
 * seen, and each entry is made of all packets of its flow.
 */
module FlowLaws {
  import opened Shared
  import opened Observer
  import opened Sampling
  import opened Flows
  import opened CounterLaws
  import opened Parser

  /** Nothing evicted, and an insertion, if there is one, succeeds. */
  predicate Untroubled(h: FlowHelpers) {
    h.evictedBefore == {} && h.inserted && h.evictedAfter == {}
  }

  /** In numbers: below 2^64 packets, the first and last time, how many packets and how many bytes. */
  lemma FoldIs(samples: seq<Sample>)
    requires 0 < |samples| < TWO_64
    ensures Fold(samples) ==
            FlowValue(samples[0].now, samples[|samples| - 1].now, |samples|, Bytes(samples) % 0x1_0000_0000_0000_0000)
  {
  }

  /** The table holds all of `under`, flow by flow, and nothing else. */
  ghost predicate Holds(flows: map<FlowKey, FlowValue>, under: FlowKey -> seq<Sample>) {
    forall k :: (k in flows <==> under(k) != []) && (k in flows ==> flows[k] == Fold(under(k)))
  }

  lemma ArrivalHolds(
    before: map<FlowKey, FlowValue>, under: FlowKey -> seq<Sample>, a: Arrival, under': FlowKey -> seq<Sample>)
    requires Holds(before, under) && Untroubled(a.h)
    requires forall k :: under'(k) == under(k) + if k == a.key then [a.sample] else []
    ensures Holds(FlowsAfter(before, a.key, a.sample.now, a.sample.len, a.h), under')
  {
    hide Fold, FlowsAfter;
    var after := FlowsAfter(before, a.key, a.sample.now, a.sample.len, a.h);
    FlowsArrive(before, a.key, a.sample.now, a.sample.len, a.h);
    FoldAccount(under(a.key), a.sample);
    FoldNothing();
    forall k
      ensures (k in after <==> under'(k) != []) && (k in after ==> after[k] == Fold(under'(k)))
    {
      assert under(k) + [] == under(k);
      if k == a.key && k in after {
        var v := if k in before then before[k] else FlowValue(0, 0, 0, 0);
        assert v == Fold(under(k));
        AccountIs(v, a.sample.now, a.sample.len);
      }
    }
  }

  lemma AccountIs(v: FlowValue, now: word64, len: nat)
    ensures v.Account(now, len) ==
            FlowValue(if v.packets == 0 then now else v.firstNs, now,
                      (v.packets + 1) % 0x1_0000_0000_0000_0000, (v.bytes + len) % 0x1_0000_0000_0000_0000)
  {
  }

  lemma FoldNothing()
    ensures Fold([]) == FlowValue(0, 0, 0, 0)
  {
  }

  /** Over arrivals: the keys are those that arrived, each entry folds all its packets, none fails. */
  lemma {:induction false} AllArrivalsHeld(arrivals: seq<Arrival>)
    requires forall a <- arrivals :: Untroubled(a.h)
    ensures Holds(Replay(arrivals).flows, k => Under(arrivals, k)) && Replay(arrivals).failed == 0
  {
    if arrivals != [] {
      var before, a := arrivals[..|arrivals| - 1], arrivals[|arrivals| - 1];
      AllArrivalsHeld(before);
      ArrivalHolds(Replay(before).flows, k => Under(before, k), a, k => Under(arrivals, k));
      FlowsArrive(Replay(before).flows, a.key, a.sample.now, a.sample.len, a.h);
    }
  }

  // --- In terms of the hook's calls ---------------------------------------------------------------

  /** The packet has ports and is of flow `k`: its tuple, its interface, its direction. */
  predicate IsOf(cfg: Config, c: Call, k: FlowKey) {
    && Parsed(cfg, c).Some? && Parsed(cfg, c).value.status == Ok && Parsed(cfg, c).value.tuple.flags.portsValid
    && k.tuple == Parsed(cfg, c).value.tuple && k.ifindex == c.skb.ifindex && k.direction == c.direction
  }

  function PacketsOf(cfg: Config, calls: seq<Call>, k: FlowKey): seq<Sample> {
    if calls == [] then []
    else
      var c := calls[|calls| - 1];
      PacketsOf(cfg, calls[..|calls| - 1], k) + if IsOf(cfg, c, k) then [Sample(c.h.now, |c.skb.data|)] else []
  }

  lemma CallHolds(cfg: Config, s: HookState, calls: seq<Call>, c: Call)
    requires cfg.flowEnabled != 0 && Untroubled(c.h.flow) && Holds(s.flows, k => PacketsOf(cfg, calls, k))
    ensures
      var t := Step(cfg, s, c.skb, c.direction, c.h);
      Holds(t.flows, k => PacketsOf(cfg, calls + [c], k)) && t.counters[8] == s.counters[8]
  {
    hide Parsed, Observed, Holds, Fold, CountersAfter, Published, FlowsAfter, Admit;
    assert (calls + [c])[..|calls|] == calls;
    var o := Observed(cfg, c.skb, c.h.load);
    ParsedIsObserved(cfg, c);
    var t := Step(cfg, s, c.skb, c.direction, c.h);
    var a := Arrival(FlowKey(o.tuple, c.skb.ifindex, c.direction), Sample(c.h.now, |c.skb.data|), c.h.flow);
    NoFailure(cfg, s, c);
    if o.status == Ok && o.tuple.flags.portsValid {
      ArrivalHolds(s.flows, k => PacketsOf(cfg, calls, k), a, k => PacketsOf(cfg, calls + [c], k));
    } else {
      SameHolds(s.flows, k => PacketsOf(cfg, calls, k), k => PacketsOf(cfg, calls + [c], k));
    }
  }

  lemma SameHolds(flows: map<FlowKey, FlowValue>, under: FlowKey -> seq<Sample>, under': FlowKey -> seq<Sample>)
    requires Holds(flows, under) && forall k :: under'(k) == under(k)
    ensures Holds(flows, under')
  {
  }

  lemma NoFailure(cfg: Config, s: HookState, c: Call)
    requires Untroubled(c.h.flow)
    ensures Step(cfg, s, c.skb, c.direction, c.h).counters[8] == s.counters[8]
  {
    FailureDelta(cfg, s.counters, s.flows, c.skb, c.direction, c.h);
    PlusPlus(s.counters[8], 0, 0);
  }

  /**
   * A run of the hook with an untroubled map: a flow has an entry exactly if a packet with its
   * tuple, on its interface and in its direction was seen, the entry folds all of them, and
   * FLOW_UPDATE_FAILED stays zero.
   */
  lemma {:induction false} AllPacketsHeld(cfg: Config, calls: seq<Call>)
    requires cfg.flowEnabled != 0 && forall c <- calls :: Untroubled(c.h.flow)
    ensures Holds(RunCalls(cfg, calls).flows, k => PacketsOf(cfg, calls, k))
    ensures RunCalls(cfg, calls).counters[8] == 0
  {
    if calls != [] {
      hide Step, RunCalls;
      var before, c := calls[..|calls| - 1], calls[|calls| - 1];
      assert calls == before + [c] && c in calls;
      AllPacketsHeld(cfg, before);
      RunOneMore(cfg, before, c);
      CallHolds(cfg, RunCalls(cfg, before), before, c);
    }
  }
}
