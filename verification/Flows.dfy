/**
 * The flow aggregate over whole runs: whatever the LRU map evicts and whichever insertions fail,
 * an entry is the fold of the packets accounted to it since it was last inserted.
 */
module Flows {
  import opened Shared
  import opened Observer
  import Sampling

  datatype Sample = Sample(now: word64, len: nat)

  /** A packet with valid ports that reaches the flow table. */
  datatype Arrival = Arrival(key: FlowKey, sample: Sample, h: FlowHelpers)

  /** The table, the packets behind each of its entries, and the two ways an arrival can end. */
  datatype Ledger = Ledger(
    flows: map<FlowKey, FlowValue>, behind: map<FlowKey, seq<Sample>>, accounted: nat, failed: nat)

  function Enter(l: Ledger, a: Arrival): Ledger {
    var kept := Admit(l.behind, a.key, [], a.h);
    var flows := FlowsAfter(l.flows, a.key, a.sample.now, a.sample.len, a.h);
    if a.key in Admit(l.flows, a.key, ZERO_FLOW, a.h) then
      Ledger(flows, if a.key in kept then kept[a.key := kept[a.key] + [a.sample]] else kept, l.accounted + 1, l.failed)
    else Ledger(flows, kept, l.accounted, l.failed + 1)
  }

  function Replay(arrivals: seq<Arrival>): Ledger {
    if arrivals == [] then Ledger(map[], map[], 0, 0)
    else Enter(Replay(arrivals[..|arrivals| - 1]), arrivals[|arrivals| - 1])
  }

  function Bytes(samples: seq<Sample>): nat {
    if samples == [] then 0 else Bytes(samples[..|samples| - 1]) + samples[|samples| - 1].len
  }

  /** The largest multiple of 2^64 up to `n`. */
  function Lap(n: nat): nat {
    n / 0x1_0000_0000_0000_0000 * 0x1_0000_0000_0000_0000
  }

  /**
   * Count, bytes, first and last.  The count wraps at 2^64 packets and the packet after the wrap
   * is first again.
   */
  function Fold(samples: seq<Sample>): FlowValue {
    if samples == [] then ZERO_FLOW
    else
      var n := |samples|;
      FlowValue(samples[Lap(n - 1)].now, samples[n - 1].now, Wrap64(n), Wrap64(Bytes(samples)))
  }

  lemma LapStep(n: nat)
    ensures Lap(n) <= n
    ensures Wrap64(n) == 0 ==> Lap(n) == n
    ensures Wrap64(n) != 0 ==> n > 0 && Lap(n) == Lap(n - 1)
  {
  }

  lemma PlusWraps(n: nat, k: nat)
    ensures Plus(Wrap64(n), k) == Wrap64(n + k)
  {
  }

  lemma FoldAccount(samples: seq<Sample>, s: Sample)
    ensures Fold(samples).Account(s.now, s.len) == Fold(samples + [s])
  {
    hide Lap, Wrap64, Plus;
    var n := |samples|;
    assert (samples + [s])[..n] == samples;
    LapStep(n);
    PlusWraps(n, 1);
    PlusWraps(Bytes(samples), s.len);
    if n == 0 {
      assert samples == [] && Wrap64(0) == 0;
    } else {
      LapStep(n - 1);
      assert Fold(samples) == FlowValue(samples[Lap(n - 1)].now, samples[n - 1].now, Wrap64(n), Wrap64(Bytes(samples)));
    }
  }

  ghost predicate Consistent(l: Ledger) {
    && l.flows.Keys == l.behind.Keys
    && forall k <- l.flows :: l.behind[k] != [] && l.flows[k] == Fold(l.behind[k])
  }

  lemma EnterConsistent(l: Ledger, a: Arrival)
    requires Consistent(l)
    ensures Consistent(Enter(l, a))
  {
    hide Fold, Admit;
    AdmitConsistent(l, a);
    var b := Admit(l.behind, a.key, [], a.h);
    if a.key in b {
      FoldAccount(b[a.key], a.sample);
    }
  }

  lemma AdmitConsistent(l: Ledger, a: Arrival)
    requires Consistent(l)
    ensures
      var m, b := Admit(l.flows, a.key, ZERO_FLOW, a.h), Admit(l.behind, a.key, [], a.h);
      m.Keys == b.Keys && forall k <- m :: m[k] == Fold(b[k]) && (k != a.key ==> b[k] != [])
  {
  }

  /** Every entry is the fold of its packets, and every arrival was accounted or counted as failed. */
  lemma {:induction false} FlowAggregate(arrivals: seq<Arrival>)
    ensures Consistent(Replay(arrivals))
    ensures Replay(arrivals).accounted + Replay(arrivals).failed == |arrivals|
  {
    if arrivals != [] {
      FlowAggregate(arrivals[..|arrivals| - 1]);
      EnterConsistent(Replay(arrivals[..|arrivals| - 1]), arrivals[|arrivals| - 1]);
    }
  }

  /** What one arrival does to the packets behind an entry that is present afterwards. */
  lemma BehindStep(l: Ledger, a: Arrival, k: FlowKey)
    requires Consistent(l) && k in Enter(l, a).behind
    ensures
      var b := Enter(l, a).behind[k];
      var grown := if a.key == k then [a.sample] else [];
      b == grown || (k in l.behind && b == l.behind[k] + grown)
  {
    assert Admit(l.flows, a.key, ZERO_FLOW, a.h).Keys == Admit(l.behind, a.key, [], a.h).Keys;
  }

  /** The samples of the arrivals with key `k`. */
  function Under(arrivals: seq<Arrival>, k: FlowKey): seq<Sample> {
    if arrivals == [] then []
    else
      var a := arrivals[|arrivals| - 1];
      Under(arrivals[..|arrivals| - 1], k) + if a.key == k then [a.sample] else []
  }

  /** The packets behind an entry are the latest arrivals under its key, all of them since the first. */
  lemma {:induction false} BehindAreArrivals(arrivals: seq<Arrival>, k: FlowKey)
    requires k in Replay(arrivals).behind
    ensures
      var all, b := Under(arrivals, k), Replay(arrivals).behind[k];
      |b| <= |all| && b == all[|all| - |b|..]
  {
    hide Enter, Consistent;
    if arrivals != [] {
      var before, a := arrivals[..|arrivals| - 1], arrivals[|arrivals| - 1];
      FlowAggregate(before);
      BehindStep(Replay(before), a, k);
      if k in Replay(before).behind {
        BehindAreArrivals(before, k);
      }
    }
  }

  // --- The hook keeps this ledger ---------------------------------------------------------------

  function ArrivalOf(c: Sampling.Call, tuple: Tuple): Arrival {
    Arrival(FlowKeyOf(c.skb, c.direction, tuple), Sample(c.h.now, |c.skb.data|), c.h.flow)
  }

  /** The packets of a run of hook calls that reach the flow table. */
  function ArrivalsOf(cfg: Config, calls: seq<Sampling.Call>): (r: seq<Arrival>)
    ensures |r| <= |calls|
  {
    if calls == [] then []
    else
      var c := calls[|calls| - 1];
      var o := Observed(cfg, c.skb, c.h.load);
      ArrivalsOf(cfg, calls[..|calls| - 1]) +
      if CountsFlow(cfg, o)
      then [ArrivalOf(c, o.tuple)] else []
  }

  /** One call moves the table and the failure counter as its arrival, if any, moves the ledger. */
  lemma CallEnters(cfg: Config, s: HookState, l: Ledger, c: Sampling.Call)
    requires s.flows == l.flows && s.counters[FLOW_UPDATE_FAILED] == Wrap64(l.failed)
    ensures
      var t, o := Step(cfg, s, c.skb, c.direction, c.h), Observed(cfg, c.skb, c.h.load);
      var l' := if CountsFlow(cfg, o)
                then Enter(l, ArrivalOf(c, o.tuple)) else l;
      t.flows == l'.flows && t.counters[FLOW_UPDATE_FAILED] == Wrap64(l'.failed)
  {
    hide Observed, FlowsAfter, Admit, FlowKeyOf, Published, CountersAfter, Wrap64, Plus, CountsFlow;
    var i := FLOW_UPDATE_FAILED;
    FailureDelta(cfg, s.counters, s.flows, c.skb, c.direction, c.h);
    PlusWraps(l.failed, Delta(cfg, s.counters, s.flows, c.skb, c.direction, c.h, i));
    assert CountersAfter(cfg, s.counters, s.flows, c.skb, c.direction, c.h)[i] ==
           Plus(s.counters[i], Delta(cfg, s.counters, s.flows, c.skb, c.direction, c.h, i));
  }

  lemma FailureDelta(cfg: Config, c: Counters, flows: map<FlowKey, FlowValue>, skb: Skb, direction: byte, h: Helpers)
    ensures
      var o := Observed(cfg, skb, h.load);
      var key := FlowKeyOf(skb, direction, o.tuple);
      Delta(cfg, c, flows, skb, direction, h, FLOW_UPDATE_FAILED) ==
      Bit(CountsFlow(cfg, o) && key !in Admit(flows, key, ZERO_FLOW, h.flow))
  {
    hide Observed, Admit, Want;
  }

  /**
   * After any run of hook calls the table is the replayed one, so each entry is the fold of its
   * packets, and accounted packets plus FLOW_UPDATE_FAILED are the port-valid packets seen.
   */
  lemma {:induction false} HookKeepsLedger(cfg: Config, calls: seq<Sampling.Call>)
    ensures
      var s, l := Sampling.RunCalls(cfg, calls), Replay(ArrivalsOf(cfg, calls));
      && s.flows == l.flows && Consistent(l)
      && s.counters[FLOW_UPDATE_FAILED] == Wrap64(l.failed)
      && l.accounted + l.failed == |ArrivalsOf(cfg, calls)|
  {
    hide Step, Enter, Consistent, CountsFlow, FlowKeyOf, Observed;
    FlowAggregate(ArrivalsOf(cfg, calls));
    if calls != [] {
      var before, c := calls[..|calls| - 1], calls[|calls| - 1];
      HookKeepsLedger(cfg, before);
      CallEnters(cfg, Sampling.RunCalls(cfg, before), Replay(ArrivalsOf(cfg, before)), c);
      var arrivals, o := ArrivalsOf(cfg, calls), Observed(cfg, c.skb, c.h.load);
      if CountsFlow(cfg, o) {
        assert arrivals[..|arrivals| - 1] == ArrivalsOf(cfg, before);
        assert arrivals[|arrivals| - 1] == ArrivalOf(c, o.tuple);
      } else {
        assert arrivals == ArrivalsOf(cfg, before);
      }
    }
  }
}
