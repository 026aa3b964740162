/**
 * Conservation in terms of what the program itself counts: below 2^64 hook calls, SELECTED over
 * `sample_every`, summed over every object, CPU and direction, is RING_LOST summed likewise and the
 * records that module Pipeline finds in the rings, in the callback, counted as lost, queued or popped.
 */
module PipelineCounters {
  import opened Shared
  import opened Arithmetic
  import opened Observer
  import opened Pipeline

  datatype Tally = Sampled | Lost | Sent

  /** What a counter slot contributes. */
  function Worth(y: Tally, cfg: Config, c: Counters): nat {
    match y
    case Sampled => if cfg.sampleEvery == 0 then 0 else c[SELECTED] / cfg.sampleEvery
    case Lost => c[RING_LOST]
    case Sent => c[EVENTS]
  }

  ghost function SumSlots(y: Tally, cfg: Config, slots: map<Lane, Counters>): nat
    decreases |slots|
  {
    if slots == map[] then 0
    else
      var lane :| lane in slots;
      Worth(y, cfg, slots[lane]) + SumSlots(y, cfg, slots - {lane})
  }

  /** The order of summation does not matter. */
  lemma {:induction false} SumTake(y: Tally, cfg: Config, slots: map<Lane, Counters>, lane: Lane)
    requires lane in slots
    ensures SumSlots(y, cfg, slots) == Worth(y, cfg, slots[lane]) + SumSlots(y, cfg, slots - {lane})
    decreases |slots|
  {
    var first :| first in slots
                 && SumSlots(y, cfg, slots) == Worth(y, cfg, slots[first]) + SumSlots(y, cfg, slots - {first});
    if first != lane {
      SumTake(y, cfg, slots - {first}, lane);
      SumTake(y, cfg, slots - {lane}, first);
      assert slots - {first} - {lane} == slots - {lane} - {first};
    }
  }

  lemma SumPut(y: Tally, cfg: Config, o: Object, lane: Lane, c: Counters)
    ensures SumSlots(y, cfg, o.slots[lane := c]) ==
            SumSlots(y, cfg, o.slots) - Worth(y, cfg, SlotOf(o, lane)) + Worth(y, cfg, c)
  {
    SumTake(y, cfg, o.slots[lane := c], lane);
    assert o.slots[lane := c] - {lane} == o.slots - {lane};
    if lane in o.slots {
      SumTake(y, cfg, o.slots, lane);
    } else {
      assert o.slots - {lane} == o.slots;
      NothingCounted(y, cfg);
    }
  }

  lemma NothingCounted(y: Tally, cfg: Config)
    ensures Worth(y, cfg, ZERO_COUNTERS) == 0
  {
  }

  ghost function Sum(y: Tally, objects: seq<Object>): nat {
    if objects == [] then 0 else SumSlots(y, objects[0].cfg, objects[0].slots) + Sum(y, objects[1..])
  }

  lemma {:induction false} SumUpdate(y: Tally, objects: seq<Object>, i: nat, o: Object)
    requires i < |objects|
    ensures Sum(y, objects[i := o]) ==
            Sum(y, objects) - SumSlots(y, objects[i].cfg, objects[i].slots) + SumSlots(y, o.cfg, o.slots)
  {
    if i == 0 {
      assert objects[i := o][1..] == objects[1..];
    } else {
      assert objects[i := o][1..] == objects[1..][i - 1 := o];
      SumUpdate(y, objects[1..], i - 1, o);
    }
  }

  lemma {:induction false} SumAppend(y: Tally, objects: seq<Object>, o: Object)
    requires o.slots == map[]
    ensures Sum(y, objects + [o]) == Sum(y, objects)
  {
    if objects == [] {
      assert objects + [o] == [o];
    } else {
      assert (objects + [o])[1..] == objects[1..] + [o];
      SumAppend(y, objects[1..], o);
    }
  }

  // --- The invariant ----------------------------------------------------------------------------

  ghost predicate Low(c: Counters, calls: nat) {
    c[SELECTED] <= calls && c[RING_LOST] <= calls && c[EVENTS] <= calls
  }

  ghost predicate AllLow(k: Kernel) {
    forall i, lane :: 0 <= i < |k.objects| ==> Low(SlotOf(k.objects[i], lane), k.calls)
  }

  ghost predicate Counted(k: Kernel) {
    k.calls < TWO_64 ==>
      && AllLow(k)
      && Sum(Sampled, k.objects) == k.sampled && Sum(Lost, k.objects) == k.ringLost
      && Sum(Sent, k.objects) == k.sampled - k.ringLost
  }

  /** One hook call on a slot that does not wrap. */
  lemma SlotMoves(cfg: Config, c: Counters, skb: Skb, direction: byte, h: Helpers, calls: nat)
    requires Low(c, calls) && calls + 1 < TWO_64
    ensures
      var c' := CountersAfter(cfg, c, map[], skb, direction, h);
      var sampled := IsSampled(cfg, c, skb, h);
      && Low(c', calls + 1)
      && Worth(Sampled, cfg, c') == Worth(Sampled, cfg, c) + Bit(sampled)
      && Worth(Lost, cfg, c') == Worth(Lost, cfg, c) + Bit(sampled && !h.reserve)
      && Worth(Sent, cfg, c') == Worth(Sent, cfg, c) + Bit(sampled && h.reserve)
  {
    hide Observed, Selects, AccountDelta;
    var c' := CountersAfter(cfg, c, map[], skb, direction, h);
    assert forall i :: i in {SELECTED, RING_LOST, EVENTS} ==> AccountDelta(cfg, map[], skb, direction, h, i) == 0 by {
      NotAccounted(cfg, skb, direction, h);
    }
    assert c'[SELECTED] == Plus(c[SELECTED], Delta(cfg, c, map[], skb, direction, h, SELECTED));
    assert c'[RING_LOST] == Plus(c[RING_LOST], Delta(cfg, c, map[], skb, direction, h, RING_LOST));
    assert c'[EVENTS] == Plus(c[EVENTS], Delta(cfg, c, map[], skb, direction, h, EVENTS));
    if cfg.sampleEvery > 0 {
      FloorStep(c[SELECTED], cfg.sampleEvery);
    }
  }

  lemma NotAccounted(cfg: Config, skb: Skb, direction: byte, h: Helpers)
    ensures forall i :: i in {SELECTED, RING_LOST, EVENTS} ==> AccountDelta(cfg, map[], skb, direction, h, i) == 0
  {
  }

  lemma HookKeepsCounted(k: Kernel, a: Action, k': Kernel)
    requires Counted(k) && a.Hook? && HookNext(k, a, k')
    ensures Counted(k')
  {
    hide IsSampled, CountersAfter, Published, Worth, Low;
    if k'.calls < TWO_64 {
      var o, lane := k.objects[a.index], Lane(a.h.cpu, a.direction);
      var c, o' := SlotOf(o, lane), k'.objects[a.index];
      var c' := CountersAfter(o.cfg, c, map[], a.skb, a.direction, a.h);
      assert Low(c, k.calls);
      SlotMoves(o.cfg, c, a.skb, a.direction, a.h, k.calls);
      SumPut(Sampled, o.cfg, o, lane, c');
      SumPut(Lost, o.cfg, o, lane, c');
      SumPut(Sent, o.cfg, o, lane, c');
      SumUpdate(Sampled, k.objects, a.index, o');
      SumUpdate(Lost, k.objects, a.index, o');
      SumUpdate(Sent, k.objects, a.index, o');
      HookKeepsLows(k, a, k');
    }
  }

  lemma HookKeepsLows(k: Kernel, a: Action, k': Kernel)
    requires AllLow(k) && a.Hook? && HookNext(k, a, k') && k'.calls < TWO_64
    ensures AllLow(k')
  {
    hide IsSampled, CountersAfter, Published, Low, SlotOf, Worth;
    var o, lane := k.objects[a.index], Lane(a.h.cpu, a.direction);
    var c' := CountersAfter(o.cfg, SlotOf(o, lane), map[], a.skb, a.direction, a.h);
    SlotMoves(o.cfg, SlotOf(o, lane), a.skb, a.direction, a.h, k.calls);
    forall i, l | 0 <= i < |k'.objects|
      ensures Low(SlotOf(k'.objects[i], l), k'.calls)
    {
      LowStays(SlotOf(k.objects[i], l), k.calls);
      if i == a.index {
        SlotPut(o, k'.objects[i].ring, lane, c', l);
      }
    }
  }

  lemma SlotPut(o: Object, ring: seq<Item>, lane: Lane, c: Counters, l: Lane)
    ensures SlotOf(Object(o.cfg, ring, o.slots[lane := c]), l) == if l == lane then c else SlotOf(o, l)
  {
  }

  lemma LowStays(c: Counters, calls: nat)
    requires Low(c, calls)
    ensures Low(c, calls + 1)
  {
  }

  /** Taking a record from a ring leaves every slot as it is. */
  lemma TakeKeepsCounted(s: State, index: nat, item: Item, k': Kernel)
    requires Counted(s.kernel) && TakeNext(s, index, item, k')
    ensures Counted(k')
  {
    hide Low;
    var objects, o' := s.kernel.objects, k'.objects[index];
    SumUpdate(Sampled, objects, index, o');
    SumUpdate(Lost, objects, index, o');
    SumUpdate(Sent, objects, index, o');
    forall i, l | 0 <= i < |k'.objects|
      ensures SlotOf(k'.objects[i], l) == SlotOf(objects[i], l)
    {
    }
  }

  lemma LoadKeepsCounted(k: Kernel, cfg: Config)
    requires Counted(k)
    ensures Counted(k.(objects := k.objects + [Object(cfg, [], map[])]))
  {
    var o := Object(cfg, [], map[]);
    SumAppend(Sampled, k.objects, o);
    SumAppend(Lost, k.objects, o);
    SumAppend(Sent, k.objects, o);
  }

  lemma NextKeepsCounted(s: State, a: Action, t: State)
    requires Counted(s.kernel) && Next(s, a, t)
    ensures Counted(t.kernel)
  {
    hide HookNext, PushNext, Counted;
    match a
    case Load(cfg) => LoadKeepsCounted(s.kernel, cfg);
    case Hook(_, _, _, _) => HookKeepsCounted(s.kernel, a, t.kernel);
    case PollerStep(m) =>
      if m.PollTake? {
        TakeKeepsCounted(s, m.index, t.life.poller.item, t.kernel);
      }
    case FinisherStep(m) =>
      if m.Take? {
        TakeKeepsCounted(s, m.index, t.life.finisher.item, t.kernel);
      }
    case _ =>
  }

  lemma {:induction false} RunKeepsCounted(run: seq<State>, actions: seq<Action>, k: nat)
    requires IsRun(run, actions) && k < |run|
    ensures Counted(run[k].kernel)
  {
    hide Next, Counted;
    if k == 0 {
      NothingYet(run[0]);
    } else {
      RunKeepsCounted(run, actions, k - 1);
      NextKeepsCounted(run[k - 1], actions[k - 1], run[k]);
    }
  }

  lemma NothingYet(s: State)
    requires Init(s)
    ensures Counted(s.kernel)
  {
  }

  /**
   * Conservation of what the hooks count: in every state of every run with fewer than 2^64 calls,
   * EVENTS is what left for user space, and sampled packets are lost in the ring, on their way,
   * lost in user space or delivered.
   */
  lemma CountersConserved(run: seq<State>, actions: seq<Action>, k: nat)
    requires IsRun(run, actions) && k < |run| && run[k].kernel.calls < TWO_64
    ensures
      var s := run[k];
      var objects, q := s.kernel.objects, s.queue;
      && Sum(Sampled, objects) == Sum(Lost, objects) + Sum(Sent, objects)
      && Sum(Sent, objects) ==
         InRings(objects) + |InHand(s.life)| + q.decodeErrors + q.dropped + s.life.discarded + |q.waiting| + |q.popped|
  {
    hide Next;
    RunKeepsCounted(run, actions, k);
    PipelineConservation(run, actions, k);
  }
}
