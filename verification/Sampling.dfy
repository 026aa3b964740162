/**
 * The sampling law of the observer hook (bpf/elephantshrew_tc.bpf.c, lines 69 to 130).
 *
 * First for calls that run one after the other, where the published sequence numbers are exactly
 * the multiples of `sample_every` that were not lost; then for any number of calls whose atomic
 * counter updates interleave on one slot.
 */
module Sampling {
  import opened Shared
  import opened Observer
  import opened Counting
  import opened Arithmetic

  // --- One call after the other -----------------------------------------------------------------

  datatype Call = Call(skb: Skb, direction: byte, h: Helpers)

  const EMPTY := HookState([0, 0, 0, 0, 0, 0, 0, 0, 0, 0, 0, 0, 0], map[], [])

  function RunCalls(cfg: Config, calls: seq<Call>): HookState {
    if calls == [] then EMPTY
    else
      var c := calls[|calls| - 1];
      Step(cfg, RunCalls(cfg, calls[..|calls| - 1]), c.skb, c.direction, c.h)
  }

  function Sequences(ring: seq<Event>): seq<nat> {
    seq(|ring|, i requires 0 <= i < |ring| => ring[i].sequence)
  }

  /** The multiples of `n` up to the number of calls whose reservation did not fail. */
  function Multiples(n: nat, calls: seq<Call>): seq<nat> {
    if calls == [] then []
    else
      Multiples(n, calls[..|calls| - 1]) +
      if n != 0 && |calls| % n == 0 && calls[|calls| - 1].h.reserve then [|calls|] else []
  }

  lemma OneCall(cfg: Config, s: HookState, c: Call, k: nat)
    requires cfg.selectL4Proto == 0 && k + 1 < TWO_64
    requires s.counters[PACKETS] == s.counters[SELECTED] == k && s.counters[EVENTS] == |s.ring| <= k
    ensures
      var t := Step(cfg, s, c.skb, c.direction, c.h);
      var hit := cfg.sampleEvery != 0 && (k + 1) % cfg.sampleEvery == 0 && c.h.reserve;
      && t.counters[PACKETS] == t.counters[SELECTED] == k + 1 && t.counters[EVENTS] == |t.ring| <= k + 1
      && Sequences(t.ring) == Sequences(s.ring) + if hit then [k + 1] else []
  {
    var p := Published(cfg, s.counters, c.skb, c.direction, c.h);
    assert Sequences(s.ring + p) == Sequences(s.ring) + Sequences(p);
  }

  /** Without protocol selection, events carry exactly the multiples of `sample_every` not lost. */
  lemma {:induction false} SequentialSequences(cfg: Config, calls: seq<Call>)
    requires cfg.selectL4Proto == 0 && |calls| < TWO_64
    ensures
      var s := RunCalls(cfg, calls);
      && s.counters[PACKETS] == s.counters[SELECTED] == |calls|
      && Sequences(s.ring) == Multiples(cfg.sampleEvery, calls)
      && s.counters[EVENTS] == |s.ring| <= |calls|
  {
    if calls != [] {
      var before, c := calls[..|calls| - 1], calls[|calls| - 1];
      SequentialSequences(cfg, before);
      OneCall(cfg, RunCalls(cfg, before), c, |before|);
    }
  }

  // --- Calls that interleave on one slot --------------------------------------------------------

  /** Where a call is: between which of its atomic operations. */
  datatype Point =
    | Entered          // nothing counted yet
    | Counted          // PACKETS counted, protocol selection next
    | Chosen           // SELECTED counted and sampled, reservation next
    | Refused          // no room in the ring, RING_LOST next
    | Reserved         // event being filled
    | CopyFailed       // the snapshot failed, SNAPSHOT_FAILED next
    | Filled           // submission next
    | Submitted        // in the ring, EVENTS next
    | Done

  /** A call in flight or finished, with the sequence number it drew and what it has counted so far. */
  datatype Thread = Thread(
    at: Point, sequence: word64, selected: bool, sampled: bool, snapshot: bool, event: bool, lost: bool)

  datatype Slot = Slot(packets: word64, selected: word64, events: word64, ringLost: word64, snapshotFailed: word64)

  datatype State = State(slot: Slot, threads: seq<Thread>, ring: seq<word64>)

  datatype Action =
    | Enter
    | CountPacket(i: nat)
    | Decline(i: nat)                // protocol selection turns the packet away
    | CountSelected(i: nat)
    | Reserve(i: nat, room: bool)
    | CountLost(i: nat)
    | Fill(i: nat, ok: bool)
    | CountSnapshot(i: nat)
    | Submit(i: nat)
    | CountEvent(i: nat)

  const INIT := State(Slot(0, 0, 0, 0, 0), [], [])

  /** `s` takes action `a` to `t`, for hooks configured with `sample_every == n`. */
  ghost predicate Next(n: word32, s: State, a: Action, t: State) {
    if a.Enter? then
      t == s.(threads := s.threads + [Thread(Entered, 0, false, false, false, false, false)])
    else
      && a.i < |s.threads|
      && var th := s.threads[a.i];
      match a
      case CountPacket(i) =>
        var v := Plus(s.slot.packets, 1);
        th.at == Entered && t == Move(s.(slot := s.slot.(packets := v)), i, th.(at := Counted, sequence := v))
      case Decline(i) => th.at == Counted && t == Move(s, i, th.(at := Done))
      case CountSelected(i) =>
        var v := Plus(s.slot.selected, 1);
        && th.at == Counted
        && t == Move(s.(slot := s.slot.(selected := v)), i,
                     if Samples(n, v) then th.(at := Chosen, selected := true, sampled := true)
                     else th.(at := Done, selected := true))
      case Reserve(i, room) => th.at == Chosen && t == Move(s, i, th.(at := if room then Reserved else Refused))
      case CountLost(i) =>
        && th.at == Refused
        && t == Move(s.(slot := s.slot.(ringLost := Plus(s.slot.ringLost, 1))), i, th.(at := Done, lost := true))
      case Fill(i, ok) => th.at == Reserved && t == Move(s, i, th.(at := if ok then Filled else CopyFailed))
      case CountSnapshot(i) =>
        && th.at == CopyFailed
        && t == Move(s.(slot := s.slot.(snapshotFailed := Plus(s.slot.snapshotFailed, 1))), i,
                     th.(at := Filled, snapshot := true))
      case Submit(i) => th.at == Filled && t == Move(s.(ring := s.ring + [th.sequence]), i, th.(at := Submitted))
      case CountEvent(i) =>
        && th.at == Submitted
        && t == Move(s.(slot := s.slot.(events := Plus(s.slot.events, 1))), i, th.(at := Done, event := true))
  }

  function Move(s: State, i: nat, th: Thread): State
    requires i < |s.threads|
  {
    s.(threads := s.threads[i := th])
  }

  ghost predicate IsRun(n: word32, run: seq<State>, actions: seq<Action>) {
    && |run| == |actions| + 1 && run[0] == INIT
    && forall k :: 0 <= k < |actions| ==> Next(n, run[k], actions[k], run[k + 1])
  }

  predicate HasSelected(th: Thread) { th.selected }
  predicate HasSampled(th: Thread) { th.sampled }
  predicate HasEvent(th: Thread) { th.event }
  predicate HasLost(th: Thread) { th.lost }
  predicate HasSnapshot(th: Thread) { th.snapshot }
  predicate HasCounted(th: Thread) { th.at != Entered }
  /** Sampled, and neither EVENTS nor RING_LOST counted yet. */
  predicate InFlight(th: Thread) { th.at in {Chosen, Refused, Reserved, CopyFailed, Filled, Submitted} }

  ghost predicate ThreadOk(th: Thread) {
    && (th.sampled ==> th.selected)
    && (InFlight(th) ==> th.sampled && !th.event && !th.lost)
    && (th.at == Done && th.sampled ==> th.event != th.lost)
    && (th.event || th.lost ==> th.sampled && th.at == Done && th.event != th.lost)
    && (th.snapshot ==> th.event || th.at == Filled || th.at == Submitted)
    && (th.selected && !th.sampled ==> th.at == Done)
    && (th.at == Entered || th.at == Counted ==> !th.selected)
  }

  ghost predicate Inv(n: word32, s: State) {
    && (forall th <- s.threads :: ThreadOk(th))
    && s.slot.packets == Wrap64(Count(s.threads, HasCounted))
    && s.slot.selected == Wrap64(Count(s.threads, HasSelected))
    && s.slot.events == Wrap64(Count(s.threads, HasEvent))
    && s.slot.ringLost == Wrap64(Count(s.threads, HasLost))
    && s.slot.snapshotFailed == Wrap64(Count(s.threads, HasSnapshot))
    && (|s.threads| < TWO_64 ==>
          Count(s.threads, HasSampled) == if n == 0 then 0 else Count(s.threads, HasSelected) / n)
  }

  /** One thread's move, as seen from that thread and the slot alone. */
  ghost predicate Local(n: word32, s: Slot, u: Thread, t: Slot, v: Thread) {
    && ThreadOk(v)
    && Grew(s.packets, HasCounted(u), t.packets, HasCounted(v))
    && Grew(s.selected, u.selected, t.selected, v.selected)
    && Grew(s.events, u.event, t.events, v.event)
    && Grew(s.ringLost, u.lost, t.ringLost, v.lost)
    && Grew(s.snapshotFailed, u.snapshot, t.snapshotFailed, v.snapshot)
    && (u.selected == v.selected ==> u.sampled == v.sampled)
    && (!u.selected && v.selected ==> !u.sampled && v.sampled == Samples(n, t.selected))
  }

  /** The counter moves by one when the thread has newly counted, and stays otherwise. */
  ghost predicate Grew(c: word64, had: bool, c': word64, has: bool) {
    (had ==> has) && c' == Plus(c, if has && !had then 1 else 0)
  }

  lemma LocalStep(n: word32, s: State, a: Action, t: State)
    requires !a.Enter? && Next(n, s, a, t) && ThreadOk(s.threads[a.i])
    ensures a.i < |t.threads| == |s.threads| && t.threads == s.threads[a.i := t.threads[a.i]]
    ensures Local(n, s.slot, s.threads[a.i], t.slot, t.threads[a.i])
  {
  }

  lemma CounterStep(threads: seq<Thread>, i: nat, v: Thread, p: Thread -> bool, c: word64, c': word64)
    requires i < |threads| && c == Wrap64(Count(threads, p)) && Grew(c, p(threads[i]), c', p(v))
    ensures c' == Wrap64(Count(threads[i := v], p))
  {
    CountUpdate(threads, i, v, p);
  }

  lemma LocalKeepsFloor(n: word32, s: Slot, threads: seq<Thread>, i: nat, t: Slot, v: Thread)
    requires i < |threads| < TWO_64 && Local(n, s, threads[i], t, v)
    requires s.selected == Wrap64(Count(threads, HasSelected))
    requires Count(threads, HasSampled) == if n == 0 then 0 else Count(threads, HasSelected) / n
    ensures Count(threads[i := v], HasSampled) == if n == 0 then 0 else Count(threads[i := v], HasSelected) / n
  {
    var k := Count(threads, HasSelected);
    CountUpdate(threads, i, v, HasSelected);
    CountUpdate(threads, i, v, HasSampled);
    if !threads[i].selected && v.selected {
      NoWrap(k, s.selected);
      if n > 0 {
        FloorStep(k, n);
      }
    }
  }

  lemma NoWrap(k: nat, c: word64)
    requires c == Wrap64(k) && k + 1 < TWO_64
    ensures c == k && Plus(c, 1) == k + 1
  {
  }

  lemma LocalKeepsInv(n: word32, s: State, i: nat, t: State, v: Thread)
    requires Inv(n, s) && i < |s.threads| && Local(n, s.slot, s.threads[i], t.slot, v)
    requires t.threads == s.threads[i := v]
    ensures Inv(n, t)
  {
    CounterStep(s.threads, i, v, HasCounted, s.slot.packets, t.slot.packets);
    CounterStep(s.threads, i, v, HasSelected, s.slot.selected, t.slot.selected);
    CounterStep(s.threads, i, v, HasEvent, s.slot.events, t.slot.events);
    CounterStep(s.threads, i, v, HasLost, s.slot.ringLost, t.slot.ringLost);
    CounterStep(s.threads, i, v, HasSnapshot, s.slot.snapshotFailed, t.slot.snapshotFailed);
    if |t.threads| < TWO_64 {
      LocalKeepsFloor(n, s.slot, s.threads, i, t.slot, v);
    }
  }

  lemma EnterKeepsInv(n: word32, s: State, t: State)
    requires Inv(n, s) && Next(n, s, Enter, t)
    ensures Inv(n, t)
  {
    var th := t.threads[|s.threads|];
    CountAppend(s.threads, th, HasCounted);
    CountAppend(s.threads, th, HasSelected);
    CountAppend(s.threads, th, HasSampled);
    CountAppend(s.threads, th, HasEvent);
    CountAppend(s.threads, th, HasLost);
    CountAppend(s.threads, th, HasSnapshot);
  }

  lemma NextKeepsInv(n: word32, s: State, a: Action, t: State)
    requires Inv(n, s) && Next(n, s, a, t)
    ensures Inv(n, t)
  {
    if a.Enter? {
      EnterKeepsInv(n, s, t);
    } else {
      assert s.threads[a.i] in s.threads;
      LocalStep(n, s, a, t);
      LocalKeepsInv(n, s, a.i, t, t.threads[a.i]);
    }
  }

  lemma {:induction false} RunKeepsInv(n: word32, run: seq<State>, actions: seq<Action>)
    requires IsRun(n, run, actions)
    ensures Inv(n, run[|actions|])
  {
    if actions != [] {
      var k := |actions| - 1;
      RunKeepsInv(n, run[..k + 1], actions[..k]);
      NextKeepsInv(n, run[k], actions[k], run[k + 1]);
    }
  }

  /**
   * In every state of every run with fewer than 2^64 calls: published plus lost plus in flight is
   * the floor of SELECTED over `sample_every`, and no snapshot failure is counted without an event.
   */
  lemma SamplingLaw(n: word32, run: seq<State>, actions: seq<Action>)
    requires IsRun(n, run, actions) && |run[|actions|].threads| < TWO_64
    ensures
      var s := run[|actions|];
      var inFlight := Count(s.threads, InFlight);
      && s.slot.events + s.slot.ringLost + inFlight == (if n == 0 then 0 else s.slot.selected / n)
      && s.slot.snapshotFailed <= s.slot.events + inFlight
      && s.slot.selected <= s.slot.packets <= |s.threads|
  {
    RunKeepsInv(n, run, actions);
    var threads := run[|actions|].threads;
    FinalCounts(threads);
    assert Count(threads, HasCounted) < TWO_64 && Count(threads, HasSelected) < TWO_64;
    assert Count(threads, HasEvent) < TWO_64 && Count(threads, HasLost) < TWO_64;
    assert Count(threads, HasSnapshot) < TWO_64;
  }

  /** A sampled call has its event, has lost it, or is in flight. */
  lemma FinalCounts(threads: seq<Thread>)
    requires forall th <- threads :: ThreadOk(th)
    ensures Count(threads, HasSampled) ==
            Count(threads, HasEvent) + Count(threads, HasLost) + Count(threads, InFlight)
    ensures Count(threads, HasSnapshot) <= Count(threads, HasEvent) + Count(threads, InFlight)
    ensures Count(threads, HasSelected) <= Count(threads, HasCounted)
  {
    CountSplit(threads, HasSampled, HasEvent, HasLost, InFlight);
    CountCovered(threads, HasSnapshot, HasEvent, InFlight);
    CountMonotone(threads, HasSelected, HasCounted);
  }

  // --- A call run to completion is a call of the hook -------------------------------------------

  /** The counters of the hook that the steps above move. */
  function SlotOf(c: Counters): Slot {
    Slot(c[PACKETS], c[SELECTED], c[EVENTS], c[RING_LOST], c[SNAPSHOT_FAILED])
  }

  /** What thread `i` does alone, when SELECTED is `selected` before it. */
  function Script(cfg: Config, selected: word64, i: nat, skb: Skb, h: Helpers): seq<Action> {
    [Enter] + ([CountPacket(i)] +
    if !Selects(cfg, Observed(cfg, skb, h.load)) then [Decline(i)] else SelectedScript(cfg, selected, i, skb, h))
  }

  function SelectedScript(cfg: Config, selected: word64, i: nat, skb: Skb, h: Helpers): seq<Action> {
    [CountSelected(i)] +
    if !Samples(cfg.sampleEvery, Plus(selected, 1)) then []
    else if h.reserve then [Reserve(i, true)] + FilledScript(i, CopyFails(cfg, skb, h))
    else [Reserve(i, false)] + [CountLost(i)]
  }

  function FilledScript(i: nat, failed: bool): seq<Action> {
    if failed then [Fill(i, false)] + ([CountSnapshot(i)] + SubmitScript(i)) else [Fill(i, true)] + SubmitScript(i)
  }

  function SubmitScript(i: nat): seq<Action> {
    [Submit(i)] + [CountEvent(i)]
  }

  predicate CopyFails(cfg: Config, skb: Skb, h: Helpers) {
    !h.copy && Want(cfg, skb) > 0
  }

  /** `actions`, one after the other, take `s` to `t`. */
  ghost predicate Leads(n: word32, s: State, actions: seq<Action>, t: State)
    decreases |actions|
  {
    if actions == [] then s == t
    else exists m :: Next(n, s, actions[0], m) && Leads(n, m, actions[1..], t)
  }

  lemma LeadsOn(n: word32, s: State, a: Action, m: State, rest: seq<Action>, t: State)
    requires Next(n, s, a, m) && Leads(n, m, rest, t)
    ensures Leads(n, s, [a] + rest, t)
  {
    assert ([a] + rest)[1..] == rest;
  }

  lemma LeadsLast(n: word32, s: State, a: Action, t: State)
    requires Next(n, s, a, t)
    ensures Leads(n, s, [a], t)
  {
    LeadsOn(n, s, a, t, [], t);
    assert [a] + [] == [a];
  }

  lemma SubmittedAlone(n: word32, s: State, i: nat) returns (t: State)
    requires i < |s.threads| && s.threads[i].at == Filled
    ensures Leads(n, s, SubmitScript(i), t)
    ensures t.slot == s.slot.(events := Plus(s.slot.events, 1)) && t.ring == s.ring + [s.threads[i].sequence]
  {
    var th := s.threads[i];
    var s1 := Move(s.(ring := s.ring + [th.sequence]), i, th.(at := Submitted));
    t := Move(s1.(slot := s.slot.(events := Plus(s.slot.events, 1))), i, th.(at := Done, event := true));
    LeadsLast(n, s1, CountEvent(i), t);
    LeadsOn(n, s, Submit(i), s1, [CountEvent(i)], t);
  }

  lemma FilledAlone(n: word32, s: State, i: nat, failed: bool) returns (t: State)
    requires i < |s.threads| && s.threads[i].at == Reserved
    ensures Leads(n, s, FilledScript(i, failed), t)
    ensures t.slot == s.slot.(events := Plus(s.slot.events, 1),
                              snapshotFailed := Plus(s.slot.snapshotFailed, Bit(failed)))
    ensures t.ring == s.ring + [s.threads[i].sequence]
  {
    var th := s.threads[i];
    PlusPlus(s.slot.snapshotFailed, 0, 0);
    if failed {
      var s1 := Move(s, i, th.(at := CopyFailed));
      var s2 := Move(s1.(slot := s.slot.(snapshotFailed := Plus(s.slot.snapshotFailed, 1))), i,
                     th.(at := Filled, snapshot := true));
      t := SubmittedAlone(n, s2, i);
      LeadsOn(n, s1, CountSnapshot(i), s2, SubmitScript(i), t);
      LeadsOn(n, s, Fill(i, false), s1, [CountSnapshot(i)] + SubmitScript(i), t);
    } else {
      var s1 := Move(s, i, th.(at := Filled));
      t := SubmittedAlone(n, s1, i);
      LeadsOn(n, s, Fill(i, true), s1, SubmitScript(i), t);
    }
  }

  /** What a selected call adds. */
  ghost predicate AddsSelected(cfg: Config, s: Slot, skb: Skb, h: Helpers, t: Slot) {
    var v := Plus(s.selected, 1);
    var sampled := Samples(cfg.sampleEvery, v);
    t == s.(selected := v,
            events := Plus(s.events, Bit(sampled && h.reserve)),
            ringLost := Plus(s.ringLost, Bit(sampled && !h.reserve)),
            snapshotFailed := Plus(s.snapshotFailed, Bit(sampled && h.reserve && CopyFails(cfg, skb, h))))
  }

  lemma SelectedAlone(cfg: Config, s: State, i: nat, skb: Skb, h: Helpers) returns (t: State)
    requires i < |s.threads| && s.threads[i].at == Counted
    ensures Leads(cfg.sampleEvery, s, SelectedScript(cfg, s.slot.selected, i, skb, h), t)
    ensures AddsSelected(cfg, s.slot, skb, h, t.slot)
    ensures t.ring == s.ring + if Samples(cfg.sampleEvery, Plus(s.slot.selected, 1)) && h.reserve
                               then [s.threads[i].sequence] else []
  {
    hide CopyFails, FilledScript, Samples, Leads;
    var n, v, th := cfg.sampleEvery, Plus(s.slot.selected, 1), s.threads[i];
    PlusPlus(s.slot.events, 0, 0);
    PlusPlus(s.slot.ringLost, 0, 0);
    PlusPlus(s.slot.snapshotFailed, 0, 0);
    var s0 := s.(slot := s.slot.(selected := v));
    if !Samples(n, v) {
      t := Move(s0, i, th.(at := Done, selected := true));
      LeadsLast(n, s, CountSelected(i), t);
      assert [CountSelected(i)] + [] == [CountSelected(i)];
    } else {
      var s1 := Move(s0, i, th.(at := Chosen, selected := true, sampled := true));
      if h.reserve {
        var s2 := Move(s1, i, s1.threads[i].(at := Reserved));
        t := FilledAlone(n, s2, i, CopyFails(cfg, skb, h));
        LeadsOn(n, s1, Reserve(i, true), s2, FilledScript(i, CopyFails(cfg, skb, h)), t);
        LeadsOn(n, s, CountSelected(i), s1, [Reserve(i, true)] + FilledScript(i, CopyFails(cfg, skb, h)), t);
      } else {
        var s2 := Move(s1, i, s1.threads[i].(at := Refused));
        t := Move(s2.(slot := s0.slot.(ringLost := Plus(s.slot.ringLost, 1))), i,
                  s2.threads[i].(at := Done, lost := true));
        LeadsLast(n, s2, CountLost(i), t);
        LeadsOn(n, s1, Reserve(i, false), s2, [CountLost(i)], t);
        LeadsOn(n, s, CountSelected(i), s1, [Reserve(i, false)] + [CountLost(i)], t);
      }
    }
  }

  /** The hook's step, on those counters and on the ring. */
  lemma StepOfSlot(cfg: Config, hook: HookState, skb: Skb, direction: byte, h: Helpers)
    ensures
      var after := Step(cfg, hook, skb, direction, h);
      var counted := SlotOf(hook.counters).(packets := Plus(hook.counters[PACKETS], 1));
      var sampled := Samples(cfg.sampleEvery, Plus(hook.counters[SELECTED], 1));
      if !Selects(cfg, Observed(cfg, skb, h.load)) then
        SlotOf(after.counters) == counted && after.ring == hook.ring
      else
        && AddsSelected(cfg, counted, skb, h, SlotOf(after.counters))
        && Sequences(after.ring) ==
           Sequences(hook.ring) + if sampled && h.reserve then [Plus(hook.counters[PACKETS], 1)] else []
  {
    hide Observed, Want, Samples, Selects, Plus;
    var c := hook.counters;
    var p := Published(cfg, c, skb, direction, h);
    assert Sequences(hook.ring + p) == Sequences(hook.ring) + Sequences(p);
    PlusPlus(c[SELECTED], 0, 0);
    PlusPlus(c[EVENTS], 0, 0);
    PlusPlus(c[RING_LOST], 0, 0);
    PlusPlus(c[SNAPSHOT_FAILED], 0, 0);
  }

  /**
   * From any state, with any other calls in flight, one more call run to completion moves the slot
   * and the ring as the hook's own step does.
   */
  lemma CallAlone(cfg: Config, s: State, hook: HookState, skb: Skb, direction: byte, h: Helpers) returns (t: State)
    requires s.slot == SlotOf(hook.counters) && s.ring == Sequences(hook.ring)
    ensures Leads(cfg.sampleEvery, s, Script(cfg, hook.counters[SELECTED], |s.threads|, skb, h), t)
    ensures
      var after := Step(cfg, hook, skb, direction, h);
      t.slot == SlotOf(after.counters) && t.ring == Sequences(after.ring)
  {
    hide Observed, Selects, Step, SelectedScript, Leads, Sequences;
    var n, i, v := cfg.sampleEvery, |s.threads|, Plus(s.slot.packets, 1);
    var th := Thread(Entered, 0, false, false, false, false, false);
    var s1 := s.(threads := s.threads + [th]);
    var s2 := Move(s1.(slot := s.slot.(packets := v)), i, th.(at := Counted, sequence := v));
    StepOfSlot(cfg, hook, skb, direction, h);
    var rest;
    if !Selects(cfg, Observed(cfg, skb, h.load)) {
      t, rest := Move(s2, i, s2.threads[i].(at := Done)), [Decline(i)];
      LeadsLast(n, s2, Decline(i), t);
    } else {
      t := SelectedAlone(cfg, s2, i, skb, h);
      rest := SelectedScript(cfg, s.slot.selected, i, skb, h);
    }
    LeadsOn(n, s1, CountPacket(i), s2, rest, t);
    LeadsOn(n, s, Enter, s1, [CountPacket(i)] + rest, t);
  }
}
