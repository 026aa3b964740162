/**
 * The whole telemetry pipeline with its threads interleaving: kernel hooks on every CPU, one ring
 * per loaded object, the poller thread, the thread that starts and finishes the telemetry, and the
 * consumer of the queue (bpf/elephantshrew_tc.bpf.c and src/EbpfTelemetry.cpp).
 *
 * A hook call runs to completion on its CPU and is one step.  The ring callback is two steps: its
 * look at the abort flag and the deadline, and its decoding and push.  A push sees some number of
 * pops, not older than the last one seen; module QueueSimulation proves that of the ring's steps.
 */
module Pipeline {
  import opened Shared
  import opened Events
  import opened Observer
  import opened Callback

  // --- State ------------------------------------------------------------------------------------

  /** A record on its way, with the object whose ring it was committed to. */
  datatype Item = Item(index: nat, record: Record)

  /** A hook object: its configuration, its ring in commit order, its counters per CPU and direction. */
  datatype Object = Object(cfg: Config, ring: seq<Item>, slots: map<Lane, Counters>)

  datatype Lane = Lane(cpu: word32, direction: byte)

  datatype Kernel = Kernel(objects: seq<Object>, calls: nat, sampled: nat, ringLost: nat)

  datatype Poller =
    | Absent
    | Checking              // about to test the abort flag
    | Polling               // inside ring_buffer__poll
    | Holding(item: Item)   // callback entered
    | Passed(item: Item)    // callback past its cancellation test
    | Returned              // the callback answered -ECANCELED and so did the poll
    | Ended

  datatype Finisher =
    | Idle
    | Joining(ms: int)      // abort stored, waiting for the poller to end
    | Arming                // deadline stored, abort about to be cleared
    | Looping               // about to test the deadline
    | Consuming(n: nat)     // inside ring_buffer__consume after n records
    | Handling(item: Item, n: nat)
    | Through(item: Item, n: nat)
    | Sealing               // about to store abort and finished

  datatype Life = Life(
    sources: map<nat, Source>, abort: bool, deadline: nat, started: bool, finished: bool, pollError: int,
    now: nat, poller: Poller, finisher: Finisher, discarded: nat)

  datatype Queue = Queue(capacity: nat, waiting: seq<Item>, popped: seq<Item>, seenPops: nat,
                         decodeErrors: nat, dropped: nat)

  datatype State = State(kernel: Kernel, life: Life, queue: Queue)

  ghost predicate Init(s: State) {
    && s.kernel == Kernel([], 0, 0, 0)
    && s.life == Life(map[], false, 0, false, false, 0, s.life.now, Absent, Idle, 0)
    && s.queue.capacity > 0 && s.queue == Queue(s.queue.capacity, [], [], 0, 0, 0)
  }

  // --- Steps ------------------------------------------------------------------------------------

  datatype Action =
    | Load(cfg: Config)
    | Hook(index: nat, skb: Skb, direction: byte, h: Helpers)
    | AddSource(index: nat, source: Source, registered: bool)
    | Start
    | Finish(ms: int)
    | Tick(ns: nat)
    | PollerStep(pollerMove: PollerMove)
    | FinisherStep(finisherMove: FinisherMove)
    | Pop

  datatype PollerMove =
    | TestAbort
    | PollTake(index: nat)
    | PollReturn
    | PollFail(rc: int)
    | PollTest
    | PollPush(pops: nat)
    | PollCancelled

  datatype FinisherMove =
    | Join
    | ClearAbort
    | TestDeadline
    | Take(index: nat)
    | ConsumeReturn
    | ConsumeFail(rc: int)
    | Test
    | Push(pops: nat)
    | Seal

  const ZERO_COUNTERS: Counters := [0, 0, 0, 0, 0, 0, 0, 0, 0, 0, 0, 0, 0]

  function SlotOf(o: Object, lane: Lane): Counters {
    if lane in o.slots then o.slots[lane] else ZERO_COUNTERS
  }

  predicate IsSampled(cfg: Config, c: Counters, skb: Skb, h: Helpers) {
    Selects(cfg, Observed(cfg, skb, h.load)) && Samples(cfg.sampleEvery, Plus(c[SELECTED], 1))
  }

  function Tagged(index: nat, events: seq<Event>): seq<Item> {
    seq(|events|, i requires 0 <= i < |events| => Item(index, Record(events[i], 0, 0)))
  }

  ghost predicate HookNext(k: Kernel, a: Action, k': Kernel)
    requires a.Hook?
  {
    && a.index < |k.objects| && a.direction < DIRECTIONS
    && var o, lane := k.objects[a.index], Lane(a.h.cpu, a.direction);
    var c := SlotOf(o, lane);
    var sampled := IsSampled(o.cfg, c, a.skb, a.h);
    k' == Kernel(
      k.objects[a.index := Object(
        o.cfg, o.ring + Tagged(a.index, Published(o.cfg, c, a.skb, a.direction, a.h)),
        o.slots[lane := CountersAfter(o.cfg, c, map[], a.skb, a.direction, a.h)])],
      k.calls + 1, k.sampled + Bit(sampled), k.ringLost + Bit(sampled && !a.h.reserve))
  }

  /** The oldest record of a registered object leaves its ring. */
  ghost predicate TakeNext(s: State, index: nat, item: Item, k': Kernel) {
    && index in s.life.sources && index < |s.kernel.objects|
    && var o := s.kernel.objects[index];
    && o.ring != [] && item == o.ring[0]
    && k' == s.kernel.(objects := s.kernel.objects[index := o.(ring := o.ring[1..])])
  }

  /**
   * A push by a producer whose view shows `pops` pops.  Module QueueSimulation derives this and the
   * next from the steps of the ring itself.
   */
  function Enqueue(q: Queue, x: Item, pops: nat): Queue {
    if |q.popped| + |q.waiting| - pops == q.capacity then q.(seenPops := pops, dropped := q.dropped + 1)
    else q.(seenPops := pops, waiting := q.waiting + [x])
  }

  function Dequeue(q: Queue): Queue
    requires q.waiting != []
  {
    q.(waiting := q.waiting[1..], popped := q.popped + [q.waiting[0]])
  }

  /** The callback's decoding and push, on a view of the queue that shows `pops` pops. */
  ghost predicate PushNext(s: State, item: Item, pops: nat, q': Queue) {
    && item.index in s.life.sources
    && s.queue.seenPops <= pops <= |s.queue.popped|
    && var q := s.queue;
    q' == match Accept(s.life.sources[item.index], WriteEvent(item.record.event))
          case None => q.(decodeErrors := q.decodeErrors + 1)
          case Some(r) => Enqueue(q, Item(item.index, r), pops)
  }

  predicate CancelledNow(l: Life) {
    l.abort || (l.deadline != 0 && l.now >= l.deadline)
  }

  ghost predicate PollerNext(s: State, m: PollerMove, t: State) {
    var l := s.life;
    match m
    case TestAbort =>
      && l.poller.Checking? && t == s.(life := l.(poller := if l.abort then Ended else Polling))
    case PollTake(index) =>
      && l.poller.Polling? && t.life.poller.Holding?
      && TakeNext(s, index, t.life.poller.item, t.kernel)
      && t == State(t.kernel, l.(poller := t.life.poller), s.queue)
    case PollReturn => // a timeout, the records handled, or -EINTR
      && l.poller.Polling? && t == s.(life := l.(poller := Checking))
    case PollFail(rc) =>
      && l.poller.Polling? && rc < 0 && rc != -ECANCELED && rc != -EINTR
      && t == s.(life := l.(poller := Ended, pollError := rc))
    case PollTest =>
      && l.poller.Holding?
      && t == s.(life := if CancelledNow(l) then l.(poller := Returned, discarded := l.discarded + 1)
                         else l.(poller := Passed(l.poller.item)))
    case PollPush(pops) =>
      && l.poller.Passed? && PushNext(s, l.poller.item, pops, t.queue)
      && t == State(s.kernel, l.(poller := Polling), t.queue)
    case PollCancelled =>
      && l.poller.Returned?
      && t == s.(life := if l.abort then l.(poller := Ended) else l.(poller := Ended, pollError := -ECANCELED))
  }

  ghost predicate FinisherNext(s: State, m: FinisherMove, t: State) {
    var l := s.life;
    match m
    case Join =>
      && l.finisher.Joining? && (l.poller.Absent? || l.poller.Ended?)
      && var ms := Min(l.finisher.ms, 60000);
      t == s.(life := if ms > 0 && l.sources != map[] then l.(finisher := Arming, deadline := l.now + ms * 1000000)
                      else l.(finisher := Sealing))
    case ClearAbort =>
      && l.finisher.Arming? && t == s.(life := l.(finisher := Looping, abort := false))
    case TestDeadline =>
      && l.finisher.Looping?
      && t == s.(life := l.(finisher := if l.now >= l.deadline then Sealing else Consuming(0)))
    case Take(index) =>
      && l.finisher.Consuming? && t.life.finisher.Handling? && t.life.finisher.n == l.finisher.n
      && TakeNext(s, index, t.life.finisher.item, t.kernel)
      && t == State(t.kernel, l.(finisher := t.life.finisher), s.queue)
    case ConsumeReturn => // the library went through the rings, which hooks may be filling again
      && l.finisher.Consuming?
      && t == s.(life := l.(finisher := if l.finisher.n == 0 then Sealing else Looping))
    case ConsumeFail(rc) =>
      && l.finisher.Consuming? && rc < 0 && rc != -ECANCELED
      && t == s.(life := if rc == -EINTR then l.(finisher := Looping) else l.(finisher := Sealing, pollError := rc))
    case Test =>
      && l.finisher.Handling?
      && t == s.(life := if CancelledNow(l) then l.(finisher := Sealing, discarded := l.discarded + 1)
                         else l.(finisher := Through(l.finisher.item, l.finisher.n)))
    case Push(pops) =>
      && l.finisher.Through? && PushNext(s, l.finisher.item, pops, t.queue)
      && t == State(s.kernel, l.(finisher := Consuming(l.finisher.n + 1)), t.queue)
    case Seal =>
      && l.finisher.Sealing? && t == s.(life := l.(finisher := Idle, abort := true, finished := true))
  }

  ghost predicate Next(s: State, a: Action, t: State) {
    var l := s.life;
    match a
    case Load(cfg) =>
      t == s.(kernel := s.kernel.(objects := s.kernel.objects + [Object(cfg, [], map[])]))
    case Hook(_, _, _, _) => HookNext(s.kernel, a, t.kernel) && t == s.(kernel := t.kernel)
    case AddSource(index, source, registered) =>
      && l.finisher.Idle? && index < |s.kernel.objects| && index !in l.sources
      && t == s.(life := if l.started || l.finished || source.ifindex == 0 || !registered then l
                         else l.(sources := l.sources[index := source]))
    case Start =>
      && l.finisher.Idle?
      && t == s.(life := if l.sources == map[] || l.started || l.finished then l
                         else l.(poller := Checking, started := true))
    case Finish(ms) =>
      && l.finisher.Idle?
      && t == s.(life := if l.finished then l else l.(abort := true, finisher := Joining(ms)))
    case Tick(ns) => t == s.(life := l.(now := l.now + ns))
    case PollerStep(m) => PollerNext(s, m, t)
    case FinisherStep(m) => FinisherNext(s, m, t)
    case Pop =>
      && s.queue.waiting != []
      && t == s.(queue := Dequeue(s.queue))
  }

  ghost predicate IsRun(run: seq<State>, actions: seq<Action>) {
    && |run| == |actions| + 1 && Init(run[0])
    && forall k :: 0 <= k < |actions| ==> Next(run[k], actions[k], run[k + 1])
  }

  // --- What is in the rings ----------------------------------------------------------------------

  ghost predicate FromHook(e: Event) {
    e.direction < DIRECTIONS && (e.ifindex != 0 ==> DecodeEvent(Some(WriteEvent(e))) == Some(e))
  }

  ghost predicate RingsInv(k: Kernel) {
    forall i :: 0 <= i < |k.objects| ==>
      forall x <- k.objects[i].ring :: x.index == i && FromHook(x.record.event)
  }

  // --- Lifecycle --------------------------------------------------------------------------------

  predicate PollerInCallback(p: Poller) { p.Holding? || p.Passed? }
  predicate FinisherInCallback(f: Finisher) { f.Handling? || f.Through? }

  /** The finisher is past its join. */
  predicate Draining(f: Finisher) { !f.Idle? && !f.Joining? }

  ghost predicate LifeInv(l: Life) {
    && (l.started <==> !l.poller.Absent?)
    && (Draining(l.finisher) || l.finished ==> l.poller.Absent? || l.poller.Ended?)
    && (l.deadline != 0 ==> Draining(l.finisher) || l.finished)
    && (l.finisher.Joining? || l.finished || l.finisher.Arming? || l.poller.Returned? ==> l.abort)
    && (l.abort ==> !l.finisher.Idle? || l.finished)
    && (l.finished ==> l.finisher.Idle?)
    && l.pollError != -ECANCELED
    && l.discarded <= Bit(l.poller.Returned? || l.poller.Ended?) + Bit(l.finisher.Sealing? || l.finished)
    && (forall i <- l.sources :: l.sources[i].ifindex != 0)
    && (PollerInCallback(l.poller) ==> l.poller.item.index in l.sources)
    && (FinisherInCallback(l.finisher) ==> l.finisher.item.index in l.sources)
  }

  lemma PollerKeepsLife(s: State, m: PollerMove, t: State)
    requires LifeInv(s.life) && RingsInv(s.kernel) && PollerNext(s, m, t)
    ensures LifeInv(t.life)
  {
    hide Accept;
  }

  lemma FinisherKeepsLife(s: State, m: FinisherMove, t: State)
    requires LifeInv(s.life) && RingsInv(s.kernel) && FinisherNext(s, m, t)
    ensures LifeInv(t.life)
  {
    hide Accept, PushNext, FromHook;
  }

  lemma NextKeepsLife(s: State, a: Action, t: State)
    requires LifeInv(s.life) && RingsInv(s.kernel) && Next(s, a, t)
    ensures LifeInv(t.life)
  {
    match a
    case PollerStep(m) => PollerKeepsLife(s, m, t);
    case FinisherStep(m) => FinisherKeepsLife(s, m, t);
    case _ =>
      hide HookNext;
  }

  // --- Conservation -----------------------------------------------------------------------------

  /** Records taken from a ring that the callback has not dealt with yet. */
  function InHand(l: Life): seq<Item> {
    (if PollerInCallback(l.poller) then [l.poller.item] else []) +
    (if FinisherInCallback(l.finisher) then [l.finisher.item] else [])
  }

  function InRings(objects: seq<Object>): nat {
    if objects == [] then 0 else |objects[0].ring| + InRings(objects[1..])
  }

  lemma {:induction false} InRingsUpdate(objects: seq<Object>, i: nat, o: Object)
    requires i < |objects|
    ensures InRings(objects[i := o]) == InRings(objects) - |objects[i].ring| + |o.ring|
  {
    if i == 0 {
      assert objects[i := o][1..] == objects[1..];
    } else {
      assert objects[i := o][1..] == objects[1..][i - 1 := o];
      InRingsUpdate(objects[1..], i - 1, o);
    }
  }

  lemma {:induction false} InRingsAppend(objects: seq<Object>, o: Object)
    ensures InRings(objects + [o]) == InRings(objects) + |o.ring|
  {
    if objects == [] {
      assert objects + [o] == [o];
    } else {
      assert (objects + [o])[1..] == objects[1..] + [o];
      InRingsAppend(objects[1..], o);
    }
  }

  /** Every sampled packet is in exactly one place. */
  ghost predicate Conserved(s: State) {
    s.kernel.sampled ==
    s.kernel.ringLost + InRings(s.kernel.objects) + |InHand(s.life)|
    + s.queue.decodeErrors + s.queue.dropped + s.life.discarded + |s.queue.waiting| + |s.queue.popped|
  }

  lemma PublishedOnce(cfg: Config, c: Counters, skb: Skb, direction: byte, h: Helpers)
    ensures |Published(cfg, c, skb, direction, h)| == Bit(IsSampled(cfg, c, skb, h) && h.reserve)
  {
  }

  lemma HookConserves(s: State, a: Action, t: State)
    requires Conserved(s) && a.Hook? && Next(s, a, t)
    ensures Conserved(t)
  {
    hide Published, IsSampled, CountersAfter;
    var o := s.kernel.objects[a.index];
    var c := SlotOf(o, Lane(a.h.cpu, a.direction));
    PublishedOnce(o.cfg, c, a.skb, a.direction, a.h);
    InRingsUpdate(s.kernel.objects, a.index, t.kernel.objects[a.index]);
  }

  lemma TakeConserves(s: State, index: nat, item: Item, k': Kernel)
    requires TakeNext(s, index, item, k')
    ensures InRings(k'.objects) == InRings(s.kernel.objects) - 1
    ensures k'.sampled == s.kernel.sampled && k'.ringLost == s.kernel.ringLost
  {
    var o := s.kernel.objects[index];
    InRingsUpdate(s.kernel.objects, index, o.(ring := o.ring[1..]));
  }

  lemma PushConserves(s: State, item: Item, pops: nat, q': Queue)
    requires PushNext(s, item, pops, q')
    ensures q'.decodeErrors + q'.dropped + |q'.waiting| ==
            s.queue.decodeErrors + s.queue.dropped + |s.queue.waiting| + 1
    ensures q'.popped == s.queue.popped
  {
    hide Accept;
  }

  lemma PollerConserves(s: State, m: PollerMove, t: State)
    requires Conserved(s) && LifeInv(s.life) && PollerNext(s, m, t)
    ensures Conserved(t)
  {
    hide TakeNext, PushNext, InRings, CancelledNow;
    match m
    case PollTake(index) => TakeConserves(s, index, t.life.poller.item, t.kernel);
    case PollPush(pops) => PushConserves(s, s.life.poller.item, pops, t.queue);
    case _ =>
  }

  lemma FinisherConserves(s: State, m: FinisherMove, t: State)
    requires Conserved(s) && LifeInv(s.life) && FinisherNext(s, m, t)
    ensures Conserved(t)
  {
    hide TakeNext, PushNext, InRings, CancelledNow;
    match m
    case Take(index) => TakeConserves(s, index, t.life.finisher.item, t.kernel);
    case Push(pops) => PushConserves(s, s.life.finisher.item, pops, t.queue);
    case _ =>
  }

  lemma NextConserves(s: State, a: Action, t: State)
    requires Conserved(s) && LifeInv(s.life) && Next(s, a, t)
    ensures Conserved(t)
  {
    match a
    case Hook(_, _, _, _) => HookConserves(s, a, t);
    case PollerStep(m) => PollerConserves(s, m, t);
    case FinisherStep(m) => FinisherConserves(s, m, t);
    case Load(cfg) => InRingsAppend(s.kernel.objects, Object(cfg, [], map[]));
    case _ =>
  }

  // --- What is in the queue ---------------------------------------------------------------------

  ghost predicate QueueInv(s: State) {
    && s.queue.seenPops <= |s.queue.popped|
    && |s.queue.popped| + |s.queue.waiting| <= s.queue.seenPops + s.queue.capacity
    && forall x <- s.queue.popped + s.queue.waiting ::
         x.index in s.life.sources && Genuine(s.life.sources[x.index], x.record)
  }

  lemma PublishedFromHook(cfg: Config, c: Counters, skb: Skb, direction: byte, h: Helpers)
    requires direction < DIRECTIONS
    ensures forall e <- Published(cfg, c, skb, direction, h) ::
              FromHook(e) && e.sequence == Plus(c[PACKETS], 1) && e.cpu == h.cpu && e.direction == direction
  {
    PublishedEventIsAccepted(cfg, skb, direction, h, Plus(c[PACKETS], 1));
  }

  lemma PushKeepsQueue(s: State, item: Item, pops: nat, t: State)
    requires QueueInv(s) && PushNext(s, item, pops, t.queue) && t.life.sources == s.life.sources
    ensures QueueInv(t)
  {
    hide Accept, Genuine;
    var source := s.life.sources[item.index];
    AcceptedIsGenuine(source, WriteEvent(item.record.event));
    assert forall x <- t.queue.popped + t.queue.waiting ::
        x in s.queue.popped + s.queue.waiting || x == t.queue.waiting[|t.queue.waiting| - 1];
  }

  lemma NextKeepsQueue(s: State, a: Action, t: State)
    requires QueueInv(s) && Next(s, a, t)
    ensures QueueInv(t)
  {
    hide Accept, Genuine, HookNext, TakeNext, PushNext, CancelledNow;
    match a
    case PollerStep(m) =>
      if m.PollPush? {
        PushKeepsQueue(s, s.life.poller.item, m.pops, t);
      }
    case FinisherStep(m) =>
      if m.Push? {
        PushKeepsQueue(s, s.life.finisher.item, m.pops, t);
      }
    case Pop =>
      assert t.queue.popped + t.queue.waiting == s.queue.popped + s.queue.waiting;
    case _ =>
  }

  lemma HookKeepsRings(k: Kernel, a: Action, k': Kernel)
    requires RingsInv(k) && a.Hook? && HookNext(k, a, k')
    ensures RingsInv(k')
  {
    hide Published, CountersAfter, FromHook, IsSampled;
    var o := k.objects[a.index];
    PublishedFromHook(o.cfg, SlotOf(o, Lane(a.h.cpu, a.direction)), a.skb, a.direction, a.h);
  }

  lemma NextKeepsRings(s: State, a: Action, t: State)
    requires RingsInv(s.kernel) && Next(s, a, t)
    ensures RingsInv(t.kernel)
  {
    hide Accept, HookNext, FromHook;
    match a
    case Hook(_, _, _, _) => HookKeepsRings(s.kernel, a, t.kernel);
    case _ =>
  }

  /** What the callback holds came from a ring. */
  ghost predicate HandInv(l: Life) {
    forall x <- InHand(l) :: FromHook(x.record.event)
  }

  lemma PollerKeepsHand(s: State, m: PollerMove, t: State)
    requires RingsInv(s.kernel) && HandInv(s.life) && PollerNext(s, m, t)
    ensures HandInv(t.life)
  {
    hide Accept, FromHook, PushNext;
  }

  lemma FinisherKeepsHand(s: State, m: FinisherMove, t: State)
    requires RingsInv(s.kernel) && HandInv(s.life) && FinisherNext(s, m, t)
    ensures HandInv(t.life)
  {
    hide Accept, FromHook, PushNext;
  }

  lemma NextKeepsHand(s: State, a: Action, t: State)
    requires RingsInv(s.kernel) && HandInv(s.life) && Next(s, a, t)
    ensures HandInv(t.life)
  {
    hide HookNext, FromHook, PollerNext, FinisherNext;
    match a
    case PollerStep(m) => PollerKeepsHand(s, m, t);
    case FinisherStep(m) => FinisherKeepsHand(s, m, t);
    case _ =>
  }

  // --- Order ------------------------------------------------------------------------------------

  ghost predicate SameLane(x: Item, y: Item) {
    && x.index == y.index
    && x.record.event.cpu == y.record.event.cpu && x.record.event.direction == y.record.event.direction
  }

  function Sequence(x: Item): word64 { x.record.event.sequence }

  /** Per object, CPU and direction, sequence numbers go up along `d`. */
  ghost predicate Increasing(d: seq<Item>) {
    forall i, j :: 0 <= i < j < |d| && SameLane(d[i], d[j]) ==> Sequence(d[i]) < Sequence(d[j])
  }

  ghost predicate Across(a: seq<Item>, b: seq<Item>) {
    forall x <- a, y <- b :: SameLane(x, y) ==> Sequence(x) < Sequence(y)
  }

  lemma IncreasingConcat(a: seq<Item>, b: seq<Item>)
    ensures Increasing(a + b) <==> Increasing(a) && Increasing(b) && Across(a, b)
  {
    var d := a + b;
    if Increasing(d) {
      assert forall i :: 0 <= i < |a| ==> a[i] == d[i];
      assert forall j :: 0 <= j < |b| ==> b[j] == d[|a| + j];
    }
    if Increasing(a) && Increasing(b) && Across(a, b) {
      forall i, j | 0 <= i < j < |d| && SameLane(d[i], d[j])
        ensures Sequence(d[i]) < Sequence(d[j])
      {
        if i < |a| <= j {
          assert d[i] in a && d[j] in b;
        }
      }
    }
  }

  /** Records past their ring, oldest first. */
  function Down(s: State): seq<Item> {
    s.queue.popped + s.queue.waiting + InHand(s.life)
  }

  /** No record is ahead of the packet counter of its lane. */
  ghost predicate Behind(x: Item, objects: seq<Object>) {
    && x.index < |objects|
    && Sequence(x) <= SlotOf(objects[x.index], Lane(x.record.event.cpu, x.record.event.direction))[PACKETS]
  }

  ghost predicate Ordered(down: seq<Item>, objects: seq<Object>) {
    && Increasing(down)
    && (forall x <- down :: Behind(x, objects))
    && (forall i :: 0 <= i < |objects| ==>
          && Increasing(objects[i].ring) && Across(down, objects[i].ring)
          && forall x <- objects[i].ring :: x.index == i && Behind(x, objects))
  }

  ghost predicate CountersLow(k: Kernel) {
    forall i, lane :: 0 <= i < |k.objects| ==> SlotOf(k.objects[i], lane)[PACKETS] <= k.calls
  }

  ghost predicate OrderInv(s: State) {
    s.kernel.calls < TWO_64 ==> CountersLow(s.kernel) && Ordered(Down(s), s.kernel.objects)
  }

  lemma OrderedTake(down: seq<Item>, objects: seq<Object>, i: nat)
    requires Ordered(down, objects) && i < |objects| && objects[i].ring != []
    ensures
      var o := objects[i];
      Ordered(down + [o.ring[0]], objects[i := o.(ring := o.ring[1..])])
  {
    var o := objects[i];
    var x, objects' := o.ring[0], objects[i := o.(ring := o.ring[1..])];
    assert o.ring == [x] + o.ring[1..] && x in o.ring;
    IncreasingConcat([x], o.ring[1..]);
    IncreasingConcat(down, [x]);
    forall j | 0 <= j < |objects'|
      ensures Across(down + [x], objects'[j].ring)
    {
      assert forall y <- objects'[j].ring :: y in objects[j].ring;
    }
  }

  lemma OrderedDrop(down: seq<Item>, objects: seq<Object>)
    requires Ordered(down, objects) && down != []
    ensures Ordered(down[..|down| - 1], objects)
  {
    var d := down[..|down| - 1];
    assert down == d + [down[|down| - 1]];
    IncreasingConcat(d, [down[|down| - 1]]);
    assert forall x <- d :: x in down;
  }

  /** The last record may take on its source's identity. */
  lemma OrderedRelabel(d: seq<Item>, last: Item, x: Item, objects: seq<Object>)
    requires Ordered(d + [last], objects) && x.index == last.index && x.record.event == last.record.event
    ensures Ordered(d + [x], objects)
  {
    hide SameLane, SlotOf;
    assert last in d + [last] && forall y <- d :: y in d + [last];
    assert Behind(x, objects);
    IncreasingConcat(d, [last]);
    IncreasingConcat(d, [x]);
    AlikeInLane(last, x);
    forall i | 0 <= i < |objects|
      ensures Across(d + [x], objects[i].ring)
    {
      AcrossRelabel(d, last, x, objects[i].ring);
    }
  }

  lemma AlikeInLane(last: Item, x: Item)
    requires x.index == last.index && x.record.event == last.record.event
    ensures Sequence(x) == Sequence(last) && forall y :: SameLane(y, x) == SameLane(y, last)
  {
  }

  lemma AcrossRelabel(d: seq<Item>, last: Item, x: Item, ring: seq<Item>)
    requires Across(d + [last], ring) && x.index == last.index && x.record.event == last.record.event
    ensures Across(d + [x], ring)
  {
    assert last in d + [last] && forall y <- d :: y in d + [last];
    forall y <- d + [x], z <- ring | SameLane(y, z)
      ensures Sequence(y) < Sequence(z)
    {
      assert SameLane(if y in d then y else last, z);
    }
  }

  lemma OrderedCounters(down: seq<Item>, objects: seq<Object>, i: nat, lane: Lane, c: Counters)
    requires Ordered(down, objects) && i < |objects| && SlotOf(objects[i], lane)[PACKETS] <= c[PACKETS]
    ensures Ordered(down, objects[i := objects[i].(slots := objects[i].slots[lane := c])])
  {
    var objects' := objects[i := objects[i].(slots := objects[i].slots[lane := c])];
    assert forall x :: Behind(x, objects) ==> Behind(x, objects');
  }

  lemma OrderedPublish(down: seq<Item>, objects: seq<Object>, i: nat, x: Item)
    requires Ordered(down, objects) && i < |objects| && x.index == i && Behind(x, objects)
    requires forall y <- down :: SameLane(y, x) ==> Sequence(y) < Sequence(x)
    requires forall y <- objects[i].ring :: SameLane(y, x) ==> Sequence(y) < Sequence(x)
    ensures Ordered(down, objects[i := objects[i].(ring := objects[i].ring + [x])])
  {
    var objects' := objects[i := objects[i].(ring := objects[i].ring + [x])];
    IncreasingConcat(objects[i].ring, [x]);
    assert forall y :: Behind(y, objects) ==> Behind(y, objects');
  }

  /** A record that is published carries the new value of its lane's packet counter. */
  lemma HookKeepsOrder(s: State, a: Action, t: State)
    requires OrderInv(s) && a.Hook? && Next(s, a, t)
    ensures OrderInv(t)
  {
    hide Published, CountersAfter, IsSampled, FromHook;
    assert Down(t) == Down(s);
    if t.kernel.calls < TWO_64 {
      HookKeepsLow(s.kernel, a, t.kernel);
      var objects, i, lane := s.kernel.objects, a.index, Lane(a.h.cpu, a.direction);
      var o := objects[i];
      var c := SlotOf(o, lane);
      var c' := CountersAfter(o.cfg, c, map[], a.skb, a.direction, a.h);
      PacketsUpByOne(o.cfg, c, a.skb, a.direction, a.h);
      var d := Down(s);
      OrderedCounters(d, objects, i, lane, c');
      var objects1 := objects[i := o.(slots := o.slots[lane := c'])];
      var p := Published(o.cfg, c, a.skb, a.direction, a.h);
      PublishedFromHook(o.cfg, c, a.skb, a.direction, a.h);
      PublishedOnce(o.cfg, c, a.skb, a.direction, a.h);
      if p == [] {
        assert o.ring + Tagged(i, p) == o.ring;
        assert t.kernel.objects == objects1;
      } else {
        var x := Item(i, Record(p[0], 0, 0));
        assert Tagged(i, p) == [x];
        PublishedIsAhead(d, objects, i, x, c, lane);
        OrderedPublish(d, objects1, i, x);
        assert t.kernel.objects == objects1[i := objects1[i].(ring := o.ring + [x])];
      }
    }
  }

  lemma HookKeepsLow(k: Kernel, a: Action, k': Kernel)
    requires CountersLow(k) && a.Hook? && HookNext(k, a, k') && k'.calls < TWO_64
    ensures CountersLow(k')
  {
    hide Published, CountersAfter, IsSampled;
    var o, lane := k.objects[a.index], Lane(a.h.cpu, a.direction);
    PacketsUpByOne(o.cfg, SlotOf(o, lane), a.skb, a.direction, a.h);
    forall i, l | 0 <= i < |k'.objects|
      ensures SlotOf(k'.objects[i], l)[PACKETS] <= k'.calls
    {
      assert SlotOf(k.objects[i], l)[PACKETS] <= k.calls;
    }
  }

  lemma PacketsUpByOne(cfg: Config, c: Counters, skb: Skb, direction: byte, h: Helpers)
    ensures CountersAfter(cfg, c, map[], skb, direction, h)[PACKETS] == Plus(c[PACKETS], 1)
  {
  }

  lemma PublishedIsAhead(d: seq<Item>, objects: seq<Object>, i: nat, x: Item, c: Counters, lane: Lane)
    requires Ordered(d, objects) && i < |objects| && c == SlotOf(objects[i], lane)
    requires x.index == i && Lane(x.record.event.cpu, x.record.event.direction) == lane
    requires Sequence(x) > c[PACKETS]
    ensures forall y <- d :: SameLane(y, x) ==> Sequence(y) < Sequence(x)
    ensures forall y <- objects[i].ring :: SameLane(y, x) ==> Sequence(y) < Sequence(x)
  {
    assert forall y <- d :: Behind(y, objects);
    assert forall y <- objects[i].ring :: Behind(y, objects);
  }

  lemma TakeKeepsOrder(s: State, i: nat, item: Item, t: State)
    requires OrderInv(s) && TakeNext(s, i, item, t.kernel) && Down(t) == Down(s) + [item]
    ensures OrderInv(t)
  {
    if s.kernel.calls < TWO_64 {
      OrderedTake(Down(s), s.kernel.objects, i);
    }
  }

  lemma ForwardsTheEvent(source: Source, e: Event)
    requires Accept(source, WriteEvent(e)).Some?
    ensures Accept(source, WriteEvent(e)).value.event == e
  {
    hide WriteEvent, ReadEvent;
    AcceptedIsGenuine(source, WriteEvent(e));
    ReadWrittenEvent(Accept(source, WriteEvent(e)).value.event);
    ReadWrittenEvent(e);
  }

  /** The callback forwards the event it was handed, or drops it. */
  lemma PushKeepsOrder(s: State, item: Item, pops: nat, t: State)
    requires OrderInv(s) && PushNext(s, item, pops, t.queue) && t.kernel == s.kernel
    requires InHand(s.life) == [item] && InHand(t.life) == []
    ensures OrderInv(t)
  {
    hide Accept, Ordered, CountersLow;
    var d := s.queue.popped + s.queue.waiting;
    assert Down(s) == d + [item];
    var r := Accept(s.life.sources[item.index], WriteEvent(item.record.event));
    if s.kernel.calls < TWO_64 {
      OrderedDrop(Down(s), s.kernel.objects);
      assert Down(s)[..|Down(s)| - 1] == d;
      if r.Some? {
        ForwardsTheEvent(s.life.sources[item.index], item.record.event);
        OrderedRelabel(d, item, Item(item.index, r.value), s.kernel.objects);
        assert d + [Item(item.index, r.value)]
            == s.queue.popped + (s.queue.waiting + [Item(item.index, r.value)]);
      }
      assert Down(t) == t.queue.popped + t.queue.waiting;
    }
  }

  lemma DropKeepsOrder(s: State, t: State)
    requires OrderInv(s) && t.kernel == s.kernel && t.queue == s.queue
    requires |InHand(s.life)| == 1 && InHand(t.life) == []
    ensures OrderInv(t)
  {
    if s.kernel.calls < TWO_64 {
      OrderedDrop(Down(s), s.kernel.objects);
      assert Down(t) == Down(s)[..|Down(s)| - 1];
    }
  }

  lemma PollerKeepsOrder(s: State, m: PollerMove, t: State)
    requires LifeInv(s.life) && OrderInv(s) && PollerNext(s, m, t)
    ensures OrderInv(t)
  {
    hide Accept, Ordered, CountersLow;
    match m
    case PollTake(i) => TakeKeepsOrder(s, i, t.life.poller.item, t);
    case PollPush(pops) => PushKeepsOrder(s, s.life.poller.item, pops, t);
    case PollTest => if t.life.poller.Returned? { DropKeepsOrder(s, t); }
    case _ =>
  }

  lemma FinisherKeepsOrder(s: State, m: FinisherMove, t: State)
    requires LifeInv(s.life) && OrderInv(s) && FinisherNext(s, m, t)
    ensures OrderInv(t)
  {
    hide Accept, Ordered, CountersLow, TakeNext, PushNext, CancelledNow;
    match m
    case Take(i) => TakeKeepsOrder(s, i, t.life.finisher.item, t);
    case Push(pops) => PushKeepsOrder(s, s.life.finisher.item, pops, t);
    case Test => if t.life.finisher.Sealing? { DropKeepsOrder(s, t); }
    case _ =>
  }

  lemma LoadKeepsOrder(s: State, a: Action, t: State)
    requires OrderInv(s) && a.Load? && Next(s, a, t)
    ensures OrderInv(t)
  {
    var objects := s.kernel.objects;
    assert Down(t) == Down(s);
    if s.kernel.calls < TWO_64 {
      assert t.kernel.objects == objects + [Object(a.cfg, [], map[])];
      OrderedLoad(Down(s), objects, Object(a.cfg, [], map[]));
    }
  }

  lemma OrderedLoad(down: seq<Item>, objects: seq<Object>, o: Object)
    requires Ordered(down, objects) && o.ring == []
    ensures Ordered(down, objects + [o])
  {
    hide Sequence, SlotOf, SameLane;
    var objects' := objects + [o];
    assert forall x :: Behind(x, objects) ==> Behind(x, objects');
  }

  lemma NextKeepsOrder(s: State, a: Action, t: State)
    requires LifeInv(s.life) && OrderInv(s) && Next(s, a, t)
    ensures OrderInv(t)
  {
    hide Accept, HookNext, Ordered, CountersLow;
    match a
    case Load(_) => LoadKeepsOrder(s, a, t);
    case Hook(_, _, _, _) => HookKeepsOrder(s, a, t);
    case PollerStep(m) => PollerKeepsOrder(s, m, t);
    case FinisherStep(m) => FinisherKeepsOrder(s, m, t);
    case Pop => assert Down(t) == Down(s);
    case _ =>
  }

  // --- Every run --------------------------------------------------------------------------------

  ghost predicate Inv(s: State) {
    LifeInv(s.life) && RingsInv(s.kernel) && HandInv(s.life) && QueueInv(s) && Conserved(s) && OrderInv(s)
  }

  lemma InitInv(s: State)
    requires Init(s)
    ensures Inv(s)
  {
  }

  lemma NextKeepsInv(s: State, a: Action, t: State)
    requires Inv(s) && Next(s, a, t)
    ensures Inv(t)
  {
    hide Next, LifeInv, RingsInv, HandInv, QueueInv, Conserved, OrderInv;
    NextKeepsLife(s, a, t);
    NextKeepsRings(s, a, t);
    NextKeepsHand(s, a, t);
    NextKeepsQueue(s, a, t);
    NextConserves(s, a, t);
    NextKeepsOrder(s, a, t);
  }

  lemma {:induction false} RunKeepsInv(run: seq<State>, actions: seq<Action>, k: nat)
    requires IsRun(run, actions) && k < |run|
    ensures Inv(run[k])
  {
    hide Next, Inv;
    if k == 0 {
      InitInv(run[0]);
    } else {
      RunKeepsInv(run, actions, k - 1);
      NextKeepsInv(run[k - 1], actions[k - 1], run[k]);
    }
  }

  /** Conservation: in every state of every run each sampled packet is in exactly one place. */
  lemma PipelineConservation(run: seq<State>, actions: seq<Action>, k: nat)
    requires IsRun(run, actions) && k < |run|
    ensures Conserved(run[k])
  {
    RunKeepsInv(run, actions, k);
  }

  /** Order: below 2^64 hook calls, what is popped goes up in sequence per object, CPU and direction. */
  lemma PipelineOrder(run: seq<State>, actions: seq<Action>, k: nat)
    requires IsRun(run, actions) && k < |run| && run[k].kernel.calls < TWO_64
    ensures Increasing(run[k].queue.popped)
  {
    RunKeepsInv(run, actions, k);
    var q, hand := run[k].queue, InHand(run[k].life);
    assert Down(run[k]) == q.popped + (q.waiting + hand);
    IncreasingConcat(q.popped, q.waiting + hand);
  }

  /**
   * Lifecycle: one thread at most is inside the callback, at most two records are discarded in a
   * lifetime, -ECANCELED never becomes the poll error, and everything queued or popped passed the
   * validator and carries its source's interface, namespace and session.
   */
  lemma LifecycleSafety(run: seq<State>, actions: seq<Action>, k: nat)
    requires IsRun(run, actions) && k < |run|
    ensures
      var l, q := run[k].life, run[k].queue;
      && !(PollerInCallback(l.poller) && FinisherInCallback(l.finisher))
      && (l.finished ==> !PollerInCallback(l.poller) && !FinisherInCallback(l.finisher))
      && l.discarded <= 2 && l.pollError != -ECANCELED
      && |q.waiting| <= q.capacity
      && forall x <- q.popped + q.waiting :: x.index in l.sources && Genuine(l.sources[x.index], x.record)
  {
    RunKeepsInv(run, actions, k);
  }

  /** Once finished, nothing is queued or discarded any more; records can only be popped. */
  lemma NothingAfterFinish(run: seq<State>, actions: seq<Action>, k: nat)
    requires IsRun(run, actions) && k < |actions| && run[k].life.finished
    ensures
      var s, t := run[k], run[k + 1];
      && t.life.finished && t.life.discarded == s.life.discarded && t.life.pollError == s.life.pollError
      && t.queue.popped + t.queue.waiting == s.queue.popped + s.queue.waiting
      && t.queue.decodeErrors == s.queue.decodeErrors && t.queue.dropped == s.queue.dropped
  {
    hide Next, Conserved, OrderInv, QueueInv, RingsInv;
    RunKeepsInv(run, actions, k);
    FinishedStays(run[k], actions[k], run[k + 1]);
  }

  lemma FinishedStays(s: State, a: Action, t: State)
    requires LifeInv(s.life) && s.life.finished && Next(s, a, t)
    ensures t.life.finished && t.life.discarded == s.life.discarded && t.life.pollError == s.life.pollError
    ensures t.queue.popped + t.queue.waiting == s.queue.popped + s.queue.waiting
    ensures t.queue.decodeErrors == s.queue.decodeErrors && t.queue.dropped == s.queue.dropped
  {
    hide HookNext, PushNext, TakeNext;
  }

  lemma NotAccepted(source: Source, e: Event)
    requires FromHook(e) && source.ifindex != 0 && Accept(source, WriteEvent(e)).None?
    ensures e.ifindex != source.ifindex
  {
    hide DecodeEvent;
  }

  /** The callback counts a decode error only for an event of another interface than its source's. */
  lemma DecodeErrorsAreForeign(run: seq<State>, actions: seq<Action>, k: nat)
    requires IsRun(run, actions) && k < |actions|
    requires run[k + 1].queue.decodeErrors > run[k].queue.decodeErrors
    ensures
      var l, hand := run[k].life, InHand(run[k].life);
      |hand| == 1 && hand[0].index in l.sources
      && hand[0].record.event.ifindex != l.sources[hand[0].index].ifindex
  {
    hide Next, Conserved, OrderInv, QueueInv, RingsInv;
    RunKeepsInv(run, actions, k);
    ErrorIsForeign(run[k], actions[k], run[k + 1]);
  }

  lemma ErrorIsForeign(s: State, a: Action, t: State)
    requires LifeInv(s.life) && HandInv(s.life) && Next(s, a, t) && t.queue.decodeErrors > s.queue.decodeErrors
    ensures
      var l, hand := s.life, InHand(s.life);
      |hand| == 1 && hand[0].index in l.sources
      && hand[0].record.event.ifindex != l.sources[hand[0].index].ifindex
  {
    hide HookNext, TakeNext, Accept, FromHook;
    var hand := InHand(s.life);
    assert (a.PollerStep? && a.pollerMove.PollPush?) || (a.FinisherStep? && a.finisherMove.Push?);
    NotAccepted(s.life.sources[hand[0].index], hand[0].record.event);
  }
}
