/**
 * The queue of module Pipeline is the ring of module SpscMemory.  Every run of the ring's two
 * threads, step by step and with their stale views, is a run of pushes, refused pushes and pops of
 * the pipeline's queue, with steps in between that it does not see.
 */
module QueueSimulation {
  import opened SpscMemory
  import Pipeline

  type Item = Pipeline.Item
  type Queue = Pipeline.Queue

  /** A push counts when its index is stored, or when its view is found full. */
  ghost function Moved(q: Queue, s: State<Item>, a: Action<Item>, t: State<Item>): Queue {
    match a
    case StoreHead => if s.producer.PIdle? then q else Pipeline.Enqueue(q, s.producer.value, s.seenTail)
    case LoadTail(pops) =>
      if t.producer.PIdle? && !s.producer.PIdle? then Pipeline.Enqueue(q, s.producer.value, pops) else q
    case StoreTail => if q.waiting == [] then q else Pipeline.Dequeue(q)
    case _ => q
  }

  /** The queue after `k` steps. */
  ghost function Image(run: seq<State<Item>>, actions: seq<Action<Item>>, k: nat): Queue
    requires |run| == |actions| + 1 && k < |run|
  {
    if k == 0 then Pipeline.Queue(if run[0].size == 0 then 0 else run[0].size - 1, [], [], 0, 0, 0)
    else Moved(Image(run, actions, k - 1), run[k - 1], actions[k - 1], run[k])
  }

  ghost predicate Shows(q: Queue, s: State<Item>) {
    && |s.popped| <= |s.pushed| && q.waiting == Waiting(s) && q.popped == s.popped && q.capacity == s.size - 1
    && q.seenPops <= s.seenTail <= |s.popped|
  }

  /** A step of the pipeline's queue: a push on a permitted view, a pop, or none. */
  ghost predicate PipelineStep(q: Queue, r: Queue) {
    || r == q
    || (q.waiting != [] && r == Pipeline.Dequeue(q))
    || exists x, pops :: q.seenPops <= pops <= |q.popped| && r == Pipeline.Enqueue(q, x, pops)
  }

  /** Which of them: what a push that returns true or false and a pop do. */
  ghost predicate Mirrors(q: Queue, s: State<Item>, a: Action<Item>, t: State<Item>, r: Queue) {
    match a
    case StoreHead => !s.producer.PIdle? && r.dropped == q.dropped && r.waiting == q.waiting + [s.producer.value]
    case LoadTail(_) => r.waiting == q.waiting && r.dropped == q.dropped + if t.producer.PIdle? then 1 else 0
    case StoreTail => q.waiting != [] && r == Pipeline.Dequeue(q)
    case _ => r == q
  }

  lemma StepShows(q: Queue, s: State<Item>, a: Action<Item>, t: State<Item>)
    requires Shows(q, s) && QueueStep(s, a, t)
    ensures
      var r := Moved(q, s, a, t);
      Shows(r, t) && PipelineStep(q, r) && Mirrors(q, s, a, t, r)
  {
    var r := Moved(q, s, a, t);
    if a.StoreHead? {
      assert r == Pipeline.Enqueue(q, s.producer.value, s.seenTail);
    } else if a.LoadTail? && t.producer.PIdle? {
      assert r == Pipeline.Enqueue(q, s.producer.value, a.version);
    }
  }

  lemma StepOfRun(run: seq<State<Item>>, actions: seq<Action<Item>>, k: nat)
    requires IsRun(run, actions) && k < |actions|
    ensures QueueStep(run[k], actions[k], run[k + 1])
  {
    hide Next;
    var before, prefix := run[..k + 1], actions[..k];
    assert IsRun(before, prefix) && before[|prefix|] == run[k];
    QueueRefinement(before, prefix, actions[k], run[k + 1]);
  }

  /**
   * Simulation: after every prefix of every run of the ring the queue shows its contents, and from
   * one prefix to the next it makes the step that mirrors the ring's.
   */
  lemma {:induction false} RingSimulatesQueue(run: seq<State<Item>>, actions: seq<Action<Item>>, k: nat)
    requires IsRun(run, actions) && k < |run|
    ensures Shows(Image(run, actions, k), run[k])
    ensures k < |actions| ==>
              var q, r := Image(run, actions, k), Image(run, actions, k + 1);
              PipelineStep(q, r) && Mirrors(q, run[k], actions[k], run[k + 1], r)
  {
    hide Next, Moved, Shows, PipelineStep, Mirrors, QueueStep;
    if k == 0 {
      StartShows(run, actions);
    } else {
      RingSimulatesQueue(run, actions, k - 1);
      StepOfRun(run, actions, k - 1);
      StepShows(Image(run, actions, k - 1), run[k - 1], actions[k - 1], run[k]);
    }
    if k < |actions| {
      StepOfRun(run, actions, k);
      StepShows(Image(run, actions, k), run[k], actions[k], run[k + 1]);
    }
  }

  lemma StartShows(run: seq<State<Item>>, actions: seq<Action<Item>>)
    requires IsRun(run, actions)
    ensures Shows(Image(run, actions, 0), run[0])
  {
  }
}
