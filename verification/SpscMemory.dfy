/**
 * The same ring with both threads running, under release/acquire memory (inc/SpscQueue.hpp).
 *
 * Each index is an atomic with a modification order.  A load by the other thread returns any store
 * not older than the last one it saw, and makes visible the slot accesses that preceded that store.
 * Slot accesses are plain: a read that overlaps a write of the same slot returns anything, and
 * otherwise any write that visibility does not rule out.
 */
module SpscMemory {
  import opened Arithmetic

  /** An atomic store: the index it writes and how many slot accesses of its thread precede it. */
  datatype Store = Store(index: nat, published: nat)

  datatype Write<T> = Write(slot: nat, value: T)

  datatype Producer<T> =
    | PIdle
    | PLoaded(value: T, head: nat)     // own index loaded
    | PRoom(value: T, head: nat)       // the other index does not show a full ring
    | PWriting(value: T, head: nat)    // slot write in progress
    | PWritten(value: T, head: nat)    // slot written, index not stored

  datatype Consumer<T> =
    | CIdle
    | CLoaded(tail: nat)
    | CItem(tail: nat)                 // the other index does not show an empty ring
    | CReading(tail: nat)              // slot read in progress
    | CRead(tail: nat, value: T)       // slot read, index not stored

  datatype State<T> = State(
    size: nat,                         // number of slots, one more than the capacity
    heads: seq<Store>, tails: seq<Store>,
    seenHead: nat, seenTail: nat,      // the newest store each thread has seen of the other's index
    written: seq<Write<T>>, loaded: seq<nat>,
    producer: Producer<T>, consumer: Consumer<T>,
    pushed: seq<T>, popped: seq<T>)    // values of the calls that returned true

  datatype Action<T> =
    | StartPush(value: T)
    | LoadTail(version: nat)
    | BeginWrite
    | EndWrite
    | StoreHead
    | StartPop
    | LoadHead(version: nat)
    | BeginRead
    | EndRead(value: T)
    | StoreTail

  function NextSlot(size: nat, i: nat): nat {
    if i + 1 == size then 0 else i + 1
  }

  ghost predicate Init<T>(s: State<T>) {
    && s.size >= 2
    && s == State(s.size, [Store(0, 0)], [Store(0, 0)], 0, 0, [], [], PIdle, CIdle, [], [])
  }

  /** The consumer's read of `tail` may return `v`. */
  ghost predicate MayRead<T(!new)>(s: State<T>, tail: nat, v: T)
    requires s.seenHead < |s.heads|
  {
    var seen := s.heads[s.seenHead].published;
    || (s.producer.PWriting? && s.producer.head == tail)
    || (forall m :: 0 <= m < |s.written| && m < seen ==> s.written[m].slot != tail)
    || exists k :: 0 <= k < |s.written| && s.written[k].slot == tail && s.written[k].value == v
                   && forall m :: k < m < |s.written| && m < seen ==> s.written[m].slot != tail
  }

  ghost predicate Next<T(!new)>(s: State<T>, a: Action<T>, t: State<T>) {
    && |s.heads| > 0 && |s.tails| > 0 && s.seenHead < |s.heads|
    && match a
       case StartPush(v) =>
         s.producer.PIdle? && t == s.(producer := PLoaded(v, s.heads[|s.heads| - 1].index))
       case LoadTail(j) =>
         && s.producer.PLoaded? && s.seenTail <= j < |s.tails|
         && t == s.(seenTail := j,
                    producer := if NextSlot(s.size, s.producer.head) == s.tails[j].index then PIdle
                                else PRoom(s.producer.value, s.producer.head))
       case BeginWrite =>
         s.producer.PRoom? && t == s.(producer := PWriting(s.producer.value, s.producer.head))
       case EndWrite =>
         && s.producer.PWriting?
         && t == s.(producer := PWritten(s.producer.value, s.producer.head),
                    written := s.written + [Write(s.producer.head, s.producer.value)])
       case StoreHead =>
         && s.producer.PWritten?
         && t == s.(producer := PIdle, pushed := s.pushed + [s.producer.value],
                    heads := s.heads + [Store(NextSlot(s.size, s.producer.head), |s.written|)])
       case StartPop =>
         s.consumer.CIdle? && t == s.(consumer := CLoaded(s.tails[|s.tails| - 1].index))
       case LoadHead(j) =>
         && s.consumer.CLoaded? && s.seenHead <= j < |s.heads|
         && t == s.(seenHead := j,
                    consumer := if s.consumer.tail == s.heads[j].index then CIdle else CItem(s.consumer.tail))
       case BeginRead =>
         s.consumer.CItem? && t == s.(consumer := CReading(s.consumer.tail))
       case EndRead(v) =>
         && s.consumer.CReading? && MayRead(s, s.consumer.tail, v)
         && t == s.(consumer := CRead(s.consumer.tail, v), loaded := s.loaded + [s.consumer.tail])
       case StoreTail =>
         && s.consumer.CRead?
         && t == s.(consumer := CIdle, popped := s.popped + [s.consumer.value],
                    tails := s.tails + [Store(NextSlot(s.size, s.consumer.tail), |s.loaded|)])
  }

  ghost predicate IsRun<T(!new)>(run: seq<State<T>>, actions: seq<Action<T>>) {
    && |run| == |actions| + 1 && Init(run[0])
    && forall k :: 0 <= k < |actions| ==> Next(run[k], actions[k], run[k + 1])
  }

  // --- The invariant ----------------------------------------------------------------------------

  ghost function PushCount<T>(s: State<T>): nat { |s.pushed| }
  ghost function PopCount<T>(s: State<T>): nat { |s.popped| }

  /** Store number `j` of an index holds `j` modulo the size and publishes `j` accesses. */
  ghost predicate Counts(stores: seq<Store>, size: nat, n: nat)
    requires size > 0
  {
    |stores| == n + 1 && forall j :: 0 <= j <= n ==> stores[j] == Store(j % size, j)
  }

  ghost predicate SlotsOk<T(!new)>(s: State<T>)
    requires s.size > 0
  {
    && |s.written| == PushCount(s) + (if s.producer.PWritten? then 1 else 0)
    && |s.loaded| == PopCount(s) + (if s.consumer.CRead? then 1 else 0)
    && (forall k :: 0 <= k < |s.written| ==> s.written[k].slot == k % s.size)
    && (forall k :: 0 <= k < |s.loaded| ==> s.loaded[k] == k % s.size)
    && (forall k :: 0 <= k < PushCount(s) ==> s.written[k].value == s.pushed[k])
    && PopCount(s) <= PushCount(s) && s.popped == s.pushed[..PopCount(s)]
  }

  ghost predicate ProducerOk<T>(s: State<T>)
    requires s.size > 0
  {
    && s.seenTail <= PopCount(s) && PushCount(s) < s.seenTail + s.size
    && (!s.producer.PIdle? ==> s.producer.head == PushCount(s) % s.size)
    && (!s.producer.PIdle? && !s.producer.PLoaded? ==> PushCount(s) + 1 < s.seenTail + s.size)
    && (s.producer.PWritten? ==> |s.written| == PushCount(s) + 1 && s.written[PushCount(s)].value == s.producer.value)
  }

  ghost predicate ConsumerOk<T>(s: State<T>)
    requires s.size > 0
  {
    && PopCount(s) <= s.seenHead <= PushCount(s)
    && (!s.consumer.CIdle? ==> s.consumer.tail == PopCount(s) % s.size)
    && (!s.consumer.CIdle? && !s.consumer.CLoaded? ==> PopCount(s) < s.seenHead)
    && (s.consumer.CRead? ==> PopCount(s) < PushCount(s) && s.consumer.value == s.pushed[PopCount(s)])
  }

  ghost predicate Inv<T(!new)>(s: State<T>) {
    && s.size >= 2
    && Counts(s.heads, s.size, PushCount(s)) && Counts(s.tails, s.size, PopCount(s))
    && SlotsOk(s) && ProducerOk(s) && ConsumerOk(s)
  }

  /** The only write the consumer's read can return is the one that was published to it. */
  lemma ReadsPublishedWrite<T(!new)>(s: State<T>, v: T)
    requires Inv(s) && s.consumer.CReading? && MayRead(s, s.consumer.tail, v)
    ensures v == s.pushed[PopCount(s)]
  {
    var n, tail := PopCount(s), s.consumer.tail;
    assert s.written[n].slot == tail;
    if s.producer.PWriting? && s.producer.head == tail {
      SameRemainder(s.size, n, PushCount(s));
    } else {
      var k :| 0 <= k < |s.written| && s.written[k].slot == tail && s.written[k].value == v
               && forall m :: k < m < |s.written| && m < s.seenHead ==> s.written[m].slot != tail;
      if k > n {
        SameRemainder(s.size, n, k);
      }
    }
  }

  lemma ProducerStep<T(!new)>(s: State<T>, a: Action<T>, t: State<T>)
    requires Inv(s) && Next(s, a, t)
    requires a.StartPush? || a.LoadTail? || a.BeginWrite? || a.EndWrite? || a.StoreHead?
    ensures Inv(t)
  {
    match a
    case LoadTail(j) =>
      FullView(s, j);
    case StoreHead =>
      NextRemainder(s.size, PushCount(s));
    case _ =>
  }

  /** A view that shows `capacity` items is a view on which the push fails, and the only one. */
  lemma FullView<T(!new)>(s: State<T>, j: nat)
    requires Inv(s) && s.producer.PLoaded? && s.seenTail <= j < |s.tails|
    ensures NextSlot(s.size, s.producer.head) == s.tails[j].index <==> PushCount(s) - j == s.size - 1
  {
    NextRemainder(s.size, PushCount(s));
    RingFull(s.size, j, PushCount(s));
  }

  lemma EmptyView<T(!new)>(s: State<T>, j: nat)
    requires Inv(s) && s.consumer.CLoaded? && s.seenHead <= j < |s.heads|
    ensures s.consumer.tail == s.heads[j].index <==> j == PopCount(s)
  {
    if PopCount(s) % s.size == j % s.size {
      SameRemainder(s.size, PopCount(s), j);
    }
  }

  lemma StoreTailStep<T(!new)>(s: State<T>, t: State<T>)
    requires Inv(s) && Next(s, StoreTail, t)
    ensures Inv(t)
  {
    NextRemainder(s.size, PopCount(s));
    assert s.pushed[..PopCount(s) + 1] == s.pushed[..PopCount(s)] + [s.pushed[PopCount(s)]];
  }

  lemma ConsumerStep<T(!new)>(s: State<T>, a: Action<T>, t: State<T>)
    requires Inv(s) && Next(s, a, t)
    requires a.StartPop? || a.LoadHead? || a.BeginRead? || a.EndRead? || a.StoreTail?
    ensures Inv(t)
  {
    match a
    case LoadHead(j) => EmptyView(s, j);
    case EndRead(v) => ReadsPublishedWrite(s, v);
    case StoreTail => StoreTailStep(s, t);
    case _ =>
  }

  lemma {:induction false} RunKeepsInv<T(!new)>(run: seq<State<T>>, actions: seq<Action<T>>)
    requires IsRun(run, actions)
    ensures Inv(run[|actions|])
  {
    if actions != [] {
      var k := |actions| - 1;
      RunKeepsInv(run[..k + 1], actions[..k]);
      var a := actions[k];
      if a.StartPush? || a.LoadTail? || a.BeginWrite? || a.EndWrite? || a.StoreHead? {
        ProducerStep(run[k], a, run[k + 1]);
      } else {
        ConsumerStep(run[k], a, run[k + 1]);
      }
    }
  }

  // --- What the queue promises in every run -----------------------------------------------------

  /** FIFO: the popped values are a prefix of the pushed ones, and never more than the capacity wait. */
  lemma FifoRefinement<T(!new)>(run: seq<State<T>>, actions: seq<Action<T>>)
    requires IsRun(run, actions)
    ensures
      var s := run[|actions|];
      s.popped <= s.pushed && |s.pushed| <= |s.popped| + (s.size - 1)
  {
    RunKeepsInv(run, actions);
  }

  /** Every conflicting pair of slot accesses is ordered by an acquire that saw the release behind it. */
  lemma RaceFreedom<T(!new)>(run: seq<State<T>>, actions: seq<Action<T>>)
    requires IsRun(run, actions)
    ensures
      var s := run[|actions|];
      && !(s.producer.PWriting? && s.consumer.CReading? && s.producer.head == s.consumer.tail)
      && s.seenTail < |s.tails| && s.seenHead < |s.heads|
      && (s.producer.PRoom? || s.producer.PWriting? ==>
            forall k :: s.tails[s.seenTail].published <= k < |s.loaded| ==> s.loaded[k] != s.producer.head)
      && (s.consumer.CItem? || s.consumer.CReading? ==>
            forall k :: s.heads[s.seenHead].published <= k < |s.written| ==> s.written[k].slot != s.consumer.tail)
  {
    RunKeepsInv(run, actions);
    var s := run[|actions|];
    if s.producer.PRoom? || s.producer.PWriting? {
      forall k | s.tails[s.seenTail].published <= k < |s.loaded|
        ensures s.loaded[k] != s.producer.head
      {
        if s.loaded[k] == s.producer.head {
          SameRemainder(s.size, k, PushCount(s));
        }
      }
    }
    if s.consumer.CItem? || s.consumer.CReading? {
      forall k | s.heads[s.seenHead].published <= k < |s.written|
        ensures s.written[k].slot != s.consumer.tail
      {
        if s.written[k].slot == s.consumer.tail {
          SameRemainder(s.size, PopCount(s), k);
        }
      }
      if s.producer.PWriting? && s.consumer.CReading? && s.producer.head == s.consumer.tail {
        SameRemainder(s.size, PopCount(s), PushCount(s));
      }
    }
  }

  /** A push fails exactly when the tail it loaded leaves `capacity` items; a pop, when none is left. */
  lemma ExactOutcomes<T(!new)>(run: seq<State<T>>, actions: seq<Action<T>>, a: Action<T>, t: State<T>)
    requires IsRun(run, actions) && Next(run[|actions|], a, t)
    ensures a.LoadTail? ==> (t.producer.PIdle? <==> |t.pushed| - a.version == t.size - 1)
    ensures a.LoadHead? ==> (t.consumer.CIdle? <==> a.version == |t.popped|)
  {
    RunKeepsInv(run, actions);
    if a.LoadTail? {
      FullView(run[|actions|], a.version);
    } else if a.LoadHead? {
      EmptyView(run[|actions|], a.version);
    }
  }

  /** Pushed and not popped yet. */
  ghost function Waiting<T>(s: State<T>): seq<T>
    requires |s.popped| <= |s.pushed|
  {
    s.pushed[|s.popped|..]
  }

  /** What one step does to the waiting and the popped values, and to the producer's view. */
  ghost predicate QueueStep<T(!new)>(s: State<T>, a: Action<T>, t: State<T>) {
    && |s.popped| <= |s.pushed| && |t.popped| <= |t.pushed|
    && s.seenTail <= t.seenTail <= |t.popped| && t.size == s.size
    && match a
       case StoreHead =>
         && s.producer.PWritten? && Waiting(t) == Waiting(s) + [s.producer.value] && t.popped == s.popped
         && t.seenTail == s.seenTail && |s.popped| + |Waiting(s)| - s.seenTail < s.size - 1
       case StoreTail =>
         && Waiting(s) != [] && t.popped == s.popped + [Waiting(s)[0]] && Waiting(t) == Waiting(s)[1..]
         && t.seenTail == s.seenTail
       case LoadTail(pops) =>
         && s.producer.PLoaded? && Waiting(t) == Waiting(s) && t.popped == s.popped && t.seenTail == pops
         && (t.producer.PIdle? <==> |s.popped| + |Waiting(s)| - pops == s.size - 1)
       case _ => Waiting(t) == Waiting(s) && t.popped == s.popped && t.seenTail == s.seenTail
  }

  lemma StepRefines<T(!new)>(s: State<T>, a: Action<T>, t: State<T>)
    requires Inv(s) && Next(s, a, t)
    ensures QueueStep(s, a, t)
  {
    if a.LoadTail? {
      FullView(s, a.version);
    }
  }

  /**
   * Seen from outside the queue is a bounded sequence: storing the head appends the value, storing
   * the tail removes the oldest, and no other step is visible; a push appends or is refused by the
   * number of pops it last saw.
   */
  lemma QueueRefinement<T(!new)>(run: seq<State<T>>, actions: seq<Action<T>>, a: Action<T>, t: State<T>)
    requires IsRun(run, actions) && Next(run[|actions|], a, t)
    ensures QueueStep(run[|actions|], a, t)
  {
    RunKeepsInv(run, actions);
    StepRefines(run[|actions|], a, t);
  }
}
