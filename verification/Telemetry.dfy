/**
 * The user-space side of the telemetry (src/EbpfTelemetry.cpp) as one thread runs it: sources,
 * the ring callback, and the bounded drain after the kernel programs are detached.  The poller
 * thread and its interleavings are in module Pipeline.
 */
module Telemetry {
  import opened Shared
  import opened SpscQueue
  import opened Callback

  datatype Failure = NoFailure | InvalidArgument | SystemError | LogicError

  /** Why the drain loop stopped. */
  datatype Exit = NotRun | DeadlinePassed | RingEmpty | Cancelled | Failed

  /** An answer of the library itself, not of the callback. */
  type LibraryError = x: int | x < 0 && x != -ECANCELED witness -1

  /** A call into the library that fails once it has delivered `after` records, and what time that takes. */
  datatype Interruption = Interruption(after: nat, rc: LibraryError, ns: nat)

  /** A committed ring record and the source it was registered for. */
  datatype Pending = Pending(source: nat, data: seq<byte>)

  /** The record the callback makes of `p`, if any. */
  function Taken(sources: seq<Source>, p: Pending): seq<Record>
    requires p.source < |sources|
  {
    match Accept(sources[p.source], p.data)
    case None => []
    case Some(r) => [r]
  }

  /** The records the callback accepts among `items`, in order. */
  function Accepted(sources: seq<Source>, items: seq<Pending>): seq<Record>
    requires forall p <- items :: p.source < |sources|
  {
    if items == [] then []
    else Accepted(sources, items[..|items| - 1]) + Taken(sources, items[|items| - 1])
  }

  /** What a queue of the given capacity holds once `rs` have been pushed in turn onto `q`. */
  function Filled(q: seq<Record>, rs: seq<Record>, capacity: nat): (r: seq<Record>)
    requires |q| <= capacity
    ensures |r| == Min(capacity, |q| + |rs|) && r[..|q|] == q && r[|q|..] <= rs
  {
    q + rs[..Min(|rs|, capacity - |q|)]
  }

  lemma FilledFilled(q: seq<Record>, rs: seq<Record>, more: seq<Record>, capacity: nat)
    requires |q| <= capacity
    ensures Filled(Filled(q, rs, capacity), more, capacity) == Filled(q, rs + more, capacity)
  {
    if |q| + |rs| <= capacity {
      assert rs[..|rs|] == rs;
      var n := Min(|more|, capacity - |q| - |rs|);
      assert (rs + more)[..|rs| + n] == rs + more[..n];
    } else {
      assert (rs + more)[..capacity - |q|] == rs[..capacity - |q|];
    }
  }

  lemma NothingAccepted(sources: seq<Source>, q: seq<Record>, capacity: nat)
    requires |q| <= capacity
    ensures Filled(q, Accepted(sources, []), capacity) == q
  {
  }

  lemma AcceptedOne(sources: seq<Source>, items: seq<Pending>, p: Pending)
    requires (forall i <- items :: i.source < |sources|) && p.source < |sources|
    ensures Accepted(sources, items + [p]) == Accepted(sources, items) + Taken(sources, p)
  {
    hide Taken;
    assert (items + [p])[..|items|] == items;
  }

  /** What is in the rings, the first ring's records first. */
  function RingByRing(rings: seq<seq<seq<byte>>>): (s: seq<Pending>)
    ensures forall p <- s :: p.source < |rings|
  {
    if rings == [] then []
    else
      var i, last := |rings| - 1, rings[|rings| - 1];
      RingByRing(rings[..i]) + seq(|last|, k requires 0 <= k < |last| => Pending(i, last[k]))
  }

  lemma {:induction false} EmptyRings(rings: seq<seq<seq<byte>>>)
    requires forall j :: 0 <= j < |rings| ==> rings[j] == []
    ensures RingByRing(rings) == []
  {
    if rings != [] {
      EmptyRings(rings[..|rings| - 1]);
    }
  }

  /** The first record to be taken is the oldest of the first ring that is not empty. */
  lemma {:induction false} FirstOfRings(rings: seq<seq<seq<byte>>>, i: nat)
    requires i < |rings| && rings[i] != [] && forall j :: 0 <= j < i ==> rings[j] == []
    ensures RingByRing(rings) == [Pending(i, rings[i][0])] + RingByRing(rings[i := rings[i][1..]])
  {
    var n := |rings| - 1;
    var rest := rings[i := rings[i][1..]];
    if i == n {
      EmptyRings(rings[..n]);
      assert rest[..n] == rings[..n];
    } else {
      FirstOfRings(rings[..n], i);
      assert rest[..n] == rings[..n][i := rings[i][1..]] && rest[n] == rings[n];
    }
  }

  /** The time before the first `n` readings of the clock. */
  function Passed(passing: nat -> nat, n: nat): nat {
    if n == 0 then 0 else Passed(passing, n - 1) + passing(n - 1)
  }

  class EbpfTelemetry {
    const queue: Queue<Record>
    var sources: seq<Source>
    var hasRing: bool
    var abort: bool
    var deadlineNs: nat
    var decodeErrors: nat
    var queueDropped: nat
    var shutdownDiscarded: nat
    var pollError: int
    var started: bool
    var finished: bool

    // The kernel's side: each source's ring, oldest record first; the steady clock, with the time
    // that passes before each of its readings; and which calls into the library fail.
    var rings: seq<seq<seq<byte>>>
    const passing: nat -> nat
    const failures: nat -> Option<Interruption>
    var clock: nat
    var readings: nat
    var calls: nat
    var stalled: nat

    ghost predicate Valid()
      reads this`sources, this`hasRing, this`rings, this`pollError, queue, queue.slots
    {
      && queue.Valid()
      && |rings| == |sources| && (hasRing <==> sources != [])
      && (forall s <- sources :: s.ifindex != 0)
      && pollError != -ECANCELED
    }

    /** Time passes before readings of the clock and in failing calls, and nowhere else. */
    ghost predicate Timed()
      reads this`clock, this`readings, this`stalled
    {
      clock == Passed(passing, readings) + stalled
    }

    /** The records left in the rings, in the order a drain takes them: ring after ring. */
    ghost function Left(): (s: seq<Pending>)
      reads this`rings
      ensures forall p <- s :: p.source < |rings|
    {
      RingByRing(rings)
    }

    /** Every record is in exactly one place. */
    ghost function Total(): nat
      reads this`sources, this`hasRing, this`rings, this`pollError, queue, queue.slots
      reads this`decodeErrors, this`queueDropped, this`shutdownDiscarded
      requires Valid()
    {
      |Left()| + decodeErrors + queueDropped + shutdownDiscarded + |queue.Contents()|
    }

    constructor (queue: Queue<Record>, passing: nat -> nat, failures: nat -> Option<Interruption>)
      requires queue.Valid()
      ensures this.queue == queue && this.passing == passing && this.failures == failures
      ensures Valid() && Timed() && sources == [] && rings == []
      ensures !abort && !started && !finished && !hasRing && shutdownDiscarded == 0
    {
      this.queue, this.passing, this.failures := queue, passing, failures;
      sources, rings := [], [];
      abort, started, finished, hasRing := false, false, false, false;
      deadlineNs, decodeErrors, queueDropped, shutdownDiscarded, pollError := 0, 0, 0, 0, 0;
      clock, readings, calls, stalled := 0, 0, 0, 0;
    }

    /**
     * The source is stored before its pointer is registered, and taken back if registration fails.
     * Its ring may hold records already.
     */
    method AddSource(
      fd: int, ifindex: word32, netns: word64, session: word64, registered: bool, committed: seq<seq<byte>>)
      returns (f: Failure)
      requires Valid()
      modifies this`sources, this`hasRing, this`rings
      ensures Valid()
      ensures f == if started || finished || fd < 0 || ifindex == 0 then InvalidArgument
                   else if registered then NoFailure else SystemError
      ensures sources == old(sources) + if f.NoFailure? then [Source(ifindex, netns, session)] else []
      ensures rings == old(rings) + if f.NoFailure? then [committed] else []
      ensures hasRing == (old(hasRing) || f.NoFailure?)
    {
      if started || finished || fd < 0 || ifindex == 0 { return InvalidArgument; }
      sources := sources + [Source(ifindex, netns, session)];
      if !registered {
        sources := sources[..|sources| - 1];
        return SystemError;
      }
      hasRing := true;
      rings := rings + [committed];
      return NoFailure;
    }

    method Start() returns (f: Failure)
      modifies this`started
      ensures f == if !hasRing || old(started) || finished then LogicError else NoFailure
      ensures started == (old(started) || f.NoFailure?)
    {
      if !hasRing || started || finished { return LogicError; }
      started := true;
      return NoFailure;
    }

    /** One reading of the steady clock. */
    method NowNs() returns (now: nat)
      requires Timed()
      modifies this`clock, this`readings
      ensures now == clock == old(clock) + passing(old(readings)) && readings == old(readings) + 1
      ensures Timed()
    {
      clock := clock + passing(readings);
      readings := readings + 1;
      now := clock;
    }

    /** The ring callback: discard while shutting down, count what does not decode, queue the rest. */
    method OnEvent(source: nat, data: seq<byte>) returns (rc: int)
      requires Valid() && Timed() && source < |sources|
      modifies this`clock, this`readings, this`shutdownDiscarded, this`decodeErrors, this`queueDropped,
               queue`head, queue.slots
      ensures Valid() && Timed() && clock >= old(clock)
      ensures rc == if abort || (deadlineNs != 0 && clock >= deadlineNs) then -ECANCELED else 0
      ensures
        var r := if rc == 0 then Accept(sources[source], data) else None;
        var room := |old(queue.Contents())| < queue.Capacity();
        && shutdownDiscarded == old(shutdownDiscarded) + (if rc == 0 then 0 else 1)
        && decodeErrors == old(decodeErrors) + (if rc == 0 && r.None? then 1 else 0)
        && queueDropped == old(queueDropped) + (if r.Some? && !room then 1 else 0)
        && queue.Contents() == old(queue.Contents()) + (if r.Some? && room then [r.value] else [])
    {
      hide Accept;
      var cancelled := abort;
      if !abort && deadlineNs != 0 {
        var now := NowNs();
        cancelled := now >= deadlineNs;
      }
      if cancelled {
        shutdownDiscarded := shutdownDiscarded + 1;
        return -ECANCELED;
      }
      var r := Accept(sources[source], data);
      if r.None? {
        decodeErrors := decodeErrors + 1;
      } else {
        Enqueue(r.value);
      }
      return 0;
    }

    method Enqueue(r: Record)
      requires Valid()
      modifies this`queueDropped, queue`head, queue.slots
      ensures Valid()
      ensures
        var room := |old(queue.Contents())| < queue.Capacity();
        && queueDropped == old(queueDropped) + (if room then 0 else 1)
        && queue.Contents() == old(queue.Contents()) + (if room then [r] else [])
    {
      var ok := queue.TryPush(r);
      if !ok {
        queueDropped := queueDropped + 1;
      }
    }

    /** The kernel hands a ring's oldest record to the callback; its answer decides nothing else. */
    method DeliverNext(i: nat) returns (rc: int)
      requires Valid() && Timed() && i < |rings| && rings[i] != [] && forall j :: 0 <= j < i ==> rings[j] == []
      modifies this`rings, this`clock, this`readings, this`shutdownDiscarded, this`decodeErrors, this`queueDropped,
               queue`head, queue.slots
      ensures Valid() && Timed() && clock >= old(clock) && Total() == old(Total())
      ensures old(Left()) == [Pending(i, old(rings[i][0]))] + Left()
      ensures rc == if abort || (deadlineNs != 0 && clock >= deadlineNs) then -ECANCELED else 0
      ensures rings == old(rings)[i := old(rings[i][1..])]
      ensures shutdownDiscarded == old(shutdownDiscarded) + (if rc == 0 then 0 else 1)
      ensures queue.Contents() == if rc != 0 then old(queue.Contents())
              else Filled(old(queue.Contents()), Taken(sources, Pending(i, old(rings[i][0]))), queue.Capacity())
    {
      hide Accept, RingByRing, Queue.Contents;
      var data := rings[i][0];
      FirstOfRings(rings, i);
      rings := rings[i := rings[i][1..]];
      rc := OnEvent(i, data);
    }

    /** The library gives up; that takes some time. */
    method Fail(f: Interruption) returns (rc: LibraryError)
      requires Valid() && Timed()
      modifies this`clock, this`stalled
      ensures Valid() && Timed() && Total() == old(Total()) && clock > old(clock) && rc == f.rc
    {
      stalled := stalled + f.ns + 1;
      clock := clock + f.ns + 1;
      rc := f.rc;
    }

    /**
     * ring_buffer__consume: ring after ring, records go to the callback in commit order until none
     * is left, the callback answers negatively, or the library fails where it was bound to.
     */
    method Consume() returns (rc: int, ghost delivered: nat)
      requires Valid() && Timed()
      modifies this`rings, this`clock, this`readings, this`shutdownDiscarded, this`decodeErrors, this`queueDropped,
               this`calls, this`stalled, queue`head, queue.slots
      ensures Valid() && Timed() && clock >= old(clock) && Total() == old(Total()) && calls == old(calls) + 1
      ensures rc >= 0 ==> Left() == [] && rc == delivered == |old(Left())|
      ensures rc == -ECANCELED ==> abort || (deadlineNs != 0 && clock >= deadlineNs)
      ensures rc < 0 && rc != -ECANCELED ==>
                && failures(old(calls)).Some? && clock > old(clock)
                && rc == failures(old(calls)).value.rc && delivered == failures(old(calls)).value.after
      ensures failures(old(calls)).None? ==> stalled == old(stalled)
      ensures shutdownDiscarded == old(shutdownDiscarded) + (if rc == -ECANCELED then 1 else 0)
      ensures Moved(sources, queue.Capacity(), old(Left()), old(queue.Contents()), Left(), queue.Contents(),
                    delivered, if rc == -ECANCELED then 1 else 0)
    {
      hide Moved, Taken, Filled, Total, Queue.Contents, RingByRing, Timed;
      rc, delivered := 0, 0;
      var failure := failures(calls);
      calls := calls + 1;
      ghost var all, held := Left(), queue.Contents();
      MovedNone(sources, queue.Capacity(), all, held);
      var i := 0;
      while i < |rings|
        invariant Valid() && Timed() && clock >= old(clock) && Total() == old(Total()) && stalled == old(stalled)
        invariant calls == old(calls) + 1 && i <= |rings| && forall j :: 0 <= j < i ==> rings[j] == []
        invariant rc == delivered && shutdownDiscarded == old(shutdownDiscarded)
        invariant Moved(sources, queue.Capacity(), all, held, Left(), queue.Contents(), delivered, 0)
        decreases |Left()|, |rings| - i
      {
        if rings[i] == [] {
          i := i + 1;
          continue;
        }
        if failure.Some? && failure.value.after == rc {
          rc := Fail(failure.value);
          return;
        }
        ghost var p, contents := Pending(i, rings[i][0]), queue.Contents();
        var answer := DeliverNext(i);
        MovedOne(sources, queue.Capacity(), all, held, p, Left(), contents, delivered);
        if answer < 0 { return answer, delivered; }
        rc, delivered := rc + 1, delivered + 1;
      }
      EmptyRings(rings);
      MovedAll(sources, queue.Capacity(), all, held, queue.Contents(), delivered);
    }

    /**
     * The drain after the kernel programs are detached.  It runs unless there is nothing to do or no
     * time to do it in; it ends at its deadline, at a failing call, whose answer is kept, or when the
     * rings are empty; and before its deadline only the last two can happen.
     */
    method FinishAfterDetach(timeoutMs: int) returns (err: int, exit: Exit, ghost delivered: nat)
      requires Valid() && Timed()
      modifies this`abort, this`deadlineNs, this`finished, this`pollError,
               this`rings, this`clock, this`readings, this`shutdownDiscarded, this`decodeErrors, this`queueDropped,
               this`calls, this`stalled, queue`head, queue.slots
      ensures Valid() && Timed() && finished && err == pollError && Total() == old(Total())
      ensures exit.NotRun? <==> old(finished) || timeoutMs <= 0 || !hasRing
      ensures exit.NotRun? ==>
                && delivered == 0 && rings == old(rings) && clock == old(clock) && calls == old(calls)
                && (deadlineNs, pollError) == (old(deadlineNs), old(pollError))
                && (decodeErrors, queueDropped, shutdownDiscarded) ==
                   (old(decodeErrors), old(queueDropped), old(shutdownDiscarded))
      ensures if old(finished) then abort == old(abort) else abort
      ensures !exit.NotRun? ==>
                && deadlineNs == old(clock) + passing(old(readings)) + Min(timeoutMs, 60000) * 1000000
                && Ended(exit, old(calls), old(stalled), old(pollError))
      ensures !exit.NotRun? && clock < deadlineNs && !exit.Failed? ==>
                && Left() == [] && delivered == |old(Left())|
                && queue.Contents() ==
                   Filled(old(queue.Contents()), Accepted(sources, old(Left())), queue.Capacity())
      ensures shutdownDiscarded == old(shutdownDiscarded) + (if exit.Cancelled? then 1 else 0)
      ensures Moved(sources, queue.Capacity(), old(Left()), old(queue.Contents()), Left(), queue.Contents(),
                    delivered, if exit.Cancelled? then 1 else 0)
    {
      hide Moved, Accepted, Filled, Total, Queue.Contents, RingByRing, Timed;
      exit, delivered := NotRun, 0;
      MovedNone(sources, queue.Capacity(), Left(), queue.Contents());
      if finished { return pollError, exit, delivered; }
      abort := true;
      var ms := timeoutMs;
      if ms > 60000 { ms := 60000; }
      if ms > 0 && hasRing {
        exit, delivered := ArmAndDrain(ms);
      }
      abort := true;
      finished := true;
      err := pollError;
    }

    /** The deadline is set, the abort taken back, and the rings are drained. */
    method ArmAndDrain(ms: nat) returns (exit: Exit, ghost delivered: nat)
      requires Valid() && Timed() && ms > 0
      modifies this`abort, this`deadlineNs, this`pollError, this`rings, this`clock, this`readings,
               this`shutdownDiscarded, this`decodeErrors, this`queueDropped, this`calls, this`stalled,
               queue`head, queue.slots
      ensures Valid() && Timed() && Total() == old(Total()) && !exit.NotRun?
      ensures deadlineNs == old(clock) + passing(old(readings)) + ms * 1000000
      ensures Ended(exit, old(calls), old(stalled), old(pollError))
      ensures exit.RingEmpty? ==>
                && delivered == |old(Left())|
                && queue.Contents() ==
                   Filled(old(queue.Contents()), Accepted(sources, old(Left())), queue.Capacity())
      ensures shutdownDiscarded == old(shutdownDiscarded) + (if exit.Cancelled? then 1 else 0)
      ensures Moved(sources, queue.Capacity(), old(Left()), old(queue.Contents()), Left(), queue.Contents(),
                    delivered, if exit.Cancelled? then 1 else 0)
    {
      hide Moved, Accepted, Filled, Total, Queue.Contents, RingByRing, Timed;
      ghost var all, held := Left(), queue.Contents();
      var now := NowNs();
      deadlineNs := now + ms * 1000000;
      abort := false;
      exit, delivered := Drain();
      if exit.RingEmpty? {
        MovedAll(sources, queue.Capacity(), all, held, queue.Contents(), delivered);
      }
    }

    /** How a drain that began with these values can have ended. */
    ghost predicate Ended(exit: Exit, calls0: nat, stalled0: nat, pollError0: int)
      reads this`rings, this`clock, this`deadlineNs, this`calls, this`stalled, this`pollError
    {
      && calls0 <= calls
      && (exit.RingEmpty? ==> Left() == [])
      && (exit.DeadlinePassed? || exit.Cancelled? ==> clock >= deadlineNs)
      && (if exit.Failed? then
            && calls > calls0 && failures(calls - 1).Some?
            && pollError == failures(calls - 1).value.rc != -EINTR
          else pollError == pollError0)
      && ((forall i :: calls0 <= i < calls ==> failures(i).None?) ==> stalled == stalled0)
    }

    /** The drain loop, which the deadline and the contents of the rings bound. */
    method Drain() returns (exit: Exit, ghost delivered: nat)
      requires Valid() && Timed() && !abort && deadlineNs > 0
      modifies this`pollError, this`rings, this`clock, this`readings, this`shutdownDiscarded, this`decodeErrors,
               this`queueDropped, this`calls, this`stalled, queue`head, queue.slots
      ensures Valid() && Timed() && Total() == old(Total()) && !exit.NotRun?
      ensures Ended(exit, old(calls), old(stalled), old(pollError))
      ensures shutdownDiscarded == old(shutdownDiscarded) + (if exit.Cancelled? then 1 else 0)
      ensures Moved(sources, queue.Capacity(), old(Left()), old(queue.Contents()), Left(), queue.Contents(),
                    delivered, if exit.Cancelled? then 1 else 0)
    {
      hide Moved, Total, Queue.Contents, RingByRing, Timed;
      delivered := 0;
      ghost var all, held := Left(), queue.Contents();
      MovedNone(sources, queue.Capacity(), all, held);
      exit := NotRun;
      while exit.NotRun?
        invariant Valid() && Timed() && Total() == old(Total())
        invariant Ended(exit, old(calls), old(stalled), old(pollError))
        invariant shutdownDiscarded == old(shutdownDiscarded) + (if exit.Cancelled? then 1 else 0)
        invariant Moved(sources, queue.Capacity(), all, held, Left(), queue.Contents(),
                        delivered, if exit.Cancelled? then 1 else 0)
        decreases exit.NotRun?, if clock < deadlineNs then deadlineNs - clock else 0, |Left()|
      {
        ghost var left, contents := Left(), queue.Contents();
        ghost var n: nat;
        exit, n := DrainOnce();
        MovedMoved(sources, queue.Capacity(), all, held, left, contents, Left(), queue.Contents(),
                   delivered, n, if exit.Cancelled? then 1 else 0);
        delivered := delivered + n;
      }
    }

    /** One turn of the drain loop; NotRun means that the loop goes round again. */
    method DrainOnce() returns (exit: Exit, ghost n: nat)
      requires Valid() && Timed() && !abort && deadlineNs > 0
      modifies this`pollError, this`rings, this`clock, this`readings, this`shutdownDiscarded, this`decodeErrors,
               this`queueDropped, this`calls, this`stalled, queue`head, queue.slots
      ensures Valid() && Timed() && Total() == old(Total())
      ensures Ended(exit, old(calls), old(stalled), old(pollError))
      // going round again costs time or a record
      ensures exit.NotRun? ==>
                clock >= old(clock) && old(clock) < deadlineNs && (clock > old(clock) || |Left()| < |old(Left())|)
      ensures shutdownDiscarded == old(shutdownDiscarded) + (if exit.Cancelled? then 1 else 0)
      ensures Moved(sources, queue.Capacity(), old(Left()), old(queue.Contents()), Left(), queue.Contents(),
                    n, if exit.Cancelled? then 1 else 0)
    {
      hide Moved, Total, Queue.Contents, RingByRing, Timed;
      n := 0;
      MovedNone(sources, queue.Capacity(), Left(), queue.Contents());
      var now := NowNs();
      if now >= deadlineNs { return DeadlinePassed, n; }
      var rc;
      rc, n := Consume();
      if rc == -EINTR { return NotRun, n; }
      if rc == -ECANCELED { return Cancelled, n; }
      if rc == 0 { return RingEmpty, n; }
      if rc < 0 {
        StorePollError(rc);
        return Failed, n;
      }
      return NotRun, n;
    }

    method StorePollError(rc: int)
      requires Valid() && rc != -ECANCELED
      modifies this`pollError
      ensures Valid() && pollError == rc && Total() == old(Total())
    {
      pollError := rc;
    }

    method TryPop() returns (r: Option<Record>)
      requires Valid()
      modifies queue`tail
      ensures Valid()
      ensures r.None? <==> old(queue.Contents()) == []
      ensures if r.Some? then old(queue.Contents()) == [r.value] + queue.Contents()
              else queue.Contents() == old(queue.Contents())
    {
      r := queue.TryPop();
    }
  }

  lemma {:induction false} AcceptedSplit(sources: seq<Source>, a: seq<Pending>, b: seq<Pending>)
    requires (forall p <- a :: p.source < |sources|) && forall p <- b :: p.source < |sources|
    ensures Accepted(sources, a + b) == Accepted(sources, a) + Accepted(sources, b)
  {
    hide Taken;
    if b == [] {
      assert a + b == a;
    } else {
      assert (a + b)[..|a + b| - 1] == a + b[..|b| - 1];
      AcceptedSplit(sources, a, b[..|b| - 1]);
    }
  }

  /**
   * Of the records `before`, the first `delivered` went to the callback, which pushed those it
   * accepts onto a queue that held `held`; `lost` more were discarded; `after` are left.
   */
  ghost predicate Moved(
    sources: seq<Source>, capacity: nat, before: seq<Pending>, held: seq<Record>,
    after: seq<Pending>, contents: seq<Record>, delivered: nat, lost: nat)
  {
    && (forall p <- before :: p.source < |sources|) && |held| <= capacity
    && delivered + lost <= |before| && after == before[delivered + lost..]
    && contents == Filled(held, Accepted(sources, before[..delivered]), capacity)
  }

  lemma MovedNone(sources: seq<Source>, capacity: nat, all: seq<Pending>, held: seq<Record>)
    requires (forall p <- all :: p.source < |sources|) && |held| <= capacity
    ensures Moved(sources, capacity, all, held, all, held, 0, 0)
  {
    NothingAccepted(sources, held, capacity);
    assert all[..0] == [];
  }

  lemma MovedOne(
    sources: seq<Source>, capacity: nat, all: seq<Pending>, held: seq<Record>,
    p: Pending, rest: seq<Pending>, contents: seq<Record>, n: nat)
    requires Moved(sources, capacity, all, held, [p] + rest, contents, n, 0)
    ensures p.source < |sources| && |contents| <= capacity
    ensures Moved(sources, capacity, all, held, rest, contents, n, 1)
    ensures Moved(sources, capacity, all, held, rest, Filled(contents, Taken(sources, p), capacity), n + 1, 0)
  {
    hide Taken, Accepted, Filled;
    assert |all[n..]| == 1 + |rest| && all[n] == all[n..][0] == p && all[n + 1..] == all[n..][1..] == rest;
    assert all[..n + 1] == all[..n] + [p] && p in all;
    AcceptedOne(sources, all[..n], p);
    FilledFilled(held, Accepted(sources, all[..n]), Taken(sources, p), capacity);
  }

  lemma MovedAll(
    sources: seq<Source>, capacity: nat, all: seq<Pending>, held: seq<Record>, contents: seq<Record>, n: nat)
    requires Moved(sources, capacity, all, held, [], contents, n, 0)
    ensures n == |all| && contents == Filled(held, Accepted(sources, all), capacity)
  {
    assert all[..|all|] == all;
  }

  lemma MovedMoved(
    sources: seq<Source>, capacity: nat, all: seq<Pending>, held: seq<Record>,
    left: seq<Pending>, contents: seq<Record>, after: seq<Pending>, contents': seq<Record>, n: nat, m: nat, lost: nat)
    requires Moved(sources, capacity, all, held, left, contents, n, 0)
    requires Moved(sources, capacity, left, contents, after, contents', m, lost)
    ensures Moved(sources, capacity, all, held, after, contents', n + m, lost)
  {
    hide Taken, Accepted, Filled;
    var a, b := all[..n], left[..m];
    assert a + b == all[..n + m];
    AcceptedSplit(sources, a, b);
    FilledFilled(held, Accepted(sources, a), Accepted(sources, b), capacity);
  }
}
