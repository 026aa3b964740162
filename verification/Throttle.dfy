/**
 * The write throttle of the Redis store (src/RedisPacketStore.cpp, lines 58 to 206): a slot count
 * and a shutdown flag under one mutex, with one condition variable that Store calls and the
 * destructor both wait on.
 *
 * The critical sections come first, as functions and as the methods of a class; then a transition
 * system in which any number of Store calls, their completions and the destructor interleave, each
 * with its own position, the mutex explicit, and waiting threads either woken or not.
 */
module Throttle {
  import opened Shared
  import opened Counting

  // --- Critical sections ------------------------------------------------------------------------

  /** What the mutex protects. */
  datatype Gate = Gate(pending: nat, accepting: bool)

  datatype Reservation = Wait | Refuse | Grant

  /** One evaluation of the wait predicate of ReservePendingWriteSlot and what follows it. */
  function Reserve(max: nat, g: Gate): Reservation {
    if !(g.pending < max || !g.accepting) then Wait else if !g.accepting then Refuse else Grant
  }

  function AfterReserve(max: nat, g: Gate): Gate {
    if Reserve(max, g).Grant? then g.(pending := g.pending + 1) else g
  }

  function AfterComplete(g: Gate): Gate {
    if g.pending > 0 then g.(pending := g.pending - 1) else g
  }

  class PendingWrites {
    const max: nat
    var pending: nat
    var accepting: bool
    // how many stores were accepted and how many of them have completed
    ghost var accepted: nat
    ghost var completed: nat

    ghost predicate Valid() reads this { pending <= max && accepted == completed + pending }
    ghost function View(): Gate reads this { Gate(pending, accepting) }

    constructor (max: nat)
      requires max > 0
      ensures Valid() && this.max == max && View() == Gate(0, true) && accepted == 0
    {
      this.max, pending, accepting := max, 0, true;
      accepted, completed := 0, 0;
    }

    /** The store is not made when it is configured without a single slot. */
    static method Make(max: nat) returns (r: Option<PendingWrites>)
      ensures r.Some? <==> max > 0
      ensures r.Some? ==> fresh(r.value) && r.value.Valid() && r.value.max == max && r.value.View() == Gate(0, true)
    {
      if max == 0 {
        return None;
      }
      var p := new PendingWrites(max);
      return Some(p);
    }

    /** One pass under the lock: a slot is taken only while accepting and below the limit. */
    method TryReserve() returns (r: Reservation)
      requires Valid()
      modifies this
      ensures Valid() && r == Reserve(max, old(View())) && View() == AfterReserve(max, old(View()))
      ensures r == Grant <==> old(accepting) && old(accepted - completed) < max
      ensures r == Refuse <==> !old(accepting)
      ensures accepted == old(accepted) + (if r == Grant then 1 else 0) && completed == old(completed)
    {
      if !(pending < max || !accepting) {
        return Wait;
      }
      if !accepting {
        return Refuse;
      }
      pending := pending + 1;
      accepted := accepted + 1;
      return Grant;
    }

    /** One accepted store has completed, if one was open. */
    method Complete()
      requires Valid()
      modifies this
      ensures Valid() && View() == AfterComplete(old(View())) && accepted == old(accepted)
      ensures completed == old(completed) + (if old(completed < accepted) then 1 else 0)
    {
      if pending > 0 {
        pending := pending - 1;
        completed := completed + 1;
      }
    }

    method StopAccepting()
      requires Valid()
      modifies this
      ensures Valid() && View() == old(View()).(accepting := false)
      ensures accepted == old(accepted) && completed == old(completed)
    {
      accepting := false;
    }

    /** The drain predicate holds exactly when every accepted store has completed. */
    method IsDrained() returns (r: bool)
      requires Valid()
      ensures r <==> completed == accepted
    {
      return pending == 0;
    }

    /** One pass of the drain's wait: its result, or None to wait on. */
    method DrainPass(timedOut: bool) returns (drained: Option<bool>)
      requires Valid()
      ensures drained == Some(true) <==> completed == accepted
      ensures drained == Some(false) <==> timedOut && completed < accepted
    {
      var empty := IsDrained();
      if empty || timedOut {
        return Some(empty);
      }
      return None;
    }
  }

  // --- Threads ----------------------------------------------------------------------------------

  /** Where a Store call and the write it starts are, or where the destructor is. */
  datatype Pc =
    // Store and ReservePendingWriteSlot
    | Entering                       // wants the mutex
    | Testing                        // holds it, about to evaluate the predicate
    | Waiting(woken: bool)           // in pending_cv_.wait, mutex released
    | Refused                        // holds the mutex, about to return false
    | Dropped
    | Granted                        // holds the mutex, slot counted
    // the write, on the caller's thread and then on the I/O thread
    | Posting
    | Posted
    | Executing
    | Awaiting
    // CompletePendingWrite
    | Finishing                      // wants the mutex
    | Releasing                      // holds it, slot still counted
    | Released                       // holds it, slot given back
    | Notifying                      // mutex released, about to notify_all
    | Completed
    // the destructor and WaitForPendingWrites
    | Destroying                     // wants the mutex
    | Closing                        // holds it, flag still set
    | Closed                         // holds it, flag cleared
    | Announcing                     // mutex released, about to notify_all
    | DrainEntering                  // wants the mutex
    | DrainTesting(timedOut: bool)   // holds it, about to evaluate the predicate
    | DrainWaiting(woken: bool, timedOut: bool)
    | DrainLeaving(drained: bool)    // holds it, result known
    | Destroyed(drained: bool)

  predicate HoldsLock(pc: Pc) {
    pc.Testing? || pc.Refused? || pc.Granted? || pc.Releasing? || pc.Released?
    || pc.Closing? || pc.Closed? || pc.DrainTesting? || pc.DrainLeaving?
  }

  /** Accepted, and its slot not given back yet. */
  predicate HoldsSlot(pc: Pc) {
    pc.Granted? || pc.Posting? || pc.Posted? || pc.Executing? || pc.Awaiting? || pc.Finishing? || pc.Releasing?
  }

  predicate HasCompleted(pc: Pc) { pc.Released? || pc.Notifying? || pc.Completed? }
  predicate HasAccepted(pc: Pc) { HoldsSlot(pc) || HasCompleted(pc) }

  /** Has changed what the mutex protects and has not yet notified. */
  predicate OwesNotify(pc: Pc) { pc.Released? || pc.Notifying? || pc.Closed? || pc.Announcing? }
  /** Between releasing the mutex and notify_all. */
  predicate AboutToNotify(pc: Pc) { pc.Notifying? || pc.Announcing? }

  predicate IsDestructor(pc: Pc) {
    pc.Destroying? || pc.Closing? || HasClosed(pc)
  }

  predicate HasClosed(pc: Pc) {
    pc.Closed? || pc.Announcing? || pc.DrainEntering? || pc.DrainTesting?
    || pc.DrainWaiting? || pc.DrainLeaving? || pc.Destroyed?
  }

  predicate Finished(pc: Pc) { pc.Dropped? || pc.Completed? || pc.Destroyed? }

  /** In a wait on the condition variable, not woken. */
  predicate Asleep(pc: Pc) { (pc.Waiting? || pc.DrainWaiting?) && !pc.woken }

  /** The predicate the sleeper waits for. */
  predicate Wanted(max: nat, g: Gate, pc: Pc) {
    if pc.Waiting? then g.pending < max || !g.accepting else g.pending == 0
  }

  // --- Steps ------------------------------------------------------------------------------------

  datatype State = State(lock: Option<nat>, gate: Gate, threads: seq<Pc>)

  const INIT := State(None, Gate(0, true), [])

  datatype Action =
    | Call                        // another Store call begins
    | Destroy                     // the destructor begins
    | Run(i: nat, throws: bool)   // a thread's own next step; `throws` is post's or async_exec's outcome
    | Spurious(i: nat)
    | TimeOut(i: nat)             // wait_for reaches its time limit

  datatype Local = Local(pc: Pc, gate: Gate)

  /** A thread's own step, on what the mutex protects. */
  function Move(max: nat, pc: Pc, g: Gate, throws: bool): Local
    requires !Asleep(pc) && !Finished(pc)
  {
    match pc
    case Entering => Local(Testing, g)
    case Testing =>
      Local(match Reserve(max, g) case Wait => Waiting(false) case Refuse => Refused case Grant => Granted,
            AfterReserve(max, g))
    case Waiting(_) => Local(Testing, g)
    case Refused => Local(Dropped, g)
    case Granted => Local(Posting, g)
    case Posting => Local(if throws then Finishing else Posted, g)
    case Posted => Local(Executing, g)
    case Executing => Local(if throws then Finishing else Awaiting, g)
    case Awaiting => Local(Finishing, g)
    case Finishing => Local(Releasing, g)
    case Releasing => Local(Released, AfterComplete(g))
    case Released => Local(Notifying, g)
    case Notifying => Local(Completed, g)
    case Destroying => Local(Closing, g)
    case Closing => Local(Closed, g.(accepting := false))
    case Closed => Local(Announcing, g)
    case Announcing => Local(DrainEntering, g)
    case DrainEntering => Local(DrainTesting(false), g)
    case DrainTesting(timedOut) =>
      Local(if g.pending == 0 then DrainLeaving(true)
            else if timedOut then DrainLeaving(false)
            else DrainWaiting(false, false), g)
    case DrainWaiting(_, timedOut) => Local(DrainTesting(timedOut), g)
    case DrainLeaving(drained) => Local(Destroyed(drained), g)
  }

  function Awake(pc: Pc): Pc {
    if Asleep(pc) then pc.(woken := true) else pc
  }

  function WakeAll(threads: seq<Pc>): seq<Pc> {
    seq(|threads|, i requires 0 <= i < |threads| => Awake(threads[i]))
  }

  ghost predicate Next(max: nat, s: State, a: Action, t: State) {
    match a
    case Call => t == s.(threads := s.threads + [Entering])
    case Destroy => (forall pc <- s.threads :: !IsDestructor(pc)) && t == s.(threads := s.threads + [Destroying])
    case Spurious(i) =>
      i < |s.threads| && Asleep(s.threads[i]) && t == s.(threads := s.threads[i := Awake(s.threads[i])])
    case TimeOut(i) =>
      i < |s.threads| && s.threads[i].DrainWaiting? && t == s.(threads := s.threads[i := DrainWaiting(true, true)])
    case Run(i, throws) =>
      && CanRun(max, s, i, throws)
      && var pc := s.threads[i];
      var m := Move(max, pc, s.gate, throws);
      t == State(
        if HoldsLock(m.pc) then Some(i) else if HoldsLock(pc) then None else s.lock,
        m.gate,
        (if AboutToNotify(pc) then WakeAll(s.threads) else s.threads)[i := m.pc])
  }

  /** A step into a position that holds the mutex from one that does not needs the mutex free. */
  predicate CanRun(max: nat, s: State, i: nat, throws: bool) {
    && i < |s.threads| && !Asleep(s.threads[i]) && !Finished(s.threads[i])
    && (HoldsLock(Move(max, s.threads[i], s.gate, throws).pc) && !HoldsLock(s.threads[i]) ==> s.lock.None?)
  }

  ghost predicate IsRun(max: nat, run: seq<State>, actions: seq<Action>) {
    && max > 0 && |run| == |actions| + 1 && run[0] == INIT
    && forall k :: 0 <= k < |actions| ==> Next(max, run[k], actions[k], run[k + 1])
  }

  // --- Invariant --------------------------------------------------------------------------------

  ghost predicate LockInv(s: State) {
    && (forall i :: 0 <= i < |s.threads| ==> (HoldsLock(s.threads[i]) <==> s.lock == Some(i)))
    && (s.lock.Some? ==> s.lock.value < |s.threads|)
  }

  ghost predicate SlotInv(max: nat, s: State) {
    s.gate.pending == Count(s.threads, HoldsSlot) && s.gate.pending <= max
  }

  ghost predicate WakeInv(max: nat, s: State) {
    forall j :: 0 <= j < |s.threads| && Asleep(s.threads[j]) && Wanted(max, s.gate, s.threads[j]) ==> NotifyOwed(s)
  }

  ghost predicate NotifyOwed(s: State) {
    exists i :: 0 <= i < |s.threads| && OwesNotify(s.threads[i])
  }

  ghost predicate DrainOk(g: Gate, pc: Pc) {
    && (HasClosed(pc) ==> !g.accepting)
    && (pc.DrainLeaving? ==> (pc.drained <==> g.pending == 0))
    && (pc.Destroyed? && pc.drained ==> g.pending == 0)
  }

  ghost predicate DrainInv(s: State) {
    forall j :: 0 <= j < |s.threads| ==> DrainOk(s.gate, s.threads[j])
  }

  ghost predicate Inv(max: nat, s: State) {
    LockInv(s) && SlotInv(max, s) && WakeInv(max, s) && DrainInv(s)
  }

  lemma {:induction false} CountWakeAll(threads: seq<Pc>)
    ensures Count(WakeAll(threads), HoldsSlot) == Count(threads, HoldsSlot)
  {
    if threads != [] {
      assert WakeAll(threads)[1..] == WakeAll(threads[1..]);
      CountWakeAll(threads[1..]);
    }
  }

  lemma NextKeepsLock(max: nat, s: State, a: Action, t: State)
    requires LockInv(s) && Next(max, s, a, t)
    ensures LockInv(t)
  {
  }

  lemma MoveSlot(max: nat, pc: Pc, g: Gate, throws: bool)
    requires !Asleep(pc) && !Finished(pc) && g.pending <= max && (HoldsSlot(pc) ==> g.pending > 0)
    ensures
      var m := Move(max, pc, g, throws);
      m.gate.pending == g.pending - Bit(HoldsSlot(pc)) + Bit(HoldsSlot(m.pc)) && m.gate.pending <= max
  {
  }

  lemma RunKeepsSlots(max: nat, s: State, a: Action, t: State)
    requires SlotInv(max, s) && a.Run? && Next(max, s, a, t)
    ensures SlotInv(max, t)
  {
    hide Move, OwesNotify;
    var pc := s.threads[a.i];
    if HoldsSlot(pc) {
      CountPositive(s.threads, a.i, HoldsSlot);
    }
    MoveSlot(max, pc, s.gate, a.throws);
    CountWakeAll(s.threads);
    var woken := if AboutToNotify(pc) then WakeAll(s.threads) else s.threads;
    assert HoldsSlot(woken[a.i]) == HoldsSlot(pc);
    CountUpdate(woken, a.i, t.threads[a.i], HoldsSlot);
  }

  lemma NextKeepsSlots(max: nat, s: State, a: Action, t: State)
    requires SlotInv(max, s) && Next(max, s, a, t)
    ensures SlotInv(max, t)
  {
    match a
    case Call => CountAppend(s.threads, Entering, HoldsSlot);
    case Destroy => CountAppend(s.threads, Destroying, HoldsSlot);
    case Spurious(i) => CountUpdate(s.threads, i, t.threads[i], HoldsSlot);
    case TimeOut(i) => CountUpdate(s.threads, i, t.threads[i], HoldsSlot);
    case Run(_, _) => RunKeepsSlots(max, s, a, t);
  }

  /** A step that makes a sleeper's predicate true leaves its thread owing a notification. */
  lemma MoveOwes(max: nat, pc: Pc, g: Gate, throws: bool, other: Pc)
    requires !Asleep(pc) && !Finished(pc) && Asleep(other)
    ensures
      var m := Move(max, pc, g, throws);
      && (Wanted(max, m.gate, other) && !Wanted(max, g, other) ==> OwesNotify(m.pc))
      && (Asleep(m.pc) ==> !Wanted(max, m.gate, m.pc))
      && (OwesNotify(pc) && !AboutToNotify(pc) ==> OwesNotify(m.pc))
  {
  }

  lemma RunKeepsWake(max: nat, s: State, a: Action, t: State, j: nat)
    requires WakeInv(max, s) && a.Run? && Next(max, s, a, t)
    requires j < |t.threads| && Asleep(t.threads[j]) && Wanted(max, t.gate, t.threads[j])
    ensures NotifyOwed(t)
  {
    hide Move, Wanted, OwesNotify, HoldsLock;
    var pc := s.threads[a.i];
    MoveOwes(max, pc, s.gate, a.throws, t.threads[j]);
    assert j != a.i && s.threads[j] == t.threads[j] && !AboutToNotify(pc);
    if !OwesNotify(t.threads[a.i]) {
      assert Wanted(max, s.gate, s.threads[j]);
      var i :| 0 <= i < |s.threads| && OwesNotify(s.threads[i]);
      assert t.threads[i] == s.threads[i];
    }
  }

  lemma NextKeepsWake(max: nat, s: State, a: Action, t: State)
    requires WakeInv(max, s) && Next(max, s, a, t)
    ensures WakeInv(max, t)
  {
    forall j | 0 <= j < |t.threads| && Asleep(t.threads[j]) && Wanted(max, t.gate, t.threads[j])
      ensures NotifyOwed(t)
    {
      if a.Run? {
        RunKeepsWake(max, s, a, t, j);
      } else {
        assert t.threads[j] == s.threads[j];
        var i :| 0 <= i < |s.threads| && OwesNotify(s.threads[i]);
        assert t.threads[i] == s.threads[i];
      }
    }
  }

  lemma MoveDrain(max: nat, pc: Pc, g: Gate, throws: bool, other: Pc)
    requires !Asleep(pc) && !Finished(pc) && DrainOk(g, pc) && DrainOk(g, other)
    requires HoldsLock(pc) ==> !HoldsLock(other)
    ensures
      var m := Move(max, pc, g, throws);
      DrainOk(m.gate, m.pc) && DrainOk(m.gate, other) && DrainOk(m.gate, Awake(other))
  {
  }

  lemma NextKeepsDrain(max: nat, s: State, a: Action, t: State)
    requires LockInv(s) && DrainInv(s) && Next(max, s, a, t)
    ensures DrainInv(t)
  {
    forall j | 0 <= j < |t.threads| ensures DrainOk(t.gate, t.threads[j]) {
      if a.Run? {
        RunKeepsDrain(max, s, a, t, j);
      } else if j < |s.threads| {
        assert DrainOk(s.gate, s.threads[j]);
      }
    }
  }

  lemma RunKeepsDrain(max: nat, s: State, a: Action, t: State, j: nat)
    requires LockInv(s) && DrainInv(s) && a.Run? && Next(max, s, a, t) && j < |t.threads|
    ensures DrainOk(t.gate, t.threads[j])
  {
    hide Move, HoldsLock, DrainOk, Awake;
    var pc := s.threads[a.i];
    var other := if j == a.i then Entering else s.threads[j];
    assert HoldsLock(pc) ==> !HoldsLock(other) by { assert !HoldsLock(Entering) by { EnteringIsFree(s.gate); } }
    assert DrainOk(s.gate, Entering) by { EnteringIsFree(s.gate); }
    MoveDrain(max, pc, s.gate, a.throws, other);
  }

  lemma EnteringIsFree(g: Gate)
    ensures !HoldsLock(Entering) && DrainOk(g, Entering)
  {
  }

  lemma NextKeepsInv(max: nat, s: State, a: Action, t: State)
    requires Inv(max, s) && Next(max, s, a, t)
    ensures Inv(max, t)
  {
    NextKeepsLock(max, s, a, t);
    NextKeepsSlots(max, s, a, t);
    NextKeepsWake(max, s, a, t);
    NextKeepsDrain(max, s, a, t);
  }

  /** Mutual exclusion, slot accounting, owed notifications and the drain result, in every state. */
  lemma {:induction false} RunKeepsInv(max: nat, run: seq<State>, actions: seq<Action>, k: nat)
    requires IsRun(max, run, actions) && k < |run|
    ensures Inv(max, run[k])
  {
    if k > 0 {
      RunKeepsInv(max, run, actions, k - 1);
      NextKeepsInv(max, run[k - 1], actions[k - 1], run[k]);
    }
  }

  // --- What every run keeps ---------------------------------------------------------------------

  /** At most one thread holds the mutex. */
  lemma MutualExclusion(max: nat, run: seq<State>, actions: seq<Action>, k: nat, i: nat, j: nat)
    requires IsRun(max, run, actions) && k < |run| && i < |run[k].threads| && j < |run[k].threads|
    requires HoldsLock(run[k].threads[i]) && HoldsLock(run[k].threads[j])
    ensures i == j
  {
    hide Next, Move, HoldsLock;
    RunKeepsInv(max, run, actions, k);
  }

  predicate Never(pc: Pc) { false }

  /**
   * The count is the number of accepted stores not yet completed and stays within the limit;
   * CompletePendingWrite's guard against underflow never fires.
   */
  lemma Accounting(max: nat, run: seq<State>, actions: seq<Action>, k: nat)
    requires IsRun(max, run, actions) && k < |run|
    ensures
      var s := run[k];
      && s.gate.pending == Count(s.threads, HasAccepted) - Count(s.threads, HasCompleted)
      && s.gate.pending <= max
      && forall pc <- s.threads :: pc.Releasing? ==> s.gate.pending > 0
  {
    hide Next, Move;
    RunKeepsInv(max, run, actions, k);
    var s := run[k];
    CountSplit(s.threads, HasAccepted, HoldsSlot, HasCompleted, Never);
    CountZero(s.threads, Never);
    CountZero(s.threads, HoldsSlot);
  }

  lemma MoveNeverGrows(max: nat, pc: Pc, g: Gate, throws: bool)
    requires !Asleep(pc) && !Finished(pc) && !g.accepting
    ensures
      var m := Move(max, pc, g, throws);
      !m.gate.accepting && m.gate.pending <= g.pending && (HasAccepted(m.pc) ==> HasAccepted(pc))
  {
  }

  /** Once the destructor has cleared the flag, no store is accepted and the count never grows. */
  lemma {:induction false} NeverGrows(max: nat, run: seq<State>, actions: seq<Action>, j: nat, k: nat)
    requires IsRun(max, run, actions) && j <= k < |run| && !run[j].gate.accepting
    ensures !run[k].gate.accepting && run[k].gate.pending <= run[j].gate.pending
    ensures |run[j].threads| <= |run[k].threads|
    ensures forall i :: 0 <= i < |run[k].threads| && HasAccepted(run[k].threads[i]) ==>
                          i < |run[j].threads| && HasAccepted(run[j].threads[i])
    decreases k - j
  {
    hide Move;
    if j < k {
      var s, a, t := run[k - 1], actions[k - 1], run[k];
      NeverGrows(max, run, actions, j, k - 1);
      if a.Run? {
        MoveNeverGrows(max, s.threads[a.i], s.gate, a.throws);
      }
    }
  }

  /** The destructor's drain reports success only when every accepted store has completed, and so it stays. */
  lemma DrainedMeansCompleted(max: nat, run: seq<State>, actions: seq<Action>, k: nat, i: nat)
    requires IsRun(max, run, actions) && k < |run| && i < |run[k].threads|
    requires run[k].threads[i] == DrainLeaving(true) || run[k].threads[i] == Destroyed(true)
    ensures forall pc <- run[k].threads :: HasAccepted(pc) ==> HasCompleted(pc)
    ensures !run[k].gate.accepting
  {
    hide Next, Move;
    RunKeepsInv(max, run, actions, k);
    CountZero(run[k].threads, HoldsSlot);
  }

  /** It reports a timeout only while some accepted store has not completed. */
  lemma TimedOutMeansPending(max: nat, run: seq<State>, actions: seq<Action>, k: nat, i: nat)
    requires IsRun(max, run, actions) && k < |run| && i < |run[k].threads|
    requires run[k].threads[i] == DrainLeaving(false)
    ensures exists pc <- run[k].threads :: HasAccepted(pc) && !HasCompleted(pc)
  {
    hide Next, Move;
    RunKeepsInv(max, run, actions, k);
    CountZero(run[k].threads, HoldsSlot);
  }

  // --- Why a thread is where it is ----------------------------------------------------------------

  /** The thread's own step at this point of the run hands its slot to CompletePendingWrite. */
  ghost predicate GivesUpSlot(pc: Pc, a: Action, i: nat) {
    a.Run? && a.i == i && ((pc.Posting? && a.throws) || (pc.Executing? && a.throws) || pc.Awaiting?)
  }

  /**
   * A slot is given back only after post threw, async_exec threw, or the completion handler was
   * awaited and ran.
   */
  lemma {:induction false} CompletionHasCause(max: nat, run: seq<State>, actions: seq<Action>, k: nat, i: nat)
    requires IsRun(max, run, actions) && k < |run| && i < |run[k].threads|
    requires
      var pc := run[k].threads[i];
      pc.Finishing? || pc.Releasing? || HasCompleted(pc)
    ensures exists j :: 0 <= j < k && i < |run[j].threads| && GivesUpSlot(run[j].threads[i], actions[j], i)
  {
    assert k > 0;
    var s, a := run[k - 1], actions[k - 1];
    if i < |s.threads| && (s.threads[i].Finishing? || s.threads[i].Releasing? || HasCompleted(s.threads[i])) {
      CompletionHasCause(max, run, actions, k - 1, i);
    } else {
      StepGivesUp(max, s, a, run[k], i);
    }
  }

  lemma StepGivesUp(max: nat, s: State, a: Action, t: State, i: nat)
    requires Next(max, s, a, t) && i < |t.threads|
    requires
      var pc := t.threads[i];
      pc.Finishing? || pc.Releasing? || HasCompleted(pc)
    requires i < |s.threads| ==> !(s.threads[i].Finishing? || s.threads[i].Releasing? || HasCompleted(s.threads[i]))
    ensures i < |s.threads| && GivesUpSlot(s.threads[i], a, i)
  {
  }

  /** A store is refused or dropped only once the flag has been cleared. */
  lemma {:induction false} DroppedOnlyWhenClosing(max: nat, run: seq<State>, actions: seq<Action>, k: nat, i: nat)
    requires IsRun(max, run, actions) && k < |run| && i < |run[k].threads|
    requires run[k].threads[i].Refused? || run[k].threads[i].Dropped?
    ensures !run[k].gate.accepting
    ensures exists j :: 0 <= j < |run[k].threads| && HasClosed(run[k].threads[j])
  {
    hide Next;
    RunKeepsRefused(max, run, actions, k);
  }

  /** Not accepting means that the destructor is past clearing the flag; refused means not accepting. */
  ghost predicate RefusedInv(s: State) {
    && (forall i :: 0 <= i < |s.threads| && (s.threads[i].Refused? || s.threads[i].Dropped?) ==> !s.gate.accepting)
    && (!s.gate.accepting ==> exists j :: 0 <= j < |s.threads| && HasClosed(s.threads[j]))
  }

  lemma {:induction false} RunKeepsRefused(max: nat, run: seq<State>, actions: seq<Action>, k: nat)
    requires IsRun(max, run, actions) && k < |run|
    ensures RefusedInv(run[k])
  {
    if k > 0 {
      hide Next;
      RunKeepsRefused(max, run, actions, k - 1);
      NextKeepsRefused(max, run[k - 1], actions[k - 1], run[k]);
    }
  }

  lemma MoveRefused(max: nat, pc: Pc, g: Gate, throws: bool)
    requires !Asleep(pc) && !Finished(pc)
    ensures
      var m := Move(max, pc, g, throws);
      && (m.pc.Refused? || m.pc.Dropped? ==> pc.Refused? || !g.accepting)
      && (m.gate.accepting != g.accepting ==> g.accepting && HasClosed(m.pc))
      && (HasClosed(pc) ==> HasClosed(m.pc))
  {
  }

  lemma NextKeepsRefused(max: nat, s: State, a: Action, t: State)
    requires RefusedInv(s) && Next(max, s, a, t)
    ensures RefusedInv(t)
  {
    hide Move, HoldsLock, HasClosed;
    if a.Run? {
      MoveRefused(max, s.threads[a.i], s.gate, a.throws);
    }
    AwakeKeepsClosed();
    if !t.gate.accepting && !s.gate.accepting {
      var j :| 0 <= j < |s.threads| && HasClosed(s.threads[j]);
      assert HasClosed(t.threads[j]);
    } else if !t.gate.accepting {
      assert HasClosed(t.threads[a.i]);
    }
  }

  lemma AwakeKeepsClosed()
    ensures forall pc :: HasClosed(pc) ==> HasClosed(Awake(pc))
    ensures forall woken, timedOut :: HasClosed(DrainWaiting(woken, timedOut))
  {
  }

  /** The drain reports failure only after its time limit was reached. */
  lemma {:induction false} FailureNeedsTimeLimit(max: nat, run: seq<State>, actions: seq<Action>, k: nat, i: nat)
    requires IsRun(max, run, actions) && k < |run| && i < |run[k].threads| && TimedOut(run[k].threads[i])
    ensures exists j :: 0 <= j < k && actions[j] == TimeOut(i)
  {
    assert k > 0;
    var s, a := run[k - 1], actions[k - 1];
    if i < |s.threads| && TimedOut(s.threads[i]) {
      FailureNeedsTimeLimit(max, run, actions, k - 1, i);
    } else {
      StepTimesOut(max, s, a, run[k], i);
    }
  }

  predicate TimedOut(pc: Pc) {
    || (pc.DrainWaiting? && pc.timedOut) || (pc.DrainTesting? && pc.timedOut)
    || (pc.DrainLeaving? && !pc.drained) || (pc.Destroyed? && !pc.drained)
  }

  lemma StepTimesOut(max: nat, s: State, a: Action, t: State, i: nat)
    requires Next(max, s, a, t) && i < |t.threads| && TimedOut(t.threads[i])
    requires i < |s.threads| ==> !TimedOut(s.threads[i])
    ensures a == TimeOut(i)
  {
  }

  /**
   * No lost wakeup: while a thread sleeps although what it waits for is true, another has changed
   * the count or the flag and not yet notified; with the mutex free, that one is between releasing
   * it and notify_all.
   */
  lemma NoLostWakeup(max: nat, run: seq<State>, actions: seq<Action>, k: nat, j: nat)
    requires IsRun(max, run, actions) && k < |run| && j < |run[k].threads|
    requires Asleep(run[k].threads[j]) && Wanted(max, run[k].gate, run[k].threads[j])
    ensures exists i :: 0 <= i < |run[k].threads| && OwesNotify(run[k].threads[i])
                        && (run[k].lock.None? ==> AboutToNotify(run[k].threads[i]))
  {
    hide Next, Move;
    RunKeepsInv(max, run, actions, k);
    var i :| 0 <= i < |run[k].threads| && OwesNotify(run[k].threads[i]);
  }

  /** Some thread's own step is enabled. */
  ghost predicate SomeoneRuns(max: nat, s: State) {
    exists i: nat :: CanRun(max, s, i, false)
  }

  lemma AwakeRuns(max: nat, s: State, i: nat)
    requires LockInv(s) && i < |s.threads| && !Asleep(s.threads[i]) && !Finished(s.threads[i])
    requires s.lock.None? || HoldsLock(s.threads[i])
    ensures CanRun(max, s, i, false)
  {
  }

  lemma SleeperNotAlone(max: nat, s: State, j: nat)
    requires max > 0 && SlotInv(max, s) && WakeInv(max, s) && j < |s.threads| && Asleep(s.threads[j])
    ensures exists i :: 0 <= i < |s.threads| && (OwesNotify(s.threads[i]) || HoldsSlot(s.threads[i]))
  {
    if !NotifyOwed(s) {
      CountZero(s.threads, HoldsSlot);
      var pc :| pc in s.threads && HoldsSlot(pc);
    }
  }

  /**
   * Freedom from deadlock, without new calls, spurious wakeups or the drain's time limit: as long as
   * some Store call, write or destructor is not finished, some thread's own step is enabled.
   */
  lemma NoDeadlock(max: nat, run: seq<State>, actions: seq<Action>, k: nat, j: nat)
    requires IsRun(max, run, actions) && k < |run| && j < |run[k].threads| && !Finished(run[k].threads[j])
    ensures SomeoneRuns(max, run[k])
  {
    hide Next, Move, CanRun, WakeInv, HoldsLock;
    var s := run[k];
    RunKeepsInv(max, run, actions, k);
    if s.lock.Some? {
      HolderIsAwake(s.threads[s.lock.value]);
      AwakeRuns(max, s, s.lock.value);
    } else if Asleep(s.threads[j]) {
      SleeperNotAlone(max, s, j);
      var i :| 0 <= i < |s.threads| && (OwesNotify(s.threads[i]) || HoldsSlot(s.threads[i]));
      AwakeRuns(max, s, i);
    } else {
      AwakeRuns(max, s, j);
    }
  }

  lemma HolderIsAwake(pc: Pc)
    requires HoldsLock(pc)
    ensures !Asleep(pc) && !Finished(pc)
  {
  }
}
