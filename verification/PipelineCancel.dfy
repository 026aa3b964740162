/**
 * Cancellation in the pipeline: a record whose callback begins after the abort or the deadline is
 * discarded, no other record is, and the deadline and the poll error are what the calls said.
 */
module PipelineCancel {
  import opened Shared
  import opened Pipeline

  /** Aborted, or past a deadline that has been set. */
  ghost predicate Late(l: Life) {
    l.abort || (l.deadline > 0 && l.deadline <= l.now)
  }

  /** The poller's callback, entered late, stays late until its own next step. */
  lemma PollerStaysLate(s: State, a: Action, t: State)
    requires LifeInv(s.life) && s.life.poller.Holding? && Late(s.life) && Next(s, a, t) && !a.PollerStep?
    ensures Late(t.life) && t.life.poller == s.life.poller
  {
    hide HookNext, PushNext, TakeNext;
  }

  lemma PollerDiscards(s: State, a: Action, t: State)
    requires s.life.poller.Holding? && Late(s.life) && Next(s, a, t) && a.PollerStep?
    ensures t.life.poller.Returned? && t.life.discarded == s.life.discarded + 1 && t.queue == s.queue
  {
    hide PushNext, TakeNext;
  }

  /**
   * A callback of the poller that is about to begin late: whatever the other threads do before the
   * poller's next step, that step discards the record.
   */
  lemma {:induction false} LatePollerDiscards(run: seq<State>, actions: seq<Action>, j: nat, k: nat)
    requires IsRun(run, actions) && j <= k < |actions|
    requires run[j].life.poller.Holding? && Late(run[j].life)
    requires actions[k].PollerStep? && forall i :: j <= i < k ==> !actions[i].PollerStep?
    ensures run[k + 1].life.poller.Returned? && run[k + 1].life.discarded == run[k].life.discarded + 1
    ensures run[k + 1].queue == run[k].queue
    decreases k - j
  {
    hide Next, Inv;
    if j == k {
      PollerDiscards(run[k], actions[k], run[k + 1]);
    } else {
      LifeHolds(run, actions, j);
      PollerStaysLate(run[j], actions[j], run[j + 1]);
      LatePollerDiscards(run, actions, j + 1, k);
    }
  }

  lemma LifeHolds(run: seq<State>, actions: seq<Action>, k: nat)
    requires IsRun(run, actions) && k < |run|
    ensures LifeInv(run[k].life)
  {
    hide Next, LifeInv;
    RunKeepsInv(run, actions, k);
  }

  lemma FinisherStaysLate(s: State, a: Action, t: State)
    requires s.life.finisher.Handling? && Late(s.life) && Next(s, a, t) && !a.FinisherStep?
    ensures Late(t.life) && t.life.finisher == s.life.finisher
  {
    hide HookNext, PushNext, TakeNext;
  }

  lemma FinisherDiscards(s: State, a: Action, t: State)
    requires s.life.finisher.Handling? && Late(s.life) && Next(s, a, t) && a.FinisherStep?
    ensures t.life.finisher.Sealing? && t.life.discarded == s.life.discarded + 1 && t.queue == s.queue
  {
    hide PushNext, TakeNext;
  }

  /** The same for a callback of the drain. */
  lemma {:induction false} LateDrainDiscards(run: seq<State>, actions: seq<Action>, j: nat, k: nat)
    requires IsRun(run, actions) && j <= k < |actions|
    requires run[j].life.finisher.Handling? && Late(run[j].life)
    requires actions[k].FinisherStep? && forall i :: j <= i < k ==> !actions[i].FinisherStep?
    ensures run[k + 1].life.finisher.Sealing? && run[k + 1].life.discarded == run[k].life.discarded + 1
    ensures run[k + 1].queue == run[k].queue
    decreases k - j
  {
    hide Next;
    if j == k {
      FinisherDiscards(run[k], actions[k], run[k + 1]);
    } else {
      FinisherStaysLate(run[j], actions[j], run[j + 1]);
      LateDrainDiscards(run, actions, j + 1, k);
    }
  }

  /** Conversely, a record is discarded only late, one at a time, and from inside a callback. */
  lemma DiscardsAreLate(run: seq<State>, actions: seq<Action>, k: nat)
    requires IsRun(run, actions) && k < |actions| && run[k + 1].life.discarded != run[k].life.discarded
    ensures Late(run[k].life) && run[k + 1].life.discarded == run[k].life.discarded + 1
    ensures |InHand(run[k].life)| == 1 && InHand(run[k + 1].life) == []
  {
    hide Next;
    LifeHolds(run, actions, k);
    StepDiscards(run[k], actions[k], run[k + 1]);
  }

  lemma StepDiscards(s: State, a: Action, t: State)
    requires LifeInv(s.life) && Next(s, a, t) && t.life.discarded != s.life.discarded
    ensures Late(s.life) && t.life.discarded == s.life.discarded + 1
    ensures |InHand(s.life)| == 1 && InHand(t.life) == []
  {
    hide HookNext, PushNext, TakeNext;
  }

  /**
   * The deadline is set only by a finish with time to spend, after the poller is gone, to the time
   * asked for but at most a minute.
   */
  lemma DeadlineIsAsked(run: seq<State>, actions: seq<Action>, k: nat)
    requires IsRun(run, actions) && k < |actions| && run[k + 1].life.deadline != run[k].life.deadline
    ensures AskedFor(run[k].life, run[k + 1].life)
  {
    hide Next;
    StepAsks(run[k], actions[k], run[k + 1]);
  }

  ghost predicate AskedFor(l: Life, m: Life) {
    && l.finisher.Joining? && l.finisher.ms > 0 && (l.poller.Absent? || l.poller.Ended?) && InHand(l) == []
    && m.deadline == l.now + (if l.finisher.ms < 60000 then l.finisher.ms else 60000) * 1000000
  }

  lemma StepAsks(s: State, a: Action, t: State)
    requires Next(s, a, t) && t.life.deadline != s.life.deadline
    ensures AskedFor(s.life, t.life)
  {
    hide HookNext, PushNext, TakeNext, CancelledNow;
  }

  /** The poll error is an answer of the library, and not that of an interrupted or cancelled call. */
  lemma PollErrorIsAnswer(run: seq<State>, actions: seq<Action>, k: nat)
    requires IsRun(run, actions) && k < |actions| && run[k + 1].life.pollError != run[k].life.pollError
    ensures
      var rc := run[k + 1].life.pollError;
      && rc < 0 && rc != -125 && rc != -4
      && (actions[k] == PollerStep(PollFail(rc)) || actions[k] == FinisherStep(ConsumeFail(rc)))
  {
    hide Next;
    LifeHolds(run, actions, k);
    StepAnswers(run[k], actions[k], run[k + 1]);
  }

  lemma StepAnswers(s: State, a: Action, t: State)
    requires LifeInv(s.life) && Next(s, a, t) && t.life.pollError != s.life.pollError
    ensures
      var rc := t.life.pollError;
      && rc < 0 && rc != -125 && rc != -4
      && (a == PollerStep(PollFail(rc)) || a == FinisherStep(ConsumeFail(rc)))
  {
    hide HookNext, PushNext, TakeNext, CancelledNow;
  }

  /** And a failing call leaves exactly its answer: the poller then ends, and so does the drain. */
  lemma FailureIsKept(run: seq<State>, actions: seq<Action>, k: nat, rc: int)
    requires IsRun(run, actions) && k < |actions|
    requires actions[k] == PollerStep(PollFail(rc)) || (actions[k] == FinisherStep(ConsumeFail(rc)) && rc != -4)
    ensures run[k + 1].life.pollError == rc
    ensures if actions[k].PollerStep? then run[k + 1].life.poller.Ended? else run[k + 1].life.finisher.Sealing?
  {
    assert Next(run[k], actions[k], run[k + 1]);
    hide IsRun;
  }

  /** Once aborted, the poller ends at its next look at the flag, or at its cancelled poll, without an error. */
  lemma AbortEndsPoller(run: seq<State>, actions: seq<Action>, k: nat)
    requires IsRun(run, actions) && k < |actions| && run[k].life.abort
    requires actions[k] == PollerStep(TestAbort) || actions[k] == PollerStep(PollCancelled)
    ensures run[k + 1].life.poller.Ended? && run[k + 1].life.pollError == run[k].life.pollError
  {
    assert Next(run[k], actions[k], run[k + 1]);
    hide IsRun;
  }

  /** On its way to the drain, or past arming it. */
  ghost predicate WillDrain(l: Life) {
    (l.finisher.Joining? && l.finisher.ms > 0 && l.sources != map[]) || l.deadline > 0
  }

  lemma StepWillDrain(s: State, a: Action, t: State)
    requires WillDrain(s.life) && Next(s, a, t)
    ensures WillDrain(t.life)
  {
    hide HookNext, PushNext, TakeNext, CancelledNow;
  }

  /** A finish with time to spend and a source to drain does not end without having set its deadline. */
  lemma FinishDrains(run: seq<State>, actions: seq<Action>, j: nat, k: nat)
    requires IsRun(run, actions) && j <= k < |run|
    requires
      var l := run[j].life;
      l.finisher.Joining? && l.finisher.ms > 0 && l.sources != map[]
    ensures run[k].life.finished ==> run[k].life.deadline > 0
  {
    hide Next, WillDrain;
    RunWillDrain(run, actions, j, k);
    LifeHolds(run, actions, k);
    if run[k].life.finished {
      FinishedIsIdle(run[k].life);
    }
  }

  lemma FinishedIsIdle(l: Life)
    requires LifeInv(l) && WillDrain(l) && l.finished
    ensures l.deadline > 0
  {
  }

  lemma {:induction false} RunWillDrain(run: seq<State>, actions: seq<Action>, j: nat, k: nat)
    requires IsRun(run, actions) && j <= k < |run|
    requires
      var l := run[j].life;
      l.finisher.Joining? && l.finisher.ms > 0 && l.sources != map[]
    ensures WillDrain(run[k].life)
    decreases k - j
  {
    if j < k {
      hide Next;
      RunWillDrain(run, actions, j, k - 1);
      StepWillDrain(run[k - 1], actions[k - 1], run[k]);
    }
  }

  /** Sources are taken on before the start only, and never once the telemetry is finished. */
  lemma SourcesFixed(run: seq<State>, actions: seq<Action>, k: nat)
    requires IsRun(run, actions) && k < |actions| && (run[k].life.started || run[k].life.finished)
    ensures run[k + 1].life.sources == run[k].life.sources
  {
    hide Next;
    StepKeepsSources(run[k], actions[k], run[k + 1]);
  }

  lemma StepKeepsSources(s: State, a: Action, t: State)
    requires Next(s, a, t) && (s.life.started || s.life.finished)
    ensures t.life.sources == s.life.sources
  {
    hide HookNext, PushNext, TakeNext, CancelledNow;
  }
}
