/**
 Exactly which job instances can start another run after `Stop` or `Remove`
 cancelled them.
 */
module SchedulerCancel {
  import opened Options
  import opened SchedulerMachine
  import opened SchedulerSafety

  ghost predicate Live(s: State, j: JobId) {
    exists t: nat :: Token(s, j, t)
  }

  /**
   j has a timer or a callback that `j.cancel()` does not reach: anything but the armed
   timer published in j.timer.
   */
  ghost predicate Escapes(s: State, j: JobId)
    requires j < |s.insts|
  {
    exists t: nat :: Token(s, j, t) && !(s.timers[t].status.Armed? && s.insts[j].timer == Some(t))
  }

  /** j has no timer and no callback, and no API call is about to schedule it or ever will. */
  ghost predicate Dead(s: State, j: JobId) {
    && j < |s.insts| && !Live(s, j)
    && (s.running || j !in s.jobs.Values)
    && (s.holder.Scheduling? ==> j !in s.holder.todo)
  }

  /** The step is the cancellation of j by `Stop` or by `Remove`. */
  predicate Cancels(s: State, e: Step, j: JobId)
    requires Enabled(s, e)
  {
    e == CancelJob(j) || (e.RemoveJob? && s.jobs[e.name] == j)
  }

  predicate NeverCancels(s: State, steps: seq<Step>, j: JobId)
    requires Runs(s, steps)
  {
    steps == [] ||
    (var front := steps[..|steps| - 1];
     NeverCancels(s, front, j) && !Cancels(After(s, front), steps[|steps| - 1], j))
  }

  /** The clock, the runtime and the callbacks alone lead to another start of j. */
  predicate Restart(s: State, steps: seq<Step>, j: JobId) {
    && Runs(s, steps)
    && (forall e | e in steps :: !e.ByApi())
    && |Starts(After(s, steps).log, j)| > |Starts(s.log, j)|
  }

  ghost predicate CanStartAgain(s: State, j: JobId) {
    exists steps :: Restart(s, steps, j)
  }

  // ------------------------------------------------- one cancellation step

  /** A cancellation is effective on j exactly when j does not escape it, and never touches another instance. */
  lemma CancelEffect(s: State, j: JobId)
    requires Inv(s) && j < |s.insts|
    ensures Live(Cancel(s, j), j) <==> Escapes(s, j)
    ensures forall i | i != j :: Live(Cancel(s, j), i) <==> Live(s, i)
  {
    hide Cancel;
    forall i: nat, t: nat
      ensures Token(Cancel(s, j), i, t) <==>
                Token(s, i, t) && !(i == j && s.timers[t].status.Armed? && s.insts[j].timer == Some(t))
    {
      CancelTakes(s, j, i, t);
    }
  }

  /** A cancellation takes exactly the armed timer published in j.timer. */
  lemma CancelTakes(s: State, j: JobId, i: JobId, t: TimerId)
    requires Bounded(s) && j < |s.insts|
    ensures Token(Cancel(s, j), i, t) <==>
              Token(s, i, t) && !(i == j && s.timers[t].status.Armed? && s.insts[j].timer == Some(t))
  {
  }

  // --------------------------------------------------- the dead stay dead

  /** A callback that is still to re-arm holds the token of its job. */
  lemma CallbackHoldsToken(s: State, j: JobId, t: TimerId)
    requires t < |s.timers| && s.timers[t].job == j && InFlightStatus(s.timers[t].status)
    ensures Live(s, j)
  {
    assert Token(s, j, t);
  }

  lemma CancelGivesNoToken(s: State, e: Step, j: JobId, t: TimerId)
    requires Bounded(s) && Enabled(s, e) && (e.RemoveJob? || e.CancelJob?) && Token(Next(s, e), j, t)
    ensures Token(s, j, t)
  {
    var i := if e.RemoveJob? then s.jobs[e.name] else e.job;
    assert Next(s, e).timers == Cancel(s, i).timers;
    assert Token(Cancel(s, i), j, t);
  }

  lemma CallGivesToken(s: State, e: Step, j: JobId, t: TimerId)
    requires Enabled(s, e) && e.ByApi() && !e.RemoveJob? && !e.CancelJob? && Token(Next(s, e), j, t)
    ensures Token(s, j, t) || (e.ArmNew? && e.job == j)
  {
  }

  lemma CallbackGivesToken(s: State, e: Step, j: JobId, t: TimerId)
    requires Enabled(s, e) && !e.ByApi() && Token(Next(s, e), j, t)
    ensures Token(s, j, t) || (e.Rearm? && s.timers[e.timer].job == j)
  {
  }

  /** Only arming gives tokens: from outside to a job that is to be scheduled, or by a callback to its own job. */
  lemma TokensComeFromArming(s: State, e: Step, j: JobId, t: TimerId)
    requires Bounded(s) && Enabled(s, e) && Token(Next(s, e), j, t)
    ensures Token(s, j, t) || (e.ArmNew? && e.job == j) || (e.Rearm? && s.timers[e.timer].job == j)
  {
    assert e.Rearm? ==> e.timer < |s.timers|;
    hide *;
    if e.RemoveJob? || e.CancelJob? {
      CancelGivesNoToken(s, e, j, t);
    } else if e.ByApi() {
      CallGivesToken(s, e, j, t);
    } else {
      CallbackGivesToken(s, e, j, t);
    }
  }

  /** Only entering Run logs a start. */
  lemma StartsComeFromRuns(s: State, e: Step, j: JobId)
    requires Enabled(s, e) && !(e.EnterRun? && s.timers[e.timer].job == j)
    ensures Starts(Next(s, e).log, j) == Starts(s.log, j)
  {
    if e.EnterRun? || e.LeaveRun? {
      var log := Next(s, e).log;
      assert log[..|log| - 1] == s.log;
    }
  }

  lemma StaysUnscheduled(s: State, e: Step, j: JobId)
    requires Enabled(s, e) && j < |s.insts| && (s.running || j !in s.jobs.Values)
    requires s.holder.Scheduling? ==> j !in s.holder.todo
    ensures var s' := Next(s, e);
            && j < |s'.insts| && (s'.running || j !in s'.jobs.Values)
            && (s'.holder.Scheduling? ==> j !in s'.holder.todo)
  {
  }

  lemma StepKeepsDead(s: State, e: Step, j: JobId)
    requires Inv(s) && Enabled(s, e) && Dead(s, j)
    ensures Dead(Next(s, e), j) && Starts(Next(s, e).log, j) == Starts(s.log, j)
  {
    StaysUnscheduled(s, e, j);
    if e.Rearm? || e.EnterRun? {
      CallbackHoldsToken(s, s.timers[e.timer].job, e.timer);
    }
    StartsComeFromRuns(s, e, j);
    forall t: nat ensures !Token(Next(s, e), j, t) {
      if Token(Next(s, e), j, t) { TokensComeFromArming(s, e, j, t); }
    }
  }

  /** Once dead, an instance never starts again, whatever is called and added later. */
  lemma {:induction false} DeadForever(s: State, steps: seq<Step>, j: JobId)
    requires Inv(s) && Dead(s, j) && Runs(s, steps)
    ensures Dead(After(s, steps), j) && Starts(After(s, steps).log, j) == Starts(s.log, j)
  {
    if steps != [] {
      var front := steps[..|steps| - 1];
      DeadForever(s, front, j);
      RunKeepsInv(s, front);
      StepKeepsDead(After(s, front), steps[|steps| - 1], j);
    }
  }

  // --------------------------------------------------- the live stay live

  /** Nothing but its own cancellation takes a token from a job: it only moves from timer to callback to timer. */
  lemma StepKeepsLive(s: State, e: Step, j: JobId)
    requires Inv(s) && Enabled(s, e) && Live(s, j) && !Cancels(s, e, j)
    ensures Live(Next(s, e), j)
  {
    var s' := Next(s, e);
    var t: nat :| Token(s, j, t);
    if e.RemoveJob? || e.CancelJob? {
      var i := if e.RemoveJob? then s.jobs[e.name] else e.job;
      CancelEffect(s, i);
      var u: nat :| Token(Cancel(s, i), j, u);
      assert Token(s', j, u);
    } else if e.Rearm? && e.timer == t {
      assert Token(s', j, |s.timers|);
    } else {
      assert Token(s', j, t);
    }
  }

  lemma {:induction false} RunKeepsLive(s: State, steps: seq<Step>, j: JobId)
    requires Inv(s) && Live(s, j) && Runs(s, steps) && NeverCancels(s, steps, j)
    ensures Live(After(s, steps), j)
  {
    if steps != [] {
      var front := steps[..|steps| - 1];
      RunKeepsLive(s, front, j);
      RunKeepsInv(s, front);
      StepKeepsLive(After(s, front), steps[|steps| - 1], j);
    }
  }

  // ----------------------------------------- a live instance does restart

  /** Taking one runtime step of a restart. */
  lemma RestartLater(s: State, e: Step, rest: seq<Step>, j: JobId)
    requires Enabled(s, e) && !e.ByApi() && Restart(Next(s, e), rest, j)
    requires |Starts(Next(s, e).log, j)| >= |Starts(s.log, j)|
    ensures Restart(s, [e] + rest, j)
  {
    RunsOneMore(s, [], e);
    assert [] + [e] == [e];
    RunsConcat(s, [e], rest);
  }

  lemma LogGrows(log: seq<Event>, e: Event, j: JobId)
    ensures |Starts(log + [e], j)| == |Starts(log, j)| + (if e == Started(j, e.at) then 1 else 0)
  {
    assert (log + [e])[..|log|] == log;
  }

  lemma RestartFromSpawned(s: State, t: TimerId, j: JobId) returns (steps: seq<Step>)
    requires Inv(s) && !s.crashed && Token(s, j, t) && s.timers[t].status.Spawned?
    ensures Restart(s, steps, j)
  {
    steps := [EnterRun(t)];
    RunsOneMore(s, [], EnterRun(t));
    assert [] + [EnterRun(t)] == steps;
    LogGrows(s.log, Started(j, s.now), j);
  }

  lemma RestartFromArmed(s: State, t: TimerId, j: JobId) returns (steps: seq<Step>)
    requires Inv(s) && !s.crashed && Token(s, j, t) && s.timers[t].status.Armed?
    ensures Restart(s, steps, j)
  {
    var wait := Tick(if s.timers[t].status.deadline > s.now then s.timers[t].status.deadline - s.now else 0);
    var s1 := Next(s, wait);
    StepKeepsInv(s, wait);
    StepKeepsInv(s1, Fire(t));
    steps := RestartFromSpawned(Next(s1, Fire(t)), t, j);
    RestartLater(s1, Fire(t), steps, j);
    RestartLater(s, wait, [Fire(t)] + steps, j);
    steps := [wait] + ([Fire(t)] + steps);
  }

  lemma RestartFromRunDone(s: State, t: TimerId, j: JobId) returns (steps: seq<Step>)
    requires Inv(s) && !s.crashed && Token(s, j, t) && s.timers[t].status.RunDone?
    ensures Restart(s, steps, j)
  {
    var rearm := Rearm(t, if s.insts[j].rule.Every? then s.insts[j].rule.interval else 0);
    StepKeepsInv(s, rearm);
    steps := RestartFromArmed(Next(s, rearm), |s.timers|, j);
    RestartLater(s, rearm, steps, j);
    steps := [rearm] + steps;
  }

  lemma RestartFromInRun(s: State, t: TimerId, j: JobId) returns (steps: seq<Step>)
    requires Inv(s) && !s.crashed && Token(s, j, t) && s.timers[t].status.InRun?
    ensures Restart(s, steps, j)
  {
    StepKeepsInv(s, LeaveRun(t));
    LogGrows(s.log, Ended(j, s.now), j);
    steps := RestartFromRunDone(Next(s, LeaveRun(t)), t, j);
    RestartLater(s, LeaveRun(t), steps, j);
    steps := [LeaveRun(t)] + steps;
  }

  lemma LiveRestarts(s: State, j: JobId)
    requires Inv(s) && !s.crashed && Live(s, j)
    ensures CanStartAgain(s, j)
  {
    hide Restart, Inv;
    var t: nat :| Token(s, j, t);
    var steps;
    match s.timers[t].status
    case Armed(_) => steps := RestartFromArmed(s, t, j);
    case Spawned => steps := RestartFromSpawned(s, t, j);
    case InRun => steps := RestartFromInRun(s, t, j);
    case RunDone => steps := RestartFromRunDone(s, t, j);
    assert Restart(s, steps, j);
  }

  /** Being live is exactly being able to start again. */
  lemma StartsAgainIffLive(s: State, j: JobId)
    requires Inv(s) && !s.crashed && s.running && j < |s.insts|
    requires s.holder.Scheduling? ==> j !in s.holder.todo
    ensures CanStartAgain(s, j) <==> Live(s, j)
  {
    if Live(s, j) {
      LiveRestarts(s, j);
    } else {
      forall steps | Restart(s, steps, j) ensures false {
        DeadForever(s, steps, j);
      }
    }
  }

  // ------------------------------------------------- exact cancellation

  /**
   What one cancellation achieves.  If the instance escapes it, the instance can
   start again after any continuation that does not cancel it once more; if it
   does not, no continuation whatsoever starts it again.
   */
  lemma CancellationIsExact(s: State, e: Step, j: JobId, steps: seq<Step>)
    requires Inv(s) && s.running && j < |s.insts|
    requires Enabled(s, e) && Cancels(s, e, j) && Runs(Next(s, e), steps)
    ensures !Escapes(s, j) ==> Starts(After(Next(s, e), steps).log, j) == Starts(s.log, j)
    ensures Escapes(s, j) && NeverCancels(Next(s, e), steps, j) && !After(Next(s, e), steps).crashed ==>
              CanStartAgain(After(Next(s, e), steps), j)
  {
    var s' := Next(s, e);
    StepKeepsInv(s, e);
    CancelEffect(s, j);
    forall t: nat ensures Token(s', j, t) <==> Token(Cancel(s, j), j, t) {}
    if Escapes(s, j) {
      var t: nat :| Token(Cancel(s, j), j, t);
      assert Token(s', j, t);
      if NeverCancels(s', steps, j) && !After(s', steps).crashed {
        RunKeepsLive(s', steps, j);
        RunKeepsInv(s', steps);
        LiveRestarts(After(s', steps), j);
      }
    } else {
      DeadForever(s', steps, j);
    }
  }

  // ------------------------------------------------------ the whole Stop

  /** The steps that can happen while `Stop` holds the mutex. */
  predicate DuringStop(steps: seq<Step>) {
    forall e | e in steps :: e.CancelJob? || !e.ByApi()
  }

  lemma ReachedIsGone(s: State, e: Step, j: JobId)
    requires s.holder.Cancelling? && Enabled(s, e) && e == CancelJob(j)
    ensures Next(s, e).holder.Cancelling? && j !in Next(s, e).holder.todo
  {
  }

  lemma {:induction false} NotYetReached(s: State, steps: seq<Step>, j: JobId)
    requires s.holder.Cancelling? && Runs(s, steps) && DuringStop(steps)
    requires After(s, steps).holder.Cancelling? && j in After(s, steps).holder.todo
    ensures CancelJob(j) !in steps
  {
    hide Next;
    if steps != [] {
      var front := steps[..|steps| - 1];
      HeldDuringStop(s, front);
      HeldByStep(After(s, front), steps[|steps| - 1]);
      NotYetReached(s, front, j);
      if steps[|steps| - 1] == CancelJob(j) { ReachedIsGone(After(s, front), CancelJob(j), j); }
      assert steps == front + [steps[|steps| - 1]];
    }
  }

  /** A cancellation under the mutex, or any other step meanwhile, seen from one job. */
  lemma StopStep(s: State, e: Step, j: JobId)
    requires Inv(s) && s.holder.Cancelling? && j < |s.insts| && Enabled(s, e) && (e.CancelJob? || !e.ByApi())
    ensures e == CancelJob(j) ==> j in s.holder.todo && (Live(Next(s, e), j) <==> Escapes(s, j))
    ensures e != CancelJob(j) ==> (Live(Next(s, e), j) <==> Live(s, j))
    ensures Next(s, e).holder.Cancelling? && (j in Next(s, e).holder.todo <==> j in s.holder.todo && e != CancelJob(j))
  {
    if e == CancelJob(j) {
      CancelEffect(s, j);
      forall t: nat ensures Token(Next(s, e), j, t) <==> Token(Cancel(s, j), j, t) {}
    } else if Live(s, j) {
      StepKeepsLive(s, e, j);
    } else {
      StepKeepsDead(s, e, j);
    }
  }

  /** Stop's loop reaches each of its jobs exactly once. */
  lemma {:induction false} ReachedOnce(s: State, steps: seq<Step>, j: JobId) returns (i: nat)
    requires Inv(s) && s.holder.Cancelling? && j in s.holder.todo
    requires Runs(s, steps) && DuringStop(steps)
    requires After(s, steps).holder.Cancelling? ==> j !in After(s, steps).holder.todo
    ensures i < |steps| && steps[i] == CancelJob(j)
    ensures Runs(s, steps[..i]) && After(s, steps[..i]).holder.Cancelling?
    ensures Enabled(After(s, steps[..i]), CancelJob(j))
    ensures j < |After(s, steps[..i]).insts|
    ensures Live(After(s, steps), j) <==> Escapes(After(s, steps[..i]), j)
    ensures forall k | 0 <= k < |steps| && steps[k] == CancelJob(j) :: k == i
  {
    hide Next, Enabled, Live, Escapes;
    assert j < |s.insts|;
    HeldDuringStop(s, steps);
    var n := |steps| - 1;
    var front, e := steps[..n], steps[n];
    var m := After(s, front);
    HeldDuringStop(s, front);
    RunKeepsInv(s, front);
    StopStep(m, e, j);
    if j in m.holder.todo {
      i := n;
      NotYetReached(s, front, j);
    } else {
      i := ReachedOnce(s, front, j);
      assert steps[..i] == front[..i];
    }
  }

  ghost predicate Held(s: State, s': State) {
    && s'.holder.Cancelling? && s.holder.Cancelling? && s'.holder.todo <= s.holder.todo
    && |s'.insts| == |s.insts| && s'.running == s.running && s'.jobs == s.jobs
  }

  lemma HeldByStep(s: State, e: Step)
    requires s.holder.Cancelling? && Enabled(s, e) && (e.CancelJob? || !e.ByApi())
    ensures Held(s, Next(s, e))
  {
  }

  lemma {:induction false} HeldDuringStop(s: State, steps: seq<Step>)
    requires s.holder.Cancelling? && Runs(s, steps) && DuringStop(steps)
    ensures Held(s, After(s, steps))
  {
    if steps != [] {
      var front := steps[..|steps| - 1];
      HeldDuringStop(s, front);
      HeldByStep(After(s, front), steps[|steps| - 1]);
    }
  }

  /**
   During the run `steps` from s0, j was cancelled, and in s1 it can start again
   exactly when it escaped at that moment.
   */
  ghost predicate StoppedExactly(s0: State, steps: seq<Step>, s1: State, j: JobId) {
    exists i :: 0 <= i < |steps| && steps[i] == CancelJob(j) && Runs(s0, steps[..i])
             && j < |After(s0, steps[..i]).insts|
             && (CanStartAgain(s1, j) <==> Escapes(After(s0, steps[..i]), j))
  }

  /**
   A complete `Stop`, with the clock and the callbacks interleaved at will: a
   scheduled job can start again afterwards exactly when it escaped at the one
   moment the loop cancelled it.
   */
  lemma StopIsExact(s: State, steps: seq<Step>, name: string)
    requires Inv(s) && Enabled(s, LockStop) && name in s.jobs
    requires Runs(Next(s, LockStop), steps) && DuringStop(steps)
    requires Enabled(After(Next(s, LockStop), steps), Unlock)
    ensures var s0 := Next(s, LockStop);
            StoppedExactly(s0, steps, Next(After(s0, steps), Unlock), s.jobs[name])
  {
    var j := s.jobs[name];
    var s0 := Next(s, LockStop);
    StepKeepsInv(s, LockStop);
    HeldDuringStop(s0, steps);
    var i := ReachedOnce(s0, steps, j);
    var m := After(s0, steps);
    RunKeepsInv(s0, steps);
    StepKeepsInv(m, Unlock);
    var s1 := Next(m, Unlock);
    forall t: nat ensures Token(s1, j, t) <==> Token(m, j, t) {}
    StartsAgainIffLive(s1, j);
  }

  lemma StopsAll(s: State, steps: seq<Step>)
    requires Inv(s) && Enabled(s, LockStop) && Runs(Next(s, LockStop), steps) && DuringStop(steps)
    requires Enabled(After(Next(s, LockStop), steps), Unlock)
    ensures forall name | name in s.jobs ::
              StoppedExactly(Next(s, LockStop), steps, Next(After(Next(s, LockStop), steps), Unlock), s.jobs[name])
  {
    forall name | name in s.jobs
      ensures StoppedExactly(Next(s, LockStop), steps, Next(After(Next(s, LockStop), steps), Unlock), s.jobs[name])
    {
      StopIsExact(s, steps, name);
    }
  }

  // ------------------------------------------------------- a quiet stop

  ghost predicate Quiet(s: State) {
    s.running && !s.holder.Scheduling? && forall j :: !Live(s, j)
  }

  lemma StepKeepsQuiet(s: State, e: Step)
    requires Inv(s) && Quiet(s) && Enabled(s, e) && !e.LockAdd?
    ensures !(e.EnterRun? || e.LeaveRun? || e.Rearm?)
    ensures Quiet(Next(s, e)) && Next(s, e).log == s.log
  {
    if e.EnterRun? || e.LeaveRun? || e.Rearm? {
      CallbackHoldsToken(s, s.timers[e.timer].job, e.timer);
    }
    forall j: nat ensures !Live(Next(s, e), j) {
      forall t: nat ensures !Token(Next(s, e), j, t) {
        if Token(Next(s, e), j, t) {
          TokensComeFromArming(s, e, j, t);
          TokenLives(s, j, t);
        }
      }
    }
  }

  lemma TokenLives(s: State, j: JobId, t: TimerId)
    requires Token(s, j, t)
    ensures Live(s, j)
  {
  }

  /** With no timer armed and no callback left, nothing ever runs again unless a job is added. */
  lemma {:induction false} QuietForever(s: State, steps: seq<Step>)
    requires Inv(s) && Quiet(s) && Runs(s, steps)
    requires forall e | e in steps :: !e.LockAdd?
    ensures Quiet(After(s, steps)) && After(s, steps).log == s.log
  {
    hide Next, Enabled, Quiet;
    if steps != [] {
      var front, e := steps[..|steps| - 1], steps[|steps| - 1];
      assert e in steps;
      QuietForever(s, front);
      RunKeepsInv(s, front);
      StepKeepsQuiet(After(s, front), e);
    }
  }
}
