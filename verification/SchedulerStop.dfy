/** Every instance ever allocated, after a complete `Stop`: which can start again, and when nothing can. */
module SchedulerStop {
  import opened SchedulerMachine
  import opened SchedulerSafety
  import opened SchedulerCancel

  /** What an API call has still to do concerns registered jobs only. */
  ghost predicate TodoListed(s: State) {
    match s.holder
    case Free => true
    case Scheduling(todo, _) => todo <= s.jobs.Values
    case Cancelling(todo) => todo <= s.jobs.Values
  }

  lemma StepKeepsListed(s: State, e: Step)
    requires TodoListed(s) && Enabled(s, e)
    ensures TodoListed(Next(s, e))
  {
    if e.LockAdd? {
      assert Next(s, e).jobs[e.name] == |s.insts|;
    }
  }

  lemma {:induction false} RunKeepsListed(s: State, steps: seq<Step>)
    requires TodoListed(s) && Runs(s, steps)
    ensures TodoListed(After(s, steps))
  {
    if steps != [] {
      var front := steps[..|steps| - 1];
      RunKeepsListed(s, front);
      StepKeepsListed(After(s, front), steps[|steps| - 1]);
    }
  }

  // --------------------------------------------------- removed instances

  /** Allocated, and registered under no name. */
  ghost predicate Nameless(s: State, j: JobId) {
    j < |s.insts| && j !in s.jobs.Values
  }

  lemma StaysNameless(s: State, e: Step, j: JobId)
    requires Nameless(s, j) && Enabled(s, e)
    ensures Nameless(Next(s, e), j)
  {
  }

  /** No later call reaches an instance without a name: its fate is its own. */
  lemma StepKeepsNameless(s: State, e: Step, j: JobId)
    requires Inv(s) && TodoListed(s) && Enabled(s, e) && Nameless(s, j)
    ensures Nameless(Next(s, e), j) && (Live(Next(s, e), j) <==> Live(s, j))
  {
    StaysNameless(s, e, j);
    assert !Cancels(s, e, j);
    if Live(s, j) {
      StepKeepsLive(s, e, j);
    } else {
      StepKeepsDead(s, e, j);
    }
  }

  lemma {:induction false} RunKeepsNameless(s: State, steps: seq<Step>, j: JobId)
    requires Inv(s) && TodoListed(s) && Runs(s, steps) && Nameless(s, j)
    ensures Nameless(After(s, steps), j) && (Live(After(s, steps), j) <==> Live(s, j))
  {
    if steps != [] {
      var front := steps[..|steps| - 1];
      RunKeepsNameless(s, front, j);
      RunKeepsInv(s, front);
      RunKeepsListed(s, front);
      StepKeepsNameless(After(s, front), steps[|steps| - 1], j);
    }
  }

  /** Step i of the run is a cancellation of j. */
  ghost predicate CancelledAt(s: State, steps: seq<Step>, i: nat, j: JobId) {
    && i < |steps| && Runs(s, steps[..i]) && j < |After(s, steps[..i]).insts|
    && Enabled(After(s, steps[..i]), steps[i]) && Cancels(After(s, steps[..i]), steps[i], j)
  }

  /** ... which j escapes. */
  ghost predicate EscapedAt(s: State, steps: seq<Step>, i: nat, j: JobId) {
    CancelledAt(s, steps, i, j) && Escapes(After(s, steps[..i]), j)
  }

  lemma RemovalIsExact(s: State, e: Step, j: JobId)
    requires Inv(s) && Enabled(s, e) && e.RemoveJob? && s.jobs[e.name] == j
    ensures Nameless(Next(s, e), j) && (Live(Next(s, e), j) <==> Escapes(s, j))
  {
    var s' := Next(s, e);
    CancelEffect(s, j);
    forall t: nat ensures Token(s', j, t) <==> Token(Cancel(s, j), j, t) {}
    forall n | n in s'.jobs ensures s'.jobs[n] != j {
      assert n in s.jobs && n != e.name;
    }
  }

  /** What a removal leaves of its instance is decided at that moment, whatever is called later. */
  lemma RemovalDecides(now: int, steps: seq<Step>, i: nat, j: JobId)
    requires Runs(Init(now), steps) && CancelledAt(Init(now), steps, i, j) && steps[i].RemoveJob?
    ensures Nameless(After(Init(now), steps), j)
    ensures Live(After(Init(now), steps), j) <==> EscapedAt(Init(now), steps, i, j)
  {
    RunsSplit(Init(now), steps, i + 1);
    assert steps[..i + 1][..i] == steps[..i];
    var m := After(Init(now), steps[..i]);
    Reachable(now, steps[..i]);
    RemovalIsExact(m, steps[i], j);
    StepKeepsInv(m, steps[i]);
    RunKeepsListed(Init(now), steps[..i + 1]);
    RunKeepsNameless(Next(m, steps[i]), steps[i + 1..], j);
  }

  /** Only a removal takes the name from an instance. */
  lemma {:induction false} NamelessWasRemoved(now: int, steps: seq<Step>, j: JobId) returns (i: nat)
    requires Runs(Init(now), steps) && Nameless(After(Init(now), steps), j)
    ensures CancelledAt(Init(now), steps, i, j) && steps[i].RemoveJob?
  {
    var n := |steps| - 1;
    var front, e := steps[..n], steps[n];
    var m := After(Init(now), front);
    if Nameless(m, j) {
      i := NamelessWasRemoved(now, front, j);
      assert front[..i] == steps[..i];
    } else {
      i := n;
      LosesName(m, e, j);
    }
  }

  lemma NamesStay(s: State, e: Step, n: string)
    requires Enabled(s, e) && n in s.jobs
    ensures e == RemoveJob(n) || (n in Next(s, e).jobs && Next(s, e).jobs[n] == s.jobs[n])
  {
  }

  lemma LosesName(s: State, e: Step, j: JobId)
    requires Enabled(s, e) && !Nameless(s, j) && Nameless(Next(s, e), j)
    ensures e.RemoveJob? && s.jobs[e.name] == j && j < |s.insts|
  {
    var s' := Next(s, e);
    if e.LockAdd? {
      assert s'.jobs[e.name] == |s.insts|;
    }
    if j in s.jobs.Values {
      var n :| n in s.jobs && s.jobs[n] == j;
      NamesStay(s, e, n);
    }
  }

  // ------------------------------------------------------ a complete Stop

  /** A run, a call of `Stop` after it, and everything that happened during the call. */
  ghost predicate CompleteStop(now: int, before: seq<Step>, steps: seq<Step>) {
    && Runs(Init(now), before) && Enabled(After(Init(now), before), LockStop)
    && Runs(Locked(now, before), steps) && DuringStop(steps)
    && Enabled(After(Locked(now, before), steps), Unlock)
  }

  /** The moment `Stop` has taken the mutex. */
  function Locked(now: int, before: seq<Step>): State
    requires Runs(Init(now), before) && Enabled(After(Init(now), before), LockStop)
  {
    Next(After(Init(now), before), LockStop)
  }

  /** The moment `Stop` has returned. */
  ghost function Stopped(now: int, before: seq<Step>, steps: seq<Step>): State
    requires CompleteStop(now, before, steps)
  {
    Next(After(Locked(now, before), steps), Unlock)
  }

  ghost predicate EscapedStop(now: int, before: seq<Step>, steps: seq<Step>, j: JobId)
    requires CompleteStop(now, before, steps)
  {
    exists i: nat :: EscapedAt(Locked(now, before), steps, i, j)
  }

  ghost predicate EscapedRemoval(now: int, before: seq<Step>, j: JobId) {
    exists i: nat :: EscapedAt(Init(now), before, i, j) && before[i].RemoveJob?
  }

  lemma StopKeepsInv(now: int, before: seq<Step>, steps: seq<Step>)
    requires CompleteStop(now, before, steps)
    ensures Inv(Locked(now, before)) && Inv(After(Locked(now, before), steps)) && Inv(Stopped(now, before, steps))
    ensures TodoListed(Locked(now, before)) && Held(Locked(now, before), After(Locked(now, before), steps))
    ensures forall j: nat :: Live(Stopped(now, before, steps), j) <==> Live(After(Locked(now, before), steps), j)
  {
    var s0 := Locked(now, before);
    var m := After(s0, steps);
    Reachable(now, before);
    StepKeepsInv(After(Init(now), before), LockStop);
    RunKeepsInv(s0, steps);
    StepKeepsInv(m, Unlock);
    RunKeepsListed(Init(now), before);
    StepKeepsListed(After(Init(now), before), LockStop);
    HeldDuringStop(s0, steps);
    forall j: nat, t: nat ensures Token(Next(m, Unlock), j, t) <==> Token(m, j, t) {}
  }

  /** A registered job: it lives on iff it escaped its one cancellation, and was never removed before. */
  lemma RegisteredAfterStop(now: int, before: seq<Step>, steps: seq<Step>, j: JobId)
    requires CompleteStop(now, before, steps) && j in Locked(now, before).jobs.Values
    ensures Live(After(Locked(now, before), steps), j) <==> EscapedStop(now, before, steps, j)
    ensures !EscapedRemoval(now, before, j)
  {
    var s0 := Locked(now, before);
    StopKeepsInv(now, before, steps);
    var k := ReachedOnce(s0, steps, j);
    forall i: nat | EscapedAt(s0, steps, i, j) ensures i == k {
      assert steps[i] in steps;
    }
    assert EscapedAt(s0, steps, k, j) <==> Escapes(After(s0, steps[..k]), j);
    forall i: nat | EscapedAt(Init(now), before, i, j) && before[i].RemoveJob? ensures false {
      RemovalDecides(now, before, i, j);
    }
  }

  /** An instance without a name: `Stop` does not reach it, and it lives on iff it escaped its removal. */
  lemma NamelessAfterStop(now: int, before: seq<Step>, steps: seq<Step>, j: JobId)
    requires CompleteStop(now, before, steps) && Nameless(Locked(now, before), j)
    ensures Live(After(Locked(now, before), steps), j) <==> EscapedRemoval(now, before, j)
    ensures !EscapedStop(now, before, steps, j)
  {
    var s, s0 := After(Init(now), before), Locked(now, before);
    StopKeepsInv(now, before, steps);
    RunKeepsNameless(s0, steps, j);
    forall t: nat ensures Token(s0, j, t) <==> Token(s, j, t) {}
    var k := NamelessWasRemoved(now, before, j);
    RemovalDecides(now, before, k, j);
    forall i: nat | EscapedAt(Init(now), before, i, j) && before[i].RemoveJob? ensures Live(s, j) {
      RemovalDecides(now, before, i, j);
    }
    forall i: nat | EscapedAt(s0, steps, i, j) ensures false {
      assert steps[i] in steps;
      RunsSplit(s0, steps, i);
      DuringPrefix(steps, i);
      HeldDuringStop(s0, steps[..i]);
    }
  }

  lemma DuringPrefix(steps: seq<Step>, i: nat)
    requires DuringStop(steps) && i <= |steps|
    ensures DuringStop(steps[..i])
  {
    forall e | e in steps[..i] ensures e in steps {}
  }

  /**
   After a complete `Stop`, whatever was called before and whatever the clock
   and the callbacks did meanwhile: of all instances ever allocated exactly
   those can start again that escaped this `Stop` or, removed earlier, escaped
   their `Remove`.
   */
  lemma StopDecides(now: int, before: seq<Step>, steps: seq<Step>, j: JobId)
    requires CompleteStop(now, before, steps) && j < |Stopped(now, before, steps).insts|
    ensures CanStartAgain(Stopped(now, before, steps), j) <==>
              EscapedStop(now, before, steps, j) || EscapedRemoval(now, before, j)
  {
    StopKeepsInv(now, before, steps);
    StartsAgainIffLive(Stopped(now, before, steps), j);
    if j in Locked(now, before).jobs.Values {
      RegisteredAfterStop(now, before, steps, j);
    } else {
      NamelessAfterStop(now, before, steps, j);
    }
  }

  /** No instance escaped this `Stop` or any removal before it. */
  ghost predicate NoneEscaped(now: int, before: seq<Step>, steps: seq<Step>)
    requires CompleteStop(now, before, steps)
  {
    forall j: JobId :: !EscapedStop(now, before, steps, j) && !EscapedRemoval(now, before, j)
  }

  /** `Stop` leaves no timer and no callback behind exactly when nothing escaped. */
  lemma QuietIffNoneEscaped(now: int, before: seq<Step>, steps: seq<Step>)
    requires CompleteStop(now, before, steps)
    ensures Quiet(Stopped(now, before, steps)) <==> NoneEscaped(now, before, steps)
  {
    var s1 := Stopped(now, before, steps);
    StopKeepsInv(now, before, steps);
    forall j: JobId
      ensures Live(s1, j) <==> EscapedStop(now, before, steps, j) || EscapedRemoval(now, before, j)
    {
      if j < |s1.insts| {
        StopDecides(now, before, steps, j);
        StartsAgainIffLive(s1, j);
      } else {
        Unallocated(now, before, steps, j);
      }
    }
  }

  lemma Unallocated(now: int, before: seq<Step>, steps: seq<Step>, j: JobId)
    requires CompleteStop(now, before, steps) && j >= |Stopped(now, before, steps).insts|
    ensures !Live(Stopped(now, before, steps), j)
    ensures !EscapedStop(now, before, steps, j) && !EscapedRemoval(now, before, j)
  {
    StopKeepsInv(now, before, steps);
    var s0 := Locked(now, before);
    forall i: nat ensures !EscapedAt(s0, steps, i, j) {
      if CancelledAt(s0, steps, i, j) {
        DuringPrefix(steps, i);
        HeldDuringStop(s0, steps[..i]);
      }
    }
    forall i: nat | EscapedAt(Init(now), before, i, j) && before[i].RemoveJob? ensures false {
      RemovalDecides(now, before, i, j);
    }
  }

  /** When nothing escaped, no run ever starts again unless a job is added. */
  lemma StopSilences(now: int, before: seq<Step>, steps: seq<Step>, later: seq<Step>)
    requires CompleteStop(now, before, steps) && NoneEscaped(now, before, steps)
    requires Runs(Stopped(now, before, steps), later) && forall e | e in later :: !e.LockAdd?
    ensures After(Stopped(now, before, steps), later).log == Stopped(now, before, steps).log
  {
    QuietIffNoneEscaped(now, before, steps);
    StopKeepsInv(now, before, steps);
    QuietForever(Stopped(now, before, steps), later);
  }

  // ------------------------------------------------------- no second start

  lemma StaysRunning(s: State, e: Step)
    requires s.running && Enabled(s, e)
    ensures Next(s, e).running
  {
  }

  /** `running` is never reset: once a scheduler has been started, stopped or not, every further `Start` is refused. */
  lemma {:induction false} NeverStartsAgain(s: State, steps: seq<Step>)
    requires s.running && Runs(s, steps)
    ensures After(s, steps).running && !Enabled(After(s, steps), LockStart)
  {
    hide Next;
    if steps != [] {
      var front := steps[..|steps| - 1];
      NeverStartsAgain(s, front);
      StaysRunning(After(s, front), steps[|steps| - 1]);
    }
  }
}
