/**
 The converse of prompt publication: whenever a timer of a registered job fires
 before it has been published, `Stop` can miss the job with no callback in flight.

 The callback re-arms and publishes its new timer; the late publication of the
 old one then overwrites it, and nothing refers to the new timer any more.
 */
module SchedulerLost {
  import opened Options
  import opened SchedulerMachine
  import opened SchedulerSafety
  import opened SchedulerCancel
  import opened SchedulerPrompt
  import opened SchedulerStop

  predicate Waiting(s: State, j: JobId, u: TimerId) {
    u < |s.timers| && s.timers[u].job == j && s.timers[u].status.Unpublished?
  }

  function WaitingFor(s: State, j: JobId): set<TimerId> {
    set u: TimerId | 0 <= u < |s.timers| && Waiting(s, j, u)
  }

  /** t is the armed timer of the registered job j, and no goroutine will publish it any more. */
  ghost predicate Settled(s: State, j: JobId, t: TimerId) {
    && Inv(s) && !s.crashed && j in s.jobs.Values && j < |s.insts|
    && Token(s, j, t) && s.timers[t].status.Armed?
    && !Pending(s, t) && (forall u: nat :: !Publishes(s, u, t))
    && (s.holder.Scheduling? ==> j !in s.holder.todo)
  }

  /** ... and neither j.timer nor any goroutine of j refers to it. */
  ghost predicate Lost(s: State, j: JobId, t: TimerId) {
    && Settled(s, j, t) && s.insts[j].timer != Some(t) && WaitingFor(s, j) == {}
    && (s.holder.Scheduling? && s.holder.pending.Some? && s.holder.pending.value < |s.timers| ==>
          s.timers[s.holder.pending.value].job != j)
  }

  lemma LostIsIdle(s: State, j: JobId, t: TimerId)
    requires Lost(s, j, t)
    ensures !InFlight(s, j) && Live(s, j)
  {
    forall u: nat | u < |s.timers| && s.timers[u].job == j
      ensures !InFlightStatus(s.timers[u].status) && !s.timers[u].status.Unpublished?
    {
      if InFlightStatus(s.timers[u].status) { assert Token(s, j, u); }
      assert Waiting(s, j, u) ==> u in WaitingFor(s, j);
    }
  }

  // ------------------------------------------------- the callback overtakes

  function AnyDelay(rule: Rule): (delay: int)
    ensures rule.Allows(delay)
  {
    if rule.Every? then rule.interval else 0
  }

  /** The whole callback of t: it runs the job, arms the next timer and publishes it. */
  function Callback(t: TimerId, delay: int): seq<Step> {
    [Fire(t), EnterRun(t), LeaveRun(t), Rearm(t, delay), Publish(t)]
  }

  /** What the whole callback of t does: its job has a new armed timer, published. */
  ghost predicate CalledBack(s: State, m: State, t: TimerId) {
    && t < |s.timers| && s.timers[t].job < |s.insts|
    && m.jobs == s.jobs && m.running == s.running && m.holder == s.holder && !m.crashed
    && m.insts == s.insts[s.timers[t].job := s.insts[s.timers[t].job].(timer := Some(|s.timers|))]
    && |m.timers| == |s.timers| + 1
    && m.timers[|s.timers|].job == s.timers[t].job && m.timers[|s.timers|].status.Armed?
    && m.timers[t] == Timer(s.timers[t].job, Finished)
    && forall u | 0 <= u < |s.timers| && u != t :: m.timers[u] == s.timers[u]
  }

  lemma CallbackRuns(s: State, t: TimerId, delay: int) returns (steps: seq<Step>, m: State)
    requires Bounded(s) && Enabled(s, Fire(t)) && s.insts[s.timers[t].job].rule.Allows(delay)
    ensures steps == Callback(t, delay) && Exec(s, steps) == Some(m) && CalledBack(s, m, t)
  {
    hide Exec;
    var m1, j := SetStatus(s, t, Spawned), s.timers[t].job;
    RunsNothing(s);
    steps, m := ThenStep(s, [], s, Fire(t));
    steps, m := ThenStep(s, steps, m, EnterRun(t));
    steps, m := ThenStep(s, steps, m, LeaveRun(t));
    assert m.timers == s.timers[t := Timer(j, RunDone)] && m.insts == s.insts && !m.crashed;
    assert m.jobs == s.jobs && m.running == s.running && m.holder == s.holder;
    steps, m := RearmAndPublish(s, steps, m, t, delay);
  }

  lemma RearmAndPublish(s: State, before: seq<Step>, m: State, t: TimerId, delay: int)
    returns (steps: seq<Step>, m': State)
    requires Bounded(s) && t < |s.timers| && s.insts[s.timers[t].job].rule.Allows(delay) && Exec(s, before) == Some(m)
    requires m.timers == s.timers[t := Timer(s.timers[t].job, RunDone)] && m.insts == s.insts && !m.crashed
    requires m.jobs == s.jobs && m.running == s.running && m.holder == s.holder
    ensures steps == before + [Rearm(t, delay), Publish(t)] && Exec(s, steps) == Some(m') && CalledBack(s, m', t)
  {
    hide Exec;
    steps, m' := ThenStep(s, before, m, Rearm(t, delay));
    steps, m' := ThenStep(s, steps, m', Publish(t));
  }

  /** After the callback its new timer is settled: what is still to be published is older. */
  lemma CallbackSettles(s: State, m: State, t: TimerId)
    requires Inv(s) && Inv(m) && Enabled(s, Fire(t)) && s.timers[t].job in s.jobs.Values && CalledBack(s, m, t)
    ensures Settled(m, s.timers[t].job, |s.timers|)
  {
    var j, next := s.timers[t].job, |s.timers|;
    assert Token(s, j, t);
    assert Token(m, j, next);
    forall u: nat ensures !Publishes(m, u, next) {
      assert u < |s.timers| && u != t && s.timers[u].status.Unpublished? ==> s.timers[u].status.next < |s.timers|;
    }
  }

  lemma StillWaiting(s: State, m: State, t: TimerId)
    requires Bounded(s) && CalledBack(s, m, t) && s.timers[t].status.Armed?
    ensures forall u: nat | Publishes(s, u, t) :: Waiting(m, s.timers[t].job, u)
  {
    forall u: nat | Publishes(s, u, t) ensures Waiting(m, s.timers[t].job, u) {
      assert s.timers[u].status.next == t && s.timers[t].job == s.timers[u].job;
    }
  }

  // ---------------------------------------------- late publications follow

  lemma PublishOne(s: State, j: JobId, t: TimerId, u: TimerId)
    requires Settled(s, j, t) && Waiting(s, j, u)
    ensures Enabled(s, Publish(u))
    ensures var m := Next(s, Publish(u));
            && Settled(m, j, t) && m.insts[j].timer != Some(t) && WaitingFor(m, j) == WaitingFor(s, j) - {u}
            && SameBut(s, m)
  {
    var m := Next(s, Publish(u));
    assert Publishes(s, u, s.timers[u].status.next);
    StepKeepsInv(s, Publish(u));
    assert Token(m, j, t);
    forall v: nat ensures !Publishes(m, v, t) { assert Publishes(m, v, t) ==> Publishes(s, v, t); }
    forall v: TimerId ensures Waiting(m, j, v) <==> Waiting(s, j, v) && v != u {}
  }

  /** The API call that holds the mutex, the job map and the rules are as before. */
  ghost predicate SameBut(s: State, m: State) {
    && m.holder == s.holder && m.running == s.running && m.jobs == s.jobs && |m.insts| == |s.insts|
    && (forall i | 0 <= i < |s.insts| :: m.insts[i].rule == s.insts[i].rule)
    && |m.timers| == |s.timers| && forall v | 0 <= v < |s.timers| :: m.timers[v].job == s.timers[v].job
  }

  /** Every goroutine of j that has armed a timer publishes it. */
  lemma PublishAll(s: State, j: JobId, t: TimerId) returns (steps: seq<Step>, m: State)
    requires Settled(s, j, t)
    ensures Exec(s, steps) == Some(m) && Settled(m, j, t) && WaitingFor(m, j) == {} && SameBut(s, m)
    ensures if WaitingFor(s, j) == {} then m == s else m.insts[j].timer != Some(t)
    decreases WaitingFor(s, j)
  {
    hide Exec, Settled, WaitingFor, Next, Enabled;
    RunsNothing(s);
    steps, m := [], s;
    if WaitingFor(s, j) != {} {
      var u :| u in WaitingFor(s, j);
      MemberWaits(s, j, u);
      PublishOne(s, j, t, u);
      var rest;
      steps, m := ThenStep(s, [], s, Publish(u));
      var m1 := m;
      rest, m := PublishAll(m1, j, t);
      RunsConcat(s, steps, rest);
      steps := steps + rest;
    }
  }

  lemma MemberWaits(s: State, j: JobId, u: TimerId)
    ensures u in WaitingFor(s, j) <==> Waiting(s, j, u)
  {
  }

  /** The API call publishes the timer it has armed for j. */
  lemma PublishPending(s: State, j: JobId, t: TimerId, p: TimerId)
    requires Settled(s, j, t) && WaitingFor(s, j) == {} && Pending(s, p) && p < |s.timers| && s.timers[p].job == j
    ensures Enabled(s, PublishNew) && Lost(Next(s, PublishNew), j, t)
    ensures Next(s, PublishNew).holder == Scheduling(s.holder.todo, None)
    ensures var m := Next(s, PublishNew);
            |m.insts| == |s.insts| && forall i | 0 <= i < |s.insts| :: m.insts[i].rule == s.insts[i].rule
  {
    var m := Next(s, PublishNew);
    StepKeepsInv(s, PublishNew);
    assert Token(m, j, t);
    forall v: nat ensures !Publishes(m, v, t) { assert Publishes(m, v, t) ==> Publishes(s, v, t); }
    assert WaitingFor(m, j) == WaitingFor(s, j) by {
      forall v: TimerId ensures Waiting(m, j, v) <==> Waiting(s, j, v) {}
    }
  }

  /** What an API call has still to schedule can be scheduled. */
  ghost predicate Usable(s: State) {
    s.holder.Scheduling? ==> forall i | i in s.holder.todo :: i < |s.insts| && s.insts[i].rule.Schedulable()
  }

  lemma UsableAfter(s: State, m: State)
    requires Usable(s) && m.holder == s.holder && |m.insts| == |s.insts|
    requires forall i | 0 <= i < |s.insts| :: m.insts[i].rule == s.insts[i].rule
    ensures Usable(m)
  {
  }

  /** With every publication of j carried out, the new timer is lost if one of them came late. */
  lemma LateCallback(m1: State, m2: State, j: JobId, next: TimerId)
    requires SameBut(m1, m2) && Settled(m2, j, next) && WaitingFor(m2, j) == {}
    requires m2.holder.Scheduling? && m2.holder.pending.Some? && m2.holder.pending.value < |m2.timers| ==>
               m2.timers[m2.holder.pending.value].job != j
    requires WaitingFor(m1, j) != {} && m2.insts[j].timer != Some(next)
    ensures Lost(m2, j, next)
  {
  }

  /** After the callback: the late publications, by goroutines of the job and by the API call. */
  lemma LatePublications(s: State, m1: State, t: TimerId) returns (steps: seq<Step>, m: State)
    requires Inv(s) && Inv(m1) && Enabled(s, Fire(t)) && !PromptStep(s, Fire(t)) && s.timers[t].job in s.jobs.Values
    requires Usable(s) && CalledBack(s, m1, t)
    ensures Exec(m1, steps) == Some(m) && Lost(m, s.timers[t].job, |s.timers|) && Usable(m)
  {
    var j, next := s.timers[t].job, |s.timers|;
    CallbackSettles(s, m1, t);
    StillWaiting(s, m1, t);
    UsableAfter(s, m1);
    hide Exec, Inv, Settled, Lost, Next, Enabled, WaitingFor, Usable;
    steps, m := PublishAll(m1, j, next);
    UsableAfter(m1, m);
    if m.holder.Scheduling? && m.holder.pending.Some? && m.holder.pending.value < |m.timers|
       && m.timers[m.holder.pending.value].job == j {
      PublishPending(m, j, next, m.holder.pending.value);
      UsableLater(m);
      RunsOneMore(m1, steps, PublishNew);
      steps, m := steps + [PublishNew], Next(m, PublishNew);
    } else {
      var u: nat :| Publishes(s, u, t);
      MemberWaits(m1, j, u);
      LateCallback(m1, m, j, next);
    }
  }

  lemma UsableLater(s: State)
    requires Usable(s) && Enabled(s, PublishNew)
    ensures Usable(Next(s, PublishNew))
  {
  }

  /** A timer that fires before its publication: a continuation after which its successor is lost. */
  lemma FireLoses(s: State, t: TimerId) returns (steps: seq<Step>, m: State)
    requires Inv(s) && Enabled(s, Fire(t)) && !PromptStep(s, Fire(t)) && s.timers[t].job in s.jobs.Values && Usable(s)
    ensures |steps| > 0 && steps[0] == Fire(t)
    ensures Exec(s, steps) == Some(m) && Lost(m, s.timers[t].job, |s.timers|) && Usable(m)
  {
    assert Bounded(s);
    hide Exec, Lost, Usable, PromptStep, Next;
    var first, m1 := CallbackRuns(s, t, AnyDelay(s.insts[s.timers[t].job].rule));
    RunKeepsInv(s, first);
    var more;
    more, m := LatePublications(s, m1, t);
    RunsConcat(s, first, more);
    steps := first + more;
  }

  // --------------------------------------------- the API calls run to their end

  predicate OfCall(e: Step) { e.LockStop? || e.ArmNew? || e.PublishNew? || e.CancelJob? || e.Unlock? }

  /** Such a step stops the one timer that a cancellation finds in j.timer, or adds one, and touches no other timer. */
  lemma CallLeavesTimers(s: State, e: Step, j: JobId, t: TimerId)
    requires Bounded(s) && OneToken(s) && Token(s, j, t) && s.insts[j].timer != Some(t) && Enabled(s, e) && OfCall(e)
    ensures Token(Next(s, e), j, t) && Next(s, e).timers[t] == s.timers[t]
  {
    if e.CancelJob? { CancelTakes(s, e.job, j, t); }
  }

  lemma CallLeavesPublications(s: State, e: Step, u: TimerId)
    requires Enabled(s, e) && OfCall(e)
    ensures forall v: TimerId :: Publishes(Next(s, e), u, v) <==> Publishes(s, u, v)
    ensures forall j: JobId :: Waiting(Next(s, e), j, u) <==> Waiting(s, j, u)
  {
  }

  lemma CallLeavesJob(s: State, e: Step, j: JobId)
    requires Enabled(s, e) && OfCall(e) && j < |s.insts|
    requires e.PublishNew? ==> s.timers[s.holder.pending.value].job != j
    ensures var m := Next(s, e);
            m.jobs == s.jobs && j < |m.insts| && m.insts[j].timer == s.insts[j].timer && !m.crashed
  {
  }

  lemma CallLeavesHolder(s: State, e: Step, j: JobId, t: TimerId)
    requires Enabled(s, e) && OfCall(e) && t < |s.timers| && !Pending(s, t)
    requires s.holder.Scheduling? ==> j !in s.holder.todo
    requires s.holder.Scheduling? && s.holder.pending.Some? && s.holder.pending.value < |s.timers| ==>
               s.timers[s.holder.pending.value].job != j
    ensures var m := Next(s, e);
            && !Pending(m, t) && (m.holder.Scheduling? ==> j !in m.holder.todo)
            && (m.holder.Scheduling? && m.holder.pending.Some? && m.holder.pending.value < |m.timers| ==>
                  m.timers[m.holder.pending.value].job != j)
  {
  }

  /** Steps of API calls that neither add nor remove jobs leave a lost timer lost. */
  lemma CallKeepsLost(s: State, e: Step, j: JobId, t: TimerId)
    requires Lost(s, j, t) && Enabled(s, e) && OfCall(e)
    ensures Lost(Next(s, e), j, t) && Next(s, e).jobs == s.jobs
  {
    hide Next, Enabled, Token, Publishes, Pending, WaitingFor, OfCall;
    var m := Next(s, e);
    StepKeepsInv(s, e);
    LostFacts(s, j, t);
    if e.PublishNew? { PendingIsThere(s, e); }
    CallLeavesTimers(s, e, j, t);
    CallLeavesJob(s, e, j);
    CallLeavesHolder(s, e, j, t);
    forall u: nat ensures !Publishes(m, u, t) && !Waiting(m, j, u) {
      CallLeavesPublications(s, e, u);
      MemberWaits(s, j, u);
    }
    forall u: TimerId ensures u !in WaitingFor(m, j) { MemberWaits(m, j, u); }
  }

  lemma LostFacts(s: State, j: JobId, t: TimerId)
    requires Lost(s, j, t)
    ensures Inv(s) && !s.crashed && t < |s.timers|
  {
  }

  lemma PendingIsThere(s: State, e: Step)
    requires Enabled(s, e) && e.PublishNew?
    ensures s.holder.Scheduling? && s.holder.pending.Some? && s.holder.pending.value < |s.timers|
  {
  }

  /** How many steps the API call that holds the mutex has left, at most. */
  function Left(s: State): nat {
    match s.holder
    case Free => 0
    case Scheduling(todo, pending) => 2 * |todo| + (if pending.Some? then 2 else 1)
    case Cancelling(todo) => |todo| + 1
  }

  /** The next step of the API call that holds the mutex. */
  lemma CallStep(s: State) returns (e: Step)
    requires Inv(s) && !s.crashed && Usable(s) && !s.holder.Free?
    ensures Enabled(s, e) && Usable(Next(s, e)) && (e.ArmNew? || e.PublishNew? || e.CancelJob? || e.Unlock?)
    ensures s.holder.Cancelling? ==> e.CancelJob? || e.Unlock?
    ensures e.Unlock? ==> Next(s, e).holder.Free? && Next(s, e).running
    ensures !e.Unlock? ==> !Next(s, e).holder.Free? && (Next(s, e).holder.Cancelling? <==> s.holder.Cancelling?)
    ensures Left(Next(s, e)) < Left(s)
  {
    match s.holder
    case Cancelling(todo) =>
      if todo == {} {
        e := Unlock;
      } else {
        var i :| i in todo;
        assert |todo - {i}| == |todo| - 1;
        e := CancelJob(i);
      }
    case Scheduling(todo, pending) =>
      if pending.Some? {
        e := PublishNew;
      } else if todo == {} {
        e := Unlock;
      } else {
        var i :| i in todo;
        assert |todo - {i}| == |todo| - 1;
        e := ArmNew(i, AnyDelay(s.insts[i].rule));
      }
  }

  lemma DuringMore(e: Step, rest: seq<Step>)
    requires rest != [] && DuringStop(rest[..|rest| - 1]) && e.CancelJob?
    ensures DuringStop(([e] + rest)[..|rest|])
  {
    assert ([e] + rest)[..|rest|] == [e] + rest[..|rest| - 1];
  }

  /** The API call that holds the mutex runs to its end, and the lost timer stays lost. */
  lemma Finish(s: State, j: JobId, t: TimerId) returns (steps: seq<Step>, m: State)
    requires Lost(s, j, t) && Usable(s) && !s.holder.Free?
    ensures Exec(s, steps) == Some(m) && Lost(m, j, t) && steps != [] && steps[|steps| - 1] == Unlock
    ensures m.holder.Free? && m.running && m.jobs == s.jobs
    ensures s.holder.Cancelling? ==> DuringStop(steps[..|steps| - 1])
    decreases Left(s)
  {
    hide Exec, Lost, Usable, Next, Enabled, Left, Inv, DuringStop;
    LostFacts(s, j, t);
    var e := CallStep(s);
    CallKeepsLost(s, e, j, t);
    RunsNothing(s);
    RunsOneMore(s, [], e);
    assert [] + [e] == [e];
    if e.Unlock? {
      steps, m := [e], Next(s, e);
      NothingDuring();
      assert steps[..0] == [];
    } else {
      var rest;
      rest, m := Finish(Next(s, e), j, t);
      RunsConcat(s, [e], rest);
      steps := [e] + rest;
      if s.holder.Cancelling? { DuringMore(e, rest); }
    }
  }

  lemma NothingDuring()
    ensures DuringStop([])
  {
  }

  // -------------------------------------------------------------- the theorem

  /** A complete `Stop` that misses j: no callback of j is in flight before or after it, and j can start again. */
  ghost predicate Misses(now: int, before: seq<Step>, stop: seq<Step>, j: JobId) {
    && CompleteStop(now, before, stop) && j in Locked(now, before).jobs.Values
    && !InFlight(Locked(now, before), j) && !InFlight(Stopped(now, before, stop), j)
    && CanStartAgain(Stopped(now, before, stop), j)
  }

  /** From a lost timer on, finishing the current call and then calling `Stop` misses the job. */
  lemma LostIsMissed(now: int, history: seq<Step>, j: JobId, t: TimerId) returns (before: seq<Step>, stop: seq<Step>)
    requires Runs(Init(now), history) && Lost(After(Init(now), history), j, t) && Usable(After(Init(now), history))
    ensures history <= before && Misses(now, before, stop, j)
  {
    var s := After(Init(now), history);
    before := history;
    var m := s;
    if !s.holder.Free? {
      var rest;
      rest, m := Finish(s, j, t);
      RunsConcat(Init(now), history, rest);
      before := history + rest;
    }
    StartedBefore(m, j, t);
    CallKeepsLost(m, LockStop, j, t);
    var locked := Next(m, LockStop);
    LostIsIdle(locked, j, t);
    var steps, s1 := Finish(locked, j, t);
    stop := steps[..|steps| - 1];
    LastStep(locked, steps, s1);
    LostIsIdle(s1, j, t);
    LiveRestarts(s1, j);
  }

  lemma StartedBefore(s: State, j: JobId, t: TimerId)
    requires Lost(s, j, t) && s.holder.Free?
    ensures s.running && Enabled(s, LockStop)
  {
  }

  lemma LastStep(s: State, steps: seq<Step>, s1: State)
    requires Exec(s, steps) == Some(s1) && steps != []
    ensures var front, e := steps[..|steps| - 1], steps[|steps| - 1];
            Runs(s, front) && Enabled(After(s, front), e) && s1 == Next(After(s, front), e)
  {
  }

  lemma Continues(steps: seq<Step>, more: seq<Step>, before: seq<Step>)
    requires more != [] && steps + more <= before
    ensures steps + [more[0]] <= before
  {
    assert (steps + more)[..|steps| + 1] == steps + [more[0]];
  }

  /**
   The converse of PromptEscapesIffInFlight: if in any reachable state a timer
   of a registered job fires before it has been published, then some
   continuation ends in a `Stop` that misses the job although none of its
   callbacks is in flight.
   */
  lemma UnpromptFireIsMissed(now: int, steps: seq<Step>, t: TimerId) returns (before: seq<Step>, stop: seq<Step>)
    requires Runs(Init(now), steps) && Enabled(After(Init(now), steps), Fire(t)) && Usable(After(Init(now), steps))
    requires !PromptStep(After(Init(now), steps), Fire(t))
    requires After(Init(now), steps).timers[t].job in After(Init(now), steps).jobs.Values
    ensures steps + [Fire(t)] <= before
    ensures Misses(now, before, stop, After(Init(now), steps).timers[t].job)
  {
    var s := After(Init(now), steps);
    Reachable(now, steps);
    hide Exec, Lost, Usable, PromptStep, Inv, Next, Enabled, Misses;
    var more, m := FireLoses(s, t);
    RunsConcat(Init(now), steps, more);
    before, stop := LostIsMissed(now, steps + more, s.timers[t].job, |s.timers|);
    Continues(steps, more, before);
  }
}
