/**
 The scheduler's methods, run under interference.

 The fields are those of the Go struct, its job structs, the runtime's timers
 and the mutex.  Between any two actions of a method the clock, the timers and
 the callbacks may take any number of steps (`Interfere`).  `history` records
 every step, so each method is shown to be a run of the step system and the
 theorems about all runs apply to it.
 */
module SchedulerImpl {
  import opened Options
  import opened SchedulerMachine
  import opened SchedulerSafety
  import opened SchedulerCancel
  import opened SchedulerStop
  import opened SchedulerDue

  datatype Outcome =
    | Done
    | ErrInvalidCronExpr
    | ErrJobAlreadyExist
    | ErrJobNotFound
    | ErrAlreadyStarted
    | ErrNotRunning
    | Panicked  // a nil cron expression was dereferenced

  /** What interference leaves alone: everything the mutex guards, and the life of every job. */
  ghost predicate Onward(s: State, s': State) {
    && s'.jobs == s.jobs && s'.running == s.running && s'.holder == s.holder && s'.crashed == s.crashed
    && SameRules(s, s')
    && SameLife(s, s')
  }

  /** The same instances have a timer or a callback. */
  ghost predicate SameLife(s: State, s': State) {
    forall j: nat :: Live(s', j) <==> Live(s, j)
  }

  ghost predicate SameRules(s: State, s': State) {
    |s'.insts| == |s.insts| && forall j | 0 <= j < |s.insts| :: s'.insts[j].rule == s.insts[j].rule
  }

  lemma OnwardStep(s0: State, s: State, e: Step)
    requires Inv(s) && Enabled(s, e) && !e.ByApi() && Onward(s0, s)
    ensures Onward(s0, Next(s, e))
  {
    KeepsLife(s, e);
  }

  /** No step but arming from outside and cancelling changes which instances have a timer or a callback. */
  lemma KeepsLife(s: State, e: Step)
    requires Inv(s) && Enabled(s, e) && !e.CancelJob? && !e.RemoveJob? && !e.ArmNew?
    ensures SameLife(s, Next(s, e))
  {
    forall j: nat ensures Live(Next(s, e), j) <==> Live(s, j) {
      if Live(s, j) {
        StepKeepsLive(s, e, j);
      } else {
        NoLifeFromNothing(s, e, j);
      }
    }
  }

  lemma NoLifeFromNothing(s: State, e: Step, j: JobId)
    requires Inv(s) && Enabled(s, e) && !Live(s, j) && !(e.ArmNew? && e.job == j)
    ensures !Live(Next(s, e), j)
  {
    forall t: nat ensures !Token(Next(s, e), j, t) {
      if Token(Next(s, e), j, t) {
        TokensComeFromArming(s, e, j, t);
        if e.Rearm? { CallbackHoldsToken(s, s.timers[e.timer].job, e.timer); }
        if Token(s, j, t) { TokenLives(s, j, t); }
      }
    }
  }

  /** Arming a job gives life to it and to no other. */
  lemma ArmingGivesLife(s: State, j: JobId, delay: int)
    requires Inv(s) && Enabled(s, ArmNew(j, delay))
    ensures forall i: nat :: Live(Next(s, ArmNew(j, delay)), i) <==> i == j || Live(s, i)
  {
    var e := ArmNew(j, delay);
    forall i: nat ensures Live(Next(s, e), i) <==> i == j || Live(s, i) {
      if i == j {
        ArmNewStep(s, j, delay);
      } else if Live(s, i) {
        StepKeepsLive(s, e, i);
      } else {
        NoLifeFromNothing(s, e, i);
      }
    }
  }

  /** Which of the other instances have a timer or a callback is as before. */
  ghost predicate OthersLive(s: State, s': State, j: JobId) {
    forall i: nat | i != j :: Live(s', i) <==> Live(s, i)
  }

  /** Before the first start nothing has a timer. */
  lemma IdleBeforeStart(s: State)
    requires Inv(s) && s.holder.Free? && !s.running
    ensures forall j: nat :: !Live(s, j)
  {
  }

  /** Every registered job has an interval or a cron expression. */
  ghost predicate AllUsable(s: State) {
    forall n | n in s.jobs :: s.jobs[n] < |s.insts| && s.insts[s.jobs[n]].rule.Schedulable()
  }

  lemma LockStartStep(s: State)
    requires Inv(s) && !s.crashed && s.holder.Free? && !s.running
    ensures Enabled(s, LockStart) && Next(s, LockStart) == s.(holder := Scheduling(s.jobs.Values, None))
    ensures forall n | n in s.jobs :: s.jobs[n] < |s.insts|
  {
  }

  lemma UnlockStep(s: State)
    requires !s.crashed && s.holder.Scheduling? && s.holder.todo == {} && s.holder.pending.None?
    ensures Enabled(s, Unlock) && Next(s, Unlock) == s.(holder := Free, running := true)
  {
  }

  lemma NilCronStep(s: State, j: JobId)
    requires !s.crashed && s.holder.Scheduling? && s.holder.pending.None? && j in s.holder.todo && j < |s.insts|
    requires !s.insts[j].rule.Schedulable()
    ensures Enabled(s, NilCron(j)) && Next(s, NilCron(j)) == s.(crashed := true)
  {
  }

  lemma ArmNewStep(s: State, j: JobId, delay: int)
    requires !s.crashed && s.holder.Scheduling? && s.holder.pending.None? && j in s.holder.todo && j < |s.insts|
    requires s.insts[j].rule.Schedulable() && s.insts[j].rule.Allows(delay)
    ensures Enabled(s, ArmNew(j, delay))
    ensures var s' := Next(s, ArmNew(j, delay));
            && s'.jobs == s.jobs && s'.running == s.running && s'.insts == s.insts && !s'.crashed && s'.now == s.now
            && s'.holder == Scheduling(s.holder.todo - {j}, Some(|s.timers|)) && Live(s', j)
  {
    assert Token(Next(s, ArmNew(j, delay)), j, |s.timers|);
  }

  lemma PublishNewStep(s: State)
    requires Inv(s) && !s.crashed && s.holder.Scheduling? && s.holder.pending.Some?
    ensures Enabled(s, PublishNew)
    ensures var s' := Next(s, PublishNew);
            && s'.now == s.now && s'.jobs == s.jobs && s'.running == s.running && SameRules(s, s') && !s'.crashed
            && s'.holder == Scheduling(s.holder.todo, None)
  {
  }

  lemma NewJobIsIdle(s: State, name: string, rule: Rule)
    requires Inv(s) && Enabled(s, LockAdd(name, rule))
    ensures !Live(Next(s, LockAdd(name, rule)), |s.insts|)
  {
  }

  lemma DecidedByStop(epoch: int, before: seq<Step>, steps: seq<Step>, s1: State)
    requires CompleteStop(epoch, before, steps) && s1 == Stopped(epoch, before, steps)
    ensures forall j: JobId | j < |s1.insts| ::
              CanStartAgain(s1, j) <==> EscapedStop(epoch, before, steps, j) || EscapedRemoval(epoch, before, j)
  {
    forall j: JobId | j < |s1.insts|
      ensures CanStartAgain(s1, j) <==> EscapedStop(epoch, before, steps, j) || EscapedRemoval(epoch, before, j)
    {
      StopDecides(epoch, before, steps, j);
    }
  }

  class Scheduler {
    var jobs: map<string, JobId>
    var running: bool
    var insts: seq<Instance>
    var timers: seq<Timer>
    var mu: Holder
    var crashed: bool
    var now: int
    var log: seq<Event>

    ghost const epoch: int
    ghost var history: seq<Step>

    function View(): State
      reads this
    {
      State(jobs, running, insts, timers, mu, crashed, now, log)
    }

    /** The fields are where the recorded history leads. */
    ghost predicate Valid()
      reads this
    {
      Exec(Init(epoch), history) == Some(View())
    }

    constructor (now: int)
      ensures Valid() && View() == Init(now) && epoch == now && history == []
    {
      jobs, running, insts, timers := map[], false, [], [];
      mu, crashed, this.now, log := Free, false, now, [];
      epoch, history := now, [];
    }

    lemma Invariant()
      requires Valid()
      ensures Inv(View())
    {
      Reachable(epoch, history);
    }

    /** One action. */
    method Do(e: Step)
      requires Valid() && Enabled(View(), e)
      modifies this
      ensures Valid() && View() == Next(old(View()), e) && history == old(history) + [e]
    {
      RunsOneMore(Init(epoch), history, e);
      var s := Next(View(), e);
      jobs, running, insts, timers := s.jobs, s.running, s.insts, s.timers;
      mu, crashed, now, log := s.holder, s.crashed, s.now, s.log;
      history := history + [e];
    }

    /** Each of the jobs was armed since then, to be due its interval later. */
    ghost predicate AllDueSince(js: set<JobId>, from: seq<Step>, since: int)
      reads this
    {
      forall j | j in js ::
        j < |insts| && DueSince(epoch, history, now, insts[j].rule, j, from, since)
    }

    /** Any number of steps of the clock, the runtime and the callbacks. */
    method Interfere() returns (ghost steps: seq<Step>)
      requires Valid()
      modifies this
      ensures Valid() && history == old(history) + steps
      ensures forall e | e in steps :: !e.ByApi()
      ensures Exec(old(View()), steps) == Some(View())
      ensures Onward(old(View()), View()) && old(now) <= now
    {
      steps := [];
      var n: int := *;
      for i := 0 to if n < 0 then 0 else n
        invariant Valid() && history == old(history) + steps
        invariant forall e | e in steps :: !e.ByApi()
        invariant Exec(old(View()), steps) == Some(View())
        invariant Onward(old(View()), View()) && old(now) <= now
      {
        var e: Step := *;
        if !e.ByApi() && Enabled(View(), e) {
          Invariant();
          OnwardStep(old(View()), View(), e);
          RunsOneMore(old(View()), steps, e);
          Do(e);
          steps := steps + [e];
        }
      }
    }

    /** `j.schedule()` called under the mutex; fails when the job has neither an interval nor a cron expression. */
    method Schedule(j: JobId) returns (ok: bool)
      requires Valid() && !crashed && mu.Scheduling? && mu.pending.None? && j in mu.todo && j < |insts|
      modifies this
      ensures Valid() && ok == old(insts[j].rule.Schedulable()) && crashed == !ok
      ensures jobs == old(jobs) && running == old(running) && SameRules(old(View()), View())
      ensures ok ==> mu == Scheduling(old(mu.todo) - {j}, None)
      ensures ok ==> forall i: nat :: Live(View(), i) <==> i == j || Live(old(View()), i)
      ensures old(history) <= history && old(now) <= now
      ensures ok ==> DueSince(epoch, history, old(now), insts[j].rule, j, old(history), old(now))
    {
      hide Next, Enabled, Live, Inv, DueSince, Exec;
      if !insts[j].rule.Schedulable() {
        NilCronStep(View(), j);
        Do(NilCron(j));
        return false;
      }
      var delay: int := *;  // time until the next match of the cron expression
      if insts[j].rule.Every? {
        delay := insts[j].rule.interval;
      }
      Invariant();
      ArmNewStep(View(), j, delay);
      ArmingGivesLife(View(), j, delay);
      Do(ArmNew(j, delay));
      ghost var _ := Interfere();
      Invariant();
      PublishNewStep(View());
      KeepsLife(View(), PublishNew);
      Do(PublishNew);
      ArmNewIsDue(epoch, old(history), old(View()), j, delay, history);
      ok := true;
    }

    /** One round of `Start`'s loop: interference, then some job is scheduled. */
    method ScheduleOne() returns (ok: bool, ghost j: JobId)
      requires Valid() && !crashed && mu.Scheduling? && mu.pending.None? && mu.todo != {}
      requires forall i | i in mu.todo :: i < |insts|
      modifies this
      ensures Valid() && j in old(mu.todo) && ok == old(insts[j].rule.Schedulable()) && crashed == !ok
      ensures jobs == old(jobs) && running == old(running) && SameRules(old(View()), View())
      ensures ok ==> mu == Scheduling(old(mu.todo) - {j}, None)
      ensures ok ==> forall i: nat :: Live(View(), i) <==> i == j || Live(old(View()), i)
      ensures old(history) <= history && old(now) <= now
      ensures ok ==> DueSince(epoch, history, now, insts[j].rule, j, old(history), old(now))
    {
      hide Live, Exec, DueSince;
      var i :| i in mu.todo;
      j := i;
      ghost var _ := Interfere();
      ghost var before, at := history, now;
      ok := Schedule(i);
      if ok {
        StillDue(epoch, history, at, insts[i].rule, i, before, at, history, now, old(history), old(now));
      }
    }

    /** The loop of `Start`. */
    method ScheduleAll() returns (ok: bool)
      requires Valid() && !crashed && mu == Scheduling(jobs.Values, None) && forall n | n in jobs :: jobs[n] < |insts|
      modifies this
      ensures Valid() && ok == old(AllUsable(View())) && crashed == !ok
      ensures jobs == old(jobs) && running == old(running) && SameRules(old(View()), View())
      ensures ok ==> mu == Scheduling({}, None)
      ensures ok ==> forall j: nat :: Live(View(), j) <==> j in jobs.Values || Live(old(View()), j)
      ensures old(history) <= history && old(now) <= now
      ensures ok ==> AllDueSince(jobs.Values, old(history), old(now))
    {
      hide Live, Exec, DueSince;
      ghost var locked := View();
      while mu.todo != {}
        invariant Valid() && !crashed && mu.Scheduling? && mu.pending.None? && mu.todo <= jobs.Values
        invariant jobs == old(jobs) && running == old(running) && SameRules(locked, View())
        invariant forall j | j in jobs.Values && j !in mu.todo :: locked.insts[j].rule.Schedulable()
        invariant forall j: nat :: Live(View(), j) <==> (j in jobs.Values && j !in mu.todo) || Live(locked, j)
        invariant old(history) <= history && old(now) <= now
        invariant AllDueSince(jobs.Values - mu.todo, old(history), old(now))
        decreases mu.todo
      {
        ghost var j;
        ghost var before, at := history, now;
        ok, j := ScheduleOne();
        ghost var n :| n in jobs && jobs[n] == j;
        if !ok {
          return;
        }
        forall i | i in jobs.Values - mu.todo
          ensures DueSince(epoch, history, now, insts[i].rule, i, old(history), old(now))
        {
          if i == j {
            StillDue(epoch, history, now, insts[i].rule, i, before, at, history, now, old(history), old(now));
          } else {
            StillDue(epoch, before, at, insts[i].rule, i, old(history), old(now), history, now, old(history), old(now));
          }
        }
      }
      ok := true;
    }

    method Start() returns (r: Outcome)
      requires Valid() && !crashed && mu.Free?
      modifies this
      ensures Valid()
      ensures r == ErrAlreadyStarted <==> old(running)
      ensures r == ErrAlreadyStarted ==> View() == old(View())
      ensures r == Panicked <==> !old(running) && !old(AllUsable(View()))
      ensures r == Panicked <==> crashed
      ensures r == ErrAlreadyStarted || r == Panicked || r == Done
      ensures r == Done ==>
                && running && mu.Free? && jobs == old(jobs) && SameRules(old(View()), View())
                && forall j: nat :: Live(View(), j) <==> j in jobs.Values
      ensures r == Done ==> AllDueSince(jobs.Values, old(history), old(now))
    {
      hide Next, Enabled, Inv, Live, Exec, DueSince;
      if running {
        return ErrAlreadyStarted;
      }
      Invariant();
      LockStartStep(View());
      IdleBeforeStart(View());
      KeepsLife(View(), LockStart);
      Do(LockStart);
      ghost var locked := history;
      var ok := ScheduleAll();
      if !ok {
        return Panicked;
      }
      Invariant();
      UnlockStep(View());
      KeepsLife(View(), Unlock);
      ghost var scheduled := history;
      Do(Unlock);
      forall j | j in jobs.Values
        ensures j < |insts| && DueSince(epoch, history, now, insts[j].rule, j, old(history), old(now))
      {
        StillDue(epoch, scheduled, now, insts[j].rule, j, locked, old(now), history, now, old(history), old(now));
      }
      return Done;
    }

    /** One round of `Stop`'s loop: interference, then the cancellation of some job. */
    method CancelOne() returns (ghost steps: seq<Step>)
      requires Valid() && !crashed && mu.Cancelling? && mu.todo != {} && forall j | j in mu.todo :: j < |insts|
      modifies this
      ensures Valid() && !crashed && mu.Cancelling? && mu.todo < old(mu.todo) && forall j | j in mu.todo :: j < |insts|
      ensures jobs == old(jobs) && running == old(running)
      ensures DuringStop(steps) && history == old(history) + steps && Exec(old(View()), steps) == Some(View())
    {
      hide Exec;
      var j :| j in mu.todo;
      ghost var between := Interfere();
      RunsOneMore(old(View()), between, CancelJob(j));
      Do(CancelJob(j));
      assert mu.todo == old(mu.todo) - {j};
      steps := between + [CancelJob(j)];
      assert old(history) + between + [CancelJob(j)] == old(history) + steps;
      assert DuringStop(steps);
    }

    /**
     Cancels every job.  The run of this call is recorded in `steps`; of all the
     instances ever allocated exactly those can start again that escaped this
     call or, removed earlier, their removal.
     */
    method Stop() returns (r: Outcome, ghost steps: seq<Step>)
      requires Valid() && !crashed && mu.Free?
      modifies this
      ensures Valid() && mu.Free? && jobs == old(jobs) && running == old(running) && !crashed
      ensures !old(running) ==> r == ErrNotRunning && View() == old(View())
      ensures old(running) ==>
                && r == Done && DuringStop(steps)
                && history == old(history) + [LockStop] + steps + [Unlock]
      ensures old(running) ==> forall n | n in jobs ::
                StoppedExactly(Next(old(View()), LockStop), steps, View(), jobs[n])
      ensures old(running) ==>
                && CompleteStop(epoch, old(history), steps)
                && forall j: JobId | j < |insts| ::
                     CanStartAgain(View(), j) <==>
                       EscapedStop(epoch, old(history), steps, j) || EscapedRemoval(epoch, old(history), j)
    {
      hide Exec;
      steps := [];
      if !running {
        return ErrNotRunning, steps;
      }
      Invariant();
      Do(LockStop);
      ghost var start := View();
      RunsNothing(start);
      while mu.todo != {}
        invariant Valid() && !crashed && mu.Cancelling? && jobs == old(jobs) && running == old(running)
        invariant forall j | j in mu.todo :: j < |insts|
        invariant DuringStop(steps) && history == old(history) + [LockStop] + steps
        invariant Exec(start, steps) == Some(View())
        decreases mu.todo
      {
        ghost var more := CancelOne();
        RunsConcat(start, steps, more);
        assert old(history) + [LockStop] + steps + more == old(history) + [LockStop] + (steps + more);
        assert DuringStop(steps + more);
        steps := steps + more;
      }
      StopsAll(old(View()), steps);
      Do(Unlock);
      DecidedByStop(epoch, old(history), steps, View());
      r := Done;
    }

    /** A stopped scheduler refuses to start, however much time has passed. */
    method StopThenStart() returns (r: Outcome)
      requires Valid() && !crashed && mu.Free? && running
      modifies this
      ensures Valid() && r == ErrAlreadyStarted
    {
      var stopped;
      ghost var steps;
      stopped, steps := Stop();
      ghost var _ := Interfere();
      r := Start();
    }

    /** Schedules the one job that was just stored. */
    method ScheduleStored(j: JobId) returns (ok: bool)
      requires Valid() && !crashed && mu == Scheduling({j}, None) && running && j < |insts|
      modifies this
      ensures Valid() && ok == old(insts[j].rule.Schedulable()) && crashed == !ok
      ensures jobs == old(jobs) && running && SameRules(old(View()), View())
      ensures ok ==> mu.Free? && forall i: nat :: Live(View(), i) <==> i == j || Live(old(View()), i)
      ensures ok ==> DueSince(epoch, history, now, insts[j].rule, j, old(history), old(now))
    {
      hide Live, Exec, Inv, DueSince;
      ghost var _ := Interfere();
      ghost var before, at := history, now;
      ok := Schedule(j);
      if ok {
        assert mu.todo == {};
        Invariant();
        KeepsLife(View(), Unlock);
        ghost var scheduled := history;
        Do(Unlock);
        StillDue(epoch, scheduled, at, insts[j].rule, j, before, at, history, now, old(history), old(now));
      }
    }

    /** The tail of `Add` and `AddCron`: store the job, and schedule it when the scheduler is running. */
    method Store(name: string, rule: Rule) returns (r: Outcome)
      requires Valid() && !crashed && mu.Free? && name !in jobs
      modifies this
      ensures Valid() && (r == Done || r == Panicked)
      ensures r == Panicked <==> old(running) && !rule.Schedulable()
      ensures r == Panicked <==> crashed
      ensures running == old(running) && jobs == old(jobs)[name := |old(insts)|]
      ensures |old(insts)| < |insts| && insts[|old(insts)|].rule == rule
      ensures r == Done ==> mu.Free? && (Live(View(), |old(insts)|) <==> running)
      ensures r == Done ==> OthersLive(old(View()), View(), |old(insts)|)
      ensures r == Done && running && rule.Every? ==>
                ArmsFor(epoch, history, |old(history)|, |old(insts)|, old(now) + rule.interval, now + rule.interval)
    {
      Invariant();
      NewJobIsIdle(View(), name, rule);
      KeepsLife(View(), LockAdd(name, rule));
      var j := |insts|;
      Do(LockAdd(name, rule));
      if running {
        ghost var locked := history;
        var ok := ScheduleStored(j);
        if !ok {
          return Panicked;
        }
        StillDue(epoch, history, now, rule, j, locked, old(now), history, now, old(history), old(now));
      }
      return Done;
    }

    method Add(name: string, interval: int) returns (r: Outcome)
      requires Valid() && !crashed && mu.Free?
      modifies this
      ensures Valid()
      ensures r == ErrJobAlreadyExist <==> name in old(jobs)
      ensures r == ErrJobAlreadyExist ==> View() == old(View())
      ensures r == Panicked <==> name !in old(jobs) && old(running) && interval <= 0
      ensures r == ErrJobAlreadyExist || r == Panicked || r == Done
      ensures r == Done ==>
                && mu.Free? && !crashed && running == old(running)
                && jobs == old(jobs)[name := |old(insts)|]
                && |old(insts)| < |insts| && insts[jobs[name]].rule == Every(interval)
                && (Live(View(), jobs[name]) <==> running) && OthersLive(old(View()), View(), jobs[name])
      ensures r == Done && running ==>
                ArmsFor(epoch, history, |old(history)|, jobs[name], old(now) + interval, now + interval)
    {
      if name in jobs {
        return ErrJobAlreadyExist;
      }
      r := Store(name, Every(interval));
    }

    /** parses tells whether the cron library accepts the expression. */
    method AddCron(name: string, parses: bool) returns (r: Outcome)
      requires Valid() && !crashed && mu.Free?
      modifies this
      ensures Valid() && mu.Free? && !crashed && running == old(running)
      ensures r == ErrJobAlreadyExist <==> name in old(jobs)
      ensures r == ErrInvalidCronExpr <==> name !in old(jobs) && !parses
      ensures r == ErrJobAlreadyExist || r == ErrInvalidCronExpr ==> View() == old(View())
      ensures r == ErrJobAlreadyExist || r == ErrInvalidCronExpr || r == Done
      ensures r == Done ==>
                && jobs == old(jobs)[name := |old(insts)|]
                && |old(insts)| < |insts| && insts[jobs[name]].rule == Cron
                && (Live(View(), jobs[name]) <==> running) && OthersLive(old(View()), View(), jobs[name])
    {
      if name in jobs {
        return ErrJobAlreadyExist;
      }
      if !parses {
        return ErrInvalidCronExpr;
      }
      r := Store(name, Cron);
    }

    /** Cancels the job and forgets its name; an instance that escapes keeps running without one. */
    method Remove(name: string) returns (r: Outcome)
      requires Valid() && !crashed && mu.Free?
      modifies this
      ensures Valid() && mu.Free? && !crashed && running == old(running)
      ensures name !in old(jobs) ==> r == ErrJobNotFound && View() == old(View())
      ensures name in old(jobs) ==>
                && r == Done && jobs == old(jobs) - {name}
                && old(jobs[name]) < |old(insts)|
                && (Live(View(), old(jobs[name])) <==> old(Escapes(View(), jobs[name])))
                && forall j | j != old(jobs[name]) :: Live(View(), j) <==> Live(old(View()), j)
    {
      if name !in jobs {
        return ErrJobNotFound;
      }
      Invariant();
      ghost var s, j := View(), jobs[name];
      CancelEffect(s, j);
      Do(RemoveJob(name));
      assert forall i: nat, t: nat :: Token(View(), i, t) <==> Token(Cancel(s, j), i, t);
      return Done;
    }
  }
}
