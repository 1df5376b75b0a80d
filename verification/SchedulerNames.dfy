/**
 Single flight is per instance.  Under one name it can fail: removing a job
 while it runs, and adding the name again, leaves two instances of it.
 */
module SchedulerNames {
  import opened Options
  import opened SchedulerMachine
  import opened SchedulerSafety
  import opened SchedulerCancel
  import opened SchedulerStop

  /** Step i of the run allocates j under the name. */
  ghost predicate AddedAt(s: State, steps: seq<Step>, i: nat, name: string, j: JobId) {
    && i < |steps| && Runs(s, steps[..i]) && Enabled(After(s, steps[..i]), steps[i])
    && steps[i].LockAdd? && steps[i].name == name && j == |After(s, steps[..i]).insts|
  }

  /** Allocated, and registered under no other name. */
  ghost predicate OnlyUnder(s: State, name: string, j: JobId) {
    j < |s.insts| && forall n | n in s.jobs && s.jobs[n] == j :: n == name
  }

  lemma AddedIsOnlyUnder(s: State, name: string, rule: Rule)
    requires Inv(s) && Enabled(s, LockAdd(name, rule))
    ensures OnlyUnder(Next(s, LockAdd(name, rule)), name, |s.insts|)
  {
  }

  lemma StaysOnlyUnder(s: State, e: Step, name: string, j: JobId)
    requires OnlyUnder(s, name, j) && Enabled(s, e)
    ensures OnlyUnder(Next(s, e), name, j)
  {
  }

  lemma {:induction false} RunsOnlyUnder(s: State, steps: seq<Step>, name: string, j: JobId)
    requires OnlyUnder(s, name, j) && Runs(s, steps)
    ensures OnlyUnder(After(s, steps), name, j)
  {
    hide Next, Enabled, OnlyUnder;
    if steps != [] {
      var front := steps[..|steps| - 1];
      RunsOnlyUnder(s, front, name, j);
      StaysOnlyUnder(After(s, front), steps[|steps| - 1], name, j);
    }
  }

  /** Once added under a name, an instance is registered under it or not at all. */
  lemma AddedStaysUnder(now: int, steps: seq<Step>, i: nat, name: string, j: JobId)
    requires Runs(Init(now), steps) && AddedAt(Init(now), steps, i, name, j)
    ensures OnlyUnder(After(Init(now), steps), name, j)
  {
    hide Next, Enabled, OnlyUnder, Inv;
    RunsSplit(Init(now), steps, i + 1);
    assert steps[..i + 1][..i] == steps[..i];
    var m := After(Init(now), steps[..i]);
    Reachable(now, steps[..i]);
    AddedIsOnlyUnder(m, name, steps[i].rule);
    RunsOnlyUnder(Next(m, steps[i]), steps[i + 1..], name, j);
  }

  /** A name that can be added is free: what was added under it before has been removed. */
  lemma FreeNameLeavesNameless(s: State, name: string, rule: Rule, j: JobId)
    requires OnlyUnder(s, name, j) && Enabled(s, LockAdd(name, rule))
    ensures Nameless(s, j)
  {
  }

  /** An older instance of a name that has been added again is nameless ever after. */
  lemma OlderIsNameless(now: int, steps: seq<Step>, name: string, i: nat, j: JobId, i': nat, j': JobId)
    requires Runs(Init(now), steps) && i < i'
    requires AddedAt(Init(now), steps, i, name, j) && AddedAt(Init(now), steps, i', name, j')
    ensures Nameless(After(Init(now), steps), j)
  {
    hide Next, Enabled, OnlyUnder, Nameless, Inv;
    RunsSplit(Init(now), steps, i');
    assert steps[..i'][..i] == steps[..i];
    AddedStaysUnder(now, steps[..i'], i, name, j);
    var m := After(Init(now), steps[..i']);
    FreeNameLeavesNameless(m, name, steps[i'].rule, j);
    Reachable(now, steps[..i']);
    ListedAtStart(now);
    RunKeepsListed(Init(now), steps[..i']);
    RunKeepsNameless(m, steps[i'..], j);
  }

  lemma ListedAtStart(now: int)
    ensures TodoListed(Init(now))
  {
  }

  /**
   Runs of one name can overlap in one way only: of the instances that were ever
   added under it, an older one has a timer or a callback exactly when it
   escaped its removal.
   */
  lemma OlderLivesIffEscaped(now: int, steps: seq<Step>, name: string, i: nat, j: JobId, i': nat, j': JobId)
    requires Runs(Init(now), steps) && i < i'
    requires AddedAt(Init(now), steps, i, name, j) && AddedAt(Init(now), steps, i', name, j')
    ensures Live(After(Init(now), steps), j) <==> EscapedRemoval(now, steps, j)
  {
    hide Next, Enabled, Nameless, AddedAt, Live;
    OlderIsNameless(now, steps, name, i, j, i', j');
    var k := NamelessWasRemoved(now, steps, j);
    RemovalDecides(now, steps, k, j);
    forall n: nat | EscapedAt(Init(now), steps, n, j) && steps[n].RemoveJob?
      ensures Live(After(Init(now), steps), j)
    {
      RemovalDecides(now, steps, n, j);
    }
  }

  // -------------------------------------------------------------- a witness

  /** A job is removed while it runs, and its name is added again. */
  function Readded(): seq<Step> {
    [LockAdd("job", Every(1)), LockStart, ArmNew(0, 1), PublishNew, Unlock, Tick(1), Fire(0), EnterRun(0),
     RemoveJob("job"), LockAdd("job", Every(1)), ArmNew(1, 1), PublishNew, Unlock, Tick(1), Fire(1), EnterRun(1)]
  }

  /** The state in which the first instance runs. */
  function FirstRuns(): State {
    State(map["job" := 0], true, [Instance(Every(1), Some(0))], [Timer(0, InRun)], Free, false, 1, [Started(0, 1)])
  }

  function Armed1(): State {
    State(map["job" := 0], true, [Instance(Every(1), Some(0))], [Timer(0, Armed(1))], Free, false, 0, [])
  }

  lemma ReaddedArms() returns (h: seq<Step>)
    ensures h == Readded()[..5] && Exec(Init(0), h) == Some(Armed1())
  {
    hide Exec;
    RunsNothing(Init(0));
    var jobs: map<string, JobId> := map["job" := 0];
    assert jobs.Values == {0} by { assert jobs["job"] in jobs.Values; }
    var s;
    h, s := ThenStep(Init(0), [], Init(0), LockAdd("job", Every(1)));
    h, s := ThenStep(Init(0), h, s, LockStart);
    assert s.jobs == jobs;
    h, s := ThenStep(Init(0), h, s, ArmNew(0, 1));
    assert s.holder.todo == {};
    h, s := ThenStep(Init(0), h, s, PublishNew);
    h, s := ThenStep(Init(0), h, s, Unlock);
    assert s.timers == [Timer(0, Armed(1))] && s.insts == [Instance(Every(1), Some(0))];
  }

  lemma ReaddedStarts() returns (h: seq<Step>)
    ensures h == Readded()[..8] && Exec(Init(0), h) == Some(FirstRuns())
  {
    hide Exec;
    h := ReaddedArms();
    var s := Armed1();
    h, s := ThenStep(Init(0), h, s, Tick(1));
    h, s := ThenStep(Init(0), h, s, Fire(0));
    h, s := ThenStep(Init(0), h, s, EnterRun(0));
    assert s.timers == [Timer(0, InRun)] && s.log == [Started(0, 1)];
  }

  /** The state in which the name has been removed and added again. */
  function SecondAdded(): State {
    State(map["job" := 1], true, [Instance(Every(1), Some(0)), Instance(Every(1), Some(1))],
          [Timer(0, InRun), Timer(1, Armed(2))], Free, false, 1, [Started(0, 1)])
  }

  function Adding(): State {
    State(map["job" := 1], true, [Instance(Every(1), Some(0)), Instance(Every(1), None)],
          [Timer(0, InRun)], Scheduling({1}, None), false, 1, [Started(0, 1)])
  }

  lemma ReaddedLocks() returns (h: seq<Step>)
    ensures h == Readded()[..10] && Exec(Init(0), h) == Some(Adding())
  {
    hide Exec;
    h := ReaddedStarts();
    var s := FirstRuns();
    h, s := ThenStep(Init(0), h, s, RemoveJob("job"));
    assert s.jobs == map[] && s.timers == [Timer(0, InRun)];
    h, s := ThenStep(Init(0), h, s, LockAdd("job", Every(1)));
    assert s.jobs == map["job" := 1] && s.holder == Scheduling({1}, None);
    assert s.insts == [Instance(Every(1), Some(0)), Instance(Every(1), None)];
  }

  lemma ReaddedAdds() returns (h: seq<Step>)
    ensures h == Readded()[..13] && Exec(Init(0), h) == Some(SecondAdded())
  {
    hide Exec;
    h := ReaddedLocks();
    var s := Adding();
    h, s := ThenStep(Init(0), h, s, ArmNew(1, 1));
    assert s.holder.todo == {};
    h, s := ThenStep(Init(0), h, s, PublishNew);
    h, s := ThenStep(Init(0), h, s, Unlock);
    assert s.timers == [Timer(0, InRun), Timer(1, Armed(2))];
    assert s.insts == [Instance(Every(1), Some(0)), Instance(Every(1), Some(1))];
  }

  /** Two runs of one name overlap: both instances are inside Run, and both were added under the name. */
  lemma NamesCanOverlap()
    ensures Runs(Init(0), Readded())
    ensures var s := After(Init(0), Readded());
            Is(s, 0, InRun) && Is(s, 1, InRun) && s.timers[0].job == 0 && s.timers[1].job == 1
    ensures AddedAt(Init(0), Readded(), 0, "job", 0) && AddedAt(Init(0), Readded(), 9, "job", 1)
  {
    hide Exec;
    RunsNothing(Init(0));
    var h := ReaddedAdds();
    var s := SecondAdded();
    h, s := ThenStep(Init(0), h, s, Tick(1));
    h, s := ThenStep(Init(0), h, s, Fire(1));
    h, s := ThenStep(Init(0), h, s, EnterRun(1));
    assert h == Readded();
    AddsOfReadded();
  }

  lemma AddsOfReadded()
    ensures AddedAt(Init(0), Readded(), 0, "job", 0) && AddedAt(Init(0), Readded(), 9, "job", 1)
  {
    hide Exec;
    RunsNothing(Init(0));
    assert Readded()[..0] == [];
    var h := ReaddedStarts();
    var s := FirstRuns();
    h, s := ThenStep(Init(0), h, s, RemoveJob("job"));
    assert h == Readded()[..9];
  }
}
