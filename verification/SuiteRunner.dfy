/** A test suite: its configuration, and how it runs its tests. */
module SuiteRunner {
  import opened Options
  import opened Notifier
  import opened RunSpec
  import opened SuiteConfig

  /** What a run sees of the world, and how far it has come. */
  class Context {
    const world: World
    var tick: int
    var now: int

    constructor (world: World)
      ensures this.world == world && tick == 0 && now == 0
    {
      this.world, tick, now := world, 0, 0;
    }
  }

  class Suite {
    var name: string
    var runEvery: int
    var runCron: string
    var retryCount: int
    var retryWait: int
    var timeout: int
    var failfast: bool
    // the slice s.tests: the first `len` elements of its backing array
    const backing: array<TestCase>
    var len: nat

    ghost predicate Valid()
      reads this
    {
      len <= backing.Length
    }

    function Tests(): seq<TestCase>
      requires Valid()
      reads this, backing
    {
      backing[..len]
    }

    function View(): Knobs
      reads this
    {
      Knobs(name, runEvery, runCron, retryCount, retryWait, timeout, failfast)
    }

    function Setting(): Settings
      reads this
    {
      Settings(retryCount, failfast)
    }

    constructor (tests: array<TestCase>)
      ensures Valid() && Tests() == tests[..] && View() == BLANK && backing == tests
    {
      name, runEvery, runCron, retryCount, retryWait, timeout, failfast := "", 0, "", 0, 0, 0, false;
      backing, len := tests, tests.Length;
    }

    // -------------------------------------------------------- configuration

    /** The filter compacts the slice in place while it reads it. */
    method KeepMatching(keep: string -> bool)
      requires Valid()
      modifies this`len, backing
      ensures Valid() && Tests() == Filter(old(Tests()), (t: TestCase) => keep(t.name))
    {
      hide Filter;
      ghost var before := Tests();
      ghost var p := (t: TestCase) => keep(t.name);
      var n := 0;
      FilterNone(before, p);
      for i := 0 to len
        invariant n <= i && len == old(len) && Valid()
        invariant backing[..n] == Filter(before[..i], p)
        invariant forall k | i <= k < len :: backing[k] == before[k]
      {
        var t := backing[i];
        FilterOneMore(before, i, p);
        if keep(t.name) {
          backing[n] := t;
          n := n + 1;
          assert backing[..n] == backing[..n - 1] + [t];
        }
      }
      assert before[..len] == before;
      len := n;
    }

    /** The scalar half of applyConfig. */
    method ApplyKnobs(cfg: Config)
      modifies this`name, this`runEvery, this`runCron, this`retryCount, this`retryWait, this`timeout, this`failfast
      ensures View() == Layer(old(View()), cfg)
    {
      if cfg.name != "" {
        name := cfg.name;
      }
      if cfg.runEvery > 0 {
        runEvery := cfg.runEvery;
      }
      if cfg.runCron != "" {
        runCron := cfg.runCron;
      }
      if cfg.retryCount > 0 {
        retryCount := cfg.retryCount;
      }
      if cfg.retryWait > 0 {
        retryWait := cfg.retryWait;
      }
      if cfg.timeout > 0 {
        timeout := cfg.timeout;
      }
      if cfg.failFast {
        failfast := true;
      }
    }

    method ApplyConfig(compile: Compiler, cfg: Config) returns (ok: bool)
      requires Valid()
      modifies this, backing
      ensures Valid() && View() == Layer(old(View()), cfg)
      ensures ok == Compiles(compile, cfg)
      ensures ok <==> cfg.filter == "" || compile(cfg.filter).Some?
      ensures Tests() ==
                if cfg.filter == "" || compile(cfg.filter).None? then old(Tests())
                else Filter(old(Tests()), (t: TestCase) =>
                              compile(cfg.filter).Some? && compile(cfg.filter).value(t.name))
      ensures ok ==> Tests() == Filter(old(Tests()), Keeps(compile, cfg))
    {
      hide Filter;
      ApplyKnobs(cfg);
      if cfg.filter != "" {
        match compile(cfg.filter) {
          case None => return false;
          case Some(re) =>
            ghost var before := Tests();
            KeepMatching(re);
            FilterAgrees(before, (t: TestCase) => re(t.name), Keeps(compile, cfg));
            FilterAgrees(before, (t: TestCase) => re(t.name),
                         (t: TestCase) => compile(cfg.filter).Some? && compile(cfg.filter).value(t.name));
        }
      } else {
        FilterNothing(Tests(), Keeps(compile, cfg));
      }
      return true;
    }

    /** Several configurations in a row, as long as their filters compile. */
    method ApplyConfigs(compile: Compiler, cfgs: seq<Config>)
      requires Valid() && forall c | c in cfgs :: Compiles(compile, c)
      modifies this, backing
      ensures Valid() && View() == LayerAll(old(View()), cfgs)
      ensures Tests() == Filter(old(Tests()), t => PassesAll(compile, cfgs, t))
    {
      hide Filter, FilterAll, LayerAll, Layer, Compiles, Keeps;
      assert cfgs[..0] == [];
      NoConfigs(compile, View(), Tests());
      for i := 0 to |cfgs|
        invariant Valid() && View() == LayerAll(old(View()), cfgs[..i])
        invariant Tests() == FilterAll(compile, old(Tests()), cfgs[..i])
      {
        OneMoreConfig(compile, old(View()), old(Tests()), cfgs, i);
        var _ := ApplyConfig(compile, cfgs[i]);
      }
      assert cfgs[..|cfgs|] == cfgs;
      FiltersConjoin(compile, old(Tests()), cfgs);
    }

    // --------------------------------------------------------------- running

    /** One attempt: the test logs its errors to the report. */
    method RunTest(ctx: Context, t: TestCase, tr: TestReport) returns (ok: bool)
      modifies ctx, tr`errs, tr`duration
      ensures tr.errs == old(tr.errs) + ctx.world.outcome(old(ctx.tick)) && ok == (tr.errs == [])
      ensures ctx.tick == old(ctx.tick) + 1 && ctx.now == old(ctx.now) + ctx.world.took(old(ctx.tick))
    {
      var errs := ctx.world.outcome(ctx.tick);
      for i := 0 to |errs|
        invariant tr.errs == old(tr.errs) + errs[..i]
        invariant ctx.tick == old(ctx.tick) && ctx.now == old(ctx.now)
      {
        tr.Errorf(errs[i]);
      }
      ctx.now := ctx.now + ctx.world.took(ctx.tick);
      ctx.tick := ctx.tick + 1;
      tr.Done(ctx.now);
      ok := |tr.errs| == 0;
    }

    /** Waits for the next attempt; false when the context was done first. */
    method Wait(ctx: Context) returns (expired: bool)
      modifies ctx
      ensures expired == !GivesUp(ctx.world, old(ctx.tick))
      ensures ctx.tick == old(ctx.tick) + 1 && ctx.now == old(ctx.now) + ctx.world.waited(old(ctx.tick))
    {
      expired := !GivesUp(ctx.world, ctx.tick);
      ctx.now := ctx.now + ctx.world.waited(ctx.tick);
      ctx.tick := ctx.tick + 1;
    }

    method RunTestWithRetry(ctx: Context, t: TestCase, r: Report) returns (ok: bool, ghost rec: Rec)
      modifies ctx, r`testReports
      ensures |r.testReports| == |old(r.testReports)| + 1 && r.testReports[..|old(r.testReports)|] == old(r.testReports)
      ensures var tr := r.testReports[|old(r.testReports)|];
              fresh(tr) && tr.test == t && tr.errs == rec.errs && tr.start == old(ctx.now)
      ensures rec.start == old(ctx.tick) && Retried(ctx.world, retryCount, rec) && ok == !rec.Failed()
      ensures ctx.tick == rec.CheckAt(retryCount)
      ensures ctx.now == old(ctx.now) + Spent(ctx.world, Setting(), rec)
    {
      hide Retried, Total, GivesUp, FailedSoFar;
      ghost var w, start := ctx.world, ctx.tick;
      var tr := r.NewTestReport(t, ctx.now);
      var attempt := 1;
      TotalStep(w.took, start, 0);
      TotalStep(w.waited, start + 1, 0);
      FailedOnce(w, start, 0);
      while true
        invariant attempt >= 1 && (attempt == 1 || attempt <= retryCount)
        invariant fresh(tr) && tr.errs == [] && r.testReports == old(r.testReports) + [tr]
        invariant ctx.tick == start + 2 * (attempt - 1)
        invariant FailedSoFar(w, start, attempt - 1)
        invariant ctx.now == old(ctx.now) + Total(w.took, start, attempt - 1) + Total(w.waited, start + 1, attempt - 1)
        decreases retryCount - attempt
      {
        TotalStep(w.took, start, attempt - 1);
        TotalStep(w.waited, start + 1, attempt - 1);
        FailedOnce(w, start, attempt - 1);
        ok := RunTest(ctx, t, tr);
        rec := Rec(start, attempt, tr.errs);
        if ok {
          StopsRetrying(w, retryCount, rec);
          return;
        }
        if attempt >= retryCount {
          StopsRetrying(w, retryCount, rec);
          return;
        }
        var expired := Wait(ctx);
        if !expired {
          StopsRetrying(w, retryCount, rec);
          return;
        }
        tr.Reset();
        attempt := attempt + 1;
      }
    }

    /** One round of the loop: the test, the count of failures, and whether to stop. */
    method RunNext(ctx: Context, t: TestCase, report: Report) returns (stop: bool, ghost rec: Rec)
      modifies ctx, report`testReports, report`nbFailed
      ensures |report.testReports| == |old(report.testReports)| + 1
      ensures report.testReports[..|old(report.testReports)|] == old(report.testReports)
      ensures var tr := report.testReports[|old(report.testReports)|];
              fresh(tr) && tr.test == t && tr.errs == rec.errs && tr.start == old(ctx.now)
      ensures rec.start == old(ctx.tick) && Retried(ctx.world, retryCount, rec)
      ensures report.nbFailed == old(report.nbFailed) + (if rec.Failed() then 1 else 0)
      ensures stop == !GoesOn(ctx.world, Setting(), rec)
      ensures !stop ==> ctx.tick == rec.CheckAt(retryCount) + 1
      ensures ctx.now == old(ctx.now) + Spent(ctx.world, Setting(), rec)
    {
      hide Retried, Spent;
      var ok;
      ok, rec := RunTestWithRetry(ctx, t, report);
      if !ok {
        report.nbFailed := report.nbFailed + 1;
        if failfast {
          return true, rec;
        }
      }
      stop := ctx.world.cancelled(ctx.tick);
      ctx.tick := ctx.tick + 1;
    }

    /** The loop over the tests; `recs` is what the reports must say. */
    method RunTests(ctx: Context) returns (report: Report, ghost recs: seq<Rec>)
      requires Valid()
      modifies ctx
      ensures fresh(report) && |report.testReports| == |recs|
      ensures forall i | 0 <= i < |recs| :: i < len &&
                fresh(report.testReports[i]) && report.testReports[i].test == backing[i]
                && report.testReports[i].errs == recs[i].errs
      ensures Complete(ctx.world, Setting(), old(ctx.tick), len, recs)
      ensures report.nbFailed == CountFailed(recs)
      ensures ctx.now == old(ctx.now) + Elapsed(ctx.world, Setting(), recs)
      ensures report.start == old(ctx.now) && report.duration == Elapsed(ctx.world, Setting(), recs)
    {
      hide Retried, Prefix, CountFailed, Elapsed, Spent, GoesOn;
      report := new Report(ctx.now);
      recs := [];
      NothingYet(ctx.world, Setting(), ctx.tick);
      var i := 0;
      while i < len
        invariant 0 <= i <= len && |recs| == |report.testReports| == i
        invariant fresh(report) && report.start == old(ctx.now)
        invariant forall k | 0 <= k < i ::
                    fresh(report.testReports[k]) && report.testReports[k].test == backing[k]
                    && report.testReports[k].errs == recs[k].errs
        invariant Prefix(ctx.world, Setting(), old(ctx.tick), recs)
        invariant ctx.tick == NextStart(Setting(), old(ctx.tick), recs)
        invariant recs != [] ==> GoesOn(ctx.world, Setting(), recs[i - 1])
        invariant report.nbFailed == CountFailed(recs)
        invariant ctx.now == old(ctx.now) + Elapsed(ctx.world, Setting(), recs)
      {
        var stop;
        ghost var rec;
        stop, rec := RunNext(ctx, backing[i], report);
        OneMoreTest(ctx.world, Setting(), old(ctx.tick), recs, rec);
        recs := recs + [rec];
        i := i + 1;
        if stop {
          break;
        }
      }
      report.Done(ctx.now);
    }
  }

  lemma FilterNone(ts: seq<TestCase>, p: TestCase -> bool)
    ensures Filter(ts[..0], p) == []
  {
  }

  /** What one more test adds to the filtered ones. */
  lemma FilterOneMore(ts: seq<TestCase>, i: nat, p: TestCase -> bool)
    requires i < |ts|
    ensures Filter(ts[..i + 1], p) == Filter(ts[..i], p) + (if p(ts[i]) then [ts[i]] else [])
  {
    assert ts[..i + 1][..i] == ts[..i];
  }

  lemma {:induction false} FilterAgrees(ts: seq<TestCase>, p: TestCase -> bool, q: TestCase -> bool)
    requires forall t :: p(t) == q(t)
    ensures Filter(ts, p) == Filter(ts, q)
  {
    if ts != [] { FilterAgrees(ts[..|ts| - 1], p, q); }
  }

  /**
   The time bound: when every attempt that was made respects the timeout and
   every wait the retry wait, a run takes no longer than that for each test of the suite.
   */
  lemma RunTimeBound(w: World, c: Settings, start: int, n: nat, recs: seq<Rec>, timeout: nat, wait: nat)
    requires Complete(w, c, start, n, recs) && forall r | r in recs :: InTime(w, c, r, timeout, wait)
    ensures Elapsed(w, c, recs) <= n * PerTest(c, timeout, wait)
  {
    hide PerTest, Elapsed, InTime, Retried;
    ElapsedBound(w, c, start, recs, timeout, wait);
    Scale(|recs|, n, PerTest(c, timeout, wait));
  }
}
