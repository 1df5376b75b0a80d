/** The exec command: run every suite, notify every report, and give one verdict. */
module Exec {
  import opened Notifier
  import opened RunSpec
  import opened SuiteRunner

  class Notifications {
    var reports: seq<Report>

    constructor ()
      ensures reports == []
    {
      reports := [];
    }

    method Notify(r: Report)
      modifies this
      ensures reports == old(reports) + [r]
    {
      reports := reports + [r];
    }
  }

  /** No reported test has failed. */
  predicate NoErrors(recs: seq<Rec>) {
    forall i | 0 <= i < |recs| :: recs[i].errs == []
  }

  /** Every test of the suite was run, and its last attempt logged no error. */
  predicate AllPassed(n: nat, recs: seq<Rec>) {
    |recs| == n && NoErrors(recs)
  }

  /** The report agrees with the records of the run, test by test in the order of the suite. */
  ghost predicate Reports(report: Report, tests: seq<TestCase>, recs: seq<Rec>)
    reads report, report.testReports
  {
    && |report.testReports| == |recs| <= |tests| && report.nbFailed == CountFailed(recs)
    && forall i | 0 <= i < |recs| ::
         report.testReports[i].test == tests[i] && report.testReports[i].errs == recs[i].errs
  }

  lemma NoErrorsAnywhere(runs: seq<seq<Rec>>)
    ensures (forall k | 0 <= k < |runs| :: NoErrors(runs[k])) <==>
              forall k | 0 <= k < |runs| :: forall i | 0 <= i < |runs[k]| :: runs[k][i].errs == []
  {
  }

  /** What one run says about its suite. */
  lemma Verdict(w: World, c: Settings, n: nat, recs: seq<Rec>)
    requires Complete(w, c, 0, n, recs)
    ensures CountFailed(recs) == 0 <==> NoErrors(recs)
    ensures NeverCancelled(w) ==> (NoErrors(recs) <==> AllPassed(n, recs))
  {
    NoneFailed(recs);
    if NeverCancelled(w) { UncancelledRun(w, c, 0, n, recs); }
  }

  /** The run of one suite, and what its report says. */
  method RunSuite(s: Suite, w: World) returns (report: Report, ghost recs: seq<Rec>)
    requires s.Valid()
    ensures fresh(report) && Reports(report, s.Tests(), recs) && Complete(w, s.Setting(), 0, s.len, recs)
    ensures report.nbFailed == 0 <==> NoErrors(recs)
    ensures NeverCancelled(w) ==> (NoErrors(recs) <==> AllPassed(s.len, recs))
  {
    hide Prefix, CountFailed, Elapsed, NeverCancelled, NoErrors, AllPassed;
    var ctx := new Context(w);
    report, recs := s.RunTests(ctx);
    Verdict(w, s.Setting(), s.len, recs);
  }

  /**
   Runs the suites one after the other.  The error is nil exactly when every
   suite was run and reported no failed test; under a context that is never
   done, as `exec` has it, that is when every test of every suite was run and
   its last attempt logged no error.  With failfast the notified reports end at
   the first failing suite.
   */
  method ExecSuites(failfast: bool, suites: seq<Suite>, worlds: seq<World>, n: Notifications?)
    returns (ok: bool, ghost runs: seq<seq<Rec>>)
    requires |worlds| == |suites| && forall s | s in suites :: s.Valid()
    modifies n
    ensures |runs| <= |suites|
    ensures forall k | 0 <= k < |runs| :: Complete(worlds[k], suites[k].Setting(), 0, suites[k].len, runs[k])
    ensures ok <==> |runs| == |suites| && forall k | 0 <= k < |runs| :: NoErrors(runs[k])
    ensures ok <==> |runs| == |suites| && forall k | 0 <= k < |runs| ::
                      forall i | 0 <= i < |runs[k]| :: runs[k][i].errs == []
    ensures (forall k | 0 <= k < |worlds| :: NeverCancelled(worlds[k])) ==>
              (ok <==> |runs| == |suites| && forall k | 0 <= k < |runs| :: AllPassed(suites[k].len, runs[k]))
    ensures forall k | 0 <= k < |runs| - 1 && failfast :: NoErrors(runs[k])
    ensures |runs| < |suites| ==> failfast && runs != [] && !NoErrors(runs[|runs| - 1])
    ensures n != null ==> |n.reports| == |old(n.reports)| + |runs| && old(n.reports) <= n.reports
    ensures n != null ==>
              forall k | 0 <= k < |runs| :: Reports(n.reports[|old(n.reports)| + k], suites[k].Tests(), runs[k])
  {
    hide Complete, CountFailed, Elapsed, NeverCancelled, NoErrors, AllPassed, Reports, Suite.Tests, Suite.Setting;
    ok, runs := true, [];
    var i := 0;
    while i < |suites|
      invariant 0 <= i <= |suites| && |runs| == i
      invariant forall k | 0 <= k < i :: Complete(worlds[k], suites[k].Setting(), 0, suites[k].len, runs[k])
      invariant forall k | 0 <= k < i :: NeverCancelled(worlds[k]) ==>
                  (NoErrors(runs[k]) <==> AllPassed(suites[k].len, runs[k]))
      invariant ok <==> forall k | 0 <= k < i :: NoErrors(runs[k])
      invariant failfast ==> ok
      invariant n != null ==> |n.reports| == |old(n.reports)| + i && old(n.reports) <= n.reports
      invariant n != null ==>
                  forall k | 0 <= k < i :: Reports(n.reports[|old(n.reports)| + k], suites[k].Tests(), runs[k])
    {
      var report;
      ghost var recs;
      report, recs := RunSuite(suites[i], worlds[i]);
      runs := runs + [recs];
      i := i + 1;
      if n != null {
        n.Notify(report);
      }
      if ok && report.nbFailed > 0 {
        ok := false;
        if failfast {
          break;
        }
      }
    }
    NoErrorsAnywhere(runs);
  }
}
