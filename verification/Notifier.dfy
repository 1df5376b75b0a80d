/** The reports that a suite run fills in. */
module Notifier {
  datatype TestCase = TestCase(name: string, description: string)

  class TestReport {
    const test: TestCase
    const start: int
    var duration: int
    var errs: seq<string>

    constructor (test: TestCase, now: int)
      ensures this.test == test && start == now && errs == []
    {
      this.test, start, duration, errs := test, now, 0, [];
    }

    method Errorf(err: string)
      modifies this`errs
      ensures errs == old(errs) + [err]
    {
      errs := errs + [err];
    }

    method Reset()
      modifies this`errs
      ensures errs == []
    {
      errs := [];
    }

    method Done(now: int)
      modifies this`duration
      ensures duration == now - start
    {
      duration := now - start;
    }
  }

  class Report {
    const start: int
    var duration: int
    var testReports: seq<TestReport>
    var nbFailed: nat

    constructor (now: int)
      ensures start == now && testReports == [] && nbFailed == 0
    {
      start, duration, testReports, nbFailed := now, 0, [], 0;
    }

    method NewTestReport(t: TestCase, now: int) returns (tr: TestReport)
      modifies this`testReports
      ensures fresh(tr) && tr.test == t && tr.start == now && tr.errs == []
      ensures testReports == old(testReports) + [tr]
    {
      tr := new TestReport(t, now);
      testReports := testReports + [tr];
    }

    method Done(now: int)
      modifies this`duration
      ensures duration == now - start
    {
      duration := now - start;
    }
  }
}
