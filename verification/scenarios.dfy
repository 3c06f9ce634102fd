/**
  Small runs of the model: a class with two test methods whose class
  setup fails, a test whose body fails, a test that fails in its body and
  again in an after hook, and a filter that excludes every method.
 */
module Scenarios {
  import opened Model
  import opened Seqs
  import opened EventLog
  import opened Tracing
  import opened Statements
  import opened StatementFacts
  import opened Reporting
  import opened Filtering
  import opened Functional
  import opened ClassLevel

  /**
    The class setup throws f, which is not an assumption violation: both
    methods are reported as started, failed with f and finished, in
    declaration order, nothing escapes, both methods had their artifacts
    captured, and only the setup hook was invoked.
   */
  lemma {:induction false} ClassSetupFailure(a: TestMethod, b: TestMethod, setUp: Hook, children: Statement)
    requires setUp.result.Threw? && !setUp.result.fault.AssumptionViolation?
    ensures
      var f := setUp.result.fault;
      var c := ClassBlock(ParentClassBlock([a, b], [setUp], [], children), [a, b]);
      && c.outcome == Completed
      && c.notes == [
           TestStarted(Describe(a)), TestFailure(Failure(Describe(a), f)), TestFinished(Describe(a)),
           TestStarted(Describe(b)), TestFailure(Failure(Describe(b), f)), TestFinished(Describe(b))]
      && c.saved == {a, b}
      && Invocations(c.log) == [setUp.name]
  {
    var f := setUp.result.fault;
    var c := ClassBlock(ParentClassBlock([a, b], [setUp], [], children), [a, b]);
    assert [setUp][0].result.Threw?;
    ClassSetupFaultReportsAll([a, b], [setUp], [], children);
    assert c.notes == ReportOfTwo(a, b, f) by {
      ReportsTwo(c.notes, a, b, f);
    }
    assert Invocations(c.log) == [setUp.name] by {
      SingleHookInvocations(setUp);
    }
    assert Elems([a, b]) == {a, b};
  }

  /** The six notifications for two children and a fault that is not an assumption violation. */
  function ReportOfTwo(a: TestMethod, b: TestMethod, f: Fault): seq<Notification>
  {
    [TestStarted(Describe(a)), TestFailure(Failure(Describe(a), f)), TestFinished(Describe(a)),
     TestStarted(Describe(b)), TestFailure(Failure(Describe(b), f)), TestFinished(Describe(b))]
  }

  lemma {:induction false} ReportsTwo(notes: seq<Notification>, a: TestMethod, b: TestMethod, f: Fault)
    requires ReportsEach(notes, [a, b], f) && !f.AssumptionViolation?
    ensures notes == ReportOfTwo(a, b, f)
  {
    assert [a, b][0] == a && [a, b][1] == b;
    assert notes[3 * 1] == notes[3] && notes[3 * 1 + 1] == notes[4] && notes[3 * 1 + 2] == notes[5];
  }

  lemma {:induction false} SingleHookInvocations(setUp: Hook)
    requires setUp.result.Threw?
    ensures Invocations(InvokeUntilFault([setUp]).log) + Names([]) == [setUp.name]
  {
    assert InvokeUntilFault([setUp]).log == [Invoked(setUp.name)];
    assert Invocations([Invoked(setUp.name)]) == [setUp.name];
  }

  /** A test with no hooks whose body throws: its artifact is captured once and the fault escapes. */
  lemma {:induction false} BodyFailure(test: TestMethod, body: Hook, saved: set<TestMethod>)
    requires body.result.Threw? && test !in saved
    ensures
      var r := Eval(MethodStatement(test, MethodHooks([], [], [], []), body), saved);
      && r.outcome == body.result
      && Captures(r.log) == [test]
      && r.saved == saved + {test}
  {
    var hooks := MethodHooks([], [], [], []);
    MethodCapturedOnce(test, hooks, body, saved);
    MethodOutcome(test, hooks, body, saved);
    assert [] + [] + [body] == [body];
  }

  /**
    The body throws g and the one after hook then throws h: the artifact is
    still captured once, inside the befores section, and both faults escape
    together, an assumption violation among them no longer telling the
    notifier to skip.
   */
  lemma {:induction false} BodyAndAfterFailure(test: TestMethod, body: Hook, tearDown: Hook, saved: set<TestMethod>)
    requires body.result.Threw? && tearDown.result.Threw? && test !in saved
    ensures
      var hooks := MethodHooks([], [], [tearDown], []);
      var r := Eval(MethodStatement(test, hooks, body), saved);
      && r.outcome == Threw(MultipleFailures([Unskippable(body.result.fault), Unskippable(tearDown.result.fault)]))
      && Captures(r.log) == [test]
      && r.log == [SectionBegun(SectionPrefix + "Afters"), SectionBegun(SectionPrefix + "Befores"),
                   Invoked(body.name), ArtifactSaved(test, body.result.fault), SectionEnded,
                   Invoked(tearDown.name), SectionEnded]
  {
    BodyAndAfterOutcome(test, body, tearDown, saved);
    BodyAndAfterLog(test, body, tearDown, saved);
    MethodCapturedOnce(test, MethodHooks([], [], [tearDown], []), body, saved);
  }

  lemma {:induction false} BodyAndAfterOutcome(test: TestMethod, body: Hook, tearDown: Hook, saved: set<TestMethod>)
    requires body.result.Threw? && tearDown.result.Threw?
    ensures Eval(MethodStatement(test, MethodHooks([], [], [tearDown], []), body), saved).outcome
         == Threw(MultipleFailures([Unskippable(body.result.fault), Unskippable(tearDown.result.fault)]))
  {
    MethodOutcome(test, MethodHooks([], [], [tearDown], []), body, saved);
    BodyThenAfterFaults(body, tearDown);
  }

  /** The body's fault passes the empty no-metric afters alone and is then bundled with the after hook's. */
  lemma {:induction false} BodyThenAfterFaults(body: Hook, tearDown: Hook)
    requires body.result.Threw? && tearDown.result.Threw?
    ensures AfterFaults(AfterFaults(InvokeUntilFault([] + [] + [body]).outcome, []), [tearDown])
         == Threw(MultipleFailures([Unskippable(body.result.fault), Unskippable(tearDown.result.fault)]))
  {
    assert [] + [] + [body] == [body];
    assert InvokeUntilFault([body]).outcome == body.result;
    assert FaultsOf([]) == [];
    assert FaultsOf([tearDown]) == [tearDown.result.fault];
    assert AfterFaults(body.result, []) == body.result;
    assert ErrorsOf(body.result) + FaultsOf([tearDown]) == [body.result.fault, tearDown.result.fault];
    assert UnskippableAll([body.result.fault, tearDown.result.fault])
        == [Unskippable(body.result.fault), Unskippable(tearDown.result.fault)];
  }

  lemma {:induction false} BodyAndAfterLog(test: TestMethod, body: Hook, tearDown: Hook, saved: set<TestMethod>)
    requires body.result.Threw? && test !in saved
    ensures Eval(MethodStatement(test, MethodHooks([], [], [tearDown], []), body), saved).log
         == [SectionBegun(SectionPrefix + "Afters"), SectionBegun(SectionPrefix + "Befores"),
             Invoked(body.name), ArtifactSaved(test, body.result.fault), SectionEnded,
             Invoked(tearDown.name), SectionEnded]
  {
    var hooks := MethodHooks([], [], [tearDown], []);
    assert AllComplete([]);
    EarlyCaptureOnBodyFault(test, hooks, body, saved);
    LogWithOneAfter(test, body, tearDown);
  }

  lemma {:induction false} LogWithOneAfter(test: TestMethod, body: Hook, tearDown: Hook)
    requires body.result.Threw?
    ensures
      [SectionBegun(SectionPrefix + "Afters"), SectionBegun(SectionPrefix + "Befores")]
      + InvokedEvents([]) + InvokedEvents([])
      + [Invoked(body.name), ArtifactSaved(test, body.result.fault), SectionEnded]
      + InvokedEvents([]) + InvokedEvents([tearDown])
      + [SectionEnded]
      == [SectionBegun(SectionPrefix + "Afters"), SectionBegun(SectionPrefix + "Befores"),
          Invoked(body.name), ArtifactSaved(test, body.result.fault), SectionEnded,
          Invoked(tearDown.name), SectionEnded]
  {
    assert InvokedEvents([]) == [];
    assert InvokedEvents([tearDown]) == [Invoked(tearDown.name)];
  }

  /** A filter that accepts nothing: JUnit reports that no tests remain and the runner's list is kept. */
  lemma {:induction false} FilterExcludesAll()
    ensures
      var a := TestMethod("Suite", "a");
      var b := TestMethod("Suite", "b");
      var r := Filter(NewTracker([a, b]), (d: Description) => false);
      && r.noTestsRemain
      && r.tracker.filtered == [a, b]
      && r.tracker.baseFiltered == []
  {
    var none: Criterion := (d: Description) => false;
    var a := TestMethod("Suite", "a");
    var b := TestMethod("Suite", "b");
    assert KeepMatching([a, b], none) == [];
  }
}
