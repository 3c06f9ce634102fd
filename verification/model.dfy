/**
  The values the Functional JUnit runner works with: discovered test methods
  and the descriptions JUnit reports them under, the faults a statement can
  throw, the outcome of evaluating a statement, the notifications sent to the
  run notifier, and the events the tracing and artifact backends observe.
 */
module Model {

  /**
    A discovered test method (JUnit's FrameworkMethod): the runner's test
    class, under which describeChild reports it even when the method is
    inherited, and the method name.
   */
  datatype TestMethod = TestMethod(className: string, name: string)

  /** The identity the notifier and the artifact backend key a test on (describeChild). */
  datatype Description = Description(className: string, methodName: string)

  function Describe(m: TestMethod): Description
  {
    Description(m.className, m.name)
  }

  /**
    A Throwable escaping a statement. Assumption violations are told apart
    because the class-level report dispatches on them; RunAfters bundles
    several faults into one MultipleFailureException, which wraps each
    assumption violation it bundles in a TestCouldNotBeSkippedException.
   */
  datatype Fault =
    | AssumptionViolation(message: string)
    | Exception(message: string)
    | CouldNotBeSkipped(cause: Fault)
    | MultipleFailures(errors: seq<Fault>)

  /** How evaluating a statement ended: normally, or by throwing a fault. */
  datatype Outcome = Completed | Threw(fault: Fault)

  /** JUnit's Failure: a description paired with the fault reported against it. */
  datatype Failure = Failure(description: Description, fault: Fault)

  /** What the runner sends to the RunNotifier. */
  datatype Notification =
    | TestStarted(description: Description)
    | TestAssumptionFailed(failure: Failure)
    | TestFailure(failure: Failure)
    | TestFinished(description: Description)

  /** A reflectively invoked hook (a @Before, @NoMetricAfter, ... method, or a test body) and how its invocation ends. */
  datatype Hook = Hook(name: string, result: Outcome)

  /**
    What the external backends observe, in order: Trace.beginSection and
    Trace.endSection, ArtifactSaver.onError (which is handed
    Describe(test) and the fault), and the invocation of a hook.
   */
  datatype Event =
    | SectionBegun(name: string)
    | SectionEnded
    | ArtifactSaved(test: TestMethod, fault: Fault)
    | Invoked(hook: string)

  /**
    The state after evaluating a statement: its outcome, the methods whose
    artifacts have been saved in this class run, and the events emitted.
   */
  datatype Run = Run(outcome: Outcome, saved: set<TestMethod>, log: seq<Event>)

  /** The names of the given hooks, in order. */
  function Names(hooks: seq<Hook>): seq<string>
  {
    if |hooks| == 0 then [] else [hooks[0].name] + Names(hooks[1..])
  }

  /** True when none of the given hooks throws. */
  predicate AllComplete(hooks: seq<Hook>)
  {
    forall i :: 0 <= i < |hooks| ==> hooks[i].result.Completed?
  }
}
