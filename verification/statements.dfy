/**
  JUnit statements as data, and their evaluation. The base statements
  (hook invocations, RunBefores, RunAfters, running the children one after
  another) follow JUnit 4's documented behaviour; the two decorators the
  Functional runner adds, the artifact saver and the trace section, are
  evaluated through Artifacts.ArtifactSaver and Tracing.TraceSection.
 */
module Statements {
  import opened Model
  import opened Seqs
  import opened EventLog
  import opened Artifacts
  import opened Tracing

  datatype Statement =
    | Invoke(hook: Hook)                                          // a test body or any other given statement
    | RunBefores(befores: seq<Hook>, next: Statement)             // JUnit's RunBefores
    | RunAfters(next: Statement, afters: seq<Hook>)               // JUnit's RunAfters
    | SaveArtifactsOnError(inner: Statement, methods: seq<TestMethod>)  // Functional.artifactSaver
    | Traced(section: string, inner: Statement)                   // Functional.withTrace
    | Then(first: Statement, second: Statement)                   // children run one after another
    | Isolated(child: Statement)                                  // JUnit's runLeaf: a child's fault does not escape

  /** The outcome and events of invoking a list of hooks. */
  datatype HookRun = HookRun(outcome: Outcome, log: seq<Event>)

  /**
    RunBefores' loop: invoke the hooks in order and stop at the first that
    throws, rethrowing its fault.
   */
  function InvokeUntilFault(hooks: seq<Hook>): (r: HookRun)
    ensures |r.log| <= |hooks|
    ensures r.log == InvokedEvents(hooks[..|r.log|])
    ensures r.outcome.Completed? <==> AllComplete(hooks)
    ensures r.outcome.Completed? ==> |r.log| == |hooks|
    ensures r.outcome.Threw? ==>
      |r.log| > 0 && hooks[|r.log| - 1].result == r.outcome && AllComplete(hooks[..|r.log| - 1])
    decreases |hooks|
  {
    if |hooks| == 0 then
      HookRun(Completed, [])
    else
      var here := [Invoked(hooks[0].name)];
      if hooks[0].result.Threw? then
        assert InvokedEvents(hooks[..1]) == here;
        HookRun(hooks[0].result, here)
      else
        var rest := InvokeUntilFault(hooks[1..]);
        PrefixAfterHead(hooks, |rest.log| + 1);
        InvokedEventsCons(hooks, |rest.log|);
        if rest.outcome.Threw? then
          PrefixAfterHead(hooks, |rest.log|);
          HookRun(rest.outcome, here + rest.log)
        else
          HookRun(rest.outcome, here + rest.log)
  }

  /** The invocation events of a prefix one longer than a prefix of the tail. */
  lemma {:induction false} InvokedEventsCons(hooks: seq<Hook>, k: nat)
    requires k < |hooks|
    ensures InvokedEvents(hooks[..k + 1]) == [Invoked(hooks[0].name)] + InvokedEvents(hooks[1..][..k])
  {
    var l := InvokedEvents(hooks[..k + 1]);
    var m := [Invoked(hooks[0].name)] + InvokedEvents(hooks[1..][..k]);
    assert |l| == |m|;
    forall i | 0 <= i < |l| ensures l[i] == m[i] {
      if i > 0 {
        assert hooks[..k + 1][i] == hooks[1..][..k][i - 1];
      }
    }
  }

  /** What the hook loop leaves in the log: invocations only, of the hooks it reached. */
  lemma {:induction false} HookRunQuiet(hooks: seq<Hook>)
    ensures
      var r := InvokeUntilFault(hooks);
      && Untraced(r.log) && Captures(r.log) == []
      && Invocations(r.log) == Names(hooks[..|r.log|])
  {
    InvocationsOfInvokedEvents(hooks[..|InvokeUntilFault(hooks).log|]);
  }

  /** The faults thrown by the hooks, in order. */
  function FaultsOf(hooks: seq<Hook>): (fs: seq<Fault>)
    ensures |fs| == 0 <==> AllComplete(hooks)
    decreases |hooks|
  {
    if |hooks| == 0 then []
    else (if hooks[0].result.Threw? then [hooks[0].result.fault] else []) + FaultsOf(hooks[1..])
  }

  /** The fault of an outcome, as a list of zero or one errors. */
  function ErrorsOf(o: Outcome): seq<Fault>
  {
    if o.Threw? then [o.fault] else []
  }

  /**
    How MultipleFailureException's constructor keeps one bundled error: an
    assumption violation becomes a TestCouldNotBeSkippedException around
    it, anything else is kept as it is.
   */
  function Unskippable(f: Fault): (g: Fault)
    ensures !g.AssumptionViolation?
    ensures f.AssumptionViolation? <==> g.CouldNotBeSkipped? && g.cause == f && !f.CouldNotBeSkipped?
    ensures !f.AssumptionViolation? ==> g == f
  {
    if f.AssumptionViolation? then CouldNotBeSkipped(f) else f
  }

  /** The errors as MultipleFailureException keeps them, in order. */
  function UnskippableAll(errors: seq<Fault>): (kept: seq<Fault>)
    ensures |kept| == |errors|
    ensures forall i :: 0 <= i < |errors| ==> kept[i] == Unskippable(errors[i])
    decreases |errors|
  {
    if |errors| == 0 then [] else [Unskippable(errors[0])] + UnskippableAll(errors[1..])
  }

  /**
    MultipleFailureException.assertEmpty: nothing to throw, the single
    error itself (an assumption violation included), or all errors bundled
    in one fault with no assumption violation among them.
   */
  function AssertEmpty(errors: seq<Fault>): (o: Outcome)
    ensures o.Completed? <==> |errors| == 0
    ensures |errors| == 1 ==> o == Threw(errors[0])
    ensures |errors| > 1 ==>
      && o.Threw? && o.fault.MultipleFailures? && |o.fault.errors| == |errors|
      && (forall i :: 0 <= i < |errors| ==> o.fault.errors[i] == Unskippable(errors[i]))
      && (forall e :: e in o.fault.errors ==> !e.AssumptionViolation?)
  {
    if |errors| == 0 then Completed
    else if |errors| == 1 then Threw(errors[0])
    else Threw(MultipleFailures(UnskippableAll(errors)))
  }

  /**
    Evaluating a statement from the saved set of the class run so far.
    RunAfters always invokes every after hook, collecting the faults of the
    statement and of the hooks; Then stops at the first fault; Isolated
    swallows its child's fault.
   */
  function Eval(s: Statement, saved: set<TestMethod>): Run
    decreases s
  {
    match s
    case Invoke(h) =>
      Run(h.result, saved, [Invoked(h.name)])
    case RunBefores(befores, next) =>
      var pre := InvokeUntilFault(befores);
      if pre.outcome.Threw? then
        Run(pre.outcome, saved, pre.log)
      else
        var r := Eval(next, saved);
        Run(r.outcome, r.saved, pre.log + r.log)
    case RunAfters(next, afters) =>
      var r := Eval(next, saved);
      Run(AssertEmpty(ErrorsOf(r.outcome) + FaultsOf(afters)), r.saved, r.log + InvokedEvents(afters))
    case SaveArtifactsOnError(inner, methods) =>
      var r := Eval(inner, saved);
      var a := ArtifactSaver(r.outcome, methods, r.saved);
      Run(a.outcome, a.saved, r.log + a.events)
    case Traced(section, inner) =>
      TraceSection(section, Eval(inner, saved))
    case Then(first, second) =>
      var r1 := Eval(first, saved);
      if r1.outcome.Threw? then
        r1
      else
        var r2 := Eval(second, r1.saved);
        Run(r2.outcome, r2.saved, r1.log + r2.log)
    case Isolated(child) =>
      var r := Eval(child, saved);
      Run(Completed, r.saved, r.log)
  }
}
