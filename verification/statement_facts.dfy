/**
  Facts about evaluating any statement built from the constructors above:
  trace sections stay balanced on every path, and within one class run no
  method's artifact is captured twice.
 */
module StatementFacts {
  import opened Model
  import opened Seqs
  import opened EventLog
  import opened Artifacts
  import opened Statements

  /** Every section any statement opens is closed again, on success and on fault alike. */
  lemma {:induction false} EvalBalanced(s: Statement, saved: set<TestMethod>)
    ensures Balanced(Eval(s, saved).log)
    decreases s
  {
    match s
    case Invoke(h) =>
      assert Untraced([Invoked(h.name)]);
      UntracedBalanced([Invoked(h.name)]);
    case RunBefores(befores, next) =>
      var pre := InvokeUntilFault(befores);
      HookRunQuiet(befores);
      UntracedBalanced(pre.log);
      if pre.outcome.Completed? {
        EvalBalanced(next, saved);
        BalancedAppend(pre.log, Eval(next, saved).log);
      }
    case RunAfters(next, afters) =>
      EvalBalanced(next, saved);
      InvocationsOfInvokedEvents(afters);
      UntracedBalanced(InvokedEvents(afters));
      BalancedAppend(Eval(next, saved).log, InvokedEvents(afters));
    case SaveArtifactsOnError(inner, methods) =>
      var r := Eval(inner, saved);
      var a := ArtifactSaver(r.outcome, methods, r.saved);
      SaverContract(r.outcome, methods, r.saved);
      EvalBalanced(inner, saved);
      UntracedBalanced(a.events);
      BalancedAppend(r.log, a.events);
    case Traced(section, inner) =>
      EvalBalanced(inner, saved);
    case Then(first, second) =>
      var r1 := Eval(first, saved);
      EvalBalanced(first, saved);
      if r1.outcome.Completed? {
        EvalBalanced(second, r1.saved);
        BalancedAppend(r1.log, Eval(second, r1.saved).log);
      }
    case Isolated(child) =>
      EvalBalanced(child, saved);
  }

  /**
    The artifact bookkeeping of one evaluation: the methods captured are
    pairwise distinct, none of them was saved before, and the saved set
    afterwards is the old one plus exactly the methods captured.
   */
  ghost predicate CapturedOnce(saved: set<TestMethod>, r: Run)
  {
    && Distinct(Captures(r.log))
    && (forall m :: m in Captures(r.log) ==> m !in saved)
    && r.saved == saved + Elems(Captures(r.log))
  }

  lemma {:induction false} EvalCapturesOnce(s: Statement, saved: set<TestMethod>)
    ensures CapturedOnce(saved, Eval(s, saved))
    decreases s
  {
    match s
    case Invoke(h) =>
      assert Captures([Invoked(h.name)]) == [];
      QuietCapturesOnce(saved, h.result, [Invoked(h.name)]);
    case RunBefores(befores, next) =>
      var pre := InvokeUntilFault(befores);
      HookRunQuiet(befores);
      QuietCapturesOnce(saved, pre.outcome, pre.log);
      if pre.outcome.Completed? {
        EvalCapturesOnce(next, saved);
        SequenceCapturesOnce(saved, Run(pre.outcome, saved, pre.log), Eval(next, saved));
      }
    case RunAfters(next, afters) =>
      var r := Eval(next, saved);
      EvalCapturesOnce(next, saved);
      InvocationsOfInvokedEvents(afters);
      var o := AssertEmpty(ErrorsOf(r.outcome) + FaultsOf(afters));
      QuietCapturesOnce(r.saved, o, InvokedEvents(afters));
      SequenceCapturesOnce(saved, r, Run(o, r.saved, InvokedEvents(afters)));
    case SaveArtifactsOnError(inner, methods) =>
      EvalCapturesOnce(inner, saved);
      SaverCapturesOnce(saved, Eval(inner, saved), methods);
    case Traced(section, inner) =>
      EvalCapturesOnce(inner, saved);
    case Then(first, second) =>
      var r1 := Eval(first, saved);
      EvalCapturesOnce(first, saved);
      if r1.outcome.Completed? {
        EvalCapturesOnce(second, r1.saved);
        SequenceCapturesOnce(saved, r1, Eval(second, r1.saved));
      }
    case Isolated(child) =>
      EvalCapturesOnce(child, saved);
  }

  /** A run that captures nothing keeps the saved set as it was. */
  lemma {:induction false} QuietCapturesOnce(saved: set<TestMethod>, o: Outcome, log: seq<Event>)
    requires Captures(log) == []
    ensures CapturedOnce(saved, Run(o, saved, log))
  {
    assert Elems(Captures(log)) == {};
  }

  /** An artifact saver after a run keeps the bookkeeping of that run. */
  lemma {:induction false} SaverCapturesOnce(saved: set<TestMethod>, r: Run, methods: seq<TestMethod>)
    requires CapturedOnce(saved, r)
    ensures
      var a := ArtifactSaver(r.outcome, methods, r.saved);
      CapturedOnce(saved, Run(a.outcome, a.saved, r.log + a.events))
  {
    var a := ArtifactSaver(r.outcome, methods, r.saved);
    SaverContract(r.outcome, methods, r.saved);
    CapturesAppend(r.log, a.events);
    DistinctAppend(Captures(r.log), a.captured);
    ElemsAppend(Captures(r.log), a.captured);
  }

  /** Two runs one after another, the second starting from the saved set the first left. */
  lemma {:induction false} SequenceCapturesOnce(saved: set<TestMethod>, r1: Run, r2: Run)
    requires CapturedOnce(saved, r1) && CapturedOnce(r1.saved, r2)
    ensures CapturedOnce(saved, Run(r2.outcome, r2.saved, r1.log + r2.log))
  {
    CapturesAppend(r1.log, r2.log);
    DistinctAppend(Captures(r1.log), Captures(r2.log));
    ElemsAppend(Captures(r1.log), Captures(r2.log));
  }

  /** The methods any artifact saver inside the statement was given. */
  function SaverMethods(s: Statement): set<TestMethod>
  {
    match s
    case Invoke(_) => {}
    case RunBefores(_, next) => SaverMethods(next)
    case RunAfters(next, _) => SaverMethods(next)
    case SaveArtifactsOnError(inner, methods) => SaverMethods(inner) + Elems(methods)
    case Traced(_, inner) => SaverMethods(inner)
    case Then(first, second) => SaverMethods(first) + SaverMethods(second)
    case Isolated(child) => SaverMethods(child)
  }

  /** Only methods handed to some artifact saver of the statement are ever captured. */
  lemma {:induction false} CapturesWithinSavers(s: Statement, saved: set<TestMethod>)
    ensures Elems(Captures(Eval(s, saved).log)) <= SaverMethods(s)
    decreases s
  {
    match s
    case Invoke(h) =>
      assert Captures([Invoked(h.name)]) == [];
    case RunBefores(befores, next) =>
      var pre := InvokeUntilFault(befores);
      HookRunQuiet(befores);
      if pre.outcome.Completed? {
        CapturesWithinSavers(next, saved);
        CapturesAppend(pre.log, Eval(next, saved).log);
      }
    case RunAfters(next, afters) =>
      CapturesWithinSavers(next, saved);
      InvocationsOfInvokedEvents(afters);
      CapturesAppend(Eval(next, saved).log, InvokedEvents(afters));
    case SaveArtifactsOnError(inner, methods) =>
      var r := Eval(inner, saved);
      var a := ArtifactSaver(r.outcome, methods, r.saved);
      SaverContract(r.outcome, methods, r.saved);
      CapturesWithinSavers(inner, saved);
      CapturesAppend(r.log, a.events);
      ElemsAppend(Captures(r.log), a.captured);
    case Traced(section, inner) =>
      CapturesWithinSavers(inner, saved);
    case Then(first, second) =>
      var r1 := Eval(first, saved);
      CapturesWithinSavers(first, saved);
      if r1.outcome.Completed? {
        var r2 := Eval(second, r1.saved);
        CapturesWithinSavers(second, r1.saved);
        CapturesAppend(r1.log, r2.log);
        ElemsAppend(Captures(r1.log), Captures(r2.log));
      }
    case Isolated(child) =>
      CapturesWithinSavers(child, saved);
  }

  /** The statement has no runLeaf boundary, so every fault inside it reaches its top. */
  predicate Propagating(s: Statement)
  {
    match s
    case Invoke(_) => true
    case RunBefores(_, next) => Propagating(next)
    case RunAfters(next, _) => Propagating(next)
    case SaveArtifactsOnError(inner, _) => Propagating(inner)
    case Traced(_, inner) => Propagating(inner)
    case Then(first, second) => Propagating(first) && Propagating(second)
    case Isolated(_) => false
  }

  /**
    Where no fault is swallowed, an evaluation that completes normally has
    captured nothing and left the saved set as it was.
   */
  lemma {:induction false} CapturesOnlyOnFault(s: Statement, saved: set<TestMethod>)
    requires Propagating(s)
    ensures Eval(s, saved).outcome.Completed? ==> Captures(Eval(s, saved).log) == [] && Eval(s, saved).saved == saved
    decreases s
  {
    match s
    case Invoke(h) =>
      assert Captures([Invoked(h.name)]) == [];
    case RunBefores(befores, next) =>
      var pre := InvokeUntilFault(befores);
      HookRunQuiet(befores);
      if pre.outcome.Completed? {
        CapturesOnlyOnFault(next, saved);
        CapturesAppend(pre.log, Eval(next, saved).log);
      }
    case RunAfters(next, afters) =>
      CapturesOnlyOnFault(next, saved);
      InvocationsOfInvokedEvents(afters);
      CapturesAppend(Eval(next, saved).log, InvokedEvents(afters));
    case SaveArtifactsOnError(inner, methods) =>
      var r := Eval(inner, saved);
      var a := ArtifactSaver(r.outcome, methods, r.saved);
      SaverContract(r.outcome, methods, r.saved);
      CapturesOnlyOnFault(inner, saved);
      CapturesAppend(r.log, a.events);
    case Traced(section, inner) =>
      CapturesOnlyOnFault(inner, saved);
    case Then(first, second) =>
      var r1 := Eval(first, saved);
      CapturesOnlyOnFault(first, saved);
      if r1.outcome.Completed? {
        var r2 := Eval(second, r1.saved);
        CapturesOnlyOnFault(second, r1.saved);
        CapturesAppend(r1.log, r2.log);
      }
  }

  /** Running the hooks of x and then those of y is running the hooks of x + y. */
  lemma {:induction false} InvokeUntilFaultAppend(x: seq<Hook>, y: seq<Hook>)
    ensures InvokeUntilFault(x + y) ==
      var a := InvokeUntilFault(x);
      if a.outcome.Threw? then a
      else HookRun(InvokeUntilFault(y).outcome, a.log + InvokeUntilFault(y).log)
    decreases |x|
  {
    if |x| == 0 {
      assert x + y == y;
    } else {
      TailOfAppend(x, y);
      if x[0].result.Completed? {
        InvokeUntilFaultAppend(x[1..], y);
        var a := InvokeUntilFault(x[1..]);
        var b := InvokeUntilFault(y);
        AppendAssoc([Invoked(x[0].name)], a.log, b.log);
      }
    }
  }

  /** Nested RunBefores evaluate as one RunBefores over the outer hooks followed by the inner ones. */
  lemma {:induction false} RunBeforesFuse(x: seq<Hook>, y: seq<Hook>, s: Statement, saved: set<TestMethod>)
    ensures Eval(RunBefores(x, RunBefores(y, s)), saved) == Eval(RunBefores(x + y, s), saved)
  {
    InvokeUntilFaultAppend(x, y);
    if InvokeUntilFault(x).outcome.Threw? {
      FuseOuterThrew(x, y, s, saved);
    } else if InvokeUntilFault(y).outcome.Threw? {
      FuseInnerThrew(x, y, s, saved);
    } else {
      FuseBothComplete(x, y, s, saved);
    }
  }

  lemma {:induction false} FuseOuterThrew(x: seq<Hook>, y: seq<Hook>, s: Statement, saved: set<TestMethod>)
    requires InvokeUntilFault(x).outcome.Threw?
    ensures Eval(RunBefores(x, RunBefores(y, s)), saved) == Eval(RunBefores(x + y, s), saved)
  {
    InvokeUntilFaultAppend(x, y);
  }

  lemma {:induction false} FuseInnerThrew(x: seq<Hook>, y: seq<Hook>, s: Statement, saved: set<TestMethod>)
    requires InvokeUntilFault(x).outcome.Completed? && InvokeUntilFault(y).outcome.Threw?
    ensures Eval(RunBefores(x, RunBefores(y, s)), saved) == Eval(RunBefores(x + y, s), saved)
  {
    InvokeUntilFaultAppend(x, y);
  }

  lemma {:induction false} FuseBothComplete(x: seq<Hook>, y: seq<Hook>, s: Statement, saved: set<TestMethod>)
    requires InvokeUntilFault(x).outcome.Completed? && InvokeUntilFault(y).outcome.Completed?
    ensures Eval(RunBefores(x, RunBefores(y, s)), saved) == Eval(RunBefores(x + y, s), saved)
  {
    InvokeUntilFaultAppend(x, y);
    var a := InvokeUntilFault(x);
    var b := InvokeUntilFault(y);
    var r := Eval(s, saved);
    var inner := Eval(RunBefores(y, s), saved);
    assert inner == Run(r.outcome, r.saved, b.log + r.log);
    assert Eval(RunBefores(x, RunBefores(y, s)), saved) == Run(r.outcome, r.saved, a.log + (b.log + r.log));
    assert InvokeUntilFault(x + y) == HookRun(Completed, a.log + b.log);
    assert Eval(RunBefores(x + y, s), saved) == Run(r.outcome, r.saved, (a.log + b.log) + r.log);
    AppendAssoc(a.log, b.log, r.log);
  }

  /** RunAfters keeps the wrapped statement's run and appends one invocation per after hook. */
  lemma {:induction false} RunAftersRun(s: Statement, hooks: seq<Hook>, saved: set<TestMethod>)
    ensures
      var r := Eval(s, saved);
      var ra := Eval(RunAfters(s, hooks), saved);
      && ra.saved == r.saved
      && ra.log == r.log + InvokedEvents(hooks)
      && Invocations(ra.log) == Invocations(r.log) + Names(hooks)
      && Captures(ra.log) == Captures(r.log)
      && (ra.outcome.Completed? <==> r.outcome.Completed? && AllComplete(hooks))
  {
    var r := Eval(s, saved);
    InvocationsOfInvokedEvents(hooks);
    InvocationsAppend(r.log, InvokedEvents(hooks));
    CapturesAppend(r.log, InvokedEvents(hooks));
  }

  /**
    A trace section around an artifact saver: the wrapped statement's
    outcome passes through, its log is bracketed with the capture events
    appended inside the section, and no hook is invoked besides its own.
   */
  lemma {:induction false} SavedSectionRun(name: string, x: Statement, methods: seq<TestMethod>, saved: set<TestMethod>)
    ensures
      var r := Eval(x, saved);
      var a := ArtifactSaver(r.outcome, methods, r.saved);
      var rs := Eval(Traced(name, SaveArtifactsOnError(x, methods)), saved);
      && rs.outcome == r.outcome
      && rs.saved == a.saved
      && rs.log == [SectionBegun(Tracing.SectionPrefix + name)] + (r.log + a.events) + [SectionEnded]
      && Invocations(rs.log) == Invocations(r.log)
      && Captures(rs.log) == Captures(r.log) + a.captured
  {
    var r := Eval(x, saved);
    var a := ArtifactSaver(r.outcome, methods, r.saved);
    var rv := Eval(SaveArtifactsOnError(x, methods), saved);
    SaverRun(x, methods, saved);
    assert Eval(Traced(name, SaveArtifactsOnError(x, methods)), saved) == Tracing.TraceSection(name, rv);
  }

  /** An artifact saver's run: the wrapped run with the capture events appended. */
  lemma {:induction false} SaverRun(x: Statement, methods: seq<TestMethod>, saved: set<TestMethod>)
    ensures
      var r := Eval(x, saved);
      var a := ArtifactSaver(r.outcome, methods, r.saved);
      var rv := Eval(SaveArtifactsOnError(x, methods), saved);
      && rv == Run(r.outcome, a.saved, r.log + a.events)
      && Invocations(rv.log) == Invocations(r.log)
      && Captures(rv.log) == Captures(r.log) + a.captured
  {
    var r := Eval(x, saved);
    var a := ArtifactSaver(r.outcome, methods, r.saved);
    SaverContract(r.outcome, methods, r.saved);
    InvocationsAppend(r.log, a.events);
    CapturesAppend(r.log, a.events);
  }
}
