/**
  The Functional runner's overrides, as functions that build statements the
  way the runner does, and what evaluating those statements guarantees:
  the order in which the two kinds of hooks run, when artifacts are saved,
  and what the class block reports when a class-level fault escapes.
 */
module Functional {
  import opened Model
  import opened Seqs
  import opened EventLog
  import opened Artifacts
  import opened Tracing
  import opened Statements
  import opened StatementFacts
  import opened Reporting

  /**
    A RunBefores around the statement, left out when there are no hooks:
    how JUnit adds @Before and @BeforeClass methods, and how the runner
    adds the @NoMetricBefore ones.
   */
  function WrapBefores(hooks: seq<Hook>, s: Statement): Statement
  {
    if |hooks| == 0 then s else RunBefores(hooks, s)
  }

  /** The same for after hooks, with RunAfters. */
  function WrapAfters(hooks: seq<Hook>, s: Statement): Statement
  {
    if |hooks| == 0 then s else RunAfters(s, hooks)
  }

  /**
    withBefores: the standard befores are added first and the no-metric
    befores around them, so the no-metric ones run first; then the artifact
    saver for the method and a "Befores" section.
   */
  function WithBefores(test: TestMethod, befores: seq<Hook>, noMetricBefores: seq<Hook>, s: Statement): Statement
  {
    var statement := WrapBefores(noMetricBefores, WrapBefores(befores, s));
    Traced("Befores", SaveArtifactsOnError(statement, [test]))
  }

  /**
    withAfters: the no-metric afters are added first and the standard afters
    around them, so the no-metric ones run first; then the artifact saver
    for the method and an "Afters" section.
   */
  function WithAfters(test: TestMethod, afters: seq<Hook>, noMetricAfters: seq<Hook>, s: Statement): Statement
  {
    var statement := WrapAfters(afters, WrapAfters(noMetricAfters, s));
    Traced("Afters", SaveArtifactsOnError(statement, [test]))
  }

  /** methodBlock: an artifact saver for the method around the statement JUnit builds for it. */
  function MethodBlock(test: TestMethod, s: Statement): Statement
  {
    SaveArtifactsOnError(s, [test])
  }

  /** withBeforeClasses: the class befores, an artifact saver for every filtered child, a "BeforeClass" section. */
  function WithBeforeClasses(filtered: seq<TestMethod>, classBefores: seq<Hook>, s: Statement): Statement
  {
    Traced("BeforeClass", SaveArtifactsOnError(WrapBefores(classBefores, s), filtered))
  }

  /** withAfterClasses: the class afters, an artifact saver for every filtered child, an "AfterClass" section. */
  function WithAfterClasses(filtered: seq<TestMethod>, classAfters: seq<Hook>, s: Statement): Statement
  {
    Traced("AfterClass", SaveArtifactsOnError(WrapAfters(classAfters, s), filtered))
  }

  /** The statement classBlock evaluates: an artifact saver for every filtered child and a "classBlock" section around JUnit's class statement. */
  function ClassStatement(parent: Statement, filtered: seq<TestMethod>): Statement
  {
    Traced("classBlock", SaveArtifactsOnError(parent, filtered))
  }

  /** The hooks of the test class, each list in the order discovery returns it. */
  datatype MethodHooks = MethodHooks(
    befores: seq<Hook>, noMetricBefores: seq<Hook>, afters: seq<Hook>, noMetricAfters: seq<Hook>)

  /**
    The statement JUnit's methodBlock builds for one test, through the
    runner's overrides: the body, then withBefores, then withAfters, then
    the runner's methodBlock saver. Rules, expected exceptions and timeouts
    are not part of this model.
   */
  function MethodStatement(test: TestMethod, hooks: MethodHooks, body: Hook): Statement
  {
    MethodBlock(test,
      WithAfters(test, hooks.afters, hooks.noMetricAfters,
        WithBefores(test, hooks.befores, hooks.noMetricBefores, Invoke(body))))
  }

  /** The class statement JUnit's classBlock builds around the children, through the runner's overrides (class rules left out). */
  function ParentClassBlock(filtered: seq<TestMethod>, classBefores: seq<Hook>, classAfters: seq<Hook>, children: Statement): Statement
  {
    WithAfterClasses(filtered, classAfters, WithBeforeClasses(filtered, classBefores, children))
  }

  lemma {:induction false} WrapBeforesEval(hooks: seq<Hook>, s: Statement, saved: set<TestMethod>)
    ensures Eval(WrapBefores(hooks, s), saved) == Eval(RunBefores(hooks, s), saved)
  {
    if |hooks| == 0 {
      assert [] + Eval(s, saved).log == Eval(s, saved).log;
    }
  }

  lemma {:induction false} WrapAftersEval(hooks: seq<Hook>, s: Statement, saved: set<TestMethod>)
    ensures Eval(WrapAfters(hooks, s), saved) == Eval(RunAfters(s, hooks), saved)
  {
    if |hooks| == 0 {
      var r := Eval(s, saved);
      assert r.log + InvokedEvents(hooks) == r.log;
      assert ErrorsOf(r.outcome) + FaultsOf(hooks) == ErrorsOf(r.outcome);
    }
  }

  /**
    The no-metric befores run before the standard befores: the befores
    section evaluates exactly as a single RunBefores over the no-metric
    befores followed by the standard ones. When they all complete, the
    hooks are invoked in that order and then the wrapped statement.
   */
  lemma {:induction false} WithBeforesOrder(test: TestMethod, befores: seq<Hook>, noMetricBefores: seq<Hook>, s: Statement, saved: set<TestMethod>)
    ensures Eval(WithBefores(test, befores, noMetricBefores, s), saved)
         == Eval(Traced("Befores", SaveArtifactsOnError(RunBefores(noMetricBefores + befores, s), [test])), saved)
    ensures AllComplete(noMetricBefores) && AllComplete(befores) ==>
      Invocations(Eval(WithBefores(test, befores, noMetricBefores, s), saved).log)
        == Names(noMetricBefores) + Names(befores) + Invocations(Eval(s, saved).log)
  {
    FusedBefores(befores, noMetricBefores, s, saved);
    var fused := RunBefores(noMetricBefores + befores, s);
    var nested := WrapBefores(noMetricBefores, WrapBefores(befores, s));
    SavedSectionRun("Befores", fused, [test], saved);
    SameRunSameSection("Befores", nested, fused, [test], saved);
    if AllComplete(noMetricBefores) && AllComplete(befores) {
      FusedBeforesInvocations(noMetricBefores, befores, s, saved);
    }
  }

  /** The two layers of before hooks evaluate as one RunBefores, no-metric hooks first. */
  lemma {:induction false} FusedBefores(befores: seq<Hook>, noMetricBefores: seq<Hook>, s: Statement, saved: set<TestMethod>)
    ensures Eval(WrapBefores(noMetricBefores, WrapBefores(befores, s)), saved)
         == Eval(RunBefores(noMetricBefores + befores, s), saved)
  {
    WrapBeforesEval(befores, s, saved);
    WrapBeforesEval(noMetricBefores, WrapBefores(befores, s), saved);
    WrapBeforesEval(noMetricBefores, RunBefores(befores, s), saved);
    RunBeforesFuse(noMetricBefores, befores, s, saved);
  }

  /** Statements that evaluate alike still do so inside the same saver and section. */
  lemma {:induction false} SameRunSameSection(name: string, x: Statement, y: Statement, methods: seq<TestMethod>, saved: set<TestMethod>)
    requires Eval(x, saved) == Eval(y, saved)
    ensures Eval(Traced(name, SaveArtifactsOnError(x, methods)), saved)
         == Eval(Traced(name, SaveArtifactsOnError(y, methods)), saved)
  {
    SaverRun(x, methods, saved);
    SaverRun(y, methods, saved);
  }

  /** Before hooks that all complete are invoked in order, and then the statement runs. */
  lemma {:induction false} FusedBeforesInvocations(first: seq<Hook>, second: seq<Hook>, s: Statement, saved: set<TestMethod>)
    requires AllComplete(first) && AllComplete(second)
    ensures Invocations(Eval(RunBefores(first + second, s), saved).log)
        == Names(first) + Names(second) + Invocations(Eval(s, saved).log)
  {
    CompletingHooksRun(first, second);
    var r := Eval(s, saved);
    var pre := InvokedEvents(first) + InvokedEvents(second);
    assert Eval(RunBefores(first + second, s), saved).log == pre + r.log;
    InvocationsAppend(pre, r.log);
    InvocationsAppend(InvokedEvents(first), InvokedEvents(second));
    InvocationsOfInvokedEvents(first);
    InvocationsOfInvokedEvents(second);
  }

  /**
    The no-metric afters run before the standard afters, and all of them run
    whether or not the wrapped statement or an earlier after hook threw; the
    afters section completes normally only when nothing threw.
   */
  lemma {:induction false} WithAftersOrder(test: TestMethod, afters: seq<Hook>, noMetricAfters: seq<Hook>, s: Statement, saved: set<TestMethod>)
    ensures Invocations(Eval(WithAfters(test, afters, noMetricAfters, s), saved).log)
         == Invocations(Eval(s, saved).log) + Names(noMetricAfters) + Names(afters)
    ensures Eval(WithAfters(test, afters, noMetricAfters, s), saved).outcome.Completed?
        <==> Eval(s, saved).outcome.Completed? && AllComplete(noMetricAfters) && AllComplete(afters)
  {
    WrapAftersEval(noMetricAfters, s, saved);
    var inner := WrapAfters(noMetricAfters, s);
    WrapAftersEval(afters, inner, saved);
    RunAftersRun(s, noMetricAfters, saved);
    RunAftersRun(inner, afters, saved);
    SavedSectionRun("Afters", WrapAfters(afters, inner), [test], saved);
  }

  /**
    withAfters nested the way the class documentation describes and
    withBefores does: the standard afters innermost and the no-metric afters
    around them, so the standard afters run first.
   */
  function WithAftersNested(test: TestMethod, afters: seq<Hook>, noMetricAfters: seq<Hook>, s: Statement): Statement
  {
    var statement := WrapAfters(noMetricAfters, WrapAfters(afters, s));
    Traced("Afters", SaveArtifactsOnError(statement, [test]))
  }

  /**
    With the nested withAfters the standard afters run before the no-metric
    afters, mirroring the befores, and every after hook still runs whatever
    threw before it.
   */
  lemma {:induction false} NestedAftersOrder(test: TestMethod, afters: seq<Hook>, noMetricAfters: seq<Hook>, s: Statement, saved: set<TestMethod>)
    ensures Invocations(Eval(WithAftersNested(test, afters, noMetricAfters, s), saved).log)
         == Invocations(Eval(s, saved).log) + Names(afters) + Names(noMetricAfters)
    ensures Eval(WithAftersNested(test, afters, noMetricAfters, s), saved).outcome.Completed?
        <==> Eval(s, saved).outcome.Completed? && AllComplete(afters) && AllComplete(noMetricAfters)
  {
    WrapAftersEval(afters, s, saved);
    var inner := WrapAfters(afters, s);
    WrapAftersEval(noMetricAfters, inner, saved);
    RunAftersRun(s, afters, saved);
    RunAftersRun(inner, noMetricAfters, saved);
    SavedSectionRun("Afters", WrapAfters(noMetricAfters, inner), [test], saved);
  }

  /**
    One after and one no-metric after: withAfters as written invokes the
    no-metric after first, the nested one invokes the after first.
   */
  lemma {:induction false} AftersNotNested(test: TestMethod, after: Hook, noMetricAfter: Hook, s: Statement, saved: set<TestMethod>)
    ensures Invocations(Eval(WithAfters(test, [after], [noMetricAfter], s), saved).log)
         == Invocations(Eval(s, saved).log) + [noMetricAfter.name, after.name]
    ensures Invocations(Eval(WithAftersNested(test, [after], [noMetricAfter], s), saved).log)
         == Invocations(Eval(s, saved).log) + [after.name, noMetricAfter.name]
  {
    WithAftersOrder(test, [after], [noMetricAfter], s, saved);
    NestedAftersOrder(test, [after], [noMetricAfter], s, saved);
    assert Names([after]) == [after.name];
    assert Names([noMetricAfter]) == [noMetricAfter.name];
  }

  /**
    The saver around a method statement rethrows the fault unchanged. On a
    fault the method is saved, and captured unless an inner saver already
    captured it; on normal completion nothing is added.
   */
  lemma {:induction false} MethodBlockRethrows(test: TestMethod, s: Statement, saved: set<TestMethod>)
    ensures Eval(MethodBlock(test, s), saved).outcome == Eval(s, saved).outcome
    ensures Eval(s, saved).outcome.Completed? ==> Eval(MethodBlock(test, s), saved) == Eval(s, saved)
    ensures Eval(s, saved).outcome.Threw? ==>
      && test in Eval(MethodBlock(test, s), saved).saved
      && Captures(Eval(MethodBlock(test, s), saved).log)
         == Captures(Eval(s, saved).log) + (if test in Eval(s, saved).saved then [] else [test])
  {
    var r := Eval(s, saved);
    if r.outcome.Completed? {
      var a := ArtifactSaver(r.outcome, [test], r.saved);
      assert r.log + a.events == r.log;
    } else if test in r.saved {
      SaverAfterSave(test, s, saved);
    } else {
      SaverFirstSave(test, s, saved);
      var saving := [ArtifactSaved(test, r.outcome.fault)];
      CapturesAppend(r.log, saving);
      assert Captures(saving) == [test];
    }
  }

  /** A saver for a method not yet saved, around a statement that throws, captures it once. */
  lemma {:induction false} SaverFirstSave(test: TestMethod, x: Statement, saved: set<TestMethod>)
    requires Eval(x, saved).outcome.Threw? && test !in Eval(x, saved).saved
    ensures
      var r := Eval(x, saved);
      var rm := Eval(MethodBlock(test, x), saved);
      && rm.outcome == r.outcome
      && rm.saved == r.saved + {test}
      && rm.log == r.log + [ArtifactSaved(test, r.outcome.fault)]
  {
    var r := Eval(x, saved);
    SaveOne(r.outcome, test, r.saved);
  }

  /** A duplicate-free list with no element but m that holds m is [m]. */
  lemma {:induction false} OnlyElement(c: seq<TestMethod>, m: TestMethod)
    requires Distinct(c) && Elems(c) <= {m} && m in c
    ensures c == [m]
  {
    assert Elems(c) == {m};
    DistinctCardinality(c);
    assert c[0] in Elems(c);
  }

  /** A duplicate-free list of elements outside `saved`, none but m, is empty when m is saved. */
  lemma {:induction false} NoElement(c: seq<TestMethod>, m: TestMethod, saved: set<TestMethod>)
    requires Distinct(c) && Elems(c) <= {m} && m in saved
    requires forall x :: x in c ==> x !in saved
    ensures c == []
  {
    assert Elems(c) == {};
    DistinctCardinality(c);
  }

  /**
    Within one test, however many of the nested savers observe a fault, the
    method's artifact is captured at most once: exactly once when the test
    throws and nothing was saved for it earlier in the class run, never
    otherwise.
   */
  lemma {:induction false} MethodCapturedOnce(test: TestMethod, hooks: MethodHooks, body: Hook, saved: set<TestMethod>)
    ensures
      var r := Eval(MethodStatement(test, hooks, body), saved);
      && Captures(r.log) == (if r.outcome.Threw? && test !in saved then [test] else [])
      && (r.outcome.Threw? ==> r.saved == saved + {test})
      && (r.outcome.Completed? ==> r.saved == saved)
  {
    var s := MethodStatement(test, hooks, body);
    var r := Eval(s, saved);
    var c := Captures(r.log);
    EvalCapturesOnce(s, saved);
    CapturesWithinSavers(s, saved);
    var inner := WithAfters(test, hooks.afters, hooks.noMetricAfters,
      WithBefores(test, hooks.befores, hooks.noMetricBefores, Invoke(body)));
    MethodStatementShape(test, hooks, body);
    CapturesOnlyOnFault(s, saved);
    MethodBlockRethrows(test, inner, saved);
    if r.outcome.Threw? {
      if test !in saved {
        assert test in Elems(c);
        OnlyElement(c, test);
      } else {
        NoElement(c, test, saved);
      }
    }
  }

  /** Wrapping in before or after hooks neither swallows faults nor adds savers. */
  lemma {:induction false} WrapShape(hooks: seq<Hook>, s: Statement)
    ensures Propagating(WrapBefores(hooks, s)) == Propagating(s)
    ensures SaverMethods(WrapBefores(hooks, s)) == SaverMethods(s)
    ensures Propagating(WrapAfters(hooks, s)) == Propagating(s)
    ensures SaverMethods(WrapAfters(hooks, s)) == SaverMethods(s)
  {
  }

  /** A test's statement swallows no fault, and its only artifact savers are for that test. */
  lemma {:induction false} MethodStatementShape(test: TestMethod, hooks: MethodHooks, body: Hook)
    ensures Propagating(MethodStatement(test, hooks, body))
    ensures SaverMethods(MethodStatement(test, hooks, body)) == {test}
  {
    var b1 := WrapBefores(hooks.befores, Invoke(body));
    WrapShape(hooks.befores, Invoke(body));
    WrapShape(hooks.noMetricBefores, b1);
    var befores := WithBefores(test, hooks.befores, hooks.noMetricBefores, Invoke(body));
    assert Elems([test]) == {test};
    assert SaverMethods(befores) == {test};
    var a1 := WrapAfters(hooks.noMetricAfters, befores);
    WrapShape(hooks.noMetricAfters, befores);
    WrapShape(hooks.afters, a1);
    var after := WithAfters(test, hooks.afters, hooks.noMetricAfters, befores);
    assert SaverMethods(after) == {test};
    assert SaverMethods(MethodBlock(test, after)) == {test} + {test};
  }

  /**
    The befores section when every before hook completes and the body
    throws: the hooks run in order, then the body, and the method's artifact
    is captured before the section ends.
   */
  lemma {:induction false} BeforesSectionOnBodyFault(test: TestMethod, hooks: MethodHooks, body: Hook, saved: set<TestMethod>)
    requires test !in saved
    requires AllComplete(hooks.noMetricBefores) && AllComplete(hooks.befores)
    requires body.result.Threw?
    ensures
      var rb := Eval(WithBefores(test, hooks.befores, hooks.noMetricBefores, Invoke(body)), saved);
      && rb.outcome == body.result
      && rb.saved == saved + {test}
      && rb.log == [SectionBegun(SectionPrefix + "Befores")]
           + InvokedEvents(hooks.noMetricBefores) + InvokedEvents(hooks.befores)
           + [Invoked(body.name), ArtifactSaved(test, body.result.fault), SectionEnded]
  {
    var b := hooks.noMetricBefores + hooks.befores;
    var x := RunBefores(b, Invoke(body));
    WithBeforesOrder(test, hooks.befores, hooks.noMetricBefores, Invoke(body), saved);
    CompletingHooksRun(hooks.noMetricBefores, hooks.befores);
    var pre := InvokedEvents(hooks.noMetricBefores) + InvokedEvents(hooks.befores);
    assert Eval(x, saved) == Run(body.result, saved, pre + [Invoked(body.name)]);
    SectionFirstSave("Befores", x, test, saved);
    Regroup(SectionBegun(SectionPrefix + "Befores"), InvokedEvents(hooks.noMetricBefores), InvokedEvents(hooks.befores),
      Invoked(body.name), ArtifactSaved(test, body.result.fault), SectionEnded);
  }

  /**
    A section whose saver is for a method not yet saved, around a statement
    that throws: the method is saved and captured just before the section
    ends.
   */
  lemma {:induction false} SectionFirstSave(name: string, x: Statement, test: TestMethod, saved: set<TestMethod>)
    requires Eval(x, saved).outcome.Threw? && test !in Eval(x, saved).saved
    ensures
      var r := Eval(x, saved);
      var rs := Eval(Traced(name, SaveArtifactsOnError(x, [test])), saved);
      && rs.outcome == r.outcome
      && rs.saved == r.saved + {test}
      && rs.log == [SectionBegun(SectionPrefix + name)] + r.log + [ArtifactSaved(test, r.outcome.fault), SectionEnded]
  {
    var r := Eval(x, saved);
    SaveOne(r.outcome, test, r.saved);
    SavedSectionRun(name, x, [test], saved);
    AppendAssoc([SectionBegun(SectionPrefix + name)], r.log, [ArtifactSaved(test, r.outcome.fault)]);
  }

  /** Two lists of before hooks that all complete are invoked one after another, in full. */
  lemma {:induction false} CompletingHooksRun(first: seq<Hook>, second: seq<Hook>)
    requires AllComplete(first) && AllComplete(second)
    ensures InvokeUntilFault(first + second) == HookRun(Completed, InvokedEvents(first) + InvokedEvents(second))
  {
    var b := first + second;
    AllCompleteAppend(first, second);
    assert b[..|b|] == b;
    InvokedEventsAppend(first, second);
  }

  /** Two lists of hooks that each complete make one that completes. */
  lemma {:induction false} AllCompleteAppend(first: seq<Hook>, second: seq<Hook>)
    requires AllComplete(first) && AllComplete(second)
    ensures AllComplete(first + second)
  {
    var b := first + second;
    forall i | 0 <= i < |b| ensures b[i].result.Completed? {
      if i >= |first| {
        assert b[i] == second[i - |first|];
      }
    }
  }

  /** What RunAfters throws after a statement with outcome o: its fault and the hooks' faults, collected. */
  function AfterFaults(o: Outcome, hooks: seq<Hook>): Outcome
  {
    AssertEmpty(ErrorsOf(o) + FaultsOf(hooks))
  }

  /**
    What escapes a test: the no-metric befores, the befores and the body
    run as one sequence that stops at the first fault; then every no-metric
    after and every after runs, and their faults are collected with that one,
    layer by layer.
   */
  lemma {:induction false} MethodOutcome(test: TestMethod, hooks: MethodHooks, body: Hook, saved: set<TestMethod>)
    ensures Eval(MethodStatement(test, hooks, body), saved).outcome
      == AfterFaults(AfterFaults(InvokeUntilFault(hooks.noMetricBefores + hooks.befores + [body]).outcome, hooks.noMetricAfters), hooks.afters)
  {
    var befores := WithBefores(test, hooks.befores, hooks.noMetricBefores, Invoke(body));
    BeforesOutcome(test, hooks.befores, hooks.noMetricBefores, body, saved);
    var x := WrapAfters(hooks.afters, WrapAfters(hooks.noMetricAfters, befores));
    AfterHooksRun(hooks.afters, hooks.noMetricAfters, befores, saved);
    SavedSectionRun("Afters", x, [test], saved);
    MethodBlockRethrows(test, WithAfters(test, hooks.afters, hooks.noMetricAfters, befores), saved);
  }

  /** The befores section throws the first fault among the befores and the body, no-metric befores first. */
  lemma {:induction false} BeforesOutcome(test: TestMethod, befores: seq<Hook>, noMetricBefores: seq<Hook>, body: Hook, saved: set<TestMethod>)
    ensures Eval(WithBefores(test, befores, noMetricBefores, Invoke(body)), saved).outcome
      == InvokeUntilFault(noMetricBefores + befores + [body]).outcome
  {
    var x := RunBefores(noMetricBefores + befores, Invoke(body));
    WithBeforesOrder(test, befores, noMetricBefores, Invoke(body), saved);
    SavedSectionRun("Befores", x, [test], saved);
    InvokeUntilFaultAppend(noMetricBefores + befores, [body]);
    assert [body][1..] == [];
  }

  /** The two layers of after hooks, no-metric ones inside, evaluated around a statement. */
  lemma {:induction false} AfterHooksRun(afters: seq<Hook>, noMetricAfters: seq<Hook>, s: Statement, saved: set<TestMethod>)
    ensures
      var r := Eval(s, saved);
      var rx := Eval(WrapAfters(afters, WrapAfters(noMetricAfters, s)), saved);
      && rx.log == r.log + InvokedEvents(noMetricAfters) + InvokedEvents(afters)
      && rx.saved == r.saved
      && Invocations(rx.log) == Invocations(r.log) + Names(noMetricAfters) + Names(afters)
      && Captures(rx.log) == Captures(r.log)
      && (rx.outcome.Completed? <==> r.outcome.Completed? && AllComplete(noMetricAfters) && AllComplete(afters))
      && rx.outcome == AfterFaults(AfterFaults(r.outcome, noMetricAfters), afters)
  {
    var inner := WrapAfters(noMetricAfters, s);
    WrapAftersEval(noMetricAfters, s, saved);
    WrapAftersEval(afters, inner, saved);
    RunAftersRun(s, noMetricAfters, saved);
    RunAftersRun(inner, afters, saved);
  }

  /**
    The afters section around a statement that threw after its method was
    saved: every after hook still runs, no-metric ones first, nothing more
    is captured, and the fault goes on.
   */
  lemma {:induction false} AftersSectionAfterSave(test: TestMethod, afters: seq<Hook>, noMetricAfters: seq<Hook>, s: Statement, saved: set<TestMethod>)
    requires Eval(s, saved).outcome.Threw? && test in Eval(s, saved).saved
    ensures
      var r := Eval(s, saved);
      var ra := Eval(WithAfters(test, afters, noMetricAfters, s), saved);
      && ra.outcome.Threw?
      && ra.saved == r.saved
      && ra.log == [SectionBegun(SectionPrefix + "Afters")] + r.log
           + InvokedEvents(noMetricAfters) + InvokedEvents(afters) + [SectionEnded]
  {
    var x := WrapAfters(afters, WrapAfters(noMetricAfters, s));
    AfterHooksRun(afters, noMetricAfters, s, saved);
    var r := Eval(s, saved);
    var rx := Eval(x, saved);
    assert test in rx.saved && rx.outcome.Threw?;
    SectionAfterSave("Afters", x, test, saved);
    assert WithAfters(test, afters, noMetricAfters, s) == Traced("Afters", SaveArtifactsOnError(x, [test]));
    BracketRegroup(SectionBegun(SectionPrefix + "Afters"), r.log, InvokedEvents(noMetricAfters), InvokedEvents(afters), SectionEnded);
  }

  /** A section whose saver is for a method already saved adds only its begin and end events. */
  lemma {:induction false} SectionAfterSave(name: string, x: Statement, test: TestMethod, saved: set<TestMethod>)
    requires test in Eval(x, saved).saved
    ensures
      var r := Eval(x, saved);
      var rs := Eval(Traced(name, SaveArtifactsOnError(x, [test])), saved);
      && rs.outcome == r.outcome
      && rs.saved == r.saved
      && rs.log == [SectionBegun(SectionPrefix + name)] + r.log + [SectionEnded]
  {
    var r := Eval(x, saved);
    SaveOne(r.outcome, test, r.saved);
    SavedSectionRun(name, x, [test], saved);
    assert r.log + [] == r.log;
  }

  /**
    The point of saving early: when the test body throws after its befores
    completed, the artifact is captured inside the befores section, before
    any after hook runs, and later savers capture nothing more.
   */
  lemma {:induction false} EarlyCaptureOnBodyFault(test: TestMethod, hooks: MethodHooks, body: Hook, saved: set<TestMethod>)
    requires test !in saved
    requires AllComplete(hooks.noMetricBefores) && AllComplete(hooks.befores)
    requires body.result.Threw?
    ensures Eval(MethodStatement(test, hooks, body), saved).log ==
      [SectionBegun(SectionPrefix + "Afters"), SectionBegun(SectionPrefix + "Befores")]
      + InvokedEvents(hooks.noMetricBefores) + InvokedEvents(hooks.befores)
      + [Invoked(body.name), ArtifactSaved(test, body.result.fault), SectionEnded]
      + InvokedEvents(hooks.noMetricAfters) + InvokedEvents(hooks.afters)
      + [SectionEnded]
  {
    var befores := WithBefores(test, hooks.befores, hooks.noMetricBefores, Invoke(body));
    BeforesSectionOnBodyFault(test, hooks, body, saved);
    var afters := WithAfters(test, hooks.afters, hooks.noMetricAfters, befores);
    AftersSectionAfterSave(test, hooks.afters, hooks.noMetricAfters, befores, saved);
    SaverAfterSave(test, afters, saved);
    Flatten(SectionBegun(SectionPrefix + "Afters"), SectionBegun(SectionPrefix + "Befores"),
      InvokedEvents(hooks.noMetricBefores), InvokedEvents(hooks.befores),
      [Invoked(body.name), ArtifactSaved(test, body.result.fault), SectionEnded],
      InvokedEvents(hooks.noMetricAfters), InvokedEvents(hooks.afters), SectionEnded);
  }

  /** A saver for a method that the statement has already saved changes nothing. */
  lemma {:induction false} SaverAfterSave(test: TestMethod, x: Statement, saved: set<TestMethod>)
    requires test in Eval(x, saved).saved
    ensures Eval(MethodBlock(test, x), saved) == Eval(x, saved)
  {
    var r := Eval(x, saved);
    SaveOne(r.outcome, test, r.saved);
    assert r.log + [] == r.log;
  }

  /** Invocation events for a list of hooks, split at a list boundary. */
  lemma {:induction false} InvokedEventsAppend(x: seq<Hook>, y: seq<Hook>)
    ensures InvokedEvents(x + y) == InvokedEvents(x) + InvokedEvents(y)
  {
    var l := InvokedEvents(x + y);
    var k := InvokedEvents(x) + InvokedEvents(y);
    assert |l| == |k|;
    forall i | 0 <= i < |l| ensures l[i] == k[i] {
      if i < |x| {
        assert (x + y)[i] == x[i];
      } else {
        assert (x + y)[i] == y[i - |x|];
      }
    }
  }

}
