/**
  The class block the runner hands to JUnit: the saved set is cleared, the
  class statement runs inside an artifact saver for every filtered child
  and a "classBlock" section, and a class-level fault that escapes is
  either reported once for every filtered child or, when there are none,
  rethrown.
 */
module ClassLevel {
  import opened Model
  import opened Seqs
  import opened EventLog
  import opened Artifacts
  import opened Tracing
  import opened Statements
  import opened StatementFacts
  import opened Reporting
  import opened Functional
  import opened Filtering

  /** What one evaluation of the class block leaves: what escapes, the saved set, the events, the notifications. */
  datatype ClassRun = ClassRun(outcome: Outcome, saved: set<TestMethod>, log: seq<Event>, notes: seq<Notification>)

  /**
    The class block run on JUnit's class statement `parent`. Whatever was
    saved by an earlier run of the block is forgotten first, so the
    evaluation starts from the empty set.
   */
  function ClassBlock(parent: Statement, filtered: seq<TestMethod>): (c: ClassRun)
    ensures Balanced(c.log)
    ensures Distinct(Captures(c.log)) && c.saved == Elems(Captures(c.log))
    ensures Elems(Captures(c.log)) <= SaverMethods(parent) + Elems(filtered)
    ensures c.outcome.Threw? <==> Eval(parent, {}).outcome.Threw? && |filtered| == 0
    ensures c.outcome.Threw? ==> c.outcome == Eval(parent, {}).outcome && c.notes == []
    ensures Eval(parent, {}).outcome.Threw? ==>
      && ReportsEach(c.notes, filtered, Eval(parent, {}).outcome.fault)
      && Elems(filtered) <= c.saved
    ensures Eval(parent, {}).outcome.Completed? ==> c.notes == []
  {
    var s := ClassStatement(parent, filtered);
    var r := Eval(s, {});
    EvalBalanced(s, {});
    EvalCapturesOnce(s, {});
    CapturesWithinSavers(s, {});
    ClassStatementRun(parent, filtered);
    var d := ReportClassFault(r.outcome, filtered);
    ClassRun(d.outcome, r.saved, r.log, d.notes)
  }

  /** The class statement passes the parent's fault through and, on a fault, has saved every filtered child. */
  lemma {:induction false} ClassStatementRun(parent: Statement, filtered: seq<TestMethod>)
    ensures Eval(ClassStatement(parent, filtered), {}).outcome == Eval(parent, {}).outcome
    ensures Eval(parent, {}).outcome.Threw? ==> Elems(filtered) <= Eval(ClassStatement(parent, filtered), {}).saved
    ensures SaverMethods(ClassStatement(parent, filtered)) == SaverMethods(parent) + Elems(filtered)
  {
    var r := Eval(parent, {});
    SavedSectionRun("classBlock", parent, filtered, {});
    SaverContract(r.outcome, filtered, r.saved);
  }

  /**
    A section around a saver whose methods the wrapped statement has all
    saved: outcome, saved set, captures and invocations are the wrapped
    statement's, and the log is bracketed.
   */
  lemma {:induction false} SectionAllSaved(name: string, x: Statement, methods: seq<TestMethod>, saved: set<TestMethod>)
    requires Elems(methods) <= Eval(x, saved).saved
    ensures
      var r := Eval(x, saved);
      var rs := Eval(Traced(name, SaveArtifactsOnError(x, methods)), saved);
      && rs.outcome == r.outcome
      && rs.saved == r.saved
      && rs.log == [SectionBegun(SectionPrefix + name)] + r.log + [SectionEnded]
      && Captures(rs.log) == Captures(r.log)
      && Invocations(rs.log) == Invocations(r.log)
  {
    var r := Eval(x, saved);
    SaverContract(r.outcome, methods, r.saved);
    var a := ArtifactSaver(r.outcome, methods, r.saved);
    assert |a.events| == 0;
    assert r.log + a.events == r.log;
    SavedSectionRun(name, x, methods, saved);
  }

  /**
    A class-level setup failure: a @BeforeClass method throws and the
    class afters complete. The children never run, every filtered child
    has its artifact captured exactly once inside the "BeforeClass"
    section, and the class block completes normally having reported every
    filtered child as failed with the setup fault.
   */
  lemma {:induction false} ClassSetupFaultReportsAll(filtered: seq<TestMethod>, classBefores: seq<Hook>, classAfters: seq<Hook>, children: Statement)
    requires !AllComplete(classBefores) && AllComplete(classAfters)
    requires |filtered| > 0
    ensures
      var f := InvokeUntilFault(classBefores).outcome.fault;
      var before := Eval(WithBeforeClasses(filtered, classBefores, children), {});
      var c := ClassBlock(ParentClassBlock(filtered, classBefores, classAfters, children), filtered);
      && c.outcome == Completed
      && ReportsEach(c.notes, filtered, f)
      && c.saved == Elems(filtered)
      && Elems(Captures(before.log)) == Elems(filtered)
      && Captures(c.log) == Captures(before.log)
      && Invocations(c.log) == Invocations(InvokeUntilFault(classBefores).log) + Names(classAfters)
  {
    var p := ParentClassBlock(filtered, classBefores, classAfters, children);
    ParentAfterSetupFault(filtered, classBefores, classAfters, children);
    SectionAllSaved("classBlock", p, filtered, {});
  }

  /** JUnit's class statement when a class before throws: the fault escapes after every class after ran. */
  lemma {:induction false} ParentAfterSetupFault(filtered: seq<TestMethod>, classBefores: seq<Hook>, classAfters: seq<Hook>, children: Statement)
    requires !AllComplete(classBefores) && AllComplete(classAfters)
    ensures
      var pre := InvokeUntilFault(classBefores);
      var before := Eval(WithBeforeClasses(filtered, classBefores, children), {});
      var rp := Eval(ParentClassBlock(filtered, classBefores, classAfters, children), {});
      && rp.outcome == pre.outcome
      && rp.saved == Elems(filtered)
      && Elems(Captures(before.log)) == Elems(filtered)
      && Captures(rp.log) == Captures(before.log)
      && Invocations(rp.log) == Invocations(pre.log) + Names(classAfters)
  {
    var pre := InvokeUntilFault(classBefores);
    HookRunQuiet(classBefores);
    var x0 := WrapBefores(classBefores, children);
    WrapBeforesEval(classBefores, children, {});
    assert Eval(x0, {}) == Run(pre.outcome, {}, pre.log);
    var b := WithBeforeClasses(filtered, classBefores, children);
    BeforeClassRun(filtered, x0, pre);
    var x1 := WrapAfters(classAfters, b);
    WrapAftersEval(classAfters, b, {});
    RunAftersRun(b, classAfters, {});
    assert FaultsOf(classAfters) == [];
    SectionAllSaved("AfterClass", x1, filtered, {});
  }

  /** The "BeforeClass" section around class befores that threw: every filtered child is captured there. */
  lemma {:induction false} BeforeClassRun(filtered: seq<TestMethod>, x: Statement, pre: HookRun)
    requires Eval(x, {}) == Run(pre.outcome, {}, pre.log)
    requires pre.outcome.Threw? && Captures(pre.log) == []
    ensures
      var rb := Eval(Traced("BeforeClass", SaveArtifactsOnError(x, filtered)), {});
      && rb.outcome == pre.outcome
      && rb.saved == Elems(filtered)
      && Elems(Captures(rb.log)) == Elems(filtered)
      && Invocations(rb.log) == Invocations(pre.log)
  {
    SavedSectionRun("BeforeClass", x, filtered, {});
    var a := ArtifactSaver(pre.outcome, filtered, {});
    assert Elems(a.captured) == Elems(filtered);
  }

  /**
    With the corrected filter, a class-level fault is reported for exactly
    the methods JUnit still runs, in its order, however many filters were
    applied; and nothing escapes, since a filter that leaves no method
    throws before the class runs.
   */
  lemma {:induction false} ReportFollowsFilters(parent: Statement, children: seq<TestMethod>, criteria: seq<Criterion>)
    requires |criteria| > 0 && !ApplyFilters(NewTracker(children), criteria).noTestsRemain
    requires Eval(parent, {}).outcome.Threw?
    ensures
      var t := ApplyFilters(NewTracker(children), criteria).tracker;
      var c := ClassBlock(parent, t.filtered);
      && c.outcome == Completed
      && ReportsEach(c.notes, t.baseFiltered, Eval(parent, {}).outcome.fault)
  {
  }
}
