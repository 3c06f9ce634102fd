/**
  The filter tracker: the runner's own copy of the children selected to
  run (mFilteredChildren), kept beside JUnit's private filtered list, which
  the runner cannot read.
 */
module Filtering {
  import opened Model
  import opened Seqs

  /** Filter.shouldRun, as a pure predicate on descriptions. */
  type Criterion = Description -> bool

  /** The methods of `s` whose description the criterion accepts, in their order in `s`. */
  function KeepMatching(s: seq<TestMethod>, shouldRun: Criterion): (r: seq<TestMethod>)
    ensures forall m :: m in r <==> m in s && shouldRun(Describe(m))
    ensures IsSubsequence(r, s)
    ensures Distinct(s) ==> Distinct(r)
    decreases |s|
  {
    if |s| == 0 then []
    else
      var rest := KeepMatching(s[1..], shouldRun);
      assert s == [s[0]] + s[1..];
      if shouldRun(Describe(s[0])) then
        [s[0]] + rest
      else
        SubsequenceCons(rest, s[0], s[1..]);
        rest
  }

  /**
    children: every test method the class declares (getChildren, which
    filtering does not change); baseFiltered: JUnit's own filtered list;
    filtered: the runner's copy.
   */
  datatype Tracker = Tracker(children: seq<TestMethod>, baseFiltered: seq<TestMethod>, filtered: seq<TestMethod>)

  /** The state the constructor leaves: nothing filtered out yet, in either list. */
  function NewTracker(children: seq<TestMethod>): (t: Tracker)
    ensures t.children == children && t.filtered == children && t.baseFiltered == children
  {
    Tracker(children, children, children)
  }

  /** The tracker after a filter call, and whether the call threw NoTestsRemainException. */
  datatype FilterResult = FilterResult(tracker: Tracker, noTestsRemain: bool)

  /**
    Functional.filter as written. JUnit's filter keeps the matching methods
    of its own filtered list and throws when none remain (after emptying
    that list); the runner's copy is then recomputed from all the children.
   */
  function Filter(t: Tracker, shouldRun: Criterion): (r: FilterResult)
    ensures r.tracker.children == t.children
    ensures r.tracker.baseFiltered == KeepMatching(t.baseFiltered, shouldRun)
    ensures r.noTestsRemain <==> forall m :: m in t.baseFiltered ==> !shouldRun(Describe(m))
    ensures r.noTestsRemain ==> r.tracker.filtered == t.filtered
    ensures !r.noTestsRemain ==>
      && (forall m :: m in r.tracker.filtered <==> m in t.children && shouldRun(Describe(m)))
      && IsSubsequence(r.tracker.filtered, t.children)
  {
    var base := KeepMatching(t.baseFiltered, shouldRun);
    if |base| == 0 then
      FilterResult(t.(baseFiltered := base), true)
    else
      assert base[0] in base;
      FilterResult(t.(baseFiltered := base, filtered := KeepMatching(t.children, shouldRun)), false)
  }

  /**
    A second filter forgets the first: from a class with methods a and b, a
    filter selecting a and then a filter accepting everything leave JUnit
    running only a while the runner's copy holds both.
   */
  lemma {:induction false} SecondFilterDiverges()
    ensures
      var a := TestMethod("C", "a");
      var b := TestMethod("C", "b");
      var first := Filter(NewTracker([a, b]), (d: Description) => d.methodName == "a");
      var second := Filter(first.tracker, (d: Description) => true);
      && !first.noTestsRemain && !second.noTestsRemain
      && second.tracker.baseFiltered == [a]
      && second.tracker.filtered == [a, b]
  {
    var a := TestMethod("C", "a");
    var b := TestMethod("C", "b");
    var onlyA: Criterion := (d: Description) => d.methodName == "a";
    var all: Criterion := (d: Description) => true;
    assert [a, b][1..] == [b];
    assert KeepMatching([b], onlyA) == [];
    assert KeepMatching([a, b], onlyA) == [a];
    assert KeepMatching([a], all) == [a];
    assert KeepMatching([b], all) == [b];
    assert KeepMatching([a, b], all) == [a, b];
  }

  /**
    The filter with the runner's copy narrowed from its own current list
    instead of recomputed from all the children: the runner then mirrors
    what JUnit's filter does to JUnit's list, so once the two lists agree
    they keep agreeing.
   */
  function FilterAgreeing(t: Tracker, shouldRun: Criterion): (r: FilterResult)
    ensures r.tracker.children == t.children
    ensures r.tracker.baseFiltered == KeepMatching(t.baseFiltered, shouldRun)
    ensures r.noTestsRemain <==> forall m :: m in t.baseFiltered ==> !shouldRun(Describe(m))
    ensures r.noTestsRemain ==> r.tracker.filtered == t.filtered
    ensures !r.noTestsRemain ==>
      && (forall m :: m in r.tracker.filtered <==> m in t.filtered && shouldRun(Describe(m)))
      && IsSubsequence(r.tracker.filtered, t.filtered)
    ensures t.filtered == t.baseFiltered && !r.noTestsRemain ==>
      r.tracker.filtered == r.tracker.baseFiltered && |r.tracker.filtered| > 0
  {
    var base := KeepMatching(t.baseFiltered, shouldRun);
    if |base| == 0 then
      FilterResult(t.(baseFiltered := base), true)
    else
      assert base[0] in base;
      FilterResult(t.(baseFiltered := base, filtered := KeepMatching(t.filtered, shouldRun)), false)
  }

  /**
    A single filter call on a fresh runner gives the same lists either way,
    so the two filters part only from the second call on.
   */
  lemma {:induction false} FirstFilterAgrees(children: seq<TestMethod>, shouldRun: Criterion)
    ensures Filter(NewTracker(children), shouldRun) == FilterAgreeing(NewTracker(children), shouldRun)
  {
  }

  /**
    The same two filters through the corrected filter: the runner's list
    follows JUnit's and both hold only a.
   */
  lemma {:induction false} SecondFilterAgrees()
    ensures
      var a := TestMethod("C", "a");
      var b := TestMethod("C", "b");
      var first := FilterAgreeing(NewTracker([a, b]), (d: Description) => d.methodName == "a");
      var second := FilterAgreeing(first.tracker, (d: Description) => true);
      && !first.noTestsRemain && !second.noTestsRemain
      && second.tracker.baseFiltered == [a]
      && second.tracker.filtered == [a]
  {
    var a := TestMethod("C", "a");
    var b := TestMethod("C", "b");
    var onlyA: Criterion := (d: Description) => d.methodName == "a";
    var all: Criterion := (d: Description) => true;
    assert [a, b][1..] == [b];
    assert KeepMatching([b], onlyA) == [];
    assert KeepMatching([a, b], onlyA) == [a];
    assert KeepMatching([a], all) == [a];
  }

  /** The criteria of a list all accept a description. */
  ghost predicate AcceptedByAll(criteria: seq<Criterion>, d: Description)
  {
    forall k :: 0 <= k < |criteria| ==> criteria[k](d)
  }

  /**
    Several filter calls one after another (JUnit's Request.filterWith
    repeated), stopping at the first that throws.
   */
  function ApplyFilters(t: Tracker, criteria: seq<Criterion>): (r: FilterResult)
    requires t.filtered == t.baseFiltered
    ensures r.tracker.children == t.children
    ensures !r.noTestsRemain ==> r.tracker.filtered == r.tracker.baseFiltered
    ensures !r.noTestsRemain ==> IsSubsequence(r.tracker.filtered, t.filtered)
    ensures !r.noTestsRemain ==>
      forall m :: m in r.tracker.filtered <==> m in t.filtered && AcceptedByAll(criteria, Describe(m))
    ensures !r.noTestsRemain && |criteria| > 0 ==> |r.tracker.filtered| > 0
    decreases |criteria|
  {
    if |criteria| == 0 then
      SubsequenceReflexive(t.filtered);
      FilterResult(t, false)
    else
      var step := FilterAgreeing(t, criteria[0]);
      if step.noTestsRemain then
        step
      else
        var rest := ApplyFilters(step.tracker, criteria[1..]);
        if !rest.noTestsRemain then
          SubsequenceTransitive(rest.tracker.filtered, step.tracker.filtered, t.filtered);
          forall m
            ensures m in rest.tracker.filtered <==> m in t.filtered && AcceptedByAll(criteria, Describe(m))
          {
            AcceptedByAllCons(criteria, Describe(m));
          }
          rest
        else
          rest
  }

  /** A description passes a list of criteria when it passes the first and then the rest. */
  lemma {:induction false} AcceptedByAllCons(criteria: seq<Criterion>, d: Description)
    requires |criteria| > 0
    ensures AcceptedByAll(criteria, d) <==> criteria[0](d) && AcceptedByAll(criteria[1..], d)
  {
    if criteria[0](d) && AcceptedByAll(criteria[1..], d) {
      forall k | 0 <= k < |criteria| ensures criteria[k](d) {
        if k > 0 {
          assert criteria[k] == criteria[1..][k - 1];
        }
      }
    }
  }
}
