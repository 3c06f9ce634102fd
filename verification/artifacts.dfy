/**
  The artifact saver decorator (Functional.artifactSaver): when the wrapped
  statement throws, every given method that has no artifact yet in this
  class run is recorded in the saved set and handed to the artifact backend;
  then the same fault is rethrown.
 */
module Artifacts {
  import opened Model
  import opened Seqs
  import opened EventLog

  /** The saved set after one pass over the methods, and the methods captured in that pass, in order. */
  datatype Saved = Saved(saved: set<TestMethod>, captured: seq<TestMethod>)

  /**
    The forEach over the method stream: a method already in the saved set is
    skipped; any other is added to the set and captured. Adding before
    capturing is what keeps a method that occurs twice in the stream from
    being captured twice.
   */
  function SaveEach(methods: seq<TestMethod>, saved: set<TestMethod>): (r: Saved)
    ensures r.saved == saved + Elems(methods)
    ensures forall m :: m in r.captured <==> m in methods && m !in saved
    ensures Distinct(r.captured)
    ensures IsSubsequence(r.captured, methods)
    ensures InFirstOccurrenceOrder(r.captured, methods)
    decreases |methods|
  {
    if |methods| == 0 then
      Saved(saved, [])
    else
      var m := methods[0];
      assert methods == [m] + methods[1..];
      assert Elems(methods) == {m} + Elems(methods[1..]);
      if m in saved then
        var rest := SaveEach(methods[1..], saved);
        SubsequenceCons(rest.captured, m, methods[1..]);
        FirstOccurrenceOrderCons(rest.captured, m, methods[1..]);
        rest
      else
        var rest := SaveEach(methods[1..], saved + {m});
        FirstOccurrenceOrderCons(rest.captured, m, methods[1..]);
        FirstOccurrenceOrderHead(rest.captured, methods);
        Saved(rest.saved, [m] + rest.captured)
  }

  /** A stream's first element that does not occur in `sub` leaves the order of `sub` as it was. */
  lemma {:induction false} FirstOccurrenceOrderCons(sub: seq<TestMethod>, m: TestMethod, tail: seq<TestMethod>)
    requires InFirstOccurrenceOrder(sub, tail) && m !in sub
    requires forall x :: x in sub ==> x in tail
    ensures InFirstOccurrenceOrder(sub, [m] + tail)
  {
    var s := [m] + tail;
    assert s[1..] == tail;
    forall x | x in sub ensures FirstIndex(s, x) == 1 + FirstIndex(tail, x) {
      assert s[0] != x;
    }
  }

  /** Putting the stream's first element in front of what comes after it keeps first-occurrence order. */
  lemma {:induction false} FirstOccurrenceOrderHead(rest: seq<TestMethod>, methods: seq<TestMethod>)
    requires |methods| > 0 && methods[0] !in rest
    requires InFirstOccurrenceOrder(rest, methods)
    ensures InFirstOccurrenceOrder([methods[0]] + rest, methods)
  {
    var c := [methods[0]] + rest;
    forall i, j | 0 <= i < j < |c| && c[i] in methods && c[j] in methods
      ensures FirstIndex(methods, c[i]) < FirstIndex(methods, c[j])
    {
      if i == 0 {
        assert c[j] == rest[j - 1] && c[j] != methods[0];
      } else {
        assert c[i] == rest[i - 1] && c[j] == rest[j - 1];
      }
    }
  }

  /** What the decorator leaves behind: the rethrown outcome, the saved set, the onError events. */
  datatype SaverResult = SaverResult(outcome: Outcome, saved: set<TestMethod>, captured: seq<TestMethod>, events: seq<Event>)

  /**
    The decorator applied to the outcome of the inner statement: on a fault
    the method stream is walked once and each newly saved method's capture
    event is emitted; the outcome is passed on untouched.
   */
  function ArtifactSaver(inner: Outcome, methods: seq<TestMethod>, saved: set<TestMethod>): (r: SaverResult)
    ensures r.outcome == inner
  {
    match inner
    case Completed =>
      SaverResult(inner, saved, [], [])
    case Threw(f) =>
      var s := SaveEach(methods, saved);
      SaverResult(inner, s.saved, s.captured, CaptureEvents(s.captured, f))
  }

  /**
    What the decorator promises: it captures only on a fault, each method at
    most once, only methods not already saved, and in stream order; every
    event is a capture carrying the inner fault; and when every method of
    the stream is saved already it adds nothing.
   */
  lemma {:induction false} SaverContract(inner: Outcome, methods: seq<TestMethod>, saved: set<TestMethod>)
    ensures
      var r := ArtifactSaver(inner, methods, saved);
      && (inner.Completed? ==> r.saved == saved && r.captured == [] && r.events == [])
      && (inner.Threw? ==> r.saved == saved + Elems(methods))
      && (inner.Threw? ==> forall m :: m in r.captured <==> m in methods && m !in saved)
      && Distinct(r.captured)
      && IsSubsequence(r.captured, methods)
      && InFirstOccurrenceOrder(r.captured, methods)
      && Captures(r.events) == r.captured
      && Invocations(r.events) == [] && Untraced(r.events)
      && |r.events| == |r.captured|
      && (forall i :: 0 <= i < |r.events| ==> r.events[i].ArtifactSaved? && r.events[i].fault == inner.fault)
      && (Elems(methods) <= saved ==> r.saved == saved && r.captured == [] && r.events == [])
  {
    match inner
    case Completed =>
      SubsequenceReflexive<TestMethod>([]);
      assert Captures([]) == [] && Invocations([]) == [];
    case Threw(f) =>
      var s := SaveEach(methods, saved);
      CapturesOfCaptureEvents(s.captured, f);
      if Elems(methods) <= saved {
        ElemsEmpty(s.captured);
      }
  }

  /**
    A saver for one method: on a fault it saves and captures that method
    unless it is saved already; otherwise it leaves everything as it was.
   */
  lemma {:induction false} SaveOne(inner: Outcome, test: TestMethod, saved: set<TestMethod>)
    ensures inner.Threw? && test !in saved ==>
      ArtifactSaver(inner, [test], saved) == SaverResult(inner, saved + {test}, [test], [ArtifactSaved(test, inner.fault)])
    ensures inner.Completed? || test in saved ==>
      ArtifactSaver(inner, [test], saved) == SaverResult(inner, saved, [], [])
  {
    assert Elems([test]) == {test};
    assert [test][1..] == [];
  }
}
