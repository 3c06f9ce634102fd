/**
  The class-level failure report: when a fault escapes the whole class
  block, every filtered child is reported to the notifier as started,
  failed with that fault, and finished, so that no test goes unreported.
 */
module Reporting {
  import opened Model
  import opened Seqs

  /** An assumption violation is reported as a failed assumption, anything else as a failure. */
  function FailureNotice(d: Description, f: Fault): Notification
  {
    if f.AssumptionViolation? then TestAssumptionFailed(Failure(d, f)) else TestFailure(Failure(d, f))
  }

  /** The notes are one started/failed/finished triple per child, in child order, all for fault f. */
  ghost predicate ReportsEach(notes: seq<Notification>, children: seq<TestMethod>, f: Fault)
  {
    && |notes| == 3 * |children|
    && forall i :: 0 <= i < |children| ==>
         && notes[3 * i] == TestStarted(Describe(children[i]))
         && notes[3 * i + 1] == FailureNotice(Describe(children[i]), f)
         && notes[3 * i + 2] == TestFinished(Describe(children[i]))
  }

  /** The loop over the children that fires the three notifications for each. */
  function Report(children: seq<TestMethod>, f: Fault): (notes: seq<Notification>)
    ensures |notes| == 3 * |children|
    decreases |children|
  {
    if |children| == 0 then
      []
    else
      var d := Describe(children[0]);
      [TestStarted(d), FailureNotice(d, f), TestFinished(d)] + Report(children[1..], f)
  }

  /** The report holds one triple per child, in child order, each for the class-level fault. */
  lemma {:induction false} ReportShape(children: seq<TestMethod>, f: Fault)
    ensures ReportsEach(Report(children, f), children, f)
    decreases |children|
  {
    if |children| > 0 {
      var notes := Report(children, f);
      var rest := Report(children[1..], f);
      ReportShape(children[1..], f);
      assert notes == [notes[0], notes[1], notes[2]] + rest;
      forall i | 0 <= i < |children|
        ensures notes[3 * i] == TestStarted(Describe(children[i]))
        ensures notes[3 * i + 1] == FailureNotice(Describe(children[i]), f)
        ensures notes[3 * i + 2] == TestFinished(Describe(children[i]))
      {
        if i > 0 {
          var j := i - 1;
          assert children[i] == children[1..][j];
          assert notes[3 * i] == rest[3 * j];
          assert notes[3 * i + 1] == rest[3 * j + 1];
          assert notes[3 * i + 2] == rest[3 * j + 2];
        }
      }
    }
  }

  /** What escapes the class block, and what the notifier was told. */
  datatype Disposition = Disposition(outcome: Outcome, notes: seq<Notification>)

  /**
    The catch block of the class statement: a fault with filtered children
    is turned into a report for every child and swallowed; a fault with no
    children is rethrown and nothing is reported; a normal completion
    reports nothing.
   */
  function ReportClassFault(inner: Outcome, children: seq<TestMethod>): (d: Disposition)
    ensures d.outcome.Threw? <==> inner.Threw? && |children| == 0
    ensures d.outcome.Threw? ==> d.outcome == inner
    ensures inner.Threw? ==> ReportsEach(d.notes, children, inner.fault)
    ensures inner.Completed? ==> d.notes == []
  {
    match inner
    case Completed => Disposition(Completed, [])
    case Threw(f) =>
      ReportShape(children, f);
      if |children| == 0 then Disposition(inner, []) else Disposition(Completed, Report(children, f))
  }

  /** How many times a notification occurs. */
  function Count(notes: seq<Notification>, n: Notification): nat
  {
    if |notes| == 0 then 0 else (if notes[0] == n then 1 else 0) + Count(notes[1..], n)
  }

  /** A method that is not a child is never mentioned in the report. */
  lemma {:induction false} UnreportedOutsideChildren(children: seq<TestMethod>, f: Fault, m: TestMethod)
    requires m !in children
    ensures Count(Report(children, f), TestStarted(Describe(m))) == 0
    ensures Count(Report(children, f), FailureNotice(Describe(m), f)) == 0
    ensures Count(Report(children, f), TestFinished(Describe(m))) == 0
    decreases |children|
  {
    if |children| > 0 {
      UnreportedOutsideChildren(children[1..], f, m);
      TripleCount(children, f, TestStarted(Describe(m)));
      TripleCount(children, f, FailureNotice(Describe(m), f));
      TripleCount(children, f, TestFinished(Describe(m)));
    }
  }

  /** Unfolds the count over the first triple of the report. */
  lemma {:induction false} TripleCount(children: seq<TestMethod>, f: Fault, n: Notification)
    requires |children| > 0
    ensures
      var d := Describe(children[0]);
      Count(Report(children, f), n) ==
        (if n == TestStarted(d) then 1 else 0)
        + (if n == FailureNotice(d, f) then 1 else 0)
        + (if n == TestFinished(d) then 1 else 0)
        + Count(Report(children[1..], f), n)
  {
    var notes := Report(children, f);
    var rest := Report(children[1..], f);
    assert notes[1..][1..][1..] == rest;
    assert Count(notes, n) == (if notes[0] == n then 1 else 0) + Count(notes[1..], n);
    assert Count(notes[1..], n) == (if notes[1] == n then 1 else 0) + Count(notes[1..][1..], n);
    assert Count(notes[1..][1..], n) == (if notes[2] == n then 1 else 0) + Count(rest, n);
  }

  /**
    With distinct children, every filtered child gets exactly one started,
    one failure (or failed assumption) and one finished notification.
   */
  lemma {:induction false} EachChildReportedOnce(children: seq<TestMethod>, f: Fault, m: TestMethod)
    requires Distinct(children) && m in children
    ensures Count(Report(children, f), TestStarted(Describe(m))) == 1
    ensures Count(Report(children, f), FailureNotice(Describe(m), f)) == 1
    ensures Count(Report(children, f), TestFinished(Describe(m))) == 1
    decreases |children|
  {
    TripleCount(children, f, TestStarted(Describe(m)));
    TripleCount(children, f, FailureNotice(Describe(m), f));
    TripleCount(children, f, TestFinished(Describe(m)));
    if children[0] == m {
      assert forall i :: 0 <= i < |children[1..]| ==> children[1..][i] == children[i + 1];
      UnreportedOutsideChildren(children[1..], f, m);
    } else {
      assert m in children[1..];
      EachChildReportedOnce(children[1..], f, m);
    }
  }
}
