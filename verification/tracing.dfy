/**
  The trace decorator (Functional.withTrace): a section named
  "Functional#<name>" is begun before the wrapped statement runs and ended
  in a finally block, whatever the statement does.
 */
module Tracing {
  import opened Model
  import opened EventLog

  /** Every section the runner opens carries this prefix. */
  const SectionPrefix: string := "Functional#"

  /**
    The decorator applied to the run of the wrapped statement: the outcome
    and the saved set pass through untouched, the run's events are
    bracketed by one begin and one end, and a balanced log stays balanced.
   */
  function TraceSection(name: string, inner: Run): (r: Run)
    ensures r.outcome == inner.outcome && r.saved == inner.saved
    ensures |r.log| == |inner.log| + 2
    ensures r.log[0] == SectionBegun(SectionPrefix + name) && r.log[|r.log| - 1] == SectionEnded
    ensures r.log[1..|r.log| - 1] == inner.log
    ensures Captures(r.log) == Captures(inner.log)
    ensures Invocations(r.log) == Invocations(inner.log)
    ensures Balanced(inner.log) ==> Balanced(r.log)
  {
    var log := [SectionBegun(SectionPrefix + name)] + inner.log + [SectionEnded];
    CapturesAppend([SectionBegun(SectionPrefix + name)] + inner.log, [SectionEnded]);
    CapturesAppend([SectionBegun(SectionPrefix + name)], inner.log);
    InvocationsAppend([SectionBegun(SectionPrefix + name)] + inner.log, [SectionEnded]);
    InvocationsAppend([SectionBegun(SectionPrefix + name)], inner.log);
    BalancedBracket(SectionPrefix + name, inner.log);
    Run(inner.outcome, inner.saved, log)
  }
}
