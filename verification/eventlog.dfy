/**
  Reading the event log: the nesting depth of trace sections, the methods
  whose artifacts were saved, and the hooks that were invoked.
 */
module EventLog {
  import opened Model

  /** How an event moves the trace-section nesting depth. */
  function Step(e: Event): int
  {
    match e
    case SectionBegun(_) => 1
    case SectionEnded => -1
    case _ => 0
  }

  /** Sections begun minus sections ended. */
  function Depth(log: seq<Event>): int
  {
    if |log| == 0 then 0 else Step(log[0]) + Depth(log[1..])
  }

  /** Every endSection closes an open section, and every section begun is ended. */
  predicate Balanced(log: seq<Event>)
  {
    && Depth(log) == 0
    && forall k :: 0 <= k <= |log| ==> Depth(log[..k]) >= 0
  }

  /** The log holds no trace event. */
  predicate Untraced(log: seq<Event>)
  {
    forall i :: 0 <= i < |log| ==> Step(log[i]) == 0
  }

  /** The methods handed to ArtifactSaver.onError, in order. */
  function Captures(log: seq<Event>): seq<TestMethod>
  {
    if |log| == 0 then []
    else (if log[0].ArtifactSaved? then [log[0].test] else []) + Captures(log[1..])
  }

  /** The hooks invoked, in order. */
  function Invocations(log: seq<Event>): seq<string>
  {
    if |log| == 0 then []
    else (if log[0].Invoked? then [log[0].hook] else []) + Invocations(log[1..])
  }

  /** One ArtifactSaver.onError event per method, all with the same fault. */
  function CaptureEvents(methods: seq<TestMethod>, f: Fault): (log: seq<Event>)
    ensures |log| == |methods|
    ensures forall i :: 0 <= i < |log| ==> log[i] == ArtifactSaved(methods[i], f)
  {
    if |methods| == 0 then [] else [ArtifactSaved(methods[0], f)] + CaptureEvents(methods[1..], f)
  }

  /** One invocation event per hook, in order. */
  function InvokedEvents(hooks: seq<Hook>): (log: seq<Event>)
    ensures |log| == |hooks|
    ensures forall i :: 0 <= i < |log| ==> log[i] == Invoked(hooks[i].name)
  {
    if |hooks| == 0 then [] else [Invoked(hooks[0].name)] + InvokedEvents(hooks[1..])
  }

  lemma {:induction false} DepthAppend(a: seq<Event>, b: seq<Event>)
    ensures Depth(a + b) == Depth(a) + Depth(b)
  {
    if |a| > 0 {
      assert (a + b)[1..] == a[1..] + b;
      DepthAppend(a[1..], b);
    } else {
      assert a + b == b;
    }
  }

  lemma {:induction false} CapturesAppend(a: seq<Event>, b: seq<Event>)
    ensures Captures(a + b) == Captures(a) + Captures(b)
  {
    if |a| > 0 {
      assert (a + b)[1..] == a[1..] + b;
      CapturesAppend(a[1..], b);
    } else {
      assert a + b == b;
    }
  }

  lemma {:induction false} InvocationsAppend(a: seq<Event>, b: seq<Event>)
    ensures Invocations(a + b) == Invocations(a) + Invocations(b)
  {
    if |a| > 0 {
      assert (a + b)[1..] == a[1..] + b;
      InvocationsAppend(a[1..], b);
    } else {
      assert a + b == b;
    }
  }

  /** A log without trace events has depth zero. */
  lemma {:induction false} UntracedDepth(log: seq<Event>)
    requires Untraced(log)
    ensures Depth(log) == 0
  {
    if |log| > 0 {
      UntracedDepth(log[1..]);
    }
  }

  /** A log without trace events is trivially balanced. */
  lemma {:induction false} UntracedBalanced(log: seq<Event>)
    requires Untraced(log)
    ensures Balanced(log)
  {
    UntracedDepth(log);
    forall k | 0 <= k <= |log|
      ensures Depth(log[..k]) >= 0
    {
      UntracedDepth(log[..k]);
    }
  }

  /** Two balanced logs one after the other form a balanced log. */
  lemma {:induction false} BalancedAppend(a: seq<Event>, b: seq<Event>)
    requires Balanced(a) && Balanced(b)
    ensures Balanced(a + b)
  {
    DepthAppend(a, b);
    forall k | 0 <= k <= |a + b|
      ensures Depth((a + b)[..k]) >= 0
    {
      if k <= |a| {
        assert (a + b)[..k] == a[..k];
      } else {
        assert (a + b)[..k] == a + b[..k - |a|];
        DepthAppend(a, b[..k - |a|]);
      }
    }
  }

  /** Wrapping a balanced log between a begin and an end keeps it balanced. */
  lemma {:induction false} BalancedBracket(name: string, inner: seq<Event>)
    ensures Balanced(inner) ==> Balanced([SectionBegun(name)] + inner + [SectionEnded])
  {
    if Balanced(inner) {
      var log := [SectionBegun(name)] + inner + [SectionEnded];
      DepthAppend([SectionBegun(name)] + inner, [SectionEnded]);
      DepthAppend([SectionBegun(name)], inner);
      forall k | 0 <= k <= |log|
        ensures Depth(log[..k]) >= 0
      {
        if k == 0 {
        } else if k <= |inner| + 1 {
          assert log[..k] == [SectionBegun(name)] + inner[..k - 1];
          DepthAppend([SectionBegun(name)], inner[..k - 1]);
        } else {
          assert log[..k] == log;
        }
      }
    }
  }

  /** Reading the captures back from capture events gives the methods. */
  lemma {:induction false} CapturesOfCaptureEvents(methods: seq<TestMethod>, f: Fault)
    ensures Captures(CaptureEvents(methods, f)) == methods
    ensures Invocations(CaptureEvents(methods, f)) == []
    ensures Untraced(CaptureEvents(methods, f))
  {
    if |methods| > 0 {
      var log := CaptureEvents(methods, f);
      assert log[1..] == CaptureEvents(methods[1..], f);
      CapturesOfCaptureEvents(methods[1..], f);
    }
  }

  /** Reading the invocations back from invocation events gives the hook names. */
  lemma {:induction false} InvocationsOfInvokedEvents(hooks: seq<Hook>)
    ensures Invocations(InvokedEvents(hooks)) == Names(hooks)
    ensures Captures(InvokedEvents(hooks)) == []
    ensures Untraced(InvokedEvents(hooks))
  {
    if |hooks| > 0 {
      var log := InvokedEvents(hooks);
      assert log[1..] == InvokedEvents(hooks[1..]);
      InvocationsOfInvokedEvents(hooks[1..]);
    }
  }
}
