# Functional runner: failure interception and reporting

This project models the core of the `Functional` JUnit 4 runner of the
platform microbenchmark library. The runner extends JUnit's block runner
with four things:

- **Artifact saver.** When a statement throws, the runner asks an external
  backend to save error artifacts. It does this at most once per test
  method in a class run, and the first layer that sees the fault does it.
- **Trace sections.** Named sections, prefixed `Functional#`, open around
  the befores, the afters, the class befores, the class afters and the
  whole class block. Each one is closed whatever happens inside.
- **Filtered children.** The runner keeps its own copy of the test methods
  a filter selects.
- **Class-level failure report.** A fault that escapes the class block is
  reported to the notifier for every selected method: started, failed (or
  assumption failed), finished. When no method is selected, the fault is
  rethrown instead.

JUnit statements are data (`Statements.Statement`) evaluated by a pure
interpreter (`Statements.Eval`). The interpreter returns:

- the outcome: completed, or threw a fault;
- the set of methods whose artifacts have been saved in this class run;
- the log of events the external backends observe: section begun, section
  ended, artifact saved, hook invoked.

The runner's overrides are functions in module `Functional` that build
statements. The properties are contracts and lemmas about evaluating what
they build.

Modules:

- `Model`: the data.
- `Seqs`: generic sequence facts.
- `EventLog`: reading a log back, including section depth, captures and
  invocations.
- `Artifacts`: `artifactSaver`.
- `Tracing`: `withTrace`.
- `Statements`: the statements and `Eval`.
- `StatementFacts`: properties of every statement.
- `Filtering`: `filter` and the filtered list.
- `Reporting`: the class-level report.
- `Functional`: the overrides.
- `ClassLevel`: `classBlock`.
- `Scenarios`: small concrete runs.

Two points where a reader of the source may expect something else:

- **Order of the after hooks.** The class documentation (line 45) says the
  standard @Before and @After methods are nested inside the no-metric ones.
  The befores code follows that: it wraps JUnit's befores statement in the
  no-metric `RunBefores` (lines 122-127), so the no-metric befores run
  first (`Functional.WithBeforesOrder`). The afters code does not: it wraps
  the no-metric `RunAfters` inside JUnit's afters (lines 138-140), so the
  no-metric afters run first too, and the standard afters last
  (`Functional.WithAftersOrder`). This model follows the code; the
  disagreement is listed under "Findings".
- **Saved set after a class-setup failure.** The set is cleared only when
  the class block starts (line 188). After a class-setup failure it
  therefore holds every selected method; see `Scenarios.ClassSetupFailure`.

## Model

Every source cell is in `libraries/health/runners/microbenchmark/src/android/platform/test/microbenchmark/Functional.java`.

| member | source | states |
|---|---|---|
| Artifacts.SaveEach | libraries/health/runners/microbenchmark/src/android/platform/test/microbenchmark/Functional.java:79-84 | One pass over the method stream leaves the saved set equal to the old set plus every streamed method. It captures exactly the streamed methods that were not saved before, each once, ordered by their first occurrence in the stream, even when the stream repeats a method. |
| Artifacts.SaverContract | libraries/health/runners/microbenchmark/src/android/platform/test/microbenchmark/Functional.java:72-89 | When the inner statement completes, nothing is saved or captured. On a fault, every streamed method ends up saved and only methods not saved before are captured, at most once each and in order of first occurrence in the stream. Each capture event carries the inner fault, and no section or hook event is added. If every streamed method is already saved, the saver adds nothing. |
| Artifacts.SaveOne | libraries/health/runners/microbenchmark/src/android/platform/test/microbenchmark/Functional.java:79-85 | A saver over a single method captures that method exactly when the statement threw and the method was not yet saved. Otherwise it leaves saved set and log as they were. |
| Tracing.TraceSection | libraries/health/runners/microbenchmark/src/android/platform/test/microbenchmark/Functional.java:91-103 | The wrapped statement's outcome, fault included, and its saved set pass through. Its events are enclosed by exactly one begin of `Functional#`+name and one end. Captures and invocations are unchanged, and a balanced log stays balanced. |
| StatementFacts.EvalBalanced | libraries/health/runners/microbenchmark/src/android/platform/test/microbenchmark/Functional.java:95-100 | For every statement, whether it completes or throws, each section begun is ended and no end precedes its begin. |
| StatementFacts.EvalCapturesOnce | libraries/health/runners/microbenchmark/src/android/platform/test/microbenchmark/Functional.java:79-84 | However savers are nested, one evaluation captures each method at most once, never captures a method saved earlier in the class run, and grows the saved set by exactly the methods it captured. |
| StatementFacts.CapturesWithinSavers | libraries/health/runners/microbenchmark/src/android/platform/test/microbenchmark/Functional.java:72-89 | Only methods handed to some artifact saver inside the statement are ever captured. |
| StatementFacts.CapturesOnlyOnFault | libraries/health/runners/microbenchmark/src/android/platform/test/microbenchmark/Functional.java:76-77 | A statement that swallows no fault and completes normally has captured nothing and left the saved set as it found it. |
| StatementFacts.SavedSectionRun | libraries/health/runners/microbenchmark/src/android/platform/test/microbenchmark/Functional.java:130 | A trace section around an artifact saver rethrows the wrapped fault. It emits its capture events inside the section, after the wrapped statement's events, and invokes no hook of its own. |
| StatementFacts.SaverRun | libraries/health/runners/microbenchmark/src/android/platform/test/microbenchmark/Functional.java:76-85 | An artifact saver's run is the wrapped run with its capture events appended and its outcome rethrown. Invocations are unchanged, and captures grow by exactly the saver's captures. |
| StatementFacts.RunBeforesFuse | libraries/health/runners/microbenchmark/src/android/platform/test/microbenchmark/Functional.java:122-127 | The no-metric RunBefores around JUnit's RunBefores evaluates exactly as one RunBefores over the no-metric befores followed by the standard befores. |
| StatementFacts.RunAftersRun | libraries/health/runners/microbenchmark/src/android/platform/test/microbenchmark/Functional.java:138 | RunAfters invokes every after hook, whether or not the wrapped statement threw. It keeps the saved set and captures nothing. It completes exactly when the statement and every hook complete. |
| Statements.InvokeUntilFault | libraries/health/runners/microbenchmark/src/android/platform/test/microbenchmark/Functional.java:127 | The before hooks are invoked in order up to and including the first that throws. The run completes exactly when every hook completes. A thrown fault is the fault of the last hook invoked, and every earlier hook completed. |
| Functional.WithBeforesOrder | libraries/health/runners/microbenchmark/src/android/platform/test/microbenchmark/Functional.java:120-131 | The befores section of a test evaluates as one RunBefores over the no-metric befores, then the standard befores, under a saver for the test and a `Befores` section. When they all complete, their invocations come in that order, before the wrapped statement's. |
| Functional.BeforesOutcome | libraries/health/runners/microbenchmark/src/android/platform/test/microbenchmark/Functional.java:120-131 | The befores section throws the first fault among the no-metric befores, the befores and the test body, in that order, and completes when none throws. |
| Functional.WithAftersOrder | libraries/health/runners/microbenchmark/src/android/platform/test/microbenchmark/Functional.java:133-144 | The afters section invokes every no-metric after and then every after, following the wrapped statement. It completes exactly when the wrapped statement and every after hook complete. |
| Functional.NestedAftersOrder | libraries/health/runners/microbenchmark/src/android/platform/test/microbenchmark/Functional.java:44-45 | With the afters nested as the class documentation describes, the standard afters run before the no-metric afters, mirroring the befores. Every after hook runs, and the section completes exactly when the statement and every hook complete. |
| Functional.AftersNotNested | libraries/health/runners/microbenchmark/src/android/platform/test/microbenchmark/Functional.java:133-144 | With one after and one no-metric after, the code as written invokes the no-metric after first, while the documented nesting invokes the after first. |
| Functional.AfterHooksRun | libraries/health/runners/microbenchmark/src/android/platform/test/microbenchmark/Functional.java:136-140 | The two after layers append the no-metric afters' and then the afters' invocations, capture nothing and keep the saved set. The fault that escapes collects the wrapped fault with the hooks' faults, no-metric layer first. |
| Functional.AftersSectionAfterSave | libraries/health/runners/microbenchmark/src/android/platform/test/microbenchmark/Functional.java:141-143 | When the test was already saved by the befores section, the afters section still runs every after hook, captures nothing more, and lets a fault escape. |
| Functional.MethodBlockRethrows | libraries/health/runners/microbenchmark/src/android/platform/test/microbenchmark/Functional.java:146-150 | The saver around JUnit's method block rethrows the fault unchanged. On a fault it adds the test to the saved set, capturing it only if no inner saver already has. On completion it changes nothing. |
| Functional.MethodCapturedOnce | libraries/health/runners/microbenchmark/src/android/platform/test/microbenchmark/Functional.java:120-150 | Across the three nested savers of one test, the test's artifact is captured exactly once if the test throws and was not saved before, and never otherwise. |
| Functional.EarlyCaptureOnBodyFault | libraries/health/runners/microbenchmark/src/android/platform/test/microbenchmark/Functional.java:128-130 | When the befores complete and the body throws, the capture happens inside the `Befores` section, right after the body and before any after hook runs. The complete event log is given. |
| Functional.MethodOutcome | libraries/health/runners/microbenchmark/src/android/platform/test/microbenchmark/Functional.java:120-150 | What escapes a test is the first fault among befores and body, collected with the no-metric afters' faults and then with the afters' faults. |
| Functional.SectionFirstSave | libraries/health/runners/microbenchmark/src/android/platform/test/microbenchmark/Functional.java:130 | A section whose saver is for an unsaved method, around a statement that throws, saves and captures that method just before the section ends. |
| Functional.SectionAfterSave | libraries/health/runners/microbenchmark/src/android/platform/test/microbenchmark/Functional.java:143 | A section whose saver is for a method already saved adds only its begin and end events. |
| ClassLevel.ClassBlock | libraries/health/runners/microbenchmark/src/android/platform/test/microbenchmark/Functional.java:170-217 | Starting from an empty saved set, the class block leaves a balanced log. Its captures are duplicate-free and exactly the saved set, and every capture is a selected method or a method some inner saver names. A fault escapes exactly when JUnit's class statement threw and no method is selected, and then it is that fault and nothing is notified. When the class statement threw, every selected method is saved and reported once, in order, with that fault. When it completed, nothing is notified. |
| ClassLevel.ClassStatementRun | libraries/health/runners/microbenchmark/src/android/platform/test/microbenchmark/Functional.java:181-184 | The `classBlock` section and saver pass JUnit's class statement outcome through. On a fault they have saved every selected method, and they add the selected methods to the savers. |
| ClassLevel.SectionAllSaved | libraries/health/runners/microbenchmark/src/android/platform/test/microbenchmark/Functional.java:162-168 | A section and saver whose methods were all saved inside them only bracket the log. |
| ClassLevel.ParentAfterSetupFault | libraries/health/runners/microbenchmark/src/android/platform/test/microbenchmark/Functional.java:153-168 | When a class before throws and the class afters complete, the class statement rethrows that fault after running every class after. Every selected method is captured in the `BeforeClass` section and nowhere else. |
| ClassLevel.ClassSetupFaultReportsAll | libraries/health/runners/microbenchmark/src/android/platform/test/microbenchmark/Functional.java:153-213 | A class-setup failure with selected methods is swallowed, and every selected method is reported with the setup fault. Each is captured once in the `BeforeClass` section. The invocations are the class befores up to the fault, then every class after. |
| Reporting.Report | libraries/health/runners/microbenchmark/src/android/platform/test/microbenchmark/Functional.java:204-213 | The report for N methods has 3·N notifications. |
| Reporting.ReportShape | libraries/health/runners/microbenchmark/src/android/platform/test/microbenchmark/Functional.java:204-213 | The report is, for each method in selection order, started, then failed (assumption failed for an assumption violation), then finished, all with the class-level fault. |
| Reporting.ReportClassFault | libraries/health/runners/microbenchmark/src/android/platform/test/microbenchmark/Functional.java:190-214 | A fault with selected methods is swallowed and reported for each of them. A fault with none is rethrown unchanged and nothing is notified. A normal completion notifies nothing. |
| Reporting.EachChildReportedOnce | libraries/health/runners/microbenchmark/src/android/platform/test/microbenchmark/Functional.java:204-213 | With distinct selected methods, each gets exactly one started, one failure and one finished notification. |
| Reporting.UnreportedOutsideChildren | libraries/health/runners/microbenchmark/src/android/platform/test/microbenchmark/Functional.java:198-213 | A method that is not selected is never mentioned in the report. |
| Filtering.NewTracker | libraries/health/runners/microbenchmark/src/android/platform/test/microbenchmark/Functional.java:66-70 | Before any filter, the runner's filtered list and JUnit's are both all the children. |
| Filtering.KeepMatching | libraries/health/runners/microbenchmark/src/android/platform/test/microbenchmark/Functional.java:110-113 | The kept methods are exactly those the filter accepts, in their original order (a subsequence), and stay duplicate-free. |
| Filtering.Filter | libraries/health/runners/microbenchmark/src/android/platform/test/microbenchmark/Functional.java:105-114 | As written. When JUnit's filter throws, the runner's list is unchanged. Otherwise the runner's list is exactly the accepted children of the whole class, in order, whatever earlier filters removed. |
| Filtering.SecondFilterDiverges | libraries/health/runners/microbenchmark/src/android/platform/test/microbenchmark/Functional.java:105-114 | A filter selecting `a` followed by one accepting everything leaves JUnit running `[a]` while the runner's list is `[a, b]`. |
| Filtering.SecondFilterAgrees | libraries/health/runners/microbenchmark/src/android/platform/test/microbenchmark/Functional.java:105-114 | The same two filters through the corrected filter leave both JUnit's list and the runner's list as `[a]`. |
| Filtering.FilterAgreeing | libraries/health/runners/microbenchmark/src/android/platform/test/microbenchmark/Functional.java:105-114 | Corrected filter. A throwing base filter leaves the runner's list unchanged. Otherwise the runner narrows its own list: it keeps, in order, exactly the methods of that list the filter accepts. When the runner's list and JUnit's agree before the call, they agree after it and are not empty. |
| Filtering.ApplyFilters | libraries/health/runners/microbenchmark/src/android/platform/test/microbenchmark/Functional.java:105-114 | After any number of corrected filter calls, none of which throws, the runner's list equals JUnit's. It is a subsequence of the starting list, holds exactly the methods every filter accepts, and is not empty once at least one filter was applied. |
| ClassLevel.ReportFollowsFilters | libraries/health/runners/microbenchmark/src/android/platform/test/microbenchmark/Functional.java:198-213 | With the corrected filter, a class-level fault after one or more filter calls is swallowed. It is reported for exactly the methods JUnit still runs, in JUnit's order. |
| Scenarios.ClassSetupFailure | libraries/health/runners/microbenchmark/src/android/platform/test/microbenchmark/Functional.java:188-213 | Two methods `a`, `b` and a class setup that throws a plain fault give six notifications: started, failure, finished for `a`, then the same for `b`. Nothing escapes, both are saved, and only the setup is invoked. |
| Scenarios.BodyFailure | libraries/health/runners/microbenchmark/src/android/platform/test/microbenchmark/Functional.java:120-150 | A test without hooks whose body throws is captured once, and the body's fault escapes. |
| Scenarios.BodyAndAfterFailure | libraries/health/runners/microbenchmark/src/android/platform/test/microbenchmark/Functional.java:120-150 | Suppose a body throws g and the one after hook throws h. The test is captured once, inside the `Befores` section, the exact seven-event log is given, and both faults escape together in one bundle, where an assumption violation is wrapped so that it no longer reads as a skip. |
| Scenarios.FilterExcludesAll | libraries/health/runners/microbenchmark/src/android/platform/test/microbenchmark/Functional.java:105-108 | A filter accepting nothing throws. JUnit's list becomes empty, and the runner's list keeps both methods. |

## Left out

- JUnit's own code is not part of this model. `RunBefores`, `RunAfters`, `MultipleFailureException.assertEmpty`, `ParentRunner.filter`, `childrenInvoker` and `runLeaf` are modelled after JUnit 4.13's behaviour. `RunBefores` stops at the first fault. `RunAfters` runs every hook and bundles several faults without flattening them. When it bundles them, an assumption violation among them is wrapped in a `TestCouldNotBeSkippedException` (`Statements.AssertEmpty`); a single fault is rethrown as it is. The base filter works on its own filtered list and throws after emptying it.
- Method and class rules, `@Test(expected)`, timeouts and `@Ignore` are left out. `Functional.MethodStatement` and `Functional.ParentClassBlock` build the method and class statements without them.
- The children of a class are any statement. `Then` runs them one after another and `Isolated` swallows a child's fault. The per-test notifications JUnit fires from `runLeaf` are not modelled.
- The sampler toggle around `super.classBlock` (lines 175-180) is left out. It has no effect on the statements or the saved set.
- Java's `Stream` single-use semantics, `HashSet` hashing and `RunNotifier` listener delivery are left out. The saved set is a mathematical set and notifications are an ordered list.
- `Trace` and `ArtifactSaver.onError` are external backends. They are modelled as events in the log. Faults raised by the backends themselves are not modelled.
- `ClassLevel.ClassBlock` reads one filtered list for the saver (line 184) and for the report (line 198). The two reads agree unless `filter` runs while the class block is being evaluated, which is not modelled.
- `describeChild` is modelled as `Model.Describe`, a pure function of class and method name.
- `Functional.MethodStatement` builds the afters in the order the code uses, not the documented nesting (`Functional.WithAftersNested`). Which of the two is stale is not settled by the source, so the method-level properties describe what the code does.
- `Filtering.ApplyFilters` requires the runner's list and JUnit's to agree at the start. That is what the constructor establishes (`Filtering.NewTracker`) and what `Filtering.FilterAgreeing` keeps.

## Findings

| source | as written | input that shows it | evidently intended | confidence | as-written member | corrected member |
|---|---|---|---|---|---|---|
| libraries/health/runners/microbenchmark/src/android/platform/test/microbenchmark/Functional.java:105-114 | The runner's list is recomputed from all of the class's children on every call, while JUnit's own filter narrows its already filtered list. | A class with methods `a` and `b`, a filter accepting only `a`, then a filter accepting everything. JUnit runs `[a]`; the runner's list is `[a, b]`, so a class-level fault would report `b`, which never ran. | Recompute the runner's list from the list that is already filtered, so that it always equals JUnit's. | medium; not executed | Filtering.Filter, Filtering.SecondFilterDiverges, Filtering.FirstFilterAgrees | Filtering.FilterAgreeing, Filtering.SecondFilterAgrees, Filtering.ApplyFilters, ClassLevel.ReportFollowsFilters |
| libraries/health/runners/microbenchmark/src/android/platform/test/microbenchmark/Functional.java:133-144 | `withAfters` wraps the no-metric afters inside JUnit's afters, so the no-metric afters run before the standard afters. The class documentation (line 45) says the standard afters are nested inside the no-metric ones, which is what `withBefores` does for the befores. | A test class with one @After method and one @NoMetricAfter method: the no-metric after is invoked first. | Wrap the standard afters first and the no-metric afters around them, so the no-metric afters run last. | low; not executed | Functional.WithAfters, Functional.WithAftersOrder, Functional.AftersNotNested | Functional.WithAftersNested, Functional.NestedAftersOrder |
