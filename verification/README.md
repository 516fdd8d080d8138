# AppVeyor reporter of Machine.Specifications, modelled in Dafny

Machine.Specifications runs behaviour-driven specifications and tells run
listeners what happens: an assembly starts, a context starts and ends, a
specification starts and ends with a `Result`, or a fatal error occurs. The
AppVeyor reporter is one such listener. It reports each specification to the
AppVeyor build worker's test API with two nine-argument calls, `AddTest` when
it starts and `UpdateTest` when it ends. It writes a progress line for each
assembly, context and specification. It also keeps a "failure occurred" flag
that the host process reads at the end of the run.

The project has five modules:

- `Wrappers` (wrappers.dfy): `Option`, the model of a string or assembly
  reference that may be null.
- `Runner` (runner.dfy): the payload types the reporter reads. These are
  `Status`, `Result`, `ExceptionResult`, `AssemblyInfo`, `ContextInfo` and the
  mutable class `SpecificationInfo`. Every string may be null
  (`NullableString`). `Text` renders null as `""`, as `String.Format` and
  string concatenation do.
- `AppVeyorProtocol` (appveyor_protocol.dfy): the nine-field `TestReport` and
  the status-to-outcome switch. `AddTestReport`, `UpdateTestPassed`,
  `UpdateTestFailed` and `UpdateTestSkipped` give the call each handler makes.
  `Step` is the reporter's reaction to one event, as a pure function.
- `AppVeyorTrace` (appveyor_trace.dfy): `Replay` applies `Step` to a run's
  events, starting from a fresh reporter. The lemmas here hold of every run:
  - the failure flag is set exactly by the failing events;
  - once set, it stays set;
  - there is one `AddTest` per specification start and one `UpdateTest` per
    specification end;
  - every call follows the wire contract;
  - every failed update is followed by its FAILURE line;
  - the context and assembly tracking behave as described below.
- `AppVeyor` (appveyor_reporter.dfy): the class `AppVeyorReporter`. It has the
  source's three fields, `currentAssembly`, `currentContext` and
  `failureOccurred`, and one method per overridden listener event. The API
  client and the writer are replaced by `output`, one ordered log of
  `AddTest`, `UpdateTest` and `WriteLine` effects. A single log keeps the order
  between a failing `UpdateTest` and its FAILURE line. The ghost `History`
  records the events handled so far. `Valid()` states that the fields and the
  log equal `Replay(History)`, so every trace lemma applies to a live reporter.

Three details of the source shape the model:

- The API's `fileName` is the name of the current assembly, `_currentAssembly.Name`
  (AppVeyorReporter.cs:52, :89). It is not the `AssemblyName` property of the
  specification.
- The `UpdateTest` of a failed specification carries the captured output as its
  standard output (AppVeyorReporter.cs:117), just as a passing one does.
- `_currentContext` starts null (AppVeyorReporter.cs:15). Before any context
  event, `GetSpecificationName` therefore renders that part as empty
  (AppVeyorReporter.cs:141).

## Model

| member | source | states |
|---|---|---|
| `Runner.SpecificationInfo.constructor` | Source/Machine.Specifications/Runner/SpecificationInfo.cs:8-15 | Leader, Name, ContainingType, FieldName and AssemblyName are the five arguments in order, stored unchecked (null and empty included); CapturedOutput starts null |
| `Runner.SpecificationInfo.SetLeader` | Source/Machine.Specifications/Runner/SpecificationInfo.cs:17 | Leader becomes the value; the other five properties keep theirs |
| `Runner.SpecificationInfo.SetName` | Source/Machine.Specifications/Runner/SpecificationInfo.cs:18 | Name becomes the value; the other five properties keep theirs |
| `Runner.SpecificationInfo.SetContainingType` | Source/Machine.Specifications/Runner/SpecificationInfo.cs:19 | ContainingType becomes the value; the other five properties keep theirs |
| `Runner.SpecificationInfo.SetFieldName` | Source/Machine.Specifications/Runner/SpecificationInfo.cs:20 | FieldName becomes the value; the other five properties keep theirs |
| `Runner.SpecificationInfo.SetAssemblyName` | Source/Machine.Specifications/Runner/SpecificationInfo.cs:21 | AssemblyName becomes the value; the other five properties keep theirs |
| `Runner.SpecificationInfo.SetCapturedOutput` | Source/Machine.Specifications/Runner/SpecificationInfo.cs:22 | CapturedOutput becomes the value; the other five properties keep theirs |
| `AppVeyorProtocol.OutcomeOf` | Source/Reporting/Machine.Specifications.Reporting/Integration/AppVeyor/AppVeyorReporter.cs:66-82 | "Passed" exactly for Passing, "Skipped" exactly for NotImplemented and Ignored, "Failed" exactly for the other statuses |
| `AppVeyorProtocol.UpdateTestReport` | Source/Reporting/Machine.Specifications.Reporting/Integration/AppVeyor/AppVeyorReporter.cs:62-132 | the end-of-specification call names the same test, framework and file as the start call; its outcome is OutcomeOf(status); its duration is the timing listener's and its standard error is null; for Passing, error and trace are null and stdout is the captured output; for a skip, error, trace and stdout are all null; for a failure, error and trace are the exception's message and rendering when there is an exception (both null otherwise), and stdout is the captured output |
| `AppVeyorProtocol.Step` | Source/Reporting/Machine.Specifications.Reporting/Integration/AppVeyor/AppVeyorReporter.cs:31-137 | handling one event appends that event's emitted calls and lines to the output; only OnAssemblyStart changes the assembly; OnContextStart sets the context to FullName and OnContextEnd resets it to ""; the failure flag becomes old flag OR "the event fails the run" |
| `AppVeyorTrace.Replay` | Source/Reporting/Machine.Specifications.Reporting/Integration/AppVeyor/AppVeyorReporter.cs:14-35 | after a run, the current assembly is non-null exactly when some OnAssemblyStart has occurred |
| `AppVeyorTrace.FailureIffFailingEvent` | Source/Reporting/Machine.Specifications.Reporting/Integration/AppVeyor/AppVeyorReporter.cs:16-24 | the flag is true after a run iff some event was a fatal error or a specification ending neither passing nor skipped; a fresh reporter has it false |
| `AppVeyorTrace.FailureIsPermanent` | Source/Reporting/Machine.Specifications.Reporting/Integration/AppVeyor/AppVeyorReporter.cs:80 | once the flag is true, no later events make it false |
| `AppVeyorTrace.OutputIsAppendOnly` | Source/Reporting/Machine.Specifications.Reporting/Integration/AppVeyor/AppVeyorReporter.cs:31-137 | the output after any prefix of a run is a prefix of the output after the whole run |
| `AppVeyorTrace.ReportsMatchSpecificationEvents` | Source/Reporting/Machine.Specifications.Reporting/Integration/AppVeyor/AppVeyorReporter.cs:48-83 | over a whole run, the number of AddTest calls equals the number of specification starts, and the number of UpdateTest calls equals the number of specification ends |
| `AppVeyorTrace.OutputIsConformant` | Source/Reporting/Machine.Specifications.Reporting/Integration/AppVeyor/AppVeyorReporter.cs:50-131 | every AddTest has framework "Machine.Specifications", outcome "Running" and its other five fields null; every UpdateTest has that framework, an outcome among "Passed", "Skipped" and "Failed", a duration and a null standard error |
| `AppVeyorTrace.FailedUpdateIsFollowedByFailureLine` | Source/Reporting/Machine.Specifications.Reporting/Integration/AppVeyor/AppVeyorReporter.cs:77-80 | every UpdateTest with outcome "Failed" is immediately followed by the line "         ^^^^ FAILURE " plus that test's name |
| `AppVeyorTrace.ContextIsSetByLastContextEvent` | Source/Reporting/Machine.Specifications.Reporting/Integration/AppVeyor/AppVeyorReporter.cs:37-46 | the current context is set by the last context event: that context's FullName if it was a start, "" if it was an end |
| `AppVeyorTrace.CurrentContextFromHistory` | Source/Reporting/Machine.Specifications.Reporting/Integration/AppVeyor/AppVeyorReporter.cs:37-46 | over any run, the current context is null when no context event occurred, and otherwise is set by the last context event (FullName for a start, "" for an end) |
| `AppVeyorTrace.ContextIsNullBeforeAnyContextEvent` | Source/Reporting/Machine.Specifications.Reporting/Integration/AppVeyor/AppVeyorReporter.cs:15 | before any context event, the current context is still null |
| `AppVeyorTrace.AssemblyIsLastStarted` | Source/Reporting/Machine.Specifications.Reporting/Integration/AppVeyor/AppVeyorReporter.cs:31-35 | the current assembly is the one given by the last OnAssemblyStart |
| `AppVeyor.AppVeyorReporter.constructor` | Source/Reporting/Machine.Specifications.Reporting/Integration/AppVeyor/AppVeyorReporter.cs:18-24 | a new reporter has not failed, has a null assembly and context, and has emitted nothing; it keeps the given timing listener |
| `AppVeyor.AppVeyorReporter.FailureOccurred` | Source/Reporting/Machine.Specifications.Reporting/Integration/AppVeyor/AppVeyorReporter.cs:26-29 | true exactly when some event handled so far was a fatal error or a failing specification end |
| `AppVeyor.AppVeyorReporter.OnAssemblyStart` | Source/Reporting/Machine.Specifications.Reporting/Integration/AppVeyor/AppVeyorReporter.cs:31-35 | writes "Test Assembly: " plus the name and makes that assembly current; the context and the flag are unchanged |
| `AppVeyor.AppVeyorReporter.OnContextStart` | Source/Reporting/Machine.Specifications.Reporting/Integration/AppVeyor/AppVeyorReporter.cs:37-41 | writes "  * " plus Name and sets the current context to FullName; the assembly and the flag are unchanged |
| `AppVeyor.AppVeyorReporter.OnContextEnd` | Source/Reporting/Machine.Specifications.Reporting/Integration/AppVeyor/AppVeyorReporter.cs:43-46 | resets the current context to ""; emits nothing and changes nothing else |
| `AppVeyor.AppVeyorReporter.OnSpecificationStart` | Source/Reporting/Machine.Specifications.Reporting/Integration/AppVeyor/AppVeyorReporter.cs:48-60 | appends exactly one AddTest (name, "Machine.Specifications", the current assembly's name, "Running", the other five null) and then the line "     - It " plus the name; the fields are unchanged |
| `AppVeyor.AppVeyorReporter.OnSpecificationEnd` | Source/Reporting/Machine.Specifications.Reporting/Integration/AppVeyor/AppVeyorReporter.cs:62-83 | appends exactly one UpdateTest (see UpdateTestReport), with the timing listener's duration for that specification; a failing status then writes the FAILURE line and sets the flag; a passing or skipped status leaves the flag unchanged; the assembly and the context are unchanged |
| `AppVeyor.AppVeyorReporter.OnFatalError` | Source/Reporting/Machine.Specifications.Reporting/Integration/AppVeyor/AppVeyorReporter.cs:134-137 | sets the flag and emits nothing; the assembly and the context are unchanged |
| `AppVeyor.AppVeyorReporter.GetSpecificationName` | Source/Reporting/Machine.Specifications.Reporting/Integration/AppVeyor/AppVeyorReporter.cs:139-142 | for the events handled so far: before any context event the result is " > " and the specification's name; otherwise the FullName of the last context started (or "" if that context has ended), then " > ", then the name; null parts read as "" |

## Left out

- The build-worker API client and the writer are network and console I/O. They
  are modelled only as the ordered log `output` of the calls and lines they
  receive.
- The duration is not computed here. The timing listener is modelled as a
  function from a specification to whole milliseconds, fixed at construction.
  `TimeSpan.FromMilliseconds` and the `Convert.ToInt64` rounding of a double
  are floating point and are not modelled. `TimingRunListener` is not part of
  this model.
- `ExceptionResult.ToString()` is modelled as the field `Rendering`. How that
  string is built is not part of this model.
- Events before `OnAssemblyStart` are excluded by a precondition. In the source,
  `OnSpecificationStart` and `OnSpecificationEnd` would dereference a null
  current assembly there. On traces, `Admissible` states the same condition.
- `OnAssemblyEnd`, `OnRunStart` and `OnRunEnd` are not overridden by the
  reporter. They are no-ops inherited from the base listener, so they are not
  events of this model.
- `Status` has only the four values the switch distinguishes. The switch's
  `default` branch is therefore modelled by the Failing case.
- Null listener payloads are excluded by the types. `AssemblyInfo`, `ContextInfo`,
  `Result` and `ExceptionResult` are datatypes and `SpecificationInfo` a non-null
  reference. So the model has no NullReferenceException from a null argument to
  `OnAssemblyStart` (AppVeyorReporter.cs:33), `OnContextStart` (:39),
  `OnSpecificationStart` (:50) or `OnSpecificationEnd` (a null result at :66).
  It also cannot show that `OnContextEnd` and `OnFatalError` accept a null argument.
- `[Serializable]` on `SpecificationInfo` is a framework concern.
- `Source/Specifications/Machine.Specifications.Tests/ExampleSpecifications.cs`
  holds user-written fixtures. Their meaning depends on the runner and
  discovery engine, which are not part of this model.
- `Source/Specifications/Machine.Specifications.ReSharperRunner.4.1/Explorers/ElementHandlers/ContextElementHandler.cs`
  is an IDE adapter over an API that is not part of this model.
