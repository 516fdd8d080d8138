/**
  What the AppVeyor reporter sends for each listener event: the nine-field
  AddTest/UpdateTest calls on the build-worker API client and the lines it
  hands to its writer, and the reporter's state change, as pure functions.
*/
module AppVeyorProtocol {
  import opened Wrappers
  import opened Runner

  const FrameworkName: string := "Machine.Specifications"

  /** The nine positional arguments of AddTest and UpdateTest on the build-worker API client. */
  datatype TestReport = TestReport(
    testName: NullableString,
    testFramework: NullableString,
    fileName: NullableString,
    outcome: NullableString,
    durationMillis: Option<int>,
    errorMessage: NullableString,
    errorStackTrace: NullableString,
    standardOutput: NullableString,
    standardError: NullableString)

  /** One observable action of the reporter: an API call, or a line given to the writer. */
  datatype Effect =
    | AddTest(report: TestReport)
    | UpdateTest(report: TestReport)
    | WriteLine(line: string)

  predicate IsAddTest(e: Effect) { e.AddTest? }

  predicate IsUpdateTest(e: Effect) { e.UpdateTest? }

  /** The listener events the reporter overrides; the others are no-ops in the base listener. */
  datatype Event =
    | AssemblyStart(assembly: AssemblyInfo)
    | ContextStart(context: ContextInfo)
    | ContextEnd(context: ContextInfo)
    | SpecificationStart(specification: SpecificationSnapshot)
    | SpecificationEnd(specification: SpecificationSnapshot, result: Result, durationMillis: int)
    | FatalError(exception: ExceptionResult)
  {
    /** The events whose handler reads the current assembly. */
    predicate IsSpecificationEvent() { SpecificationStart? || SpecificationEnd? }

    predicate IsContextEvent() { ContextStart? || ContextEnd? }
  }

  predicate IsSpecificationStart(e: Event) { e.SpecificationStart? }

  predicate IsSpecificationEnd(e: Event) { e.SpecificationEnd? }

  /** The reporter's three fields together with everything it has emitted so far, in order. */
  datatype ReporterState = ReporterState(
    currentAssembly: Option<AssemblyInfo>,
    currentContext: NullableString,
    failureOccurred: bool,
    output: seq<Effect>)

  /** A freshly constructed reporter: null assembly and context, no failure, nothing emitted. */
  const Fresh: ReporterState := ReporterState(None, None, false, [])

  /** The statuses reported to the API as skipped. */
  predicate IsSkip(status: Status)
  {
    status == NotImplemented || status == Ignored
  }

  /** The statuses that mark the run as failed: neither passing nor skippable. */
  predicate IsFailure(status: Status)
  {
    status != Passing && !IsSkip(status)
  }

  /** The events that make the run fail: a fatal error, or a specification ending in failure. */
  predicate FailsRun(e: Event)
  {
    e.FatalError? || (e.SpecificationEnd? && IsFailure(e.result.Status))
  }

  /** The outcome string the API receives when a specification ends. */
  function OutcomeOf(status: Status): (r: string)
    ensures r == "Passed" <==> status == Passing
    ensures r == "Skipped" <==> IsSkip(status)
    ensures r == "Failed" <==> IsFailure(status)
  {
    match status
    case Passing => "Passed"
    case NotImplemented => "Skipped"
    case Ignored => "Skipped"
    case _ => "Failed"
  }

  /** The call OnSpecificationStart makes. */
  function AddTestReport(assembly: AssemblyInfo, spec: SpecificationSnapshot): TestReport
  {
    TestReport(spec.Name, Some(FrameworkName), assembly.Name, Some("Running"), None, None, None, None, None)
  }

  function UpdateTestPassed(assembly: AssemblyInfo, spec: SpecificationSnapshot, millis: int): TestReport
  {
    TestReport(spec.Name, Some(FrameworkName), assembly.Name, Some("Passed"), Some(millis),
               None, None, spec.CapturedOutput, None)
  }

  function UpdateTestFailed(assembly: AssemblyInfo, spec: SpecificationSnapshot, millis: int,
                            exception: Option<ExceptionResult>): TestReport
  {
    var errorMessage := if exception.Some? then exception.value.Message else None;
    var errorStackTrace := if exception.Some? then Some(exception.value.Rendering) else None;
    TestReport(spec.Name, Some(FrameworkName), assembly.Name, Some("Failed"), Some(millis),
               errorMessage, errorStackTrace, spec.CapturedOutput, None)
  }

  function UpdateTestSkipped(assembly: AssemblyInfo, spec: SpecificationSnapshot, millis: int): TestReport
  {
    TestReport(spec.Name, Some(FrameworkName), assembly.Name, Some("Skipped"), Some(millis),
               None, None, None, None)
  }

  /** The API's identification of a test: name, framework and file. */
  predicate SameTest(a: TestReport, b: TestReport)
  {
    a.testName == b.testName && a.testFramework == b.testFramework && a.fileName == b.fileName
  }

  /**
    The UpdateTest call OnSpecificationEnd makes, chosen by the status switch.
    It updates the very test OnSpecificationStart added, with the outcome of
    OutcomeOf, and carries error details and output only where the status calls for them.
  */
  function UpdateTestReport(assembly: AssemblyInfo, spec: SpecificationSnapshot, result: Result,
                            millis: int): (r: TestReport)
    ensures SameTest(r, AddTestReport(assembly, spec))
    ensures r.outcome == Some(OutcomeOf(result.Status))
    ensures r.durationMillis == Some(millis) && r.standardError == None
    ensures result.Status == Passing ==>
      r.errorMessage == None && r.errorStackTrace == None && r.standardOutput == spec.CapturedOutput
    ensures IsSkip(result.Status) ==>
      r.errorMessage == None && r.errorStackTrace == None && r.standardOutput == None
    ensures IsFailure(result.Status) && result.Exception == None ==>
      r.errorMessage == None && r.errorStackTrace == None && r.standardOutput == spec.CapturedOutput
    ensures IsFailure(result.Status) && result.Exception.Some? ==>
      r.errorMessage == result.Exception.value.Message &&
      r.errorStackTrace == Some(result.Exception.value.Rendering) &&
      r.standardOutput == spec.CapturedOutput
  {
    match result.Status
    case Passing => UpdateTestPassed(assembly, spec, millis)
    case NotImplemented => UpdateTestSkipped(assembly, spec, millis)
    case Ignored => UpdateTestSkipped(assembly, spec, millis)
    case _ => UpdateTestFailed(assembly, spec, millis, result.Exception)
  }

  /** The line written after the UpdateTest of a failing specification. */
  function FailureLine(name: NullableString): string
  {
    "         ^^^^ FAILURE " + Text(name)
  }

  /** What the handler of `e` emits, in order, when the reporter is in state `s`. */
  function Emitted(s: ReporterState, e: Event): seq<Effect>
    requires e.IsSpecificationEvent() ==> s.currentAssembly.Some?
  {
    match e
    case AssemblyStart(assembly) => [WriteLine("Test Assembly: " + Text(assembly.Name))]
    case ContextStart(context) => [WriteLine("  * " + Text(context.Name))]
    case ContextEnd(_) => []
    case SpecificationStart(spec) =>
      [AddTest(AddTestReport(s.currentAssembly.value, spec)), WriteLine("     - It " + Text(spec.Name))]
    case SpecificationEnd(spec, result, millis) =>
      [UpdateTest(UpdateTestReport(s.currentAssembly.value, spec, result, millis))] +
      (if IsFailure(result.Status) then [WriteLine(FailureLine(spec.Name))] else [])
    case FatalError(_) => []
  }

  /**
    The reporter after handling `e`: output grows by Emitted(s, e); only
    AssemblyStart moves the current assembly, only the context events move the
    current context, and the failure flag is raised by exactly the events that fail the run.
  */
  function Step(s: ReporterState, e: Event): (t: ReporterState)
    requires e.IsSpecificationEvent() ==> s.currentAssembly.Some?
    ensures t.output == s.output + Emitted(s, e)
    ensures t.failureOccurred == (s.failureOccurred || FailsRun(e))
    ensures t.currentAssembly == if e.AssemblyStart? then Some(e.assembly) else s.currentAssembly
    ensures t.currentContext ==
      if e.ContextStart? then e.context.FullName
      else if e.ContextEnd? then Some("")
      else s.currentContext
  {
    var emitted := s.output + Emitted(s, e);
    match e
    case AssemblyStart(assembly) => s.(output := emitted, currentAssembly := Some(assembly))
    case ContextStart(context) => s.(output := emitted, currentContext := context.FullName)
    case ContextEnd(_) => s.(currentContext := Some(""))
    case SpecificationStart(_) => s.(output := emitted)
    case SpecificationEnd(_, result, _) =>
      (match result.Status
       case Passing => s.(output := emitted)
       case NotImplemented => s.(output := emitted)
       case Ignored => s.(output := emitted)
       case _ => s.(output := emitted, failureOccurred := true))
    case FatalError(_) => s.(failureOccurred := true)
  }
}
