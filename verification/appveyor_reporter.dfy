/**
  The AppVeyor CI reporter: a run listener that reports every specification to
  the build worker's test API and writes a progress line per assembly, context
  and specification.

  The API client and the writer are replaced by one ordered log, `output`, of
  the calls and lines the reporter emits. The ghost `History` holds the events
  handled so far; Valid() ties the fields and the log to Replay(History), so
  the lemmas of AppVeyorTrace hold of every reporter.
*/
module AppVeyor {
  import opened Wrappers
  import opened Runner
  import opened AppVeyorProtocol
  import opened AppVeyorTrace

  class AppVeyorReporter {
    /** The timing listener's answer for a specification, in whole milliseconds. */
    const specificationTime: SpecificationSnapshot -> int

    var currentAssembly: Option<AssemblyInfo>
    var currentContext: NullableString
    var failureOccurred: bool
    var output: seq<Effect>

    ghost var History: seq<Event>

    ghost predicate Valid()
      reads this
    {
      Admissible(History) &&
      Replay(History) == ReporterState(currentAssembly, currentContext, failureOccurred, output)
    }

    constructor (specificationTime: SpecificationSnapshot -> int)
      ensures Valid() && History == []
      ensures !failureOccurred && currentAssembly == None && currentContext == None && output == []
      ensures this.specificationTime == specificationTime
    {
      this.specificationTime := specificationTime;
      currentAssembly := None;
      currentContext := None;
      failureOccurred := false;
      output := [];
      History := [];
    }

    /** True exactly when some handled event was a fatal error or a failing specification end. */
    function FailureOccurred(): (r: bool)
      reads this
      requires Valid()
      ensures r <==> exists i :: 0 <= i < |History| && FailsRun(History[i])
    {
      FailureIffFailingEvent(History);
      failureOccurred
    }

    method OnAssemblyStart(assembly: AssemblyInfo)
      requires Valid()
      modifies this
      ensures Valid() && History == old(History) + [AssemblyStart(assembly)]
      ensures output == old(output) + [WriteLine("Test Assembly: " + Text(assembly.Name))]
      ensures currentAssembly == Some(assembly)
      ensures currentContext == old(currentContext) && failureOccurred == old(failureOccurred)
    {
      ReplayAppend(History, AssemblyStart(assembly));
      output := output + [WriteLine("Test Assembly: " + Text(assembly.Name))];
      currentAssembly := Some(assembly);
      History := History + [AssemblyStart(assembly)];
    }

    method OnContextStart(context: ContextInfo)
      requires Valid()
      modifies this
      ensures Valid() && History == old(History) + [ContextStart(context)]
      ensures output == old(output) + [WriteLine("  * " + Text(context.Name))]
      ensures currentContext == context.FullName
      ensures currentAssembly == old(currentAssembly) && failureOccurred == old(failureOccurred)
    {
      ReplayAppend(History, ContextStart(context));
      output := output + [WriteLine("  * " + Text(context.Name))];
      currentContext := context.FullName;
      History := History + [ContextStart(context)];
    }

    method OnContextEnd(context: ContextInfo)
      requires Valid()
      modifies this
      ensures Valid() && History == old(History) + [ContextEnd(context)]
      ensures output == old(output)
      ensures currentContext == Some("")
      ensures currentAssembly == old(currentAssembly) && failureOccurred == old(failureOccurred)
    {
      ReplayAppend(History, ContextEnd(context));
      currentContext := Some("");
      History := History + [ContextEnd(context)];
    }

    method OnSpecificationStart(specification: SpecificationInfo)
      requires Valid() && currentAssembly.Some?
      modifies this
      ensures Valid() && History == old(History) + [SpecificationStart(specification.Snapshot())]
      ensures output == old(output) + [
        AddTest(TestReport(specification.Name, Some(FrameworkName), currentAssembly.value.Name,
                           Some("Running"), None, None, None, None, None)),
        WriteLine("     - It " + Text(specification.Name))]
      ensures currentAssembly == old(currentAssembly) && currentContext == old(currentContext)
      ensures failureOccurred == old(failureOccurred)
    {
      var spec := specification.Snapshot();
      ReplayAppend(History, SpecificationStart(spec));
      output := output + [AddTest(AddTestReport(currentAssembly.value, spec))];
      output := output + [WriteLine("     - It " + Text(spec.Name))];
      History := History + [SpecificationStart(spec)];
    }

    /**
      Reports the specification's end with the outcome its status maps to; a
      failing status also writes a FAILURE line after the call and raises the
      failure flag. The flag is never lowered.
    */
    method OnSpecificationEnd(specification: SpecificationInfo, result: Result)
      requires Valid() && currentAssembly.Some?
      modifies this
      ensures var spec := specification.Snapshot();
        Valid() && History == old(History) + [SpecificationEnd(spec, result, specificationTime(spec))]
      ensures var spec := specification.Snapshot();
        output == old(output) +
          [UpdateTest(UpdateTestReport(currentAssembly.value, spec, result, specificationTime(spec)))] +
          (if IsFailure(result.Status) then [WriteLine(FailureLine(spec.Name))] else [])
      ensures failureOccurred == (old(failureOccurred) || IsFailure(result.Status))
      ensures currentAssembly == old(currentAssembly) && currentContext == old(currentContext)
    {
      var spec := specification.Snapshot();
      var duration := specificationTime(spec);
      var assembly := currentAssembly.value;
      ReplayAppend(History, SpecificationEnd(spec, result, duration));
      match result.Status {
        case Passing =>
          output := output + [UpdateTest(UpdateTestPassed(assembly, spec, duration))];
        case NotImplemented =>
          output := output + [UpdateTest(UpdateTestSkipped(assembly, spec, duration))];
        case Ignored =>
          output := output + [UpdateTest(UpdateTestSkipped(assembly, spec, duration))];
        case _ =>
          output := output + [UpdateTest(UpdateTestFailed(assembly, spec, duration, result.Exception))];
          output := output + [WriteLine(FailureLine(spec.Name))];
          failureOccurred := true;
      }
      History := History + [SpecificationEnd(spec, result, duration)];
    }

    method OnFatalError(exception: ExceptionResult)
      requires Valid()
      modifies this
      ensures Valid() && History == old(History) + [FatalError(exception)]
      ensures failureOccurred && output == old(output)
      ensures currentAssembly == old(currentAssembly) && currentContext == old(currentContext)
    {
      ReplayAppend(History, FatalError(exception));
      failureOccurred := true;
      History := History + [FatalError(exception)];
    }

    /**
      The specification's name qualified by the current context: " > " and the
      name alone before any context event, otherwise the FullName of the last
      context started, or "" once that context has ended. Null parts read as "".
    */
    function GetSpecificationName(specification: SpecificationInfo): (r: string)
      reads this, specification
      requires Valid()
      ensures (forall j :: 0 <= j < |History| ==> !History[j].IsContextEvent()) ==>
        r == " > " + Text(specification.Name)
      ensures forall i :: 0 <= i < |History| && LastContextEvent(History, i) ==>
        r == Text(if History[i].ContextStart? then History[i].context.FullName else Some(""))
             + " > " + Text(specification.Name)
    {
      CurrentContextFromHistory(History);
      Text(currentContext) + " > " + Text(specification.Name)
    }
  }
}
