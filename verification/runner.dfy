/**
  The payload types of the runner's listener protocol, and SpecificationInfo,
  the mutable record a listener receives for each specification.
*/
module Runner {
  import opened Wrappers

  /** A .NET string reference: null, or a sequence of characters. */
  type NullableString = Option<string>

  /** How String.Format and string concatenation render a string argument: null becomes "". */
  function Text(s: NullableString): string
  {
    match s
    case None => ""
    case Some(t) => t
  }

  /** The terminal status a specification ends with. */
  datatype Status = Failing | Passing | NotImplemented | Ignored

  /**
    A captured failure. `Rendering` is the string ExceptionResult.ToString()
    produces (message and full trace); how that string is built is not modelled.
  */
  datatype ExceptionResult = ExceptionResult(Message: NullableString, Rendering: string)

  /** The outcome of one specification; `Exception` may be null. */
  datatype Result = Result(Status: Status, Exception: Option<ExceptionResult>)

  datatype AssemblyInfo = AssemblyInfo(Name: NullableString)

  datatype ContextInfo = ContextInfo(Name: NullableString, FullName: NullableString)

  /** The six properties of a SpecificationInfo at one moment. */
  datatype SpecificationSnapshot = SpecificationSnapshot(
    Leader: NullableString,
    Name: NullableString,
    ContainingType: NullableString,
    FieldName: NullableString,
    AssemblyName: NullableString,
    CapturedOutput: NullableString)

  /** A specification's identity and captured output; every property has a public setter. */
  class SpecificationInfo {
    var Leader: NullableString
    var Name: NullableString
    var ContainingType: NullableString
    var FieldName: NullableString
    var AssemblyName: NullableString
    var CapturedOutput: NullableString

    function Snapshot(): SpecificationSnapshot
      reads this
    {
      SpecificationSnapshot(Leader, Name, ContainingType, FieldName, AssemblyName, CapturedOutput)
    }

    /** Stores the five arguments as given, without validation; CapturedOutput stays null. */
    constructor (leader: NullableString, name: NullableString, containingType: NullableString,
                 fieldName: NullableString, assemblyName: NullableString)
      ensures Snapshot() == SpecificationSnapshot(leader, name, containingType, fieldName, assemblyName, None)
    {
      Leader := leader;
      Name := name;
      ContainingType := containingType;
      FieldName := fieldName;
      AssemblyName := assemblyName;
      CapturedOutput := None;
    }

    method SetLeader(value: NullableString)
      modifies this`Leader
      ensures Snapshot() == old(Snapshot()).(Leader := value)
    {
      Leader := value;
    }

    method SetName(value: NullableString)
      modifies this`Name
      ensures Snapshot() == old(Snapshot()).(Name := value)
    {
      Name := value;
    }

    method SetContainingType(value: NullableString)
      modifies this`ContainingType
      ensures Snapshot() == old(Snapshot()).(ContainingType := value)
    {
      ContainingType := value;
    }

    method SetFieldName(value: NullableString)
      modifies this`FieldName
      ensures Snapshot() == old(Snapshot()).(FieldName := value)
    {
      FieldName := value;
    }

    method SetAssemblyName(value: NullableString)
      modifies this`AssemblyName
      ensures Snapshot() == old(Snapshot()).(AssemblyName := value)
    {
      AssemblyName := value;
    }

    method SetCapturedOutput(value: NullableString)
      modifies this`CapturedOutput
      ensures Snapshot() == old(Snapshot()).(CapturedOutput := value)
    {
      CapturedOutput := value;
    }
  }
}
