/**
  The reporter over a whole run: Replay folds Step over the events it has
  received, and the lemmas state what holds of every run.
*/
module AppVeyorTrace {
  import opened Wrappers
  import opened Runner
  import opened AppVeyorProtocol

  ghost predicate AssemblyStartedIn(evs: seq<Event>)
  {
    exists j :: 0 <= j < |evs| && evs[j].AssemblyStart?
  }

  /** Every specification event comes after some assembly start, so its handler finds an assembly. */
  ghost predicate Admissible(evs: seq<Event>)
    decreases |evs|
  {
    evs == [] ||
    (Admissible(evs[..|evs| - 1]) &&
     (evs[|evs| - 1].IsSpecificationEvent() ==> AssemblyStartedIn(evs[..|evs| - 1])))
  }

  lemma StartedInLast(evs: seq<Event>)
    requires evs != []
    ensures AssemblyStartedIn(evs) <==> AssemblyStartedIn(evs[..|evs| - 1]) || evs[|evs| - 1].AssemblyStart?
  {
    var prefix := evs[..|evs| - 1];
    if AssemblyStartedIn(evs) && !evs[|evs| - 1].AssemblyStart? {
      var j :| 0 <= j < |evs| && evs[j].AssemblyStart?;
      assert prefix[j] == evs[j];
    }
    if AssemblyStartedIn(prefix) {
      var j :| 0 <= j < |prefix| && prefix[j].AssemblyStart?;
      assert evs[j] == prefix[j];
    }
  }

  /** The reporter after a fresh construction followed by the events `evs`, in order. */
  ghost function Replay(evs: seq<Event>): (r: ReporterState)
    requires Admissible(evs)
    ensures r.currentAssembly.Some? <==> AssemblyStartedIn(evs)
    decreases |evs|
  {
    if evs == [] then Fresh
    else
      StartedInLast(evs);
      Step(Replay(evs[..|evs| - 1]), evs[|evs| - 1])
  }

  /** Handling one more event is one more Step. */
  lemma ReplayAppend(evs: seq<Event>, e: Event)
    requires Admissible(evs)
    requires e.IsSpecificationEvent() ==> AssemblyStartedIn(evs)
    ensures Admissible(evs + [e])
    ensures Replay(evs + [e]) == Step(Replay(evs), e)
  {
    assert (evs + [e])[..|evs|] == evs;
  }

  lemma {:induction false} AdmissiblePrefix(evs: seq<Event>, k: nat)
    requires Admissible(evs) && k <= |evs|
    ensures Admissible(evs[..k])
    decreases |evs| - k
  {
    if k < |evs| {
      AdmissiblePrefix(evs[..|evs| - 1], k);
      assert evs[..|evs| - 1][..k] == evs[..k];
    } else {
      assert evs[..k] == evs;
    }
  }

  /** The failure flag is set exactly when some event of the run failed it. */
  lemma {:induction false} FailureIffFailingEvent(evs: seq<Event>)
    requires Admissible(evs)
    ensures Replay(evs).failureOccurred <==> exists i :: 0 <= i < |evs| && FailsRun(evs[i])
  {
    if evs != [] {
      var prefix := evs[..|evs| - 1];
      FailureIffFailingEvent(prefix);
      if exists i :: 0 <= i < |prefix| && FailsRun(prefix[i]) {
        var i :| 0 <= i < |prefix| && FailsRun(prefix[i]);
        assert evs[i] == prefix[i];
      }
      if exists i :: 0 <= i < |evs| && FailsRun(evs[i]) {
        var i :| 0 <= i < |evs| && FailsRun(evs[i]);
        if i < |prefix| {
          assert prefix[i] == evs[i];
        }
      }
    }
  }

  /** Once set, the failure flag stays set whatever events follow. */
  lemma FailureIsPermanent(evs: seq<Event>, more: seq<Event>)
    requires Admissible(evs + more)
    ensures Admissible(evs)
    ensures Replay(evs).failureOccurred ==> Replay(evs + more).failureOccurred
  {
    AdmissiblePrefix(evs + more, |evs|);
    assert (evs + more)[..|evs|] == evs;
    FailureIffFailingEvent(evs);
    FailureIffFailingEvent(evs + more);
    if Replay(evs).failureOccurred {
      var i :| 0 <= i < |evs| && FailsRun(evs[i]);
      assert (evs + more)[i] == evs[i];
    }
  }

  /** The output of a run only ever grows: each event's effects come after all earlier ones. */
  lemma {:induction false} OutputIsAppendOnly(evs: seq<Event>, k: nat)
    requires Admissible(evs) && k <= |evs|
    ensures Admissible(evs[..k])
    ensures Replay(evs[..k]).output <= Replay(evs).output
    decreases |evs| - k
  {
    AdmissiblePrefix(evs, k);
    if k < |evs| {
      var prefix := evs[..|evs| - 1];
      OutputIsAppendOnly(prefix, k);
      assert prefix[..k] == evs[..k];
    } else {
      assert evs[..k] == evs;
    }
  }

  /** Number of elements of `s` satisfying `p`. */
  function Count<T>(s: seq<T>, p: T -> bool): nat
    decreases |s|
  {
    if s == [] then 0 else Count(s[..|s| - 1], p) + (if p(s[|s| - 1]) then 1 else 0)
  }

  lemma {:induction false} CountAppend<T>(a: seq<T>, b: seq<T>, p: T -> bool)
    ensures Count(a + b, p) == Count(a, p) + Count(b, p)
    decreases |b|
  {
    if b == [] {
      assert a + b == a;
    } else {
      assert (a + b)[..|a + b| - 1] == a + b[..|b| - 1];
      assert (a + b)[|a + b| - 1] == b[|b| - 1];
      CountAppend(a, b[..|b| - 1], p);
    }
  }

  lemma CountPair<T>(x: T, y: T, p: T -> bool)
    ensures Count([x, y], p) == (if p(x) then 1 else 0) + (if p(y) then 1 else 0)
  {
    assert [x, y][..1] == [x];
    CountSingle(x, p);
  }

  lemma CountSingle<T>(x: T, p: T -> bool)
    ensures Count([x], p) == if p(x) then 1 else 0
  {
    assert [x][..0] == [];
  }

  lemma EmittedCounts(s: ReporterState, e: Event)
    requires e.IsSpecificationEvent() ==> s.currentAssembly.Some?
    ensures Count(Emitted(s, e), IsAddTest) == if e.SpecificationStart? then 1 else 0
    ensures Count(Emitted(s, e), IsUpdateTest) == if e.SpecificationEnd? then 1 else 0
  {
    var out := Emitted(s, e);
    match e
    case AssemblyStart(_) =>
      CountSingle(out[0], IsAddTest);
      CountSingle(out[0], IsUpdateTest);
    case ContextStart(_) =>
      CountSingle(out[0], IsAddTest);
      CountSingle(out[0], IsUpdateTest);
    case ContextEnd(_) =>
    case SpecificationStart(_) =>
      CountPair(out[0], out[1], IsAddTest);
      CountPair(out[0], out[1], IsUpdateTest);
    case SpecificationEnd(_, result, _) =>
      if IsFailure(result.Status) {
        CountPair(out[0], out[1], IsAddTest);
        CountPair(out[0], out[1], IsUpdateTest);
      } else {
        CountSingle(out[0], IsAddTest);
        CountSingle(out[0], IsUpdateTest);
      }
    case FatalError(_) =>
  }

  /**
    One AddTest call per OnSpecificationStart and one UpdateTest call per
    OnSpecificationEnd, over the whole run.
  */
  lemma {:induction false} ReportsMatchSpecificationEvents(evs: seq<Event>)
    requires Admissible(evs)
    ensures Count(Replay(evs).output, IsAddTest) == Count(evs, IsSpecificationStart)
    ensures Count(Replay(evs).output, IsUpdateTest) == Count(evs, IsSpecificationEnd)
  {
    if evs != [] {
      var prefix, e := evs[..|evs| - 1], evs[|evs| - 1];
      ReportsMatchSpecificationEvents(prefix);
      var s := Replay(prefix);
      EmittedCounts(s, e);
      CountAppend(s.output, Emitted(s, e), IsAddTest);
      CountAppend(s.output, Emitted(s, e), IsUpdateTest);
    }
  }

  /** The wire contract every call satisfies, whatever the event. */
  predicate Conformant(eff: Effect)
  {
    match eff
    case AddTest(r) =>
      r.testFramework == Some(FrameworkName) && r.outcome == Some("Running") &&
      r.durationMillis == None && r.errorMessage == None && r.errorStackTrace == None &&
      r.standardOutput == None && r.standardError == None
    case UpdateTest(r) =>
      r.testFramework == Some(FrameworkName) &&
      (r.outcome == Some("Passed") || r.outcome == Some("Skipped") || r.outcome == Some("Failed")) &&
      r.durationMillis.Some? && r.standardError == None
    case WriteLine(_) => true
  }

  /** Every AddTest and UpdateTest call of a run follows the wire contract. */
  lemma {:induction false} OutputIsConformant(evs: seq<Event>)
    requires Admissible(evs)
    ensures forall k :: 0 <= k < |Replay(evs).output| ==> Conformant(Replay(evs).output[k])
  {
    if evs != [] {
      var prefix, e := evs[..|evs| - 1], evs[|evs| - 1];
      OutputIsConformant(prefix);
      var s := Replay(prefix);
      var out := Replay(evs).output;
      assert out == s.output + Emitted(s, e);
      forall k | 0 <= k < |out| ensures Conformant(out[k]) {
        if k >= |s.output| {
          var eff := Emitted(s, e)[k - |s.output|];
          if e.SpecificationEnd? && eff.UpdateTest? {
            var status := e.result.Status;
            assert OutcomeOf(status) == "Passed" || OutcomeOf(status) == "Skipped" || OutcomeOf(status) == "Failed";
          }
        }
      }
    }
  }

  /** Each UpdateTest with outcome "Failed" is followed at once by the FAILURE line naming the same test. */
  ghost predicate FailureLinesFollow(out: seq<Effect>)
  {
    forall k :: 0 <= k < |out| && out[k].UpdateTest? && out[k].report.outcome == Some("Failed") ==>
      k + 1 < |out| && out[k + 1] == WriteLine(FailureLine(out[k].report.testName))
  }

  lemma {:induction false} FailedUpdateIsFollowedByFailureLine(evs: seq<Event>)
    requires Admissible(evs)
    ensures FailureLinesFollow(Replay(evs).output)
  {
    if evs != [] {
      var prefix, e := evs[..|evs| - 1], evs[|evs| - 1];
      FailedUpdateIsFollowedByFailureLine(prefix);
      var s := Replay(prefix);
      var out := Replay(evs).output;
      assert out == s.output + Emitted(s, e);
      forall k | 0 <= k < |out| && out[k].UpdateTest? && out[k].report.outcome == Some("Failed")
        ensures k + 1 < |out| && out[k + 1] == WriteLine(FailureLine(out[k].report.testName))
      {
        if k < |s.output| {
          assert s.output[k] == out[k];
          assert s.output[k + 1] == out[k + 1];
        } else {
          assert e.SpecificationEnd? && k == |s.output|;
          assert IsFailure(e.result.Status);
        }
      }
    }
  }

  /** `evs[i]` is a context event and no context event follows it. */
  ghost predicate LastContextEvent(evs: seq<Event>, i: nat)
    requires i < |evs|
  {
    evs[i].IsContextEvent() && forall j :: i < j < |evs| ==> !evs[j].IsContextEvent()
  }

  /** After the last context event of a run, the current context is that event's: FullName on start, "" on end. */
  lemma {:induction false} ContextIsSetByLastContextEvent(evs: seq<Event>, i: nat)
    requires Admissible(evs)
    requires i < |evs| && LastContextEvent(evs, i)
    ensures Replay(evs).currentContext == if evs[i].ContextStart? then evs[i].context.FullName else Some("")
    decreases |evs|
  {
    if i < |evs| - 1 {
      var prefix := evs[..|evs| - 1];
      assert forall j :: i < j < |prefix| ==> prefix[j] == evs[j];
      ContextIsSetByLastContextEvent(prefix, i);
    }
  }

  /** Before any context event the current context is still null. */
  lemma {:induction false} ContextIsNullBeforeAnyContextEvent(evs: seq<Event>)
    requires Admissible(evs)
    requires forall j :: 0 <= j < |evs| ==> !evs[j].IsContextEvent()
    ensures Replay(evs).currentContext == None
  {
    if evs != [] {
      var prefix := evs[..|evs| - 1];
      assert forall j :: 0 <= j < |prefix| ==> prefix[j] == evs[j];
      ContextIsNullBeforeAnyContextEvent(prefix);
    }
  }

  /** The current assembly is the one given by the last OnAssemblyStart. */
  lemma {:induction false} AssemblyIsLastStarted(evs: seq<Event>, i: nat)
    requires Admissible(evs)
    requires i < |evs| && evs[i].AssemblyStart?
    requires forall j :: i < j < |evs| ==> !evs[j].AssemblyStart?
    ensures Replay(evs).currentAssembly == Some(evs[i].assembly)
    decreases |evs|
  {
    if i < |evs| - 1 {
      var prefix := evs[..|evs| - 1];
      assert forall j :: i < j < |prefix| ==> prefix[j] == evs[j];
      AssemblyIsLastStarted(prefix, i);
    }
  }

  /** The current context read off the run: null before any context event, otherwise set by the last one. */
  lemma CurrentContextFromHistory(evs: seq<Event>)
    requires Admissible(evs)
    ensures (forall j :: 0 <= j < |evs| ==> !evs[j].IsContextEvent()) ==> Replay(evs).currentContext == None
    ensures forall i :: 0 <= i < |evs| && LastContextEvent(evs, i) ==>
      Replay(evs).currentContext == if evs[i].ContextStart? then evs[i].context.FullName else Some("")
  {
    if forall j :: 0 <= j < |evs| ==> !evs[j].IsContextEvent() {
      ContextIsNullBeforeAnyContextEvent(evs);
    }
    forall i | 0 <= i < |evs| && LastContextEvent(evs, i)
      ensures Replay(evs).currentContext == if evs[i].ContextStart? then evs[i].context.FullName else Some("")
    {
      ContextIsSetByLastContextEvent(evs, i);
    }
  }
}
