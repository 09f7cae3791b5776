/**
 * Properties of whole call sequences on a task: the invariant every public
 * operation keeps, the shape of the status graph, the finality of
 * Completed, and the discipline of the event buffer.
 */
module LifecycleProperties {
  import opened Wrappers
  import opened SystemTypes
  import opened TaskEnums
  import opened DomainEvents
  import opened TaskLifecycle

  predicate NoClear(cs: seq<Command>) {
    forall i :: 0 <= i < |cs| ==> !cs[i].ClearDomainEvents?
  }

  /** Running a + b is running a, then b. */
  lemma {:induction false} RunAppend(s: TaskState, a: seq<Command>, b: seq<Command>)
    ensures Run(s, a + b) == Run(Run(s, a), b)
    decreases |a|
  {
    if a == [] {
      assert a + b == b;
    } else {
      assert (a + b)[0] == a[0];
      assert (a + b)[1..] == a[1..] + b;
      RunAppend(Step(s, a[0]), a[1..], b);
    }
  }

  /**
   * Every sequence of calls keeps the invariant (CompletedDate is set exactly
   * when the status is Completed, the title is not blank, every buffered event
   * names this task, a buffered completion event carries the stored
   * CompletedDate), and never changes Id or CreatedDate.
   */
  lemma {:induction false} RunPreservesInvariant(s: TaskState, cs: seq<Command>)
    requires Invariant(s)
    ensures Invariant(Run(s, cs))
    ensures Run(s, cs).id == s.id && Run(s, cs).createdDate == s.createdDate
    decreases |cs|
  {
    if cs != [] {
      RunPreservesInvariant(Step(s, cs[0]), cs[1..]);
    }
  }

  /** Every status a task reaches follows the transition graph. */
  lemma {:induction false} RunFollowsGraph(s: TaskState, cs: seq<Command>)
    ensures Reachable(s.status, Run(s, cs).status)
    decreases |cs|
  {
    if cs != [] {
      var s' := Step(s, cs[0]);
      assert Reachable(s.status, s'.status);
      RunFollowsGraph(s', cs[1..]);
    }
  }

  /**
   * Completed is absorbing: once a task is completed its status and its
   * CompletedDate never change, and every later transition call fails.
   */
  lemma {:induction false} CompletedIsFinal(s: TaskState, cs: seq<Command>)
    requires s.status == Completed
    ensures Run(s, cs).status == Completed
    ensures Run(s, cs).completedDate == s.completedDate
    ensures forall i :: 0 <= i < |cs| && cs[i].Fire? ==> Outcomes(s, cs)[i].Fail?
    decreases |cs|
  {
    if cs != [] {
      CompletedIsFinal(Step(s, cs[0]), cs[1..]);
      assert Outcomes(s, cs) == [OutcomeOf(s, cs[0])] + Outcomes(Step(s, cs[0]), cs[1..]);
      forall i | 1 <= i < |cs| && cs[i].Fire?
        ensures Outcomes(s, cs)[i].Fail?
      {
        assert cs[1..][i - 1] == cs[i];
      }
    }
  }

  /**
   * Cancelled is left by no call: of the transitions only Cancel succeeds
   * (UpdateDetails, which has no status guard, may succeed too), and the
   * status stays Cancelled.
   */
  lemma {:induction false} CancelledIsFinal(s: TaskState, cs: seq<Command>)
    requires s.status == Cancelled
    ensures Run(s, cs).status == Cancelled
    ensures forall i :: 0 <= i < |cs| && cs[i].Fire? && cs[i].transition != Cancel ==> Outcomes(s, cs)[i].Fail?
    decreases |cs|
  {
    if cs != [] {
      CancelledIsFinal(Step(s, cs[0]), cs[1..]);
      assert Outcomes(s, cs) == [OutcomeOf(s, cs[0])] + Outcomes(Step(s, cs[0]), cs[1..]);
      forall i | 1 <= i < |cs| && cs[i].Fire? && cs[i].transition != Cancel
        ensures Outcomes(s, cs)[i].Fail?
      {
        assert cs[1..][i - 1] == cs[i];
      }
    }
  }

  /** Calls that drive a task from one status to another, when the graph allows it. */
  function PathTo(from: TaskStatus, to: TaskStatus, now: Instant): (cs: seq<Command>)
    ensures NoClear(cs)
  {
    if from == to then []
    else match to
      case InProgress => [Fire(Start, now)]
      case Completed => (if from == Pending then [Fire(Start, now)] else []) + [Fire(Complete, now)]
      case Cancelled => [Fire(Cancel, now)]
      case Pending => []
  }

  /**
   * Every pair of statuses the graph relates is realised by some sequence of
   * calls that all succeed, each recording one event.
   */
  lemma {:induction false} ReachableIsRealised(s: TaskState, to: TaskStatus, now: Instant)
    requires Reachable(s.status, to)
    ensures Run(s, PathTo(s.status, to, now)).status == to
    ensures forall i :: 0 <= i < |PathTo(s.status, to, now)| ==> Outcomes(s, PathTo(s.status, to, now))[i].Pass?
    ensures |Run(s, PathTo(s.status, to, now)).domainEvents| == |s.domainEvents| + |PathTo(s.status, to, now)|
  {
    var cs := PathTo(s.status, to, now);
    if s.status != to && to == Completed && s.status == Pending {
      var s1 := Step(s, cs[0]);
      assert s1.status == InProgress;
      assert cs[1..] == [Fire(Complete, now)];
      assert Run(s, cs) == Run(s1, cs[1..]);
      assert Run(s1, cs[1..]) == Run(Step(s1, Fire(Complete, now)), []);
      assert Outcomes(s, cs) == [Pass] + Outcomes(s1, cs[1..]);
    }
    RunAppendsEmitted(s, cs);
    AllPassed(Outcomes(s, cs));
  }

  /** When every call succeeds, every call is counted. */
  lemma {:induction false} AllPassed(os: seq<Outcome<TaskError>>)
    requires forall i :: 0 <= i < |os| ==> os[i].Pass?
    ensures Passed(os) == |os|
  {
    if os != [] {
      AllPassed(os[1..]);
    }
  }

  /**
   * Without a drain, calls only append to the event buffer: exactly one event
   * per call that succeeds, in call order, and nothing for a call that throws.
   */
  lemma {:induction false} RunAppendsEmitted(s: TaskState, cs: seq<Command>)
    requires NoClear(cs)
    ensures Run(s, cs).domainEvents == s.domainEvents + Emitted(s, cs)
    ensures |Emitted(s, cs)| == Passed(Outcomes(s, cs))
    decreases |cs|
  {
    if cs == [] {
      assert s.domainEvents + [] == s.domainEvents;
    } else {
      var s' := Step(s, cs[0]);
      assert NoClear(cs[1..]) by {
        forall i | 0 <= i < |cs[1..]| ensures !cs[1..][i].ClearDomainEvents? {
          assert cs[1..][i] == cs[i + 1];
        }
      }
      RunAppendsEmitted(s', cs[1..]);
      var os := Outcomes(s, cs);
      assert os[0] == OutcomeOf(s, cs[0]) && os[1..] == Outcomes(s', cs[1..]);
      if Apply(s, cs[0]).Ok? {
        assert s'.domainEvents == s.domainEvents + [EventFor(s, cs[0])];
      }
    }
  }

  /** A drain empties the buffer whatever came before, and a second drain changes nothing. */
  lemma DrainEmpties(s: TaskState, cs: seq<Command>)
    ensures Run(s, cs + [ClearDomainEvents]).domainEvents == []
    ensures Run(s, cs + [ClearDomainEvents, ClearDomainEvents]) == Run(s, cs + [ClearDomainEvents])
  {
    RunAppend(s, cs, [ClearDomainEvents]);
    RunAppend(s, cs, [ClearDomainEvents, ClearDomainEvents]);
    var d := Run(s, cs);
    assert Run(d, [ClearDomainEvents]) == d.(domainEvents := []);
    assert Run(d, [ClearDomainEvents, ClearDomainEvents]) == d.(domainEvents := []);
  }
}
