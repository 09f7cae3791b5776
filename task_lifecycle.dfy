/**
 * The task entity as a value: its fields, the guards each public operation
 * checks, the transition table of its status, and the state each operation
 * leaves behind. The class TaskEntity.Task is proved to follow this model.
 */
module TaskLifecycle {
  import opened Wrappers
  import opened SystemTypes
  import opened TaskEnums
  import opened DomainEvents

  /** The exceptions the entity throws. */
  datatype TaskError =
    | TitleEmpty                // ArgumentException on parameter title
    | DueDateNotInFuture        // ArgumentException on parameter dueDate
    | NotPending                // InvalidOperationException from Start
    | NotInProgress             // InvalidOperationException from Complete
    | CompletedNotCancellable   // InvalidOperationException from Cancel
  {
    /** An ArgumentException, as opposed to an InvalidOperationException. */
    predicate IsArgumentError() {
      TitleEmpty? || DueDateNotInFuture?
    }

    function Message(): string {
      match this
      case TitleEmpty => "Title cannot be empty"
      case DueDateNotInFuture => "Due date must be in the future"
      case NotPending => "Only pending tasks can be started"
      case NotInProgress => "Only in-progress tasks can be completed"
      case CompletedNotCancellable => "Completed tasks cannot be cancelled"
    }
  }

  /** The three status-changing operations. */
  datatype Transition = Start | Complete | Cancel

  /** The transition graph, edge by edge: (from, operation, to). */
  const Edges: set<(TaskStatus, Transition, TaskStatus)> := {
    (Pending, Start, InProgress),
    (InProgress, Complete, Completed),
    (Pending, Cancel, Cancelled),
    (InProgress, Cancel, Cancelled),
    (Cancelled, Cancel, Cancelled)
  }

  /** The guard of each transition, and the status it moves to. */
  function Next(from: TaskStatus, t: Transition): (r: Result<TaskStatus, TaskError>)
    ensures forall to :: (from, t, to) in Edges <==> r == Ok(to)
    ensures r.Err? ==> !r.error.IsArgumentError()
    ensures from == Completed ==> r.Err?
    ensures r.Ok? ==> r.value != Pending
  {
    match t
    case Start => if from != Pending then Err(NotPending) else Ok(InProgress)
    case Complete => if from != InProgress then Err(NotInProgress) else Ok(Completed)
    case Cancel =>
      (match from
       case Completed => Err(CompletedNotCancellable)
       case _ => Ok(Cancelled))
  }

  /**
   * The guards shared by the constructor and UpdateDetails, in their order:
   * a blank title first, then a due date not after the clock reading now.
   */
  function CheckDetails(title: string, dueDate: Instant, now: Instant): (r: Option<TaskError>)
    ensures r == None <==> !IsNullOrWhiteSpace(title) && now < dueDate
    ensures r.Some? ==> r.value.IsArgumentError()
    ensures IsNullOrWhiteSpace(title) ==> r == Some(TitleEmpty)
  {
    if IsNullOrWhiteSpace(title) then Some(TitleEmpty)
    else if dueDate <= now then Some(DueDateNotInFuture)
    else None
  }

  /** All fields of a task, including its buffer of recorded domain events. */
  datatype TaskState = TaskState(
    id: Guid,
    title: string,
    description: string,
    status: TaskStatus,
    priority: TaskPriority,
    dueDate: Instant,
    createdDate: Instant,
    completedDate: Option<Instant>,
    domainEvents: seq<DomainEvent>)

  /**
   * What every task built by the public constructor and changed only by the
   * public operations satisfies.
   */
  predicate Invariant(s: TaskState) {
    && !IsNullOrWhiteSpace(s.title)
    && (s.completedDate.Some? <==> s.status == Completed)
    && (forall e | e in s.domainEvents :: e.taskId == s.id)
    && (forall e | e in s.domainEvents && e.TaskCompletedEvent? :: s.completedDate == Some(e.completedDate))
  }

  /**
   * The public constructor. It reads the clock twice: now for the due-date
   * guard and, after the guards, createdAt for CreatedDate.
   */
  function Create(id: Guid, title: string, description: string, priority: TaskPriority,
                  dueDate: Instant, now: Instant, createdAt: Instant): (r: Result<TaskState, TaskError>)
    ensures r.Err? <==> CheckDetails(title, dueDate, now).Some?
    ensures r.Err? ==> r.error == CheckDetails(title, dueDate, now).value
    ensures r.Ok? ==> Invariant(r.value)
    ensures r.Ok? ==> && r.value.id == id && r.value.title == title
                      && r.value.description == description && r.value.priority == priority
                      && r.value.dueDate == dueDate && r.value.createdDate == createdAt
                      && r.value.status == Pending && r.value.completedDate == None
                      && r.value.domainEvents == [TaskCreatedEvent(id, title, priority)]
  {
    match CheckDetails(title, dueDate, now)
    case Some(e) => Err(e)
    case None =>
      Ok(TaskState(id, title, description, Pending, priority, dueDate, createdAt, None,
                   [TaskCreatedEvent(id, title, priority)]))
  }

  /**
   * A call of one public operation on an existing task. now is the clock
   * reading during the call; only UpdateDetails and Complete read it.
   */
  datatype Command =
    | UpdateDetails(newTitle: string, newDescription: string, newPriority: TaskPriority,
                    newDueDate: Instant, now: Instant)
    | Fire(transition: Transition, now: Instant)
    | ClearDomainEvents

  /** The one event a successful call of a mutating operation records. */
  function EventFor(s: TaskState, c: Command): (e: DomainEvent)
    requires !c.ClearDomainEvents?
    ensures e.taskId == s.id
  {
    match c
    case UpdateDetails(title, _, priority, _, _) => TaskUpdatedEvent(s.id, title, priority)
    case Fire(Start, _) => TaskStartedEvent(s.id, s.title)
    case Fire(Complete, now) => TaskCompletedEvent(s.id, s.title, now)
    case Fire(Cancel, _) => TaskCancelledEvent(s.id, s.title)
  }

  /** The state after a call, or the exception it throws. */
  function Apply(s: TaskState, c: Command): (r: Result<TaskState, TaskError>)
    ensures Invariant(s) && r.Ok? ==> Invariant(r.value)
    ensures r.Ok? ==> r.value.id == s.id && r.value.createdDate == s.createdDate
    ensures s.status == Completed && r.Ok? ==> r.value.status == Completed && r.value.completedDate == s.completedDate
    ensures r.Err? ==> (r.error.IsArgumentError() <==> c.UpdateDetails?)
    ensures r.Ok? && !c.ClearDomainEvents? ==>
              |r.value.domainEvents| == |s.domainEvents| + 1
              && r.value.domainEvents[..|s.domainEvents|] == s.domainEvents
    ensures c.ClearDomainEvents? ==> r == Ok(s.(domainEvents := []))
  {
    match c
    case UpdateDetails(title, description, priority, dueDate, now) =>
      (match CheckDetails(title, dueDate, now)
       case Some(e) => Err(e)
       case None =>
         Ok(s.(title := title, description := description, priority := priority, dueDate := dueDate,
               domainEvents := s.domainEvents + [EventFor(s, c)])))
    case Fire(t, now) =>
      (match Next(s.status, t)
       case Err(e) => Err(e)
       case Ok(status) =>
         Ok(s.(status := status,
               completedDate := if t == Complete then Some(now) else s.completedDate,
               domainEvents := s.domainEvents + [EventFor(s, c)])))
    case ClearDomainEvents =>
      Ok(s.(domainEvents := []))
  }

  /** A call that throws leaves the task as it was. */
  function Step(s: TaskState, c: Command): TaskState {
    match Apply(s, c)
    case Ok(s') => s'
    case Err(_) => s
  }

  /** The outcome a caller sees from a call. */
  function OutcomeOf(s: TaskState, c: Command): Outcome<TaskError> {
    match Apply(s, c)
    case Ok(_) => Pass
    case Err(e) => Fail(e)
  }

  /** Calls made one after another, each caller catching what its call throws. */
  function Run(s: TaskState, cs: seq<Command>): TaskState
    decreases |cs|
  {
    if cs == [] then s else Run(Step(s, cs[0]), cs[1..])
  }

  /** The outcomes of the calls of Run, in call order. */
  function Outcomes(s: TaskState, cs: seq<Command>): (os: seq<Outcome<TaskError>>)
    ensures |os| == |cs|
    decreases |cs|
  {
    if cs == [] then [] else [OutcomeOf(s, cs[0])] + Outcomes(Step(s, cs[0]), cs[1..])
  }

  /** The number of calls that did not throw. */
  function Passed(os: seq<Outcome<TaskError>>): (n: nat)
    ensures n <= |os|
  {
    if os == [] then 0 else (if os[0].Pass? then 1 else 0) + Passed(os[1..])
  }

  /** The events the successful calls of Run record, in call order. */
  function Emitted(s: TaskState, cs: seq<Command>): seq<DomainEvent>
    requires forall i :: 0 <= i < |cs| ==> !cs[i].ClearDomainEvents?
    decreases |cs|
  {
    if cs == [] then []
    else (if Apply(s, cs[0]).Ok? then [EventFor(s, cs[0])] else []) + Emitted(Step(s, cs[0]), cs[1..])
  }

  /** The statuses reachable from a status along the transition graph. */
  predicate Reachable(from: TaskStatus, to: TaskStatus) {
    match from
    case Pending => true
    case InProgress => to != Pending
    case Completed => to == Completed
    case Cancelled => to == Cancelled
  }
}
