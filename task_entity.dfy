/**
 * The task entity as the object the application loads, mutates and saves:
 * every field is reassigned in place and the event buffer is appended to and
 * cleared. Each method checks its guard before touching any field, and is
 * proved to do what TaskLifecycle.Apply says of the same call.
 */
module TaskEntity {
  import opened Wrappers
  import opened SystemTypes
  import opened TaskEnums
  import opened DomainEvents
  import opened TaskLifecycle

  class Task {
    var id: Guid
    var title: string
    var description: string
    var status: TaskStatus
    var priority: TaskPriority
    var dueDate: Instant
    var createdDate: Instant
    var completedDate: Option<Instant>
    var domainEvents: seq<DomainEvent>

    /** The fields, as a value. */
    function State(): TaskState
      reads this
    {
      TaskState(id, title, description, status, priority, dueDate, createdDate, completedDate, domainEvents)
    }

    ghost predicate Valid()
      reads this
    {
      Invariant(State())
    }

    /** The assignments the public constructor makes once its guards have passed. */
    constructor Init(id: Guid, title: string, description: string, priority: TaskPriority,
                     dueDate: Instant, createdAt: Instant)
      requires !IsNullOrWhiteSpace(title)
      ensures Valid()
      ensures State() == TaskState(id, title, description, Pending, priority, dueDate, createdAt, None,
                                   [TaskCreatedEvent(id, title, priority)])
    {
      this.id := id;
      this.title := title;
      this.description := description;
      this.priority := priority;
      this.dueDate := dueDate;
      status := Pending;
      createdDate := createdAt;
      completedDate := None;
      domainEvents := [];
      new;
      AddDomainEvent(TaskCreatedEvent(id, title, priority));
    }

    /**
     * The public constructor: fails on a blank title or a due date not after
     * now, before anything is created; otherwise a Pending task whose fields
     * are the arguments, created at createdAt, with one creation event.
     */
    static method Create(id: Guid, title: string, description: string, priority: TaskPriority,
                         dueDate: Instant, now: Instant, createdAt: Instant)
      returns (r: Result<Task, TaskError>)
      ensures r.Err? <==> CheckDetails(title, dueDate, now).Some?
      ensures r.Err? ==> CheckDetails(title, dueDate, now) == Some(r.error)
      ensures r.Ok? ==> fresh(r.value) && r.value.Valid()
      ensures r.Ok? ==> r.value.State() == TaskState(id, title, description, Pending, priority, dueDate,
                                                     createdAt, None, [TaskCreatedEvent(id, title, priority)])
      ensures r.Ok? ==> TaskLifecycle.Create(id, title, description, priority, dueDate, now, createdAt)
                        == Ok(r.value.State())
    {
      if IsNullOrWhiteSpace(title) {
        return Err(TitleEmpty);
      }
      if dueDate <= now {
        return Err(DueDateNotInFuture);
      }
      var t := new Task.Init(id, title, description, priority, dueDate, createdAt);
      return Ok(t);
    }

    /**
     * Replaces title, description, priority and due date under the same two
     * guards as the constructor, whatever the status.
     */
    method UpdateDetails(title: string, description: string, priority: TaskPriority,
                         dueDate: Instant, now: Instant) returns (r: Outcome<TaskError>)
      requires Valid()
      modifies this
      ensures Valid()
      ensures r.Pass? <==> CheckDetails(title, dueDate, now) == None
      ensures r.Fail? ==> CheckDetails(title, dueDate, now) == Some(r.error) && State() == old(State())
      ensures r.Pass? ==> State() == old(State()).(title := title, description := description,
                                                   priority := priority, dueDate := dueDate,
                                                   domainEvents := old(domainEvents) + [TaskUpdatedEvent(id, title, priority)])
      ensures r == OutcomeOf(old(State()), Command.UpdateDetails(title, description, priority, dueDate, now))
      ensures State() == Step(old(State()), Command.UpdateDetails(title, description, priority, dueDate, now))
    {
      if IsNullOrWhiteSpace(title) {
        return Fail(TitleEmpty);
      }
      if dueDate <= now {
        return Fail(DueDateNotInFuture);
      }
      this.title := title;
      this.description := description;
      this.priority := priority;
      this.dueDate := dueDate;
      AddDomainEvent(TaskUpdatedEvent(id, this.title, this.priority));
      return Pass;
    }

    /** Pending to InProgress; from any other status it fails and changes nothing. */
    method Start() returns (r: Outcome<TaskError>)
      requires Valid()
      modifies this
      ensures Valid()
      ensures r.Pass? <==> old(status) == Pending
      ensures r.Fail? ==> r.error == NotPending && State() == old(State())
      ensures r.Pass? ==> State() == old(State()).(status := InProgress,
                                                   domainEvents := old(domainEvents) + [TaskStartedEvent(id, title)])
      // Start does not read the clock, so any reading stands for its call.
      ensures State() == Step(old(State()), Fire(Transition.Start, DefaultInstant))
    {
      if status != Pending {
        return Fail(NotPending);
      }
      status := InProgress;
      AddDomainEvent(TaskStartedEvent(id, title));
      return Pass;
    }

    /**
     * InProgress to Completed, stamping CompletedDate with the clock reading
     * now and recording it in the event; otherwise fails and changes nothing.
     */
    method Complete(now: Instant) returns (r: Outcome<TaskError>)
      requires Valid()
      modifies this
      ensures Valid()
      ensures r.Pass? <==> old(status) == InProgress
      ensures r.Fail? ==> r.error == NotInProgress && State() == old(State())
      ensures r.Pass? ==> State() == old(State()).(status := Completed, completedDate := Some(now),
                                                   domainEvents := old(domainEvents) + [TaskCompletedEvent(id, title, now)])
      ensures State() == Step(old(State()), Fire(Transition.Complete, now))
    {
      if status != InProgress {
        return Fail(NotInProgress);
      }
      status := Completed;
      completedDate := Some(now);
      AddDomainEvent(TaskCompletedEvent(id, title, completedDate.value));
      return Pass;
    }

    /**
     * To Cancelled from every status but Completed, including from Cancelled
     * itself; from Completed it fails and changes nothing.
     */
    method Cancel() returns (r: Outcome<TaskError>)
      requires Valid()
      modifies this
      ensures Valid()
      ensures r.Pass? <==> old(status) != Completed
      ensures r.Fail? ==> r.error == CompletedNotCancellable && State() == old(State())
      ensures r.Pass? ==> State() == old(State()).(status := Cancelled,
                                                   domainEvents := old(domainEvents) + [TaskCancelledEvent(id, title)])
      // Cancel does not read the clock, so any reading stands for its call.
      ensures State() == Step(old(State()), Fire(Transition.Cancel, DefaultInstant))
    {
      if status == Completed {
        return Fail(CompletedNotCancellable);
      }
      status := Cancelled;
      AddDomainEvent(TaskCancelledEvent(id, title));
      return Pass;
    }

    /**
     * Appends one event to the buffer and changes nothing else. Private in the
     * entity: only the constructor and the mutating methods call it, each with
     * an event naming this task and, for a completion, the stored date.
     */
    method AddDomainEvent(e: DomainEvent)
      requires Valid()
      requires e.taskId == id
      requires e.TaskCompletedEvent? ==> completedDate == Some(e.completedDate)
      modifies this
      ensures Valid()
      ensures State() == old(State()).(domainEvents := old(domainEvents) + [e])
    {
      domainEvents := domainEvents + [e];
    }

    /** Empties the event buffer and changes nothing else. */
    method ClearDomainEvents()
      requires Valid()
      modifies this
      ensures Valid()
      ensures State() == old(State()).(domainEvents := [])
      ensures State() == Step(old(State()), Command.ClearDomainEvents)
    {
      domainEvents := [];
    }
  }

  /**
   * Create, Start, Complete: three events in call order, the task completed
   * with CompletedDate set; a later Cancel fails and leaves it Completed.
   */
  method StartCompleteScenario(id: Guid, now: Instant)
    requires now + TicksPerDay <= MaxTicks
  {
    var title := "Write spec";
    assert title[0] == 'W';
    var created := Task.Create(id, title, "desc", High, now + TicksPerDay, now, now);
    assert created.Ok?;
    var t := created.value;
    var started := t.Start();
    var completed := t.Complete(now);
    assert started == Pass && completed == Pass;
    assert t.status == Completed && t.completedDate == Some(now);
    assert t.domainEvents == [TaskCreatedEvent(id, title, High), TaskStartedEvent(id, title),
                              TaskCompletedEvent(id, title, now)];
    var cancelled := t.Cancel();
    assert cancelled == Fail(CompletedNotCancellable);
    assert t.status == Completed;
  }

  /** Cancelling twice succeeds twice and records two cancellation events. */
  method CancelTwiceScenario(id: Guid, now: Instant)
    requires now + TicksPerDay <= MaxTicks
  {
    var title := "Write spec";
    assert title[0] == 'W';
    var created := Task.Create(id, title, "desc", High, now + TicksPerDay, now, now);
    var t := created.value;
    var first := t.Cancel();
    var second := t.Cancel();
    assert first == Pass && second == Pass && t.status == Cancelled;
    assert t.domainEvents == [TaskCreatedEvent(id, title, High), TaskCancelledEvent(id, title),
                              TaskCancelledEvent(id, title)];
    t.ClearDomainEvents();
    assert t.domainEvents == [];
  }

  /** An empty title, or a due date already past, is refused with its message. */
  method RejectedCreationScenario(id: Guid, now: Instant)
    requires TicksPerDay <= now <= MaxTicks - TicksPerDay
  {
    var noTitle := Task.Create(id, "", "Test Description", Medium, now + TicksPerDay, now, now);
    assert noTitle == Err(TitleEmpty) && noTitle.error.Message() == "Title cannot be empty";
    var title := "Test Task";
    assert title[0] == 'T';
    var pastDue := Task.Create(id, title, "Test Description", Medium, now - TicksPerDay, now, now);
    assert pastDue == Err(DueDateNotInFuture);
  }
}
