# Task lifecycle and create-request validation, in Dafny

This project models the domain core of a task-tracking application: the
`Task` entity with its lifecycle state machine (Pending, InProgress,
Completed, Cancelled), the domain events it buffers, and the validator that
checks create requests before a task is built.

- `wrappers.dfy` (`Wrappers`): `Option`, `Result`, `Outcome`, used where the source throws.
- `system_types.dfy` (`SystemTypes`): the .NET values the core uses. `DateTime` is a tick
  count (`Instant`, default 0) and `Guid` a 128-bit number. Also `char.IsWhiteSpace`,
  `string.IsNullOrWhiteSpace`, and `string.Length` as a count of UTF-16 code units.
- `task_enums.dfy` (`TaskEnums`): `TaskStatus`, `TaskPriority`, and the priority's underlying
  integer. `Enum.IsDefined` becomes `IsDefinedPriority`.
- `domain_events.dfy` (`DomainEvents`): one `DomainEvent` datatype with a constructor
  for each of the five event records and the payload that record declares.
- `task_lifecycle.dfy` (`TaskLifecycle`): the entity as a value `TaskState`. It holds the
  transition table `Next`, the shared guards `CheckDetails`, the constructor `Create`,
  one call `Apply`/`Step`, and call sequences `Run`. `Invariant` is what every public
  operation keeps.
- `lifecycle_properties.dfy` (`LifecycleProperties`): lemmas about whole call sequences.
- `task_entity.dfy` (`TaskEntity`): the class `Task`. Its fields are reassigned in place and
  its event buffer is appended to and cleared. Each method's contract gives its whole new
  state, and `State() == Step(old(State()), …)` ties it to `TaskLifecycle`. Three client
  methods replay the lifecycle scenarios (create/start/complete/cancel, cancel twice,
  rejected creation) through the class contracts alone.
- `create_task_validator.dfy` (`CreateTaskValidation`): the request validator. Its seven
  rules are reported independently, in declaration order.

The clock and `Guid.NewGuid()` are parameters. Wherever the source reads `DateTime.UtcNow`,
the model takes the reading as an argument:
- The constructor reads the clock twice. `now` is the reading for the due-date guard and
  `createdAt` the later reading for `CreatedDate`. So nothing relates `CreatedDate` to
  `DueDate` beyond what the two readings give.
- `Complete` takes `now`, which becomes both `CompletedDate` and the event's payload.
- The validator's reference instant is a field of the validator value. It is fixed when
  the validator is built.

Two facts about the event buffer and the completion date:
- The entity has no operation that returns the events and clears them in one call. The
  buffer is read through `DomainEvents` and emptied by `ClearDomainEvents`, so the model
  exposes the `domainEvents` field and `ClearDomainEvents`.
- `CompletedDate` is the clock reading taken inside `Complete`.

## Model

| member | source | states |
|---|---|---|
| SystemTypes.Utf16Length | src/TaskManagement.Application/Validators/CreateTaskDtoValidator.cs:12 | the length the maximum-length rules measure lies between the character count and twice it, and is 0 only for the empty string |
| SystemTypes.Utf16LengthAppend | src/TaskManagement.Application/Validators/CreateTaskDtoValidator.cs:16 | the measured length of a concatenation is the sum of the lengths |
| SystemTypes.BlankStrings | src/TaskManagement.Domain/Entities/Task.cs:25 | the empty string is blank; a one-character string is blank iff that character is white space; a string ending in a non-white character is not blank |
| SystemTypes.IsWhiteSpace | src/TaskManagement.Domain/Entities/Task.cs:25 | the characters `char.IsWhiteSpace` accepts (Unicode separators, U+0009..U+000D, U+0085) are all single UTF-16 units, and the space is one of them |
| SystemTypes.IsNullOrWhiteSpace | src/TaskManagement.Domain/Entities/Task.cs:44 | `string.IsNullOrWhiteSpace`, also the string case of `NotEmpty()`: the empty string is blank, a string starting with a non-white character is not |
| TaskEnums.PriorityCode | src/TaskManagement.Domain/Entities/Task.cs:105-111 | each priority member has an underlying number in 0..3 |
| TaskEnums.PriorityFromCode | src/TaskManagement.Domain/Entities/Task.cs:105-111 | a number names a priority member iff it is the code of some member, and the member found has that code |
| TaskEnums.IsDefinedPriority | src/TaskManagement.Application/Validators/CreateTaskDtoValidator.cs:19 | `IsInEnum()`: a number is accepted only if it is the code of a declared member, hence in 0..3 |
| TaskEnums.PriorityCodeRoundTrip | src/TaskManagement.Domain/Entities/Task.cs:105-111 | code then lookup gives back the member; the defined codes are exactly 0..3 |
| TaskLifecycle.Next | src/TaskManagement.Domain/Entities/Task.cs:58-84 | a transition succeeds with target `to` exactly when (from, op, to) is an edge of the graph; failures are state-transition errors; nothing leaves Completed; nothing returns to Pending |
| TaskLifecycle.CheckDetails | src/TaskManagement.Domain/Entities/Task.cs:25-29 | the guards pass iff the title is not null/white space and the due date is strictly after the clock reading; a blank title is reported first |
| TaskLifecycle.Create | src/TaskManagement.Domain/Entities/Task.cs:23-40 | fails exactly when the guards fail, with their error; otherwise a Pending task with the given fields, CreatedDate the second clock reading, no CompletedDate, the one event Created(id, title, priority), satisfying the invariant |
| TaskLifecycle.EventFor | src/TaskManagement.Domain/Entities/Task.cs:55-83 | the event a successful mutation records names the task's own id |
| TaskLifecycle.Apply | src/TaskManagement.Domain/Entities/Task.cs:42-94 | every call keeps the invariant and Id and CreatedDate; a Completed task stays Completed with the same CompletedDate; argument errors come only from UpdateDetails; a successful mutation appends exactly one event after the old ones; a clear empties the buffer only |
| LifecycleProperties.RunPreservesInvariant | src/TaskManagement.Domain/Entities/Task.cs:31-84 | after any sequence of calls: CompletedDate is set iff the status is Completed, the title is not blank, every buffered event names the task, a buffered completion event carries the stored CompletedDate; Id and CreatedDate never change |
| LifecycleProperties.RunFollowsGraph | src/TaskManagement.Domain/Entities/Task.cs:58-84 | any sequence of calls only reaches statuses reachable along the transition graph |
| LifecycleProperties.CompletedIsFinal | src/TaskManagement.Domain/Entities/Task.cs:60-80 | from Completed, status and CompletedDate never change and every later Start, Complete or Cancel fails |
| LifecycleProperties.CancelledIsFinal | src/TaskManagement.Domain/Entities/Task.cs:58-84 | from Cancelled the status stays Cancelled whatever is called, and every later Start or Complete fails (Cancel, and UpdateDetails with its lack of a status guard, may still succeed) |
| LifecycleProperties.ReachableIsRealised | src/TaskManagement.Domain/Entities/Task.cs:58-84 | conversely, every status the graph allows is reached by a sequence of calls that all succeed, and the buffer grows by exactly one event per call |
| LifecycleProperties.RunAppend | src/TaskManagement.Domain/Entities/Task.cs:42-94 | running calls a then b equals running a and continuing with b |
| LifecycleProperties.RunAppendsEmitted | src/TaskManagement.Domain/Entities/Task.cs:86-89 | without a clear, the buffer is the old buffer followed by the events of the successful calls in call order, one per call that did not throw |
| LifecycleProperties.DrainEmpties | src/TaskManagement.Domain/Entities/Task.cs:91-94 | after any calls a clear leaves the buffer empty, and a second clear changes nothing |
| TaskEntity.Task.Init | src/TaskManagement.Domain/Entities/Task.cs:31-39 | once the guards have passed: fields equal the arguments, status Pending, no CompletedDate, buffer [Created(id, title, priority)], invariant established |
| TaskEntity.Task.Create | src/TaskManagement.Domain/Entities/Task.cs:23-40 | fails, creating nothing, iff the title is blank or the due date is not after the clock reading; otherwise a fresh valid task whose state is the pure constructor's |
| TaskEntity.Task.UpdateDetails | src/TaskManagement.Domain/Entities/Task.cs:42-56 | under the same two guards and in any status, replaces exactly title, description, priority and due date and appends Updated(id, newTitle, newPriority); on failure nothing changes |
| TaskEntity.Task.Start | src/TaskManagement.Domain/Entities/Task.cs:58-65 | succeeds iff the status was Pending: then InProgress and Started(id, title) appended; otherwise the NotPending error and no change |
| TaskEntity.Task.Complete | src/TaskManagement.Domain/Entities/Task.cs:67-75 | succeeds iff the status was InProgress: then Completed, CompletedDate the clock reading, and Completed(id, title, that same date) appended; otherwise the NotInProgress error and no change |
| TaskEntity.Task.Cancel | src/TaskManagement.Domain/Entities/Task.cs:77-84 | fails, changing nothing, iff the status was Completed; from Pending, InProgress or Cancelled sets Cancelled and appends Cancelled(id, title) |
| TaskEntity.Task.AddDomainEvent | src/TaskManagement.Domain/Entities/Task.cs:86-89 | appends the event at the end of the buffer and changes no other field; its callers pass events naming this task, so the invariant is kept |
| TaskEntity.Task.ClearDomainEvents | src/TaskManagement.Domain/Entities/Task.cs:91-94 | empties the buffer and changes no other field |
| CreateTaskValidation.OnProperty | src/TaskManagement.Application/Validators/CreateTaskDtoValidator.cs:8-24 | selects exactly the rules attached to one request property |
| CreateTaskValidation.CreateTaskDtoValidator.Passes | src/TaskManagement.Application/Validators/CreateTaskDtoValidator.cs:10-23 | the seven rules: `NotEmpty` means not null or white space for a string and not default for a date; `MaximumLength` counts UTF-16 code units, so more than the limit in characters always fails and half the limit always passes; `GreaterThan` compares with the reading captured at construction, so passing it implies a non-default date |
| CreateTaskValidation.CreateTaskDtoValidator.IsValid | src/TaskManagement.Application/Validators/CreateTaskDtoValidator.cs:8-24 | a request passes every rule iff title and description are non-blank and within 200 and 1000 code units, the priority is a declared member, and the due date is non-default and after the reference instant |
| CreateTaskValidation.CreateTaskDtoValidator.Failing | src/TaskManagement.Application/Validators/CreateTaskDtoValidator.cs:8-24 | the reported rules are exactly those of the list the request fails, and keep declaration order |
| CreateTaskValidation.CreateTaskDtoValidator.Validate | src/TaskManagement.Application/Validators/CreateTaskDtoValidator.cs:8-24 | a rule is reported iff the request fails it, in declaration order with no repeats; nothing is reported iff every rule passes |
| CreateTaskValidation.RejectionReasons | src/TaskManagement.Application/Validators/CreateTaskDtoValidator.cs:10-23 | each rule is reported exactly in its own case: blank title, title over 200 code units, blank description, description over 1000, priority outside 0..3, default due date, due date not after the reference instant |
| CreateTaskValidation.PassesReadsOwnProperty | src/TaskManagement.Application/Validators/CreateTaskDtoValidator.cs:10-23 | a rule's verdict depends only on the property it is attached to |
| CreateTaskValidation.FailuresOnPropertyIndependent | src/TaskManagement.Application/Validators/CreateTaskDtoValidator.cs:8-24 | for any rule list, the failures reported about a property are the same for two requests that agree on it |
| CreateTaskValidation.OnPropertyAppend | src/TaskManagement.Application/Validators/CreateTaskDtoValidator.cs:8-24 | selecting one property's rules distributes over concatenation |
| CreateTaskValidation.ValidationFailuresIndependent | src/TaskManagement.Application/Validators/CreateTaskDtoValidator.cs:8-24 | the rules are independent: the errors a validation reports for one property do not depend on the other properties |
| CreateTaskValidation.ValidRequestPassesEntityGuards | src/TaskManagement.Application/Validators/CreateTaskDtoValidator.cs:10-23 | an accepted request names a priority member and passes the entity constructor's guards whenever the entity's clock reading is not later than the validator's |
| CreateTaskValidation.StaleReferenceAcceptsPastDueDate | src/TaskManagement.Application/Validators/CreateTaskDtoValidator.cs:23 | because the reference instant is fixed at construction, a request can be accepted whose due date the entity then refuses as past |
| CreateTaskValidation.TitleLengthCountsCodeUnits | src/TaskManagement.Application/Validators/CreateTaskDtoValidator.cs:12 | the title limit counts UTF-16 code units: 101 astral characters are rejected, 200 plain letters accepted |

## Left out

- Null strings: the model has no null. For every check the core makes, null behaves like
  the empty string. `IsNullOrWhiteSpace` and `NotEmpty` fail on both, and `MaximumLength`
  passes on both. So only a stored null description is not represented.
- Undefined enum values on the entity: C# would let the entity store an undefined
  priority number. The entity model uses the four members only. The request model keeps
  the raw number, because that is where it is checked.
- `DateTime.Kind` and time zones: comparisons use ticks only, as `DateTime` comparison does.
- The private parameterless constructor used by the ORM: it bypasses every guard.
- `BaseEntity` is not part of this model. Only its `Id` is used, as a field of `Task`.
- The read-only wrapper around the event list: the model reads the `domainEvents`
  sequence directly.
- Command and query handlers, the controller, the repository, the database context and
  dependency registration: framework plumbing outside the domain.
- How the validator is wired in: it is registered with the dependency-injection container
  (src/TaskManagement.Application/DependencyInjection.cs:17), but no controller or handler
  calls it. So no lemma assumes it runs before the entity constructor. `ValidRequestPassesEntityGuards`
  states the condition under which validating first would be enough.
- The React front end: its hiding of Cancel for cancelled tasks is a UI choice. The domain
  allows that call.
- The clock, Guid generation and exception messages with parameter names: the model passes
  clock readings and ids in as arguments. Each error carries its message text
  (`TaskError.Message`, `Rule.Message`) but not the parameter name.
