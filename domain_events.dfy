/**
 * The domain events a task records, one constructor per event record, each
 * with the payload its record declares.
 */
module DomainEvents {
  import opened SystemTypes
  import opened TaskEnums

  datatype DomainEvent =
    | TaskCreatedEvent(taskId: Guid, title: string, priority: TaskPriority)
    | TaskUpdatedEvent(taskId: Guid, title: string, priority: TaskPriority)
    | TaskStartedEvent(taskId: Guid, title: string)
    | TaskCompletedEvent(taskId: Guid, title: string, completedDate: Instant)
    | TaskCancelledEvent(taskId: Guid, title: string)
}
