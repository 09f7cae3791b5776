/** The two enumerations of the task entity: its lifecycle status and its priority. */
module TaskEnums {
  import opened Wrappers

  /** Lifecycle status; Pending is the initial state. */
  datatype TaskStatus = Pending | InProgress | Completed | Cancelled

  /** Priority, independent of the status. */
  datatype TaskPriority = Low | Medium | High | Critical

  /** The underlying integer of each priority member (declaration order, from 0). */
  function PriorityCode(p: TaskPriority): (code: int)
    ensures 0 <= code <= 3
  {
    match p
    case Low => 0
    case Medium => 1
    case High => 2
    case Critical => 3
  }

  /**
   * Enum.IsDefined for TaskPriority: a C# enum variable can hold any integer,
   * but only the four declared codes name a member.
   */
  predicate IsDefinedPriority(code: int)
    ensures IsDefinedPriority(code) ==> 0 <= code <= 3
  {
    exists p: TaskPriority :: PriorityCode(p) == code
  }

  /** The member an integer code names, if any. */
  function PriorityFromCode(code: int): (r: Option<TaskPriority>)
    ensures r.Some? <==> IsDefinedPriority(code)
    ensures r.Some? ==> PriorityCode(r.value) == code
  {
    if code == 0 then assert PriorityCode(Low) == code; Some(Low)
    else if code == 1 then assert PriorityCode(Medium) == code; Some(Medium)
    else if code == 2 then assert PriorityCode(High) == code; Some(High)
    else if code == 3 then assert PriorityCode(Critical) == code; Some(Critical)
    else assert !IsDefinedPriority(code); None
  }

  /** Codes and members are in one-to-one correspondence. */
  lemma PriorityCodeRoundTrip(p: TaskPriority, code: int)
    ensures PriorityFromCode(PriorityCode(p)) == Some(p)
    ensures IsDefinedPriority(code) <==> 0 <= code <= 3
  {
    if 0 <= code <= 3 {
      assert PriorityFromCode(code).Some?;
    }
  }
}
