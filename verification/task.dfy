/**
 The task entity and the rule that builds a new task from user input
 (`CreateTask` in internal/task/model/task.go).

 The source draws a fresh UUID and reads the UTC wall clock; here both are
 parameters, `freshId` and `now`.
 */
module TaskModel {
  import opened Outcomes
  import opened GoStrings

  /** A point in time, as the caller supplies it. Only equality of instants matters to task construction. */
  datatype Instant = Instant(unixNanos: int)

  datatype Task = Task(
    taskId: string,
    taskName: string,
    taskDesc: string,
    taskType: string,
    createdAt: Instant,
    updatedAt: Instant,
    targetDate: Instant,
    priority: string,
    category: string,
    isCompleted: bool,
    isImportant: bool)

  /** Longest accepted task name, in bytes of its UTF-8 encoding (Go's `len`). */
  const MaxNameBytes: nat := 255

  const EmptyNameError := Message("task name cannot be empty")
  const NameTooLongError := Message("task name cannot exceed 255 characters")

  /** The keys of the source's `validPriorities` table. */
  const ValidPriorities: set<string> := {"low", "medium", "high", "urgent"}
  const DefaultPriority := "medium"

  /**
   The priority a new task is stored with: the lower-cased input when that is
   one of the valid priorities, and "medium" for an empty or unknown one.
   */
  function NormalizePriority(priority: string): (r: string)
    ensures r in ValidPriorities
    ensures ToLower(priority) in ValidPriorities ==> r == ToLower(priority)
    ensures ToLower(priority) !in ValidPriorities ==> r == DefaultPriority
    ensures priority == "" ==> r == DefaultPriority
  {
    if priority == "" || ToLower(priority) !in ValidPriorities then DefaultPriority
    else ToLower(priority)
  }

  /** Every valid priority is already in lower case. */
  lemma ValidPrioritiesAreLowerCase(p: string)
    requires p in ValidPriorities
    ensures ToLower(p) == p
  {
  }

  /** Normalising an already normalised priority changes nothing. */
  lemma NormalizePriorityIdempotent(priority: string)
    ensures NormalizePriority(NormalizePriority(priority)) == NormalizePriority(priority)
  {
    ValidPrioritiesAreLowerCase(NormalizePriority(priority));
  }

  /** Normalisation ignores letter case: a priority and its lower-cased form normalise alike. */
  lemma NormalizePriorityIgnoresCase(priority: string)
    ensures NormalizePriority(ToLower(priority)) == NormalizePriority(priority)
  {
    ToLowerIdempotent(priority);
  }

  /**
   Builds a task. A name that is only white space is refused first; then a
   name whose untrimmed form is longer than 255 bytes. Otherwise the task
   carries the trimmed name and description, the normalised priority, the
   given target date and category, an empty type, both completion flags
   false, and `now` as both its creation and its update time.
   */
  function CreateTask(
    name: string, description: string, targetDate: Instant, priority: string, category: string,
    freshId: string, now: Instant): (r: Result<Task>)
    ensures Blank(name) ==> r == Err(EmptyNameError)
    ensures !Blank(name) && ByteLen(name) > MaxNameBytes ==> r == Err(NameTooLongError)
    ensures r.Ok? <==> !Blank(name) && ByteLen(name) <= MaxNameBytes
    ensures r.Ok? ==> r.value.taskId == freshId
    ensures r.Ok? ==> r.value.taskName == TrimSpace(name) && r.value.taskDesc == TrimSpace(description)
    ensures r.Ok? ==> r.value.targetDate == targetDate && r.value.category == category
    ensures r.Ok? ==> r.value.taskType == "" && !r.value.isCompleted && !r.value.isImportant
    ensures r.Ok? ==> r.value.createdAt == now && r.value.updatedAt == now
    ensures r.Ok? ==> r.value.priority in ValidPriorities
    ensures r.Ok? && ToLower(priority) in ValidPriorities ==> r.value.priority == ToLower(priority)
    ensures r.Ok? && ToLower(priority) !in ValidPriorities ==> r.value.priority == DefaultPriority
  {
    if TrimSpace(name) == "" then Err(EmptyNameError)
    else if ByteLen(name) > MaxNameBytes then Err(NameTooLongError)
    else
      Ok(Task(
        taskId := freshId,
        taskName := TrimSpace(name),
        taskDesc := TrimSpace(description),
        taskType := "",
        createdAt := now,
        updatedAt := now,
        targetDate := targetDate,
        priority := NormalizePriority(priority),
        category := category,
        isCompleted := false,
        isImportant := false))
  }

  /** The name of a created task is non-empty, has no white space at either end, and fits in 255 bytes. */
  lemma CreatedTaskName(
    name: string, description: string, targetDate: Instant, priority: string, category: string,
    freshId: string, now: Instant)
    ensures var r := CreateTask(name, description, targetDate, priority, category, freshId, now);
      r.Ok? ==>
        && r.value.taskName != []
        && !IsSpace(r.value.taskName[0]) && !IsSpace(r.value.taskName[|r.value.taskName| - 1])
        && ByteLen(r.value.taskName) <= MaxNameBytes
  {
    var r := CreateTask(name, description, targetDate, priority, category, freshId, now);
    if r.Ok? {
      assert r.value.taskName == TrimSpace(name);
      TrimSpaceByteLen(name);
    }
  }

  /**
   Feeding a created task's own fields back into `CreateTask`, with the same
   identifier and clock, rebuilds exactly that task.
   */
  lemma CreateTaskRoundTrip(
    name: string, description: string, targetDate: Instant, priority: string, category: string,
    freshId: string, now: Instant)
    ensures var r := CreateTask(name, description, targetDate, priority, category, freshId, now);
      r.Ok? ==> CreateTask(r.value.taskName, r.value.taskDesc, r.value.targetDate, r.value.priority, r.value.category,
                           r.value.taskId, r.value.createdAt) == r
  {
    var r := CreateTask(name, description, targetDate, priority, category, freshId, now);
    if r.Ok? {
      var t := r.value;
      CreatedTaskName(name, description, targetDate, priority, category, freshId, now);
      TrimSpaceIdempotent(name);
      TrimSpaceIdempotent(description);
      NormalizePriorityIdempotent(priority);
    }
  }

  /** The refused names of the source's table-driven tests. */
  lemma CreateTaskRefusedExamples(targetDate: Instant, freshId: string, now: Instant)
    ensures CreateTask("", "Test Description", targetDate, "medium", "work", freshId, now) == Err(EmptyNameError)
    ensures CreateTask("   ", "Test Description", targetDate, "medium", "work", freshId, now) == Err(EmptyNameError)
    ensures CreateTask(seq(256, _ => 'a'), "Test Description", targetDate, "medium", "work", freshId, now)
      == Err(NameTooLongError)
  {
  }

  /** The limit is inclusive: a name of 255 ASCII letters is accepted. */
  lemma CreateTaskAcceptsLongestName(targetDate: Instant, freshId: string, now: Instant)
    ensures CreateTask(seq(255, _ => 'a'), "", targetDate, "", "", freshId, now).Ok?
  {
    var s: string := seq(255, _ => 'a');
    ByteLenAscii(s);
    assert !IsSpace(s[0]);
  }

  /**
   The limit counts bytes, not characters: 200 copies of U+00E9 are only 200
   characters but 400 bytes, and are refused with the message that speaks of
   255 characters.
   */
  lemma CreateTaskCountsBytes(targetDate: Instant, freshId: string, now: Instant)
    ensures CreateTask(seq(200, _ => '\U{00E9}'), "", targetDate, "", "", freshId, now) == Err(NameTooLongError)
  {
    var s: string := seq(200, _ => '\U{00E9}');
    ByteLenTwoByte(s);
    assert !IsSpace(s[0]);
  }

  /** The priorities of the source's table-driven tests. */
  lemma NormalizePriorityExamples()
    ensures NormalizePriority("invalid") == "medium"
    ensures NormalizePriority("") == "medium"
    ensures NormalizePriority("LOW") == "low"
    ensures NormalizePriority("URGENT") == "urgent"
    ensures NormalizePriority("high") == "high"
  {
    assert ToLower("invalid") == "invalid";
    assert ToLower("LOW") == "low";
    assert ToLower("URGENT") == "urgent";
    assert ToLower("high") == "high";
  }

  /** Each valid priority, in lower or upper case, is stored as its lower-case form. */
  lemma PriorityValidationExamples()
    ensures NormalizePriority("low") == "low" && NormalizePriority("LOW") == "low"
    ensures NormalizePriority("medium") == "medium" && NormalizePriority("MEDIUM") == "medium"
    ensures NormalizePriority("high") == "high" && NormalizePriority("HIGH") == "high"
    ensures NormalizePriority("urgent") == "urgent" && NormalizePriority("URGENT") == "urgent"
  {
    assert ToLower("low") == "low" && ToLower("LOW") == "low";
    assert ToLower("medium") == "medium" && ToLower("MEDIUM") == "medium";
    assert ToLower("high") == "high" && ToLower("HIGH") == "high";
    assert ToLower("urgent") == "urgent" && ToLower("URGENT") == "urgent";
  }
}
