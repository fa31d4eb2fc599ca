/** The task card: the clock rendering, the derivations from a task's entries
    (the running entry, the recorded total, the elapsed time), which buttons
    show, and the card's editing state with its save guard. The interval
    that ticks once a second is the caller of `Tick`, with `now` given. */
module TaskCard {
  import opened Common
  import opened Entities
  import opened ClientTypes
  import TasksService
  import CsvExport

  // ---------------------------------------------------------------------
  // Arithmetic as JavaScript does it on integral numbers

  /** `Math.floor(a / b)` for a positive `b`. */
  function FloorDiv(a: int, b: int): (r: int)
    requires b > 0
    ensures b * r <= a < b * r + b
  {
    a / b
  }

  /** `a % b` for a positive `b`: the remainder takes the sign of `a`. */
  function JsRem(a: int, b: int): (r: int)
    requires b > 0
    ensures -b < r < b
    ensures a >= 0 ==> r == a % b
    ensures a < 0 ==> r <= 0
  {
    if a >= 0 then a % b else -((-a) % b)
  }

  // ---------------------------------------------------------------------
  // formatTime

  datatype Clock = Clock(hrs: int, mins: int, secs: int)

  /** The three numbers `formatTime` prints: the hours are the floor of the
      count in hours, and the minutes and seconds stay within one hour and
      one minute (negative for a negative count). */
  function Decompose(seconds: int): (c: Clock)
    ensures 3600 * c.hrs <= seconds < 3600 * c.hrs + 3600
    ensures -60 <= c.mins < 60 && -60 < c.secs < 60
    ensures seconds >= 0 ==> 0 <= c.mins && 0 <= c.secs
  {
    Clock(FloorDiv(seconds, 3600), FloorDiv(JsRem(seconds, 3600), 60), JsRem(seconds, 60))
  }

  /** `${hrs}h ${mins}m ${secs}s`: for a non-negative count the whole hours,
      the minutes and the seconds left over, each without a sign; for a
      negative count a leading `-`. */
  function FormatTime(seconds: int): (s: string)
    ensures seconds >= 0 ==> s == NatToString(seconds / 3600) + "h " + NatToString(seconds % 3600 / 60) + "m "
                                   + NatToString(seconds % 60) + "s"
    ensures seconds < 0 ==> |s| > 0 && s[0] == '-'
  {
    var c := Decompose(seconds);
    IntToString(c.hrs) + "h " + IntToString(c.mins) + "m " + IntToString(c.secs) + "s"
  }

  /** For a non-negative count the clock is exact: whole hours, then minutes
      and seconds below 60. */
  lemma DecomposeExact(seconds: int)
    requires seconds >= 0
    ensures var c := Decompose(seconds);
            && c.hrs * 3600 + c.mins * 60 + c.secs == seconds
            && 0 <= c.hrs && 0 <= c.mins < 60 && 0 <= c.secs < 60
  {
    var r := seconds % 3600;
    assert seconds == 3600 * (seconds / 3600) + r;
    assert r == 60 * (r / 60) + r % 60;
    assert seconds % 60 == r % 60 by {
      assert seconds == 60 * (60 * (seconds / 3600) + r / 60) + r % 60;
    }
  }

  /** Negative counts (a start time ahead of the clock) print negative parts. */
  lemma DecomposeNegative()
    ensures Decompose(-1) == Clock(-1, -1, -1)
  {
  }

  // ---------------------------------------------------------------------
  // Derived values

  /** `es.find(e => !e.endTime)`, as an index. */
  function FirstOpenIndex(es: seq<ClientEntry>): (r: Option<nat>)
    ensures r.None? <==> forall i :: 0 <= i < |es| ==> es[i].endTime.Some?
    ensures r.Some? ==> r.value < |es| && es[r.value].endTime.None?
    ensures r.Some? ==> forall j :: 0 <= j < r.value ==> es[j].endTime.Some?
  {
    if es == [] then None
    else if es[0].endTime.None? then Some(0)
    else match FirstOpenIndex(es[1..])
      case None => None
      case Some(i) => Some(i + 1)
  }

  /** `activeTimer`: the first entry with no end time; none for a task whose
      entries are missing or all closed. */
  function ActiveTimer(es: Option<seq<ClientEntry>>): (r: Option<ClientEntry>)
    ensures es.None? ==> r.None?
    ensures es.Some? ==> (r.None? <==> forall i :: 0 <= i < |es.value| ==> es.value[i].endTime.Some?)
    ensures r.Some? ==> exists i :: 0 <= i < |es.value| && es.value[i] == r.value
                                    && (forall j :: 0 <= j < i ==> es.value[j].endTime.Some?)
    ensures r.Some? ==> r.value.endTime.None?
  {
    if es.None? then None
    else match FirstOpenIndex(es.value)
      case None => None
      case Some(i) => Some(es.value[i])
  }

  /** `totalTime`: the recorded seconds, 0 when the entries are missing, never
      negative when no duration is. */
  function TotalTime(t: ClientTask): (r: int)
    ensures t.timeEntries.None? ==> r == 0
    ensures t.timeEntries.Some? && NonNegativeDurations(t.timeEntries.value) ==> r >= 0
  {
    if t.timeEntries.None? then 0 else ReduceDurations(t.timeEntries.value)
  }

  /** The card's total is the export's and the charts' `calculateTotalTime`. */
  lemma TotalTimeAgrees(t: ClientTask)
    ensures TotalTime(t) == CsvExport.CalculateTotalTime(t.timeEntries)
    ensures t.timeEntries.None? ==> TotalTime(t) == 0
  {
  }

  /** For a task the server listed, the card's total is `getTotalTime`. */
  lemma TotalTimeMatchesServer(x: TasksService.TaskWithEntries)
    ensures TotalTime(TaskToClient(x)) == TasksService.SumDurations(x.timeEntries)
  {
    ClientSumMatchesServer(x.timeEntries);
  }

  /** `Math.floor((now - start) / 1000)`: whole seconds since the start. */
  function Elapsed(start: int, now: int): (r: int)
    ensures 1000 * r <= now - start < 1000 * r + 1000
  {
    FloorDiv(now - start, 1000)
  }

  /** The seconds the card shows as its total. */
  function DisplayedTotal(t: ClientTask, elapsed: int): (r: int)
    ensures ActiveTimer(t.timeEntries).Some? ==> r == TotalTime(t) + elapsed
    ensures ActiveTimer(t.timeEntries).None? ==> r == TotalTime(t)
  {
    TotalTime(t) + (if ActiveTimer(t.timeEntries).Some? then elapsed else 0)
  }

  // ---------------------------------------------------------------------
  // Actions

  datatype TimerButton = StartButton | StopButton

  /** What the card's action row holds: the Mark Complete button when
      `markComplete`, and the timer button, if any; a completed task shows
      the completed indicator and neither. */
  datatype Actions = Actions(markComplete: bool, timer: Option<TimerButton>)

  function ActionsFor(t: ClientTask): (a: Actions)
    ensures t.status == Completed ==> a == Actions(false, None)
    ensures t.status != Completed ==> a.markComplete && a.timer.Some?
    ensures t.status != Completed ==> (a.timer == Some(StopButton) <==> ActiveTimer(t.timeEntries).Some?)
    ensures t.status != Completed ==> (a.timer == Some(StartButton) <==> ActiveTimer(t.timeEntries).None?)
  {
    if t.status == Completed then Actions(false, None)
    else Actions(true, Some(if ActiveTimer(t.timeEntries).Some? then StopButton else StartButton))
  }

  /** The update Mark Complete sends: the status alone. */
  const MarkComplete := UpdateTaskDto(None, None, Some(Completed), None, None)

  /** Marking complete changes the stored task's status and nothing else. */
  lemma MarkCompleteChangesOnlyStatus(t: Task)
    ensures TasksService.Merge(t, MarkComplete) == t.(status := Completed)
  {
  }

  // ---------------------------------------------------------------------
  // Editing

  /** The edit form's state: description and category are plain strings. */
  datatype EditedTask = EditedTask(
    title: string,
    description: string,
    category: string,
    priority: Option<Priority>,
    status: Status)

  /** The form filled from the task, a missing description or category as ''. */
  function EditedFrom(t: ClientTask): (e: EditedTask)
    ensures e.title == t.title && e.priority == t.priority && e.status == t.status
    ensures e.description == (if Truthy(t.description) then t.description.value else "")
    ensures e.category == (if Truthy(t.category) then t.category.value else "")
  {
    EditedTask(t.title, OrElse(t.description, ""), OrElse(t.category, ""), t.priority, t.status)
  }

  /** One `onChange` of the form: the named field takes the new value. */
  datatype FieldChange =
    | TitleChange(title: string)
    | DescriptionChange(description: string)
    | CategoryChange(category: string)
    | PriorityChange(priority: Priority)
    | StatusChange(status: Status)

  function ApplyChange(e: EditedTask, c: FieldChange): (r: EditedTask)
    ensures r.title == (if c.TitleChange? then c.title else e.title)
    ensures r.description == (if c.DescriptionChange? then c.description else e.description)
    ensures r.category == (if c.CategoryChange? then c.category else e.category)
    ensures r.priority == (if c.PriorityChange? then Some(c.priority) else e.priority)
    ensures r.status == (if c.StatusChange? then c.status else e.status)
  {
    match c
    case TitleChange(s) => e.(title := s)
    case DescriptionChange(s) => e.(description := s)
    case CategoryChange(s) => e.(category := s)
    case PriorityChange(p) => e.(priority := Some(p))
    case StatusChange(s) => e.(status := s)
  }

  /** The update body a save sends: every field of the form. */
  function EditToUpdate(e: EditedTask): (d: UpdateTaskDto)
    ensures d.title == Some(e.title) && d.description == Some(e.description)
    ensures d.status == Some(e.status) && d.category == Some(e.category) && d.priority == e.priority
  {
    UpdateTaskDto(Some(e.title), Some(e.description), Some(e.status), Some(e.category), e.priority)
  }

  /** Saving an untouched form leaves a listed task as it was, except that
      a missing description or category is stored as ''. */
  lemma SaveUntouchedEdit(x: TasksService.TaskWithEntries)
    ensures var t := x.task;
            TasksService.Merge(t, EditToUpdate(EditedFrom(TaskToClient(x))))
              == t.(description := Some(OrElse(t.description, "")), category := Some(OrElse(t.category, "")))
  {
  }

  /** The characters `String.prototype.trim` removes: white space and line
      terminators. */
  predicate IsJsWhitespace(c: char)
  {
    var n := c as int;
    || n == 0x09 || n == 0x0A || n == 0x0B || n == 0x0C || n == 0x0D || n == 0x20
    || n == 0xA0 || n == 0x1680 || (0x2000 <= n <= 0x200A) || n == 0x2028 || n == 0x2029
    || n == 0x202F || n == 0x205F || n == 0x3000 || n == 0xFEFF
  }

  function TrimStart(s: string): (r: string)
    ensures |r| <= |s| && r == s[|s| - |r|..]
    ensures r == [] || !IsJsWhitespace(r[0])
    ensures forall i :: 0 <= i < |s| - |r| ==> IsJsWhitespace(s[i])
  {
    if s != [] && IsJsWhitespace(s[0]) then
      var r := TrimStart(s[1..]);
      assert s[|s| - |r|..] == s[1..][|s| - 1 - |r|..];
      assert forall i :: 1 <= i < |s| ==> s[i] == s[1..][i - 1];
      r
    else s
  }

  function TrimEnd(s: string): (r: string)
    ensures |r| <= |s| && r == s[..|r|]
    ensures r == [] || !IsJsWhitespace(r[|r| - 1])
    ensures forall i :: |r| <= i < |s| ==> IsJsWhitespace(s[i])
  {
    if s != [] && IsJsWhitespace(s[|s| - 1]) then TrimEnd(s[..|s| - 1]) else s
  }

  /** `s.trim()`: no longer than `s`, with no white space at either end. */
  function Trim(s: string): (r: string)
    ensures |r| <= |s|
    ensures r != [] ==> !IsJsWhitespace(r[0]) && !IsJsWhitespace(r[|r| - 1])
  {
    TrimEnd(TrimStart(s))
  }

  /** A title trims to '' exactly when it is white space only. */
  lemma TrimEmptyIffBlank(s: string)
    ensures Trim(s) == "" <==> forall i :: 0 <= i < |s| ==> IsJsWhitespace(s[i])
  {
    var t := TrimStart(s);
    if t != [] {
      assert !IsJsWhitespace(t[0]);
      assert s[|s| - |t|] == t[0];
    }
  }

  /** The save guard `editedTask.title.trim()`: a title is sent exactly when
      it has a character that is not white space. */
  function MaySave(e: EditedTask): (ok: bool)
    ensures ok <==> exists i :: 0 <= i < |e.title| && !IsJsWhitespace(e.title[i])
  {
    TrimEmptyIffBlank(e.title);
    Trim(e.title) != ""
  }

  class Card {
    var task: ClientTask
    var isEditing: bool
    var edited: EditedTask
    var elapsedTime: int

    constructor (task: ClientTask)
      ensures this.task == task && !isEditing && edited == EditedFrom(task) && elapsedTime == 0
    {
      this.task := task;
      isEditing := false;
      edited := EditedFrom(task);
      elapsedTime := 0;
    }

    /** `handleEdit` */
    method HandleEdit()
      modifies this
      ensures isEditing
      ensures task == old(task) && edited == old(edited) && elapsedTime == old(elapsedTime)
    {
      isEditing := true;
    }

    /** The corrected `handleEdit`: the form is refilled from the current
        task before editing starts, the way `handleCancelEdit` refills it. */
    method HandleEditRefilled()
      modifies this
      ensures isEditing && edited == EditedFrom(task)
      ensures task == old(task) && elapsedTime == old(elapsedTime)
    {
      edited := EditedFrom(task);
      isEditing := true;
    }

    /** A new `task` prop for the mounted card (the list keys cards by task
        id, so an updated task reaches the same card): only the prop changes,
        since `useState` used its argument at mount only. */
    method ReceiveTask(t: ClientTask)
      modifies this
      ensures task == t
      ensures edited == old(edited) && isEditing == old(isEditing) && elapsedTime == old(elapsedTime)
    {
      task := t;
    }

    /** `handleInputChange` */
    method HandleInputChange(c: FieldChange)
      modifies this
      ensures edited == ApplyChange(old(edited), c)
      ensures task == old(task) && isEditing == old(isEditing) && elapsedTime == old(elapsedTime)
    {
      edited := ApplyChange(edited, c);
    }

    /** `handleSaveEdit`: the form goes to `updateTask` only when the title is
        not blank; the card leaves edit mode once that update has resolved
        (`resolved`) and stays in it otherwise. */
    method HandleSaveEdit(resolved: bool) returns (sent: Option<UpdateTaskDto>)
      modifies this
      ensures sent == (if MaySave(old(edited)) then Some(EditToUpdate(old(edited))) else None)
      ensures isEditing == (if sent.Some? && resolved then false else old(isEditing))
      ensures task == old(task) && edited == old(edited) && elapsedTime == old(elapsedTime)
    {
      if Trim(edited.title) != "" {
        sent := Some(EditToUpdate(edited));
        if resolved {
          isEditing := false;
        }
      } else {
        sent := None;
      }
    }

    /** `handleCancelEdit`: the form is refilled from the task. */
    method HandleCancelEdit()
      modifies this
      ensures edited == EditedFrom(task) && !isEditing
      ensures task == old(task) && elapsedTime == old(elapsedTime)
    {
      edited := EditedFrom(task);
      isEditing := false;
    }

    /** One tick of the interval, which runs while a timer is active. */
    method Tick(now: int)
      requires ActiveTimer(task.timeEntries).Some?
      modifies this
      ensures task == old(task) && edited == old(edited) && isEditing == old(isEditing)
      ensures elapsedTime == Elapsed(ActiveTimer(task.timeEntries).value.startTime, now)
    {
      elapsedTime := Elapsed(ActiveTimer(task.timeEntries).value.startTime, now);
    }

    /** The total the card shows. */
    function Displayed(): (r: int)
      reads this
      ensures ActiveTimer(task.timeEntries).None? ==> r == TotalTime(task)
      ensures ActiveTimer(task.timeEntries).Some? ==> r == TotalTime(task) + elapsedTime
    {
      DisplayedTotal(task, elapsedTime)
    }
  }

  /** Mark Complete, then Edit and Save on the same card: the form still holds
      the status the task had at mount, the save sends it, and merging it
      into the stored, completed task undoes the completion. */
  method StaleEditAfterComplete(t0: ClientTask, stored: Task) returns (sent: Option<UpdateTaskDto>)
    requires t0.status != Completed && MaySave(EditedFrom(t0))
    requires stored.status == Completed
    ensures sent == Some(EditToUpdate(EditedFrom(t0)))
    ensures sent.value.status == Some(t0.status)
    ensures TasksService.Merge(stored, sent.value).status == t0.status != Completed
  {
    var card := new Card(t0);
    card.ReceiveTask(t0.(status := Completed));
    card.HandleEdit();
    sent := card.HandleSaveEdit(true);
  }

  /** The same steps with the form refilled on Edit: the save sends the
      completed status, and the stored task stays completed. */
  method RefilledEditAfterComplete(t0: ClientTask, stored: Task) returns (sent: Option<UpdateTaskDto>)
    requires MaySave(EditedFrom(t0))
    requires stored.status == Completed
    ensures sent == Some(EditToUpdate(EditedFrom(t0.(status := Completed))))
    ensures sent.value.status == Some(Completed)
    ensures TasksService.Merge(stored, sent.value).status == Completed
  {
    var card := new Card(t0);
    card.ReceiveTask(t0.(status := Completed));
    card.HandleEditRefilled();
    sent := card.HandleSaveEdit(true);
  }
}
