/** The task service: an owner-scoped task store with one timer per task.
    A task is Idle when none of its time entries is open (has no end time)
    and Running when exactly one is; `StartTimer` and `StopTimer` move it
    between the two. The clock is the parameter `now` (milliseconds). */
module TasksService {
  import opened Common
  import opened Entities

  /** A task as the repository returns it with its `timeEntries` relation loaded. */
  datatype TaskWithEntries = TaskWithEntries(task: Task, timeEntries: seq<TimeEntry>)

  /** The query parameters of `findAll`; each one filters only when it is truthy. */
  datatype TaskFilter = TaskFilter(
    status: Option<Status>,
    category: Option<string>,
    priority: Option<string>,
    search: Option<string>)

  const NoFilter := TaskFilter(None, None, None, None)

  const TaskNotFound := NotFound("Task not found")
  const TimerAlreadyRunning := BadRequest("Timer is already running for this task")
  const NoActiveTimer := BadRequest("No active timer found for this task")

  predicate OccursAt(hay: string, needle: string, i: int)
  {
    0 <= i && i + |needle| <= |hay| && hay[i..i + |needle|] == needle
  }

  /** `needle` is a substring of `hay`. */
  predicate Contains(hay: string, needle: string)
  {
    exists i | 0 <= i <= |hay| :: OccursAt(hay, needle, i)
  }

  /** The `where` clause of `findAll` beyond the owner: the filters,
      AND-combined. With no truthy filter every task matches, and a task
      matching a search has a title at least as long as it. */
  function Matches(t: Task, f: TaskFilter): (ok: bool)
    ensures f.status.None? && !Truthy(f.category) && !Truthy(f.priority) && !Truthy(f.search) ==> ok
    ensures ok && Truthy(f.search) ==> |f.search.value| <= |t.title|
  {
    && (f.status.Some? ==> t.status == f.status.value)
    && (Truthy(f.category) ==> t.category == f.category)
    && (Truthy(f.priority) ==> PriorityName(t.priority) == f.priority.value)
    && (Truthy(f.search) ==> Contains(t.title, f.search.value))
  }

  /** The fields of a task after `Object.assign(task, dto)`. */
  function Merge(t: Task, d: UpdateTaskDto): (r: Task)
    ensures r.id == t.id && r.userId == t.userId
    ensures r.createdAt == t.createdAt && r.updatedAt == t.updatedAt
    ensures d.title.Some? ==> r.title == d.title.value
    ensures d.title.None? ==> r.title == t.title
    ensures d.description.Some? ==> r.description == d.description
    ensures d.description.None? ==> r.description == t.description
    ensures d.status.Some? ==> r.status == d.status.value
    ensures d.status.None? ==> r.status == t.status
    ensures d.category.Some? ==> r.category == d.category
    ensures d.category.None? ==> r.category == t.category
    ensures d.priority.Some? ==> r.priority == d.priority.value
    ensures d.priority.None? ==> r.priority == t.priority
  {
    t.(title := if d.title.Some? then d.title.value else t.title,
       description := if d.description.Some? then d.description else t.description,
       status := if d.status.Some? then d.status.value else t.status,
       category := if d.category.Some? then d.category else t.category,
       priority := if d.priority.Some? then d.priority.value else t.priority)
  }

  /** Applying the same update twice is applying it once. */
  lemma MergeIdempotent(t: Task, d: UpdateTaskDto)
    ensures Merge(Merge(t, d), d) == Merge(t, d)
  {
  }

  /** An update with no fields leaves the task as it was. */
  lemma MergeNothing(t: Task)
    ensures Merge(t, UpdateTaskDto(None, None, None, None, None)) == t
  {
  }

  // ---------------------------------------------------------------------
  // Time entries of one task

  /** The entries of task `t`, in store order (`find({ where: { taskId } })`). */
  function EntriesFor(es: seq<TimeEntry>, t: string): (r: seq<TimeEntry>)
    ensures forall e :: e in r <==> e in es && e.taskId == t
  {
    if es == [] then []
    else (if es[0].taskId == t then [es[0]] else []) + EntriesFor(es[1..], t)
  }

  /** The entries that do not belong to task `t` (what the cascade leaves). */
  function WithoutTask(es: seq<TimeEntry>, t: string): (r: seq<TimeEntry>)
    ensures forall e :: e in r <==> e in es && e.taskId != t
  {
    if es == [] then []
    else (if es[0].taskId != t then [es[0]] else []) + WithoutTask(es[1..], t)
  }

  /** `reduce((total, e) => total + (e.duration || 0), 0)`; the column is
      never null, so `|| 0` changes nothing. */
  function SumDurations(es: seq<TimeEntry>): int
  {
    if es == [] then 0 else es[0].duration + SumDurations(es[1..])
  }

  /** 1 when `e` is an open entry of task `t`. */
  function OpenMark(e: TimeEntry, t: string): nat
  {
    if e.taskId == t && IsOpen(e) then 1 else 0
  }

  /** The number of open entries of task `t`. */
  function OpenCount(es: seq<TimeEntry>, t: string): nat
  {
    if es == [] then 0 else OpenMark(es[0], t) + OpenCount(es[1..], t)
  }

  /** The seconds recorded by the entries of task `t`. */
  function Seconds(es: seq<TimeEntry>, t: string): int
  {
    if es == [] then 0
    else (if es[0].taskId == t then es[0].duration else 0) + Seconds(es[1..], t)
  }

  /** Invariant of the timer state machine: at most one running timer per task. */
  ghost predicate AtMostOneOpen(es: seq<TimeEntry>)
  {
    forall t :: OpenCount(es, t) <= 1
  }

  /** The open entry the `endTime: IsNull()` query finds: the first one. */
  function FirstOpen(es: seq<TimeEntry>, t: string): (r: Option<nat>)
    ensures r.None? <==> OpenCount(es, t) == 0
    ensures r.Some? ==> r.value < |es| && es[r.value].taskId == t && IsOpen(es[r.value])
    ensures r.Some? ==> forall j :: 0 <= j < r.value ==> OpenMark(es[j], t) == 0
  {
    if es == [] then None
    else if OpenMark(es[0], t) == 1 then Some(0)
    else match FirstOpen(es[1..], t)
      case None => None
      case Some(i) => Some(i + 1)
  }

  lemma {:induction false} SecondsOfEntries(es: seq<TimeEntry>, t: string)
    ensures SumDurations(EntriesFor(es, t)) == Seconds(es, t)
  {
    if es != [] {
      SecondsOfEntries(es[1..], t);
      SumDurationsAppend(if es[0].taskId == t then [es[0]] else [], EntriesFor(es[1..], t));
    }
  }

  lemma {:induction false} SumDurationsAppend(a: seq<TimeEntry>, b: seq<TimeEntry>)
    ensures SumDurations(a + b) == SumDurations(a) + SumDurations(b)
  {
    if a != [] {
      assert (a + b)[0] == a[0];
      assert (a + b)[1..] == a[1..] + b;
      SumDurationsAppend(a[1..], b);
    } else {
      assert a + b == b;
    }
  }

  lemma {:induction false} EntriesForAppend(es: seq<TimeEntry>, e: TimeEntry, t: string)
    ensures EntriesFor(es + [e], t) == EntriesFor(es, t) + (if e.taskId == t then [e] else [])
  {
    if es != [] {
      assert (es + [e])[1..] == es[1..] + [e];
      EntriesForAppend(es[1..], e, t);
    }
  }

  lemma {:induction false} OpenCountAppend(es: seq<TimeEntry>, e: TimeEntry, t: string)
    ensures OpenCount(es + [e], t) == OpenCount(es, t) + OpenMark(e, t)
  {
    if es != [] {
      assert (es + [e])[1..] == es[1..] + [e];
      OpenCountAppend(es[1..], e, t);
    }
  }

  /** On an idle task, the entry a start appends is the one a stop finds. */
  lemma {:induction false} FirstOpenAfterIdle(es: seq<TimeEntry>, e: TimeEntry, t: string)
    requires OpenCount(es, t) == 0 && e.taskId == t && IsOpen(e)
    ensures FirstOpen(es + [e], t) == Some(|es|)
  {
    if es != [] {
      assert (es + [e])[1..] == es[1..] + [e];
      assert (es + [e])[0] == es[0];
      FirstOpenAfterIdle(es[1..], e, t);
    }
  }

  lemma {:induction false} SecondsAppend(es: seq<TimeEntry>, e: TimeEntry, t: string)
    ensures Seconds(es + [e], t) == Seconds(es, t) + (if e.taskId == t then e.duration else 0)
  {
    if es != [] {
      assert (es + [e])[1..] == es[1..] + [e];
      SecondsAppend(es[1..], e, t);
    }
  }

  lemma {:induction false} OpenCountUpdate(es: seq<TimeEntry>, i: nat, v: TimeEntry, t: string)
    requires i < |es|
    ensures OpenCount(es[i := v], t) == OpenCount(es, t) - OpenMark(es[i], t) + OpenMark(v, t)
  {
    if i == 0 {
      assert es[i := v][1..] == es[1..];
    } else {
      assert es[i := v][1..] == es[1..][i - 1 := v];
      OpenCountUpdate(es[1..], i - 1, v, t);
    }
  }

  lemma {:induction false} SecondsUpdate(es: seq<TimeEntry>, i: nat, v: TimeEntry, t: string)
    requires i < |es|
    ensures Seconds(es[i := v], t) ==
            Seconds(es, t) - (if es[i].taskId == t then es[i].duration else 0)
                           + (if v.taskId == t then v.duration else 0)
  {
    if i == 0 {
      assert es[i := v][1..] == es[1..];
    } else {
      assert es[i := v][1..] == es[1..][i - 1 := v];
      SecondsUpdate(es[1..], i - 1, v, t);
    }
  }

  lemma {:induction false} EntriesForUpdateOther(es: seq<TimeEntry>, i: nat, v: TimeEntry, t: string)
    requires i < |es| && es[i].taskId != t && v.taskId != t
    ensures EntriesFor(es[i := v], t) == EntriesFor(es, t)
  {
    if i == 0 {
      assert es[i := v][1..] == es[1..];
    } else {
      assert es[i := v][1..] == es[1..][i - 1 := v];
      EntriesForUpdateOther(es[1..], i - 1, v, t);
    }
  }

  /** The cascade removes every open entry of the deleted task and no other. */
  lemma {:induction false} OpenCountWithout(es: seq<TimeEntry>, gone: string, t: string)
    ensures OpenCount(WithoutTask(es, gone), t) == if t == gone then 0 else OpenCount(es, t)
  {
    if es != [] {
      OpenCountWithout(es[1..], gone, t);
      var head := if es[0].taskId != gone then [es[0]] else [];
      assert WithoutTask(es, gone) == head + WithoutTask(es[1..], gone);
      assert head != [] ==> head[1..] == [];
      OpenCountSplit(head, WithoutTask(es[1..], gone), t);
    }
  }

  /** A task that no entry references has no entries and no open one. */
  lemma {:induction false} AbsentTask(es: seq<TimeEntry>, t: string)
    requires forall e :: e in es ==> e.taskId != t
    ensures EntriesFor(es, t) == [] && OpenCount(es, t) == 0
  {
    if es != [] {
      assert es[0] in es;
      assert forall e :: e in es[1..] ==> e in es;
      AbsentTask(es[1..], t);
    }
  }

  lemma {:induction false} OpenCountSplit(a: seq<TimeEntry>, b: seq<TimeEntry>, t: string)
    ensures OpenCount(a + b, t) == OpenCount(a, t) + OpenCount(b, t)
  {
    if a != [] {
      assert (a + b)[1..] == a[1..] + b;
      OpenCountSplit(a[1..], b, t);
    } else {
      assert a + b == b;
    }
  }

  /** The cascade leaves the entries of every other task exactly as they were. */
  lemma {:induction false} EntriesForWithout(es: seq<TimeEntry>, gone: string, t: string)
    ensures EntriesFor(WithoutTask(es, gone), t) == if t == gone then [] else EntriesFor(es, t)
  {
    if es != [] {
      EntriesForWithout(es[1..], gone, t);
      var head := if es[0].taskId != gone then [es[0]] else [];
      assert WithoutTask(es, gone) == head + WithoutTask(es[1..], gone);
      assert head != [] ==> head[1..] == [];
      EntriesForSplit(head, WithoutTask(es[1..], gone), t);
    }
  }

  lemma {:induction false} EntriesForSplit(a: seq<TimeEntry>, b: seq<TimeEntry>, t: string)
    ensures EntriesFor(a + b, t) == EntriesFor(a, t) + EntriesFor(b, t)
  {
    if a != [] {
      assert (a + b)[1..] == a[1..] + b;
      EntriesForSplit(a[1..], b, t);
    } else {
      assert a + b == b;
    }
  }

  // ---------------------------------------------------------------------
  // Ordering of findAll: createdAt descending

  predicate CreatedDesc(s: seq<TaskWithEntries>)
  {
    forall i, j :: 0 <= i < j < |s| ==> s[i].task.createdAt >= s[j].task.createdAt
  }

  function InsertDesc(x: TaskWithEntries, s: seq<TaskWithEntries>): (r: seq<TaskWithEntries>)
    ensures multiset(r) == multiset(s) + multiset{x}
  {
    if s == [] then [x]
    else if x.task.createdAt >= s[0].task.createdAt then [x] + s
    else
      assert s == [s[0]] + s[1..];
      [s[0]] + InsertDesc(x, s[1..])
  }

  /** The entry stopped at `now`: its end time set and the whole seconds
      since its start, rounded down, recorded as its duration. */
  function CloseEntry(e: TimeEntry, now: int): (r: TimeEntry)
    ensures !IsOpen(r) && r.taskId == e.taskId && r.startTime == e.startTime
    ensures r == e.(endTime := Some(now), duration := r.duration)
    ensures 1000 * r.duration <= now - e.startTime < 1000 * r.duration + 1000
  {
    e.(endTime := Some(now), duration := (now - e.startTime) / 1000)
  }

  /** Replacing the first open entry of task `t` by a closed one leaves no
      entry of `t` open, keeps the store's entry invariants, and adds the
      closed entry's seconds to `t`'s. */
  lemma CloseFirstOpen(es: seq<TimeEntry>, tasks: map<string, Task>, t: string, i: nat, closed: TimeEntry, after: seq<TimeEntry>)
    requires FirstOpen(es, t) == Some(i) && AtMostOneOpen(es)
    requires closed.taskId == t && !IsOpen(closed) && after == es[i := closed]
    requires forall k :: 0 <= k < |es| ==> es[k].taskId in tasks
    requires forall k :: 0 <= k < |es| && IsOpen(es[k]) ==> es[k].duration == 0
    ensures AtMostOneOpen(after)
    ensures forall k :: 0 <= k < |after| ==> after[k].taskId in tasks
    ensures forall k :: 0 <= k < |after| && IsOpen(after[k]) ==> after[k].duration == 0
    ensures OpenCount(after, t) == 0
    ensures Seconds(after, t) == Seconds(es, t) + closed.duration
  {
    forall u ensures OpenCount(after, u) <= 1 {
      OpenCountUpdate(es, i, closed, u);
      assert OpenCount(es, u) <= 1;
    }
    OpenCountUpdate(es, i, closed, t);
    assert OpenCount(es, t) <= 1;
    assert OpenMark(es[i], t) == 1 && OpenMark(closed, t) == 0;
    SecondsUpdate(es, i, closed, t);
    forall k | 0 <= k < |after|
      ensures after[k].taskId in tasks && (IsOpen(after[k]) ==> after[k].duration == 0)
    {
      assert k != i ==> after[k] == es[k];
    }
  }

  /** Dropping the entries of task `gone` keeps the store's entry invariants
      for the tasks that remain and leaves every other task's entries as
      they were. */
  lemma DropTaskEntries(es: seq<TimeEntry>, tasks: map<string, Task>, gone: string)
    requires AtMostOneOpen(es)
    requires forall k :: 0 <= k < |es| ==> es[k].taskId in tasks
    requires forall k :: 0 <= k < |es| && IsOpen(es[k]) ==> es[k].duration == 0
    ensures AtMostOneOpen(WithoutTask(es, gone))
    ensures forall k :: 0 <= k < |WithoutTask(es, gone)| ==> WithoutTask(es, gone)[k].taskId in tasks - {gone}
    ensures forall k :: 0 <= k < |WithoutTask(es, gone)| && IsOpen(WithoutTask(es, gone)[k]) ==>
              WithoutTask(es, gone)[k].duration == 0
    ensures forall t :: EntriesFor(WithoutTask(es, gone), t) == if t == gone then [] else EntriesFor(es, t)
  {
    var after := WithoutTask(es, gone);
    forall t ensures OpenCount(after, t) <= 1 {
      OpenCountWithout(es, gone, t);
      assert OpenCount(es, t) <= 1;
    }
    forall t ensures EntriesFor(after, t) == if t == gone then [] else EntriesFor(es, t) {
      EntriesForWithout(es, gone, t);
    }
    forall k | 0 <= k < |after|
      ensures after[k].taskId in tasks - {gone} && (IsOpen(after[k]) ==> after[k].duration == 0)
    {
      assert after[k] in es;
      var j :| 0 <= j < |es| && es[j] == after[k];
    }
  }

  /** Inserting below a bound keeps every element below it. */
  lemma InsertDescBelow(x: TaskWithEntries, s: seq<TaskWithEntries>, b: int)
    requires x.task.createdAt <= b
    requires forall i :: 0 <= i < |s| ==> s[i].task.createdAt <= b
    ensures forall i :: 0 <= i < |InsertDesc(x, s)| ==> InsertDesc(x, s)[i].task.createdAt <= b
  {
    var r := InsertDesc(x, s);
    forall i | 0 <= i < |r| ensures r[i].task.createdAt <= b {
      assert r[i] in multiset(r);
      if r[i] != x {
        assert r[i] in multiset(s);
        assert r[i] in s;
      }
    }
  }

  lemma {:induction false} InsertDescSorted(x: TaskWithEntries, s: seq<TaskWithEntries>)
    requires CreatedDesc(s)
    ensures CreatedDesc(InsertDesc(x, s))
  {
    if s != [] && x.task.createdAt < s[0].task.createdAt {
      var tail := s[1..];
      var rest := InsertDesc(x, tail);
      InsertDescSorted(x, tail);
      assert forall i :: 0 <= i < |tail| ==> tail[i] == s[i + 1];
      InsertDescBelow(x, tail, s[0].task.createdAt);
      var r := InsertDesc(x, s);
      assert r == [s[0]] + rest;
      forall i, j | 0 <= i < j < |r| ensures r[i].task.createdAt >= r[j].task.createdAt {
        assert r[j] == rest[j - 1];
        if i > 0 {
          assert r[i] == rest[i - 1];
        }
      }
    }
  }

  /** Insertion sort, newest first. */
  function SortDesc(s: seq<TaskWithEntries>): (r: seq<TaskWithEntries>)
    ensures multiset(r) == multiset(s)
    ensures CreatedDesc(r)
  {
    if s == [] then []
    else
      assert s == [s[0]] + s[1..];
      InsertDescSorted(s[0], SortDesc(s[1..]));
      InsertDesc(s[0], SortDesc(s[1..]))
  }

  // ---------------------------------------------------------------------
  // The store

  class TaskStore {
    /** The tasks table, by id. */
    var tasks: map<string, Task>
    /** The time_entries table, in insertion order. */
    var entries: seq<TimeEntry>
    /** Counters from which fresh ids are drawn. */
    var nextTask: nat
    var nextEntry: nat
    /** Column defaults of the task entity. */
    const defaults: TaskDefaults

    ghost predicate Valid()
      reads this
    {
      && (forall id :: id in tasks ==> tasks[id].id == id && id in IdSet(nextTask))
      && (forall i :: 0 <= i < |entries| ==> entries[i].taskId in tasks)
      && AtMostOneOpen(entries)
      && (forall i :: 0 <= i < |entries| && IsOpen(entries[i]) ==> entries[i].duration == 0)
    }

    constructor (defaults: TaskDefaults)
      ensures Valid()
      ensures tasks == map[] && entries == [] && this.defaults == defaults
    {
      tasks := map[];
      entries := [];
      nextTask := 0;
      nextEntry := 0;
      this.defaults := defaults;
    }

    /** The entries loaded with a task. */
    function EntriesOf(id: string): seq<TimeEntry>
      reads this
    {
      EntriesFor(entries, id)
    }

    predicate IsRunning(id: string)
      reads this
    {
      FirstOpen(entries, id).Some?
    }

    /** A running task has exactly one open entry. */
    lemma RunningIsExactlyOne(id: string)
      requires Valid()
      ensures IsRunning(id) <==> OpenCount(entries, id) == 1
      ensures !IsRunning(id) <==> OpenCount(entries, id) == 0
    {
      assert OpenCount(entries, id) <= 1;
    }

    /** `findOne({ where: { id, userId } })`: found only when the id exists and
        belongs to the caller; absent and foreign look the same. */
    function FindOne(id: string, userId: string): (r: Result<TaskWithEntries>)
      reads this
      ensures r.Success? <==> id in tasks && tasks[id].userId == userId
      ensures r.Success? ==> r.value.task == tasks[id] && r.value.timeEntries == EntriesOf(id)
      ensures r.Failure? ==> r.error == TaskNotFound
    {
      if id in tasks && tasks[id].userId == userId then
        Success(TaskWithEntries(tasks[id], EntriesOf(id)))
      else
        Failure(TaskNotFound)
    }

    /** `x` is one of the caller's stored tasks that passes the filters. */
    ghost predicate Listed(x: TaskWithEntries, userId: string, f: TaskFilter)
      reads this
    {
      && x.task.id in tasks && tasks[x.task.id] == x.task
      && x.task.userId == userId && Matches(x.task, f)
      && x.timeEntries == EntriesOf(x.task.id)
    }

    /** The tasks with the given ids that are the caller's and pass the filters. */
    function Select(ids: seq<string>, userId: string, f: TaskFilter): (r: seq<TaskWithEntries>)
      reads this
      requires Valid()
      requires forall id :: id in ids ==> id in tasks
      requires forall i, j :: 0 <= i < j < |ids| ==> ids[i] != ids[j]
      ensures forall x :: x in r <==> Listed(x, userId, f) && x.task.id in ids
      ensures forall x :: multiset(r)[x] <= 1
    {
      if ids == [] then []
      else
        var t := tasks[ids[0]];
        var rest := Select(ids[1..], userId, f);
        if t.userId == userId && Matches(t, f) then
          var x := TaskWithEntries(t, EntriesOf(t.id));
          assert x !in rest;
          [x] + rest
        else rest
    }

    /** The caller's tasks, in id order (`user.tasks` with its relations). */
    function TasksOf(userId: string): (r: seq<TaskWithEntries>)
      reads this
      requires Valid()
      ensures forall x :: x in r <==> Listed(x, userId, NoFilter)
      ensures forall x :: multiset(r)[x] <= 1
    {
      Select(KeysBelow(tasks, nextTask), userId, NoFilter)
    }

    /** `findAll`: each of the caller's tasks that passes every supplied filter,
        once, newest first. */
    function FindAll(userId: string, f: TaskFilter): (r: seq<TaskWithEntries>)
      reads this
      requires Valid()
      ensures forall x :: x in r <==> Listed(x, userId, f)
      ensures forall x :: multiset(r)[x] <= 1
      ensures CreatedDesc(r)
    {
      var s := Select(KeysBelow(tasks, nextTask), userId, f);
      var r := SortDesc(s);
      assert forall x :: x in r <==> x in multiset(s);
      r
    }

    /** `getTotalTime`: the seconds stored on the task's entries (no owner check). */
    function TotalTime(taskId: string): (r: int)
      reads this
      ensures r == Seconds(entries, taskId)
      ensures EntriesOf(taskId) == [] ==> r == 0
    {
      SecondsOfEntries(entries, taskId);
      SumDurations(EntriesOf(taskId))
    }

    method Create(userId: string, dto: CreateTaskDto, now: int) returns (t: Task)
      requires Valid()
      modifies this
      ensures Valid()
      ensures t.id !in old(tasks)
      ensures t == Task(t.id, userId, dto.title, dto.description, defaults.status, dto.category,
                        if dto.priority.Some? then dto.priority.value else defaults.priority, now, now)
      ensures tasks == old(tasks)[t.id := t] && entries == old(entries)
      ensures EntriesOf(t.id) == []
      ensures !IsRunning(t.id)
    {
      var id := IdOf(nextTask);
      IdOfFresh(nextTask, nextTask);
      t := Task(id, userId, dto.title, dto.description, defaults.status, dto.category,
                if dto.priority.Some? then dto.priority.value else defaults.priority, now, now);
      tasks := tasks[id := t];
      nextTask := nextTask + 1;
      forall e | e in entries ensures e.taskId != id {
        var i :| 0 <= i < |entries| && entries[i] == e;
      }
      AbsentTask(entries, id);
    }

    method Update(id: string, userId: string, dto: UpdateTaskDto, now: int) returns (r: Result<TaskWithEntries>)
      requires Valid()
      modifies this
      ensures Valid()
      ensures old(FindOne(id, userId)).Failure? ==> r == Failure(TaskNotFound) && unchanged(this)
      ensures old(FindOne(id, userId)).Success? ==>
                && tasks == old(tasks)[id := Merge(old(tasks[id]), dto).(updatedAt := now)]
                && entries == old(entries)
                && r == Success(TaskWithEntries(tasks[id], EntriesOf(id)))
    {
      var found := FindOne(id, userId);
      if found.Failure? {
        return Failure(found.error);
      }
      var t := Merge(found.value.task, dto).(updatedAt := now);
      tasks := tasks[id := t];
      r := Success(TaskWithEntries(t, EntriesOf(id)));
    }

    method Remove(id: string, userId: string) returns (r: Result<()>)
      requires Valid()
      modifies this
      ensures Valid()
      ensures old(FindOne(id, userId)).Failure? ==> r == Failure(TaskNotFound) && unchanged(this)
      ensures old(FindOne(id, userId)).Success? ==>
                && r == Success(())
                && tasks == old(tasks) - {id}
                && entries == WithoutTask(old(entries), id)
                && EntriesOf(id) == []
                && (forall other :: other != id ==> EntriesOf(other) == old(EntriesOf(other)))
    {
      var found := FindOne(id, userId);
      if found.Failure? {
        return Failure(found.error);
      }
      DropTaskEntries(entries, tasks, id);
      tasks := tasks - {id};
      entries := WithoutTask(entries, id);
      r := Success(());
    }

    method StartTimer(id: string, userId: string, now: int) returns (r: Result<TimeEntry>)
      requires Valid()
      modifies this
      ensures Valid()
      ensures old(FindOne(id, userId)).Failure? ==> r == Failure(TaskNotFound) && unchanged(this)
      ensures old(FindOne(id, userId)).Success? && old(IsRunning(id)) ==>
                r == Failure(TimerAlreadyRunning) && unchanged(this)
      ensures old(FindOne(id, userId)).Success? && !old(IsRunning(id)) ==>
                && r.Success? && r.value == TimeEntry(r.value.id, id, now, None, 0)
                && entries == old(entries) + [r.value]
                && tasks == old(tasks)[id := old(tasks[id]).(status := InProgress, updatedAt := now)]
                && IsRunning(id)
                && FirstOpen(entries, id) == Some(|old(entries)|)
                && TotalTime(id) == old(TotalTime(id))
    {
      var found := FindOne(id, userId);
      if found.Failure? {
        return Failure(found.error);
      }
      if FirstOpen(entries, id).Some? {
        return Failure(TimerAlreadyRunning);
      }
      var t := found.value.task.(status := InProgress, updatedAt := now);
      tasks := tasks[id := t];
      var e := TimeEntry(IdOf(nextEntry), id, now, None, 0);
      ghost var before := entries;
      entries := entries + [e];
      nextEntry := nextEntry + 1;
      forall u ensures OpenCount(entries, u) <= 1 {
        OpenCountAppend(before, e, u);
        assert OpenCount(before, u) <= 1;
      }
      forall k | 0 <= k < |entries|
        ensures entries[k].taskId in tasks && (IsOpen(entries[k]) ==> entries[k].duration == 0)
      {
        if k < |before| {
          assert entries[k] == before[k];
        }
      }
      OpenCountAppend(before, e, id);
      FirstOpenAfterIdle(before, e, id);
      SecondsAppend(before, e, id);
      r := Success(e);
    }

    method StopTimer(id: string, userId: string, now: int) returns (r: Result<TimeEntry>)
      requires Valid()
      modifies this
      ensures Valid()
      ensures old(FindOne(id, userId)).Failure? ==> r == Failure(TaskNotFound) && unchanged(this)
      ensures old(FindOne(id, userId)).Success? && !old(IsRunning(id)) ==>
                r == Failure(NoActiveTimer) && unchanged(this)
      ensures old(FindOne(id, userId)).Success? && old(IsRunning(id)) ==>
                var i := old(FirstOpen(entries, id)).value;
                && r == Success(CloseEntry(old(entries[i]), now))
                && entries == old(entries)[i := r.value]
                && tasks == old(tasks)
                && !IsRunning(id)
                && TotalTime(id) == old(TotalTime(id)) + r.value.duration
    {
      var found := FindOne(id, userId);
      if found.Failure? {
        return Failure(found.error);
      }
      var open := FirstOpen(entries, id);
      if open.None? {
        return Failure(NoActiveTimer);
      }
      var i := open.value;
      var e := entries[i];
      var closed := CloseEntry(e, now);
      CloseFirstOpen(entries, tasks, id, i, closed, entries[i := closed]);
      entries := entries[i := closed];
      r := Success(closed);
    }
  }
}
