/** The client's view of tasks and time entries, as they arrive as JSON.
    Times are milliseconds since the epoch. A task returned by a create
    request carries no `timeEntries` (the relation is not loaded), so the
    list is optional as the client's optional chaining expects; a missing
    duration or priority is kept optional for the same reason. */
module ClientTypes {
  import opened Common
  import opened Entities
  import TasksService

  datatype ClientEntry = ClientEntry(
    id: string,
    taskId: string,
    startTime: int,
    endTime: Option<int>,
    duration: Option<int>)

  datatype ClientTask = ClientTask(
    id: string,
    title: string,
    description: Option<string>,
    status: Status,
    category: Option<string>,
    priority: Option<Priority>,
    userId: string,
    timeEntries: Option<seq<ClientEntry>>,
    createdAt: int,
    updatedAt: Option<int>)

  /** `e.duration || 0` */
  function DurationOrZero(e: ClientEntry): (d: int)
    ensures e.duration.Some? ==> d == e.duration.value
    ensures e.duration.None? ==> d == 0
  {
    if e.duration.Some? then e.duration.value else 0
  }

  /** No entry holds a negative duration. */
  predicate NonNegativeDurations(es: seq<ClientEntry>)
  {
    forall i :: 0 <= i < |es| ==> DurationOrZero(es[i]) >= 0
  }

  /** `reduce((sum, e) => sum + (e.duration || 0), 0)`: 0 for no entries, and
      never negative when no duration is. */
  function ReduceDurations(es: seq<ClientEntry>): (r: int)
    ensures es == [] ==> r == 0
    ensures NonNegativeDurations(es) ==> r >= 0
  {
    if es == [] then 0 else ReduceDurations(es[..|es| - 1]) + DurationOrZero(es[|es| - 1])
  }

  /** An entry as the server sends it. */
  function EntryToClient(e: TimeEntry): (c: ClientEntry)
    ensures c.id == e.id && c.taskId == e.taskId && c.startTime == e.startTime && c.endTime == e.endTime
    ensures c.duration == Some(e.duration)
  {
    ClientEntry(e.id, e.taskId, e.startTime, e.endTime, Some(e.duration))
  }

  function EntriesToClient(es: seq<TimeEntry>): (cs: seq<ClientEntry>)
    ensures |cs| == |es|
    ensures forall i :: 0 <= i < |es| ==> cs[i] == EntryToClient(es[i])
  {
    if es == [] then [] else EntriesToClient(es[..|es| - 1]) + [EntryToClient(es[|es| - 1])]
  }

  /** A listed task as the server sends it, with its entries. */
  function TaskToClient(x: TasksService.TaskWithEntries): (c: ClientTask)
    ensures c.id == x.task.id && c.title == x.task.title && c.status == x.task.status
    ensures c.description == x.task.description && c.category == x.task.category
    ensures c.priority == Some(x.task.priority) && c.userId == x.task.userId
    ensures c.timeEntries == Some(EntriesToClient(x.timeEntries))
    ensures c.createdAt == x.task.createdAt && c.updatedAt == Some(x.task.updatedAt)
  {
    var t := x.task;
    ClientTask(t.id, t.title, t.description, t.status, t.category, Some(t.priority), t.userId,
               Some(EntriesToClient(x.timeEntries)), t.createdAt, Some(t.updatedAt))
  }

  lemma {:induction false} ReduceDurationsPrepend(e: ClientEntry, es: seq<ClientEntry>)
    ensures ReduceDurations([e] + es) == DurationOrZero(e) + ReduceDurations(es)
    decreases |es|
  {
    if es != [] {
      var n := |es| - 1;
      assert ([e] + es)[..|es|] == [e] + es[..n];
      ReduceDurationsPrepend(e, es[..n]);
    }
  }

  /** The client's sum over the entries the server sent is the server's sum. */
  lemma {:induction false} ClientSumMatchesServer(es: seq<TimeEntry>)
    ensures ReduceDurations(EntriesToClient(es)) == TasksService.SumDurations(es)
  {
    if es != [] {
      var n := |es| - 1;
      ClientSumMatchesServer(es[..n]);
      assert es == es[..n] + [es[n]];
      TasksService.SumDurationsAppend(es[..n], [es[n]]);
      assert TasksService.SumDurations([es[n]]) == es[n].duration;
    }
  }
}
