/** Timer sessions on the task store: starting and then stopping a task's
    timer, the way the client's Start and Stop buttons drive it. */
module Scenarios {
  import opened Common
  import opened Entities
  import opened TasksService

  /** Replacing the element just appended is appending the replacement. */
  lemma ReplaceLast<T>(s: seq<T>, x: T, y: T)
    ensures (s + [x])[|s| := y] == s + [y]
  {
    assert forall i :: 0 <= i < |s| ==> (s + [x])[|s| := y][i] == s[i];
  }

  /** A start at `started` and a stop at `stopped` on an idle task leave it
      idle and in progress, with one more closed entry of `floor((stopped -
      started) / 1000)` seconds at the end of the table (by `SecondsAppend`,
      the task's total grows by exactly that). */
  method TimerSession(store: TaskStore, id: string, userId: string, started: int, stopped: int)
    returns (entry: TimeEntry)
    requires store.Valid()
    requires store.FindOne(id, userId).Success? && !store.IsRunning(id)
    modifies store
    ensures store.Valid()
    ensures entry.taskId == id && entry.startTime == started && entry.endTime == Some(stopped)
    ensures entry.duration == (stopped - started) / 1000
    ensures store.entries == old(store.entries) + [entry]
    ensures !store.IsRunning(id)
    ensures id in store.tasks && store.tasks[id].status == InProgress
  {
    ghost var idle := store.entries;
    var begun := store.StartTimer(id, userId, started);
    assert store.FindOne(id, userId).Success? && store.IsRunning(id);
    assert id in store.tasks && store.tasks[id].status == InProgress;
    ghost var running := store.entries;
    assert running == idle + [begun.value];
    assert FirstOpen(running, id) == Some(|idle|) && running[|idle|] == begun.value;
    var closed := store.StopTimer(id, userId, stopped);
    entry := closed.value;
    assert entry == CloseEntry(begun.value, stopped);
    ReplaceLast(idle, begun.value, entry);
  }

  /** A second start while the timer runs is refused and changes nothing:
      the store holds exactly what the first start left, one open entry
      begun at `first` and the task in progress. */
  method DoubleStart(store: TaskStore, id: string, userId: string, first: int, second: int)
    returns (begun: TimeEntry, r: Result<TimeEntry>)
    requires store.Valid()
    requires store.FindOne(id, userId).Success? && !store.IsRunning(id)
    modifies store
    ensures r == Failure(TimerAlreadyRunning)
    ensures store.Valid() && store.IsRunning(id)
    ensures begun.taskId == id && begun.startTime == first && begun.endTime.None? && begun.duration == 0
    ensures store.entries == old(store.entries) + [begun]
    ensures id in old(store.tasks)
    ensures store.tasks == old(store.tasks)[id := old(store.tasks[id]).(status := InProgress, updatedAt := first)]
  {
    var started := store.StartTimer(id, userId, first);
    begun := started.value;
    assert store.FindOne(id, userId).Success?;
    r := store.StartTimer(id, userId, second);
  }
}
