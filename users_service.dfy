/** The user service: the user store with its unique e-mail column, the two
    lookups, user creation with a hashed password, and the productivity
    statistics computed over a user's tasks and time entries. The day and
    week boundaries are parameters (milliseconds); hours are reported in
    tenths. */
module UsersService {
  import opened Common
  import opened Entities
  import opened TasksService

  const UserNotFound := NotFound("User not found")
  /** The database rejects a second row with the same e-mail (the column is
      unique); the text of its error is not modelled. */
  const DuplicateEmail := QueryFailed("duplicate email")

  /** The object `getStats` returns; the two hour figures are in tenths of an hour. */
  datatype Stats = Stats(
    tasksCompletedToday: nat,
    tasksCompletedWeek: nat,
    totalHoursTodayTenths: int,
    totalHoursWeekTenths: int,
    totalTasks: nat,
    completedTasks: nat)

  /** `Math.round((s / 3600) * 10) / 10`, in tenths: the nearest tenth of an
      hour, a half rounding up. */
  function Tenths(s: int): (r: int)
    ensures 360 * r - 180 <= s < 360 * r + 180
  {
    (s + 180) / 360
  }

  /** Rounding keeps the order of the rounded amounts. */
  lemma TenthsMonotone(a: int, b: int)
    requires a <= b
    ensures Tenths(a) <= Tenths(b)
  {
  }

  predicate CompletedSince(t: Task, boundary: int)
  {
    t.status == Completed && t.updatedAt >= boundary
  }

  /** `tasks.filter(t => t.status === 'completed' && t.updatedAt >= boundary).length` */
  function CountCompletedSince(ts: seq<TaskWithEntries>, boundary: int): nat
  {
    if ts == [] then 0
    else (if CompletedSince(ts[0].task, boundary) then 1 else 0) + CountCompletedSince(ts[1..], boundary)
  }

  /** `tasks.filter(t => t.status === 'completed').length` */
  function CountCompleted(ts: seq<TaskWithEntries>): nat
  {
    if ts == [] then 0
    else (if ts[0].task.status == Completed then 1 else 0) + CountCompleted(ts[1..])
  }

  /** The seconds of the entries that started at or after `boundary`. */
  function EntrySecondsSince(es: seq<TimeEntry>, boundary: int): int
  {
    if es == [] then 0
    else
      var last := es[|es| - 1];
      EntrySecondsSince(es[..|es| - 1], boundary) + (if last.startTime >= boundary then last.duration else 0)
  }

  /** The seconds tracked across the tasks by entries started at or after `boundary`. */
  function SecondsSince(ts: seq<TaskWithEntries>, boundary: int): int
  {
    if ts == [] then 0
    else SecondsSince(ts[..|ts| - 1], boundary) + EntrySecondsSince(ts[|ts| - 1].timeEntries, boundary)
  }

  /** The statistics of a list of tasks for the given day and week boundaries:
      every task counted, no more completed tasks than tasks, and each hour
      figure the nearest tenth of an hour to its window's seconds. */
  function StatsOf(ts: seq<TaskWithEntries>, todayStart: int, weekStart: int): (r: Stats)
    ensures r.totalTasks == |ts| && r.completedTasks <= r.totalTasks
    ensures 360 * r.totalHoursTodayTenths - 180 <= SecondsSince(ts, todayStart) < 360 * r.totalHoursTodayTenths + 180
    ensures 360 * r.totalHoursWeekTenths - 180 <= SecondsSince(ts, weekStart) < 360 * r.totalHoursWeekTenths + 180
  {
    CompletedCountsOrdered(ts, weekStart, weekStart);
    Stats(
      CountCompletedSince(ts, todayStart),
      CountCompletedSince(ts, weekStart),
      Tenths(SecondsSince(ts, todayStart)),
      Tenths(SecondsSince(ts, weekStart)),
      |ts|,
      CountCompleted(ts))
  }

  /** Completed today is completed this week is completed at all is a task. */
  lemma {:induction false} CompletedCountsOrdered(ts: seq<TaskWithEntries>, todayStart: int, weekStart: int)
    requires weekStart <= todayStart
    ensures CountCompletedSince(ts, todayStart) <= CountCompletedSince(ts, weekStart)
    ensures CountCompletedSince(ts, weekStart) <= CountCompleted(ts) <= |ts|
  {
    if ts != [] {
      CompletedCountsOrdered(ts[1..], todayStart, weekStart);
    }
  }

  ghost predicate DurationsNonNegative(ts: seq<TaskWithEntries>)
  {
    forall i, j :: 0 <= i < |ts| && 0 <= j < |ts[i].timeEntries| ==> ts[i].timeEntries[j].duration >= 0
  }

  lemma {:induction false} EntrySecondsMonotone(es: seq<TimeEntry>, todayStart: int, weekStart: int)
    requires weekStart <= todayStart
    requires forall j :: 0 <= j < |es| ==> es[j].duration >= 0
    ensures EntrySecondsSince(es, todayStart) <= EntrySecondsSince(es, weekStart)
  {
    if es != [] {
      EntrySecondsMonotone(es[..|es| - 1], todayStart, weekStart);
    }
  }

  /** With no negative durations the day's seconds never exceed the week's. */
  lemma {:induction false} SecondsSinceMonotone(ts: seq<TaskWithEntries>, todayStart: int, weekStart: int)
    requires weekStart <= todayStart
    requires DurationsNonNegative(ts)
    ensures SecondsSince(ts, todayStart) <= SecondsSince(ts, weekStart)
  {
    if ts != [] {
      var n := |ts| - 1;
      assert DurationsNonNegative(ts[..n]) by {
        forall i, j | 0 <= i < n && 0 <= j < |ts[..n][i].timeEntries|
          ensures ts[..n][i].timeEntries[j].duration >= 0
        {
          assert ts[..n][i] == ts[i];
        }
      }
      SecondsSinceMonotone(ts[..n], todayStart, weekStart);
      EntrySecondsMonotone(ts[n].timeEntries, todayStart, weekStart);
    }
  }

  /** The orderings the dashboard relies on: today within the week within the total. */
  lemma StatsOrdered(ts: seq<TaskWithEntries>, todayStart: int, weekStart: int)
    requires weekStart <= todayStart
    requires DurationsNonNegative(ts)
    ensures var s := StatsOf(ts, todayStart, weekStart);
            && s.tasksCompletedToday <= s.tasksCompletedWeek <= s.completedTasks <= s.totalTasks
            && s.totalHoursTodayTenths <= s.totalHoursWeekTenths
  {
    CompletedCountsOrdered(ts, todayStart, weekStart);
    SecondsSinceMonotone(ts, todayStart, weekStart);
    TenthsMonotone(SecondsSince(ts, todayStart), SecondsSince(ts, weekStart));
  }

  /** An entry started before the boundary adds nothing to the window. */
  lemma {:induction false} EarlierEntriesIgnored(es: seq<TimeEntry>, e: TimeEntry, boundary: int)
    requires e.startTime < boundary
    ensures EntrySecondsSince(es + [e], boundary) == EntrySecondsSince(es, boundary)
  {
    assert (es + [e])[..|es|] == es;
  }

  /** When every entry started at or after the boundary, the window holds all
      their seconds. */
  lemma {:induction false} WindowCoversAll(es: seq<TimeEntry>, boundary: int)
    requires forall j :: 0 <= j < |es| ==> es[j].startTime >= boundary
    ensures EntrySecondsSince(es, boundary) == SumDurations(es)
  {
    if es != [] {
      var n := |es| - 1;
      WindowCoversAll(es[..n], boundary);
      assert es == es[..n] + [es[n]];
      SumDurationsAppend(es[..n], [es[n]]);
      assert SumDurations([es[n]]) == es[n].duration;
    }
  }

  class UserStore {
    /** The users table, by id. */
    var users: map<string, User>
    var nextUser: nat

    ghost predicate Valid()
      reads this
    {
      && (forall id :: id in users ==> users[id].id == id && id in IdSet(nextUser))
      && (forall a, b :: a in users && b in users && users[a].email == users[b].email ==> a == b)
    }

    constructor ()
      ensures Valid() && users == map[]
    {
      users := map[];
      nextUser := 0;
    }

    function FirstWithEmail(ids: seq<string>, email: string): (r: Option<User>)
      reads this
      requires forall id :: id in ids ==> id in users
      ensures r.Some? ==> r.value.id in ids && users[r.value.id] == r.value && r.value.email == email
      ensures r.None? ==> forall id :: id in ids ==> users[id].email != email
      requires Valid()
    {
      if ids == [] then None
      else if users[ids[0]].email == email then Some(users[ids[0]])
      else FirstWithEmail(ids[1..], email)
    }

    /** `findOne({ where: { email } })`: the user with that e-mail, if any. */
    function FindByEmail(email: string): (r: Option<User>)
      reads this
      requires Valid()
      ensures r.Some? <==> exists id :: id in users && users[id].email == email
      ensures r.Some? ==> r.value.id in users && users[r.value.id] == r.value && r.value.email == email
    {
      FirstWithEmail(KeysBelow(users, nextUser), email)
    }

    /** `findById`: the user, or NotFound. */
    function FindById(id: string): (r: Result<User>)
      reads this
      ensures r.Success? <==> id in users
      ensures r.Success? ==> r.value == users[id]
      ensures r.Failure? ==> r.error == UserNotFound
    {
      if id in users then Success(users[id]) else Failure(UserNotFound)
    }

    /** `create`: stores the hash of the password, never the password. */
    method Create(email: string, password: string, name: string, hash: string -> string, now: int)
      returns (r: Result<User>)
      requires Valid()
      modifies this
      ensures Valid()
      ensures old(FindByEmail(email)).Some? ==> r == Failure(DuplicateEmail) && unchanged(this)
      ensures old(FindByEmail(email)).None? ==>
                && r.Success?
                && r.value == User(r.value.id, email, hash(password), name, now)
                && r.value.id !in old(users)
                && users == old(users)[r.value.id := r.value]
    {
      if FindByEmail(email).Some? {
        return Failure(DuplicateEmail);
      }
      var id := IdOf(nextUser);
      IdOfFresh(nextUser, nextUser);
      assert forall k :: k in users ==> users[k].email != email;
      var u := User(id, email, hash(password), name, now);
      users := users[id := u];
      nextUser := nextUser + 1;
      assert IdSet(nextUser) == IdSet(nextUser - 1) + {id};
      r := Success(u);
    }
  }

  /** The inner `forEach` of `getStats`: one task's entries added to the day's
      and the week's sums. */
  method WindowSeconds(es: seq<TimeEntry>, todayStart: int, weekStart: int) returns (today: int, week: int)
    ensures today == EntrySecondsSince(es, todayStart)
    ensures week == EntrySecondsSince(es, weekStart)
  {
    today, week := 0, 0;
    var j := 0;
    while j < |es|
      invariant 0 <= j <= |es|
      invariant today == EntrySecondsSince(es[..j], todayStart)
      invariant week == EntrySecondsSince(es[..j], weekStart)
    {
      if es[j].startTime >= todayStart {
        today := today + es[j].duration;
      }
      if es[j].startTime >= weekStart {
        week := week + es[j].duration;
      }
      assert es[..j + 1][..j] == es[..j];
      j := j + 1;
    }
    assert es[..j] == es;
  }

  /** The outer `forEach` of `getStats`: the day's and the week's seconds over
      all the tasks. */
  method TotalWindowSeconds(ts: seq<TaskWithEntries>, todayStart: int, weekStart: int) returns (today: int, week: int)
    ensures today == SecondsSince(ts, todayStart)
    ensures week == SecondsSince(ts, weekStart)
  {
    today, week := 0, 0;
    var i := 0;
    while i < |ts|
      invariant 0 <= i <= |ts|
      invariant today == SecondsSince(ts[..i], todayStart)
      invariant week == SecondsSince(ts[..i], weekStart)
    {
      var a, b := WindowSeconds(ts[i].timeEntries, todayStart, weekStart);
      today, week := today + a, week + b;
      assert ts[..i + 1][..i] == ts[..i];
      i := i + 1;
    }
    assert ts[..i] == ts;
  }

  /** `getStats`: NotFound for an unknown user, otherwise the statistics of the
      user's tasks. */
  method GetStats(users: UserStore, store: TaskStore, userId: string, todayStart: int, weekStart: int)
    returns (r: Result<Stats>)
    requires users.Valid() && store.Valid()
    ensures r.Failure? <==> userId !in users.users
    ensures r.Failure? ==> r.error == UserNotFound
    ensures r.Success? ==> r.value == StatsOf(store.TasksOf(userId), todayStart, weekStart)
  {
    var found := users.FindById(userId);
    if found.Failure? {
      return Failure(UserNotFound);
    }
    var ts := store.TasksOf(userId);
    var totalToday, totalWeek := TotalWindowSeconds(ts, todayStart, weekStart);
    r := Success(Stats(
      CountCompletedSince(ts, todayStart),
      CountCompletedSince(ts, weekStart),
      Tenths(totalToday),
      Tenths(totalWeek),
      |ts|,
      CountCompleted(ts)));
  }
}
