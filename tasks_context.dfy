/** The client's task context: the list of tasks it holds, the loading flag
    and the list updates after each API call. An API call is given by its
    outcome: the value it resolved with, or its rejection. */
module TasksContext {
  import opened Common
  import opened ClientTypes

  /** The outcome of an awaited API call. */
  datatype Fetch<T> = Resolved(value: T) | Rejected

  /** `tasks.map(t => t.id === id ? updated : t)` */
  function ReplaceById(ts: seq<ClientTask>, id: string, u: ClientTask): (r: seq<ClientTask>)
    ensures |r| == |ts|
    ensures forall i :: 0 <= i < |ts| ==> r[i] == (if ts[i].id == id then u else ts[i])
  {
    if ts == [] then []
    else [if ts[0].id == id then u else ts[0]] + ReplaceById(ts[1..], id, u)
  }

  /** `tasks.filter(t => t.id !== id)` */
  function RemoveById(ts: seq<ClientTask>, id: string): (r: seq<ClientTask>)
    ensures forall t :: t in r <==> t in ts && t.id != id
    ensures |r| <= |ts|
  {
    if ts == [] then []
    else (if ts[0].id != id then [ts[0]] else []) + RemoveById(ts[1..], id)
  }

  /** Removing distributes over concatenation: the kept tasks stay in order. */
  lemma {:induction false} RemoveByIdAppend(a: seq<ClientTask>, b: seq<ClientTask>, id: string)
    ensures RemoveById(a + b, id) == RemoveById(a, id) + RemoveById(b, id)
  {
    if a != [] {
      assert (a + b)[0] == a[0];
      assert (a + b)[1..] == a[1..] + b;
      RemoveByIdAppend(a[1..], b, id);
    } else {
      assert a + b == b;
    }
  }

  /** A list without the id is left as it is by a removal. */
  lemma {:induction false} RemoveAbsent(ts: seq<ClientTask>, id: string)
    requires forall i :: 0 <= i < |ts| ==> ts[i].id != id
    ensures RemoveById(ts, id) == ts
  {
    if ts != [] {
      RemoveAbsent(ts[1..], id);
    }
  }

  /** Removing is idempotent. */
  lemma {:induction false} RemoveTwice(ts: seq<ClientTask>, id: string)
    ensures RemoveById(RemoveById(ts, id), id) == RemoveById(ts, id)
  {
    var r := RemoveById(ts, id);
    forall i | 0 <= i < |r|
      ensures r[i].id != id
    {
      assert r[i] in r;
    }
    RemoveAbsent(r, id);
  }

  /** Removing after replacing with a task of the same id is removing. */
  lemma {:induction false} RemoveAfterReplace(ts: seq<ClientTask>, id: string, u: ClientTask)
    requires u.id == id
    ensures RemoveById(ReplaceById(ts, id, u), id) == RemoveById(ts, id)
  {
    if ts != [] {
      RemoveAfterReplace(ts[1..], id, u);
      assert ReplaceById(ts, id, u)[1..] == ReplaceById(ts[1..], id, u);
    }
  }

  class Context {
    var tasks: seq<ClientTask>
    var loading: bool

    constructor ()
      ensures tasks == [] && !loading
    {
      tasks := [];
      loading := false;
    }

    /** `refreshTasks`: the fetched list replaces the held one; a failed fetch
        leaves it; either way loading ends. */
    method RefreshTasks(response: Fetch<seq<ClientTask>>)
      modifies this
      ensures !loading
      ensures tasks == (if response.Resolved? then response.value else old(tasks))
    {
      loading := true;
      if response.Resolved? {
        tasks := response.value;
      }
      loading := false;
    }

    /** `createTask`: the created task goes first. */
    method CreateTask(response: Fetch<ClientTask>) returns (r: Fetch<ClientTask>)
      modifies this
      ensures r == response && loading == old(loading)
      ensures tasks == (if response.Resolved? then [response.value] + old(tasks) else old(tasks))
    {
      r := response;
      if response.Resolved? {
        tasks := [response.value] + tasks;
      }
    }

    /** `updateTask`: every task with the id is replaced by the updated one. */
    method UpdateTask(id: string, response: Fetch<ClientTask>) returns (r: Fetch<ClientTask>)
      modifies this
      ensures r == response && loading == old(loading)
      ensures tasks == (if response.Resolved? then ReplaceById(old(tasks), id, response.value) else old(tasks))
    {
      r := response;
      if response.Resolved? {
        tasks := ReplaceById(tasks, id, response.value);
      }
    }

    /** `deleteTask`: once the deletion resolved, every task with the id goes. */
    method DeleteTask(id: string, response: Fetch<()>) returns (r: Fetch<()>)
      modifies this
      ensures r == response && loading == old(loading)
      ensures tasks == (if response.Resolved? then RemoveById(old(tasks), id) else old(tasks))
    {
      r := response;
      if response.Resolved? {
        tasks := RemoveById(tasks, id);
      }
    }

    /** `startTimer` and `stopTimer`: the list is fetched again once the timer
        call resolved; it is never edited locally. A rejected call changes
        nothing. */
    method TimerAction(call: Fetch<()>, refresh: Fetch<seq<ClientTask>>) returns (r: Fetch<()>)
      modifies this
      ensures r == call
      ensures call.Rejected? ==> tasks == old(tasks) && loading == old(loading)
      ensures call.Resolved? ==> !loading && tasks == (if refresh.Resolved? then refresh.value else old(tasks))
    {
      r := call;
      if call.Resolved? {
        RefreshTasks(refresh);
      }
    }
  }
}
