/** The figures behind the three charts: tasks per status, tasks per
    priority, and time per category with the bar chart's scale. Times are
    in seconds; the chart shows them in minutes (a division by 60 this model
    leaves to the rendering), and `MaxScaleValue` is in minutes. */
module ProductivityCharts {
  import opened Common
  import opened Entities
  import opened ClientTypes
  import CsvExport

  // ---------------------------------------------------------------------
  // Status and priority

  /** `tasks.filter(t => t.status === s).length` */
  function CountStatus(ts: seq<ClientTask>, s: Status): (n: nat)
    ensures n <= |ts|
    ensures n == 0 <==> forall i :: 0 <= i < |ts| ==> ts[i].status != s
  {
    if ts == [] then 0 else (if ts[0].status == s then 1 else 0) + CountStatus(ts[1..], s)
  }

  /** `tasks.filter(t => t.priority === p).length` */
  function CountPriority(ts: seq<ClientTask>, p: Priority): (n: nat)
    ensures n <= |ts|
    ensures n == 0 <==> forall i :: 0 <= i < |ts| ==> ts[i].priority != Some(p)
  {
    if ts == [] then 0 else (if ts[0].priority == Some(p) then 1 else 0) + CountPriority(ts[1..], p)
  }

  datatype StatusCounts = StatusCounts(pending: nat, inProgress: nat, completed: nat)
  datatype PriorityCounts = PriorityCounts(low: nat, medium: nat, high: nat)

  function StatusCountsOf(ts: seq<ClientTask>): StatusCounts
  {
    StatusCounts(CountStatus(ts, Pending), CountStatus(ts, InProgress), CountStatus(ts, Completed))
  }

  function PriorityCountsOf(ts: seq<ClientTask>): PriorityCounts
  {
    PriorityCounts(CountPriority(ts, Low), CountPriority(ts, Medium), CountPriority(ts, High))
  }

  /** Every task is in exactly one slice of the status chart. */
  lemma {:induction false} StatusCountsTotal(ts: seq<ClientTask>)
    ensures var c := StatusCountsOf(ts); c.pending + c.inProgress + c.completed == |ts|
  {
    if ts != [] {
      StatusCountsTotal(ts[1..]);
    }
  }

  /** When every task has a priority, each is in exactly one bar. */
  lemma {:induction false} PriorityCountsTotal(ts: seq<ClientTask>)
    requires forall i :: 0 <= i < |ts| ==> ts[i].priority.Some?
    ensures var c := PriorityCountsOf(ts); c.low + c.medium + c.high == |ts|
  {
    if ts != [] {
      assert forall i :: 0 <= i < |ts| - 1 ==> ts[1..][i] == ts[i + 1];
      PriorityCountsTotal(ts[1..]);
      assert ts[0].priority.Some?;
      match ts[0].priority.value
      case Low =>
      case Medium =>
      case High =>
    }
  }

  // ---------------------------------------------------------------------
  // Time per category

  /** `task.category || 'Uncategorized'` */
  function CategoryOf(t: ClientTask): (c: string)
    ensures Truthy(t.category) ==> c == t.category.value
    ensures !Truthy(t.category) ==> c == "Uncategorized"
  {
    OrElse(t.category, "Uncategorized")
  }

  /** `calculateTotalTime(task.timeEntries)`: 0 for a task whose entries are
      missing, never negative when no duration is. */
  function TaskTime(t: ClientTask): (r: int)
    ensures t.timeEntries.None? ==> r == 0
    ensures t.timeEntries.Some? && NonNegativeDurations(t.timeEntries.value) ==> r >= 0
  {
    CsvExport.CalculateTotalTime(t.timeEntries)
  }

  /** The time tracked across all the tasks. */
  function TotalTracked(ts: seq<ClientTask>): int
  {
    if ts == [] then 0 else TotalTracked(ts[..|ts| - 1]) + TaskTime(ts[|ts| - 1])
  }

  /** `categoryTimeMap[c] = (categoryTimeMap[c] || 0) + x` */
  function AddTime(m: map<string, int>, c: string, x: int): (r: map<string, int>)
    ensures r.Keys == m.Keys + {c}
    ensures r[c] == (if c in m then m[c] else 0) + x
    ensures forall k :: k in m && k != c ==> r[k] == m[k]
  {
    m[c := (if c in m then m[c] else 0) + x]
  }

  /** `categoryTimeMap` after the tasks, in order: the last task's category
      is always a key. */
  function CategoryTime(ts: seq<ClientTask>): (m: map<string, int>)
    ensures ts != [] ==> CategoryOf(ts[|ts| - 1]) in m
  {
    if ts == [] then map[]
    else AddTime(CategoryTime(ts[..|ts| - 1]), CategoryOf(ts[|ts| - 1]), TaskTime(ts[|ts| - 1]))
  }

  /** `Object.keys(categoryTimeMap)`: the categories in order of first appearance. */
  function CategoryOrder(ts: seq<ClientTask>): (r: seq<string>)
    ensures forall i, j :: 0 <= i < j < |r| ==> r[i] != r[j]
    ensures forall c :: c in r <==> c in CategoryTime(ts)
  {
    if ts == [] then []
    else
      var prev := CategoryOrder(ts[..|ts| - 1]);
      var c := CategoryOf(ts[|ts| - 1]);
      if c in prev then prev else prev + [c]
  }

  /** The map's keys are the tasks' categories. */
  lemma {:induction false} CategoryKeys(ts: seq<ClientTask>, c: string)
    ensures c in CategoryTime(ts) <==> exists i :: 0 <= i < |ts| && CategoryOf(ts[i]) == c
  {
    if ts != [] {
      var n := |ts| - 1;
      var prev := ts[..n];
      CategoryKeys(prev, c);
      assert CategoryTime(ts).Keys == CategoryTime(prev).Keys + {CategoryOf(ts[n])};
      assert forall i :: 0 <= i < n ==> prev[i] == ts[i];
    }
  }

  /** A task with no category is grouped under `Uncategorized`. */
  lemma UncategorizedGroup(ts: seq<ClientTask>, i: nat)
    requires i < |ts| && !Truthy(ts[i].category)
    ensures "Uncategorized" in CategoryTime(ts)
  {
    CategoryKeys(ts, "Uncategorized");
  }

  /** `Object.values(categoryTimeMap)`: the values in key order. */
  function Times(keys: seq<string>, m: map<string, int>): (r: seq<int>)
    requires forall k :: k in keys ==> k in m
    ensures |r| == |keys|
    ensures forall i :: 0 <= i < |keys| ==> r[i] == m[keys[i]]
  {
    if keys == [] then [] else Times(keys[..|keys| - 1], m) + [m[keys[|keys| - 1]]]
  }

  function Sum(xs: seq<int>): int
  {
    if xs == [] then 0 else Sum(xs[..|xs| - 1]) + xs[|xs| - 1]
  }

  /** The sum of the values of the listed keys, taken key by key. */
  function SumOver(keys: seq<string>, m: map<string, int>): int
    requires forall k :: k in keys ==> k in m
  {
    if keys == [] then 0 else SumOver(keys[..|keys| - 1], m) + m[keys[|keys| - 1]]
  }

  /** Summing the listed values is summing over the keys. */
  lemma {:induction false} SumOfTimes(keys: seq<string>, m: map<string, int>)
    requires forall k :: k in keys ==> k in m
    ensures Sum(Times(keys, m)) == SumOver(keys, m)
  {
    if keys != [] {
      var n := |keys| - 1;
      var t := Times(keys, m);
      assert t[..n] == Times(keys[..n], m);
      SumOfTimes(keys[..n], m);
    }
  }

  /** Changing the value of a key listed once changes the sum by the difference. */
  lemma {:induction false} SumOverUpdate(keys: seq<string>, m: map<string, int>, c: string, v: int)
    requires forall k :: k in keys ==> k in m
    requires forall i, j :: 0 <= i < j < |keys| ==> keys[i] != keys[j]
    requires c in m
    ensures SumOver(keys, m[c := v]) == SumOver(keys, m) + (if c in keys then v - m[c] else 0)
  {
    if keys != [] {
      var n := |keys| - 1;
      var prev := keys[..n];
      assert c in keys <==> c in prev || keys[n] == c;
      SumOverUpdate(prev, m, c, v);
    }
  }

  /** A key that is not listed does not change the sum. */
  lemma {:induction false} SumOverUnlisted(keys: seq<string>, m: map<string, int>, c: string, v: int)
    requires forall k :: k in keys ==> k in m
    requires c !in keys
    ensures SumOver(keys, m[c := v]) == SumOver(keys, m)
  {
    if keys != [] {
      SumOverUnlisted(keys[..|keys| - 1], m, c, v);
    }
  }

  /** A task of a category already in the map adds its time to that entry. */
  lemma AddToListed(order: seq<string>, m: map<string, int>, c: string, x: int)
    requires forall k :: k in order ==> k in m
    requires forall i, j :: 0 <= i < j < |order| ==> order[i] != order[j]
    requires c in order
    ensures forall k :: k in order ==> k in AddTime(m, c, x)
    ensures SumOver(order, AddTime(m, c, x)) == SumOver(order, m) + x
  {
    assert AddTime(m, c, x) == m[c := m[c] + x];
    SumOverUpdate(order, m, c, m[c] + x);
  }

  /** A task of a new category appends that category with the task's time. */
  lemma AddToNew(order: seq<string>, m: map<string, int>, c: string, x: int)
    requires forall k :: k in order ==> k in m
    requires c !in order && c !in m
    ensures forall k :: k in order + [c] ==> k in AddTime(m, c, x)
    ensures SumOver(order + [c], AddTime(m, c, x)) == SumOver(order, m) + x
  {
    var m' := m[c := x];
    assert AddTime(m, c, x) == m';
    SumOverUnlisted(order, m, c, x);
    assert (order + [c])[..|order|] == order;
  }

  /** The map's values, key by key, add up to the time tracked across the tasks. */
  lemma {:induction false} CategorySumOver(ts: seq<ClientTask>)
    ensures SumOver(CategoryOrder(ts), CategoryTime(ts)) == TotalTracked(ts)
  {
    if ts != [] {
      var n := |ts| - 1;
      var prefix := ts[..n];
      CategorySumOver(prefix);
      var m := CategoryTime(prefix);
      var order := CategoryOrder(prefix);
      var c := CategoryOf(ts[n]);
      var x := TaskTime(ts[n]);
      assert TotalTracked(ts) == TotalTracked(prefix) + x;
      assert CategoryTime(ts) == AddTime(m, c, x);
      if c in order {
        assert CategoryOrder(ts) == order;
        AddToListed(order, m, c, x);
      } else {
        assert CategoryOrder(ts) == order + [c];
        AddToNew(order, m, c, x);
      }
    }
  }

  /** The chart's values add up to the time tracked across all the tasks. */
  lemma CategoryTimesSum(ts: seq<ClientTask>)
    ensures Sum(Times(CategoryOrder(ts), CategoryTime(ts))) == TotalTracked(ts)
  {
    CategorySumOver(ts);
    SumOfTimes(CategoryOrder(ts), CategoryTime(ts));
  }

  /** The `forEach` over the tasks: the map and, as `Object.keys` lists
      them, its keys in insertion order. */
  method BuildCategoryTimes(ts: seq<ClientTask>) returns (m: map<string, int>, categories: seq<string>)
    ensures m == CategoryTime(ts) && categories == CategoryOrder(ts)
    ensures forall c :: c in m <==> exists i :: 0 <= i < |ts| && CategoryOf(ts[i]) == c
    ensures Sum(Times(categories, m)) == TotalTracked(ts)
  {
    m, categories := map[], [];
    for i := 0 to |ts|
      invariant m == CategoryTime(ts[..i])
      invariant categories == CategoryOrder(ts[..i])
    {
      var c := CategoryOf(ts[i]);
      assert ts[..i + 1][..i] == ts[..i] && ts[..i + 1][i] == ts[i];
      assert CategoryTime(ts[..i + 1]) == AddTime(CategoryTime(ts[..i]), c, TaskTime(ts[i]));
      if c !in m {
        categories := categories + [c];
      }
      m := AddTime(m, c, TaskTime(ts[i]));
    }
    assert ts[..|ts|] == ts;
    forall c
      ensures c in m <==> exists i :: 0 <= i < |ts| && CategoryOf(ts[i]) == c
    {
      CategoryKeys(ts, c);
    }
    CategoryTimesSum(ts);
  }

  // ---------------------------------------------------------------------
  // The bar chart's scale

  /** `Math.ceil(a / b)` for a positive `b`. */
  function CeilDiv(a: int, b: int): (r: int)
    requires b > 0
    ensures b * (r - 1) < a <= b * r
  {
    (a + b - 1) / b
  }

  /** The largest value in tens of minutes, rounded up, and at least one. */
  function MaxTens(secs: seq<int>): (r: int)
    ensures r >= 1
    ensures forall i :: 0 <= i < |secs| ==> secs[i] <= 600 * r
    ensures r == 1 || exists i :: 0 <= i < |secs| && 600 * (r - 1) < secs[i]
  {
    if secs == [] then 1
    else
      var prev := MaxTens(secs[..|secs| - 1]);
      var last := CeilDiv(secs[|secs| - 1], 600);
      assert forall i :: 0 <= i < |secs| - 1 ==> secs[..|secs| - 1][i] == secs[i];
      if last > prev then last else prev
  }

  /** `Math.ceil(Math.max(...times, 10) / 10) * 10`, for the category times
      given in seconds: a multiple of 10 minutes, at least 10, at least every
      category's minutes, and the least such. */
  function MaxScaleValue(secs: seq<int>): (r: int)
    ensures r % 10 == 0 && r >= 10
    ensures forall i :: 0 <= i < |secs| ==> secs[i] <= 60 * r
    ensures r == 10 || exists i :: 0 <= i < |secs| && 60 * (r - 10) < secs[i]
  {
    10 * MaxTens(secs)
  }
}
