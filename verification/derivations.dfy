/**
 * What the task board computes from its state on every render: the project filter, the
 * stable sort on the chosen key, the statistics record, the overdue predicate and the
 * board's status columns. All of it is pure.
 */
module Derivations {
  import opened Seqs
  import opened TaskModel

  // ---- project filter ----

  /** The filter condition: every task when the active project is "all", else the tasks of that project. */
  function InProject(active: string): Task -> bool {
    (t: Task) => active == "all" || t.projectId == active
  }

  /** The tasks the project selector lets through: all of them for "all", else exactly those of the project. */
  function ByProject(tasks: seq<Task>, active: string): (r: seq<Task>)
    ensures forall t :: t in r <==> t in tasks && (active == "all" || t.projectId == active)
  {
    Filter(tasks, InProject(active))
  }

  /** With "all" selected the view holds the whole list, in its order. */
  lemma ByProjectAll(tasks: seq<Task>)
    ensures ByProject(tasks, "all") == tasks
  {
    FilterKeepsAll(tasks, InProject("all"));
  }

  /**
   * With a project selected the view holds exactly that project's tasks, each as often
   * as in the list, in their original relative order.
   */
  lemma ByProjectExact(tasks: seq<Task>, active: string)
    requires active != "all"
    ensures forall t :: t in ByProject(tasks, active) <==> t in tasks && t.projectId == active
    ensures forall t :: multiset(ByProject(tasks, active))[t] == if t.projectId == active then multiset(tasks)[t] else 0
    ensures IsSubsequence(ByProject(tasks, active), tasks)
  {
    forall t ensures multiset(ByProject(tasks, active))[t] == if t.projectId == active then multiset(tasks)[t] else 0 {
      FilterCount(tasks, InProject(active), t);
    }
    FilterIsSubsequence(tasks, InProject(active));
  }

  // ---- sort ----

  /**
   * The comparator of each sort key is `SortRank(key, a) - SortRank(key, b)`: due dates
   * ascending, priority and status ranks descending, and 0 for any other key.
   */
  function SortRank(sortBy: string, t: Task): int {
    if sortBy == "dueDate" then t.dueDate
    else if sortBy == "priority" then -PriorityRank(t.priority)
    else if sortBy == "status" then -StatusRank(t.status)
    else 0
  }

  /**
   * The comparator handed to the sort, written as the page writes it: the difference of
   * the due dates, or of the rank tables' entries with `b` first for priority and status.
   */
  function Compare(sortBy: string, a: Task, b: Task): int {
    if sortBy == "dueDate" then a.dueDate - b.dueDate
    else if sortBy == "priority" then PriorityRank(b.priority) - PriorityRank(a.priority)
    else if sortBy == "status" then StatusRank(b.status) - StatusRank(a.status)
    else 0
  }

  /**
   * Sorting on the comparator is sorting on `SortRank`: the comparator is the difference
   * of the two ranks, so it is antisymmetric and orders two tasks as their ranks do.
   */
  lemma CompareIsRankDifference(sortBy: string, a: Task, b: Task)
    ensures Compare(sortBy, a, b) == SortRank(sortBy, a) - SortRank(sortBy, b)
    ensures Compare(sortBy, a, b) == -Compare(sortBy, b, a)
    ensures Compare(sortBy, a, b) <= 0 <==> SortRank(sortBy, a) <= SortRank(sortBy, b)
  {
  }

  /** Ranks never decrease along `s`. */
  predicate IsSortedBy(s: seq<Task>, sortBy: string) {
    forall i, j :: 0 <= i < j < |s| ==> SortRank(sortBy, s[i]) <= SortRank(sortBy, s[j])
  }

  function HasRank(sortBy: string, v: int): Task -> bool {
    (t: Task) => SortRank(sortBy, t) == v
  }

  /** The tasks of rank `v`, in their order in `s`: a sort is stable when it keeps each of these. */
  function WithRank(s: seq<Task>, sortBy: string, v: int): seq<Task> {
    Filter(s, HasRank(sortBy, v))
  }

  /** Puts `t` in front of the first element of `u` whose rank is not smaller. */
  function Insert(t: Task, u: seq<Task>, sortBy: string): (r: seq<Task>)
    ensures |r| == |u| + 1
  {
    if u == [] then [t]
    else if SortRank(sortBy, t) <= SortRank(sortBy, u[0]) then [t] + u
    else
      assert u == [u[0]] + u[1..];
      [u[0]] + Insert(t, u[1..], sortBy)
  }

  /** Stable sort of `s` on the comparator of `sortBy` (Array.prototype.sort, stable since ES2019). */
  function SortTasks(s: seq<Task>, sortBy: string): (r: seq<Task>)
    ensures |r| == |s|
  {
    if s == [] then []
    else
      assert s == [s[0]] + s[1..];
      Insert(s[0], SortTasks(s[1..], sortBy), sortBy)
  }

  /** Insert adds `t` and nothing else. */
  lemma {:induction false} InsertPermutes(t: Task, u: seq<Task>, sortBy: string)
    ensures multiset(Insert(t, u, sortBy)) == multiset(u) + multiset{t}
  {
    if u != [] && SortRank(sortBy, t) > SortRank(sortBy, u[0]) {
      InsertPermutes(t, u[1..], sortBy);
      assert u == [u[0]] + u[1..];
    }
  }

  /** The sort only reorders: every task occurs as often as before. */
  lemma {:induction false} SortPermutes(s: seq<Task>, sortBy: string)
    ensures multiset(SortTasks(s, sortBy)) == multiset(s)
  {
    if s != [] {
      SortPermutes(s[1..], sortBy);
      InsertPermutes(s[0], SortTasks(s[1..], sortBy), sortBy);
      assert s == [s[0]] + s[1..];
    }
  }

  lemma {:induction false} InsertSorted(t: Task, u: seq<Task>, sortBy: string)
    requires IsSortedBy(u, sortBy)
    ensures IsSortedBy(Insert(t, u, sortBy), sortBy)
  {
    if u != [] && SortRank(sortBy, t) > SortRank(sortBy, u[0]) {
      InsertSorted(t, u[1..], sortBy);
      var w := Insert(t, u[1..], sortBy);
      var r := [u[0]] + w;
      InsertPermutes(t, u[1..], sortBy);
      forall j | 0 < j < |r| ensures SortRank(sortBy, u[0]) <= SortRank(sortBy, r[j]) {
        assert r[j] in multiset(w);
        assert r[j] == t || r[j] in u[1..];
      }
    }
  }

  /** Inserting `t` leaves the relative order of every rank class as if `t` had been put in front. */
  lemma {:induction false} InsertStable(t: Task, u: seq<Task>, sortBy: string, v: int)
    ensures WithRank(Insert(t, u, sortBy), sortBy, v) == WithRank([t] + u, sortBy, v)
  {
    if u != [] && SortRank(sortBy, t) > SortRank(sortBy, u[0]) {
      InsertStable(t, u[1..], sortBy, v);
      var p := HasRank(sortBy, v);
      var w := Insert(t, u[1..], sortBy);
      assert Insert(t, u, sortBy) == [u[0]] + w;
      FilterConsSame(u[0], w, [t] + u[1..], p);
      // t and u[0] have different ranks, so at most one of them is of rank v.
      FilterSwap(u[0], t, u[1..], p);
      assert [u[0]] + u[1..] == u;
    }
  }

  lemma {:induction false} SortStable(s: seq<Task>, sortBy: string, v: int)
    ensures WithRank(SortTasks(s, sortBy), sortBy, v) == WithRank(s, sortBy, v)
  {
    if s != [] {
      SortStable(s[1..], sortBy, v);
      var rest := SortTasks(s[1..], sortBy);
      InsertStable(s[0], rest, sortBy, v);
      var p := HasRank(sortBy, v);
      FilterCons(s[0], rest, p);
      FilterCons(s[0], s[1..], p);
      assert [s[0]] + s[1..] == s;
    }
  }

  lemma {:induction false} SortSorted(s: seq<Task>, sortBy: string)
    ensures IsSortedBy(SortTasks(s, sortBy), sortBy)
  {
    if s != [] {
      SortSorted(s[1..], sortBy);
      InsertSorted(s[0], SortTasks(s[1..], sortBy), sortBy);
    }
  }

  /** The sorted view is ordered on the key and keeps the relative order of tasks that compare equal. */
  lemma SortSortedStable(s: seq<Task>, sortBy: string)
    ensures IsSortedBy(SortTasks(s, sortBy), sortBy)
    ensures forall v :: WithRank(SortTasks(s, sortBy), sortBy, v) == WithRank(s, sortBy, v)
  {
    SortSorted(s, sortBy);
    forall v ensures WithRank(SortTasks(s, sortBy), sortBy, v) == WithRank(s, sortBy, v) {
      SortStable(s, sortBy, v);
    }
  }

  /** Three tasks given in strictly decreasing rank come out of the sort reversed. */
  lemma SortReversedTriple(a: Task, b: Task, c: Task, sortBy: string)
    requires SortRank(sortBy, c) < SortRank(sortBy, b) < SortRank(sortBy, a)
    ensures SortTasks([a, b, c], sortBy) == [c, b, a]
  {
    assert [a, b, c][1..] == [b, c] && [b, c][1..] == [c] && [c][1..] == [];
    assert [c, b][1..] == [b] && [b][1..] == [] && [c][1..] == [];
    assert SortTasks([c], sortBy) == Insert(c, [], sortBy) == [c];
    assert Insert(b, [], sortBy) == [b];
    assert Insert(b, [c], sortBy) == [c] + [b] == [c, b];
    assert SortTasks([b, c], sortBy) == [c, b];
    assert Insert(a, [], sortBy) == [a];
    assert Insert(a, [b], sortBy) == [b] + [a] == [b, a];
    assert Insert(a, [c, b], sortBy) == [c] + [b, a] == [c, b, a];
  }

  lemma RankClassOfHead(s: seq<Task>, sortBy: string)
    requires s != []
    ensures s[0] in WithRank(s, sortBy, SortRank(sortBy, s[0]))
  {
  }

  /**
   * A stable sort's result is unique: two sorted sequences with the same tasks of every
   * rank, in the same order, are equal. So SortTasks agrees with every stable sort.
   */
  lemma {:induction false} StableSortUnique(r: seq<Task>, q: seq<Task>, sortBy: string)
    requires IsSortedBy(r, sortBy) && IsSortedBy(q, sortBy)
    requires forall v :: WithRank(r, sortBy, v) == WithRank(q, sortBy, v)
    ensures r == q
  {
    if r == [] {
      if q != [] {
        RankClassOfHead(q, sortBy);
        assert false;
      }
    } else if q == [] {
      RankClassOfHead(r, sortBy);
      assert false;
    } else {
      var a, b := SortRank(sortBy, r[0]), SortRank(sortBy, q[0]);
      assert r[0] in WithRank(r, sortBy, a);
      assert r[0] in WithRank(q, sortBy, a);
      assert q[0] in WithRank(q, sortBy, b);
      assert q[0] in WithRank(r, sortBy, b);
      assert a == b by {
        var i :| 0 <= i < |q| && q[i] == r[0];
        var j :| 0 <= j < |r| && r[j] == q[0];
        assert b <= SortRank(sortBy, q[i]);
        assert a <= SortRank(sortBy, r[j]);
      }
      assert WithRank(r, sortBy, a) == [r[0]] + WithRank(r[1..], sortBy, a);
      assert WithRank(q, sortBy, a) == [q[0]] + WithRank(q[1..], sortBy, a);
      assert r[0] == q[0] by {
        assert WithRank(r, sortBy, a)[0] == r[0];
        assert WithRank(q, sortBy, a)[0] == q[0];
      }
      forall v ensures WithRank(r[1..], sortBy, v) == WithRank(q[1..], sortBy, v) {
        var head := if v == a then [r[0]] else [];
        assert HasRank(sortBy, v)(r[0]) == (v == a);
        assert HasRank(sortBy, v)(q[0]) == (v == a);
        assert WithRank(r, sortBy, v) == head + WithRank(r[1..], sortBy, v);
        assert WithRank(q, sortBy, v) == head + WithRank(q[1..], sortBy, v);
        assert WithRank(r[1..], sortBy, v) == WithRank(r, sortBy, v)[|head|..];
        assert WithRank(q[1..], sortBy, v) == WithRank(q, sortBy, v)[|head|..];
      }
      StableSortUnique(r[1..], q[1..], sortBy);
      assert r == [r[0]] + r[1..] && q == [q[0]] + q[1..];
    }
  }

  /**
   * What each key promises of the sorted view: it holds the same tasks, due dates ascend,
   * priority ranks and status ranks descend, and any other key keeps the order.
   */
  lemma SortByKey(s: seq<Task>, sortBy: string)
    ensures multiset(SortTasks(s, sortBy)) == multiset(s)
    ensures sortBy == "dueDate" ==> forall i, j :: 0 <= i < j < |s| ==>
      SortTasks(s, sortBy)[i].dueDate <= SortTasks(s, sortBy)[j].dueDate
    ensures sortBy == "priority" ==> forall i, j :: 0 <= i < j < |s| ==>
      PriorityRank(SortTasks(s, sortBy)[i].priority) >= PriorityRank(SortTasks(s, sortBy)[j].priority)
    ensures sortBy == "status" ==> forall i, j :: 0 <= i < j < |s| ==>
      StatusRank(SortTasks(s, sortBy)[i].status) >= StatusRank(SortTasks(s, sortBy)[j].status)
    ensures sortBy !in {"dueDate", "priority", "status"} ==> SortTasks(s, sortBy) == s
  {
    var r := SortTasks(s, sortBy);
    SortPermutes(s, sortBy);
    SortSortedStable(s, sortBy);
    if sortBy !in {"dueDate", "priority", "status"} {
      assert IsSortedBy(s, sortBy);
      forall v ensures WithRank(r, sortBy, v) == WithRank(s, sortBy, v) {
      }
      StableSortUnique(r, s, sortBy);
    }
  }

  // ---- statistics ----

  /** A task not yet completed whose due date lies before the start of today. */
  predicate IsOverdue(t: Task, startOfToday: int) {
    t.status != Completed && t.dueDate < startOfToday
  }

  function HasStatus(s: Status): Task -> bool {
    (t: Task) => t.status == s
  }

  function OverdueAt(startOfToday: int): Task -> bool {
    (t: Task) => IsOverdue(t, startOfToday)
  }

  datatype Stats = Stats(total: nat, completed: nat, pending: nat, overdue: nat)

  /** The dashboard counts, always over the whole list, never the filtered view. */
  function ComputeStats(tasks: seq<Task>, startOfToday: int): Stats {
    Stats(
      |tasks|,
      |Filter(tasks, HasStatus(Completed))|,
      |Filter(tasks, HasStatus(Pending))|,
      |Filter(tasks, OverdueAt(startOfToday))|)
  }

  /** Completed and pending tasks are disjoint, and an overdue task is never a completed one. */
  lemma StatsBounds(tasks: seq<Task>, startOfToday: int)
    ensures ComputeStats(tasks, startOfToday).total == |tasks|
    ensures ComputeStats(tasks, startOfToday).completed + ComputeStats(tasks, startOfToday).pending <= |tasks|
    ensures ComputeStats(tasks, startOfToday).overdue <= |tasks| - ComputeStats(tasks, startOfToday).completed
  {
    FilterDisjointSizes(tasks, HasStatus(Completed), HasStatus(Pending));
    FilterDisjointSizes(tasks, HasStatus(Completed), OverdueAt(startOfToday));
  }

  /** As days pass the overdue count can only grow: only a status change brings it down. */
  lemma OverdueCountGrows(tasks: seq<Task>, startOfToday: int, later: int)
    requires startOfToday <= later
    ensures ComputeStats(tasks, startOfToday).overdue <= ComputeStats(tasks, later).overdue
  {
    FilterMonotone(tasks, OverdueAt(startOfToday), OverdueAt(later));
  }

  // ---- board view ----

  /** The board's three columns, in the order pending, in progress, completed. */
  function BoardColumns(view: seq<Task>): seq<seq<Task>> {
    [Filter(view, HasStatus(Pending)), Filter(view, HasStatus(InProgress)), Filter(view, HasStatus(Completed))]
  }

  /** The column sizes add up to the view's length. */
  lemma BoardColumnsSizes(view: seq<Task>)
    ensures |BoardColumns(view)[0]| + |BoardColumns(view)[1]| + |BoardColumns(view)[2]| == |view|
  {
    FilterPartitionSizes(view, HasStatus(Pending), HasStatus(InProgress), HasStatus(Completed));
  }

  /** Every task of the view sits in the column of its status and in no other. */
  lemma BoardColumnsMembers(view: seq<Task>)
    ensures forall t :: t in BoardColumns(view)[0] <==> t in view && t.status == Pending
    ensures forall t :: t in BoardColumns(view)[1] <==> t in view && t.status == InProgress
    ensures forall t :: t in BoardColumns(view)[2] <==> t in view && t.status == Completed
  {
  }

  /** Each column keeps the order the view has. */
  lemma BoardColumnsOrder(view: seq<Task>)
    ensures forall k :: 0 <= k < |BoardColumns(view)| ==> IsSubsequence(BoardColumns(view)[k], view)
  {
    FilterIsSubsequence(view, HasStatus(Pending));
    FilterIsSubsequence(view, HasStatus(InProgress));
    FilterIsSubsequence(view, HasStatus(Completed));
  }

  /** The view the page renders: the project filter followed by the sort. */
  function FilteredTasks(tasks: seq<Task>, active: string, sortBy: string): seq<Task> {
    SortTasks(ByProject(tasks, active), sortBy)
  }

  /** The rendered view holds the selected project's tasks, sorted on the key, stably. */
  lemma FilteredTasksSpec(tasks: seq<Task>, active: string, sortBy: string)
    ensures multiset(FilteredTasks(tasks, active, sortBy)) == multiset(ByProject(tasks, active))
    ensures IsSortedBy(FilteredTasks(tasks, active, sortBy), sortBy)
    ensures forall v :: WithRank(FilteredTasks(tasks, active, sortBy), sortBy, v) == WithRank(ByProject(tasks, active), sortBy, v)
  {
    SortPermutes(ByProject(tasks, active), sortBy);
    SortSortedStable(ByProject(tasks, active), sortBy);
  }
}
