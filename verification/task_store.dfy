/**
 * The three handlers that change the task list, as the list each one puts in place of
 * the old one: create appends, update maps, delete filters. The lemmas relate them to
 * each other and to the statistics.
 */
module TaskStore {
  import opened Wrappers
  import opened Seqs
  import opened Text
  import opened TaskModel
  import opened Derivations

  /** A title the form refuses: empty once surrounding whitespace is trimmed. */
  predicate IsBlank(title: string) {
    Trim(title) == ""
  }

  /**
   * The task a submitted draft becomes: the untrimmed title, the draft's description,
   * priority and project, status pending, the due date or `now` when the date input is
   * empty, the parsed tags, and `now` as both creation and update time.
   */
  function NewTask(draft: Draft, id: string, now: int): (t: Task)
    ensures t.id == id && t.status == Pending
    ensures t.title == draft.title && t.description == draft.description
    ensures t.priority == draft.priority && t.projectId == draft.projectId
    ensures t.dueDate == (if draft.dueDate.None? then now else draft.dueDate.value)
    ensures t.tags == ParseTags(draft.tags)
    ensures t.createdAt == Some(now) && t.updatedAt == Some(now)
  {
    Task(id, draft.title, draft.description, draft.priority, Pending,
         // `newTask.dueDate || Date.now()`: None stands for the empty date input.
         draft.dueDate.GetOr(now), draft.projectId, ParseTags(draft.tags), Some(now), Some(now))
  }

  /** `tasks.map(task => task.id === id ? merged : task)`. */
  function UpdateTasks(tasks: seq<Task>, id: string, u: Updates, now: int): (r: seq<Task>)
    ensures |r| == |tasks|
    ensures forall i :: 0 <= i < |tasks| && tasks[i].id != id ==> r[i] == tasks[i]
    ensures forall i :: 0 <= i < |tasks| && tasks[i].id == id ==> r[i] == Merge(tasks[i], u, now)
  {
    if tasks == [] then []
    else [if tasks[0].id == id then Merge(tasks[0], u, now) else tasks[0]] + UpdateTasks(tasks[1..], id, u, now)
  }

  /** The toast of an update: the celebration exactly when the update sets the status to completed. */
  function UpdateNotice(u: Updates): (n: Notice)
    ensures n == TaskCompleted <==> u.status == Some(Completed)
    ensures n == TaskCompleted || n == TaskUpdated
  {
    if u.status == Some(Completed) then TaskCompleted else TaskUpdated
  }

  /** An update naming an id no task has changes nothing. */
  lemma {:induction false} UpdateAbsentId(tasks: seq<Task>, id: string, u: Updates, now: int)
    requires forall t :: t in tasks ==> t.id != id
    ensures UpdateTasks(tasks, id, u, now) == tasks
  {
    if tasks != [] {
      UpdateAbsentId(tasks[1..], id, u, now);
      assert tasks == [tasks[0]] + tasks[1..];
    }
  }

  function HasId(id: string): Task -> bool {
    (t: Task) => t.id == id
  }

  function NotId(id: string): Task -> bool {
    (t: Task) => t.id != id
  }

  /** `tasks.filter(task => task.id !== id)`. */
  function RemoveTasks(tasks: seq<Task>, id: string): seq<Task> {
    Filter(tasks, NotId(id))
  }

  /**
   * Delete removes every task with the id, keeps every other task as often as it was
   * there and in its order, and shortens the list by the number of tasks with the id.
   */
  lemma RemoveSpec(tasks: seq<Task>, id: string)
    ensures forall t :: t in RemoveTasks(tasks, id) <==> t in tasks && t.id != id
    ensures forall t: Task :: t.id != id ==> multiset(RemoveTasks(tasks, id))[t] == multiset(tasks)[t]
    ensures IsSubsequence(RemoveTasks(tasks, id), tasks)
    ensures |RemoveTasks(tasks, id)| == |tasks| - |Filter(tasks, HasId(id))|
  {
    forall t: Task | t.id != id ensures multiset(RemoveTasks(tasks, id))[t] == multiset(tasks)[t] {
      FilterCount(tasks, NotId(id), t);
    }
    FilterIsSubsequence(tasks, NotId(id));
    FilterPartitionSizes(tasks, NotId(id), HasId(id), (t: Task) => false);
    assert Filter(tasks, (t: Task) => false) == [];
  }

  /** Deleting the same id twice is deleting it once. */
  lemma RemoveIdempotent(tasks: seq<Task>, id: string)
    ensures RemoveTasks(RemoveTasks(tasks, id), id) == RemoveTasks(tasks, id)
  {
    FilterIdempotent(tasks, NotId(id));
  }

  /** Deleting an id no task has changes nothing. */
  lemma RemoveAbsentId(tasks: seq<Task>, id: string)
    requires forall t :: t in tasks ==> t.id != id
    ensures RemoveTasks(tasks, id) == tasks
  {
    FilterKeepsAll(tasks, NotId(id));
  }

  // ---- identifiers ----

  /** No two tasks share an id. The handlers do not enforce it; it holds while fresh ids are supplied. */
  predicate UniqueIds(tasks: seq<Task>) {
    forall i, j :: 0 <= i < j < |tasks| ==> tasks[i].id != tasks[j].id
  }

  /** Under unique ids, the task with a given id is the only one. */
  lemma {:induction false} UniqueIdCount(tasks: seq<Task>, k: nat)
    requires UniqueIds(tasks) && k < |tasks|
    ensures |Filter(tasks, HasId(tasks[k].id))| == 1
  {
    var id := tasks[k].id;
    if k == 0 {
      assert forall t :: t in tasks[1..] ==> t.id != id;
      FilterKeepsAll(tasks[1..], NotId(id));
      FilterPartitionSizes(tasks[1..], NotId(id), HasId(id), (t: Task) => false);
      assert Filter(tasks[1..], (t: Task) => false) == [];
    } else {
      UniqueIdCount(tasks[1..], k - 1);
      assert tasks[1..][k - 1] == tasks[k];
    }
  }

  /** With unique ids, deleting the id of a listed task removes exactly that one task. */
  lemma RemoveOne(tasks: seq<Task>, k: nat)
    requires UniqueIds(tasks) && k < |tasks|
    ensures |RemoveTasks(tasks, tasks[k].id)| == |tasks| - 1
    ensures tasks[k] !in RemoveTasks(tasks, tasks[k].id)
  {
    UniqueIdCount(tasks, k);
    RemoveSpec(tasks, tasks[k].id);
  }

  lemma CreateKeepsUniqueIds(tasks: seq<Task>, draft: Draft, id: string, now: int)
    requires UniqueIds(tasks)
    requires forall t :: t in tasks ==> t.id != id
    ensures UniqueIds(tasks + [NewTask(draft, id, now)])
  {
    var r := tasks + [NewTask(draft, id, now)];
    forall i, j | 0 <= i < j < |r| ensures r[i].id != r[j].id {
      if j == |tasks| {
        assert r[i] in tasks;
      }
    }
  }

  lemma UpdateKeepsUniqueIds(tasks: seq<Task>, id: string, u: Updates, now: int)
    requires UniqueIds(tasks) && u.id.None?
    ensures UniqueIds(UpdateTasks(tasks, id, u, now))
  {
  }

  lemma {:induction false} RemoveKeepsUniqueIds(tasks: seq<Task>, id: string)
    requires UniqueIds(tasks)
    ensures UniqueIds(RemoveTasks(tasks, id))
  {
    if tasks != [] {
      RemoveKeepsUniqueIds(tasks[1..], id);
      var rest := RemoveTasks(tasks[1..], id);
      if tasks[0].id != id {
        var r := [tasks[0]] + rest;
        assert r == RemoveTasks(tasks, id);
        forall j | 0 < j < |r| ensures r[0].id != r[j].id {
          assert r[j] in rest;
          assert r[j] in tasks[1..];
        }
      }
    }
  }

  // ---- effects on the statistics ----

  /** A created task counts once more in the total and among the pending tasks; completed is unchanged. */
  lemma CreateStats(tasks: seq<Task>, draft: Draft, id: string, now: int, startOfToday: int)
    ensures ComputeStats(tasks + [NewTask(draft, id, now)], startOfToday).total == |tasks| + 1
    ensures ComputeStats(tasks + [NewTask(draft, id, now)], startOfToday).pending == ComputeStats(tasks, startOfToday).pending + 1
    ensures ComputeStats(tasks + [NewTask(draft, id, now)], startOfToday).completed == ComputeStats(tasks, startOfToday).completed
  {
    var t := NewTask(draft, id, now);
    FilterAppend(tasks, [t], HasStatus(Pending));
    FilterAppend(tasks, [t], HasStatus(Completed));
  }

  /** Updating the first task of a list whose other ids differ replaces that task alone. */
  lemma UpdateFirst(tasks: seq<Task>, u: Updates, now: int)
    requires UniqueIds(tasks) && tasks != []
    ensures UpdateTasks(tasks, tasks[0].id, u, now) == [Merge(tasks[0], u, now)] + tasks[1..]
  {
    var rest := tasks[1..];
    forall t | t in rest ensures t.id != tasks[0].id {
      var j :| 0 <= j < |rest| && rest[j] == t;
      assert tasks[j + 1] == t;
    }
    UpdateAbsentId(rest, tasks[0].id, u, now);
  }

  /** A list with unique ids keeps them without its first task. */
  lemma UniqueIdsTail(tasks: seq<Task>)
    requires UniqueIds(tasks) && tasks != []
    ensures UniqueIds(tasks[1..])
  {
    var rest := tasks[1..];
    forall i, j | 0 <= i < j < |rest| ensures rest[i].id != rest[j].id {
      assert rest[i] == tasks[i + 1] && rest[j] == tasks[j + 1];
    }
  }

  /**
   * Completing the one task with a given id replaces it by its completed version, so any
   * count over the list changes by what that replacement changes.
   */
  lemma {:induction false} CompleteCount(tasks: seq<Task>, k: nat, now: int, p: Task -> bool)
    requires UniqueIds(tasks) && k < |tasks|
    ensures var done := tasks[k].(status := Completed, updatedAt := Some(now));
      |Filter(UpdateTasks(tasks, tasks[k].id, StatusChange(Completed), now), p)|
        == |Filter(tasks, p)| - (if p(tasks[k]) then 1 else 0) + (if p(done) then 1 else 0)
  {
    var id := tasks[k].id;
    var u := StatusChange(Completed);
    var rest := tasks[1..];
    assert tasks == [tasks[0]] + rest;
    FilterCons(tasks[0], rest, p);
    if k == 0 {
      UpdateFirst(tasks, u, now);
      MergeStatusOnly(tasks[0], Completed, now);
      FilterCons(Merge(tasks[0], u, now), rest, p);
    } else {
      var afterRest := UpdateTasks(rest, id, u, now);
      assert tasks[0].id != id;
      assert UpdateTasks(tasks, id, u, now) == [tasks[0]] + afterRest;
      FilterCons(tasks[0], afterRest, p);
      UniqueIdsTail(tasks);
      assert rest[k - 1] == tasks[k];
      CompleteCount(rest, k - 1, now, p);
    }
  }

  /**
   * Completing the one task with a given id, not completed before, adds one to the
   * completed count, removes it from the pending count if it was pending and from the
   * overdue count if it was overdue, and leaves the total alone.
   */
  lemma CompleteStats(tasks: seq<Task>, k: nat, now: int, startOfToday: int)
    requires UniqueIds(tasks) && k < |tasks|
    requires tasks[k].status != Completed
    ensures var before, after := ComputeStats(tasks, startOfToday),
                                 ComputeStats(UpdateTasks(tasks, tasks[k].id, StatusChange(Completed), now), startOfToday);
      && after.total == before.total
      && after.completed == before.completed + 1
      && after.pending == before.pending - (if tasks[k].status == Pending then 1 else 0)
      && after.overdue == before.overdue - (if IsOverdue(tasks[k], startOfToday) then 1 else 0)
  {
    CompleteCount(tasks, k, now, HasStatus(Completed));
    CompleteCount(tasks, k, now, HasStatus(Pending));
    CompleteCount(tasks, k, now, OverdueAt(startOfToday));
  }
}
