/**
 * The records the task board works with: tasks, projects, the creation draft and the
 * partial records an update merges in, plus the status rules wired to the task buttons.
 * Priorities and statuses are closed enumerations; their string spellings are kept so
 * that the lookups with a fallback can be stated.
 */
module TaskModel {
  import opened Wrappers

  datatype Priority = Low | Medium | High | Urgent

  datatype Status = Pending | InProgress | Completed

  /** A task. Dates are integer timestamps in milliseconds; the seed tasks carry no creation or update time. */
  datatype Task = Task(
    id: string,
    title: string,
    description: string,
    priority: Priority,
    status: Status,
    dueDate: int,
    projectId: string,
    tags: seq<string>,
    createdAt: Option<int>,
    updatedAt: Option<int>)

  datatype Project = Project(id: string, name: string, color: string, icon: string)

  /**
   * The creation form's draft. `dueDate` is None while the date input is empty and
   * otherwise the timestamp the input denotes; `tags` is the raw comma-separated text.
   */
  datatype Draft = Draft(
    title: string,
    description: string,
    priority: Priority,
    dueDate: Option<int>,
    projectId: string,
    tags: string)

  /** A partial task record: the fields an update spreads over a task, None where the update is silent. */
  datatype Updates = Updates(
    id: Option<string>,
    title: Option<string>,
    description: Option<string>,
    priority: Option<Priority>,
    status: Option<Status>,
    dueDate: Option<int>,
    projectId: Option<string>,
    tags: Option<seq<string>>,
    createdAt: Option<int>)

  /** The toast each handler emits. */
  datatype Notice = TitleRequired | Created | TaskCompleted | TaskUpdated | TaskDeleted

  datatype ViewMode = List | Board

  /** The draft the form starts with and returns to after a task is created. */
  function DefaultDraft(): Draft {
    Draft("", "", Medium, None, "work", "")
  }

  /** The update a status button sends: the new status and nothing else. */
  function StatusChange(s: Status): Updates {
    Updates(None, None, None, None, Some(s), None, None, None, None)
  }

  /** `{...task, ...updates, updatedAt: now}`: every field the update names is replaced, the update time is set. */
  function Merge(t: Task, u: Updates, now: int): (m: Task)
    ensures u.id.Some? ==> m.id == u.id.value
    ensures u.id.None? ==> m.id == t.id
    ensures u.title.Some? ==> m.title == u.title.value
    ensures u.title.None? ==> m.title == t.title
    ensures u.description.Some? ==> m.description == u.description.value
    ensures u.description.None? ==> m.description == t.description
    ensures u.priority.Some? ==> m.priority == u.priority.value
    ensures u.priority.None? ==> m.priority == t.priority
    ensures u.status.Some? ==> m.status == u.status.value
    ensures u.status.None? ==> m.status == t.status
    ensures u.dueDate.Some? ==> m.dueDate == u.dueDate.value
    ensures u.dueDate.None? ==> m.dueDate == t.dueDate
    ensures u.projectId.Some? ==> m.projectId == u.projectId.value
    ensures u.projectId.None? ==> m.projectId == t.projectId
    ensures u.tags.Some? ==> m.tags == u.tags.value
    ensures u.tags.None? ==> m.tags == t.tags
    ensures u.createdAt.Some? ==> m.createdAt == u.createdAt
    ensures u.createdAt.None? ==> m.createdAt == t.createdAt
    ensures m.updatedAt == Some(now)
  {
    Task(
      u.id.GetOr(t.id),
      u.title.GetOr(t.title),
      u.description.GetOr(t.description),
      u.priority.GetOr(t.priority),
      u.status.GetOr(t.status),
      u.dueDate.GetOr(t.dueDate),
      u.projectId.GetOr(t.projectId),
      u.tags.GetOr(t.tags),
      if u.createdAt.Some? then u.createdAt else t.createdAt,
      Some(now))
  }

  lemma MergeStatusOnly(t: Task, s: Status, now: int)
    ensures Merge(t, StatusChange(s), now) == t.(status := s, updatedAt := Some(now))
  {
  }

  // ---- status rules of the buttons ----

  /** The list view's check box: a completed task goes back to pending, any other task becomes completed. */
  function CompleteToggle(s: Status): (r: Status)
    ensures r == Completed <==> s != Completed
    ensures r == Pending <==> s == Completed
  {
    if s == Completed then Pending else Completed
  }

  /** The list view's play button: a task in progress goes back to pending, any other task is started. */
  function PlayToggle(s: Status): (r: Status)
    ensures r == InProgress <==> s != InProgress
    ensures r == Pending <==> s == InProgress
  {
    if s == InProgress then Pending else InProgress
  }

  /** The board's advance button: pending to in progress to completed and back to pending. */
  function Advance(s: Status): (r: Status)
    ensures r != s
    ensures StatusRank(r) == (if s == Completed then 3 else StatusRank(s) - 1)
  {
    if s == Pending then InProgress
    else if s == InProgress then Completed
    else Pending
  }

  /** Advancing is a cycle of length exactly three. */
  lemma AdvanceCycle(s: Status)
    ensures Advance(Advance(Advance(s))) == s
    ensures Advance(Advance(s)) != s
  {
  }

  // ---- ranks used by the sort ----

  /** urgent 4, high 3, medium 2, low 1. */
  function PriorityRank(p: Priority): (r: int)
    ensures 1 <= r <= 4
  {
    match p
    case Urgent => 4
    case High => 3
    case Medium => 2
    case Low => 1
  }

  /** pending 3, in-progress 2, completed 1. */
  function StatusRank(s: Status): (r: int)
    ensures 1 <= r <= 3
  {
    match s
    case Pending => 3
    case InProgress => 2
    case Completed => 1
  }

  // ---- spellings and display lookups with a fallback ----

  function PriorityName(p: Priority): string {
    match p
    case Low => "low"
    case Medium => "medium"
    case High => "high"
    case Urgent => "urgent"
  }

  function StatusName(s: Status): string {
    match s
    case Pending => "pending"
    case InProgress => "in-progress"
    case Completed => "completed"
  }

  /** The priority a spelling names, if any. */
  function ParsePriority(name: string): (r: Option<Priority>)
    ensures r.Some? ==> PriorityName(r.value) == name
    ensures r.None? ==> forall p :: PriorityName(p) != name
  {
    if name == "low" then Some(Low)
    else if name == "medium" then Some(Medium)
    else if name == "high" then Some(High)
    else if name == "urgent" then Some(Urgent)
    else None
  }

  /** The status a spelling names, if any. */
  function ParseStatus(name: string): (r: Option<Status>)
    ensures r.Some? ==> StatusName(r.value) == name
    ensures r.None? ==> forall s :: StatusName(s) != name
  {
    if name == "pending" then Some(Pending)
    else if name == "in-progress" then Some(InProgress)
    else if name == "completed" then Some(Completed)
    else None
  }

  /** The dot colour of a priority; a spelling that names no priority gets medium's colour. */
  function PriorityColor(name: string): (c: string)
    ensures ParsePriority(name).None? ==> c == "bg-yellow-500"
    ensures c == "bg-yellow-500" <==> name == "medium" || ParsePriority(name).None?
  {
    match ParsePriority(name)
    case Some(Urgent) => "bg-red-500"
    case Some(High) => "bg-orange-500"
    case Some(Medium) => "bg-yellow-500"
    case Some(Low) => "bg-green-500"
    case None => "bg-yellow-500"
  }

  /** The icon of a status; a spelling that names no status gets the clock, pending's icon. */
  function StatusIcon(name: string): (i: string)
    ensures ParseStatus(name).None? ==> i == "Clock"
    ensures i == "Clock" <==> name == "pending" || ParseStatus(name).None?
  {
    match ParseStatus(name)
    case Some(Pending) => "Clock"
    case Some(InProgress) => "Play"
    case Some(Completed) => "CheckCircle"
    case None => "Clock"
  }
}
