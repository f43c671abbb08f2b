/**
 * The task board component's state and its event handlers. The handlers replace the
 * state's fields with the values the store functions compute; the views are recomputed
 * from the fields. Clock readings and generated ids are parameters.
 */
module Component {
  import opened Wrappers
  import opened TaskModel
  import opened Derivations
  import opened TaskStore

  /** Midnight UTC of 23, 24 and 25 December 2024, in milliseconds. */
  const Dec23: int := 1734912000000
  const Dec24: int := 1734998400000
  const Dec25: int := 1735084800000

  function SeedTasks(): seq<Task> {
    [ Task("1", "Complete project proposal", "Finalize the Q4 project proposal with updated budget estimates",
           High, InProgress, Dec25, "work", ["urgent", "client"], None, None),
      Task("2", "Team standup meeting", "Weekly team sync to discuss progress and blockers",
           Medium, Pending, Dec24, "work", ["meeting"], None, None),
      Task("3", "Grocery shopping", "Buy ingredients for weekend dinner party",
           Low, Pending, Dec23, "personal", ["errands"], None, None) ]
  }

  function SeedProjects(): seq<Project> {
    [ Project("work", "Work", "#6366f1", "Briefcase"),
      Project("personal", "Personal", "#f97316", "User"),
      Project("health", "Health", "#06d6a0", "Heart") ]
  }

  /** The first render: every seed task shown, sorted by due date, so 23, 24 then 25 December. */
  lemma SeedViewByDueDate()
    ensures FilteredTasks(SeedTasks(), "all", "dueDate") == [SeedTasks()[2], SeedTasks()[1], SeedTasks()[0]]
  {
    var s := SeedTasks();
    ByProjectAll(s);
    SortReversedTriple(s[0], s[1], s[2], "dueDate");
    assert s == [s[0], s[1], s[2]];
  }

  /** The overdue count of one task due before today: one while it is open, none once it is completed. */
  lemma OverdueExample(t: Task, startOfToday: int)
    requires t.dueDate < startOfToday
    ensures ComputeStats([t], startOfToday).overdue == if t.status == Completed then 0 else 1
  {
  }

  class MainFeature {
    var tasks: seq<Task>
    const projects: seq<Project>
    var activeProject: string
    var viewMode: ViewMode
    var sortBy: string
    var showTaskForm: bool
    var newTask: Draft

    constructor ()
      ensures tasks == SeedTasks() && projects == SeedProjects()
      ensures activeProject == "all" && viewMode == List && sortBy == "dueDate"
      ensures !showTaskForm && newTask == DefaultDraft()
    {
      tasks := SeedTasks();
      projects := SeedProjects();
      activeProject := "all";
      viewMode := List;
      sortBy := "dueDate";
      showTaskForm := false;
      newTask := DefaultDraft();
    }

    /** The list the page renders. */
    function View(): seq<Task>
      reads this
    {
      FilteredTasks(tasks, activeProject, sortBy)
    }

    /** The dashboard's counts. */
    function Statistics(startOfToday: int): Stats
      reads this
    {
      ComputeStats(tasks, startOfToday)
    }

    /** The board's columns. */
    function Columns(): seq<seq<Task>>
      reads this
    {
      BoardColumns(View())
    }

    /**
     * Submitting the form. A blank title only raises the error toast. Otherwise the new
     * task is appended, the draft returns to its defaults and the form closes.
     */
    method CreateTask(id: string, now: int) returns (notice: Notice)
      modifies this
      ensures IsBlank(old(newTask.title)) ==>
        notice == TitleRequired && tasks == old(tasks) && newTask == old(newTask) && showTaskForm == old(showTaskForm)
      ensures !IsBlank(old(newTask.title)) ==>
        notice == Created && tasks == old(tasks) + [NewTask(old(newTask), id, now)]
        && newTask == DefaultDraft() && !showTaskForm
      ensures activeProject == old(activeProject) && viewMode == old(viewMode) && sortBy == old(sortBy)
    {
      if IsBlank(newTask.title) {
        notice := TitleRequired;
      } else {
        tasks := tasks + [NewTask(newTask, id, now)];
        newTask := DefaultDraft();
        showTaskForm := false;
        notice := Created;
      }
    }

    /** Merges `updates` into every task with the id; the toast celebrates a completion. */
    method UpdateTask(taskId: string, updates: Updates, now: int) returns (notice: Notice)
      modifies this
      ensures tasks == UpdateTasks(old(tasks), taskId, updates, now)
      ensures notice == UpdateNotice(updates)
      ensures UniqueIds(old(tasks)) && updates.id.None? ==> UniqueIds(tasks)
      ensures newTask == old(newTask) && showTaskForm == old(showTaskForm)
      ensures activeProject == old(activeProject) && viewMode == old(viewMode) && sortBy == old(sortBy)
    {
      if UniqueIds(tasks) && updates.id.None? {
        UpdateKeepsUniqueIds(tasks, taskId, updates, now);
      }
      tasks := UpdateTasks(tasks, taskId, updates, now);
      notice := UpdateNotice(updates);
    }

    /** Removes every task with the id. */
    method DeleteTask(taskId: string) returns (notice: Notice)
      modifies this
      ensures tasks == RemoveTasks(old(tasks), taskId)
      ensures notice == TaskDeleted
      ensures UniqueIds(old(tasks)) ==> UniqueIds(tasks)
      ensures newTask == old(newTask) && showTaskForm == old(showTaskForm)
      ensures activeProject == old(activeProject) && viewMode == old(viewMode) && sortBy == old(sortBy)
    {
      if UniqueIds(tasks) {
        RemoveKeepsUniqueIds(tasks, taskId);
      }
      tasks := RemoveTasks(tasks, taskId);
      notice := TaskDeleted;
    }

    /** The list view's check box on `task`. */
    method ToggleComplete(task: Task, now: int) returns (notice: Notice)
      modifies this
      ensures tasks == UpdateTasks(old(tasks), task.id, StatusChange(CompleteToggle(task.status)), now)
      ensures notice == (if task.status != Completed then TaskCompleted else TaskUpdated)
      ensures newTask == old(newTask) && showTaskForm == old(showTaskForm)
      ensures activeProject == old(activeProject) && viewMode == old(viewMode) && sortBy == old(sortBy)
    {
      notice := UpdateTask(task.id, StatusChange(CompleteToggle(task.status)), now);
    }

    /** The list view's play button on `task`. */
    method TogglePlay(task: Task, now: int) returns (notice: Notice)
      modifies this
      ensures tasks == UpdateTasks(old(tasks), task.id, StatusChange(PlayToggle(task.status)), now)
      ensures notice == TaskUpdated
      ensures newTask == old(newTask) && showTaskForm == old(showTaskForm)
      ensures activeProject == old(activeProject) && viewMode == old(viewMode) && sortBy == old(sortBy)
    {
      notice := UpdateTask(task.id, StatusChange(PlayToggle(task.status)), now);
    }

    /** The advance button on `task` in the board column of `column`. */
    method AdvanceStage(column: Status, task: Task, now: int) returns (notice: Notice)
      modifies this
      ensures tasks == UpdateTasks(old(tasks), task.id, StatusChange(Advance(column)), now)
      ensures notice == (if column == InProgress then TaskCompleted else TaskUpdated)
      ensures newTask == old(newTask) && showTaskForm == old(showTaskForm)
      ensures activeProject == old(activeProject) && viewMode == old(viewMode) && sortBy == old(sortBy)
    {
      notice := UpdateTask(task.id, StatusChange(Advance(column)), now);
    }

    // ---- view-state setters: none of them touches the task list ----

    method SelectProject(project: string)
      modifies this
      ensures activeProject == project
      ensures tasks == old(tasks) && newTask == old(newTask) && showTaskForm == old(showTaskForm)
      ensures viewMode == old(viewMode) && sortBy == old(sortBy)
    {
      activeProject := project;
    }

    method SelectSort(key: string)
      modifies this
      ensures sortBy == key
      ensures tasks == old(tasks) && newTask == old(newTask) && showTaskForm == old(showTaskForm)
      ensures viewMode == old(viewMode) && activeProject == old(activeProject)
    {
      sortBy := key;
    }

    method SelectView(mode: ViewMode)
      modifies this
      ensures viewMode == mode
      ensures tasks == old(tasks) && newTask == old(newTask) && showTaskForm == old(showTaskForm)
      ensures sortBy == old(sortBy) && activeProject == old(activeProject)
    {
      viewMode := mode;
    }

    /** Opening or closing the form (add button, backdrop, close icon, cancel); the draft is kept either way. */
    method SetFormVisible(visible: bool)
      modifies this
      ensures showTaskForm == visible
      ensures tasks == old(tasks) && newTask == old(newTask)
      ensures viewMode == old(viewMode) && sortBy == old(sortBy) && activeProject == old(activeProject)
    {
      showTaskForm := visible;
    }

    /** A change in one of the form's inputs: the draft becomes `draft`. */
    method EditDraft(draft: Draft)
      modifies this
      ensures newTask == draft
      ensures tasks == old(tasks) && showTaskForm == old(showTaskForm)
      ensures viewMode == old(viewMode) && sortBy == old(sortBy) && activeProject == old(activeProject)
    {
      newTask := draft;
    }
  }
}
