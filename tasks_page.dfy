/** The Tasks page: its three filters, the counts in its header, the category list
    of its filter, and the handlers that toggle and delete a task in its `tasks`
    state once the task store has accepted the change. */
module TasksPage {
  import opened Common
  import opened Entities

  /** The predicate of `filteredTasks`: an empty filter matches every task; a status
      filter other than "Completed" and "Pending" matches none. */
  predicate MatchesFilters(t: Task, category: string, priority: string, status: string)
  {
    && (category == "" || t.category == category)
    && (priority == "" || t.priority == priority)
    && (status == "" || (status == "Completed" && t.completed) || (status == "Pending" && !t.completed))
  }

  /** `filteredTasks` */
  function FilteredTasks(tasks: seq<Task>, category: string, priority: string, status: string): (r: seq<Task>)
    ensures forall i :: 0 <= i < |r| ==> r[i] in tasks && MatchesFilters(r[i], category, priority, status)
    ensures forall i :: 0 <= i < |tasks| && MatchesFilters(tasks[i], category, priority, status) ==> tasks[i] in r
  {
    Filter(tasks, (t: Task) => MatchesFilters(t, category, priority, status))
  }

  /** With no filter chosen the page shows every task, in order. */
  lemma NoFiltersShowAll(tasks: seq<Task>)
    ensures FilteredTasks(tasks, "", "", "") == tasks
  {
    FilterAllPass(tasks, (t: Task) => MatchesFilters(t, "", "", ""));
  }

  /** Filtering keeps the page's order: tasks shown from a list and from its
      continuation appear in that order. */
  lemma FilteredTasksAppend(a: seq<Task>, b: seq<Task>, category: string, priority: string, status: string)
    ensures FilteredTasks(a + b, category, priority, status)
      == FilteredTasks(a, category, priority, status) + FilteredTasks(b, category, priority, status)
  {
    FilterAppend(a, b, (t: Task) => MatchesFilters(t, category, priority, status));
  }

  /** A status filter outside the offered ones hides every task. */
  lemma UnknownStatusShowsNothing(tasks: seq<Task>, category: string, priority: string, status: string)
    requires status != "" && status != "Completed" && status != "Pending"
    ensures FilteredTasks(tasks, category, priority, status) == []
  {
    FilterNonePass(tasks, (t: Task) => MatchesFilters(t, category, priority, status));
  }

  /** The "Completed" and "Pending" views split the list between them. */
  lemma StatusViewsPartition(tasks: seq<Task>)
    ensures |FilteredTasks(tasks, "", "", "Completed")| + |FilteredTasks(tasks, "", "", "Pending")| == |tasks|
  {
    CountComplement(tasks, (t: Task) => MatchesFilters(t, "", "", "Completed"),
                           (t: Task) => MatchesFilters(t, "", "", "Pending"));
  }

  /** `completedTasks` */
  function CompletedCount(tasks: seq<Task>): nat
  {
    Count(tasks, (t: Task) => t.completed)
  }

  /** `pendingTasks` */
  function PendingCount(tasks: seq<Task>): nat
  {
    Count(tasks, (t: Task) => !t.completed)
  }

  /** `highPriorityTasks`: High and not completed. */
  function HighPriorityCount(tasks: seq<Task>): nat
  {
    Count(tasks, (t: Task) => t.priority == "High" && !t.completed)
  }

  /** Completed and pending tasks make up the whole list, and the high-priority
      count is part of the pending one. */
  lemma HeaderCounts(tasks: seq<Task>)
    ensures CompletedCount(tasks) + PendingCount(tasks) == |tasks|
    ensures HighPriorityCount(tasks) <= PendingCount(tasks)
  {
    CountComplement(tasks, (t: Task) => t.completed, (t: Task) => !t.completed);
    CountMonotone(tasks, (t: Task) => t.priority == "High" && !t.completed, (t: Task) => !t.completed);
  }

  /** `categories`: each category of a task once, in order of first use. */
  function Categories(tasks: seq<Task>): (r: seq<string>)
    ensures forall i :: 0 <= i < |r| ==> exists j :: 0 <= j < |tasks| && tasks[j].category == r[i]
    ensures forall j :: 0 <= j < |tasks| ==> tasks[j].category in r
    ensures forall i, k :: 0 <= i < k < |r| ==> r[i] != r[k]
  {
    var all := Map(tasks, (t: Task) => t.category);
    assert forall j :: 0 <= j < |tasks| ==> all[j] == tasks[j].category;
    Distinct(all)
  }

  /** Order of first use: one more task adds its category at the end of the list,
      unless the category is already there. */
  lemma CategoriesSnoc(tasks: seq<Task>, t: Task)
    ensures Categories(tasks + [t])
      == Categories(tasks) + (if t.category in Categories(tasks) then [] else [t.category])
  {
    MapAppend(tasks, [t], (t: Task) => t.category);
    DistinctAfterAppend(Map(tasks, (t: Task) => t.category), Map([t], (t: Task) => t.category), []);
    assert Map([t], (t: Task) => t.category) == [t.category];
    assert [] + Categories(tasks) == Categories(tasks);
    assert DistinctAfter([t.category], Categories(tasks))
      == if t.category in Categories(tasks) then [] else [t.category];
  }

  /** The list after a toggle: every task with that Id replaced by the first such
      task with its completion flipped. */
  function Toggled(tasks: seq<Task>, id: int): (r: seq<Task>)
    requires FindFirst(tasks, (t: Task) => t.id == id).Some?
    ensures |r| == |tasks|
  {
    var first := tasks[FindFirst(tasks, (t: Task) => t.id == id).value];
    var updated := first.(completed := !first.completed);
    Map(tasks, (t: Task) => if t.id == id then updated else t)
  }

  /** Whether no two tasks share an Id, as the store's Ids are. */
  predicate UniqueIds(tasks: seq<Task>)
  {
    forall i, j :: 0 <= i < j < |tasks| ==> tasks[i].id != tasks[j].id
  }

  /** With unique Ids a toggle flips the completion of that task and touches no other. */
  lemma ToggleFlipsOne(tasks: seq<Task>, id: int)
    requires UniqueIds(tasks)
    requires FindFirst(tasks, (t: Task) => t.id == id).Some?
    ensures forall i :: 0 <= i < |tasks| && tasks[i].id != id ==> Toggled(tasks, id)[i] == tasks[i]
    ensures forall i :: 0 <= i < |tasks| && tasks[i].id == id ==>
      Toggled(tasks, id)[i] == tasks[i].(completed := !tasks[i].completed)
  {
  }

  /** Toggling the same task twice gives back the list. */
  lemma ToggleTwice(tasks: seq<Task>, id: int)
    requires UniqueIds(tasks)
    requires FindFirst(tasks, (t: Task) => t.id == id).Some?
    ensures FindFirst(Toggled(tasks, id), (t: Task) => t.id == id).Some?
    ensures Toggled(Toggled(tasks, id), id) == tasks
  {
    var once := Toggled(tasks, id);
    ToggleFlipsOne(tasks, id);
    var k := FindFirst(tasks, (t: Task) => t.id == id).value;
    assert once[k].id == id;
    assert UniqueIds(once);
    ToggleFlipsOne(once, id);
  }

  /** The list after a delete: every task with that Id gone, the rest in order. */
  function WithoutTask(tasks: seq<Task>, id: int): (r: seq<Task>)
    ensures forall i :: 0 <= i < |r| ==> r[i].id != id && r[i] in tasks
    ensures forall i :: 0 <= i < |tasks| && tasks[i].id != id ==> tasks[i] in r
  {
    Filter(tasks, (t: Task) => t.id != id)
  }

  /** A delete keeps the list's order: what is left of a list and of its continuation
      appears in that order. */
  lemma WithoutTaskAppend(a: seq<Task>, b: seq<Task>, id: int)
    ensures WithoutTask(a + b, id) == WithoutTask(a, id) + WithoutTask(b, id)
  {
    FilterAppend(a, b, (t: Task) => t.id != id);
  }

  /** Deleting an Id no task has leaves the list as it was. */
  lemma WithoutTaskUnknownId(tasks: seq<Task>, id: int)
    requires forall i :: 0 <= i < |tasks| ==> tasks[i].id != id
    ensures WithoutTask(tasks, id) == tasks
  {
    FilterAllPass(tasks, (t: Task) => t.id != id);
  }

  class Page {
    /** The page's `tasks` state. */
    var tasks: seq<Task>

    constructor (loaded: seq<Task>)
      ensures tasks == loaded
    {
      tasks := loaded;
    }

    /** `handleToggleTask`: an unknown Id, or an update the store rejects, changes
        nothing; otherwise the list becomes `Toggled`. The flipped task is the one
        sent to the store, returned in `sent`. */
    method ToggleTask(id: int, storeAccepts: bool) returns (sent: Option<Task>)
      modifies this
      ensures FindFirst(old(tasks), (t: Task) => t.id == id).None? ==> sent.None? && tasks == old(tasks)
      ensures FindFirst(old(tasks), (t: Task) => t.id == id).Some? ==>
        var first := old(tasks)[FindFirst(old(tasks), (t: Task) => t.id == id).value];
        && sent == Some(first.(completed := !first.completed))
        && tasks == (if storeAccepts then Toggled(old(tasks), id) else old(tasks))
    {
      match FindFirst(tasks, (t: Task) => t.id == id)
      case None =>
        sent := None;
      case Some(k) =>
        var updated := tasks[k].(completed := !tasks[k].completed);
        sent := Some(updated);
        if storeAccepts {
          tasks := Toggled(tasks, id);
        }
    }

    /** `handleDeleteTask`: after a successful store delete the list drops every task
        with that Id; after a failed one it is unchanged. */
    method DeleteTask(id: int, storeAccepts: bool)
      modifies this
      ensures tasks == if storeAccepts then WithoutTask(old(tasks), id) else old(tasks)
    {
      if storeAccepts {
        tasks := WithoutTask(tasks, id);
      }
    }
  }

  /** A delete removes exactly the tasks with that Id. */
  lemma DeleteCount(tasks: seq<Task>, id: int)
    ensures |WithoutTask(tasks, id)| == |tasks| - Count(tasks, (t: Task) => t.id == id)
  {
    CountComplement(tasks, (t: Task) => t.id == id, (t: Task) => t.id != id);
  }
}
