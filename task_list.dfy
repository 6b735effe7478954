/** The task list organism: its priority badge and the order it shows tasks in. */
module TaskList {
  import opened Common
  import opened Entities
  import opened Sorting

  /** `getPriorityBadge`: High is error, Medium warning, Low and anything else info. */
  function PriorityBadge(priority: string): (v: Variant)
    ensures v == Error <==> priority == "High"
    ensures v == Warning <==> priority == "Medium"
    ensures v == Info <==> priority != "High" && priority != "Medium"
  {
    if priority == "High" then Error
    else if priority == "Medium" then Warning
    else if priority == "Low" then Info
    else Info
  }

  /** `priorityOrder[p]`: High 3, Medium 2, Low 1, `undefined` for anything else. */
  function Rank(priority: string): (r: Option<int>)
    ensures r.Some? <==> priority in {"High", "Medium", "Low"}
    ensures r.Some? ==> 1 <= r.value <= 3
  {
    if priority == "High" then Some(3)
    else if priority == "Medium" then Some(2)
    else if priority == "Low" then Some(1)
    else None
  }

  /** The comparator of `sortedTasks`: incomplete tasks first, then higher priority,
      then earlier due date. Two different ranks of which one is `undefined` subtract
      to `NaN`, which the sort treats as 0. */
  function TaskOrder(a: Task, b: Task): (r: int)
    ensures a.completed != b.completed ==> r != 0 && (r > 0 <==> a.completed)
    ensures (a.completed == b.completed && Rank(a.priority) != Rank(b.priority)
             && Rank(a.priority).Some? && Rank(b.priority).Some?) ==>
      r != 0 && (r < 0 <==> Rank(a.priority).value > Rank(b.priority).value)
    ensures (a.completed == b.completed && Rank(a.priority) != Rank(b.priority)
             && (Rank(a.priority).None? || Rank(b.priority).None?)) ==> r == 0
    ensures a.completed == b.completed && Rank(a.priority) == Rank(b.priority) ==>
      (r < 0 <==> a.dueDate < b.dueDate) && (r == 0 <==> a.dueDate == b.dueDate)
  {
    if a.completed != b.completed then (if a.completed then 1 else -1)
    else if Rank(a.priority) != Rank(b.priority) then
      (if Rank(a.priority).Some? && Rank(b.priority).Some? then Rank(b.priority).value - Rank(a.priority).value else 0)
    else a.dueDate - b.dueDate
  }

  predicate KnownPriority(t: Task)
  {
    Rank(t.priority).Some?
  }

  /** `sortedTasks` */
  function SortedTasks(tasks: seq<Task>): (r: seq<Task>)
    ensures multiset(r) == multiset(tasks)
  {
    Sort(tasks, TaskOrder)
  }

  /** On tasks whose priorities are all High, Medium or Low the comparator is a
      consistent ordering. */
  lemma TaskOrderConsistent()
    ensures ConsistentOn(TaskOrder, KnownPriority)
  {
    forall x, y, z | KnownPriority(x) && KnownPriority(y) && KnownPriority(z) && Chain(TaskOrder, x, y, z)
      ensures TaskOrder(x, z) <= 0
    {
    }
  }

  /** The order of the shown list: every incomplete task before every completed one;
      among equally complete tasks the higher priority first; among those with equal
      priority too, the earlier due date first. */
  lemma SortedTasksOrder(tasks: seq<Task>)
    requires forall i :: 0 <= i < |tasks| ==> KnownPriority(tasks[i])
    ensures forall i, j :: 0 <= i < j < |SortedTasks(tasks)| ==>
      var a, b := SortedTasks(tasks)[i], SortedTasks(tasks)[j];
      && KnownPriority(a) && KnownPriority(b)
      && !(a.completed && !b.completed)
      && (a.completed == b.completed ==> Rank(a.priority).value >= Rank(b.priority).value)
      && (a.completed == b.completed && a.priority == b.priority ==> a.dueDate <= b.dueDate)
  {
    TaskOrderConsistent();
    SortSorted(tasks, TaskOrder, KnownPriority);
    var r := SortedTasks(tasks);
    forall i, j | 0 <= i < j < |r|
      ensures KnownPriority(r[i]) && KnownPriority(r[j])
      ensures !(r[i].completed && !r[j].completed)
      ensures r[i].completed == r[j].completed ==> Rank(r[i].priority).value >= Rank(r[j].priority).value
      ensures r[i].completed == r[j].completed && r[i].priority == r[j].priority ==> r[i].dueDate <= r[j].dueDate
    {
      assert TaskOrder(r[i], r[j]) <= 0;
      assert KnownPriority(r[i]) && KnownPriority(r[j]);
    }
  }

  /** A task whose priority is not one of the three compares equal to every task of a
      known priority with the same completion, whatever their due dates: the order is
      then not a consistent ranking. */
  lemma UnknownPriorityTies(a: Task, b: Task)
    requires !KnownPriority(a) && KnownPriority(b) && a.completed == b.completed
    ensures TaskOrder(a, b) == 0 && TaskOrder(b, a) == 0
  {
  }
}
