/** The two database tables the core writes: the task table, whose rows are
    updated in place, and the task-history table, which only grows. */
module Store {
  import opened Basics
  import opened Models

  /** Task ids are a primary key: no two rows share one. */
  ghost predicate UniqueIds(ts: seq<Task>) {
    forall i, j :: 0 <= i < |ts| && 0 <= j < |ts| && ts[i].id == ts[j].id ==> i == j
  }

  /** A task with its completion flag flipped and every other field kept. */
  function Toggled(t: Task): (r: Task)
    ensures r.completed == !t.completed
    ensures r.(completed := t.completed) == t
  {
    t.(completed := !t.completed)
  }

  /** Toggling twice restores the task. */
  lemma ToggleTwice(t: Task)
    ensures Toggled(Toggled(t)) == t
  {
  }

  class Database {
    var tasks: array<Task>
    var history: seq<TaskHistory>

    ghost predicate Valid()
      reads this, tasks
    {
      UniqueIds(tasks[..])
    }

    constructor (rows: seq<Task>, archived: seq<TaskHistory>)
      requires UniqueIds(rows)
      ensures Valid() && fresh(tasks)
      ensures tasks[..] == rows && history == archived
    {
      tasks := new Task[|rows|](i requires 0 <= i < |rows| => rows[i]);
      history := archived;
    }

    /** The row index of the task with the given primary key, or -1. */
    method IndexOf(id: nat) returns (i: int)
      requires Valid()
      ensures -1 <= i < tasks.Length
      ensures i >= 0 ==> tasks[i].id == id
      ensures i < 0 ==> forall j :: 0 <= j < tasks.Length ==> tasks[j].id != id
    {
      i := 0;
      while i < tasks.Length
        invariant 0 <= i <= tasks.Length
        invariant forall j :: 0 <= j < i ==> tasks[j].id != id
      {
        if tasks[i].id == id {
          return;
        }
        i := i + 1;
      }
      i := -1;
    }

    /** `task.completed = not task.completed; task.save()` on row i. */
    method ToggleAt(i: nat)
      requires Valid() && i < tasks.Length
      modifies tasks
      ensures Valid()
      ensures tasks[..] == old(tasks[..])[i := Toggled(old(tasks[i]))]
    {
      tasks[i] := Toggled(tasks[i]);
      assert tasks[..] == old(tasks[..])[i := Toggled(old(tasks[i]))];
      assert forall j :: 0 <= j < tasks.Length ==> tasks[j].id == old(tasks[j]).id;
    }
  }
}
