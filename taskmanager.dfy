/** The lab01 task list (labs/lab01/backend/taskmanager/taskmanager.go): tasks in a map
    keyed by id, ids handed out from a counter. `CreatedAt` is the caller's `now`. */
module Lab01TaskManager {
  import opened Wrappers

  datatype Task = Task(id: int, title: string, description: string, done: bool, createdAt: int)

  datatype TaskError = ErrTaskNotFound | ErrEmptyTitle

  /** The zero `Task` Go returns beside an error. */
  const ZeroTask := Task(0, "", "", false, 0)

  /** Whether `ListTasks(filterDone)` keeps `t`: every task for `nil`, else the tasks
      whose `Done` equals the filter. */
  predicate Selected(t: Task, filterDone: Option<bool>)
  {
    filterDone.None? || t.done == filterDone.value
  }

  class TaskManager {
    var tasks: map<int, Task>
    var nextID: int

    /** Every task sits under its own id, and every id is positive and below `nextID`,
        so the next id handed out is free. */
    ghost predicate Valid()
      reads this
    {
      && nextID >= 1
      && forall k :: k in tasks ==> 1 <= k < nextID && tasks[k].id == k
    }

    /** NewTaskManager. */
    constructor ()
      ensures Valid() && tasks == map[] && nextID == 1
    {
      tasks := map[];
      nextID := 1;
    }

    /** AddTask: an empty title fails and changes nothing; otherwise the task is stored,
        not done, under the old `nextID`, which was free, and `nextID` moves on. */
    method AddTask(title: string, description: string, now: int) returns (t: Task, err: Option<TaskError>)
      requires Valid()
      modifies this
      ensures Valid()
      ensures title == "" ==> err == Some(ErrEmptyTitle) && t == ZeroTask &&
                              tasks == old(tasks) && nextID == old(nextID)
      ensures title != "" ==>
        && err == None && t == Task(old(nextID), title, description, false, now)
        && old(nextID) !in old(tasks)
        && tasks == old(tasks)[old(nextID) := t] && nextID == old(nextID) + 1
    {
      if |title| == 0 {
        return ZeroTask, Some(ErrEmptyTitle);
      }
      t := Task(nextID, title, description, false, now);
      tasks := tasks[nextID := t];
      nextID := nextID + 1;
      err := None;
    }

    /** UpdateTask: the empty title is checked before the id; a success rewrites Title,
        Description and Done of that one task and keeps its ID and CreatedAt. */
    method UpdateTask(id: int, title: string, description: string, done: bool) returns (err: Option<TaskError>)
      requires Valid()
      modifies this`tasks
      ensures Valid()
      ensures title == "" ==> err == Some(ErrEmptyTitle) && tasks == old(tasks)
      ensures title != "" && id !in old(tasks) ==> err == Some(ErrTaskNotFound) && tasks == old(tasks)
      ensures title != "" && id in old(tasks) ==>
        && err == None
        && tasks == old(tasks)[id := old(tasks)[id].(title := title, description := description, done := done)]
    {
      if |title| == 0 {
        return Some(ErrEmptyTitle);
      }
      if id !in tasks {
        return Some(ErrTaskNotFound);
      }
      var task := tasks[id];
      task := task.(title := title, description := description, done := done);
      tasks := tasks[id := task];
      err := None;
    }

    /** DeleteTask: removes only `id`, or reports it missing and changes nothing. */
    method DeleteTask(id: int) returns (err: Option<TaskError>)
      requires Valid()
      modifies this`tasks
      ensures Valid()
      ensures id !in old(tasks) ==> err == Some(ErrTaskNotFound) && tasks == old(tasks)
      ensures id in old(tasks) ==> err == None && tasks == old(tasks) - {id}
    {
      if id !in tasks {
        return Some(ErrTaskNotFound);
      }
      tasks := tasks - {id};
      err := None;
    }

    /** GetTask: the stored task, or the zero task with ErrTaskNotFound. */
    method GetTask(id: int) returns (t: Task, err: Option<TaskError>)
      ensures id in tasks ==> t == tasks[id] && err == None
      ensures id !in tasks ==> t == ZeroTask && err == Some(ErrTaskNotFound)
    {
      if id !in tasks {
        return ZeroTask, Some(ErrTaskNotFound);
      }
      return tasks[id], None;
    }

    /** ListTasks: every stored task the filter keeps, each once, in no particular order
        (Go's map iteration order is unspecified). The loop ranges over the stored tasks;
        under Valid() no two entries hold the same task, so each entry is listed once. */
    method ListTasks(filterDone: Option<bool>) returns (res: seq<Task>)
      requires Valid()
      ensures forall t :: t in res <==> t in tasks.Values && Selected(t, filterDone)
      ensures forall i, j :: 0 <= i < j < |res| ==> res[i] != res[j]
    {
      res := [];
      var pending := tasks.Values;
      while pending != {}
        invariant pending <= tasks.Values
        invariant forall t :: t in res <==> t in tasks.Values && t !in pending && Selected(t, filterDone)
        invariant forall i, j :: 0 <= i < j < |res| ==> res[i] != res[j]
        decreases pending
      {
        var task :| task in pending;
        if Selected(task, filterDone) {
          res := res + [task];
        }
        pending := pending - {task};
      }
    }
  }
}
