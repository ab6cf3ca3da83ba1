/**
 * The task list of App.tsx as an object whose handlers replace the list in place
 * (`setTasks`), with the React updater callbacks run immediately on the current list.
 */
module Store {

  import opened Wrappers
  import opened Types
  import opened Seqs
  import opened Tasks
  import opened Registry

  /**
   * updateTask's updater `prev => prev.map(...)`: builds the new list and flips the captured
   * flags `taskExists` (some task matched) and `updateApplied` (a matching task was patched).
   */
  method MapUpdate(prev: seq<Task>, taskId: Value, status: Value, assignedTo: Value)
    returns (next: seq<Task>, taskExists: bool, updateApplied: bool)
    ensures next == UpdatedList(prev, taskId, status, assignedTo)
    ensures taskExists <==> HasId(prev, taskId)
    ensures updateApplied <==> taskExists && (Truthy(status) || Truthy(assignedTo))
  {
    next, taskExists, updateApplied := [], false, false;
    var i := 0;
    while i < |prev|
      invariant 0 <= i <= |prev| && |next| == i
      invariant forall k :: 0 <= k < i ==> next[k] == Patched(prev[k], taskId, status, assignedTo)
      invariant taskExists <==> exists k :: 0 <= k < i && prev[k].id == taskId
      invariant updateApplied <==> taskExists && (Truthy(status) || Truthy(assignedTo))
    {
      var task := prev[i];
      if task.id == taskId {
        taskExists := true;
        if Truthy(status) || Truthy(assignedTo) {
          updateApplied := true;
          task := task.(status := if Truthy(status) then status else task.status,
                        assignedTo := if Truthy(assignedTo) then assignedTo else task.assignedTo);
        }
      }
      next := next + [task];
      i := i + 1;
    }
  }

  /**
   * deleteTask's updater `prev => prev.filter(...)`: keeps the tasks with another id and flips
   * the captured flag `taskExists` when it drops one.
   */
  method FilterDelete(prev: seq<Task>, taskId: Value) returns (next: seq<Task>, taskExists: bool)
    ensures next == Filter(IdIsNot(taskId), prev)
    ensures taskExists <==> HasId(prev, taskId)
  {
    next, taskExists := [], false;
    var i := 0;
    while i < |prev|
      invariant 0 <= i <= |prev|
      invariant next == Filter(IdIsNot(taskId), prev[..i])
      invariant taskExists <==> exists k :: 0 <= k < i && prev[k].id == taskId
    {
      FilterSnoc(IdIsNot(taskId), prev[..i], prev[i]);
      assert prev[..i + 1] == prev[..i] + [prev[i]];
      if prev[i].id == taskId {
        taskExists := true;
      } else {
        next := next + [prev[i]];
      }
      i := i + 1;
    }
    assert prev[..i] == prev;
  }

  class TaskStore {

    var tasks: seq<Task>

    /** The list loaded at start-up (saved tasks or the built-in defaults). */
    constructor (initial: seq<Task>)
      ensures tasks == initial
    {
      tasks := initial;
    }

    method AddComplaint(id: Value, description: Value, assignedTo: Value, today: string) returns (r: Reply)
      modifies this
      ensures tasks == Add(old(tasks), id, description, assignedTo, today).tasks
      ensures r == Add(old(tasks), id, description, assignedTo, today).reply
    {
      if exists i :: 0 <= i < |tasks| && tasks[i].id == id {
        return Reply(false, DuplicateId(id), None);
      }
      var newTask := Task(id, description, Str(Pending.Text()),
                          if Truthy(assignedTo) then assignedTo else Unassigned, today);
      tasks := [newTask] + tasks;
      r := Reply(true, ComplaintAdded(description, id), Some(id));
    }

    method UpdateTask(taskId: Value, status: Value, assignedTo: Value) returns (r: Reply)
      modifies this
      ensures tasks == Update(old(tasks), taskId, status, assignedTo).tasks
      ensures r == Update(old(tasks), taskId, status, assignedTo).reply
    {
      var next, taskExists, updateApplied := MapUpdate(tasks, taskId, status, assignedTo);
      tasks := next;
      if !taskExists {
        return Reply(false, NotFound(taskId), None);
      }
      if !updateApplied {
        return Reply(false, NoUpdates(taskId), None);
      }
      r := Reply(true, TaskUpdated(taskId), None);
    }

    method DeleteTask(taskId: Value) returns (r: Reply)
      modifies this
      ensures tasks == Delete(old(tasks), taskId).tasks
      ensures r == Delete(old(tasks), taskId).reply
    {
      var next, taskExists := FilterDelete(tasks, taskId);
      tasks := next;
      if !taskExists {
        return Reply(false, NotFound(taskId), None);
      }
      r := Reply(true, TaskDeleted(taskId), None);
    }

    /** Read-only: returns the list, or the tasks whose status is exactly `status` when one is given. */
    method GetTasks(status: Value) returns (r: seq<Task>)
      ensures r == Query(tasks, status).reply.tasks
      ensures !Truthy(status) ==> r == tasks
      ensures Truthy(status) ==> forall t :: t in r <==> t in tasks && t.status == status
    {
      if Truthy(status) {
        return Filter(StatusIs(status), tasks);
      }
      r := tasks;
    }

    /** Read-only apart from the download: `sheet` is what is handed to the download step. */
    method CreateGoogleSheetForTask(taskId: Value) returns (r: Reply, sheet: Option<Sheet>)
      ensures r == SheetForTask(tasks, taskId).reply && sheet == SheetForTask(tasks, taskId).sheet
      ensures r.success <==> HasId(tasks, taskId)
    {
      var task := FindById(tasks, taskId);
      if task.None? {
        return Reply(false, NotFound(taskId), None), None;
      }
      r, sheet := Reply(true, TaskSheetDownloaded(taskId), None), Some(TaskDetails(task.value));
    }

    method CreateGoogleSheetForAllTasks() returns (r: Reply, sheet: Option<Sheet>)
      ensures r == SheetForAll(tasks).reply && sheet == SheetForAll(tasks).sheet
      ensures r.success <==> |tasks| > 0
    {
      if |tasks| == 0 {
        return Reply(false, NothingToExport, None), None;
      }
      r, sheet := Reply(true, AllTasksSheetDownloaded(|tasks|), None), Some(AllTasksReport(tasks));
    }

    /** `functionToCall(...Object.values(fc.args))` for the handler registered under the call's name. */
    method Invoke(h: Handler, args: seq<Value>, today: string) returns (r: Reply, sheet: Option<Sheet>)
      modifies this
      ensures Outcome(tasks, r, sheet) == Dispatch(old(tasks), h, args, today)
    {
      sheet := None;
      match h
      case AddComplaint =>
        r := AddComplaint(Arg(args, 0), Arg(args, 1), Arg(args, 2), today);
      case UpdateTask =>
        r := UpdateTask(Arg(args, 0), Arg(args, 1), Arg(args, 2));
      case DeleteTask =>
        r := DeleteTask(Arg(args, 0));
      case GetTasks =>
        var listed := GetTasks(Arg(args, 0));
        r := Listing(listed);
      case CreateGoogleSheetForTask =>
        r, sheet := CreateGoogleSheetForTask(Arg(args, 0));
      case CreateGoogleSheetForAllTasks =>
        r, sheet := CreateGoogleSheetForAllTasks();
    }
  }
}
