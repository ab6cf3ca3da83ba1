/**
 * The task-store handlers of App.tsx as functions from the current task list to the new list,
 * the reply the handler returns, and the spreadsheet it hands to the download step (if any).
 */
module Tasks {

  import opened Wrappers
  import opened Types
  import opened Seqs

  /** The text of a reply's `message`, as its template and the values interpolated into it. */
  datatype Message =
    | DuplicateId(id: Value)                  // "Task with ID … already exists. …"
    | ComplaintAdded(description: Value, id: Value)
    | NotFound(id: Value)                     // "Task with ID … not found."
    | NoUpdates(id: Value)                    // "No updates provided for task ID …."
    | TaskUpdated(id: Value)
    | TaskDeleted(id: Value)
    | NothingToExport                         // "There are no tasks to export."
    | TaskSheetDownloaded(id: Value)
    | AllTasksSheetDownloaded(count: nat)

  /** What a handler returns: a `{success, message, taskId?}` record, or the bare task list of getTasks. */
  datatype Reply =
    | Reply(success: bool, message: Message, taskId: Option<Value>)
    | Listing(tasks: seq<Task>)

  /** The spreadsheet handed to the (opaque) styled-report and download step. */
  datatype Sheet = TaskDetails(task: Task) | AllTasksReport(tasks: seq<Task>)

  datatype Outcome = Outcome(tasks: seq<Task>, reply: Reply, sheet: Option<Sheet>)

  const Unassigned: Value := Str("Unassigned")

  /** `tasks.some(task => task.id === id)` */
  predicate HasId(ts: seq<Task>, id: Value) {
    exists i :: 0 <= i < |ts| && ts[i].id == id
  }

  /** `some` scans from the front: the first task has the id, or one of the rest does. */
  lemma HasIdCons(t: Task, ts: seq<Task>, id: Value)
    ensures HasId([t] + ts, id) <==> t.id == id || HasId(ts, id)
    ensures !HasId([], id)
  {
    var s := [t] + ts;
    assert s[0] == t;
    if HasId(ts, id) {
      var i :| 0 <= i < |ts| && ts[i].id == id;
      assert s[i + 1] == ts[i];
    }
    if HasId(s, id) && t.id != id {
      var i :| 0 <= i < |s| && s[i].id == id;
      assert ts[i - 1] == s[i];
    }
  }

  /** The store's intended invariant: no two tasks share an id. */
  predicate UniqueIds(ts: seq<Task>) {
    forall i, j :: 0 <= i < j < |ts| ==> ts[i].id != ts[j].id
  }

  // ---------------------------------------------------------------- addComplaint

  function Add(ts: seq<Task>, id: Value, description: Value, assignedTo: Value, today: string): (o: Outcome)
    ensures o.sheet == None && o.reply.Reply?
    ensures o.reply.success <==> !HasId(ts, id)
    ensures !o.reply.success ==> o.tasks == ts && o.reply.message == DuplicateId(id)
    ensures o.reply.success ==>
      && |o.tasks| == |ts| + 1 && o.tasks[1..] == ts
      && o.tasks[0].id == id && o.tasks[0].description == description
      && o.tasks[0].status == Str(Pending.Text()) && o.tasks[0].date == today
      && o.tasks[0].assignedTo == (if Truthy(assignedTo) then assignedTo else Unassigned)
      && o.reply.taskId == Some(id)
    ensures UniqueIds(ts) ==> UniqueIds(o.tasks)
  {
    if HasId(ts, id) then
      Outcome(ts, Reply(false, DuplicateId(id), None), None)
    else
      var newTask := Task(id, description, Str(Pending.Text()),
                          if Truthy(assignedTo) then assignedTo else Unassigned, today);
      var next := [newTask] + ts;
      assert next[1..] == ts;
      Outcome(next, Reply(true, ComplaintAdded(description, id), Some(id)), None)
  }

  // ---------------------------------------------------------------- updateTask

  /** The callback of `prev.map(...)` in updateTask: patch a matching task when anything was supplied. */
  function Patched(t: Task, taskId: Value, status: Value, assignedTo: Value): (r: Task)
    ensures r.id == t.id && r.description == t.description && r.date == t.date
    ensures t.id != taskId || (!Truthy(status) && !Truthy(assignedTo)) ==> r == t
    ensures t.id == taskId ==>
      && r.status == (if Truthy(status) then status else t.status)
      && r.assignedTo == (if Truthy(assignedTo) then assignedTo else t.assignedTo)
  {
    if t.id == taskId && (Truthy(status) || Truthy(assignedTo)) then
      t.(status := if Truthy(status) then status else t.status,
         assignedTo := if Truthy(assignedTo) then assignedTo else t.assignedTo)
    else t
  }

  /** The list updateTask's updater returns. */
  function UpdatedList(ts: seq<Task>, taskId: Value, status: Value, assignedTo: Value): (r: seq<Task>)
    ensures |r| == |ts|
    ensures !HasId(ts, taskId) || (!Truthy(status) && !Truthy(assignedTo)) ==> r == ts
  {
    seq(|ts|, i requires 0 <= i < |ts| => Patched(ts[i], taskId, status, assignedTo))
  }

  function Update(ts: seq<Task>, taskId: Value, status: Value, assignedTo: Value): (o: Outcome)
    ensures o.sheet == None && o.reply.Reply? && o.reply.taskId == None
    ensures !HasId(ts, taskId) ==> o.tasks == ts && o.reply == Reply(false, NotFound(taskId), None)
    ensures HasId(ts, taskId) && !Truthy(status) && !Truthy(assignedTo) ==>
      o.tasks == ts && o.reply == Reply(false, NoUpdates(taskId), None)
    ensures o.reply.success <==> HasId(ts, taskId) && (Truthy(status) || Truthy(assignedTo))
    ensures o.reply.success ==> o.reply.message == TaskUpdated(taskId)
    ensures |o.tasks| == |ts|
    ensures forall i :: 0 <= i < |ts| ==>
      && o.tasks[i].id == ts[i].id && o.tasks[i].description == ts[i].description
      && o.tasks[i].date == ts[i].date
    ensures forall i :: 0 <= i < |ts| && ts[i].id != taskId ==> o.tasks[i] == ts[i]
    ensures forall i :: 0 <= i < |ts| && ts[i].id == taskId ==>
      && o.tasks[i].status == (if Truthy(status) then status else ts[i].status)
      && o.tasks[i].assignedTo == (if Truthy(assignedTo) then assignedTo else ts[i].assignedTo)
    ensures UniqueIds(ts) ==> UniqueIds(o.tasks)
  {
    var next := UpdatedList(ts, taskId, status, assignedTo);
    var reply :=
      if !HasId(ts, taskId) then Reply(false, NotFound(taskId), None)
      else if !(Truthy(status) || Truthy(assignedTo)) then Reply(false, NoUpdates(taskId), None)
      else Reply(true, TaskUpdated(taskId), None);
    assert !reply.success ==> next == ts;
    Outcome(next, reply, None)
  }

  // ---------------------------------------------------------------- deleteTask

  /** The test of deleteTask's `prev.filter(...)`: keep the tasks whose id differs. */
  function IdIsNot(taskId: Value): Task -> bool {
    (t: Task) => t.id != taskId
  }

  function Delete(ts: seq<Task>, taskId: Value): (o: Outcome)
    ensures o.sheet == None && o.reply.Reply? && o.reply.taskId == None
    ensures o.reply.success <==> HasId(ts, taskId)
    ensures o.reply.message == if o.reply.success then TaskDeleted(taskId) else NotFound(taskId)
    ensures !HasId(ts, taskId) ==> o.tasks == ts
    ensures !HasId(o.tasks, taskId)
    ensures forall t :: multiset(o.tasks)[t] == if t.id != taskId then multiset(ts)[t] else 0
    ensures IsSubsequence(o.tasks, ts)
    ensures UniqueIds(ts) ==> UniqueIds(o.tasks)
  {
    var next := Filter(IdIsNot(taskId), ts);
    FilterCounts(IdIsNot(taskId), ts);
    FilterIsSubsequence(IdIsNot(taskId), ts);
    FilterKeepsUniqueIds(IdIsNot(taskId), ts);
    FilterDropsId(ts, taskId);
    if HasId(ts, taskId) then
      Outcome(next, Reply(true, TaskDeleted(taskId), None), None)
    else
      FilterAllPass(IdIsNot(taskId), ts);
      Outcome(next, Reply(false, NotFound(taskId), None), None)
  }

  lemma FilterDropsId(ts: seq<Task>, taskId: Value)
    ensures !HasId(Filter(IdIsNot(taskId), ts), taskId)
  {
    var next := Filter(IdIsNot(taskId), ts);
    FilterMembership(IdIsNot(taskId), ts);
    forall i | 0 <= i < |next| ensures next[i].id != taskId {
      assert next[i] in next;
      assert IdIsNot(taskId)(next[i]);
    }
  }

  lemma {:induction false} FilterKeepsUniqueIds(p: Task -> bool, ts: seq<Task>)
    ensures UniqueIds(ts) ==> UniqueIds(Filter(p, ts))
  {
    if ts != [] && UniqueIds(ts) {
      var rest := Filter(p, ts[1..]);
      assert UniqueIds(ts[1..]) by {
        forall i, j | 0 <= i < j < |ts| - 1 ensures ts[1..][i].id != ts[1..][j].id {
          assert ts[1..][i] == ts[i + 1] && ts[1..][j] == ts[j + 1];
        }
      }
      FilterKeepsUniqueIds(p, ts[1..]);
      FilterMembership(p, ts[1..]);
      forall k | 0 <= k < |rest| ensures rest[k].id != ts[0].id {
        assert rest[k] in ts[1..];
        var m :| 0 <= m < |ts[1..]| && ts[1..][m] == rest[k];
        assert ts[m + 1] == rest[k];
      }
    }
  }

  // ---------------------------------------------------------------- getTasks

  /** The test of getTasks' and the dashboard's filter: the task has exactly this status value. */
  function StatusIs(status: Value): Task -> bool {
    (t: Task) => t.status == status
  }

  function Query(ts: seq<Task>, status: Value): (o: Outcome)
    ensures o.tasks == ts && o.sheet == None && o.reply.Listing?
    ensures !Truthy(status) ==> o.reply.tasks == ts
    ensures Truthy(status) ==>
      && (forall t :: t in o.reply.tasks <==> t in ts && t.status == status)
      && (forall t :: multiset(o.reply.tasks)[t] == if t.status == status then multiset(ts)[t] else 0)
      && IsSubsequence(o.reply.tasks, ts)
  {
    if Truthy(status) then
      FilterCounts(StatusIs(status), ts);
      FilterMembership(StatusIs(status), ts);
      FilterIsSubsequence(StatusIs(status), ts);
      Outcome(ts, Listing(Filter(StatusIs(status), ts)), None)
    else
      Outcome(ts, Listing(ts), None)
  }

  // ---------------------------------------------------------------- the export handlers

  /** `tasks.find(t => t.id === taskId)`: the first task with that id. */
  function FindById(ts: seq<Task>, taskId: Value): (r: Option<Task>)
    ensures r.Some? <==> HasId(ts, taskId)
    ensures r.Some? ==> exists i :: 0 <= i < |ts| && ts[i] == r.value && r.value.id == taskId &&
                                   forall j :: 0 <= j < i ==> ts[j].id != taskId
  {
    if ts == [] then None
    else if ts[0].id == taskId then Some(ts[0])
    else
      var r := FindById(ts[1..], taskId);
      assert HasId(ts, taskId) ==> HasId(ts[1..], taskId) by {
        if HasId(ts, taskId) {
          var i :| 0 <= i < |ts| && ts[i].id == taskId;
          assert ts[1..][i - 1] == ts[i];
        }
      }
      if r.Some? then
        var i :| 0 <= i < |ts[1..]| && ts[1..][i] == r.value && r.value.id == taskId &&
                 forall j :: 0 <= j < i ==> ts[1..][j].id != taskId;
        assert ts[i + 1] == r.value;
        assert forall j :: 0 <= j < i + 1 ==> ts[j].id != taskId by {
          forall j | 0 < j < i + 1 ensures ts[j].id != taskId {
            assert ts[j] == ts[1..][j - 1];
          }
        }
        r
      else r
  }

  /** createGoogleSheetForTask: fails on an unknown id; otherwise exports that one task. */
  function SheetForTask(ts: seq<Task>, taskId: Value): (o: Outcome)
    ensures o.tasks == ts && o.reply.Reply? && o.reply.taskId == None
    ensures o.reply.success <==> HasId(ts, taskId)
    ensures !o.reply.success ==> o.reply.message == NotFound(taskId) && o.sheet == None
    ensures o.reply.success ==>
      && o.reply.message == TaskSheetDownloaded(taskId)
      && o.sheet.Some? && o.sheet.value.TaskDetails?
      && o.sheet.value.task in ts && o.sheet.value.task.id == taskId
      && o.sheet.value.task == FindById(ts, taskId).value
  {
    match FindById(ts, taskId)
    case None => Outcome(ts, Reply(false, NotFound(taskId), None), None)
    case Some(task) => Outcome(ts, Reply(true, TaskSheetDownloaded(taskId), None), Some(TaskDetails(task)))
  }

  /** createGoogleSheetForAllTasks: fails on an empty list; otherwise exports every task. */
  function SheetForAll(ts: seq<Task>): (o: Outcome)
    ensures o.tasks == ts && o.reply.Reply? && o.reply.taskId == None
    ensures o.reply.success <==> |ts| > 0
    ensures !o.reply.success ==> o.reply.message == NothingToExport && o.sheet == None
    ensures o.reply.success ==>
      o.reply.message == AllTasksSheetDownloaded(|ts|) && o.sheet == Some(AllTasksReport(ts))
  {
    if |ts| == 0 then Outcome(ts, Reply(false, NothingToExport, None), None)
    else Outcome(ts, Reply(true, AllTasksSheetDownloaded(|ts|), None), Some(AllTasksReport(ts)))
  }

  // ---------------------------------------------------------------- properties across calls

  /** Adding an id that is already present is rejected every time, whatever else is supplied. */
  lemma AddAfterAddRejected(ts: seq<Task>, id: Value, d1: Value, d2: Value, a1: Value, a2: Value, today: string)
    requires !HasId(ts, id)
    ensures var first := Add(ts, id, d1, a1, today);
            var second := Add(first.tasks, id, d2, a2, today);
            !second.reply.success && second.tasks == first.tasks
  {
    var first := Add(ts, id, d1, a1, today);
    assert first.tasks[0].id == id;
  }

  /** Deleting a task that was just added restores the list. */
  lemma {:induction false} DeleteUndoesAdd(ts: seq<Task>, id: Value, description: Value, assignedTo: Value, today: string)
    requires !HasId(ts, id)
    ensures Delete(Add(ts, id, description, assignedTo, today).tasks, id).tasks == ts
  {
    var added := Add(ts, id, description, assignedTo, today).tasks;
    assert added == [added[0]] + ts;
    FilterAppend(IdIsNot(id), [added[0]], ts);
    FilterNonePass(IdIsNot(id), [added[0]]);
    FilterAllPass(IdIsNot(id), ts);
  }

  /** Querying the result of a status query again with the same status returns it unchanged. */
  lemma QueryIdempotent(ts: seq<Task>, status: Value)
    ensures var once := Query(ts, status).reply.tasks;
            Query(once, status).reply.tasks == once
  {
    if Truthy(status) {
      FilterIdempotent(StatusIs(status), ts);
    }
  }
}
