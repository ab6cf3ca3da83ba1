/**
 * The `functions` object of App.tsx seen as a registry: tool names, handler lookup, and the
 * positional binding `functionToCall(...Object.values(fc.args))`.
 */
module Registry {

  import opened Wrappers
  import opened Types
  import opened Tasks
  import opened Seqs

  datatype Handler =
    | AddComplaint | UpdateTask | DeleteTask | GetTasks
    | CreateGoogleSheetForTask | CreateGoogleSheetForAllTasks
  {
    function Name(): string {
      match this
      case AddComplaint => "addComplaint"
      case UpdateTask => "updateTask"
      case DeleteTask => "deleteTask"
      case GetTasks => "getTasks"
      case CreateGoogleSheetForTask => "createGoogleSheetForTask"
      case CreateGoogleSheetForAllTasks => "createGoogleSheetForAllTasks"
    }
  }

  /** `functions[name]`: the handler registered under that name, if any. */
  function Lookup(name: string): (r: Option<Handler>)
    ensures r.Some? ==> r.value.Name() == name
    ensures forall h: Handler :: h.Name() == name ==> r == Some(h)
  {
    if name == "addComplaint" then Some(AddComplaint)
    else if name == "updateTask" then Some(UpdateTask)
    else if name == "deleteTask" then Some(DeleteTask)
    else if name == "getTasks" then Some(GetTasks)
    else if name == "createGoogleSheetForTask" then Some(CreateGoogleSheetForTask)
    else if name == "createGoogleSheetForAllTasks" then Some(CreateGoogleSheetForAllTasks)
    else None
  }

  /** Names and handlers are in one-to-one correspondence. */
  lemma LookupName(h: Handler)
    ensures Lookup(h.Name()) == Some(h)
  {
  }

  /** The i-th positional argument: the i-th value of the args object, or `undefined` past its end. */
  function Arg(args: seq<Value>, i: nat): (v: Value)
    ensures i < |args| ==> v == args[i]
    ensures i >= |args| ==> !Truthy(v)
  {
    if i < |args| then args[i] else Undefined
  }

  /** Call handler `h` with `args` spread positionally, against task list `ts`. */
  function Dispatch(ts: seq<Task>, h: Handler, args: seq<Value>, today: string): (o: Outcome)
    ensures UniqueIds(ts) ==> UniqueIds(o.tasks)
    ensures h !in {AddComplaint, UpdateTask, DeleteTask} ==> o.tasks == ts
    ensures o.sheet.Some? ==> h in {CreateGoogleSheetForTask, CreateGoogleSheetForAllTasks}
    ensures o.reply.Listing? <==> h == GetTasks
  {
    match h
    case AddComplaint => Add(ts, Arg(args, 0), Arg(args, 1), Arg(args, 2), today)
    case UpdateTask => Update(ts, Arg(args, 0), Arg(args, 1), Arg(args, 2))
    case DeleteTask => Delete(ts, Arg(args, 0))
    case GetTasks => Query(ts, Arg(args, 0))
    case CreateGoogleSheetForTask => SheetForTask(ts, Arg(args, 0))
    case CreateGoogleSheetForAllTasks => SheetForAll(ts)
  }

  /**
   * The call lists its arguments in the declared parameter order, each with its declared type,
   * and leaves out no optional parameter that precedes a supplied one. Only then does positional
   * binding give each parameter the value meant for it.
   */
  predicate WellTypedCall(h: Handler, args: seq<Value>) {
    match h
    case AddComplaint =>
      (|args| == 2 || |args| == 3) && args[0].Num? && args[1].Str? && (|args| == 3 ==> args[2].Str?)
    case UpdateTask =>
      1 <= |args| <= 3 && args[0].Num? && (|args| >= 2 ==> IsStatusValue(args[1]))
      && (|args| == 3 ==> args[2].Str?)
    case DeleteTask => |args| == 1 && args[0].Num?
    case GetTasks => |args| <= 1 && (|args| == 1 ==> IsStatusValue(args[0]))
    case CreateGoogleSheetForTask => |args| == 1 && args[0].Num?
    case CreateGoogleSheetForAllTasks => |args| == 0
  }

  /** Well-typed calls keep every task's fields at the types types.ts declares. */
  lemma WellTypedCallKeepsTasksWellTyped(ts: seq<Task>, h: Handler, args: seq<Value>, today: string)
    requires AllWellTyped(ts) && WellTypedCall(h, args)
    ensures AllWellTyped(Dispatch(ts, h, args, today).tasks)
  {
    match h
    case AddComplaint => AddKeepsWellTyped(ts, Arg(args, 0), Arg(args, 1), Arg(args, 2), today);
    case UpdateTask =>
    case DeleteTask => DeleteKeepsWellTyped(ts, Arg(args, 0));
    case GetTasks =>
    case CreateGoogleSheetForTask =>
    case CreateGoogleSheetForAllTasks =>
  }

  lemma AddKeepsWellTyped(ts: seq<Task>, id: Value, description: Value, assignedTo: Value, today: string)
    requires AllWellTyped(ts) && id.Num? && description.Str? && (assignedTo.Undefined? || assignedTo.Str?)
    ensures AllWellTyped(Add(ts, id, description, assignedTo, today).tasks)
  {
    var next := Add(ts, id, description, assignedTo, today).tasks;
    if next != ts {
      forall i | 0 <= i < |next| ensures WellTyped(next[i]) {
        if i > 0 { assert next[i] == next[1..][i - 1]; }
      }
    }
  }

  lemma DeleteKeepsWellTyped(ts: seq<Task>, taskId: Value)
    requires AllWellTyped(ts)
    ensures AllWellTyped(Delete(ts, taskId).tasks)
  {
    var next := Delete(ts, taskId).tasks;
    FilterMembership(IdIsNot(taskId), ts);
    forall i | 0 <= i < |next| ensures WellTyped(next[i]) {
      assert next[i] in ts;
    }
  }

  /**
   * Positional binding in action: an update that names only the task and a new assignee
   * binds the assignee's name to the `status` parameter. The task's status becomes the name
   * and its assignee is left as it was, and the call still reports success.
   */
  lemma AssigneeOnlyUpdateSetsStatus(ts: seq<Task>, k: nat, taskId: int, name: string, today: string)
    requires k < |ts| && ts[k].id == Num(taskId) && name != ""
    ensures var o := Dispatch(ts, UpdateTask, [Num(taskId), Str(name)], today);
            && o.reply.Reply? && o.reply.success
            && o.tasks[k].status == Str(name)
            && o.tasks[k].assignedTo == ts[k].assignedTo
            && (StatusOf(Str(name)).None? ==> !WellTyped(o.tasks[k]))
  {
    var o := Dispatch(ts, UpdateTask, [Num(taskId), Str(name)], today);
    assert Arg([Num(taskId), Str(name)], 1) == Str(name);
    assert HasId(ts, Num(taskId));
  }
}
