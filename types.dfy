/** The entities of types.ts, plus the JavaScript values the tool handlers receive. */
module Types {

  import opened Wrappers

  /** The string enum `TaskStatus`; `Text` is each member's runtime string. */
  datatype TaskStatus = Pending | InProgress | Completed {
    function Text(): string {
      match this
      case Pending => "Pending"
      case InProgress => "In Progress"
      case Completed => "Completed"
    }
  }

  /**
   * A value as it reaches a handler: an argument the language model supplied (every declared
   * parameter is a NUMBER or a STRING) or `undefined` for a positional argument it did not supply.
   * Handlers store these without checking their types.
   */
  datatype Value = Undefined | Num(n: int) | Str(s: string)

  /** JavaScript truthiness, as used by `x || y` and `if (x)`. */
  predicate Truthy(v: Value) {
    match v
    case Undefined => false
    case Num(n) => n != 0
    case Str(s) => s != ""
  }

  /** The status value a status text stands for, if it is one of the three. */
  function StatusOf(v: Value): (r: Option<TaskStatus>)
    ensures r.Some? ==> v == Str(r.value.Text())
    ensures r.None? ==> forall st: TaskStatus :: v != Str(st.Text())
  {
    if v == Str(Pending.Text()) then Some(Pending)
    else if v == Str(InProgress.Text()) then Some(InProgress)
    else if v == Str(Completed.Text()) then Some(Completed)
    else None
  }

  lemma StatusTextRoundTrip(st: TaskStatus)
    ensures StatusOf(Str(st.Text())) == Some(st)
  {
  }

  predicate IsStatusValue(v: Value) {
    StatusOf(v).Some?
  }

  /** A task as stored: each argument-fed field holds whatever value the handler received. */
  datatype Task = Task(id: Value, description: Value, status: Value, assignedTo: Value, date: string)

  /** The task has the field types that types.ts declares. */
  predicate WellTyped(t: Task) {
    t.id.Num? && t.description.Str? && IsStatusValue(t.status) && t.assignedTo.Str?
  }

  predicate AllWellTyped(ts: seq<Task>) {
    forall i :: 0 <= i < |ts| ==> WellTyped(ts[i])
  }

  datatype Sender = User | Ai

  datatype ChatMessage = ChatMessage(sender: Sender, text: string)
}
