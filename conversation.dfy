/**
 * One user turn of App.tsx's `handleSendMessage`: the user turn is appended, the model is
 * called, at most one tool runs against the task store, the model is called again with the
 * tool's result, and any failure replaces the turn's additions with a fixed apology.
 */
module Conversation {

  import opened Wrappers
  import opened Types
  import opened Tasks
  import opened Registry
  import opened Store
  import opened Transcript
  import opened JsString

  /**
   * The parts of the response's first candidate (None when it has no first candidate or that
   * candidate has no content) and its requested tool invocations, if any.
   */
  datatype ModelResponse = ModelResponse(parts: Option<seq<Part>>, functionCalls: Option<seq<FunctionCall>>)

  /** The result of one call to the model: a response, or a thrown error. */
  datatype ModelOutcome = Responded(response: ModelResponse) | Failed

  /** `response.candidates?.[0]?.content?.parts || []` */
  function PartsOf(r: ModelResponse): seq<Part> {
    match r.parts
    case Some(parts) => parts
    case None => []
  }

  function UserTurn(message: string): Turn {
    Turn(Role.User, [Text(message)])
  }

  const Apology: Turn := Turn(Model, [Text("Sorry, I encountered an error. Please try again.")])

  /** Every tool turn sits between two model turns. */
  predicate ToolTurnsBracketed(h: seq<Turn>) {
    forall i :: 0 <= i < |h| && h[i].role == Tool ==>
      0 < i < |h| - 1 && h[i - 1].role == Model && h[i + 1].role == Model
  }

  lemma BracketedAppend(a: seq<Turn>, b: seq<Turn>)
    requires ToolTurnsBracketed(a) && ToolTurnsBracketed(b)
    ensures ToolTurnsBracketed(a + b)
  {
    forall i | 0 <= i < |a + b| && (a + b)[i].role == Tool
      ensures 0 < i < |a + b| - 1 && (a + b)[i - 1].role == Model && (a + b)[i + 1].role == Model
    {
      if i < |a| {
        assert a[i].role == Tool;
      } else {
        assert b[i - |a|].role == Tool;
      }
    }
  }

  /**
   * The outcome of the `try` block: it completes with the turns it adds after the user turn, or it
   * throws. Either way the task list and the exported sheet are whatever the tool call left.
   */
  datatype Attempt =
    | Finished(added: seq<Turn>, tasks: seq<Task>, sheet: Option<Sheet>)
    | Threw(tasks: seq<Task>, sheet: Option<Sheet>)

  /** The `try` block of handleSendMessage, run on the transcript that already ends with the user turn. */
  function Try(withUser: seq<Turn>, ts: seq<Task>, callModel: seq<Turn> -> ModelOutcome, today: string): (r: Attempt)
    ensures r.Finished? ==>
      && (|r.added| == 1 || |r.added| == 3)
      && r.added[0].role == Model && r.added[|r.added| - 1].role == Model
      && (|r.added| == 3 ==> r.added[1].role == Tool)
    ensures r.Finished? && |r.added| == 1 ==> r.tasks == ts && r.sheet == None
    ensures UniqueIds(ts) ==> UniqueIds(r.tasks)
  {
    match callModel(withUser)
    case Failed => Threw(ts, None)
    case Responded(first) =>
      var modelTurn := Turn(Model, PartsOf(first));
      match first.functionCalls
      case None => Finished([modelTurn], ts, None)
      case Some(calls) =>
        if |calls| == 0 then Threw(ts, None)      // `fc` is undefined and reading `fc.name` throws
        else
          match (Lookup(calls[0].name), calls[0].args)
          case (None, _) => Threw(ts, None)        // "Function … not found."
          case (_, None) => Threw(ts, None)        // `Object.values(undefined)` throws
          case (Some(handler), Some(args)) =>
            var o := Dispatch(ts, handler, args, today);
            var toolTurn := Turn(Tool, [FunctionResponse(calls[0].name, o.reply)]);
            match callModel(withUser + [modelTurn, toolTurn])
            case Failed => Threw(o.tasks, o.sheet)
            case Responded(final) => Finished([modelTurn, toolTurn, Turn(Model, PartsOf(final))], o.tasks, o.sheet)
  }

  /** The transcript, the task list and the exported sheet after one turn. */
  datatype Exchange = Exchange(history: seq<Turn>, tasks: seq<Task>, sheet: Option<Sheet>)

  /**
   * The effect of one `handleSendMessage(message)` on transcript `h` and task list `ts`, when the
   * model answers the transcript-so-far with `callModel` and the clock reads `today`.
   */
  function SendMessage(h: seq<Turn>, ts: seq<Task>, message: string,
                       callModel: seq<Turn> -> ModelOutcome, today: string): Exchange
  {
    if Trim(message) == "" then Exchange(h, ts, None)
    else
      var withUser := h + [UserTurn(message)];
      match Try(withUser, ts, callModel, today)
      case Finished(added, tasks, sheet) => Exchange(withUser + added, tasks, sheet)
      case Threw(tasks, sheet) => Exchange(withUser + [Apology], tasks, sheet)
  }

  /** The turns one non-blank message adds to the transcript. */
  function Added(h: seq<Turn>, ts: seq<Task>, message: string,
                 callModel: seq<Turn> -> ModelOutcome, today: string): seq<Turn>
  {
    match Try(h + [UserTurn(message)], ts, callModel, today)
    case Finished(added, _, _) => [UserTurn(message)] + added
    case Threw(_, _) => [UserTurn(message), Apology]
  }

  /** The additions of a non-blank message: the user turn, then one model turn or model, tool, model. */
  lemma AddedShape(h: seq<Turn>, ts: seq<Task>, message: string,
                   callModel: seq<Turn> -> ModelOutcome, today: string)
    ensures var added := Added(h, ts, message, callModel, today);
      && (|added| == 2 || |added| == 4)
      && added[0] == UserTurn(message) && added[|added| - 1].role == Model
      && (|added| == 4 ==> added[1].role == Model && added[2].role == Tool)
      && (forall i :: 1 <= i < |added| ==> added[i].role != Role.User)
      && ToolTurnsBracketed(added)
  {
    var added := Added(h, ts, message, callModel, today);
    match Try(h + [UserTurn(message)], ts, callModel, today)
    case Finished(more, _, _) =>
      assert forall i :: 1 <= i < |added| ==> added[i] == more[i - 1];
    case Threw(_, _) =>
  }

  lemma SendMessageAppends(h: seq<Turn>, ts: seq<Task>, message: string,
                           callModel: seq<Turn> -> ModelOutcome, today: string)
    requires Trim(message) != ""
    ensures SendMessage(h, ts, message, callModel, today).history == h + Added(h, ts, message, callModel, today)
    ensures SendMessage(h, ts, message, callModel, today).tasks == Try(h + [UserTurn(message)], ts, callModel, today).tasks
  {
    var withUser := h + [UserTurn(message)];
    match Try(withUser, ts, callModel, today)
    case Finished(more, _, _) =>
      assert withUser + more == h + ([UserTurn(message)] + more);
    case Threw(_, _) =>
      assert withUser + [Apology] == h + [UserTurn(message), Apology];
  }

  /**
   * A blank message changes nothing. Otherwise the transcript gains the user turn and then either
   * one model turn or a model, tool and model turn; the transcript's invariants and the unique ids
   * of the tasks are kept.
   */
  lemma SendMessageShape(h: seq<Turn>, ts: seq<Task>, message: string,
                         callModel: seq<Turn> -> ModelOutcome, today: string)
    ensures var x := SendMessage(h, ts, message, callModel, today);
      && (Trim(message) == "" ==> x == Exchange(h, ts, None))
      && (Trim(message) != "" ==>
            var added := Added(h, ts, message, callModel, today);
            && x.history == h + added
            && (|added| == 2 || |added| == 4)
            && added[0] == UserTurn(message) && added[|added| - 1].role == Model
            && (|added| == 4 ==> added[1].role == Model && added[2].role == Tool))
      && (UserTurnsHaveText(h) ==> UserTurnsHaveText(x.history))
      && (ToolTurnsBracketed(h) ==> ToolTurnsBracketed(x.history))
      && (UniqueIds(ts) ==> UniqueIds(x.tasks))
  {
    if Trim(message) != "" {
      var added := Added(h, ts, message, callModel, today);
      AddedShape(h, ts, message, callModel, today);
      SendMessageAppends(h, ts, message, callModel, today);
      ShapeLemma(h, added);
    }
  }

  /** Appending one turn's additions keeps the transcript's invariants. */
  lemma ShapeLemma(h: seq<Turn>, block: seq<Turn>)
    requires 2 <= |block| && block[0].role == Role.User && |block[0].parts| > 0 && block[0].parts[0].Text?
    requires forall i :: 1 <= i < |block| ==> block[i].role != Role.User
    requires ToolTurnsBracketed(block)
    ensures UserTurnsHaveText(h) ==> UserTurnsHaveText(h + block)
    ensures ToolTurnsBracketed(h) ==> ToolTurnsBracketed(h + block)
  {
    UserTurnsHaveTextAppend(h, block);
    if ToolTurnsBracketed(h) {
      BracketedAppend(h, block);
    }
  }

  // ---------------------------------------------------------------- the turn's outcomes

  /** The first call fails: the user turn and the apology are appended and no task changes. */
  lemma FirstCallFails(h: seq<Turn>, ts: seq<Task>, message: string,
                       callModel: seq<Turn> -> ModelOutcome, today: string)
    requires Trim(message) != "" && callModel(h + [UserTurn(message)]).Failed?
    ensures SendMessage(h, ts, message, callModel, today) == Exchange(h + [UserTurn(message), Apology], ts, None)
  {
    assert h + [UserTurn(message)] + [Apology] == h + [UserTurn(message), Apology];
  }

  /** A reply without tool calls: the user turn and the model turn are appended, no task changes. */
  lemma PlainReply(h: seq<Turn>, ts: seq<Task>, message: string,
                   callModel: seq<Turn> -> ModelOutcome, today: string)
    requires Trim(message) != ""
    requires callModel(h + [UserTurn(message)]).Responded?
    requires callModel(h + [UserTurn(message)]).response.functionCalls.None?
    ensures var first := callModel(h + [UserTurn(message)]).response;
            SendMessage(h, ts, message, callModel, today)
              == Exchange(h + [UserTurn(message), Turn(Model, PartsOf(first))], ts, None)
  {
    var first := callModel(h + [UserTurn(message)]).response;
    assert h + [UserTurn(message)] + [Turn(Model, PartsOf(first))] == h + [UserTurn(message), Turn(Model, PartsOf(first))];
  }

  /**
   * A tool call that cannot be made (an empty call list, an unregistered name, a call without
   * arguments): the apology replaces the turn, and no task changes.
   */
  lemma ToolCallFails(h: seq<Turn>, ts: seq<Task>, message: string,
                      callModel: seq<Turn> -> ModelOutcome, today: string)
    requires Trim(message) != ""
    requires callModel(h + [UserTurn(message)]).Responded?
    requires var calls := callModel(h + [UserTurn(message)]).response.functionCalls;
             calls.Some? && (|calls.value| == 0 || Lookup(calls.value[0].name).None? || calls.value[0].args.None?)
    ensures SendMessage(h, ts, message, callModel, today) == Exchange(h + [UserTurn(message), Apology], ts, None)
  {
    assert h + [UserTurn(message)] + [Apology] == h + [UserTurn(message), Apology];
  }

  /**
   * The tool ran: only the first requested call is made, its effect on the tasks is kept whether
   * or not the second call succeeds, and the tool turn carries the handler's reply.
   */
  lemma ToolRuns(h: seq<Turn>, ts: seq<Task>, message: string,
                 callModel: seq<Turn> -> ModelOutcome, today: string, handler: Handler, args: seq<Value>)
    requires Trim(message) != ""
    requires callModel(h + [UserTurn(message)]).Responded?
    requires var calls := callModel(h + [UserTurn(message)]).response.functionCalls;
             calls.Some? && |calls.value| > 0 && Lookup(calls.value[0].name) == Some(handler) &&
             calls.value[0].args == Some(args)
    ensures var first := callModel(h + [UserTurn(message)]).response;
            var fc := first.functionCalls.value[0];
            var o := Dispatch(ts, handler, args, today);
            var sofar := h + [UserTurn(message), Turn(Model, PartsOf(first)),
                              Turn(Tool, [FunctionResponse(fc.name, o.reply)])];
            var x := SendMessage(h, ts, message, callModel, today);
            && x.tasks == o.tasks && x.sheet == o.sheet
            && (callModel(sofar).Failed? ==> x.history == h + [UserTurn(message), Apology])
            && (callModel(sofar).Responded? ==>
                  x.history == sofar + [Turn(Model, PartsOf(callModel(sofar).response))])
  {
    var withUser := h + [UserTurn(message)];
    var first := callModel(withUser).response;
    var fc := first.functionCalls.value[0];
    var o := Dispatch(ts, handler, args, today);
    var modelTurn := Turn(Model, PartsOf(first));
    var toolTurn := Turn(Tool, [FunctionResponse(fc.name, o.reply)]);
    var sofar := h + [UserTurn(message), modelTurn, toolTurn];
    assert withUser + [modelTurn, toolTurn] == sofar;
    match callModel(sofar)
    case Failed =>
      assert Try(withUser, ts, callModel, today) == Threw(o.tasks, o.sheet);
      assert withUser + [Apology] == h + [UserTurn(message), Apology];
    case Responded(final) =>
      var finalTurn := Turn(Model, PartsOf(final));
      assert Try(withUser, ts, callModel, today) == Finished([modelTurn, toolTurn, finalTurn], o.tasks, o.sheet);
      assert withUser + [modelTurn, toolTurn, finalTurn] == sofar + [finalTurn];
  }

  /** After a turn the chat log is the old log, then the user's message, then what the added replies show. */
  lemma DisplayAfterTurn(h: seq<Turn>, ts: seq<Task>, message: string,
                         callModel: seq<Turn> -> ModelOutcome, today: string)
    requires UserTurnsHaveText(h) && Trim(message) != ""
    ensures var x := SendMessage(h, ts, message, callModel, today);
            var replies := Added(h, ts, message, callModel, today)[1..];
            && UserTurnsHaveText(x.history) && UserTurnsHaveText(replies)
            && ChatHistoryForDisplay(x.history)
                 == ChatHistoryForDisplay(h) + [ChatMessage(Sender.User, message)] + ChatHistoryForDisplay(replies)
  {
    AddedShape(h, ts, message, callModel, today);
    SendMessageAppends(h, ts, message, callModel, today);
    var added := Added(h, ts, message, callModel, today);
    ShapeLemma(h, added);
    var replies := added[1..];
    assert added == [UserTurn(message)] + replies;
    assert UserTurnsHaveText(replies);
    assert UserTurnsHaveText([UserTurn(message)]);
    DisplayAppend([UserTurn(message)], replies);
    DisplayAppend(h, added);
    DisplayOne(UserTurn(message));
  }

  // ---------------------------------------------------------------- the App component's state

  function SheetList(sheet: Option<Sheet>): seq<Sheet> {
    match sheet
    case Some(s) => [s]
    case None => []
  }

  class App {

    const store: TaskStore
    var history: seq<Turn>
    var isLoading: bool
    /** The sheets handed to the browser download step, in order. */
    var downloads: seq<Sheet>

    ghost predicate Valid()
      reads this
    {
      UserTurnsHaveText(history) && ToolTurnsBracketed(history)
    }

    /** `chatHistoryForDisplay`, the chat log the component shows for its current transcript. */
    ghost function ChatLog(): (log: seq<ChatMessage>)
      reads this
      requires Valid()
      ensures |log| <= |history|
    {
      ChatHistoryForDisplay(history)
    }

    /** `savedHistory` is the transcript loaded at start-up (or empty). */
    constructor (store: TaskStore, savedHistory: seq<Turn>)
      requires UserTurnsHaveText(savedHistory) && ToolTurnsBracketed(savedHistory)
      ensures Valid() && this.store == store && history == savedHistory && !isLoading && downloads == []
    {
      this.store := store;
      history := savedHistory;
      isLoading := false;
      downloads := [];
    }

    /** The `try` block: builds `currentTurnHistory` with pushes; `ok` is false where it would throw. */
    method RunTurn(historyWithUserMessage: seq<Turn>, callModel: seq<Turn> -> ModelOutcome, today: string)
      returns (ok: bool, currentTurnHistory: seq<Turn>)
      modifies this`downloads, store
      ensures var r := Try(historyWithUserMessage, old(store.tasks), callModel, today);
              && store.tasks == r.tasks && downloads == old(downloads) + SheetList(r.sheet)
              && ok == r.Finished? && (ok ==> currentTurnHistory == historyWithUserMessage + r.added)
    {
      ghost var ts := store.tasks;
      currentTurnHistory := historyWithUserMessage;
      var response := callModel(currentTurnHistory);
      if response.Failed? {
        assert Try(historyWithUserMessage, ts, callModel, today) == Threw(ts, None);
        return false, currentTurnHistory;
      }
      var modelResponse := Turn(Model, PartsOf(response.response));
      currentTurnHistory := currentTurnHistory + [modelResponse];
      if response.response.functionCalls.None? {
        assert Try(historyWithUserMessage, ts, callModel, today) == Finished([modelResponse], ts, None);
        return true, currentTurnHistory;
      }
      var calls := response.response.functionCalls.value;
      if |calls| == 0 {
        assert Try(historyWithUserMessage, ts, callModel, today) == Threw(ts, None);
        return false, currentTurnHistory;
      }
      var fc := calls[0];
      var functionToCall := Lookup(fc.name);
      if functionToCall.None? || fc.args.None? {
        assert Try(historyWithUserMessage, ts, callModel, today) == Threw(ts, None);
        return false, currentTurnHistory;
      }
      var result, sheet := store.Invoke(functionToCall.value, fc.args.value, today);
      downloads := downloads + SheetList(sheet);
      var functionResponse := Turn(Tool, [FunctionResponse(fc.name, result)]);
      currentTurnHistory := currentTurnHistory + [functionResponse];
      assert currentTurnHistory == historyWithUserMessage + [modelResponse, functionResponse];
      var finalResponse := callModel(currentTurnHistory);
      if finalResponse.Failed? {
        assert Try(historyWithUserMessage, ts, callModel, today) == Threw(store.tasks, sheet);
        return false, currentTurnHistory;
      }
      var finalModelResponse := Turn(Model, PartsOf(finalResponse.response));
      currentTurnHistory := currentTurnHistory + [finalModelResponse];
      assert currentTurnHistory == historyWithUserMessage + [modelResponse, functionResponse, finalModelResponse];
      assert Try(historyWithUserMessage, ts, callModel, today)
          == Finished([modelResponse, functionResponse, finalModelResponse], store.tasks, sheet);
      ok := true;
    }

    method HandleSendMessage(message: string, callModel: seq<Turn> -> ModelOutcome, today: string)
      requires Valid()
      modifies this, store
      ensures Valid()
      ensures var x := SendMessage(old(history), old(store.tasks), message, callModel, today);
              && history == x.history && store.tasks == x.tasks
              && downloads == old(downloads) + SheetList(x.sheet)
      ensures Trim(message) == "" ==> isLoading == old(isLoading)
      ensures Trim(message) != "" ==> !isLoading
      ensures Trim(message) == "" ==> ChatLog() == old(ChatLog())
      ensures Trim(message) != "" ==>
                var added := Added(old(history), old(store.tasks), message, callModel, today);
                && 2 <= |added| && UserTurnsHaveText(added[1..])
                && ChatLog() == old(ChatLog()) + [ChatMessage(Sender.User, message)] + ChatHistoryForDisplay(added[1..])
    {
      SendMessageShape(history, store.tasks, message, callModel, today);
      if Trim(message) == "" {
        return;
      }
      AddedShape(history, store.tasks, message, callModel, today);
      DisplayAfterTurn(history, store.tasks, message, callModel, today);
      isLoading := true;
      var userMessage := UserTurn(message);
      var historyWithUserMessage := history + [userMessage];
      history := historyWithUserMessage;
      var ok, currentTurnHistory := RunTurn(historyWithUserMessage, callModel, today);
      if ok {
        history := currentTurnHistory;
      } else {
        history := history + [Apology];   // the catch block appends to the history holding the user turn
      }
      isLoading := false;
    }
  }
}
