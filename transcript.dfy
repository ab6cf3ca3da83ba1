/** The conversation transcript (`Content[]` in App.tsx) and its projection to chat messages. */
module Transcript {

  import opened Wrappers
  import opened Types
  import opened Tasks

  /** A requested tool invocation; `args` are the values of its args object, in key order. */
  datatype FunctionCall = FunctionCall(name: string, args: Option<seq<Value>>)

  datatype Part =
    | Text(text: string)
    | Call(call: FunctionCall)
    | FunctionResponse(name: string, response: Reply)

  datatype Role = User | Model | Tool

  datatype Turn = Turn(role: Role, parts: seq<Part>)

  /** A user turn starts with a text part; other turns may hold anything. */
  predicate StartsWithText(t: Turn) {
    t.role == Role.User ==> |t.parts| > 0 && t.parts[0].Text?
  }

  /** What the projection assumes of a stored transcript: every user turn starts with a text part. */
  predicate UserTurnsHaveText(h: seq<Turn>) {
    forall i :: 0 <= i < |h| ==> StartsWithText(h[i])
  }

  /** `parts.find(part => 'text' in part)`, returning the text of the first text part. */
  function FirstText(parts: seq<Part>): (r: Option<string>)
    ensures r.None? <==> forall i :: 0 <= i < |parts| ==> !parts[i].Text?
    ensures r.Some? ==> exists i :: 0 <= i < |parts| && parts[i] == Text(r.value) &&
                                   forall j :: 0 <= j < i ==> !parts[j].Text?
  {
    if parts == [] then None
    else if parts[0].Text? then Some(parts[0].text)
    else
      var r := FirstText(parts[1..]);
      assert forall j :: 0 < j < |parts| ==> parts[j] == parts[1..][j - 1];
      if r.Some? then
        var i :| 0 <= i < |parts[1..]| && parts[1..][i] == Text(r.value) &&
                 forall j :: 0 <= j < i ==> !parts[1..][j].Text?;
        assert parts[i + 1] == Text(r.value);
        r
      else r
  }

  /** The message one turn contributes to the display, if any. */
  function Display(t: Turn): (r: Option<ChatMessage>)
    requires StartsWithText(t)
    ensures r.Some? && r.value.sender == Sender.User <==> t.role == Role.User
    ensures t.role == Model ==> (r.Some? <==> FirstText(t.parts).Some?)
    ensures t.role == Tool ==> r.None?
  {
    match t.role
    case User => Some(ChatMessage(Sender.User, t.parts[0].text))
    case Model =>
      (match FirstText(t.parts)
       case Some(text) => Some(ChatMessage(Ai, text))
       case None => None)
    case Tool => None
  }

  /** `chatHistoryForDisplay`: map each turn to its message, dropping the turns that have none. */
  function ChatHistoryForDisplay(h: seq<Turn>): (r: seq<ChatMessage>)
    requires UserTurnsHaveText(h)
    ensures |r| <= |h|
  {
    if h == [] then []
    else
      assert UserTurnsHaveText(h[1..]) by {
        forall i | 0 <= i < |h[1..]| ensures h[1..][i] == h[i + 1] { }
      }
      (match Display(h[0]) case Some(m) => [m] case None => []) + ChatHistoryForDisplay(h[1..])
  }

  lemma UserTurnsHaveTextAppend(a: seq<Turn>, b: seq<Turn>)
    ensures UserTurnsHaveText(a + b) <==> UserTurnsHaveText(a) && UserTurnsHaveText(b)
  {
    forall i | 0 <= i < |a| ensures a[i] == (a + b)[i] { }
    forall i | 0 <= i < |b| ensures b[i] == (a + b)[|a| + i] { }
    if UserTurnsHaveText(a) && UserTurnsHaveText(b) {
      forall i | 0 <= i < |a + b| ensures StartsWithText((a + b)[i]) {
        if i >= |a| { assert (a + b)[i] == b[i - |a|]; }
      }
    }
  }

  /** Unfolds the projection once: the first turn's message, then the rest. */
  lemma DisplayCons(h: seq<Turn>)
    requires h != [] && UserTurnsHaveText(h)
    ensures UserTurnsHaveText(h[1..])
    ensures ChatHistoryForDisplay(h) ==
      (match Display(h[0]) case Some(m) => [m] case None => []) + ChatHistoryForDisplay(h[1..])
  {
    assert forall i :: 0 <= i < |h[1..]| ==> h[1..][i] == h[i + 1];
  }

  /** The projection of a concatenation is the concatenation of the projections. */
  lemma {:induction false} DisplayAppend(a: seq<Turn>, b: seq<Turn>)
    requires UserTurnsHaveText(a) && UserTurnsHaveText(b)
    ensures UserTurnsHaveText(a + b)
    ensures ChatHistoryForDisplay(a + b) == ChatHistoryForDisplay(a) + ChatHistoryForDisplay(b)
  {
    UserTurnsHaveTextAppend(a, b);
    if a != [] {
      assert (a + b)[0] == a[0] && (a + b)[1..] == a[1..] + b;
      DisplayCons(a);
      DisplayCons(a + b);
      DisplayAppend(a[1..], b);
    } else {
      assert a + b == b;
    }
  }

  /** What a single turn projects to: one user message, at most one ai message, or nothing. */
  lemma DisplayOne(t: Turn)
    requires UserTurnsHaveText([t])
    ensures t.role == Role.User ==> ChatHistoryForDisplay([t]) == [ChatMessage(Sender.User, t.parts[0].text)]
    ensures t.role == Model && FirstText(t.parts).Some? ==>
      ChatHistoryForDisplay([t]) == [ChatMessage(Ai, FirstText(t.parts).value)]
    ensures t.role == Model && FirstText(t.parts).None? ==> ChatHistoryForDisplay([t]) == []
    ensures t.role == Tool ==> ChatHistoryForDisplay([t]) == []
  {
    assert [t][1..] == [];
  }

  /** Every user turn, and only a user turn, yields a user message; the counts agree. */
  function UserTurnCount(h: seq<Turn>): nat {
    if h == [] then 0 else (if h[0].role == Role.User then 1 else 0) + UserTurnCount(h[1..])
  }

  function UserMessageCount(ms: seq<ChatMessage>): nat {
    if ms == [] then 0 else (if ms[0].sender == Sender.User then 1 else 0) + UserMessageCount(ms[1..])
  }

  lemma {:induction false} UserMessagesMatchUserTurns(h: seq<Turn>)
    requires UserTurnsHaveText(h)
    ensures UserMessageCount(ChatHistoryForDisplay(h)) == UserTurnCount(h)
  {
    if h != [] {
      assert UserTurnsHaveText(h[1..]) by { UserTurnsHaveTextAppend([h[0]], h[1..]); assert h == [h[0]] + h[1..]; }
      UserMessagesMatchUserTurns(h[1..]);
      var head := match Display(h[0]) case Some(m) => [m] case None => [];
      UserMessageCountAppend(head, ChatHistoryForDisplay(h[1..]));
    }
  }

  lemma {:induction false} UserMessageCountAppend(a: seq<ChatMessage>, b: seq<ChatMessage>)
    ensures UserMessageCount(a + b) == UserMessageCount(a) + UserMessageCount(b)
  {
    if a == [] {
      assert a + b == b;
    } else {
      assert (a + b)[1..] == a[1..] + b;
      UserMessageCountAppend(a[1..], b);
    }
  }

  /** Two sample transcripts and the chat logs they show. */
  lemma DisplayExamples(call: FunctionCall, reply: Reply)
    ensures ChatHistoryForDisplay([Turn(Role.User, [Text("hi")]), Turn(Model, [Text("hello")])])
         == [ChatMessage(Sender.User, "hi"), ChatMessage(Ai, "hello")]
    ensures ChatHistoryForDisplay([Turn(Model, [Call(call), Text("first")]),
                                   Turn(Tool, [FunctionResponse(call.name, reply)]),
                                   Turn(Model, [Text("second")])])
         == [ChatMessage(Ai, "first"), ChatMessage(Ai, "second")]
  {
    var h1 := [Turn(Role.User, [Text("hi")]), Turn(Model, [Text("hello")])];
    assert h1[1..][1..] == [];
    var h2 := [Turn(Model, [Call(call), Text("first")]),
               Turn(Tool, [FunctionResponse(call.name, reply)]),
               Turn(Model, [Text("second")])];
    assert h2[1..][1..][1..] == [];
    assert FirstText([Call(call), Text("first")]) == Some("first") by {
      assert [Call(call), Text("first")][1..] == [Text("first")];
    }
    assert ChatHistoryForDisplay(h2[1..][1..]) == [ChatMessage(Ai, "second")];
    assert ChatHistoryForDisplay(h2[1..]) == [ChatMessage(Ai, "second")];
  }
}
