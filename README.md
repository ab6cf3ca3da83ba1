# AI Maintenance Assistant: a Dafny model of its core

The AI Maintenance Assistant is a single-page app. A facility manager talks to a hosted language
model, and the model answers with text or asks the app to run one of six tools over an in-memory
list of maintenance tasks: add a complaint, update a task, delete a task, list tasks, and export
one task or all tasks as a spreadsheet. This project models the part of `App.tsx` that makes those
decisions, plus the status filter of the dashboard:

- **The task store and its six handlers** (`addComplaint`, `updateTask`, `deleteTask`, `getTasks`,
  `createGoogleSheetForTask`, `createGoogleSheetForAllTasks`).
  - Module `Tasks` states each one as a function from the task list to an `Outcome`: the new list, the
    reply the model receives, and the sheet handed to the download step, if any.
  - Module `Store` gives the imperative form. The class `TaskStore` has a mutable `tasks` field, and its
    methods are proved equal to those functions.
  - The two `setTasks(prev => …)` updaters are loops (`MapUpdate`, `FilterDelete`) proved against
    the same functions.
- **The tool registry.**
  - Module `Registry` covers the lookup `functions[fc.name]` and the positional call
    `functionToCall(...Object.values(fc.args))`.
  - A missing argument is `undefined`. Because arguments are bound by position, a value can land in
    any parameter. For that reason the model keeps task fields as JavaScript values (`Value`), and
    `WellTyped` says when a task matches `types.ts`.
- **The conversation turn** (`handleSendMessage`).
  - Module `Conversation` defines `SendMessage`: the transcript, the tasks and the exported sheet after
    one message.
  - The hosted model is a parameter `callModel` that maps the transcript so far to a response, or to a
    failure.
  - The class `App` runs the same steps on mutable state and is proved equal to `SendMessage`.
  - Every thrown error (a failed call, an empty call list, an unknown tool, missing arguments)
    replaces the turn's replies with the fixed apology.
- **The chat projection** (`chatHistoryForDisplay`).
  - Module `Transcript` defines `ChatHistoryForDisplay` from transcript turns to chat messages.
  - It proves that the projection distributes over concatenation, so a turn extends the chat log by
    exactly the user's message and what the replies show.
- **`String.prototype.trim`** (module `JsString`). A message is blank when it is empty after trimming
  the ECMAScript white-space and line-terminator characters.
- **The dashboard filter** (module `Dashboard`): `All`, or one status.

The tool declarations in `services/geminiService.ts:11-107` list each tool's parameters in the
handler's order (for `updateTask`: `taskId`, `status`, `assignedTo`). The call at `App.tsx:248`,
however, binds arguments by position in the order of `Object.values(fc.args)`, that is, in the order
of the keys of the model's argument object, and a parameter the model leaves out shifts every later
argument one place to the left.

The model follows the code. `Registry.AssigneeOnlyUpdateSetsStatus` shows the consequence: an update
that supplies only a task id and an assignee writes the assignee's name into the status field.

## Model

| member | source | states |
|---|---|---|
| Types.StatusOf | types.ts:2-6 | a value is read as a status exactly when it is the string of one of the three enum members |
| Types.StatusTextRoundTrip | types.ts:2-6 | reading back the string of any status gives that status |
| Tasks.Add | App.tsx:120-133 | the call succeeds iff no task has the id; success puts one new Pending task dated today at the front, with the assignee or "Unassigned", and returns its id; failure leaves the list unchanged; unique ids are kept |
| Tasks.HasId | App.tsx:121 | `tasks.some(task => task.id === id)`: some task carries the id; Tasks.HasIdCons characterises it |
| Tasks.HasIdCons | App.tsx:121 | a list has the id iff its first task has it or the rest has it, and the empty list never has it |
| Tasks.Patched | App.tsx:138-150 | the map callback keeps id, description and date; a task with another id, or a call with neither field truthy, is returned unchanged; a matching task takes each truthy field supplied and keeps the other |
| Tasks.UpdatedList | App.tsx:137-152 | the mapped list has the same length, and it equals the old list when no task has the id or neither field is truthy |
| Tasks.Update | App.tsx:134-160 | not found iff no task has the id, and then nothing changes; no updates iff found but neither status nor assignee is truthy, and then nothing changes; success otherwise; only matching tasks change, each taking the truthy fields supplied; length, ids, descriptions and dates are kept |
| Tasks.Delete | App.tsx:161-178 | success iff a task had the id; afterwards no task has it; every other task keeps its multiplicity and the order of the survivors is kept; a missing id leaves the list unchanged |
| Tasks.Query | App.tsx:179-184 | a falsy status returns the whole list; otherwise exactly the tasks whose status equals it, with their multiplicities and in list order; the list itself is untouched |
| Tasks.FindById | App.tsx:186 | finds a task iff one has the id, and then it is the first such task |
| Tasks.SheetForTask | App.tsx:185-195 | exports a sheet of exactly one task iff a task has the id, and that task is the first with the id, as `find` returns it; otherwise replies not found and exports nothing |
| Tasks.SheetForAll | App.tsx:196-205 | fails with "no tasks" and exports nothing iff the list is empty; otherwise exports every task and reports the count |
| Tasks.AddAfterAddRejected | App.tsx:121-123 | adding the same id a second time is rejected and leaves the list as the first add made it |
| Tasks.DeleteUndoesAdd | App.tsx:161-172 | deleting the id just added restores the original list |
| Tasks.QueryIdempotent | App.tsx:179-184 | querying a query's result with the same status returns it unchanged |
| Seqs.Filter | App.tsx:164-170 | `Array.prototype.filter`: never longer than its input; Seqs.FilterMembership, Seqs.FilterCounts and Seqs.FilterIsSubsequence characterise it |
| Seqs.FilterMembership | App.tsx:181 | a value is in the filtered list iff it is in the input and passes the test |
| Seqs.FilterCount | App.tsx:181 | a passing value keeps its multiplicity and a failing one has none |
| Seqs.FilterIsSubsequence | App.tsx:181 | the filtered list is an order-preserving subsequence of the input |
| Tasks.FilterDropsId | App.tsx:164-170 | after the delete filter no task carries the deleted id |
| Tasks.FilterKeepsUniqueIds | App.tsx:164-170 | filtering a list with unique ids keeps the ids unique |
| Store.MapUpdate | App.tsx:135-152 | the `prev.map` loop builds the list Tasks.Update specifies, and its two flags record "some task has the id" and "that, plus a truthy field was supplied" |
| Store.FilterDelete | App.tsx:162-172 | the `prev.filter` loop keeps exactly the tasks without the id, in order, and its flag records whether a task had the id |
| Store.TaskStore.constructor | App.tsx:19-28 | the store starts with the list it was loaded with |
| Store.TaskStore.AddComplaint | App.tsx:120-133 | the new list and the reply are those of Tasks.Add on the old list |
| Store.TaskStore.UpdateTask | App.tsx:134-160 | the new list and the reply are those of Tasks.Update on the old list |
| Store.TaskStore.DeleteTask | App.tsx:161-178 | the new list and the reply are those of Tasks.Delete on the old list |
| Store.TaskStore.GetTasks | App.tsx:179-184 | returns the whole list for a falsy status, otherwise exactly the tasks with that status |
| Store.TaskStore.CreateGoogleSheetForTask | App.tsx:185-195 | succeeds iff a task has the id; reply and sheet are those of Tasks.SheetForTask |
| Store.TaskStore.CreateGoogleSheetForAllTasks | App.tsx:196-205 | succeeds iff the list is non-empty; reply and sheet are those of Tasks.SheetForAll |
| Store.TaskStore.Invoke | App.tsx:245-248 | running a handler on the positional arguments changes the list, and yields the reply and sheet, exactly as Registry.Dispatch says |
| Registry.Lookup | App.tsx:245 | a name finds a handler iff it is one of the six tool names, and then the handler with that name |
| Registry.LookupName | App.tsx:119-206 | every handler is found under its own name |
| Registry.Arg | App.tsx:248 | the i-th positional argument is the i-th value when present, and a falsy `undefined` otherwise |
| Registry.Dispatch | App.tsx:119-206 | every handler keeps ids unique; only add, update and delete change the list; only the two export handlers produce a sheet; only getTasks replies with a listing |
| Registry.WellTypedCallKeepsTasksWellTyped | App.tsx:119-206 | a call whose arguments come in declared order with declared types keeps every task well typed |
| Registry.AddKeepsWellTyped | App.tsx:120-131 | adding with a numeric id, a string description and an optional string assignee keeps every task well typed |
| Registry.DeleteKeepsWellTyped | App.tsx:161-172 | deleting keeps every task well typed |
| Registry.AssigneeOnlyUpdateSetsStatus | App.tsx:134-147 | an update with only an id and a name binds the name to `status`: the call succeeds, the status becomes the name, the assignee is unchanged, and the task is ill typed unless the name is a status string |
| Transcript.FirstText | App.tsx:216 | finds a text iff some part is text, and then it is the first text part |
| Transcript.Display | App.tsx:210-222 | a turn gives a user message iff it is a user turn; a model turn gives a message iff it has a text part; a tool turn gives none |
| Transcript.ChatHistoryForDisplay | App.tsx:208-224 | the projection yields at most one message per turn |
| Transcript.UserTurnsHaveTextAppend | App.tsx:212 | a concatenation has text-led user turns iff both halves do |
| Transcript.DisplayAppend | App.tsx:208-224 | the projection of a concatenation is the concatenation of the projections |
| Transcript.DisplayOne | App.tsx:211-221 | a user turn shows its first part as a user message; a model turn shows its first text as an ai message, or nothing without text; a tool turn shows nothing |
| Transcript.UserMessagesMatchUserTurns | App.tsx:211-213 | the chat log holds exactly as many user messages as the transcript holds user turns |
| Transcript.DisplayExamples | App.tsx:208-224 | a user turn and a model reply show as two messages; a model turn whose text follows a tool call shows that text; a tool turn shows nothing |
| JsString.LeadingSpace | App.tsx:228 | the length of the white-space run at the start |
| JsString.TrailingStart | App.tsx:228 | the start of the white-space run at the end |
| JsString.Trim | App.tsx:228 | the trimmed string is empty iff every character is white space; otherwise it neither starts nor ends with white space, and it is the slice left after removing white space from both ends |
| Conversation.Try | App.tsx:235-263 | a completed try block adds one model turn, or a model, tool and model turn; with one turn no task changes and no sheet is made; unique ids are kept |
| Conversation.PartsOf | App.tsx:239 | the response's parts, or `[]` when it has none; Conversation.PlainReply and Conversation.ToolRuns state the model turns built from it |
| Conversation.SendMessage | App.tsx:227-274 | the transcript, tasks and sheet after one message; Conversation.SendMessageShape states that a blank message changes nothing and that otherwise the old transcript gains the user turn and then one model turn or a model, tool and model turn, keeping both transcript invariants and unique ids |
| Conversation.AddedShape | App.tsx:231-270 | a non-blank message adds the user turn and then one model turn, or model, tool and model; no later turn is a user turn, and every tool turn sits between model turns |
| Conversation.SendMessageAppends | App.tsx:232-270 | the new transcript is the old one plus the turn's additions, and the tasks are those the try block left |
| Conversation.SendMessageShape | App.tsx:227-274 | a blank message changes nothing; otherwise the transcript grows by 2 or 4 turns of that shape; text-led user turns, bracketed tool turns and unique ids are all kept |
| Conversation.ShapeLemma | App.tsx:231-259 | appending such a block keeps text-led user turns and bracketed tool turns |
| Conversation.BracketedAppend | App.tsx:241-259 | concatenating two transcripts whose tool turns are bracketed keeps them bracketed |
| Conversation.FirstCallFails | App.tsx:237-270 | a failing first model call appends the user turn and the apology and leaves the tasks alone |
| Conversation.PlainReply | App.tsx:237-265 | a reply without tool calls appends the user turn and the model turn and leaves the tasks alone |
| Conversation.ToolCallFails | App.tsx:243-270 | an empty call list, an unknown tool name or missing arguments give the apology, and no task changes |
| Conversation.ToolRuns | App.tsx:243-270 | only the first call runs; its effect on the tasks and its sheet stay even when the second model call fails (then the apology follows the user turn); otherwise the transcript gains the model, tool and final model turns |
| Conversation.DisplayAfterTurn | App.tsx:208-274 | after a turn the chat log is the old log, then the user's message, then what the reply turns show |
| Conversation.App.constructor | App.tsx:30-40 | the app starts with the loaded transcript, not loading, with nothing downloaded |
| Conversation.App.ChatLog | App.tsx:208-224 | the chat log of the component's current transcript, defined whenever the transcript invariants hold; at most one message per turn |
| Conversation.App.RunTurn | App.tsx:235-263 | the try block's pushes end with the transcript, the tasks and the downloads that Conversation.Try specifies |
| Conversation.App.HandleSendMessage | App.tsx:227-274 | the new transcript, tasks and downloads are those of Conversation.SendMessage; the transcript invariants are kept; loading is switched off after any non-blank message; the chat log is unchanged for a blank message and otherwise grows by the user's message and what the reply turns show |
| Dashboard.AllShowsEverything | components/Dashboard.tsx:16-18 | the `All` filter shows every task |
| Dashboard.FilteredTasks | components/Dashboard.tsx:15-20 | the shown list is never longer than the task list and shows only tasks of that list |
| Dashboard.OnlyShowsThatStatus | components/Dashboard.tsx:19 | a status filter shows exactly the tasks with that status, each as often as it occurs in the list |
| Dashboard.ShownIsSubsequence | components/Dashboard.tsx:15-20 | every filter shows a subsequence of the list |
| Dashboard.StatusFiltersPartition | components/Dashboard.tsx:15-20 | for well-typed tasks the three status filters together show as many tasks as the list holds, so with Dashboard.OnlyShowsThatStatus each task appears under exactly one status |
| Dashboard.DashboardMatchesGetTasks | components/Dashboard.tsx:19 | the dashboard's status filter and getTasks with the same status show the same tasks |

## Left out

- Persistence to `localStorage` and the JSON round trip of tasks and transcript. The store and the
  app start from a given list and transcript.
- The HTML table built by `generateStyledHtmlForTasks` and the Blob/anchor download of
  `downloadStyledSheet`. An export is recorded as a `Sheet` value that names the exported tasks.
- The clock. `new Date().toISOString().split('T')[0]` is the parameter `today`.
- The hosted model call (`callGeminiApi` in `services/geminiService.ts`), with its configuration and
  tool declarations. It is the oracle parameter `callModel`. Whether its `functionCalls` agree with its
  parts is not modelled. Either may be absent.
- React scheduling: asynchronous state updates, stale closures over `tasks` and
  `conversationHistory`, and re-rendering. Each `setTasks` updater is assumed to run at once on the
  current list, so the flags it sets are read after it ran.
- The exact wording of the handlers' messages and the formatting of numbers into them. A reply
  carries a `Message` value holding the interpolated ids and the description.
- JavaScript numbers that are not integers (fractions, NaN, infinities). A `Value` is `undefined`, an
  integer or a string. Other JSON shapes (booleans, objects, arrays) are left out too.
- Names inherited from `Object.prototype` in `functions[fc.name]`. Only the six tool names are looked up.
- `components/ChatInterface.tsx`, `components/TaskCard.tsx` and the rendering in
  `components/Dashboard.tsx` are not part of this model. It keeps only the dashboard's filter.
- Transcript.ChatHistoryForDisplay: it requires every user turn to start with a text part, which the
  source assumes by a cast. `Conversation.App.Valid` keeps this for every transcript the app builds.
