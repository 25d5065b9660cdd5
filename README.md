# Chat task manager — a verified model of `chat/chat.go`

`chat/chat.go` is a Google Chat webhook that keeps a per-user task list.
A text message is trimmed and matched against three commands: `add <task>`, `list` and `done <id>`.
Anything else gets the usage text.
A click on a card button carries an action name (`markDone`, `deleteTask`, `editTask`, `list`) and a parameter list.
The handler folds that list into a map, parses `taskId` with `strconv.Atoi` and dispatches.
Every operation works on the `tasks(id, content, done, user_id)` table.
The filter is always `id = $1 AND user_id = $2`, and "zero rows affected" is reported as "not found".
Replies are a text message or a list of cards, and a task's card carries its buttons.

The model is split into eight modules:

- `Wrappers`: `Option`.
- `Strings`: `unicode.IsSpace`, the regex class `\s`, and `strings.TrimSpace`. The last is proved to strip exactly a white-space prefix and suffix.
- `Strconv`: `strconv.Itoa` and `strconv.Atoi` on a 64-bit platform.
  - A syntax error gives 0.
  - An out-of-range number gives the clamped bound, with the error set.
  - `Atoi(Itoa(n))` round-trips.
- `Commands`: owner resolution, plus the three anchored patterns coded by hand with Go's RE2 semantics.
  - `\s` is `[\t\n\f\r ]` and `\d` is an ASCII digit.
  - `.` is any character except `\n`, and `$` is the end of the text.
  - `\s+` is greedy.
  - On top of these sits the first-match classifier.
- `Cards`: the reply and card shapes and `createTaskButtons`. Titles and texts are kept as their kind and the numbers they embed.
- `Actions`: the parameter fold (`BuildParams`, a loop proved against `ParamMap`) and the card-action switch. Lemmas show where each rendered button's click lands.
- `Store`: the table as a sequence of rows in insertion order plus the id counter, and one function per handler (`AddOutcome`, `DoneOutcome`, …). The class `TaskStore` holds the table as mutable state and runs each handler in place. Each of its methods is proved to end in the state and reply its function prescribes.
- `Chat`: the two entry points as methods on a `TaskStore`, their functional specifications, and properties of whole requests. These cover owner isolation, the table invariant, non-empty contents, read-only requests, and the add-then-`done <id>` round trip.

The table invariant `WellFormed` has three parts:
- ids are positive;
- ids are below the counter;
- rows are stored in ascending id order.

Under this invariant the scan in storage order that `ListTasks` performs equals the source's `ORDER BY id` (`OwnerTasksAscending`). It also makes every single-task statement touch at most one row (`AtMostOneAffected`, `SingleRowUpdate`, `SingleRowDelete`).

There is no text `edit` command: the switch in `chat/chat.go` tries only `add`, `list` and `done`, and its usage text lists only those three.
`NoTextEdit` proves that `edit …` gets the usage text, so edits and deletes are reachable only through card actions.

On the edit form both "Save" and the input's change action carry only `taskId`. Dispatching such a click shows the form again (`EditFormTargets`). The handler reads new content only from a `content` action parameter, and no card the code renders supplies one.

## Model

| member | source | states |
|---|---|---|
| Strings.IsRegexSpace | chat/chat.go:127-129 | the RE2 class `\s` (tab, newline, form feed, carriage return, space) lies within `unicode.IsSpace`, is ASCII and excludes vertical tab |
| Strings.IsSpace | chat/chat.go:116 | specification by its body: the characters `unicode.IsSpace` accepts, ASCII tab to carriage return, space, U+0085, U+00A0 and the other Unicode White_Space characters |
| Strings.IsDigit | chat/chat.go:129 | specification by its body: the RE2 class `\d`, an ASCII decimal digit |
| Strings.CountWhile | chat/chat.go:127 | the length of the longest run of matching characters at the front, so the next character fails the test — how a greedy `\s+` consumes input |
| Strings.TrimLeft | chat/chat.go:116 | the result is a suffix of the input, what was dropped is all white space, and the result does not start with white space |
| Strings.TrimRight | chat/chat.go:116 | the result is a prefix of the input, what was dropped is all white space, and the result does not end with white space |
| Strings.TrimSpace | chat/chat.go:116 | the result neither starts nor ends with white space, and it is empty exactly when the input is all white space |
| Strings.TrimSpaceOf | chat/chat.go:116 | white-space prefix + trimmed core + white-space suffix trims to exactly the core |
| Strings.TrimSpaceIdempotent | chat/chat.go:116 | trimming twice equals trimming once; a trimmed string is its own trim |
| Strings.TrimSpaceParts | chat/chat.go:116 | the trim is the slice of the input at a returned index, with only white space before and after it |
| Strings.TrimSpaceSplit | chat/chat.go:116 | the input is a white-space prefix, its trim, and a white-space suffix |
| Strings.TrimSpaceChars | chat/chat.go:134 | every character of the trimmed text occurs in the original |
| Strconv.Digits | chat/chat.go:258 | the decimal rendering of a natural number: non-empty, digits only, denoting that number, with no leading zero |
| Strconv.DigitsValue | chat/chat.go:148-150 | specification by its body: the number a run of decimal digits denotes, most significant first |
| Strconv.Atoi | chat/chat.go:191-195 | the value lies within 64 bits; a failed parse yields 0 or a clamped bound; a successful one began with a sign or a digit |
| Strconv.AtoiOverflowFirst | chat/chat.go:191-195 | digits that overflow 64 unsigned bits give the range error with MaxInt whatever follows them, as the unsigned scan reports overflow before a later non-digit |
| Strconv.AtoiSyntaxError | chat/chat.go:191-195 | a non-digit after digits that fit in 64 unsigned bits is a syntax error with value 0 |
| Strconv.AtoiItoa | chat/chat.go:191-192 | parsing the `taskId` text that `strconv.Itoa` wrote gives back the same id with no error, for every 64-bit id |
| Strconv.Itoa | chat/chat.go:463-466 | specification by its body: `-` for a negative number, then the digits of the magnitude; `AtoiItoa` and `ItoaInjective` state its properties |
| Strconv.AtoiDigits | chat/chat.go:148-150 | a run of digits parses to its value, or to MaxInt with an error when it overflows 64 bits |
| Strconv.ItoaInjective | chat/chat.go:463-466 | distinct ids are rendered as distinct `taskId` texts |
| Commands.OwnerOf | chat/chat.go:118-124 | the owner is the email when non-empty, else the name when non-empty, else "default"; it is never empty (the same code is at lines 176-181) |
| Commands.MatchAddIsPattern | chat/chat.go:127-133 | the matcher succeeds exactly when the text splits as `add`, a `\s+` run and a one-line non-empty group; the group it returns comes from the longest `\s` run |
| Commands.AddSplit | chat/chat.go:127 | specification by its body: the pattern `^add\s+(.+)$` as a split point — `add`, a non-empty run of `\s`, then a non-empty group without newline up to the end |
| Commands.DoneSplit | chat/chat.go:129 | specification by its body: the pattern `^done\s+(\d+)$` as a split point — `done`, a non-empty run of `\s`, then a non-empty run of digits up to the end |
| Commands.MatchAdd | chat/chat.go:127-133 | the greedy matcher for `add`; `MatchAddIsPattern` states that it agrees with `AddSplit` |
| Commands.MatchDone | chat/chat.go:129-149 | the matcher for `done`; `MatchDoneIsPattern` states that it agrees with `DoneSplit` |
| Commands.Classify | chat/chat.go:116-162 | trims the text and classifies it; `AddCommand`, `ListCommand`, `DoneCommand` and `HelpFallback` state its cases |
| Commands.ClassifyTrimmed | chat/chat.go:131-162 | specification by its body: the first-match switch — `add` with the trimmed group, `list`, `done` with Atoi's value (its error ignored), else the usage text |
| Commands.MatchDoneIsPattern | chat/chat.go:129-149 | the matcher succeeds exactly when the text splits as `done`, a `\s+` run and a digit group, and any such split yields that group |
| Commands.MatchAddGroup | chat/chat.go:132-134 | on trimmed text the `add` group is a non-empty one-line suffix that does not end in white space |
| Commands.AddContentIsTrimmed | chat/chat.go:132-135 | the content of a classified `add` is non-empty, has no surrounding white space and no newline |
| Commands.AddCommand | chat/chat.go:116-135 | `add <x>` is classified as adding TrimSpace(x) whenever x is not all white space and has no newline before its trailing white space |
| Commands.AddTrailingNewline | chat/chat.go:116-135 | a trailing newline after one-line trimmed content is trimmed off with the text, and the content is added as is |
| Commands.ListCommand | chat/chat.go:141-146 | the text is classified as List exactly when it trims to `list`, so `list` never counts as an `add` |
| Commands.DoneCommand | chat/chat.go:148-151 | `done <digits>` marks the task with that number, and a number beyond 64 bits becomes MaxInt because the Atoi error is ignored |
| Commands.DoneItoa | chat/chat.go:148-151 | `done` followed by the decimal form of an id marks exactly that id |
| Commands.DoneIdRange | chat/chat.go:148-151 | a classified `done` carries an id between 0 and MaxInt |
| Commands.HelpFallback | chat/chat.go:157-161 | the usage text is the reply exactly when none of the three patterns matches the trimmed text |
| Commands.EditPrefixIsHelp | chat/chat.go:131-162 | text starting with `edit` gets the usage text |
| Commands.NoTextEdit | chat/chat.go:131-162 | `edit <anything>` gets the usage text: no text command edits a task |
| Cards.CreateTaskButtons | chat/chat.go:454-501 | the buttons are markDone (only while the task is open), editTask and deleteTask, in that order, each carrying exactly the task's id as `taskId` |
| Cards.TaskIdParameters | chat/chat.go:463-466 | specification by its body: the single parameter `taskId` holding `strconv.Itoa(id)` |
| Cards.TaskButton | chat/chat.go:458-470 | specification by its body: a text button whose click sends the action name and the task id parameter |
| Cards.ListReplyCards | chat/chat.go:412-451 | the reply is the "no tasks" text exactly when the listing is empty; otherwise one card per task in order, with its status and id, its content and its buttons |
| Cards.TaskCard | chat/chat.go:417-448 | specification by its body: status and id in the header, then the content, a divider and the task's buttons |
| Cards.ListReply | chat/chat.go:412-451 | specification by its body: the "no tasks" text, or one task card per listed task; `ListReplyCards` and `ListingButtonsTargetTasks` state its properties |
| Cards.AddedCard | chat/chat.go:317-369 | specification by its body: the "Task Added" header with the id, the content, a divider and the buttons "Mark as Done" and "Delete" |
| Cards.EditFormCard | chat/chat.go:240-300 | specification by its body: the edit header with the id, a one-line input prefilled with the content, a divider, "Save" and "Cancel"; `EditFormTargets` states where they lead |
| Actions.ParamMapLastWins | chat/chat.go:183-187 | the map has exactly the listed keys, and a duplicated key keeps its last value |
| Actions.ParamMap | chat/chat.go:183-187 | the parameter map, each key written in turn; `ParamMapLastWins` states what it holds |
| Actions.Lookup | chat/chat.go:191 | specification by its body: a Go map read, a missing key reading as the empty string |
| Actions.ClassifyAction | chat/chat.go:189-226 | the action switch; `InvalidTaskIdExactly`, `UnknownActionExactly`, `EditNeedsContent` and `TaskActionsUseParsedId` state its cases |
| Actions.BuildParams | chat/chat.go:183-187 | the loop builds the parameter map, a later duplicate overwriting an earlier one |
| Actions.InvalidTaskIdExactly | chat/chat.go:189-211 | "Invalid task ID" comes exactly from markDone, deleteTask or editTask with a `taskId` Atoi rejects |
| Actions.UnknownActionExactly | chat/chat.go:189-226 | "Unknown action" comes exactly from a name other than the four handled ones |
| Actions.EditNeedsContent | chat/chat.go:206-219 | an edit is dispatched exactly for editTask with an accepted `taskId` and non-empty `content`, carrying the parsed id and that content; with an accepted `taskId` and empty or missing content, and only then, the form for the parsed id is shown |
| Actions.TaskActionsUseParsedId | chat/chat.go:190-205 | markDone and deleteTask with a `taskId` Atoi accepts act on the parsed id, whatever other parameters the click carries |
| Actions.TaskButtonsTargetTask | chat/chat.go:454-501 | clicking a listed task's buttons marks it done (open tasks only), opens its edit form, or deletes it, for that same id |
| Actions.TaskIdClicks | chat/chat.go:189-211 | a markDone, editTask or deleteTask click carrying the Itoa form of an id dispatches to that id; editTask without content shows the form |
| Actions.ListingButtonsTargetTasks | chat/chat.go:412-501 | on the listing, each card's buttons mark done (open tasks only), open the form for, or delete the task that card shows |
| Actions.AddedCardTargetsTask | chat/chat.go:335-362 | the added-task card's buttons mark the new task done or delete it |
| Actions.EditFormTargets | chat/chat.go:249-295 | "Save" and the input's change action carry only the id and so show the form again; "Cancel" lists |
| Store.RowsAffected | chat/chat.go:515-517 | the count of rows the filter touches is zero exactly when no row has that id and owner |
| Store.View | chat/chat.go:375-380 | specification by its body: the columns `id, content, done` of a row |
| Store.WellFormed | chat/chat.go:305-311 | the table invariant: ids positive, below the counter and ascending; every operation keeps it |
| Store.Matches | chat/chat.go:505-509 | specification by its body: the filter `id = $1 AND user_id = $2` |
| Store.Assign | chat/chat.go:505-509 | specification by its body: `SET done = true` or `SET content = $1` on one row |
| Store.UpdateWhere | chat/chat.go:505-509 | specification by its body: every matching row assigned, the others kept in place; `SingleRowUpdate` and `UpdateIsolation` state its properties |
| Store.DeleteWhere | chat/chat.go:526-529 | specification by its body: the non-matching rows in order; `DeleteWhereMembers` and `SingleRowDelete` state its properties |
| Store.OwnerTasks | chat/chat.go:375-406 | the owner's rows as (id, content, done) in table order; `OwnerTasksMembers` and `OwnerTasksAscending` state its properties |
| Store.AddOutcome | chat/chat.go:305-372 | specification by its body: the row appended with the counter as id, the counter advanced, the added-task card; `AddAppendsToListing` states its effect |
| Store.ListOutcome | chat/chat.go:374-452 | specification by its body: the table unchanged and the owner's listing as reply |
| Store.AfterStatement | chat/chat.go:515-522 | specification by its body: not found when no row was affected, else the refreshed listing |
| Store.DoneOutcome | chat/chat.go:504-523 | the UPDATE setting done, then not found or the listing; `NotFoundExactly` and `FoundTaskEffects` state its cases |
| Store.DeleteOutcome | chat/chat.go:525-543 | the DELETE, then not found or the listing; `NotFoundExactly` and `FoundTaskEffects` state its cases |
| Store.EditOutcome | chat/chat.go:545-568 | empty content refused first, else the UPDATE of the content, then not found or the listing; `EmptyEditRejected`, `NotFoundExactly` and `FoundTaskEffects` state its cases |
| Store.ShowEditFormOutcome | chat/chat.go:229-303 | specification by its body: the form prefilled with the found content, or not found, the table unchanged |
| Store.DeleteWhereMembers | chat/chat.go:526-529 | the kept rows are exactly the rows not matching the filter, fewer by the affected count |
| Store.FindContent | chat/chat.go:231-238 | there is a result exactly when some row matches, and then it is that row's content |
| Store.OwnerTasksMembers | chat/chat.go:375-406 | the listing holds exactly the owner's rows, as (id, content, done) |
| Store.UniqueMatch | chat/chat.go:505-509 | with ascending ids the filter selects at most the one row with that id |
| Store.AtMostOneAffected | chat/chat.go:505-517 | a single-task statement affects one row when the task is found and none otherwise |
| Store.NoMatchUnchanged | chat/chat.go:515-519 | when nothing matches, the UPDATE and the DELETE leave the table as it was |
| Store.SingleRowUpdate | chat/chat.go:505-509 | the UPDATE of a found task changes that row only, by the assignment |
| Store.SingleRowDelete | chat/chat.go:526-529 | the DELETE of a found task removes that row only, keeping the others in order |
| Store.DeleteKeepsAscending | chat/chat.go:526-529 | deleting keeps the rows in ascending id order |
| Store.OwnerTasksAscending | chat/chat.go:375-380 | the listing is in ascending id order, as `ORDER BY id` requires |
| Store.UpdateIsolation | chat/chat.go:505-509 | an UPDATE filtered on one owner leaves every other owner's listing unchanged |
| Store.DeleteIsolation | chat/chat.go:526-529 | a DELETE filtered on one owner leaves every other owner's listing unchanged |
| Store.OwnerTasksAppend | chat/chat.go:307-311 | an inserted row appears last in its owner's listing and in no other |
| Store.AddAppendsToListing | chat/chat.go:305-315 | adding puts the task, open, at the end of its owner's listing under an id above every existing one; other owners' listings are unchanged |
| Store.AddKeepsWellFormed | chat/chat.go:307-311 | inserting keeps ids positive, unique and ascending, and the counter above them |
| Store.UpdateKeepsWellFormed | chat/chat.go:505-509 | the UPDATEs keep the table invariant |
| Store.DeleteKeepsWellFormed | chat/chat.go:526-529 | the DELETE keeps the table invariant |
| Store.OperationsKeepWellFormed | chat/chat.go:229-568 | all six operations keep the table invariant |
| Store.OperationIsolation | chat/chat.go:504-568 | add, done, delete and edit by one owner never change another owner's listing |
| Store.NotFoundExactly | chat/chat.go:504-568 | done, delete, edit and the edit form reply "not found" exactly when no row has that id and owner, and then the table is unchanged |
| Store.EmptyEditRejected | chat/chat.go:546-548 | an edit with empty content is refused and changes nothing |
| Store.UpdatedListing | chat/chat.go:505-509 | after an UPDATE the listed task with that id carries the assigned value |
| Store.FoundTaskEffects | chat/chat.go:504-568 | for an existing task, done, edit and delete reply with the owner's refreshed listing, in which the task appears done (done), with the new content (edit), or not at all (delete) |
| Store.TaskStore.AddTask | chat/chat.go:305-372 | inserts the row with the counter's id, advances the counter, replies with the added-task card, and keeps the invariant |
| Store.TaskStore.ListTasks | chat/chat.go:374-452 | both loops together reply with one card per listed task of the owner, or the "no tasks" text |
| Store.TaskStore.MarkTaskDone | chat/chat.go:504-523 | the new table and reply are those of the done specification, and the invariant is kept |
| Store.TaskStore.DeleteTask | chat/chat.go:525-543 | the new table and reply are those of the delete specification, and the invariant is kept |
| Store.TaskStore.EditTask | chat/chat.go:545-568 | the new table and reply are those of the edit specification, and the invariant is kept |
| Store.TaskStore.ShowEditForm | chat/chat.go:229-303 | replies with the form prefilled with the stored content, or not found, without changing the table |
| Chat.HandleCardAction | chat/chat.go:170-227 | the table and reply after a click are those of the card-action specification, and the invariant is kept |
| Chat.CardActionOutcome | chat/chat.go:170-227 | specification by its body: no action is "Invalid action", else the classified action runs for the sender |
| Chat.CommandOutcome | chat/chat.go:189-226 | specification by its body: each dispatched command runs its handler, the rejections leave the table alone |
| Chat.IntentOutcome | chat/chat.go:131-162 | specification by its body: each classified text command runs its handler, else the usage text |
| Chat.ChatOutcome | chat/chat.go:110-162 | specification by its body: a request with an action is a click, otherwise a classified text command of its sender |
| Chat.RunCommand | chat/chat.go:189-226 | running a dispatched card command leaves the table and reply its specification prescribes, and keeps the invariant |
| Chat.HandleChat | chat/chat.go:110-162 | a request with an action is handled as a click, otherwise as a text command; the table and reply follow the specification, and the invariant is kept |
| Chat.RunIntent | chat/chat.go:131-162 | running a classified text command leaves the table and reply its specification prescribes, and keeps the invariant |
| Chat.CardActionReplies | chat/chat.go:170-226 | a missing action, an unknown name or a bad `taskId` gets its rejection text with the table unchanged; `list` lists the sender's tasks |
| Chat.ReadOnlyRequests | chat/chat.go:110-227 | only add, done, delete and content-carrying edits change the table, and only a text `add` advances the id counter |
| Chat.RequestIsolation | chat/chat.go:110-227 | no request changes the listing of an owner other than its sender's |
| Chat.RequestKeepsWellFormed | chat/chat.go:110-227 | every request keeps ids positive, unique, ascending and below the counter |
| Chat.RequestKeepsContents | chat/chat.go:110-227 | no request stores empty content |
| Chat.AddRequest | chat/chat.go:116-137 | a text `add <x>`, x not all white space and with no newline before its trailing white space, adds the trimmed x for the sender |
| Chat.AddThenMarkDone | chat/chat.go:305-523 | marking a just-added task done leaves it, done, at the end of its owner's listing |
| Chat.AddThenDone | chat/chat.go:127-151 | `done <id>`, with the id from the added-task card, closes exactly the task `add <x>` created |

## Left out

- The Encore HTTP endpoints, JSON encoding and `context.Context` are left out. Requests and replies are datatypes, and the model starts at the handler bodies.
- The `sqldb` layer is left out. The in-memory table cannot fail, so the `return nil, err` paths for storage, scan and row-iteration failures are not modelled.
- Concurrent requests are left out. Each request is handled to completion against the table.
- Message texts and card titles are left out as strings; emoji and `fmt.Sprintf` formatting are not modelled. Each is kept as a constructor that holds the id or done flag it embeds.
- Go strings are byte sequences, and the model works on code points. Input that is not valid UTF-8 is not modelled.
- The table's schema is not part of `chat/chat.go`. The model assumes that `INSERT … RETURNING id` hands out ids from an increasing sequence, and its counter is unbounded, so exhaustion of the id type is left out. Lemmas that go through `Itoa`/`Atoi` require the id to fit in 64 bits.
- `Strconv.Atoi` models a 64-bit `int`, so 32-bit platforms are not covered. Its contract gives only the range of the result and the shape of accepted input. The values it returns are stated by `AtoiDigits` and `AtoiItoa`.
- `Store.TaskStore.ListTasks` scans rows in storage order, not by sorting on id. The two agree under the table invariant (`OwnerTasksAscending`).
- `Store.TaskStore.ShowEditForm` assumes `QueryRow` returns the first matching row. With unique ids at most one row matches (`UniqueMatch`).
- The `onChangeAction` of the edit form's input is modelled only as a card action, and Google Chat's form submission is left out. So are the other client-side widget semantics.
