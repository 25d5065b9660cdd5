/**
 * The two webhook entry points: HandleChat, which takes a text message or
 * hands a button click on to the card-action handler, and HandleCardAction.
 */
module Chat {
  import opened Wrappers
  import opened Strings
  import opened Strconv
  import opened Commands
  import opened Cards
  import opened Actions
  import opened Store

  /** A webhook request: the message text, its sender and, for a button click, the card action. */
  datatype Request = Request(text: string, sender: Sender, action: Option<Action>)

  /** What a dispatched card action does to the table. */
  function CommandOutcome(rows: seq<Task>, nextId: int, owner: string, command: CardCommand): Outcome {
    match command
    case MarkDoneCmd(id) => DoneOutcome(rows, nextId, id, owner)
    case DeleteCmd(id) => DeleteOutcome(rows, nextId, id, owner)
    case EditCmd(id, content) => EditOutcome(rows, nextId, id, content, owner)
    case ShowEditFormCmd(id) => ShowEditFormOutcome(rows, nextId, id, owner)
    case ListCmd => ListOutcome(rows, nextId, owner)
    case InvalidTaskIdCmd => Outcome(rows, nextId, TextReply(InvalidTaskId))
    case UnknownCmd => Outcome(rows, nextId, TextReply(UnknownAction))
  }

  /** handleCardAction as a function of the table: no action is invalid, else the action is dispatched for the sender. */
  function CardActionOutcome(rows: seq<Task>, nextId: int, sender: Sender, action: Option<Action>): Outcome {
    match action
    case None => Outcome(rows, nextId, TextReply(InvalidAction))
    case Some(a) => CommandOutcome(rows, nextId, OwnerOf(sender), ClassifyAction(a.methodName, ParamMap(a.parameters)))
  }

  /** What a classified text command does to the table. */
  function IntentOutcome(rows: seq<Task>, nextId: int, owner: string, intent: Intent): Outcome {
    match intent
    case Add(content) => AddOutcome(rows, nextId, content, owner)
    case List => ListOutcome(rows, nextId, owner)
    case Done(id) => DoneOutcome(rows, nextId, id, owner)
    case Help => Outcome(rows, nextId, TextReply(HelpText))
  }

  /** HandleChat as a function of the table: a click goes to the card-action handler, text to the command switch. */
  function ChatOutcome(rows: seq<Task>, nextId: int, req: Request): Outcome {
    if req.action.Some? then CardActionOutcome(rows, nextId, req.sender, req.action)
    else IntentOutcome(rows, nextId, OwnerOf(req.sender), Classify(req.text))
  }

  /** The `/card-action` endpoint. */
  method HandleCardAction(store: TaskStore, req: Request) returns (r: Reply)
    requires store.Valid()
    modifies store
    ensures store.Valid()
    ensures Outcome(store.rows, store.nextId, r) == CardActionOutcome(old(store.rows), old(store.nextId), req.sender, req.action)
  {
    if req.action.None? {
      return TextReply(InvalidAction);
    }
    var owner := OwnerOf(req.sender);
    var params := BuildParams(req.action.value.parameters);
    r := RunCommand(store, owner, ClassifyAction(req.action.value.methodName, params));
  }

  /** The switch of handleCardAction, run against the table. */
  method RunCommand(store: TaskStore, owner: string, command: CardCommand) returns (r: Reply)
    requires store.Valid()
    modifies store
    ensures store.Valid()
    ensures Outcome(store.rows, store.nextId, r) == CommandOutcome(old(store.rows), old(store.nextId), owner, command)
  {
    match command
    case MarkDoneCmd(id) =>
      r := store.MarkTaskDone(id, owner);
    case DeleteCmd(id) =>
      r := store.DeleteTask(id, owner);
    case EditCmd(id, content) =>
      r := store.EditTask(id, content, owner);
    case ShowEditFormCmd(id) =>
      r := store.ShowEditForm(id, owner);
    case ListCmd =>
      r := store.ListTasks(owner);
    case InvalidTaskIdCmd =>
      r := TextReply(InvalidTaskId);
    case UnknownCmd =>
      r := TextReply(UnknownAction);
  }

  /** The `/chat` endpoint. */
  method HandleChat(store: TaskStore, req: Request) returns (r: Reply)
    requires store.Valid()
    modifies store
    ensures store.Valid()
    ensures Outcome(store.rows, store.nextId, r) == ChatOutcome(old(store.rows), old(store.nextId), req)
  {
    if req.action.Some? {
      r := HandleCardAction(store, req);
      return;
    }
    r := RunIntent(store, OwnerOf(req.sender), Classify(req.text));
  }

  /** The command switch of HandleChat, run against the table. */
  method RunIntent(store: TaskStore, owner: string, intent: Intent) returns (r: Reply)
    requires store.Valid()
    modifies store
    ensures store.Valid()
    ensures Outcome(store.rows, store.nextId, r) == IntentOutcome(old(store.rows), old(store.nextId), owner, intent)
  {
    match intent
    case Add(content) =>
      r := store.AddTask(content, owner);
    case List =>
      r := store.ListTasks(owner);
    case Done(id) =>
      r := store.MarkTaskDone(id, owner);
    case Help =>
      r := TextReply(HelpText);
  }

  // ---------------------------------------------------------------------------
  // Properties of whole requests
  // ---------------------------------------------------------------------------

  /** The card actions that run an UPDATE or DELETE. */
  predicate CommandWrites(command: CardCommand) {
    command.MarkDoneCmd? || command.DeleteCmd? || command.EditCmd?
  }

  /** The text commands that run an INSERT or UPDATE. */
  predicate IntentWrites(intent: Intent) {
    intent.Add? || intent.Done?
  }

  /** The requests that write to the table: a text `add` or `done`, or a markDone, deleteTask or content-carrying editTask click. */
  predicate Writes(req: Request) {
    match req.action
    case Some(a) => CommandWrites(ClassifyAction(a.methodName, ParamMap(a.parameters)))
    case None => IntentWrites(Classify(req.text))
  }

  /**
   * Clicks that do not reach a table statement: no action is "Invalid action",
   * an unknown name is "Unknown action", a task action whose `taskId` Atoi
   * rejects is "Invalid task ID" (all three leaving the table alone), and
   * `list` lists the sender's tasks.
   */
  lemma CardActionReplies(rows: seq<Task>, nextId: int, sender: Sender, action: Option<Action>)
    ensures action.None? ==> CardActionOutcome(rows, nextId, sender, action) == Outcome(rows, nextId, TextReply(InvalidAction))
    ensures action.Some? && action.value.methodName !in {MarkDoneMethod, DeleteTaskMethod, EditTaskMethod, ListMethod} ==>
      CardActionOutcome(rows, nextId, sender, action) == Outcome(rows, nextId, TextReply(UnknownAction))
    ensures (&& action.Some?
             && action.value.methodName in {MarkDoneMethod, DeleteTaskMethod, EditTaskMethod}
             && !Atoi(Lookup(ParamMap(action.value.parameters), TaskIdKey)).ok) ==>
      CardActionOutcome(rows, nextId, sender, action) == Outcome(rows, nextId, TextReply(InvalidTaskId))
    ensures action.Some? && action.value.methodName == ListMethod ==>
      CardActionOutcome(rows, nextId, sender, action) == ListOutcome(rows, nextId, OwnerOf(sender))
  {
    if action.Some? {
      UnknownActionExactly(action.value.methodName, ParamMap(action.value.parameters));
      InvalidTaskIdExactly(action.value.methodName, ParamMap(action.value.parameters));
    }
  }

  lemma CommandReadOnly(rows: seq<Task>, nextId: int, owner: string, command: CardCommand)
    ensures !CommandWrites(command) ==> CommandOutcome(rows, nextId, owner, command).rows == rows
    ensures CommandOutcome(rows, nextId, owner, command).nextId == nextId
  {
  }

  lemma IntentReadOnly(rows: seq<Task>, nextId: int, owner: string, intent: Intent)
    ensures !IntentWrites(intent) ==> IntentOutcome(rows, nextId, owner, intent).rows == rows
    ensures IntentOutcome(rows, nextId, owner, intent).nextId == if intent.Add? then nextId + 1 else nextId
  {
  }

  /** Listing, showing the form, help and every rejection leave the table and the id counter alone; only a text `add` advances the counter. */
  lemma ReadOnlyRequests(rows: seq<Task>, nextId: int, req: Request)
    ensures !Writes(req) ==> ChatOutcome(rows, nextId, req).rows == rows
    ensures ChatOutcome(rows, nextId, req).nextId == if req.action.None? && Classify(req.text).Add? then nextId + 1 else nextId
  {
    match req.action {
      case Some(a) => CommandReadOnly(rows, nextId, OwnerOf(req.sender), ClassifyAction(a.methodName, ParamMap(a.parameters)));
      case None => IntentReadOnly(rows, nextId, OwnerOf(req.sender), Classify(req.text));
    }
  }

  lemma CommandIsolation(rows: seq<Task>, nextId: int, owner: string, command: CardCommand, other: string)
    requires other != owner
    ensures OwnerTasks(CommandOutcome(rows, nextId, owner, command).rows, other) == OwnerTasks(rows, other)
  {
    match command {
      case MarkDoneCmd(id) => OperationIsolation(rows, nextId, id, "", owner, other);
      case DeleteCmd(id) => OperationIsolation(rows, nextId, id, "", owner, other);
      case EditCmd(id, content) => OperationIsolation(rows, nextId, id, content, owner, other);
      case _ =>
    }
  }

  lemma IntentIsolation(rows: seq<Task>, nextId: int, owner: string, intent: Intent, other: string)
    requires other != owner
    ensures OwnerTasks(IntentOutcome(rows, nextId, owner, intent).rows, other) == OwnerTasks(rows, other)
  {
    match intent {
      case Add(content) => OperationIsolation(rows, nextId, 0, content, owner, other);
      case Done(id) => OperationIsolation(rows, nextId, id, "", owner, other);
      case _ =>
    }
  }

  /** No request changes what an owner other than its sender's lists. */
  lemma RequestIsolation(rows: seq<Task>, nextId: int, req: Request, other: string)
    requires other != OwnerOf(req.sender)
    ensures OwnerTasks(ChatOutcome(rows, nextId, req).rows, other) == OwnerTasks(rows, other)
  {
    match req.action {
      case Some(a) => CommandIsolation(rows, nextId, OwnerOf(req.sender), ClassifyAction(a.methodName, ParamMap(a.parameters)), other);
      case None => IntentIsolation(rows, nextId, OwnerOf(req.sender), Classify(req.text), other);
    }
  }

  lemma CommandKeepsWellFormed(rows: seq<Task>, nextId: int, owner: string, command: CardCommand)
    requires WellFormed(rows, nextId)
    ensures WellFormed(CommandOutcome(rows, nextId, owner, command).rows, CommandOutcome(rows, nextId, owner, command).nextId)
  {
    match command {
      case MarkDoneCmd(id) => OperationsKeepWellFormed(rows, nextId, id, "", owner);
      case DeleteCmd(id) => OperationsKeepWellFormed(rows, nextId, id, "", owner);
      case EditCmd(id, content) => OperationsKeepWellFormed(rows, nextId, id, content, owner);
      case _ =>
    }
  }

  lemma IntentKeepsWellFormed(rows: seq<Task>, nextId: int, owner: string, intent: Intent)
    requires WellFormed(rows, nextId)
    ensures WellFormed(IntentOutcome(rows, nextId, owner, intent).rows, IntentOutcome(rows, nextId, owner, intent).nextId)
  {
    match intent {
      case Add(content) => OperationsKeepWellFormed(rows, nextId, 0, content, owner);
      case Done(id) => OperationsKeepWellFormed(rows, nextId, id, "", owner);
      case _ =>
    }
  }

  /** Every request keeps the table invariant: positive ids below the counter, in ascending order. */
  lemma RequestKeepsWellFormed(rows: seq<Task>, nextId: int, req: Request)
    requires WellFormed(rows, nextId)
    ensures WellFormed(ChatOutcome(rows, nextId, req).rows, ChatOutcome(rows, nextId, req).nextId)
  {
    match req.action {
      case Some(a) => CommandKeepsWellFormed(rows, nextId, OwnerOf(req.sender), ClassifyAction(a.methodName, ParamMap(a.parameters)));
      case None => IntentKeepsWellFormed(rows, nextId, OwnerOf(req.sender), Classify(req.text));
    }
  }

  /** Every stored task has non-empty content. */
  predicate ContentsNonEmpty(rows: seq<Task>) {
    forall i :: 0 <= i < |rows| ==> rows[i].content != ""
  }

  lemma CommandKeepsContents(rows: seq<Task>, nextId: int, owner: string, command: CardCommand)
    requires ContentsNonEmpty(rows)
    requires command.EditCmd? ==> command.content != ""
    ensures ContentsNonEmpty(CommandOutcome(rows, nextId, owner, command).rows)
  {
    if command.DeleteCmd? {
      DeleteWhereMembers(rows, command.id, owner);
      var kept := DeleteWhere(rows, command.id, owner);
      assert forall i :: 0 <= i < |kept| ==> kept[i] in rows;
    }
  }

  lemma IntentKeepsContents(rows: seq<Task>, nextId: int, owner: string, intent: Intent)
    requires ContentsNonEmpty(rows)
    requires intent.Add? ==> intent.content != ""
    ensures ContentsNonEmpty(IntentOutcome(rows, nextId, owner, intent).rows)
  {
  }

  /**
   * No request stores empty content: a text `add` stores trimmed, non-empty
   * content, and an editTask click with empty content shows the form instead.
   */
  lemma RequestKeepsContents(rows: seq<Task>, nextId: int, req: Request)
    requires ContentsNonEmpty(rows)
    ensures ContentsNonEmpty(ChatOutcome(rows, nextId, req).rows)
  {
    match req.action {
      case Some(a) =>
        EditNeedsContent(a.methodName, ParamMap(a.parameters));
        CommandKeepsContents(rows, nextId, OwnerOf(req.sender), ClassifyAction(a.methodName, ParamMap(a.parameters)));
      case None =>
        if Classify(req.text).Add? {
          AddContentIsTrimmed(req.text);
        }
        IntentKeepsContents(rows, nextId, OwnerOf(req.sender), Classify(req.text));
    }
  }

  /** A text `add <x>` adds the trimmed `x` for the sender. */
  lemma AddRequest(rows: seq<Task>, nextId: int, sender: Sender, x: string)
    requires !All(x, IsSpace) && '\n' !in TrimRight(x)
    ensures ChatOutcome(rows, nextId, Request("add " + x, sender, None)) == AddOutcome(rows, nextId, TrimSpace(x), OwnerOf(sender))
  {
    AddCommand(x);
  }

  /** A text classified as `done <id>` marks that id done for the sender. */
  lemma DoneRequest(rows: seq<Task>, nextId: int, sender: Sender, text: string, id: int)
    requires Classify(text) == Done(id)
    ensures ChatOutcome(rows, nextId, Request(text, sender, None)) == DoneOutcome(rows, nextId, id, OwnerOf(sender))
  {
  }

  /** Marking a just-added task done leaves it, done, at the end of its owner's listing. */
  lemma AddThenMarkDone(rows: seq<Task>, nextId: int, content: string, owner: string)
    requires WellFormed(rows, nextId)
    ensures var added := AddOutcome(rows, nextId, content, owner);
      var closed := DoneOutcome(added.rows, added.nextId, nextId, owner);
      && OwnerTasks(closed.rows, owner) == OwnerTasks(rows, owner) + [TaskView(nextId, content, true)]
      && closed.reply == ListReply(OwnerTasks(closed.rows, owner))
  {
    var t := Task(nextId, content, false, owner);
    assert UpdateWhere(rows + [t], nextId, owner, SetDone) == rows + [t.(done := true)];
    OwnerTasksAppend(rows, t.(done := true), owner);
  }

  /**
   * The id on the card of a newly added task, typed back as `done <id>`,
   * closes exactly that task: the owner's listing gains the content, done.
   */
  lemma AddThenDone(rows: seq<Task>, nextId: int, sender: Sender, x: string)
    requires WellFormed(rows, nextId) && nextId <= MaxInt
    requires !All(x, IsSpace) && '\n' !in TrimRight(x)
    ensures var owner := OwnerOf(sender);
      var added := ChatOutcome(rows, nextId, Request("add " + x, sender, None));
      var closed := ChatOutcome(added.rows, added.nextId, Request("done " + Itoa(nextId), sender, None));
      && added.reply == CardsReply([AddedCard(nextId, TrimSpace(x))])
      && OwnerTasks(closed.rows, owner) == OwnerTasks(rows, owner) + [TaskView(nextId, TrimSpace(x), true)]
      && closed.reply == ListReply(OwnerTasks(closed.rows, owner))
  {
    var added := AddOutcome(rows, nextId, TrimSpace(x), OwnerOf(sender));
    AddRequest(rows, nextId, sender, x);
    DoneItoa(nextId);
    DoneRequest(added.rows, added.nextId, sender, "done " + Itoa(nextId), nextId);
    AddThenMarkDone(rows, nextId, TrimSpace(x), OwnerOf(sender));
  }
}
