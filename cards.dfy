/**
 * The replies the chat handler sends back: a text message or a list of
 * cards, each card a header and sections of widgets. Titles and message texts
 * are kept as their kind and the numbers they embed.
 */
module Cards {
  import opened Strconv

  /** The action names buttons send back, which the card-action dispatcher switches on. */
  const MarkDoneMethod := "markDone"
  const EditTaskMethod := "editTask"
  const DeleteTaskMethod := "deleteTask"
  const ListMethod := "list"

  /** The key under which every task button carries its task's id, as decimal text. */
  const TaskIdKey := "taskId"
  /** The key an edit submission carries the new content under. */
  const ContentKey := "content"

  datatype CardAction = CardAction(methodName: string, parameters: map<string, string>)

  datatype Button = TextButton(text: string, onClick: CardAction)

  datatype Widget =
    | TextParagraph(text: string)
    | ButtonList(buttons: seq<Button>)
    | Divider
    | TextInput(name: string, labelText: string, inputType: string, value: string, onChange: CardAction)

  /**
   * Card titles: "✅ Task Added" with subtitle "Task ID: <id>"; "<✅ or ❌> Task #<id>";
   * "✏️ Edit Task #<id>".
   */
  datatype Header =
    | TaskAddedHeader(id: int)
    | TaskStatusHeader(done: bool, id: int)
    | EditTaskHeader(id: int)

  datatype Section = Section(widgets: seq<Widget>)

  datatype Card = Card(header: Header, sections: seq<Section>)

  /** The text replies: the usage text, the three rejections, not found, empty content and an empty list. */
  datatype Message =
    | HelpText
    | InvalidAction
    | InvalidTaskId
    | UnknownAction
    | TaskNotFound(id: int)
    | EmptyContent
    | NoTasks

  datatype Reply = TextReply(message: Message) | CardsReply(cards: seq<Card>)

  /** One row of the owner's listing: what `SELECT id, content, done` returns. */
  datatype TaskView = TaskView(id: int, content: string, done: bool)

  function TaskIdParameters(id: int): map<string, string> {
    map[TaskIdKey := Itoa(id)]
  }

  function TaskButton(text: string, methodName: string, id: int): Button {
    TextButton(text, CardAction(methodName, TaskIdParameters(id)))
  }

  function MethodNames(buttons: seq<Button>): (names: seq<string>)
    ensures |names| == |buttons|
    ensures forall i :: 0 <= i < |buttons| ==> names[i] == buttons[i].onClick.methodName
  {
    if buttons == [] then [] else [buttons[0].onClick.methodName] + MethodNames(buttons[1..])
  }

  /**
   * createTaskButtons: "Mark as Done" only while the task is open, then
   * "Edit" and "Delete"; every button carries the task's id.
   */
  function CreateTaskButtons(id: int, done: bool): (buttons: seq<Button>)
    ensures MethodNames(buttons) == (if done then [] else [MarkDoneMethod]) + [EditTaskMethod, DeleteTaskMethod]
    ensures forall b :: b in buttons ==> b.onClick.parameters == TaskIdParameters(id)
  {
    var markDone := if done then [] else [TaskButton("Mark as Done", MarkDoneMethod, id)];
    markDone + [TaskButton("Edit", EditTaskMethod, id), TaskButton("Delete", DeleteTaskMethod, id)]
  }

  /** The card listTasks renders for one task: status and id, content, divider, buttons. */
  function TaskCard(task: TaskView): Card {
    Card(TaskStatusHeader(task.done, task.id),
         [Section([TextParagraph(task.content), Divider, ButtonList(CreateTaskButtons(task.id, task.done))])])
  }

  /** The reply of listTasks: the "no tasks" text for an empty listing, else one card per task in order. */
  function ListReply(tasks: seq<TaskView>): Reply {
    if tasks == [] then TextReply(NoTasks)
    else CardsReply(seq(|tasks|, i requires 0 <= i < |tasks| => TaskCard(tasks[i])))
  }

  /** The card addTask replies with: the content and the buttons "Mark as Done" and "Delete" (no "Edit"). */
  function AddedCard(id: int, content: string): Card {
    Card(TaskAddedHeader(id),
         [Section([TextParagraph(content), Divider,
                   ButtonList([TaskButton("Mark as Done", MarkDoneMethod, id), TaskButton("Delete", DeleteTaskMethod, id)])])])
  }

  /**
   * The form showEditForm replies with: a one-line input prefilled with the
   * stored content, "Save" (editTask with the task's id) and "Cancel" (list).
   */
  function EditFormCard(id: int, content: string): Card {
    Card(EditTaskHeader(id),
         [Section([TextInput(ContentKey, "Task content:", "SINGLE_LINE", content, CardAction(EditTaskMethod, TaskIdParameters(id))),
                   Divider,
                   ButtonList([TextButton("Save", CardAction(EditTaskMethod, TaskIdParameters(id))),
                               TextButton("Cancel", CardAction(ListMethod, map[]))])])])
  }

  /** The listing reply shows one card per task, in order, each with the task's status, id and content. */
  lemma ListReplyCards(tasks: seq<TaskView>)
    ensures ListReply(tasks) == TextReply(NoTasks) <==> tasks == []
    ensures ListReply(tasks).TextReply? <==> tasks == []
    ensures ListReply(tasks).CardsReply? ==>
      var cards := ListReply(tasks).cards;
      && |cards| == |tasks|
      && forall i :: 0 <= i < |tasks| ==>
        && cards[i].header == TaskStatusHeader(tasks[i].done, tasks[i].id)
        && cards[i].sections[0].widgets[0] == TextParagraph(tasks[i].content)
        && cards[i].sections[0].widgets[2] == ButtonList(CreateTaskButtons(tasks[i].id, tasks[i].done))
  {
  }
}
