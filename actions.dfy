/**
 * The card-action side of the webhook: the parameter list a button click
 * carries is folded into a map, and the action name picks what to do.
 */
module Actions {
  import opened Strconv
  import opened Cards

  datatype Param = Param(key: string, value: string)

  /** A button click: the action's method name and its parameters in the order they arrived. */
  datatype Action = Action(methodName: string, parameters: seq<Param>)

  /** The parameters as a map, each key written in turn so that a later duplicate overwrites an earlier one. */
  function ParamMap(ps: seq<Param>): map<string, string> {
    if ps == [] then map[] else ParamMap(ps[..|ps| - 1])[ps[|ps| - 1].key := ps[|ps| - 1].value]
  }

  /** No parameter after position `i` and before `n` repeats the key at `i`. */
  predicate LastBefore(ps: seq<Param>, i: int, n: int)
    requires 0 <= i < |ps| && n <= |ps|
  {
    forall j :: i < j < n ==> ps[j].key != ps[i].key
  }

  /** The map has exactly the keys of the list, and each key maps to the value of its last occurrence. */
  lemma {:induction false} ParamMapLastWins(ps: seq<Param>)
    ensures ParamMap(ps).Keys == set i | 0 <= i < |ps| :: ps[i].key
    ensures forall i :: 0 <= i < |ps| && LastBefore(ps, i, |ps|) ==> ParamMap(ps)[ps[i].key] == ps[i].value
  {
    if ps != [] {
      var init := ps[..|ps| - 1];
      ParamMapLastWins(init);
      assert forall i :: 0 <= i < |init| ==> init[i] == ps[i];
      forall i | 0 <= i < |ps| && LastBefore(ps, i, |ps|)
        ensures ParamMap(ps)[ps[i].key] == ps[i].value
      {
        if i < |init| {
          assert LastBefore(init, i, |init|);
        }
      }
    }
  }

  /** The loop of handleCardAction that fills `params` from the request. */
  method BuildParams(ps: seq<Param>) returns (params: map<string, string>)
    ensures params == ParamMap(ps)
  {
    params := map[];
    for i := 0 to |ps|
      invariant params == ParamMap(ps[..i])
    {
      assert ps[..i + 1][..i] == ps[..i];
      params := params[ps[i].key := ps[i].value];
    }
    assert ps[..|ps|] == ps;
  }

  /** A Go map read: a missing key reads as the empty string. */
  function Lookup(params: map<string, string>, key: string): string {
    if key in params then params[key] else ""
  }

  /** What a card action asks for, after its task id has been parsed. */
  datatype CardCommand =
    | MarkDoneCmd(id: int)
    | DeleteCmd(id: int)
    | EditCmd(id: int, content: string)
    | ShowEditFormCmd(id: int)
    | ListCmd
    | InvalidTaskIdCmd
    | UnknownCmd

  /**
   * The switch of handleCardAction: the three task actions parse `taskId`
   * with Atoi and reject it on any error; `editTask` edits when `content` is
   * non-empty and otherwise shows the form; `list` lists; anything else is unknown.
   */
  function ClassifyAction(methodName: string, params: map<string, string>): CardCommand {
    if methodName == MarkDoneMethod || methodName == DeleteTaskMethod || methodName == EditTaskMethod then
      var parsed := Atoi(Lookup(params, TaskIdKey));
      if !parsed.ok then InvalidTaskIdCmd
      else if methodName == MarkDoneMethod then MarkDoneCmd(parsed.value)
      else if methodName == DeleteTaskMethod then DeleteCmd(parsed.value)
      else if Lookup(params, ContentKey) != "" then EditCmd(parsed.value, Lookup(params, ContentKey))
      else ShowEditFormCmd(parsed.value)
    else if methodName == ListMethod then ListCmd
    else UnknownCmd
  }

  /** What clicking a rendered button dispatches to. */
  function Click(action: CardAction): CardCommand {
    ClassifyAction(action.methodName, action.parameters)
  }

  function Clicks(buttons: seq<Button>): (commands: seq<CardCommand>)
    ensures |commands| == |buttons|
    ensures forall i :: 0 <= i < |buttons| ==> commands[i] == Click(buttons[i].onClick)
  {
    if buttons == [] then [] else [Click(buttons[0].onClick)] + Clicks(buttons[1..])
  }

  /** "Invalid task ID" comes exactly from a task action whose `taskId` Atoi rejects. */
  lemma InvalidTaskIdExactly(methodName: string, params: map<string, string>)
    ensures ClassifyAction(methodName, params) == InvalidTaskIdCmd <==>
      && (methodName == MarkDoneMethod || methodName == DeleteTaskMethod || methodName == EditTaskMethod)
      && !Atoi(Lookup(params, TaskIdKey)).ok
  {
  }

  /** "Unknown action" comes exactly from a name outside the four the dispatcher knows. */
  lemma UnknownActionExactly(methodName: string, params: map<string, string>)
    ensures ClassifyAction(methodName, params) == UnknownCmd <==>
      methodName !in {MarkDoneMethod, DeleteTaskMethod, EditTaskMethod, ListMethod}
  {
  }

  /**
   * An edit is dispatched exactly for `editTask` with an accepted `taskId` and
   * non-empty content; with an accepted `taskId` and no content the form is shown instead.
   */
  lemma EditNeedsContent(methodName: string, params: map<string, string>)
    ensures ClassifyAction(methodName, params).EditCmd? ==>
      && methodName == EditTaskMethod
      && ClassifyAction(methodName, params).content == Lookup(params, ContentKey) != ""
    ensures ClassifyAction(methodName, params).ShowEditFormCmd? ==>
      methodName == EditTaskMethod && Lookup(params, ContentKey) == ""
    ensures var parsed := Atoi(Lookup(params, TaskIdKey));
      methodName == EditTaskMethod && parsed.ok && Lookup(params, ContentKey) != "" ==>
        ClassifyAction(methodName, params) == EditCmd(parsed.value, Lookup(params, ContentKey))
    ensures var parsed := Atoi(Lookup(params, TaskIdKey));
      methodName == EditTaskMethod && parsed.ok && Lookup(params, ContentKey) == "" ==>
        ClassifyAction(methodName, params) == ShowEditFormCmd(parsed.value)
  {
  }

  /** markDone and deleteTask with a `taskId` Atoi accepts act on the parsed id, whatever else the click carries. */
  lemma TaskActionsUseParsedId(methodName: string, params: map<string, string>)
    ensures var parsed := Atoi(Lookup(params, TaskIdKey));
      methodName == MarkDoneMethod && parsed.ok ==> ClassifyAction(methodName, params) == MarkDoneCmd(parsed.value)
    ensures var parsed := Atoi(Lookup(params, TaskIdKey));
      methodName == DeleteTaskMethod && parsed.ok ==> ClassifyAction(methodName, params) == DeleteCmd(parsed.value)
  {
  }

  /** A task action carrying the Itoa form of an id dispatches to that id; `editTask` without content shows the form. */
  lemma TaskIdClicks(id: int)
    requires MinInt <= id <= MaxInt
    ensures Click(CardAction(MarkDoneMethod, TaskIdParameters(id))) == MarkDoneCmd(id)
    ensures Click(CardAction(EditTaskMethod, TaskIdParameters(id))) == ShowEditFormCmd(id)
    ensures Click(CardAction(DeleteTaskMethod, TaskIdParameters(id))) == DeleteCmd(id)
  {
    AtoiItoa(id);
  }

  /**
   * Every button on a listed task's card dispatches back to that task:
   * "Mark as Done" (open tasks only) marks it, "Edit" opens its form, "Delete" deletes it.
   */
  lemma TaskButtonsTargetTask(id: int, done: bool)
    requires MinInt <= id <= MaxInt
    ensures Clicks(CreateTaskButtons(id, done)) ==
      (if done then [] else [MarkDoneCmd(id)]) + [ShowEditFormCmd(id), DeleteCmd(id)]
  {
    TaskIdClicks(id);
    var buttons := CreateTaskButtons(id, done);
    var names := MethodNames(buttons);
    var expected := (if done then [] else [MarkDoneCmd(id)]) + [ShowEditFormCmd(id), DeleteCmd(id)];
    assert |buttons| == |expected|;
    forall i | 0 <= i < |buttons|
      ensures Clicks(buttons)[i] == expected[i]
    {
      assert buttons[i] in buttons;
      assert buttons[i].onClick == CardAction(names[i], TaskIdParameters(id));
    }
  }

  /** On the listing, every card's buttons act on the task that card shows, and on no other. */
  lemma ListingButtonsTargetTasks(tasks: seq<TaskView>)
    requires forall i :: 0 <= i < |tasks| ==> MinInt <= tasks[i].id <= MaxInt
    ensures ListReply(tasks).CardsReply? ==>
      forall i :: 0 <= i < |tasks| ==>
        Clicks(ListReply(tasks).cards[i].sections[0].widgets[2].buttons) ==
          (if tasks[i].done then [] else [MarkDoneCmd(tasks[i].id)]) + [ShowEditFormCmd(tasks[i].id), DeleteCmd(tasks[i].id)]
  {
    ListReplyCards(tasks);
    forall i | 0 <= i < |tasks|
      ensures ListReply(tasks).CardsReply? ==>
        Clicks(ListReply(tasks).cards[i].sections[0].widgets[2].buttons) ==
          (if tasks[i].done then [] else [MarkDoneCmd(tasks[i].id)]) + [ShowEditFormCmd(tasks[i].id), DeleteCmd(tasks[i].id)]
    {
      TaskButtonsTargetTask(tasks[i].id, tasks[i].done);
    }
  }

  /** The card of a newly added task offers exactly "mark it done" and "delete it". */
  lemma AddedCardTargetsTask(id: int, content: string)
    requires MinInt <= id <= MaxInt
    ensures Clicks(AddedCard(id, content).sections[0].widgets[2].buttons) == [MarkDoneCmd(id), DeleteCmd(id)]
  {
    TaskIdClicks(id);
  }

  /**
   * On the edit form, "Save" and the input's change action carry only the
   * task id, so they dispatch to showing the form again; "Cancel" lists.
   */
  lemma EditFormTargets(id: int, content: string)
    requires MinInt <= id <= MaxInt
    ensures var widgets := EditFormCard(id, content).sections[0].widgets;
      && Click(widgets[0].onChange) == ShowEditFormCmd(id)
      && Clicks(widgets[2].buttons) == [ShowEditFormCmd(id), ListCmd]
  {
    TaskIdClicks(id);
  }
}
