/**
 * The `tasks` table and the six operations the chat handler runs against it.
 * The table is a sequence of rows kept in insertion order, which is also
 * ascending id order because ids come from a counter that only grows.
 */
module Store {
  import opened Wrappers
  import opened Cards

  /** A row of `tasks(id, content, done, user_id)`. */
  datatype Task = Task(id: int, content: string, done: bool, owner: string)

  /** The columns `SELECT id, content, done` returns for a row. */
  function View(t: Task): TaskView {
    TaskView(t.id, t.content, t.done)
  }

  predicate IdsAscending(rows: seq<Task>) {
    forall i, j :: 0 <= i < j < |rows| ==> rows[i].id < rows[j].id
  }

  /** Ids are positive, below the next id the counter hands out, and stored in ascending order. */
  predicate WellFormed(rows: seq<Task>, nextId: int) {
    && 1 <= nextId
    && (forall i :: 0 <= i < |rows| ==> 1 <= rows[i].id < nextId)
    && IdsAscending(rows)
  }

  /** The filter `WHERE id = $1 AND user_id = $2` that every single-task statement uses. */
  predicate Matches(t: Task, id: int, owner: string) {
    t.id == id && t.owner == owner
  }

  function Last(rows: seq<Task>): Task
    requires rows != []
  {
    rows[|rows| - 1]
  }

  function Init(rows: seq<Task>): seq<Task>
    requires rows != []
  {
    rows[..|rows| - 1]
  }

  /** The number of rows an UPDATE or DELETE with the filter touches. */
  function RowsAffected(rows: seq<Task>, id: int, owner: string): (n: nat)
    ensures n <= |rows|
    ensures n == 0 <==> forall i :: 0 <= i < |rows| ==> !Matches(rows[i], id, owner)
  {
    if rows == [] then 0
    else
      assert forall i :: 0 <= i < |rows| - 1 ==> Init(rows)[i] == rows[i];
      RowsAffected(Init(rows), id, owner) + if Matches(Last(rows), id, owner) then 1 else 0
  }

  /** The SET clause of the two UPDATE statements: `done = true` or `content = $1`. */
  datatype Assignment = SetDone | SetContent(content: string)

  function Assign(t: Task, a: Assignment): Task {
    match a
    case SetDone => t.(done := true)
    case SetContent(c) => t.(content := c)
  }

  /** `UPDATE tasks SET ... WHERE id = $1 AND user_id = $2`: every matching row is assigned, the others kept. */
  function UpdateWhere(rows: seq<Task>, id: int, owner: string, a: Assignment): seq<Task> {
    seq(|rows|, i requires 0 <= i < |rows| => if Matches(rows[i], id, owner) then Assign(rows[i], a) else rows[i])
  }

  /** `DELETE FROM tasks WHERE id = $1 AND user_id = $2`: the matching rows go, the others stay in order. */
  function DeleteWhere(rows: seq<Task>, id: int, owner: string): seq<Task> {
    if rows == [] then []
    else
      var init := DeleteWhere(Init(rows), id, owner);
      if Matches(Last(rows), id, owner) then init else init + [Last(rows)]
  }

  /** `SELECT content FROM tasks WHERE id = $1 AND user_id = $2` read with QueryRow: the first matching row's content. */
  function FindContent(rows: seq<Task>, id: int, owner: string): (content: Option<string>)
    ensures content.None? <==> RowsAffected(rows, id, owner) == 0
    ensures content.Some? ==> exists i :: 0 <= i < |rows| && Matches(rows[i], id, owner) && rows[i].content == content.value
  {
    if rows == [] then None
    else if Matches(rows[0], id, owner) then Some(rows[0].content)
    else
      var rest := FindContent(rows[1..], id, owner);
      assert forall i :: 1 <= i < |rows| ==> rows[1..][i - 1] == rows[i];
      assert rest.None? <==> forall i :: 0 <= i < |rows| ==> !Matches(rows[i], id, owner);
      rest
  }

  /** `SELECT id, content, done FROM tasks WHERE user_id = $1`, in storage order. */
  function OwnerTasks(rows: seq<Task>, owner: string): seq<TaskView> {
    if rows == [] then []
    else
      var init := OwnerTasks(Init(rows), owner);
      if Last(rows).owner == owner then init + [View(Last(rows))] else init
  }

  /** The DELETE keeps exactly the rows the filter does not match, and as many fewer rows as it affected. */
  lemma {:induction false} DeleteWhereMembers(rows: seq<Task>, id: int, owner: string)
    ensures forall t :: t in DeleteWhere(rows, id, owner) <==> t in rows && !Matches(t, id, owner)
    ensures |DeleteWhere(rows, id, owner)| == |rows| - RowsAffected(rows, id, owner)
  {
    if rows != [] {
      DeleteWhereMembers(Init(rows), id, owner);
      assert rows == Init(rows) + [Last(rows)];
    }
  }

  /** An owner's listing holds the view of each of the owner's rows and nothing else. */
  lemma {:induction false} OwnerTasksMembers(rows: seq<Task>, owner: string)
    ensures forall t :: t in rows && t.owner == owner ==> View(t) in OwnerTasks(rows, owner)
    ensures forall v :: v in OwnerTasks(rows, owner) ==> exists t :: t in rows && t.owner == owner && View(t) == v
  {
    if rows != [] {
      OwnerTasksMembers(Init(rows), owner);
      assert rows == Init(rows) + [Last(rows)];
    }
  }

  /** One more row scanned: the listing grows by that row's view when the owner matches. */
  lemma OwnerTasksStep(rows: seq<Task>, i: int, owner: string)
    requires 0 <= i < |rows|
    ensures OwnerTasks(rows[..i + 1], owner) ==
      OwnerTasks(rows[..i], owner) + if rows[i].owner == owner then [View(rows[i])] else []
  {
    assert Init(rows[..i + 1]) == rows[..i];
    assert Last(rows[..i + 1]) == rows[i];
  }

  /** What a request leaves behind: the table, the id counter and the reply. */
  datatype Outcome = Outcome(rows: seq<Task>, nextId: int, reply: Reply)

  /** addTask: the row is inserted with the counter's id and done = false; the reply is the added-task card. */
  function AddOutcome(rows: seq<Task>, nextId: int, content: string, owner: string): Outcome {
    Outcome(rows + [Task(nextId, content, false, owner)], nextId + 1, CardsReply([AddedCard(nextId, content)]))
  }

  /** listTasks: the table is untouched; the reply shows the owner's tasks. */
  function ListOutcome(rows: seq<Task>, nextId: int, owner: string): Outcome {
    Outcome(rows, nextId, ListReply(OwnerTasks(rows, owner)))
  }

  /** The tail shared by markTaskDone, deleteTask and editTask: not found when no row was affected, else the listing. */
  function AfterStatement(rows: seq<Task>, affected: nat, nextId: int, id: int, owner: string): Outcome {
    if affected == 0 then Outcome(rows, nextId, TextReply(TaskNotFound(id)))
    else ListOutcome(rows, nextId, owner)
  }

  /** markTaskDone */
  function DoneOutcome(rows: seq<Task>, nextId: int, id: int, owner: string): Outcome {
    AfterStatement(UpdateWhere(rows, id, owner, SetDone), RowsAffected(rows, id, owner), nextId, id, owner)
  }

  /** deleteTask */
  function DeleteOutcome(rows: seq<Task>, nextId: int, id: int, owner: string): Outcome {
    AfterStatement(DeleteWhere(rows, id, owner), RowsAffected(rows, id, owner), nextId, id, owner)
  }

  /** editTask: empty content is refused before any statement runs. */
  function EditOutcome(rows: seq<Task>, nextId: int, id: int, content: string, owner: string): Outcome {
    if content == "" then Outcome(rows, nextId, TextReply(EmptyContent))
    else AfterStatement(UpdateWhere(rows, id, owner, SetContent(content)), RowsAffected(rows, id, owner), nextId, id, owner)
  }

  /** showEditForm: the form prefilled with the stored content, or not found. */
  function ShowEditFormOutcome(rows: seq<Task>, nextId: int, id: int, owner: string): Outcome {
    match FindContent(rows, id, owner)
    case None => Outcome(rows, nextId, TextReply(TaskNotFound(id)))
    case Some(content) => Outcome(rows, nextId, CardsReply([EditFormCard(id, content)]))
  }

  // ---------------------------------------------------------------------------
  // Properties of the table operations
  // ---------------------------------------------------------------------------

  /** Under the table invariant the filter picks out at most one row: the one with that id, if its owner matches. */
  lemma UniqueMatch(rows: seq<Task>, id: int, owner: string, k: int)
    requires IdsAscending(rows)
    requires 0 <= k < |rows| && Matches(rows[k], id, owner)
    ensures forall i :: 0 <= i < |rows| ==> (Matches(rows[i], id, owner) <==> i == k)
  {
    forall i | 0 <= i < |rows| && i != k
      ensures rows[i].id != id
    {
      if i < k { assert rows[i].id < rows[k].id; } else { assert rows[k].id < rows[i].id; }
    }
  }

  lemma {:induction false} RowsAffectedAppend(a: seq<Task>, b: seq<Task>, id: int, owner: string)
    ensures RowsAffected(a + b, id, owner) == RowsAffected(a, id, owner) + RowsAffected(b, id, owner)
  {
    if b == [] {
      assert a + b == a;
    } else {
      assert Init(a + b) == a + Init(b);
      assert Last(a + b) == Last(b);
      RowsAffectedAppend(a, Init(b), id, owner);
    }
  }

  /** With unique ids a single-task statement affects exactly one row when the task is found and none otherwise. */
  lemma AtMostOneAffected(rows: seq<Task>, id: int, owner: string)
    requires IdsAscending(rows)
    ensures RowsAffected(rows, id, owner) <= 1
    ensures RowsAffected(rows, id, owner) == 1 <==> exists k :: 0 <= k < |rows| && Matches(rows[k], id, owner)
  {
    if k :| 0 <= k < |rows| && Matches(rows[k], id, owner) {
      UniqueMatch(rows, id, owner, k);
      OneMatchOneRow(rows, id, owner, k);
    }
  }

  lemma OneMatchOneRow(rows: seq<Task>, id: int, owner: string, k: int)
    requires 0 <= k < |rows|
    requires forall i :: 0 <= i < |rows| ==> (Matches(rows[i], id, owner) <==> i == k)
    ensures RowsAffected(rows, id, owner) == 1
  {
    var pre, post := rows[..k], rows[k + 1..];
    assert rows == pre + [rows[k]] + post;
    assert forall i :: 0 <= i < |pre| ==> !Matches(pre[i], id, owner) by {
      assert forall i :: 0 <= i < |pre| ==> pre[i] == rows[i];
    }
    assert forall i :: 0 <= i < |post| ==> !Matches(post[i], id, owner) by {
      assert forall i :: 0 <= i < |post| ==> post[i] == rows[k + 1 + i];
    }
    OneRowBetween(pre, rows[k], post, id, owner);
  }

  /** A matching row between two runs of rows that do not match is the one row affected. */
  lemma OneRowBetween(pre: seq<Task>, t: Task, post: seq<Task>, id: int, owner: string)
    requires RowsAffected(pre, id, owner) == 0 && RowsAffected(post, id, owner) == 0
    requires Matches(t, id, owner)
    ensures RowsAffected(pre + [t] + post, id, owner) == 1
  {
    RowsAffectedAppend(pre + [t], post, id, owner);
    RowsAffectedAppend(pre, [t], id, owner);
    assert Init([t]) == [];
  }

  /** When nothing matches, the UPDATE and the DELETE leave the table as it was. */
  lemma NoMatchUnchanged(rows: seq<Task>, id: int, owner: string, a: Assignment)
    requires RowsAffected(rows, id, owner) == 0
    ensures UpdateWhere(rows, id, owner, a) == rows
    ensures DeleteWhere(rows, id, owner) == rows
  {
    DeleteNoMatch(rows, id, owner);
  }

  lemma {:induction false} DeleteNoMatch(rows: seq<Task>, id: int, owner: string)
    requires forall i :: 0 <= i < |rows| ==> !Matches(rows[i], id, owner)
    ensures DeleteWhere(rows, id, owner) == rows
  {
    if rows != [] {
      DeleteNoMatch(Init(rows), id, owner);
      assert rows == Init(rows) + [Last(rows)];
    }
  }

  lemma {:induction false} DeleteAppend(a: seq<Task>, b: seq<Task>, id: int, owner: string)
    ensures DeleteWhere(a + b, id, owner) == DeleteWhere(a, id, owner) + DeleteWhere(b, id, owner)
  {
    if b == [] {
      assert a + b == a;
    } else {
      assert Init(a + b) == a + Init(b);
      assert Last(a + b) == Last(b);
      DeleteAppend(a, Init(b), id, owner);
    }
  }

  /** A found task is the only row the UPDATE changes. */
  lemma SingleRowUpdate(rows: seq<Task>, k: int, a: Assignment)
    requires IdsAscending(rows) && 0 <= k < |rows|
    ensures UpdateWhere(rows, rows[k].id, rows[k].owner, a) == rows[k := Assign(rows[k], a)]
  {
    UniqueMatch(rows, rows[k].id, rows[k].owner, k);
  }

  /** A found task is the only row the DELETE removes; the others keep their order. */
  lemma SingleRowDelete(rows: seq<Task>, k: int)
    requires IdsAscending(rows) && 0 <= k < |rows|
    ensures DeleteWhere(rows, rows[k].id, rows[k].owner) == rows[..k] + rows[k + 1..]
  {
    UniqueMatch(rows, rows[k].id, rows[k].owner, k);
    DeleteOnlyMatch(rows, rows[k].id, rows[k].owner, k);
  }

  lemma DeleteOnlyMatch(rows: seq<Task>, id: int, owner: string, k: int)
    requires 0 <= k < |rows|
    requires forall i :: 0 <= i < |rows| ==> (Matches(rows[i], id, owner) <==> i == k)
    ensures DeleteWhere(rows, id, owner) == rows[..k] + rows[k + 1..]
  {
    var pre, post := rows[..k], rows[k + 1..];
    assert rows == pre + [rows[k]] + post;
    assert forall i :: 0 <= i < |pre| ==> !Matches(pre[i], id, owner) by {
      assert forall i :: 0 <= i < |pre| ==> pre[i] == rows[i];
    }
    assert forall i :: 0 <= i < |post| ==> !Matches(post[i], id, owner) by {
      assert forall i :: 0 <= i < |post| ==> post[i] == rows[k + 1 + i];
    }
    DeleteOne(pre, rows[k], post, id, owner);
  }

  lemma DeleteOne(pre: seq<Task>, t: Task, post: seq<Task>, id: int, owner: string)
    requires Matches(t, id, owner)
    requires forall i :: 0 <= i < |pre| ==> !Matches(pre[i], id, owner)
    requires forall i :: 0 <= i < |post| ==> !Matches(post[i], id, owner)
    ensures DeleteWhere(pre + [t] + post, id, owner) == pre + post
  {
    DeleteAppend(pre + [t], post, id, owner);
    DeleteAppend(pre, [t], id, owner);
    DeleteNoMatch(pre, id, owner);
    DeleteNoMatch(post, id, owner);
    assert Init([t]) == [];
  }

  /** Every row the DELETE keeps was in the table, so it keeps any bound on ids. */
  lemma DeleteBelow(rows: seq<Task>, id: int, owner: string, bound: int)
    requires forall i :: 0 <= i < |rows| ==> rows[i].id < bound
    ensures forall t :: t in DeleteWhere(rows, id, owner) ==> t.id < bound
  {
    DeleteWhereMembers(rows, id, owner);
  }

  lemma {:induction false} DeleteKeepsAscending(rows: seq<Task>, id: int, owner: string)
    requires IdsAscending(rows)
    ensures IdsAscending(DeleteWhere(rows, id, owner))
  {
    if rows != [] {
      var init := Init(rows);
      DeleteKeepsAscending(init, id, owner);
      DeleteBelow(init, id, owner, Last(rows).id);
    }
  }

  /** Every task an owner lists comes from a row of the table, so it keeps any bound on ids. */
  lemma OwnerTasksBelow(rows: seq<Task>, owner: string, bound: int)
    requires forall i :: 0 <= i < |rows| ==> rows[i].id < bound
    ensures forall v :: v in OwnerTasks(rows, owner) ==> v.id < bound
  {
    OwnerTasksMembers(rows, owner);
  }

  /** The listing of an owner is in ascending id order, as `ORDER BY id` asks. */
  lemma {:induction false} OwnerTasksAscending(rows: seq<Task>, owner: string)
    requires IdsAscending(rows)
    ensures forall i, j :: 0 <= i < j < |OwnerTasks(rows, owner)| ==> OwnerTasks(rows, owner)[i].id < OwnerTasks(rows, owner)[j].id
  {
    if rows != [] {
      var init := Init(rows);
      OwnerTasksAscending(init, owner);
      OwnerTasksBelow(init, owner, Last(rows).id);
    }
  }

  /** An UPDATE filtered on one owner leaves every other owner's listing as it was. */
  lemma {:induction false} UpdateIsolation(rows: seq<Task>, id: int, owner: string, a: Assignment, other: string)
    requires other != owner
    ensures OwnerTasks(UpdateWhere(rows, id, owner, a), other) == OwnerTasks(rows, other)
  {
    if rows != [] {
      var updated := UpdateWhere(rows, id, owner, a);
      assert Init(updated) == UpdateWhere(Init(rows), id, owner, a);
      UpdateIsolation(Init(rows), id, owner, a, other);
    }
  }

  /** A DELETE filtered on one owner leaves every other owner's listing as it was. */
  lemma {:induction false} DeleteIsolation(rows: seq<Task>, id: int, owner: string, other: string)
    requires other != owner
    ensures OwnerTasks(DeleteWhere(rows, id, owner), other) == OwnerTasks(rows, other)
  {
    if rows != [] {
      DeleteIsolation(Init(rows), id, owner, other);
      var kept := DeleteWhere(Init(rows), id, owner);
      if !Matches(Last(rows), id, owner) {
        assert Init(kept + [Last(rows)]) == kept;
      }
    }
  }

  lemma OwnerTasksAppend(rows: seq<Task>, t: Task, owner: string)
    ensures OwnerTasks(rows + [t], owner) == OwnerTasks(rows, owner) + if t.owner == owner then [View(t)] else []
  {
    assert Init(rows + [t]) == rows;
  }

  /** Adding a task puts it, open, at the end of its owner's listing, under an id above every existing one; other listings are unchanged. */
  lemma AddAppendsToListing(rows: seq<Task>, nextId: int, content: string, owner: string, other: string)
    requires WellFormed(rows, nextId)
    ensures var after := AddOutcome(rows, nextId, content, owner);
      && OwnerTasks(after.rows, owner) == OwnerTasks(rows, owner) + [TaskView(nextId, content, false)]
      && (other != owner ==> OwnerTasks(after.rows, other) == OwnerTasks(rows, other))
      && (forall t :: t in rows ==> t.id < nextId)
      && after.nextId > nextId
  {
    OwnerTasksAppend(rows, Task(nextId, content, false, owner), owner);
    OwnerTasksAppend(rows, Task(nextId, content, false, owner), other);
  }

  /** Adding keeps the table invariant: the new id is above every stored one, and the counter moves past it. */
  lemma AddKeepsWellFormed(rows: seq<Task>, nextId: int, content: string, owner: string)
    requires WellFormed(rows, nextId)
    ensures WellFormed(AddOutcome(rows, nextId, content, owner).rows, AddOutcome(rows, nextId, content, owner).nextId)
  {
  }

  /** The UPDATEs keep the table invariant: they never touch an id. */
  lemma UpdateKeepsWellFormed(rows: seq<Task>, nextId: int, id: int, owner: string, a: Assignment)
    requires WellFormed(rows, nextId)
    ensures WellFormed(UpdateWhere(rows, id, owner, a), nextId)
  {
  }

  /** The DELETE keeps the table invariant: the rows it keeps stay in order. */
  lemma DeleteKeepsWellFormed(rows: seq<Task>, nextId: int, id: int, owner: string)
    requires WellFormed(rows, nextId)
    ensures WellFormed(DeleteWhere(rows, id, owner), nextId)
  {
    DeleteKeepsAscending(rows, id, owner);
    DeleteWhereMembers(rows, id, owner);
    var kept := DeleteWhere(rows, id, owner);
    assert forall i :: 0 <= i < |kept| ==> kept[i] in rows;
  }

  /** Every operation keeps the table invariant. */
  lemma OperationsKeepWellFormed(rows: seq<Task>, nextId: int, id: int, content: string, owner: string)
    requires WellFormed(rows, nextId)
    ensures WellFormed(AddOutcome(rows, nextId, content, owner).rows, AddOutcome(rows, nextId, content, owner).nextId)
    ensures WellFormed(DoneOutcome(rows, nextId, id, owner).rows, DoneOutcome(rows, nextId, id, owner).nextId)
    ensures WellFormed(DeleteOutcome(rows, nextId, id, owner).rows, DeleteOutcome(rows, nextId, id, owner).nextId)
    ensures WellFormed(EditOutcome(rows, nextId, id, content, owner).rows, EditOutcome(rows, nextId, id, content, owner).nextId)
    ensures WellFormed(ShowEditFormOutcome(rows, nextId, id, owner).rows, ShowEditFormOutcome(rows, nextId, id, owner).nextId)
    ensures WellFormed(ListOutcome(rows, nextId, owner).rows, ListOutcome(rows, nextId, owner).nextId)
  {
    AddKeepsWellFormed(rows, nextId, content, owner);
    UpdateKeepsWellFormed(rows, nextId, id, owner, SetDone);
    UpdateKeepsWellFormed(rows, nextId, id, owner, SetContent(content));
    DeleteKeepsWellFormed(rows, nextId, id, owner);
  }

  /** An operation by one owner never changes what another owner lists. */
  lemma OperationIsolation(rows: seq<Task>, nextId: int, id: int, content: string, owner: string, other: string)
    requires other != owner
    ensures OwnerTasks(AddOutcome(rows, nextId, content, owner).rows, other) == OwnerTasks(rows, other)
    ensures OwnerTasks(DoneOutcome(rows, nextId, id, owner).rows, other) == OwnerTasks(rows, other)
    ensures OwnerTasks(DeleteOutcome(rows, nextId, id, owner).rows, other) == OwnerTasks(rows, other)
    ensures OwnerTasks(EditOutcome(rows, nextId, id, content, owner).rows, other) == OwnerTasks(rows, other)
  {
    OwnerTasksAppend(rows, Task(nextId, content, false, owner), other);
    UpdateIsolation(rows, id, owner, SetDone, other);
    UpdateIsolation(rows, id, owner, SetContent(content), other);
    DeleteIsolation(rows, id, owner, other);
  }

  /**
   * markTaskDone, deleteTask and editTask answer "not found" exactly when no
   * row has that id and owner, and then leave the table unchanged.
   */
  lemma NotFoundExactly(rows: seq<Task>, nextId: int, id: int, content: string, owner: string)
    requires content != ""
    ensures var none := forall i :: 0 <= i < |rows| ==> !Matches(rows[i], id, owner);
      && (DoneOutcome(rows, nextId, id, owner).reply == TextReply(TaskNotFound(id)) <==> none)
      && (DeleteOutcome(rows, nextId, id, owner).reply == TextReply(TaskNotFound(id)) <==> none)
      && (EditOutcome(rows, nextId, id, content, owner).reply == TextReply(TaskNotFound(id)) <==> none)
      && (ShowEditFormOutcome(rows, nextId, id, owner).reply == TextReply(TaskNotFound(id)) <==> none)
      && (none ==>
        && DoneOutcome(rows, nextId, id, owner).rows == rows
        && DeleteOutcome(rows, nextId, id, owner).rows == rows
        && EditOutcome(rows, nextId, id, content, owner).rows == rows)
  {
    if forall i :: 0 <= i < |rows| ==> !Matches(rows[i], id, owner) {
      NoMatchUnchanged(rows, id, owner, SetDone);
      NoMatchUnchanged(rows, id, owner, SetContent(content));
    }
  }

  /** An edit with empty content is refused and changes nothing. */
  lemma EmptyEditRejected(rows: seq<Task>, nextId: int, id: int, owner: string)
    ensures EditOutcome(rows, nextId, id, "", owner) == Outcome(rows, nextId, TextReply(EmptyContent))
  {
  }

  /** In the owner's listing after an UPDATE, the task with that id carries the assigned value. */
  lemma UpdatedListing(rows: seq<Task>, id: int, owner: string, a: Assignment)
    ensures forall v :: v in OwnerTasks(UpdateWhere(rows, id, owner, a), owner) && v.id == id ==>
      match a
      case SetDone => v.done
      case SetContent(c) => v.content == c
  {
    var updated := UpdateWhere(rows, id, owner, a);
    OwnerTasksMembers(updated, owner);
    forall v | v in OwnerTasks(updated, owner) && v.id == id
      ensures match a
        case SetDone => v.done
        case SetContent(c) => v.content == c
    {
      var t :| t in updated && t.owner == owner && View(t) == v;
      var i :| 0 <= i < |updated| && updated[i] == t;
      assert Matches(rows[i], id, owner);
    }
  }

  /**
   * For a task that exists (row `k`), markTaskDone, editTask and deleteTask
   * each reply with the owner's refreshed listing: after done the task is
   * listed as done and under no other status, after edit with the new
   * content and under no other, and after delete not at all.
   */
  lemma FoundTaskEffects(rows: seq<Task>, nextId: int, k: int, content: string)
    requires WellFormed(rows, nextId) && 0 <= k < |rows|
    ensures var t := rows[k];
      var closed := DoneOutcome(rows, nextId, t.id, t.owner);
      && TaskView(t.id, t.content, true) in OwnerTasks(closed.rows, t.owner)
      && (forall v :: v in OwnerTasks(closed.rows, t.owner) && v.id == t.id ==> v.done)
      && closed.reply == ListReply(OwnerTasks(closed.rows, t.owner))
    ensures var t := rows[k];
      var edited := EditOutcome(rows, nextId, t.id, content, t.owner);
      content != "" ==>
        && TaskView(t.id, content, t.done) in OwnerTasks(edited.rows, t.owner)
        && (forall v :: v in OwnerTasks(edited.rows, t.owner) && v.id == t.id ==> v.content == content)
        && edited.reply == ListReply(OwnerTasks(edited.rows, t.owner))
    ensures var t := rows[k];
      var deleted := DeleteOutcome(rows, nextId, t.id, t.owner);
      && (forall v :: v in OwnerTasks(deleted.rows, t.owner) ==> v.id != t.id)
      && deleted.reply == ListReply(OwnerTasks(deleted.rows, t.owner))
  {
    var t := rows[k];
    assert RowsAffected(rows, t.id, t.owner) != 0 by {
      assert Matches(rows[k], t.id, t.owner);
    }
    FoundUpdateListed(rows, k, SetDone);
    UpdatedListing(rows, t.id, t.owner, SetDone);
    if content != "" {
      FoundUpdateListed(rows, k, SetContent(content));
      UpdatedListing(rows, t.id, t.owner, SetContent(content));
    }
    DeleteWhereMembers(rows, t.id, t.owner);
    OwnerTasksMembers(DeleteWhere(rows, t.id, t.owner), t.owner);
  }

  /** After an UPDATE of a found task, its updated row is in its owner's listing. */
  lemma FoundUpdateListed(rows: seq<Task>, k: int, a: Assignment)
    requires IdsAscending(rows) && 0 <= k < |rows|
    ensures View(Assign(rows[k], a)) in OwnerTasks(UpdateWhere(rows, rows[k].id, rows[k].owner, a), rows[k].owner)
  {
    var updated := UpdateWhere(rows, rows[k].id, rows[k].owner, a);
    SingleRowUpdate(rows, k, a);
    assert updated[k] == Assign(rows[k], a);
    OwnerTasksMembers(updated, rows[k].owner);
  }

  // ---------------------------------------------------------------------------
  // The table as mutable state
  // ---------------------------------------------------------------------------

  /** The `tasks` table with its id sequence; each method runs one handler function's statements. */
  class TaskStore {
    var rows: seq<Task>
    var nextId: int

    ghost predicate Valid()
      reads this
    {
      WellFormed(rows, nextId)
    }

    /** An empty table whose id sequence starts at 1. */
    constructor()
      ensures Valid() && rows == [] && nextId == 1
    {
      rows := [];
      nextId := 1;
    }

    /** addTask: `INSERT ... RETURNING id`, then the added-task card. */
    method AddTask(content: string, owner: string) returns (r: Reply)
      requires Valid()
      modifies this
      ensures Valid()
      ensures Outcome(rows, nextId, r) == AddOutcome(old(rows), old(nextId), content, owner)
    {
      var id := nextId;
      rows := rows + [Task(id, content, false, owner)];
      nextId := nextId + 1;
      r := CardsReply([AddedCard(id, content)]);
    }

    /** listTasks: collect the owner's rows, then render one card per task or the "no tasks" text. */
    method ListTasks(owner: string) returns (r: Reply)
      ensures r == ListReply(OwnerTasks(rows, owner))
    {
      var tasks: seq<TaskView> := [];
      for i := 0 to |rows|
        invariant tasks == OwnerTasks(rows[..i], owner)
      {
        OwnerTasksStep(rows, i, owner);
        if rows[i].owner == owner {
          tasks := tasks + [View(rows[i])];
        }
      }
      assert rows[..|rows|] == rows;
      if |tasks| == 0 {
        return TextReply(NoTasks);
      }
      var cards: seq<Card> := [];
      for i := 0 to |tasks|
        invariant |cards| == i
        invariant forall k :: 0 <= k < i ==> cards[k] == TaskCard(tasks[k])
      {
        cards := cards + [TaskCard(tasks[i])];
      }
      r := CardsReply(cards);
    }

    /** markTaskDone: `UPDATE tasks SET done = true WHERE ...`, then not found or the listing. */
    method MarkTaskDone(id: int, owner: string) returns (r: Reply)
      requires Valid()
      modifies this
      ensures Valid()
      ensures Outcome(rows, nextId, r) == DoneOutcome(old(rows), old(nextId), id, owner)
    {
      UpdateKeepsWellFormed(rows, nextId, id, owner, SetDone);
      var affected := RowsAffected(rows, id, owner);
      rows := UpdateWhere(rows, id, owner, SetDone);
      if affected == 0 {
        r := TextReply(TaskNotFound(id));
      } else {
        r := ListTasks(owner);
      }
    }

    /** deleteTask: `DELETE FROM tasks WHERE ...`, then not found or the listing. */
    method DeleteTask(id: int, owner: string) returns (r: Reply)
      requires Valid()
      modifies this
      ensures Valid()
      ensures Outcome(rows, nextId, r) == DeleteOutcome(old(rows), old(nextId), id, owner)
    {
      DeleteKeepsWellFormed(rows, nextId, id, owner);
      var affected := RowsAffected(rows, id, owner);
      rows := DeleteWhere(rows, id, owner);
      if affected == 0 {
        r := TextReply(TaskNotFound(id));
      } else {
        r := ListTasks(owner);
      }
    }

    /** editTask: refuse empty content, else `UPDATE tasks SET content = $1 WHERE ...`, then not found or the listing. */
    method EditTask(id: int, content: string, owner: string) returns (r: Reply)
      requires Valid()
      modifies this
      ensures Valid()
      ensures Outcome(rows, nextId, r) == EditOutcome(old(rows), old(nextId), id, content, owner)
    {
      if content == "" {
        return TextReply(EmptyContent);
      }
      UpdateKeepsWellFormed(rows, nextId, id, owner, SetContent(content));
      var affected := RowsAffected(rows, id, owner);
      rows := UpdateWhere(rows, id, owner, SetContent(content));
      if affected == 0 {
        r := TextReply(TaskNotFound(id));
      } else {
        r := ListTasks(owner);
      }
    }

    /** showEditForm: read the task's content and render the form, or not found. */
    method ShowEditForm(id: int, owner: string) returns (r: Reply)
      ensures r == ShowEditFormOutcome(rows, nextId, id, owner).reply
    {
      var content := FindContent(rows, id, owner);
      match content
      case None =>
        r := TextReply(TaskNotFound(id));
      case Some(c) =>
        r := CardsReply([EditFormCard(id, c)]);
    }
  }
}
