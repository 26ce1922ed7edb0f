/**
 * The `messages` table and the two operations that write it: inserting a
 * submitted message (app.py, lines 204-222) and the admin's update of its
 * status and final priority (app.py, lines 252-283).
 *
 * The table is an in-memory map from row id to row. The UPDATE statement is
 * built as app.py builds it, as a list of SET clauses and a list of bound
 * parameters, and is then run by a small interpreter of that statement.
 */
module Messages {
  import opened Wrappers
  import opened Labels
  import Inference
  import Normalize

  /** A row of `messages` (app.py, lines 32-41); the id is the key of the table map. */
  datatype Message = Message(
    userId: int,
    content: string,
    predictedPriority: string,
    finalPriority: Option<string>,
    status: string,
    timestamp: string)

  /** Python truthiness of an optional form field: present and not the empty string. */
  predicate Truthy(v: Option<string>) {
    v.Some? && v.value != ""
  }

  /** What every row written by app.py satisfies. */
  predicate WellFormed(m: Message) {
    && m.status in ValidStatuses
    && m.predictedPriority in ValidPriorities
    && (m.finalPriority.Some? ==> m.finalPriority.value in ValidPriorities)
  }

  /** The row `submit_message` inserts: the column defaults give status 'pending' and a NULL final priority. */
  function NewMessage(userId: int, content: string, predicted: Label, now: string): (m: Message)
    ensures WellFormed(m)
    ensures m.status == Pending && m.finalPriority == None
    ensures m.predictedPriority == LabelName(predicted)
    ensures m.userId == userId && m.content == content && m.timestamp == now
  {
    Message(userId, content, LabelName(predicted), None, Pending, now)
  }

  // ---------------------------------------------------------------------
  // The UPDATE statement

  /** A value bound to a `?` placeholder. */
  datatype Param = Text(text: string) | Id(id: int)

  const StatusClause: string := "status = ?"
  const FinalClause: string := "final_priority = ?"
  const UpdateHead: string := "UPDATE messages SET "
  const UpdateTail: string := " WHERE id = ?"
  const Separator: string := ", "

  /** The f-string query of app.py, line 279, whose SET list is `', '.join(updates)`. */
  function UpdateQuery(updates: seq<string>): string {
    UpdateHead + Normalize.Join(Separator, updates) + UpdateTail
  }

  /** The number of `?` placeholders in a statement. */
  function Placeholders(s: string): nat {
    if s == [] then 0 else (if s[0] == '?' then 1 else 0) + Placeholders(s[1..])
  }

  /** The SET clauses app.py appends, in its order. */
  function SetClauses(status: Option<string>, priority: Option<string>): seq<string> {
    (if Truthy(status) then [StatusClause] else []) + (if Truthy(priority) then [FinalClause] else [])
  }

  /** The parameters app.py appends for those clauses. */
  function SetParams(status: Option<string>, priority: Option<string>): seq<Param> {
    (if Truthy(status) then [Text(status.value)] else []) + (if Truthy(priority) then [Text(priority.value)] else [])
  }

  /** Building the `updates` and `params` lists of `update_message`, one append at a time. */
  method BuildUpdate(status: Option<string>, priority: Option<string>) returns (updates: seq<string>, params: seq<Param>)
    ensures updates == SetClauses(status, priority)
    ensures params == SetParams(status, priority)
  {
    updates, params := [], [];
    if Truthy(status) {
      updates := updates + [StatusClause];
      params := params + [Text(status.value)];
    }
    if Truthy(priority) {
      updates := updates + [FinalClause];
      params := params + [Text(priority.value)];
    }
  }

  /** There is a SET clause exactly when one of the two fields was supplied (non-empty). */
  lemma NoClausesIffNothingSupplied(status: Option<string>, priority: Option<string>)
    ensures SetClauses(status, priority) == [] <==> !Truthy(status) && !Truthy(priority)
    ensures |SetParams(status, priority)| == |SetClauses(status, priority)|
    ensures Truthy(status) ==> SetClauses(status, priority)[0] == StatusClause && SetParams(status, priority)[0] == Text(status.value)
    ensures Truthy(priority) ==> SetClauses(status, priority)[|SetClauses(status, priority)| - 1] == FinalClause
    ensures Truthy(priority) ==> SetParams(status, priority)[|SetParams(status, priority)| - 1] == Text(priority.value)
  {
  }

  /** Once the message id is appended, the query has exactly one placeholder per parameter. */
  lemma PlaceholdersMatchParams(status: Option<string>, priority: Option<string>, messageId: int)
    ensures var ps := SetParams(status, priority) + [Id(messageId)];
      && Placeholders(UpdateQuery(SetClauses(status, priority))) == |ps|
      && |ps| == |SetClauses(status, priority)| + 1
  {
    var us := SetClauses(status, priority);
    BuiltClausesHaveOnePlaceholder(status, priority);
    PlaceholdersOfQuery(us);
  }

  /** Every clause `update_message` can append ends in its only placeholder. */
  lemma BuiltClausesHaveOnePlaceholder(status: Option<string>, priority: Option<string>)
    ensures forall i :: 0 <= i < |SetClauses(status, priority)| ==> OnlyMarkAtEnd(SetClauses(status, priority)[i])
  {
    StatusClauseShape();
    FinalClauseShape();
  }

  /** No `?` anywhere in `s`. */
  predicate NoMark(s: string) {
    forall k :: 0 <= k < |s| ==> s[k] != '?'
  }

  /** `s` ends in a `?` and has no other. */
  predicate OnlyMarkAtEnd(s: string) {
    s != [] && s[|s| - 1] == '?' && NoMark(s[..|s| - 1])
  }

  lemma StatusClauseShape()
    ensures OnlyMarkAtEnd(StatusClause)
  {
  }

  lemma FinalClauseShape()
    ensures OnlyMarkAtEnd(FinalClause)
  {
  }

  lemma QueryFrameShape()
    ensures NoMark(UpdateHead) && OnlyMarkAtEnd(UpdateTail) && NoMark(Separator)
  {
  }

  /** A query over clauses of one placeholder each has one more placeholder, for the id. */
  lemma PlaceholdersOfQuery(us: seq<string>)
    requires forall i :: 0 <= i < |us| ==> OnlyMarkAtEnd(us[i])
    ensures Placeholders(UpdateQuery(us)) == |us| + 1
  {
    QueryFrameShape();
    PlaceholdersOfJoin(us);
    PlaceholdersOfFrame(UpdateHead, Normalize.Join(Separator, us), UpdateTail);
  }

  /** Wrapping a body between a head without placeholders and a tail with one adds one. */
  lemma PlaceholdersOfFrame(head: string, body: string, tail: string)
    requires NoMark(head) && OnlyMarkAtEnd(tail)
    ensures Placeholders(head + body + tail) == Placeholders(body) + 1
  {
    NoPlaceholder(head);
    OnePlaceholderAtEnd(tail);
    PlaceholdersAppend(head + body, tail);
    PlaceholdersAppend(head, body);
  }

  lemma {:induction false} PlaceholdersOfJoin(us: seq<string>)
    requires forall i :: 0 <= i < |us| ==> OnlyMarkAtEnd(us[i])
    ensures Placeholders(Normalize.Join(Separator, us)) == |us|
  {
    if |us| == 1 {
      OnePlaceholderAtEnd(us[0]);
    } else if |us| > 1 {
      OnePlaceholderAtEnd(us[0]);
      QueryFrameShape();
      NoPlaceholder(Separator);
      PlaceholdersOfJoin(us[1..]);
      PlaceholdersAppend(us[0] + Separator, Normalize.Join(Separator, us[1..]));
      PlaceholdersAppend(us[0], Separator);
    }
  }

  lemma {:induction false} PlaceholdersAppend(a: string, b: string)
    ensures Placeholders(a + b) == Placeholders(a) + Placeholders(b)
  {
    if a == [] {
      assert a + b == b;
    } else {
      assert (a + b)[1..] == a[1..] + b;
      PlaceholdersAppend(a[1..], b);
    }
  }

  lemma {:induction false} NoPlaceholder(s: string)
    requires NoMark(s)
    ensures Placeholders(s) == 0
  {
    if s != [] {
      assert forall k :: 0 <= k < |s| - 1 ==> s[1..][k] == s[k + 1];
      NoPlaceholder(s[1..]);
    }
  }

  lemma OnePlaceholderAtEnd(s: string)
    requires OnlyMarkAtEnd(s)
    ensures Placeholders(s) == 1
  {
    var p := s[..|s| - 1];
    assert s == p + [s[|s| - 1]];
    PlaceholdersAppend(p, [s[|s| - 1]]);
    NoPlaceholder(p);
  }

  // ---------------------------------------------------------------------
  // Running the statement

  datatype SqlError =
    | BindingCountMismatch(expected: nat, supplied: nat)
    | UnsupportedStatement

  /** One `column = ?` assignment with its bound value. */
  function SetColumn(m: Message, clause: string, p: Param): Result<Message, SqlError> {
    if clause == StatusClause && p.Text? then Ok(m.(status := p.text))
    else if clause == FinalClause && p.Text? then Ok(m.(finalPriority := Some(p.text)))
    else Err(UnsupportedStatement)
  }

  /** The assignments of a SET list, left to right, each with its parameter. */
  function SetColumns(m: Message, clauses: seq<string>, ps: seq<Param>): Result<Message, SqlError>
    requires |clauses| <= |ps|
    decreases |clauses|
  {
    if clauses == [] then Ok(m)
    else match SetColumn(m, clauses[0], ps[0])
      case Err(e) => Err(e)
      case Ok(m1) => SetColumns(m1, clauses[1..], ps[1..])
  }

  /**
   * `conn.execute(UpdateQuery(clauses), params)`: sqlite3 refuses a
   * parameter list whose length differs from the number of placeholders;
   * otherwise the row whose id is the last parameter, if there is one, gets
   * the assignments.
   */
  function ExecuteUpdate(rows: map<int, Message>, clauses: seq<string>, params: seq<Param>): Result<map<int, Message>, SqlError> {
    var expected := Placeholders(UpdateQuery(clauses));
    if expected != |params| then Err(BindingCountMismatch(expected, |params|))
    else if |params| != |clauses| + 1 || !params[|clauses|].Id? then Err(UnsupportedStatement)
    else
      var id := params[|clauses|].id;
      if id !in rows then Ok(rows)
      else match SetColumns(rows[id], clauses, params)
        case Err(e) => Err(e)
        case Ok(m) => Ok(rows[id := m])
  }

  // ---------------------------------------------------------------------
  // The update rule

  datatype UpdateOutcome = InvalidStatus | InvalidPriority | Accepted

  /** The validation of app.py, lines 256-262: a supplied field must hold a valid value. */
  function CheckUpdate(status: Option<string>, priority: Option<string>): (r: UpdateOutcome)
    ensures r == InvalidStatus <==> Truthy(status) && status.value !in ValidStatuses
    ensures r == Accepted <==>
      (!Truthy(status) || status.value in ValidStatuses) && (!Truthy(priority) || priority.value in ValidPriorities)
  {
    if Truthy(status) && status.value !in ValidStatuses then InvalidStatus
    else if Truthy(priority) && priority.value !in ValidPriorities then InvalidPriority
    else Accepted
  }

  /** The row after the supplied fields are written to it. */
  function Amend(m: Message, status: Option<string>, priority: Option<string>): Message {
    m.(status := if Truthy(status) then status.value else m.status,
       finalPriority := if Truthy(priority) then Some(priority.value) else m.finalPriority)
  }

  /** The table after `update_message(messageId)` with these form fields. */
  function UpdatedRows(rows: map<int, Message>, messageId: int, status: Option<string>, priority: Option<string>): (r: map<int, Message>)
    ensures r.Keys == rows.Keys
    ensures CheckUpdate(status, priority) != Accepted ==> r == rows
    ensures forall id :: id in rows && id != messageId ==> r[id] == rows[id]
  {
    if CheckUpdate(status, priority) != Accepted || messageId !in rows then rows
    else rows[messageId := Amend(rows[messageId], status, priority)]
  }

  /** Running the statement app.py builds has exactly the effect `UpdatedRows` describes. */
  lemma ExecuteBuiltUpdate(rows: map<int, Message>, messageId: int, status: Option<string>, priority: Option<string>)
    requires CheckUpdate(status, priority) == Accepted
    requires Truthy(status) || Truthy(priority)
    ensures ExecuteUpdate(rows, SetClauses(status, priority), SetParams(status, priority) + [Id(messageId)])
      == Ok(UpdatedRows(rows, messageId, status, priority))
  {
    var us, ps := SetClauses(status, priority), SetParams(status, priority) + [Id(messageId)];
    PlaceholdersMatchParams(status, priority, messageId);
    assert ps[|us|] == Id(messageId);
    if messageId in rows {
      var m := rows[messageId];
      SetColumnsOfBuilt(m, status, priority, ps);
    }
  }

  lemma SetColumnsOfBuilt(m: Message, status: Option<string>, priority: Option<string>, ps: seq<Param>)
    requires Truthy(status) || Truthy(priority)
    requires |ps| == |SetParams(status, priority)| + 1 && ps[..|ps| - 1] == SetParams(status, priority)
    ensures |SetClauses(status, priority)| <= |ps|
    ensures SetColumns(m, SetClauses(status, priority), ps) == Ok(Amend(m, status, priority))
  {
    var us := SetClauses(status, priority);
    assert forall i :: 0 <= i < |us| ==> ps[i] == SetParams(status, priority)[i];
    if Truthy(status) && Truthy(priority) {
      var m1, m2 := m.(status := status.value), Amend(m, status, priority);
      assert StatusClause != FinalClause by {
        assert |StatusClause| != |FinalClause|;
      }
      assert SetColumn(m, us[0], ps[0]) == Ok(m1);
      assert SetColumn(m1, us[1..][0], ps[1..][0]) == Ok(m2);
      assert us[1..][1..] == [];
      assert SetColumns(m2, us[1..][1..], ps[1..][1..]) == Ok(m2);
      assert SetColumns(m1, us[1..], ps[1..]) == Ok(m2);
    } else if Truthy(status) {
      assert SetColumn(m, us[0], ps[0]) == Ok(Amend(m, status, priority));
      assert us[1..] == [];
    } else {
      assert SetColumn(m, us[0], ps[0]) == Ok(Amend(m, status, priority));
      assert us[1..] == [];
    }
  }

  /** An invalid supplied status or priority leaves the table as it was. */
  lemma RejectedUpdateChangesNothing(rows: map<int, Message>, messageId: int, status: Option<string>, priority: Option<string>)
    requires CheckUpdate(status, priority) != Accepted
    ensures UpdatedRows(rows, messageId, status, priority) == rows
    ensures Truthy(status) && status.value !in ValidStatuses ==> CheckUpdate(status, priority) == InvalidStatus
    ensures CheckUpdate(status, priority) == InvalidPriority ==> Truthy(priority) && priority.value !in ValidPriorities
  {
  }

  /** Neither field supplied: nothing changes. */
  lemma EmptyUpdateChangesNothing(rows: map<int, Message>, messageId: int, status: Option<string>, priority: Option<string>)
    requires !Truthy(status) && !Truthy(priority)
    ensures UpdatedRows(rows, messageId, status, priority) == rows
  {
    if messageId in rows {
      assert Amend(rows[messageId], status, priority) == rows[messageId];
    }
  }

  /**
   * An accepted update changes only row `messageId`, and in it only the
   * status (when supplied) and the final priority (when supplied).
   */
  lemma UpdateIsLocal(rows: map<int, Message>, messageId: int, status: Option<string>, priority: Option<string>)
    ensures var r := UpdatedRows(rows, messageId, status, priority);
      && r.Keys == rows.Keys
      && (forall id :: id in rows && id != messageId ==> r[id] == rows[id])
      && (messageId in rows ==>
            && r[messageId].userId == rows[messageId].userId
            && r[messageId].content == rows[messageId].content
            && r[messageId].predictedPriority == rows[messageId].predictedPriority
            && r[messageId].timestamp == rows[messageId].timestamp
            && (r[messageId].status != rows[messageId].status ==> CheckUpdate(status, priority) == Accepted && Truthy(status) && r[messageId].status == status.value)
            && (r[messageId].finalPriority != rows[messageId].finalPriority ==> CheckUpdate(status, priority) == Accepted && Truthy(priority) && r[messageId].finalPriority == priority))
  {
  }

  /** An accepted update writes the supplied values. */
  lemma UpdateWritesSuppliedFields(rows: map<int, Message>, messageId: int, status: Option<string>, priority: Option<string>)
    requires CheckUpdate(status, priority) == Accepted && messageId in rows
    ensures Truthy(status) ==> UpdatedRows(rows, messageId, status, priority)[messageId].status == status.value
    ensures Truthy(priority) ==> UpdatedRows(rows, messageId, status, priority)[messageId].finalPriority == priority
  {
  }

  /** Every row is well-formed and has an id from 1 up to, not including, `next`. */
  predicate RowsBelow(rows: map<int, Message>, next: int) {
    forall id :: id in rows ==> 1 <= id < next && WellFormed(rows[id])
  }

  /** Updates keep every row well formed, and add no id. */
  lemma UpdateKeepsWellFormed(rows: map<int, Message>, next: int, messageId: int, status: Option<string>, priority: Option<string>)
    requires RowsBelow(rows, next)
    ensures RowsBelow(UpdatedRows(rows, messageId, status, priority), next)
  {
  }

  // ---------------------------------------------------------------------
  // The table

  /** Inserting a well-formed row under the counter's id keeps that invariant for the next counter. */
  lemma InsertKeepsRows(rows: map<int, Message>, id: int, m: Message)
    requires 1 <= id && RowsBelow(rows, id) && WellFormed(m)
    ensures id !in rows
    ensures RowsBelow(rows[id := m], id + 1)
  {
  }

  class MessageTable {
    var rows: map<int, Message>
    /** The next value of the AUTOINCREMENT counter: larger than every id ever handed out. */
    var nextId: int

    ghost predicate Valid()
      reads this
    {
      && 1 <= nextId
      && RowsBelow(rows, nextId)
    }

    /** `init_db()` on a fresh database. */
    constructor ()
      ensures Valid() && rows == map[] && nextId == 1
    {
      rows := map[];
      nextId := 1;
    }

    /**
     * `submit_message`: predict, then insert the row. If the prediction
     * raises, nothing is inserted.
     */
    method Submit(store: Inference.Store, userId: int, content: string, now: string) returns (r: Result<int, Inference.PredictError>)
      requires Valid()
      modifies this
      ensures Valid()
      ensures var p := Inference.PredictPriority(store, content);
        p.Ok? ==>
          && r == Ok(old(nextId))
          && old(nextId) !in old(rows)
          && rows == old(rows)[old(nextId) := NewMessage(userId, content, p.value, now)]
          && nextId == old(nextId) + 1
      ensures var p := Inference.PredictPriority(store, content);
        p.Err? ==> r == Err(p.error) && rows == old(rows) && nextId == old(nextId)
    {
      var predicted := Inference.PredictPriority(store, content);
      if predicted.Err? {
        return Err(predicted.error);
      }
      var id := nextId;
      var m := NewMessage(userId, content, predicted.value, now);
      InsertKeepsRows(rows, id, m);
      rows := rows[id := m];
      nextId := nextId + 1;
      return Ok(id);
    }

    /**
     * `update_message(messageId)`: validate, build the statement, and run it
     * only when it has a SET clause. `issued` says whether an UPDATE ran.
     */
    method Update(messageId: int, status: Option<string>, priority: Option<string>) returns (outcome: UpdateOutcome, issued: bool)
      requires Valid()
      modifies this
      ensures Valid()
      ensures outcome == CheckUpdate(status, priority)
      ensures issued <==> outcome == Accepted && (Truthy(status) || Truthy(priority))
      ensures rows == UpdatedRows(old(rows), messageId, status, priority)
      ensures nextId == old(nextId)
    {
      outcome := CheckUpdate(status, priority);
      issued := false;
      if Truthy(status) && status.value !in ValidStatuses {
        RejectedUpdateChangesNothing(rows, messageId, status, priority);
        return;
      }
      if Truthy(priority) && priority.value !in ValidPriorities {
        RejectedUpdateChangesNothing(rows, messageId, status, priority);
        return;
      }
      var updates, params := BuildUpdate(status, priority);
      if updates != [] {
        params := params + [Id(messageId)];
        NoClausesIffNothingSupplied(status, priority);
        ExecuteBuiltUpdate(rows, messageId, status, priority);
        var result := ExecuteUpdate(rows, updates, params);
        UpdateKeepsWellFormed(rows, nextId, messageId, status, priority);
        UpdateIsLocal(rows, messageId, status, priority);
        rows := result.value;
        issued := true;
      } else {
        NoClausesIffNothingSupplied(status, priority);
        EmptyUpdateChangesNothing(rows, messageId, status, priority);
      }
    }
  }
}
