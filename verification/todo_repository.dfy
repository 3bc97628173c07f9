/**
 * The Todo repository (src/repositories/todoRepository.js), the only
 * component that talks to storage. The MySQL table is modelled as an
 * abstract in-memory table: rows by id, the AUTO_INCREMENT counter and the
 * creation order that `ORDER BY created_at DESC` follows.
 */
module Repository {
  import opened Wrappers
  import opened TodoModel
  import opened SqlText

  /** The fields an update may supply; `None` is an `undefined` field, which is left alone. */
  datatype UpdateData = UpdateData(title: Option<string>, description: Option<string>, completed: Option<bool>)

  /** A value bound to a `?` placeholder. */
  datatype SqlValue = TextValue(s: string) | BoolValue(b: bool) | IntValue(n: int)

  /** A parameterised statement: its text and the values bound to its placeholders, in order. */
  datatype Statement = Statement(sql: string, params: seq<SqlValue>)

  /** One `column = ?` entry of an UPDATE's SET clause, together with the value bound to it. */
  datatype Assignment = SetTitle(title: string) | SetDescription(description: string) | SetCompleted(completed: bool)

  /** The SET-clause text of an assignment. */
  function Clause(a: Assignment): (text: string) {
    match a
    case SetTitle(_) => "title = ?"
    case SetDescription(_) => "description = ?"
    case SetCompleted(_) => "completed = ?"
  }

  /** Every SET-clause entry carries exactly one placeholder. */
  lemma ClausePlaceholder(a: Assignment)
    ensures Placeholders(Clause(a)) == 1
  {
    match a
    case SetTitle(_) =>
      OnePlaceholder("title = ");
      assert "title = " + "?" == "title = ?";
    case SetDescription(_) =>
      OnePlaceholder("description = ");
      assert "description = " + "?" == "description = ?";
    case SetCompleted(_) =>
      OnePlaceholder("completed = ");
      assert "completed = " + "?" == "completed = ?";
  }

  /** Every entry of a SET list carries exactly one placeholder. */
  lemma ClausesPlaceholders(l: seq<Assignment>)
    ensures forall i :: 0 <= i < |l| ==> Placeholders(Clauses(l)[i]) == 1
  {
    forall i | 0 <= i < |l| ensures Placeholders(Clauses(l)[i]) == 1 {
      ClausePlaceholder(l[i]);
    }
  }

  /** The value an assignment binds. */
  function Param(a: Assignment): SqlValue {
    match a
    case SetTitle(t) => TextValue(t)
    case SetDescription(s) => TextValue(s)
    case SetCompleted(b) => BoolValue(b)
  }

  /** The position of an assignment's column in the fixed order title, description, completed. */
  function Rank(a: Assignment): nat {
    match a
    case SetTitle(_) => 0
    case SetDescription(_) => 1
    case SetCompleted(_) => 2
  }

  /** The update supplies exactly this assignment's column with exactly this value. */
  predicate Supplies(d: UpdateData, a: Assignment) {
    match a
    case SetTitle(t) => d.title == Some(t)
    case SetDescription(s) => d.description == Some(s)
    case SetCompleted(b) => d.completed == Some(b)
  }

  /**
   * The assignments an update makes: one per supplied field, none for an
   * `undefined` one, in the order title, description, completed.
   */
  function SetList(d: UpdateData): (l: seq<Assignment>)
    ensures forall a :: a in l <==> Supplies(d, a)
    ensures forall i, j :: 0 <= i < j < |l| ==> Rank(l[i]) < Rank(l[j])
    ensures l == [] <==> d.title.None? && d.description.None? && d.completed.None?
  {
    (if d.title.Some? then [SetTitle(d.title.value)] else [])
    + (if d.description.Some? then [SetDescription(d.description.value)] else [])
    + (if d.completed.Some? then [SetCompleted(d.completed.value)] else [])
  }

  /** The SET-clause texts of a list of assignments, in order. */
  function Clauses(l: seq<Assignment>): (cs: seq<string>)
    ensures |cs| == |l|
  {
    seq(|l|, i requires 0 <= i < |l| => Clause(l[i]))
  }

  /** The values a list of assignments binds, in order. */
  function Params(l: seq<Assignment>): (ps: seq<SqlValue>)
    ensures |ps| == |l|
  {
    seq(|l|, i requires 0 <= i < |l| => Param(l[i]))
  }

  /**
   * The SET-clause builder of `update`: `fields` and `values` grow by one
   * entry per supplied field, so they stay the same length and line up.
   */
  method BuildSetClause(data: UpdateData) returns (fields: seq<string>, values: seq<SqlValue>)
    ensures |fields| == |values| == |SetList(data)|
    ensures forall i :: 0 <= i < |fields| ==>
              fields[i] == Clause(SetList(data)[i]) && values[i] == Param(SetList(data)[i])
  {
    fields, values := [], [];
    if data.title.Some? {
      fields := fields + ["title = ?"];
      values := values + [TextValue(data.title.value)];
    }
    if data.description.Some? {
      fields := fields + ["description = ?"];
      values := values + [TextValue(data.description.value)];
    }
    if data.completed.Some? {
      fields := fields + ["completed = ?"];
      values := values + [BoolValue(data.completed.value)];
    }
  }

  /**
   * The UPDATE statement `update` issues, or None when no field is supplied
   * (no write at all). The id is bound last, after the SET values, so there is
   * one bound value per `?` in the text.
   */
  method BuildUpdate(id: int, data: UpdateData) returns (stmt: Option<Statement>)
    ensures stmt.None? <==> SetList(data) == []
    ensures stmt.Some? ==>
              && stmt.value.sql == UpdateSql(Clauses(SetList(data)))
              && stmt.value.params == Params(SetList(data)) + [IntValue(id)]
              && Placeholders(stmt.value.sql) == |stmt.value.params|
  {
    var fields, values := BuildSetClause(data);
    ghost var l := SetList(data);
    assert fields == Clauses(l);
    assert values == Params(l);
    if |fields| == 0 {
      return None;
    }
    values := values + [IntValue(id)];
    ClausesPlaceholders(l);
    UpdatePlaceholders(fields);
    stmt := Some(Statement(UpdateSql(fields), values));
  }

  /** What a TINYINT `completed` column reads back as after a boolean was written to it. */
  function StoredFlag(b: bool): (f: Flag)
    ensures Truthy(f) == b
  {
    Num(if b then 1 else 0)
  }

  /** The effect of one SET assignment on a row. */
  function Assign(r: Row, a: Assignment): (u: Row) {
    match a
    case SetTitle(t) => r.(title := t)
    case SetDescription(s) => r.(description := Some(s))
    case SetCompleted(b) => r.(completed := StoredFlag(b))
  }

  /** The SET assignments carried out left to right. */
  function ApplySet(r: Row, l: seq<Assignment>): (u: Row)
    decreases l
  {
    if l == [] then r else ApplySet(Assign(r, l[0]), l[1..])
  }

  /** Carrying out two lists of assignments one after the other is carrying out their concatenation. */
  lemma {:induction false} ApplySetAppend(r: Row, l1: seq<Assignment>, l2: seq<Assignment>)
    ensures ApplySet(r, l1 + l2) == ApplySet(ApplySet(r, l1), l2)
    decreases l1
  {
    if l1 == [] {
      assert l1 + l2 == l2;
    } else {
      assert (l1 + l2)[1..] == l1[1..] + l2;
      ApplySetAppend(Assign(r, l1[0]), l1[1..], l2);
    }
  }

  /** Carrying out an update's assignments sets the supplied columns and only those. */
  lemma ApplySetList(r: Row, d: UpdateData)
    ensures ApplySet(r, SetList(d)) == r.(
      title := if d.title.Some? then d.title.value else r.title,
      description := if d.description.Some? then Some(d.description.value) else r.description,
      completed := if d.completed.Some? then StoredFlag(d.completed.value) else r.completed)
  {
    var lt := if d.title.Some? then [SetTitle(d.title.value)] else [];
    var ld := if d.description.Some? then [SetDescription(d.description.value)] else [];
    var lc := if d.completed.Some? then [SetCompleted(d.completed.value)] else [];
    assert SetList(d) == lt + ld + lc;
    ApplySetAppend(r, lt + ld, lc);
    ApplySetAppend(r, lt, ld);
  }

  /**
   * The row after `UPDATE todos SET ... WHERE id = ?`: supplied columns take
   * the new values, the rest keep theirs; the storage layer refreshes
   * `updated_at` to `now` when, and only when, some column value changed.
   */
  function Updated(r: Row, d: UpdateData, now: Timestamp): (u: Row)
    ensures u.id == r.id && u.created_at == r.created_at
    ensures u.title == (if d.title.Some? then d.title.value else r.title)
    ensures u.description == (if d.description.Some? then Some(d.description.value) else r.description)
    ensures u.completed == (if d.completed.Some? then StoredFlag(d.completed.value) else r.completed)
    ensures u.updated_at == (if u.(updated_at := r.updated_at) == r then r.updated_at else now)
  {
    ApplySetList(r, d);
    var w := ApplySet(r, SetList(d));
    if w == r then r else w.(updated_at := now)
  }

  /** An update that supplies no field leaves the row exactly as it was. */
  lemma UpdatedWithoutFields(r: Row, d: UpdateData, now: Timestamp)
    requires SetList(d) == []
    ensures Updated(r, d, now) == r
  {
  }

  /** Ids strictly increase along a sequence (so none repeats). */
  ghost predicate Increasing(s: seq<int>) {
    forall i, j :: 0 <= i < j < |s| ==> s[i] < s[j]
  }

  /** `s` with `x` removed: the creation order after the row `x` is deleted. */
  function Without(s: seq<int>, x: int): (r: seq<int>)
    ensures |r| <= |s|
  {
    if s == [] then []
    else if s[0] == x then Without(s[1..], x)
    else [s[0]] + Without(s[1..], x)
  }

  /** Removing `x` keeps every other element, keeps the order, and drops nothing else. */
  lemma {:induction false} WithoutSpec(s: seq<int>, x: int)
    ensures forall y :: y in Without(s, x) <==> y in s && y != x
    ensures Increasing(s) ==> Increasing(Without(s, x))
    ensures x !in s ==> Without(s, x) == s
  {
    if s != [] {
      WithoutSpec(s[1..], x);
      var rest := Without(s[1..], x);
      if s[0] != x {
        assert Without(s, x) == [s[0]] + rest;
        if Increasing(s) {
          forall k | 0 <= k < |rest| ensures s[0] < rest[k] {
            assert rest[k] in rest;
            assert rest[k] in s[1..];
          }
        }
      }
    }
  }

  /** `SELECT * ... ORDER BY created_at DESC`: the rows of `ids`, newest first. */
  function NewestFirst(m: map<int, Row>, ids: seq<int>): (r: seq<Row>)
    requires forall i :: 0 <= i < |ids| ==> ids[i] in m
    ensures |r| == |ids|
    ensures forall i :: 0 <= i < |ids| ==> r[i] == m[ids[|ids| - 1 - i]]
  {
    if ids == [] then [] else [m[ids[|ids| - 1]]] + NewestFirst(m, ids[..|ids| - 1])
  }

  /**
   * Read newest first, the Todos of rows created with increasing ids come in
   * decreasing id order.
   */
  lemma NewestFirstDescending(m: map<int, Row>, ids: seq<int>)
    requires forall i :: 0 <= i < |ids| ==> ids[i] in m && m[ids[i]].id == ids[i]
    requires Increasing(ids)
    ensures var ts := FromRows(NewestFirst(m, ids));
            && (forall i :: 0 <= i < |ts| ==> ts[i].id == ids[|ids| - 1 - i])
            && (forall i, j :: 0 <= i < j < |ts| ==> ts[i].id > ts[j].id)
  {
  }

  /** The Todo of each row is among the Todos of the rows. */
  lemma FromRowsHas(rows: seq<Row>, i: int)
    requires 0 <= i < |rows|
    ensures FromRow(rows[i]) in FromRows(rows)
  {
    assert FromRows(rows)[i] == FromRow(rows[i]);
  }

  /** Every row of the table is among the Todos read newest first. */
  lemma NewestFirstComplete(m: map<int, Row>, ids: seq<int>)
    requires forall i :: 0 <= i < |ids| ==> ids[i] in m
    requires forall id :: id in m ==> id in ids
    ensures forall id :: id in m ==> FromRow(m[id]) in FromRows(NewestFirst(m, ids))
  {
    var rs := NewestFirst(m, ids);
    var ts := FromRows(rs);
    var n := |ids|;
    forall id | id in m ensures FromRow(m[id]) in ts {
      var k :| 0 <= k < n && ids[k] == id;
      var i := n - 1 - k;
      assert rs[i] == m[id];
      FromRowsHas(rs, i);
    }
  }

  /** Everything `findAll` promises, about the rows of a valid table read newest first. */
  lemma NewestFirstTodos(m: map<int, Row>, ids: seq<int>)
    requires forall i :: 0 <= i < |ids| ==> ids[i] in m && m[ids[i]].id == ids[i]
    requires forall id :: id in m ==> id in ids
    requires Increasing(ids)
    ensures var ts := FromRows(NewestFirst(m, ids));
            && |ts| == |ids| == |m|
            && (forall i :: 0 <= i < |ts| ==> ts[i] == FromRow(m[ids[|ids| - 1 - i]]))
            && (forall i, j :: 0 <= i < j < |ts| ==> ts[i].id > ts[j].id)
  {
    NewestFirstDescending(m, ids);
    OneIdPerRow(m, ids);
  }

  /**
   * Inserting a row under the counter's id, stamped no earlier than every
   * present row, and appending that id to the creation order keeps the table
   * valid with the counter moved on by one.
   */
  lemma InsertKeepsTable(m: map<int, Row>, ids: seq<int>, nextId: int, row: Row)
    requires 1 <= nextId
    requires forall id :: id in m ==> m[id].id == id && id < nextId
    requires Increasing(ids)
    requires forall i :: 0 <= i < |ids| ==> ids[i] in m
    requires forall id :: id in m ==> id in ids
    requires forall a, b :: a in m && b in m && a < b ==> m[a].created_at <= m[b].created_at
    requires row.id == nextId
    requires forall id :: id in m ==> m[id].created_at <= row.created_at
    ensures var m', ids' := m[nextId := row], ids + [nextId];
            && (forall id :: id in m' ==> m'[id].id == id && id < nextId + 1)
            && Increasing(ids')
            && (forall i :: 0 <= i < |ids'| ==> ids'[i] in m')
            && (forall id :: id in m' ==> id in ids')
            && (forall a, b :: a in m' && b in m' && a < b ==> m'[a].created_at <= m'[b].created_at)
  {
    var ids' := ids + [nextId];
    forall id | id in m[nextId := row] ensures id in ids' {
      if id != nextId {
        assert id in ids;
      } else {
        assert ids'[|ids|] == id;
      }
    }
  }

  /**
   * Replacing a present row by one with the same id and the same creation
   * time keeps the table valid; the creation order and the counter stay.
   */
  lemma ReplaceKeepsTable(m: map<int, Row>, ids: seq<int>, nextId: int, row: Row)
    requires forall id :: id in m ==> m[id].id == id && id < nextId
    requires forall i :: 0 <= i < |ids| ==> ids[i] in m
    requires forall id :: id in m ==> id in ids
    requires forall a, b :: a in m && b in m && a < b ==> m[a].created_at <= m[b].created_at
    requires row.id in m && m[row.id].created_at == row.created_at
    ensures var m' := m[row.id := row];
            && (forall id :: id in m' ==> m'[id].id == id && id < nextId)
            && (forall i :: 0 <= i < |ids| ==> ids[i] in m')
            && (forall id :: id in m' ==> id in ids)
            && (forall a, b :: a in m' && b in m' && a < b ==> m'[a].created_at <= m'[b].created_at)
  {
  }

  /** Removing a present key shrinks a map by one. */
  lemma RemoveOneKey(m: map<int, Row>, k: int)
    requires k in m
    ensures |m - {k}| == |m| - 1
  {
  }

  /** A repetition-free sequence listing exactly the keys of a map is as long as the map is large. */
  lemma {:induction false} OneIdPerRow(m: map<int, Row>, ids: seq<int>)
    requires Increasing(ids)
    requires forall i :: 0 <= i < |ids| ==> ids[i] in m
    requires forall k :: k in m ==> k in ids
    ensures |ids| == |m|
  {
    if ids == [] {
      assert forall k :: k !in m;
      assert m.Keys == {};
    } else {
      var n := |ids| - 1;
      var last := ids[n];
      forall i | 0 <= i < n ensures ids[..n][i] in m - {last} {
        assert ids[i] < last;
      }
      forall k | k in m - {last} ensures k in ids[..n] {
        var j :| 0 <= j < |ids| && ids[j] == k;
        assert j != n;
        assert ids[..n][j] == k;
      }
      OneIdPerRow(m - {last}, ids[..n]);
      RemoveOneKey(m, last);
    }
  }

  /**
   * After a row is deleted, the creation order without its id still lists
   * exactly the remaining rows, oldest first.
   */
  lemma DeleteKeepsTable(m: map<int, Row>, ids: seq<int>, k: int)
    requires Increasing(ids)
    requires forall i :: 0 <= i < |ids| ==> ids[i] in m
    requires forall id :: id in m ==> id in ids
    ensures var r := Without(ids, k);
            && Increasing(r)
            && (forall i :: 0 <= i < |r| ==> r[i] in m - {k})
            && (forall id :: id in m - {k} ==> id in r)
  {
    WithoutSpec(ids, k);
    var r := Without(ids, k);
    forall i | 0 <= i < |r| ensures r[i] in m - {k} {
      assert r[i] in r;
      var j :| 0 <= j < |ids| && ids[j] == r[i];
    }
  }

  class TodoRepository {
    /** The rows of the `todos` table, by id. */
    var rows: map<int, Row>
    /** The ids of the rows in creation order, oldest first. */
    var order: seq<int>
    /** The id the next insert receives (the table's AUTO_INCREMENT value). */
    var nextId: int

    ghost predicate Valid()
      reads this
    {
      && 1 <= nextId
      && (forall id :: id in rows ==> rows[id].id == id && id < nextId)
      && Increasing(order)
      && (forall i :: 0 <= i < |order| ==> order[i] in rows)
      && (forall id :: id in rows ==> id in order)
      // the clock does not run backwards, so a later id never has an earlier created_at
      && (forall a, b :: a in rows && b in rows && a < b ==> rows[a].created_at <= rows[b].created_at)
    }

    /** An empty table whose first insert receives id 1. */
    constructor ()
      ensures Valid() && rows == map[] && order == [] && nextId == 1
    {
      rows, order, nextId := map[], [], 1;
    }

    /**
     * `findById`: None (null) iff no row has the id; otherwise the row as a
     * Todo.
     */
    method FindById(id: int) returns (todo: Option<Todo>)
      requires Valid()
      ensures todo.None? <==> id !in rows
      ensures todo.Some? ==> todo.value == FromRow(rows[id])
    {
      // SELECT * FROM todos WHERE id = ?
      var selected := if id in rows then [rows[id]] else [];
      if |selected| == 0 {
        return None;
      }
      todo := Some(FromRow(selected[0]));
    }

    /**
     * `findAll`: every row as a Todo, newest first; an empty table gives the
     * empty sequence.
     */
    method FindAll() returns (todos: seq<Todo>)
      requires Valid()
      ensures |todos| == |order| == |rows|
      ensures todos == FromRows(NewestFirst(rows, order))
      ensures forall i, j :: 0 <= i < j < |todos| ==> todos[i].id > todos[j].id
      ensures forall i, j :: 0 <= i < j < |todos| ==> todos[i].createdAt >= todos[j].createdAt
    {
      var selected := NewestFirst(rows, order);
      todos := FromRows(selected);
      NewestFirstTodos(rows, order);
    }

    /**
     * `create`: inserts a row with the given title, the description or ''
     * when it is undefined, `completed` at its column default (false) and
     * both timestamps at `now`, then returns that row read back by its new id.
     */
    method Create(title: string, description: Option<string>, now: Timestamp) returns (todo: Option<Todo>)
      requires Valid()
      requires forall id :: id in rows ==> rows[id].created_at <= now
      modifies this
      ensures Valid()
      ensures var id := old(nextId);
              var desc := if description.Some? then description.value else "";
              && id !in old(rows)
              && rows == old(rows)[id := Row(id, title, Some(desc), Num(0), now, now)]
              && order == old(order) + [id] && nextId == id + 1
              && todo == Some(Todo(id, title, desc, Bool(false), now, now))
      ensures |rows| == |old(rows)| + 1
    {
      var desc := if description.Some? then description.value else "";
      // INSERT INTO todos (title, description) VALUES (?, ?)
      var insertId := nextId;
      InsertKeepsTable(rows, order, nextId, Row(insertId, title, Some(desc), Num(0), now, now));
      rows := rows[insertId := Row(insertId, title, Some(desc), Num(0), now, now)];
      order := order + [insertId];
      nextId := nextId + 1;
      assert FromRow(rows[insertId]) == Todo(insertId, title, desc, Bool(false), now, now);
      todo := FindById(insertId);
    }

    /**
     * `update`: None (null) and no change when the id is absent; no write and
     * the existing Todo when no field is supplied; otherwise the supplied
     * columns of that one row are overwritten and the row is read back.
     */
    method Update(id: int, data: UpdateData, now: Timestamp) returns (todo: Option<Todo>)
      requires Valid()
      modifies this
      ensures Valid()
      ensures order == old(order) && nextId == old(nextId)
      ensures id !in old(rows) ==> todo == None && rows == old(rows)
      ensures id in old(rows) && SetList(data) == [] ==>
                rows == old(rows) && todo == Some(FromRow(old(rows)[id]))
      ensures id in old(rows) ==>
                && rows == old(rows)[id := Updated(old(rows)[id], data, now)]
                && todo == Some(FromRow(rows[id]))
    {
      var existing := FindById(id);
      if existing.None? {
        return None;
      }
      var stmt := BuildUpdate(id, data);
      var updated := Updated(rows[id], data, now);
      if stmt.None? {
        UpdatedWithoutFields(rows[id], data, now);
        assert rows[id := updated] == rows;
        return existing;
      }
      assert updated.id == id && updated.created_at == rows[id].created_at;
      ReplaceKeepsTable(rows, order, nextId, updated);
      rows := rows[id := updated];
      todo := FindById(id);
    }

    /** `delete`: true iff a row with the id existed; afterwards none does. */
    method Delete(id: int) returns (deleted: bool)
      requires Valid()
      modifies this
      ensures Valid()
      ensures deleted <==> id in old(rows)
      ensures id !in rows
      ensures rows == old(rows) - {id} && order == Without(old(order), id) && nextId == old(nextId)
      ensures |rows| == if deleted then |old(rows)| - 1 else |old(rows)|
    {
      // DELETE FROM todos WHERE id = ?
      var affectedRows := if id in rows then 1 else 0;
      if id in rows {
        RemoveOneKey(rows, id);
      } else {
        assert rows - {id} == rows;
      }
      DeleteKeepsTable(rows, order, id);
      rows := rows - {id};
      order := Without(order, id);
      deleted := affectedRows > 0;
    }

    /** `deleteAll`: the table is emptied; the AUTO_INCREMENT counter is not reset. */
    method DeleteAll()
      requires Valid()
      modifies this
      ensures Valid()
      ensures rows == map[] && order == [] && nextId == old(nextId)
    {
      rows, order := map[], [];
    }
  }
}
