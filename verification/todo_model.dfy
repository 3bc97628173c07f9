/**
 * The Todo entity (src/models/Todo.js): how a row of the `todos` table is
 * normalised into a Todo, and the Todo's six-field JSON representation.
 */
module TodoModel {
  import opened Wrappers

  /** Timestamps are opaque values produced by the storage layer's clock. */
  type Timestamp = int

  /** The JavaScript values a `completed` column or field can hold. */
  datatype Flag = Undefined | Null | Bool(b: bool) | Num(n: int)

  /** JavaScript truthiness of a Flag, the test behind `||` and `Boolean(...)`. */
  predicate Truthy(v: Flag) {
    match v
    case Undefined => false
    case Null => false
    case Bool(b) => b
    case Num(n) => n != 0
  }

  /** JavaScript `a || b`: the left operand when it is truthy, else the right one. */
  function Or(a: Flag, b: Flag): Flag {
    if Truthy(a) then a else b
  }

  /**
   * A row of the `todos` table as the driver hands it over: `description`
   * is a nullable TEXT column, `completed` a BOOLEAN (TINYINT) column.
   */
  datatype Row = Row(
    id: int,
    title: string,
    description: Option<string>,
    completed: Flag,
    created_at: Timestamp,
    updated_at: Timestamp)

  /** A Todo as the constructor builds it; `completed` keeps the raw truthy value. */
  datatype Todo = Todo(
    id: int,
    title: string,
    description: string,
    completed: Flag,
    createdAt: Timestamp,
    updatedAt: Timestamp)

  /** The canonical external representation: exactly six keys, `completed` a boolean. */
  datatype TodoJson = TodoJson(
    id: int,
    title: string,
    description: string,
    completed: bool,
    createdAt: Timestamp,
    updatedAt: Timestamp)

  /**
   * The Todo constructor, applied to a row (`Todo.fromRow`): id and title are
   * copied, a missing, NULL or empty description becomes '', a falsy
   * `completed` becomes false, and the timestamps are renamed.
   */
  function FromRow(r: Row): (t: Todo)
    ensures t.id == r.id && t.title == r.title
    ensures t.description == "" <==> r.description == None || r.description == Some("")
    ensures r.description.Some? ==> t.description == r.description.value
    ensures !Truthy(r.completed) ==> t.completed == Bool(false)
    ensures Truthy(r.completed) ==> t.completed == r.completed
    ensures t.createdAt == r.created_at && t.updatedAt == r.updated_at
  {
    // `description || ''`: NULL becomes '', and an empty string is '' either way
    var description := match r.description case None => "" case Some(s) => s;
    Todo(r.id, r.title, description, Or(r.completed, Bool(false)), r.created_at, r.updated_at)
  }

  /** `toJSON`: five fields copied, and `completed` coerced with `Boolean(...)`. */
  function ToJSON(t: Todo): (j: TodoJson)
    ensures j.id == t.id && j.title == t.title && j.description == t.description
    ensures j.completed <==> Truthy(t.completed)
    ensures j.createdAt == t.createdAt && j.updatedAt == t.updatedAt
  {
    TodoJson(t.id, t.title, t.description, Truthy(t.completed), t.createdAt, t.updatedAt)
  }

  /** `Todo.fromRows`: the rows mapped through `fromRow`, in the same order. */
  function FromRows(rows: seq<Row>): (ts: seq<Todo>)
    ensures |ts| == |rows|
    ensures forall i :: 0 <= i < |rows| ==> ts[i] == FromRow(rows[i])
  {
    if rows == [] then [] else [FromRow(rows[0])] + FromRows(rows[1..])
  }

  /**
   * The JSON form of a row's Todo: the row's id, title and timestamps, its
   * description or '', and `completed` true iff the row's value was truthy.
   */
  lemma JsonOfRow(r: Row)
    ensures var j := ToJSON(FromRow(r));
            && j.id == r.id && j.title == r.title
            && j.description == (if r.description.Some? then r.description.value else "")
            && (j.completed <==> Truthy(r.completed))
            && j.createdAt == r.created_at && j.updatedAt == r.updated_at
  {
  }

  /** `completed: 1` serialises as true, and `0`, NULL or a missing value as false. */
  lemma JsonCompletedExamples(r: Row)
    ensures r.completed == Num(1) ==> ToJSON(FromRow(r)).completed
    ensures r.completed in {Num(0), Null, Undefined, Bool(false)} ==> !ToJSON(FromRow(r)).completed
  {
  }

  /** Mapping rows commutes with concatenation, so `fromRows` treats rows independently. */
  lemma FromRowsAppend(a: seq<Row>, b: seq<Row>)
    ensures FromRows(a + b) == FromRows(a) + FromRows(b)
  {
  }
}
