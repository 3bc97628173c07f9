/**
 * One client session against the controller and repository together, on a
 * fresh table: a Todo "Buy milk" is created at time 100, read, marked
 * completed at time 200, listed, deleted, deleted again and looked up after
 * deletion. Each handler receives the result of the repository call it
 * makes; each step is a method of its own, from one table state to the next.
 */
module Scenario {
  import opened Wrappers
  import opened TodoModel
  import opened JsText
  import opened Repository
  import opened TodoController

  /** The stored row after the create request. */
  const Milk := Row(1, "Buy milk", Some(""), Num(0), 100, 100)
  /** The stored row after the update request. */
  const MilkDone := Row(1, "Buy milk", Some(""), Num(1), 100, 200)
  /** The JSON forms of the two rows. */
  const MilkJson := TodoJson(1, "Buy milk", "", false, 100, 100)
  const MilkDoneJson := TodoJson(1, "Buy milk", "", true, 100, 200)

  /** POST /api/todos {"title": "Buy milk"} on an empty table. */
  method PostMilk(repo: TodoRepository) returns (res: Response)
    requires repo.Valid() && repo.rows == map[] && repo.order == [] && repo.nextId == 1
    modifies repo
    ensures repo.Valid() && repo.rows == map[1 := Milk] && repo.order == [1]
    ensures res == Response(201, TodoBody(MilkJson))
  {
    var post := RequestBody(Some("Buy milk"), None, None);
    assert !IsSpace(post.title.value[0]);
    var created := repo.Create("Buy milk", None, 100);
    res := CreateTodo(post, (title, description) => if title == "Buy milk" && description == None then Resolved(created) else Rejected("unexpected call"));
  }

  /** GET /api/todos/1. */
  method GetMilk(repo: TodoRepository, row: Row) returns (res: Response)
    requires repo.Valid() && repo.rows == map[1 := row]
    ensures res == Response(200, TodoBody(ToJSON(FromRow(row))))
  {
    var found := repo.FindById(1);
    res := GetTodoById(1, id => if id == 1 then Resolved(found) else Rejected("unexpected call"));
  }

  /** PUT /api/todos/1 {"completed": true} at time 200. */
  method CompleteMilk(repo: TodoRepository) returns (res: Response)
    requires repo.Valid() && repo.rows == map[1 := Milk] && repo.order == [1]
    modifies repo
    ensures repo.Valid() && repo.rows == map[1 := MilkDone] && repo.order == [1]
    ensures res == Response(200, TodoBody(MilkDoneJson))
  {
    var put := RequestBody(None, None, Some(true));
    assert Updated(Milk, UpdateFields(put), 200) == MilkDone;
    var updated := repo.Update(1, UpdateFields(put), 200);
    res := UpdateTodo(1, put, (id, data) => if id == 1 && data == UpdateFields(put) then Resolved(updated) else Rejected("unexpected call"));
  }

  /** GET /api/todos. */
  method ListMilk(repo: TodoRepository) returns (res: Response)
    requires repo.Valid() && repo.rows == map[1 := MilkDone] && repo.order == [1]
    ensures res == Response(200, TodoListBody([MilkDoneJson]))
  {
    var all := repo.FindAll();
    assert NewestFirst(repo.rows, [1]) == [MilkDone];
    res := GetAllTodos(Resolved(all));
  }

  /** DELETE /api/todos/1 on a table holding that one row. */
  method DeleteMilk(repo: TodoRepository) returns (res: Response)
    requires repo.Valid() && repo.rows == map[1 := MilkDone] && repo.order == [1]
    modifies repo
    ensures repo.Valid() && repo.rows == map[] && repo.order == []
    ensures res == Response(200, MessageBody("Todo deleted successfully"))
  {
    var deleted := repo.Delete(1);
    res := DeleteTodo(1, id => if id == 1 then Resolved(deleted) else Rejected("unexpected call"));
  }

  /** DELETE /api/todos/1 and GET /api/todos/1 on an empty table. */
  method MissingMilk(repo: TodoRepository) returns (deleteRes: Response, getRes: Response)
    requires repo.Valid() && repo.rows == map[]
    modifies repo
    ensures repo.Valid() && repo.rows == map[]
    ensures deleteRes == getRes == Response(404, ErrorBody("Todo not found"))
  {
    var deleted := repo.Delete(1);
    deleteRes := DeleteTodo(1, id => if id == 1 then Resolved(deleted) else Rejected("unexpected call"));
    var found := repo.FindById(1);
    getRes := GetTodoById(1, id => if id == 1 then Resolved(found) else Rejected("unexpected call"));
  }

  /** The session's responses, in order. */
  method BuyMilk() returns (responses: seq<Response>)
    ensures responses == [
      Response(201, TodoBody(MilkJson)),
      Response(200, TodoBody(MilkJson)),
      Response(200, TodoBody(MilkDoneJson)),
      Response(200, TodoListBody([MilkDoneJson])),
      Response(200, MessageBody("Todo deleted successfully")),
      Response(404, ErrorBody("Todo not found")),
      Response(404, ErrorBody("Todo not found"))
    ]
  {
    var repo := new TodoRepository();
    var r1 := PostMilk(repo);
    var r2 := GetMilk(repo, Milk);
    var r3 := CompleteMilk(repo);
    var r4 := ListMilk(repo);
    var r5 := DeleteMilk(repo);
    var r6, r7 := MissingMilk(repo);
    responses := [r1, r2, r3, r4, r5, r6, r7];
  }
}
