/**
 * The Todo controller (src/controllers/todoController.js): each HTTP handler
 * as a function from the request fields and the repository call it makes to
 * one response. A repository call is passed in as a function, so what the
 * handler asks the repository for, and whether it asks at all, is visible.
 */
module TodoController {
  import opened Wrappers
  import opened TodoModel
  import opened JsText
  import Repository

  /** What an awaited repository call produced: its value, or a rejection with an internal cause. */
  datatype Outcome<+T> = Resolved(value: T) | Rejected(cause: string)

  /** The JSON body of a response. */
  datatype Body =
    | TodoBody(todo: TodoJson)
    | TodoListBody(todos: seq<TodoJson>)
    | ErrorBody(error: string)
    | MessageBody(message: string)

  datatype Response = Response(status: int, body: Body)

  /** The fields of a request body the handlers read; None is an absent (`undefined`) field. */
  datatype RequestBody = RequestBody(title: Option<string>, description: Option<string>, completed: Option<bool>)

  /** A title the create handler accepts: present, with at least one character that is not white space. */
  predicate ValidTitle(title: Option<string>) {
    title.Some? && exists i :: 0 <= i < |title.value| && !IsSpace(title.value[i])
  }

  /**
   * The create handler's test `!title || title.trim() === ''`: it rejects
   * exactly the titles that are missing or have no non-white-space character.
   */
  predicate RejectsTitle(title: Option<string>)
    ensures RejectsTitle(title) <==> !ValidTitle(title)
  {
    title.None? || title.value == "" || Trim(title.value) == ""
  }

  /** `todos.map(todo => todo.toJSON())`. */
  function AllToJSON(todos: seq<Todo>): (js: seq<TodoJson>)
    ensures |js| == |todos|
    ensures forall i :: 0 <= i < |todos| ==> js[i] == ToJSON(todos[i])
  {
    if todos == [] then [] else [ToJSON(todos[0])] + AllToJSON(todos[1..])
  }

  /**
   * `createTodo`: 400 for a missing or blank title without calling the
   * repository; otherwise `create(title, description)`, answered with 201 and
   * the created Todo, or 500 when the call fails or yields no Todo.
   */
  function CreateTodo(body: RequestBody, create: (string, Option<string>) -> Outcome<Option<Todo>>): (res: Response)
    ensures res.status == 400 <==> !ValidTitle(body.title)
    ensures res.status == 400 ==> res.body == ErrorBody("Title is required")
    ensures ValidTitle(body.title) ==>
              match create(body.title.value, body.description)
              case Resolved(Some(todo)) => res == Response(201, TodoBody(ToJSON(todo)))
              case _ => res == Response(500, ErrorBody("Failed to create todo"))
  {
    if RejectsTitle(body.title) then
      Response(400, ErrorBody("Title is required"))
    else
      match create(body.title.value, body.description)
      case Resolved(Some(todo)) => Response(201, TodoBody(ToJSON(todo)))
      // a null result makes `todo.toJSON()` throw, and the catch answers 500
      case Resolved(None) => Response(500, ErrorBody("Failed to create todo"))
      case Rejected(_) => Response(500, ErrorBody("Failed to create todo"))
  }

  /** `getAllTodos`: 200 with every Todo's JSON form in the repository's order, or 500. */
  function GetAllTodos(found: Outcome<seq<Todo>>): (res: Response)
    ensures found.Resolved? ==>
              && res.status == 200 && res.body.TodoListBody?
              && |res.body.todos| == |found.value|
              && forall i :: 0 <= i < |found.value| ==> res.body.todos[i] == ToJSON(found.value[i])
    ensures found.Rejected? ==> res == Response(500, ErrorBody("Failed to fetch todos"))
  {
    match found
    case Resolved(todos) => Response(200, TodoListBody(AllToJSON(todos)))
    case Rejected(_) => Response(500, ErrorBody("Failed to fetch todos"))
  }

  /** `getTodoById`: 404 iff the repository finds nothing, 200 with the Todo otherwise, 500 on failure. */
  function GetTodoById(id: int, findById: int -> Outcome<Option<Todo>>): (res: Response)
    ensures res.status == 404 <==> findById(id) == Resolved(None)
    ensures res.status == 404 ==> res.body == ErrorBody("Todo not found")
    ensures findById(id).Resolved? && findById(id).value.Some? ==>
              res == Response(200, TodoBody(ToJSON(findById(id).value.value)))
    ensures findById(id).Rejected? ==> res == Response(500, ErrorBody("Failed to fetch todo"))
  {
    match findById(id)
    case Resolved(None) => Response(404, ErrorBody("Todo not found"))
    case Resolved(Some(todo)) => Response(200, TodoBody(ToJSON(todo)))
    case Rejected(_) => Response(500, ErrorBody("Failed to fetch todo"))
  }

  /** The fields `updateTodo` forwards: title, description and completed, as the body has them. */
  function UpdateFields(body: RequestBody): (d: Repository.UpdateData)
    ensures d.title == body.title && d.description == body.description && d.completed == body.completed
  {
    Repository.UpdateData(body.title, body.description, body.completed)
  }

  /**
   * `updateTodo`: forwards the three fields without validating them; 404
   * iff the repository finds no Todo, 200 with the updated one otherwise,
   * 500 on failure.
   */
  function UpdateTodo(id: int, body: RequestBody, update: (int, Repository.UpdateData) -> Outcome<Option<Todo>>): (res: Response)
    ensures var outcome := update(id, UpdateFields(body));
            && (res.status == 404 <==> outcome == Resolved(None))
            && (res.status == 404 ==> res.body == ErrorBody("Todo not found"))
            && (outcome.Resolved? && outcome.value.Some? ==>
                  res == Response(200, TodoBody(ToJSON(outcome.value.value))))
            && (outcome.Rejected? ==> res == Response(500, ErrorBody("Failed to update todo")))
  {
    match update(id, UpdateFields(body))
    case Resolved(None) => Response(404, ErrorBody("Todo not found"))
    case Resolved(Some(todo)) => Response(200, TodoBody(ToJSON(todo)))
    case Rejected(_) => Response(500, ErrorBody("Failed to update todo"))
  }

  /** `deleteTodo`: 404 when nothing was deleted, 200 with a confirmation when a row was, 500 on failure. */
  function DeleteTodo(id: int, delete: int -> Outcome<bool>): (res: Response)
    ensures res.status == 404 <==> delete(id) == Resolved(false)
    ensures res.status == 404 ==> res.body == ErrorBody("Todo not found")
    ensures res.status == 200 <==> delete(id) == Resolved(true)
    ensures res.status == 200 ==> res.body == MessageBody("Todo deleted successfully")
    ensures delete(id).Rejected? ==> res == Response(500, ErrorBody("Failed to delete todo"))
  {
    match delete(id)
    case Resolved(false) => Response(404, ErrorBody("Todo not found"))
    case Resolved(true) => Response(200, MessageBody("Todo deleted successfully"))
    case Rejected(_) => Response(500, ErrorBody("Failed to delete todo"))
  }

  /** A rejected title leaves the repository uncalled: the response is the same whatever `create` would do. */
  lemma CreateSkipsRepositoryOnBadTitle(
    body: RequestBody,
    create1: (string, Option<string>) -> Outcome<Option<Todo>>,
    create2: (string, Option<string>) -> Outcome<Option<Todo>>)
    requires !ValidTitle(body.title)
    ensures CreateTodo(body, create1) == CreateTodo(body, create2) == Response(400, ErrorBody("Title is required"))
  {
  }

  /** A `completed` field in a create request is ignored: only title and description reach the repository. */
  lemma CreateIgnoresCompleted(body: RequestBody, completed: Option<bool>, create: (string, Option<string>) -> Outcome<Option<Todo>>)
    ensures CreateTodo(body.(completed := completed), create) == CreateTodo(body, create)
  {
  }

  /** Unlike create, update accepts a blank title: a found Todo gives 200 whatever the title. */
  lemma UpdateDoesNotValidateTitle(id: int, body: RequestBody, update: (int, Repository.UpdateData) -> Outcome<Option<Todo>>, todo: Todo)
    requires !ValidTitle(body.title)
    requires update(id, UpdateFields(body)) == Resolved(Some(todo))
    ensures UpdateTodo(id, body, update).status == 200
  {
  }

  /** A repository failure gives a 500 whose body is fixed per handler and never carries the cause. */
  lemma FailuresHideTheCause(cause1: string, cause2: string, id: int, body: RequestBody)
    requires ValidTitle(body.title)
    ensures CreateTodo(body, (t, d) => Rejected(cause1)) == CreateTodo(body, (t, d) => Rejected(cause2))
            == Response(500, ErrorBody("Failed to create todo"))
    ensures GetAllTodos(Rejected(cause1)) == GetAllTodos(Rejected(cause2))
            == Response(500, ErrorBody("Failed to fetch todos"))
    ensures GetTodoById(id, _ => Rejected(cause1)) == GetTodoById(id, _ => Rejected(cause2))
            == Response(500, ErrorBody("Failed to fetch todo"))
    ensures UpdateTodo(id, body, (i, d) => Rejected(cause1)) == UpdateTodo(id, body, (i, d) => Rejected(cause2))
            == Response(500, ErrorBody("Failed to update todo"))
    ensures DeleteTodo(id, _ => Rejected(cause1)) == DeleteTodo(id, _ => Rejected(cause2))
            == Response(500, ErrorBody("Failed to delete todo"))
  {
  }

  /** A missing, an empty and a white-space-only title are each answered 400 "Title is required". */
  lemma BlankTitlesRejected(description: Option<string>, create: (string, Option<string>) -> Outcome<Option<Todo>>)
    ensures CreateTodo(RequestBody(None, description, None), create) == Response(400, ErrorBody("Title is required"))
    ensures CreateTodo(RequestBody(Some(""), description, None), create) == Response(400, ErrorBody("Title is required"))
    ensures CreateTodo(RequestBody(Some(" \t\n"), description, None), create) == Response(400, ErrorBody("Title is required"))
  {
  }

  /** Every handler answers with one of the statuses 200, 201, 400, 404 and 500. */
  lemma StatusesAreKnown(
    body: RequestBody, id: int,
    create: (string, Option<string>) -> Outcome<Option<Todo>>,
    found: Outcome<seq<Todo>>,
    findById: int -> Outcome<Option<Todo>>,
    update: (int, Repository.UpdateData) -> Outcome<Option<Todo>>,
    delete: int -> Outcome<bool>)
    ensures CreateTodo(body, create).status in {201, 400, 500}
    ensures GetAllTodos(found).status in {200, 500}
    ensures GetTodoById(id, findById).status in {200, 404, 500}
    ensures UpdateTodo(id, body, update).status in {200, 404, 500}
    ensures DeleteTodo(id, delete).status in {200, 404, 500}
  {
  }
}
