# Todo CRUD service — a Dafny model

A model of the core of a small Node.js/Express todo service backed by MySQL,
with the properties its code promises proved about it. The core has three
parts.

- **The Todo entity** (`TodoModel`, todo_model.dfy). This is how a row of the `todos`
  table becomes a Todo:
  - a NULL or empty description becomes `''`;
  - a falsy `completed` becomes `false`;
  - the timestamp columns are renamed.

  It also covers the Todo's six-key JSON form, whose `completed` is coerced to a boolean.
  JavaScript values are modelled explicitly where the code relies on truthiness:
  `Flag` for `completed`, `Option` for a nullable column.
- **The repository** (`Repository`, todo_repository.dfy). `TodoRepository` is a
  class whose state is an abstract table:
  - `rows`: the rows by id;
  - `nextId`: the AUTO_INCREMENT counter;
  - `order`: the creation order, which stands for `created_at`.

  Its methods `Create`, `FindAll`, `FindById`, `Update`, `Delete` and `DeleteAll` change or
  read that state. Each is specified by the exact new state and result, and each keeps the
  invariant `Valid()`: ids are keys, ids are below the counter, the creation order lists
  every row once, in increasing id, and a later id never has an earlier `created_at`. Two
  more parts of the module:
  - **the SET-clause builder of `update`** (`BuildSetClause`, `BuildUpdate`). It is a method
    over growing sequences, proved to produce one `?` per bound value, with the id bound last.
    SQL text is modelled only as far as `Array.prototype.join` and the placeholder count go
    (`SqlText`, sql_text.dfy).
  - **the effect of the UPDATE on a row** (`Updated`).
- **The controller** (`TodoController`, todo_controller.dfy). Each HTTP handler is a
  function from the request fields and the repository call it makes to one
  `Response(status, body)`.
  - The repository call is a function parameter. This lets the model state what the handler
    asks for, and that a rejected title never reaches the repository.
  - A failed call is `Rejected(cause)`.
  - The title check uses `String.prototype.trim` with ECMAScript's white-space set
    (`JsText`, js_text.dfy).

`Scenario` (scenario.dfy) walks one illustrative client session through controller and
repository together. The todo "Buy milk" is created, read, completed, listed, deleted, deleted
again and looked up again. Its contract states the seven responses. Each stand-in for a
repository call answers only the call the handler is expected to make, and rejects any other.

Two behaviours of the code are worth stating:

- `updated_at` is refreshed by the column's `ON UPDATE CURRENT_TIMESTAMP`
  (src/database/db.js:55), so it changes only when some column value changes.
  `Repository.Updated` models that.
- Only `createTodo` checks the title; `updateTodo` forwards any title, a blank one included
  (`TodoController.UpdateDoesNotValidateTitle`).

## Model

| member | source | states |
|---|---|---|
| TodoModel.FromRow | src/models/Todo.js:7-14 | The Todo built from a row has the row's id and title. Its description is `''` exactly when the column is NULL or empty, and otherwise is the column's text. A falsy `completed` becomes `false` and a truthy one is kept as it is. `createdAt`/`updatedAt` are `created_at`/`updated_at`. |
| TodoModel.ToJSON | src/models/Todo.js:19-28 | `toJSON` copies id, title, description and the timestamps, and its boolean `completed` is true iff the Todo's `completed` is truthy. |
| TodoModel.JsonOfRow | src/models/Todo.js:19-28 | `toJSON` of a row's Todo has the row's id, title and timestamps and its description or `''`. Its boolean `completed` is true iff the row's `completed` was truthy. |
| TodoModel.JsonCompletedExamples | src/models/Todo.js:24 | A stored `1` serialises as `completed: true`; `0`, NULL, a missing value or `false` serialise as `false`. |
| TodoModel.FromRows | src/models/Todo.js:40-42 | `fromRows` has one Todo per row, and element i is `fromRow` of row i, so order is kept. |
| TodoModel.FromRowsAppend | src/models/Todo.js:40-42 | Mapping rows commutes with concatenation: each row is converted independently of the others. |
| JsText.TrimStart | src/controllers/todoController.js:10 | The result is a suffix of the input and the dropped prefix is all white space. The result is empty iff the input is all white space, and otherwise starts with a non-space character. |
| JsText.TrimEnd | src/controllers/todoController.js:10 | The result is a prefix of the input and the dropped suffix is all white space. The result is empty iff the input is all white space, and otherwise ends with a non-space character. |
| JsText.Trim | src/controllers/todoController.js:10 | `s.trim()` is `s` with a white-space prefix and a white-space suffix cut off; it starts and ends with a non-space character when not empty. So `s.trim() === ''` holds exactly when every character of `s` is white space. |
| JsText.AllSpaceConcat | src/controllers/todoController.js:10 | A concatenation is all white space iff both parts are. |
| SqlText.Join | src/repositories/todoRepository.js:79 | `parts.join(sep)` is empty for no parts, and otherwise starts with the first part and ends with the last. |
| SqlText.UpdateSql | src/repositories/todoRepository.js:79 | The UPDATE template adds exactly one placeholder, the id's, to those of the joined SET list. |
| SqlText.PlaceholdersJoin | src/repositories/todoRepository.js:79 | Joining entries that hold one `?` each, with a separator that holds none, gives one `?` per entry. |
| SqlText.UpdatePlaceholders | src/repositories/todoRepository.js:79 | `UPDATE todos SET <entries joined by ", "> WHERE id = ?` holds one more `?` than there are entries. |
| Repository.ClausePlaceholder | src/repositories/todoRepository.js:61-72 | Each SET entry `title = ?`, `description = ?`, `completed = ?` has exactly one placeholder. |
| Repository.SetList | src/repositories/todoRepository.js:58-72 | An update makes an assignment iff its field is supplied (not `undefined`), with the supplied value. The assignments run strictly in the order title, description, completed. There are none iff no field is supplied. |
| Repository.ClausesPlaceholders | src/repositories/todoRepository.js:58-72 | Every entry of a SET list has exactly one placeholder. |
| Repository.BuildSetClause | src/repositories/todoRepository.js:58-72 | The built `fields` and `values` have one entry per supplied field, in the fixed order. Entry i of `fields` is the clause of assignment i and entry i of `values` is its value. |
| Repository.BuildUpdate | src/repositories/todoRepository.js:74-80 | No statement is built iff no field is supplied. Otherwise the text is the UPDATE over the built clauses and the values are the SET values followed by the id. There is exactly one bound value per `?`. |
| Repository.StoredFlag | src/database/db.js:53 | A boolean written to the BOOLEAN column reads back as a value whose truthiness is that boolean. |
| Repository.ApplySetList | src/repositories/todoRepository.js:78-80 | Carrying out the SET assignments in order overwrites exactly the supplied columns with the supplied values. |
| Repository.Updated | src/repositories/todoRepository.js:78-80 | After the UPDATE, id and `created_at` are kept. Each supplied column holds its new value and each other column keeps its old one. `updated_at` becomes `now` iff some column value changed, and otherwise is unchanged. |
| Repository.UpdatedWithoutFields | src/repositories/todoRepository.js:74-76 | An update that supplies no field leaves the row exactly as it was, `updated_at` included. |
| Repository.WithoutSpec | src/repositories/todoRepository.js:90-95 | Removing a deleted id from the creation order keeps every other id and keeps the order increasing. It changes nothing when the id is absent. |
| Repository.NewestFirst | src/repositories/todoRepository.js:24 | `ORDER BY created_at DESC`: the result has one row per id, and position i holds the row of the i-th newest id. |
| Repository.NewestFirstDescending | src/repositories/todoRepository.js:23-28 | Read newest first, the Todos of rows created with increasing ids come in strictly decreasing id order. |
| Repository.NewestFirstComplete | src/repositories/todoRepository.js:23-28 | Every row of the table appears, as its Todo, in the newest-first listing. |
| Repository.NewestFirstTodos | src/repositories/todoRepository.js:23-28 | On a valid table the listing has exactly one Todo per row. Position i is `fromRow` of the i-th newest row, and ids strictly decrease. |
| Repository.InsertKeepsTable | src/repositories/todoRepository.js:10-17 | Inserting a row under the counter's id, at a time no earlier than any present row's, and appending the id to the creation order keeps the table valid with the counter moved on by one. |
| Repository.ReplaceKeepsTable | src/repositories/todoRepository.js:78-80 | Replacing a row by one with the same id and `created_at` keeps the table valid. |
| Repository.FromRowsHas | src/models/Todo.js:40-42 | The Todo of each row is among the Todos of the rows. |
| Repository.DeleteKeepsTable | src/repositories/todoRepository.js:90-95 | After a row is deleted, the creation order without its id lists exactly the remaining rows, in increasing id order. |
| Repository.TodoRepository.constructor | src/database/db.js:49-56 | A fresh table is empty and valid, and its first insert receives id 1. |
| Repository.TodoRepository.FindById | src/repositories/todoRepository.js:35-44 | Returns null iff no row has the id, and otherwise `fromRow` of that row. |
| Repository.TodoRepository.FindAll | src/repositories/todoRepository.js:23-28 | Returns exactly one Todo per row, as `fromRows` of the rows newest first, with strictly decreasing ids and non-increasing `createdAt`. An empty table gives the empty sequence. |
| Repository.TodoRepository.Create | src/repositories/todoRepository.js:10-17 | Given a clock that does not run backwards, inserts a row under a fresh id, the previous counter value. Its description is the given one or `''`, and `completed` is the column default false. The table grows by one and no other row changes. The result is the read-back Todo. |
| Repository.TodoRepository.Update | src/repositories/todoRepository.js:52-83 | An absent id gives null and no change. With no supplied field, the existing Todo comes back with no write. Otherwise only that row changes, to `Updated`, and the re-read Todo is returned. The invariant is kept. |
| Repository.TodoRepository.Delete | src/repositories/todoRepository.js:90-95 | Returns true iff a row with the id existed. Afterwards no such row exists, every other row is unchanged and the table shrank by one iff it returned true. |
| Repository.TodoRepository.DeleteAll | src/repositories/todoRepository.js:101-104 | The table is empty afterwards; the id counter is not reset. |
| TodoController.RejectsTitle | src/controllers/todoController.js:10 | `!title \|\| title.trim() === ''` rejects exactly the titles that are missing or have no non-white-space character. |
| TodoController.AllToJSON | src/controllers/todoController.js:28 | The mapped list has one JSON object per Todo, and element i is `toJSON` of Todo i. |
| TodoController.CreateTodo | src/controllers/todoController.js:6-20 | Status 400 `Title is required` iff the title is missing or blank. For a valid title it calls `create(title, description)`. A created Todo gives 201 with its JSON form; a failure, or no Todo, gives 500 `Failed to create todo`. |
| TodoController.CreateSkipsRepositoryOnBadTitle | src/controllers/todoController.js:10-14 | For a rejected title the response is the same whatever the repository would do, so it is not consulted. |
| TodoController.CreateIgnoresCompleted | src/controllers/todoController.js:8 | A `completed` field in a create request has no effect. |
| TodoController.BlankTitlesRejected | __tests__/integration/api.test.js:55-71 | A missing, an empty and a white-space-only title each get 400 `Title is required`. |
| TodoController.GetAllTodos | src/controllers/todoController.js:25-33 | On success the status is 200 with `toJSON` of every Todo in the repository's order, so an empty table gives `[]`. On failure it is 500 `Failed to fetch todos`. |
| TodoController.GetTodoById | src/controllers/todoController.js:38-52 | 404 `Todo not found` iff the repository returns null. A found Todo gives 200 with its JSON form, and a failure gives 500 `Failed to fetch todo`. |
| TodoController.UpdateFields | src/controllers/todoController.js:60-66 | The handler forwards exactly the body's title, description and completed. |
| TodoController.UpdateTodo | src/controllers/todoController.js:57-77 | 404 `Todo not found` iff the repository returns null for the forwarded fields. An updated Todo gives 200 with its JSON form, and a failure gives 500 `Failed to update todo`. |
| TodoController.UpdateDoesNotValidateTitle | src/controllers/todoController.js:60-72 | A blank or missing title in an update still gets 200 when the repository returns a Todo; there is no title check. |
| TodoController.DeleteTodo | src/controllers/todoController.js:82-96 | 404 `Todo not found` iff delete returns false. 200 `{message: 'Todo deleted successfully'}` iff it returns true. A failure gives 500 `Failed to delete todo`. |
| TodoController.FailuresHideTheCause | src/controllers/todoController.js:16-95 | For each handler a repository failure gives 500 with that handler's fixed message, identical whatever the failure's cause. |
| TodoController.StatusesAreKnown | src/controllers/todoController.js:6-96 | Create answers 201, 400 or 500; list answers 200 or 500; get, update and delete answer 200, 404 or 500. |
| Scenario.PostMilk | src/controllers/todoController.js:6-20 | Illustrative: creating "Buy milk" without a description on an empty table gives 201 with id 1, description `''` and `completed: false`, and stores that one row. |
| Scenario.GetMilk | src/controllers/todoController.js:38-52 | Illustrative: reading a stored Todo by id gives 200 with the JSON form of its row. |
| Scenario.CompleteMilk | src/controllers/todoController.js:57-77 | Illustrative: marking it completed gives 200 with `completed: true` and the new `updatedAt`. It stores the updated row. |
| Scenario.ListMilk | src/controllers/todoController.js:25-33 | Illustrative: listing a table with one row gives 200 with exactly that row's JSON form. |
| Scenario.DeleteMilk | src/controllers/todoController.js:82-96 | Illustrative: deleting the one row gives 200 with the confirmation and empties the table. |
| Scenario.MissingMilk | src/controllers/todoController.js:38-96 | Illustrative: on an empty table, delete and get by id both answer 404 `Todo not found`. |
| Scenario.BuyMilk | src/controllers/todoController.js:6-96 | Illustrative: the whole session on a fresh table yields, in order: 201, 200, 200 with `completed: true`, 200 with the one-element list, 200 with the confirmation, then 404 twice. |

## Left out

- src/database/db.js (the connection pool, its lazy singleton, query execution and table bootstrap) is replaced by the abstract table that is the repository's state. Timestamps are passed in as `now` parameters instead of coming from the database clock.
- Asynchrony and concurrency are not modelled; every operation runs alone. That includes the check-then-write race between `findById` and the UPDATE in `update`.
- `ORDER BY created_at DESC` is modelled by creation order. The invariant ties it to the timestamps: `Create` requires a `now` no earlier than any stored `created_at`, as the database clock provides, so ids and `created_at` never disagree. Two rows created within one timestamp tick have an unspecified order in MySQL; the model picks newest-id-first.
- `parseInt` on path ids is not modelled. Ids reach the handlers as integers, so a non-numeric id (`NaN`) is outside the model.
- Request fields are `Option` values, `None` being `undefined`. A JSON `null` is not distinguished, and non-string titles and descriptions are not modelled. For example, a numeric title makes `trim` throw, and the handler answers 500.
- An update's `completed` is a boolean. A non-boolean value sent to the BOOLEAN column (a string, a number other than 0 and 1) is not modelled.
- SQL text is modelled only as far as the UPDATE statement's shape and placeholder count. The INSERT, SELECT and DELETE statements are represented by their effect on the table, not by their text.
- Database errors (a lost connection, a title longer than VARCHAR(255)) are not derived from the table. The controller takes any repository outcome, including `Rejected`, as a parameter.
- Express wiring (app.js, routes, middleware, the catch-all 404 and 500 handlers, the health endpoint), process start-up and shutdown, and src/config/index.js are not part of this model. Logging through `console.error` is also out.
- Repository.TodoRepository.FindAll: membership of every row in the listing is stated by the lemma `NewestFirstComplete`, not in the method's own contract.
