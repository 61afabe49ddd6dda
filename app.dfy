/** The todo-list component's local state and the four handlers that update it
    when a request to the server finishes. The server's answer to each request
    is a parameter of the handler; each handler returns the request it would
    send, and runs to completion before the next one starts. */
module App {
  import opened Todos
  import opened Trim

  datatype Option<T> = None | Some(value: T)

  /** How a request ended, as far as the handler can tell. `Ok(v)`: the
      exchange completed and, where the handler reads the body, `res.json()`
      gave `v`. `Failed`: the `fetch` promise rejected or the body could not
      be decoded; the handler's code after the `await` never runs. */
  datatype Outcome<T> = Ok(value: T) | Failed

  /** The requests the component sends. Paths and headers are not modelled. */
  datatype Request =
    | Get                                  // GET    /todos
    | Post(title: string, completed: bool) // POST   /todos, body {title, completed}
    | Patch(id: int, completed: bool)      // PATCH  /todos/{id}, body {completed}
    | Delete(id: int)                      // DELETE /todos/{id}

  class ClientState {
    var todos: seq<Todo>
    var newTitle: string
    var loading: bool

    /** The initial values of the three pieces of state. */
    constructor ()
      ensures todos == [] && newTitle == "" && !loading
    {
      todos, newTitle, loading := [], "", false;
    }

    /** The compose field's change handler. */
    method EditTitle(value: string)
      modifies this
      ensures newTitle == value
      ensures todos == old(todos) && loading == old(loading)
    {
      newTitle := value;
    }

    /** Loads the whole list. The reply replaces the list as it is; a failure
        keeps the old list. Either way the loading flag ends up cleared. */
    method FetchTodos(outcome: Outcome<seq<Todo>>) returns (req: Request)
      modifies this
      ensures req == Get
      ensures outcome.Ok? ==> todos == outcome.value
      ensures outcome.Failed? ==> todos == old(todos)
      ensures !loading
      ensures newTitle == old(newTitle)
    {
      loading := true;
      req := Get;
      if outcome.Ok? {
        todos := outcome.value;
      }
      loading := false;
    }

    /** Submits the compose field. A blank title sends nothing and changes
        nothing. Otherwise the title goes out untrimmed and not completed; the
        created record is put first and the field is cleared. If the request
        fails, nothing changes. */
    method AddTodo(outcome: Outcome<Todo>) returns (req: Option<Request>)
      modifies this
      ensures IsBlank(old(newTitle)) ==> req == None
      ensures !IsBlank(old(newTitle)) ==> req == Some(Post(old(newTitle), false))
      ensures !IsBlank(old(newTitle)) && outcome.Ok? ==>
                todos == Prepend(outcome.value, old(todos)) && newTitle == ""
      ensures IsBlank(old(newTitle)) || outcome.Failed? ==>
                todos == old(todos) && newTitle == old(newTitle)
      ensures loading == old(loading)
    {
      if IsBlank(newTitle) {
        return None;
      }
      req := Some(Post(newTitle, false));
      if outcome.Ok? {
        todos := Prepend(outcome.value, todos);
        newTitle := "";
      }
    }

    /** Flips `todo`'s completed flag on the server, then puts the server's
        record in place of every local record with the server's id. If the
        request fails, nothing changes. */
    method ToggleTodo(todo: Todo, outcome: Outcome<Todo>) returns (req: Request)
      modifies this
      ensures req == Patch(todo.id, !todo.completed)
      ensures outcome.Ok? ==> todos == ReplaceById(old(todos), outcome.value)
      ensures outcome.Failed? ==> todos == old(todos)
      ensures newTitle == old(newTitle) && loading == old(loading)
    {
      req := Patch(todo.id, !todo.completed);
      if outcome.Ok? {
        todos := ReplaceById(todos, outcome.value);
      }
    }

    /** Deletes on the server, then drops every local record with that id.
        The reply's status and body are never looked at: any reply counts
        (`Ok(())`); only a rejected `fetch` (`Failed`) leaves the list as it
        was. */
    method DeleteTodo(todoId: int, outcome: Outcome<()>) returns (req: Request)
      modifies this
      ensures req == Delete(todoId)
      ensures outcome.Ok? ==> todos == RemoveById(old(todos), todoId)
      ensures outcome.Failed? ==> todos == old(todos)
      ensures newTitle == old(newTitle) && loading == old(loading)
    {
      req := Delete(todoId);
      if outcome.Ok? {
        todos := RemoveById(todos, todoId);
      }
    }
  }

  /** Loading a one-record list and then creating a second record puts the
      new record first. */
  method CreateScenario() returns (c: ClientState, sent: Option<Request>)
    ensures sent == Some(Post("b", false))
    ensures c.todos == [Todo(2, "b", false), Todo(1, "a", false)]
    ensures c.newTitle == "" && !c.loading
  {
    c := new ClientState();
    var req := c.FetchTodos(Ok([Todo(1, "a", false)]));
    var title := "b";
    c.EditTitle(title);
    assert title[0] == 'b';
    VisibleCharNotBlank(title, 0);
    sent := c.AddTodo(Ok(Todo(2, "b", false)));
  }

  /** A blank compose field sends nothing and leaves the list and the field as
      they were, whatever the server would have answered. */
  method BlankScenario(reply: Outcome<Todo>) returns (c: ClientState, sent: Option<Request>)
    ensures sent == None
    ensures c.todos == [Todo(1, "a", false)] && c.newTitle == "   "
  {
    c := new ClientState();
    var req := c.FetchTodos(Ok([Todo(1, "a", false)]));
    c.EditTitle("   ");
    BlankExamples();
    sent := c.AddTodo(reply);
  }

  /** Toggling a record keeps its position; a failed reload afterwards keeps
      the list. */
  method ToggleScenario() returns (c: ClientState)
    ensures c.todos == [Todo(2, "b", false), Todo(1, "a", true)] && !c.loading
  {
    c := new ClientState();
    var req := c.FetchTodos(Ok([Todo(2, "b", false), Todo(1, "a", false)]));
    req := c.ToggleTodo(Todo(1, "a", false), Ok(Todo(1, "a", true)));
    assert req == Patch(1, true);
    assert c.todos[0] == Todo(2, "b", false) && c.todos[1] == Todo(1, "a", true);
    req := c.FetchTodos(Failed);
  }

  /** Deleting a record leaves the others, whatever the reply said. */
  method DeleteScenario() returns (c: ClientState)
    ensures c.todos == [Todo(2, "b", false)]
  {
    var before := [Todo(1, "a", false), Todo(2, "b", false)];
    c := new ClientState();
    var req := c.FetchTodos(Ok(before));
    assert before[1..] == [Todo(2, "b", false)] && before[1..][1..] == [];
    req := c.DeleteTodo(1, Ok(()));
  }
}
