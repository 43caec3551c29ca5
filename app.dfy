/** The `TaskApp` component's state and its four request handlers. Each
    handler is one atomic step: it is given how its round trip ended and
    returns the request it issued. */
module App {
  import opened Tasks
  import opened TaskInput

  datatype Option<T> = None | Some(value: T)

  /** How a `fetch` round trip ended. `NetworkError`: `fetch` itself threw.
      `Received`: the server answered with some HTTP status (which no handler
      reads) and a body that `response.json()` either parsed (`Some`) or
      threw on (`None`). */
  datatype Response<T> = NetworkError | Received(status: int, body: Option<T>)
  {
    /** The handler's `try` block reached its state update. */
    predicate Parsed()
    {
      Received? && body.Some?
    }
  }

  /** The requests the handlers send to the task collection resource. */
  datatype Request =
    | Get                                // GET    /tasks/
    | Post(title: string)                // POST   /tasks/       {title}
    | Patch(id: TaskId, completed: bool) // PATCH  /tasks/{id}/  {completed}
    | Delete(id: TaskId)                 // DELETE /tasks/{id}/

  class TaskApp {
    var tasks: seq<Task>
    var newTask: string
    var loading: bool

    /** The component's initial state. */
    constructor ()
      ensures tasks == [] && newTask == "" && !loading
    {
      tasks, newTask, loading := [], "", false;
    }

    /** The text field's change handler. */
    method SetNewTask(text: string)
      modifies this
      ensures newTask == text
      ensures tasks == old(tasks) && loading == old(loading)
    {
      newTask := text;
    }

    /** `fetchTasks`: a parsed answer replaces the whole list; anything else
        leaves the list as it was. */
    method FetchTasks(response: Response<seq<Task>>) returns (sent: Request)
      modifies this
      ensures sent == Get
      ensures tasks == if response.Parsed() then response.body.value else old(tasks)
      ensures newTask == old(newTask) && loading == old(loading)
    {
      sent := Get;
      if response.Parsed() {
        tasks := response.body.value;
      }
    }

    /** `addTask`: blank text issues nothing and changes nothing. Otherwise the
        untrimmed text is posted with `loading` raised; a parsed answer is
        appended and the text cleared; `loading` ends lowered either way. */
    method AddTask(response: Response<Task>) returns (sent: Option<Request>)
      modifies this
      ensures IsBlank(old(newTask)) ==>
        && sent == None
        && tasks == old(tasks) && newTask == old(newTask) && loading == old(loading)
      ensures !IsBlank(old(newTask)) ==>
        && sent == Some(Post(old(newTask)))
        && !loading
        && (response.Parsed() ==> tasks == old(tasks) + [response.body.value] && newTask == "")
        && (!response.Parsed() ==> tasks == old(tasks) && newTask == old(newTask))
    {
      if IsBlank(newTask) {
        return None;
      }
      loading := true;
      sent := Some(Post(newTask));
      if response.Parsed() {
        tasks := tasks + [response.body.value];
        newTask := "";
      }
      loading := false;
    }

    /** `toggleTask`: asks for the negation of the status shown; a parsed
        answer replaces every task carrying `id`. */
    method ToggleTask(id: TaskId, currentStatus: bool, response: Response<Task>) returns (sent: Request)
      modifies this
      ensures sent == Patch(id, !currentStatus)
      ensures tasks == if response.Parsed() then ReplaceById(old(tasks), id, response.body.value) else old(tasks)
      ensures newTask == old(newTask) && loading == old(loading)
    {
      sent := Patch(id, !currentStatus);
      if response.Parsed() {
        tasks := ReplaceById(tasks, id, response.body.value);
      }
    }

    /** `deleteTask`: the answer is never inspected, so any answer at all,
        whatever its status or body, removes every task carrying `id`; only
        a network error leaves the list as it was. */
    method DeleteTask(id: TaskId, response: Response<()>) returns (sent: Request)
      modifies this
      ensures sent == Delete(id)
      ensures tasks == if response.Received? then RemoveById(old(tasks), id) else old(tasks)
      ensures newTask == old(newTask) && loading == old(loading)
    {
      sent := Delete(id);
      if response.Received? {
        tasks := RemoveById(tasks, id);
      }
    }
  }

  /** A server that honours an update request answers with the task it names,
      carrying the requested status. */
  predicate Honours(request: Request, answer: Task)
  {
    request.Patch? ==> answer.id == request.id && answer.completed == request.completed
  }

  /** Toggling a task shown with `currentStatus` against a server that honours
      the request leaves every task carrying `id` with the opposite status and
      moves those tasks between the completed and pending counts. */
  lemma {:induction false} ToggleNegates(ts: seq<Task>, id: TaskId, currentStatus: bool, answer: Task)
    requires Honours(Patch(id, !currentStatus), answer)
    requires forall k :: 0 <= k < |ts| && ts[k].id == id ==> ts[k].completed == currentStatus
    ensures forall k :: 0 <= k < |ts| && ts[k].id == id ==> ReplaceById(ts, id, answer)[k].completed == !currentStatus
    ensures Summarize(ReplaceById(ts, id, answer)).total == Summarize(ts).total
    ensures Summarize(ReplaceById(ts, id, answer)).completed
         == if currentStatus then Summarize(ts).completed - CountId(ts, id)
            else Summarize(ts).completed + CountId(ts, id)
  {
    if ts != [] {
      assert ReplaceById(ts, id, answer)[1..] == ReplaceById(ts[1..], id, answer);
      ToggleNegates(ts[1..], id, currentStatus, answer);
    }
  }

  /** Empty list, create "Buy milk", toggle it, delete it: the list is empty
      again. The delete is answered with a 404 and still removes the task. */
  method BuyMilkScenario(id: TaskId)
  {
    var app := new TaskApp();
    app.SetNewTask("Buy milk");
    assert app.newTask[0] == 'B' && !IsWhitespace('B');
    assert !IsBlank(app.newTask);
    var created := Task(id, "Buy milk", false);
    var sent := app.AddTask(Received(201, Some(created)));
    assert sent == Some(Post("Buy milk"));
    assert app.tasks == [created] && app.newTask == "" && !app.loading;

    var update := app.ToggleTask(id, false, Received(200, Some(created.(completed := true))));
    assert update == Patch(id, true);
    var done := created.(completed := true);
    assert app.tasks == [done] == [] + [done];
    SummarizeEmpty();
    SummarizeAppend([], done);
    assert Summarize(app.tasks) == Summary(1, 1, 0);

    var delete := app.DeleteTask(id, Received(404, None));
    RemoveUndoesAppend([], done);
    assert app.tasks == [];
  }

  /** Submitting the empty input field issues no request and changes nothing. */
  method BlankAddScenario()
  {
    var app := new TaskApp();
    assert IsBlank(app.newTask);
    var sent := app.AddTask(NetworkError);
    assert sent == None && app.tasks == [] && !app.loading;
  }
}
