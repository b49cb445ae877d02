/** The browser client's `TaskManager`: its three fields and how each
    handler changes them on every path. The server's answer to a request is
    a parameter of the handler that sends it; a reload is reported as a
    flag in the outcome, to be followed by a `LoadTasks` call. */
module TaskClient {
  import opened Tasks
  import opened Text
  import opened TaskView
  import TaskStore

  // ---- requests and responses ---------------------------------------------

  /** The JSON fields of a server answer that the client reads. */
  datatype Reply = Reply(success: bool, message: Option<string>, error: Option<string>, tasks: seq<Task>)

  /** What `fetch` and `response.json()` deliver: an answer, or an
      exception (no connection, or a body that is not JSON). */
  datatype Response = Answered(reply: Reply) | ConnectionFailed

  datatype Verb = GET | POST | PUT | DELETE | PATCH

  datatype Request = Request(verb: Verb, path: string, body: Option<FormData>)

  const TasksPath: string := "/api/tasks"

  /** `/api/tasks/${id}`: the collection path, a slash, and the id. */
  function TaskPath(id: int): (p: string)
    ensures TasksPath + "/" <= p && p[|TasksPath| + 1..] == IntToString(id)
  {
    TasksPath + "/" + IntToString(id)
  }

  /** `/api/tasks/${id}/toggle` */
  function TogglePath(id: int): (p: string)
    ensures TaskPath(id) <= p && p[|TaskPath(id)|..] == "/toggle"
  {
    TaskPath(id) + "/toggle"
  }

  /** A toggle address is never the plain address of a task, because a task
      address ends in a digit. */
  lemma TogglePathDistinct(a: int, b: int)
    ensures TogglePath(a) != TaskPath(b)
  {
    var p := TaskPath(b);
    var d := IntToString(b);
    assert p[|p| - 1] == d[|d| - 1];
    assert TogglePath(a)[|TogglePath(a)| - 1] == 'e';
  }

  /** Each task has its own address. */
  lemma TaskPathInjective(a: int, b: int)
    requires TaskPath(a) == TaskPath(b)
    ensures a == b
  {
    var n := |TasksPath + "/"|;
    assert IntToString(a) == TaskPath(a)[n..];
    assert IntToString(b) == TaskPath(b)[n..];
    IntToStringInjective(a, b);
  }

  /** A pop-up notification. */
  datatype Notice = Success(message: Option<string>) | Failure(text: string)

  /** What a handler did: nothing sent (with the validation message, if
      any), or a request sent, the notice shown for its answer and whether
      the list is reloaded. */
  datatype Outcome =
    | NotSent(invalid: Option<string>)
    | Sent(request: Request, notice: Notice, reload: bool)

  /** The notice for an answer and whether a reload follows: the server's
      message on success, its error or the handler's fallback otherwise,
      and a fixed text when no answer came. */
  function Settle(response: Response, fallback: string): (r: (Notice, bool))
    ensures r.1 <==> response.Answered? && response.reply.success
    ensures r.1 ==> r.0 == Success(response.reply.message)
    ensures response.Answered? && !response.reply.success ==>
      r.0 == Failure(ErrorText(response.reply.error, fallback))
    ensures response.ConnectionFailed? ==> r.0 == Failure("Failed to connect to server")
  {
    match response
    case ConnectionFailed => (Failure("Failed to connect to server"), false)
    case Answered(reply) =>
      if reply.success then (Success(reply.message), true)
      else (Failure(ErrorText(reply.error, fallback)), false)
  }

  /** The result of `loadTasks`: the rendered list, or the error shown. */
  datatype Loaded = Listed(view: View) | LoadFailed(error: string)

  /** The request a valid form sends: PUT to the edited task's address
      while editing, otherwise POST to the collection. */
  function SubmitRequest(editing: Option<Task>, form: FormData): (r: Request)
    ensures r.body == Some(form)
    ensures r.verb == PUT <==> editing.Some?
    ensures editing.Some? ==> r.path == TaskPath(editing.value.id)
    ensures editing.None? ==> r == Request(POST, TasksPath, Some(form))
  {
    if editing.Some? then Request(PUT, TaskPath(editing.value.id), Some(form))
    else Request(POST, TasksPath, Some(form))
  }

  /** The form values `editTask` fills in; `localInput` stands for the
      conversion of a due instant to the datetime-local input text. */
  function EditForm(task: Task, localInput: int -> string): (r: FormInput)
    ensures r.title == task.title && r.description == task.description && r.priority == task.priority
    ensures task.dueDate.None? ==> r.dueDate == ""
  {
    FormInput(task.title, task.description, task.priority,
      if task.dueDate.Some? then localInput(task.dueDate.value) else "")
  }

  /** Reading back the form `editTask` filled in gives the task's own
      title, and likewise its description, exactly when JavaScript's trim
      leaves it alone; the priority always comes back. */
  lemma EditFormRoundTrip(task: Task, localInput: int -> string)
    ensures var form := GetFormData(EditForm(task, localInput));
      && (form.title == task.title <==> IsStripped(JavaScript, task.title))
      && (form.description == task.description <==> IsStripped(JavaScript, task.description))
      && form.priority == task.priority
      && (task.dueDate.None? ==> form.dueDate.None?)
  {
    if IsStripped(JavaScript, task.title) {
      StripStripped(JavaScript, task.title);
    }
    if IsStripped(JavaScript, task.description) {
      StripStripped(JavaScript, task.description);
    }
  }

  /** A field the server stored comes back unchanged from the edit form
      unless it starts or ends with U+FEFF, the one character JavaScript
      trims and Python keeps. */
  lemma StoredFieldRoundTrip(s: string)
    requires IsStripped(Python, s)
    requires s == [] || (s[0] != '\U{FEFF}' && s[|s| - 1] != '\U{FEFF}')
    ensures Strip(JavaScript, s) == s
  {
    StripStripped(JavaScript, s);
  }

  // ---- the controller -----------------------------------------------------

  class TaskManager {
    var tasks: seq<Task>
    var currentFilter: string
    var editingTask: Option<Task>

    /** The initial load that `init` starts is a separate `LoadTasks`. */
    constructor ()
      ensures tasks == [] && currentFilter == "all" && editingTask == None
    {
      tasks := [];
      currentFilter := "all";
      editingTask := None;
    }

    /** `loadTasks`: the cache is replaced wholesale, and only by a
      successful answer. */
    method LoadTasks(response: Response) returns (o: Loaded)
      modifies this`tasks
      ensures response.Answered? && response.reply.success ==>
        tasks == response.reply.tasks && o == Listed(Render(tasks, currentFilter))
      ensures response.Answered? && !response.reply.success ==>
        tasks == old(tasks) && o == LoadFailed(ErrorText(response.reply.error, "Failed to load tasks"))
      ensures response.ConnectionFailed? ==>
        tasks == old(tasks) && o == LoadFailed("Failed to connect to server")
    {
      match response
      case ConnectionFailed =>
        o := LoadFailed("Failed to connect to server");
      case Answered(reply) =>
        if reply.success {
          tasks := reply.tasks;
          o := Listed(Render(tasks, currentFilter));
        } else {
          o := LoadFailed(ErrorText(reply.error, "Failed to load tasks"));
        }
    }

    /** `handleFormSubmit`: an invalid form sends nothing and changes
      nothing; a valid one is sent, and only a successful answer ends the
      edit and reloads. */
    method HandleFormSubmit(input: FormInput, response: Response) returns (o: Outcome)
      modifies this`editingTask
      ensures tasks == old(tasks)
      ensures var form := GetFormData(input);
        && (ValidateForm(form).Some? ==> o == NotSent(ValidateForm(form)) && editingTask == old(editingTask))
        && (ValidateForm(form).None? ==>
              && o.Sent? && o.request == SubmitRequest(old(editingTask), form)
              && (o.notice, o.reload) == Settle(response, "Operation failed")
              && editingTask == (if o.reload then None else old(editingTask)))
    {
      var form := GetFormData(input);
      var invalid := ValidateForm(form);
      if invalid.Some? {
        return NotSent(invalid);
      }
      var request := SubmitRequest(editingTask, form);
      var (notice, reload) := Settle(response, "Operation failed");
      if reload {
        ResetForm();
      }
      o := Sent(request, notice, reload);
    }

    /** `deleteTask`: nothing is sent unless the user confirms. */
    method DeleteTask(taskId: int, confirmed: bool, response: Response) returns (o: Outcome)
      ensures !confirmed ==> o == NotSent(None)
      ensures confirmed ==>
        && o.Sent? && o.request == Request(DELETE, TaskPath(taskId), None)
        && (o.notice, o.reload) == Settle(response, "Failed to delete task")
    {
      if !confirmed {
        return NotSent(None);
      }
      var (notice, reload) := Settle(response, "Failed to delete task");
      o := Sent(Request(DELETE, TaskPath(taskId), None), notice, reload);
    }

    /** `toggleTaskCompletion` */
    method ToggleTaskCompletion(taskId: int, response: Response) returns (o: Outcome)
      ensures o.Sent? && o.request == Request(PATCH, TogglePath(taskId), None)
      ensures (o.notice, o.reload) == Settle(response, "Failed to update task")
    {
      var (notice, reload) := Settle(response, "Failed to update task");
      o := Sent(Request(PATCH, TogglePath(taskId), None), notice, reload);
    }

    /** `editTask`: the task becomes the one being edited and its values
      fill the form. */
    method EditTask(task: Task, localInput: int -> string) returns (form: FormInput)
      modifies this`editingTask
      ensures editingTask == Some(task) && form == EditForm(task, localInput)
    {
      editingTask := Some(task);
      form := EditForm(task, localInput);
    }

    /** `cancelEdit` */
    method CancelEdit()
      modifies this`editingTask
      ensures editingTask == None
    {
      editingTask := None;
      ResetForm();
    }

    /** `resetForm`: besides clearing the inputs, it ends any edit. */
    method ResetForm()
      modifies this`editingTask
      ensures editingTask == None
    {
      editingTask := None;
    }

    /** `setFilter`: the value is stored as given, recognised or not, and
      the list is rendered through it. */
    method SetFilter(filter: string) returns (v: View)
      modifies this`currentFilter
      ensures currentFilter == filter && v == Render(tasks, filter)
    {
      currentFilter := filter;
      v := Render(tasks, currentFilter);
    }
  }

  // ---- sequences of handler calls -----------------------------------------

  /** Editing one task and then another leaves the second one in the form. */
  method EditTwice(m: TaskManager, a: Task, b: Task, localInput: int -> string) returns (form: FormInput)
    modifies m
    ensures m.editingTask == Some(b) && form == EditForm(b, localInput)
    ensures m.tasks == old(m.tasks) && m.currentFilter == old(m.currentFilter)
  {
    var _ := m.EditTask(a, localInput);
    form := m.EditTask(b, localInput);
  }

  /** Choosing the same filter twice shows the same list both times. */
  method SetFilterTwice(m: TaskManager, filter: string) returns (first: View, second: View)
    modifies m
    ensures first == second && m.currentFilter == filter
    ensures m.tasks == old(m.tasks) && m.editingTask == old(m.editingTask)
  {
    first := m.SetFilter(filter);
    second := m.SetFilter(filter);
  }

  /** A successful edit followed by a successful reload: the edit is over
      and the cache is exactly what the server listed. */
  method SubmitThenReload(m: TaskManager, input: FormInput, answer: Response, listing: Response)
    returns (o: Outcome, l: Loaded)
    requires ValidateForm(GetFormData(input)).None?
    requires answer.Answered? && answer.reply.success
    requires listing.Answered? && listing.reply.success
    modifies m
    ensures m.editingTask == None && m.tasks == listing.reply.tasks
    ensures l == Listed(Render(listing.reply.tasks, m.currentFilter))
  {
    o := m.HandleFormSubmit(input, answer);
    if o.Sent? && o.reload {
      l := m.LoadTasks(listing);
    } else {
      assert false;
      l := LoadFailed("");
    }
  }

  // ---- what the server does with a submitted form --------------------------

  /** `JSON.stringify(formData)` as the body the server reads: all four
      keys are always present, and an empty due date is null. */
  function FormBody(form: FormData): (body: TaskStore.Body)
    ensures |body| > 0
  {
    var due := if form.dueDate.Some? then TaskStore.Str(form.dueDate.value) else TaskStore.Null;
    var body := map[
      TaskStore.TitleField := TaskStore.Str(form.title),
      TaskStore.DescriptionField := TaskStore.Str(form.description),
      TaskStore.PriorityField := TaskStore.Str(form.priority),
      TaskStore.DueDateField := due];
    assert TaskStore.TitleField in body;
    body
  }

  /** A form that passes the client's validation is created by the server
      unless its title is, to Python, all whitespace (it can hold U+001C to
      U+001F or U+0085, which JavaScript's trim keeps) or its due date does
      not parse. The row holds the form's title and description as Python
      strips them. */
  lemma SubmittedFormCreates(input: FormInput, parse: string -> Option<int>, id: int, now: int)
    requires ValidateForm(GetFormData(input)).None?
    ensures var form := GetFormData(input);
      var b := TaskStore.NewTask(FormBody(form), parse, id, now);
      && (AllSpace(Python, form.title) ==> b == TaskStore.Refused(400, "Title cannot be empty"))
      && (!AllSpace(Python, form.title) && form.dueDate.Some? && parse(form.dueDate.value).None? ==>
            b == TaskStore.Refused(400, "Invalid due date format"))
      && (b.Built? <==> !AllSpace(Python, form.title) && (form.dueDate.None? || parse(form.dueDate.value).Some?))
      && (b.Built? ==>
            && b.task.title == Strip(Python, form.title)
            && b.task.description == Strip(Python, form.description)
            && b.task.completed == false)
  {
    var form := GetFormData(input);
    var body := FormBody(form);
    StripEmptyIff(Python, form.title);
    assert TaskStore.CreateDescriptionOk(body);
    if TaskStore.NewTask(body, parse, id, now).Built? {
      TaskStore.NewTaskRecord(body, parse, id, now);
    }
  }

  /** Submitting the edit form never changes a task's completion flag. It
      is refused for a title that Python counts as all whitespace and for a
      bad due date; otherwise it replaces the title and description with
      the form's as Python strips them, and clears the due date when the
      input is empty. */
  lemma SubmittedFormUpdates(was: Task, input: FormInput, parse: string -> Option<int>, now: int)
    requires ValidateForm(GetFormData(input)).None?
    ensures var form := GetFormData(input);
      var b := TaskStore.Revised(was, FormBody(form), parse, now);
      && (AllSpace(Python, form.title) ==> b == TaskStore.Refused(400, "Title cannot be empty"))
      && (!AllSpace(Python, form.title) && form.dueDate.Some? && parse(form.dueDate.value).None? ==>
            b == TaskStore.Refused(400, "Invalid due date format"))
      && (b.Built? <==> !AllSpace(Python, form.title) && (form.dueDate.None? || parse(form.dueDate.value).Some?))
      && (b.Built? ==>
            && b.task.title == Strip(Python, form.title)
            && b.task.description == Strip(Python, form.description)
            && b.task.completed == was.completed
            && (form.dueDate.None? ==> b.task.dueDate == None))
  {
    var form := GetFormData(input);
    var body := FormBody(form);
    StripEmptyIff(Python, form.title);
    assert TaskStore.UpdateDescriptionOk(body);
    if TaskStore.Revised(was, body, parse, now).Built? {
      TaskStore.RevisedRecord(was, body, parse, now);
    }
  }

  /** When the typed title has none of the characters on which the two
      runtimes' whitespace differs, the server keeps the title the client
      validated, and never finds it blank. */
  lemma SubmittedTitleKept(input: FormInput)
    requires ValidateForm(GetFormData(input)).None? && SpacesAgree(input.title)
    ensures var title := GetFormData(input).title;
      Strip(Python, title) == title && !AllSpace(Python, title)
  {
    var title := GetFormData(input).title;
    StripAgree(input.title);
    StripIdempotent(Python, input.title);
    StripEmptyIff(Python, title);
  }

  /** The two whitespace sets do meet in practice: a title of one U+001C
      passes the client's checks and is refused by the server. */
  lemma SeparatorTitleRefused(parse: string -> Option<int>, id: int, now: int)
    ensures var input := FormInput("\U{1C}", "", "medium", "");
      && ValidateForm(GetFormData(input)).None?
      && TaskStore.NewTask(FormBody(GetFormData(input)), parse, id, now)
           == TaskStore.Refused(400, "Title cannot be empty")
  {
    var input := FormInput("\U{1C}", "", "medium", "");
    assert Strip(JavaScript, input.title) == input.title;
    var form := GetFormData(input);
    assert AllSpace(Python, form.title);
    SubmittedFormCreates(input, parse, id, now);
  }
}
