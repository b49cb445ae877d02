/** The HTTP task API of routes.py as operations on an id-keyed table of
    task rows. Each handler answers with a success record or one of the
    handler's own error strings; an error answer leaves the table as it was
    (the handler returns before committing, or rolls back). */
module TaskStore {
  import opened Tasks
  import opened Text

  /** A scalar value of a JSON request body. */
  datatype Value = Null | Bool(b: bool) | Num(n: int) | Str(s: string)

  /** Python truthiness of a JSON value. */
  predicate Truthy(v: Value) {
    match v
    case Null => false
    case Bool(b) => b
    case Num(n) => n != 0
    case Str(s) => s != ""
  }

  /** The keys of a request body the handlers read; any other key only
      makes the body non-empty. An `OtherField` name is never one of
      "title", "description", "priority", "due_date" or "completed": those
      keys are the five constructors before it. */
  datatype Field =
    | TitleField | DescriptionField | PriorityField | DueDateField | CompletedField
    | OtherField(name: string)

  /** A decoded JSON request body; the empty map also stands for a request
      without a body, since the handlers treat both alike (`if not data`). */
  type Body = map<Field, Value>

  /** `data.get(key, default)` */
  function Get(data: Body, key: Field, default: Value): Value {
    if key in data then data[key] else default
  }

  /** A handler's answer: HTTP status with a message and possibly the
      task, or HTTP status with an error string. */
  datatype Answer =
    | Ok(status: nat, message: string, task: Option<Task>)
    | Err(status: nat, error: string)

  /** The answer of GET /api/tasks. */
  datatype ListReply = ListReply(tasks: seq<Task>, count: nat)

  /** What every stored row satisfies: it sits under its own id, its title
      is stripped and non-empty, its description is stripped and its
      priority is one of the three accepted values. */
  predicate Stored(k: int, t: Task) {
    && t.id == k
    && t.title != [] && IsStripped(Python, t.title)
    && IsStripped(Python, t.description)
    && IsPriority(t.priority)
  }

  predicate KeyedById(rows: map<int, Task>) {
    forall k :: k in rows ==> rows[k].id == k
  }

  // ---- request body rules -------------------------------------------------

  /** Create's title is present, a string, and not blank. */
  predicate CreateTitleOk(data: Body) {
    TitleField in data && data[TitleField].Str? && Strip(Python, data[TitleField].s) != []
  }

  /** Create calls `.strip()` on the description when it is present. */
  predicate CreateDescriptionOk(data: Body) {
    DescriptionField !in data || data[DescriptionField].Str?
  }

  /** Update's title, when present, is a string that is not blank. */
  predicate UpdateTitleOk(data: Body) {
    TitleField !in data || (data[TitleField].Str? && Strip(Python, data[TitleField].s) != [])
  }

  /** Update calls `.strip()` on a truthy description. */
  predicate UpdateDescriptionOk(data: Body) {
    DescriptionField !in data || !Truthy(data[DescriptionField]) || data[DescriptionField].Str?
  }

  /** A truthy due date is a string that the date parser accepts. */
  predicate DueDateOk(data: Body, parse: string -> Option<int>) {
    !Truthy(Get(data, DueDateField, Null)) || (data[DueDateField].Str? && parse(data[DueDateField].s).Some?)
  }

  /** The due date a body asks for: a falsy one means none. */
  function DueDateOf(data: Body, parse: string -> Option<int>): Option<int>
    requires DueDateOk(data, parse)
  {
    if Truthy(Get(data, DueDateField, Null)) then parse(data[DueDateField].s) else None
  }

  // ---- GET /api/tasks -----------------------------------------------------

  /** The `completed` and `priority` query filters: `completed` is compared
      after lower-casing with "true"; an empty `priority` filters nothing. */
  predicate Matches(t: Task, completed: Option<string>, priority: Option<string>) {
    && (completed.Some? ==> t.completed == (Lower(completed.value) == "true"))
    && (priority.Some? && priority.value != "" ==> t.priority == priority.value)
  }

  /** Newest first; rows created at the same instant by ascending id. */
  predicate Precedes(a: Task, b: Task) {
    a.createdAt > b.createdAt || (a.createdAt == b.createdAt && a.id < b.id)
  }

  /** Among `keys`, the row under `k` comes no later than the row under `j`. */
  predicate RanksFirst(m: map<int, Task>, k: int, j: int)
    requires k in m && j in m
  {
    m[k].createdAt > m[j].createdAt || (m[k].createdAt == m[j].createdAt && k <= j)
  }

  lemma FirstExists(m: map<int, Task>, keys: set<int>)
    requires keys != {} && keys <= m.Keys
    ensures exists k :: k in keys && forall j :: j in keys ==> RanksFirst(m, k, j)
    decreases keys
  {
    if forall k :: k !in keys {
      assert false;
    }
    var k0 :| k0 in keys;
    var rest := keys - {k0};
    if rest == {} {
      assert keys == {k0};
      assert RanksFirst(m, k0, k0);
    } else {
      FirstExists(m, rest);
      var k1 :| k1 in rest && forall j :: j in rest ==> RanksFirst(m, k1, j);
      if RanksFirst(m, k0, k1) {
        assert forall j :: j in keys ==> RanksFirst(m, k0, j) by {
          forall j | j in keys ensures RanksFirst(m, k0, j) {
            if j != k0 { assert j in rest && RanksFirst(m, k1, j); }
          }
        }
      } else {
        assert forall j :: j in keys ==> RanksFirst(m, k1, j) by {
          forall j | j in keys ensures RanksFirst(m, k1, j) {
            if j != k0 { assert j in rest && RanksFirst(m, k1, j); }
          }
        }
      }
    }
  }

  /** The key among `keys` whose row comes first. */
  function FirstKey(m: map<int, Task>, keys: set<int>): (k: int)
    requires keys != {} && keys <= m.Keys
    ensures k in keys && forall j :: j in keys ==> RanksFirst(m, k, j)
  {
    FirstExists(m, keys);
    var k :| k in keys && forall j :: j in keys ==> RanksFirst(m, k, j);
    k
  }

  /** The rows of `m` under `keys`, newest first
      (`order_by(Task.created_at.desc())`). */
  function NewestFirst(m: map<int, Task>, keys: set<int>): (r: seq<Task>)
    requires KeyedById(m) && keys <= m.Keys
    ensures |r| == |keys|
    ensures forall i :: 0 <= i < |r| ==> r[i].id in keys && m[r[i].id] == r[i]
    ensures forall k :: k in keys ==> m[k] in r
    ensures forall i, j :: 0 <= i < j < |r| ==> Precedes(r[i], r[j])
    decreases keys
  {
    if keys == {} then []
    else
      var k := FirstKey(m, keys);
      [m[k]] + NewestFirst(m, keys - {k})
  }

  /** GET /api/tasks: exactly the matching rows, each once, newest first,
      with their number. */
  function Listing(rows: map<int, Task>, completed: Option<string>, priority: Option<string>): (r: ListReply)
    requires KeyedById(rows)
    ensures r.count == |r.tasks|
    ensures forall i :: 0 <= i < |r.tasks| ==>
      Matches(r.tasks[i], completed, priority) && r.tasks[i].id in rows && rows[r.tasks[i].id] == r.tasks[i]
    ensures forall k :: k in rows && Matches(rows[k], completed, priority) ==> rows[k] in r.tasks
    ensures forall i, j :: 0 <= i < j < |r.tasks| ==> Precedes(r.tasks[i], r.tasks[j])
  {
    var tasks := NewestFirst(rows, Selected(rows, completed, priority));
    ListReply(tasks, |tasks|)
  }

  /** Newest-first order never lists a row twice. */
  lemma ListingDistinct(rows: map<int, Task>, completed: Option<string>, priority: Option<string>)
    requires KeyedById(rows)
    ensures var ts := Listing(rows, completed, priority).tasks;
      forall i, j :: 0 <= i < j < |ts| ==> ts[i].id != ts[j].id
  {
  }

  /** The ids of the rows the filters let through. */
  function Selected(rows: map<int, Task>, completed: Option<string>, priority: Option<string>): (r: set<int>)
    ensures forall k :: k in r <==> k in rows && Matches(rows[k], completed, priority)
  {
    set k | k in rows && Matches(rows[k], completed, priority)
  }

  lemma SelectedCompletedSplit(rows: map<int, Task>, priority: Option<string>)
    ensures |Selected(rows, Some("true"), priority)| + |Selected(rows, Some("false"), priority)|
         == |Selected(rows, None, priority)|
  {
    var done := Selected(rows, Some("true"), priority);
    var open := Selected(rows, Some("false"), priority);
    assert Lower("true") == "true";
    assert Lower("false") == "false";
    forall k | k in rows
      ensures Matches(rows[k], Some("true"), priority) <==> rows[k].completed && Matches(rows[k], None, priority)
      ensures Matches(rows[k], Some("false"), priority) <==> !rows[k].completed && Matches(rows[k], None, priority)
    {
    }
    assert done + open == Selected(rows, None, priority);
    assert done * open == {};
  }

  /** A `completed=true` listing and a `completed=false` listing together
      hold as many rows as the listing without that filter. */
  lemma ListingCompletedSplit(rows: map<int, Task>, priority: Option<string>)
    requires KeyedById(rows)
    ensures Listing(rows, Some("true"), priority).count + Listing(rows, Some("false"), priority).count
         == Listing(rows, None, priority).count
  {
    SelectedCompletedSplit(rows, priority);
  }

  /** A row inserted under a fresh id shows up in the unfiltered listing,
      which grows by one. */
  lemma ListingAfterInsert(rows: map<int, Task>, t: Task)
    requires KeyedById(rows) && t.id !in rows
    ensures var after := Listing(rows[t.id := t], None, None);
      && t in after.tasks
      && after.count == Listing(rows, None, None).count + 1
  {
    var before := set k | k in rows && Matches(rows[k], None, None);
    var m := rows[t.id := t];
    var after := set k | k in m && Matches(m[k], None, None);
    assert after == before + {t.id};
  }

  /** After a row is removed no listing shows its id. */
  lemma ListingAfterDelete(rows: map<int, Task>, id: int, completed: Option<string>, priority: Option<string>)
    requires KeyedById(rows)
    ensures forall t :: t in Listing(rows - {id}, completed, priority).tasks ==> t.id != id
  {
  }

  // ---- building and revising one row -------------------------------------

  /** A row the handler is about to commit, or the error it answers with. */
  datatype Built = Built(task: Task) | Refused(status: nat, error: string)

  /** The checks and the record of `create_task`, before the insert: the
      title is required and must not be blank, a present description and a
      truthy due date must be strings, the due date must parse, and an
      unrecognised priority becomes the default. */
  function NewTask(data: Body, parse: string -> Option<int>, id: int, now: int): (r: Built)
    ensures |data| == 0 ==> r == Refused(400, "No data provided")
    ensures |data| > 0 && !Truthy(Get(data, TitleField, Null)) ==> r == Refused(400, "Title is required")
    ensures |data| > 0 && Truthy(Get(data, TitleField, Null)) && !data[TitleField].Str? ==>
      r == Refused(500, "Failed to create task")
    ensures |data| > 0 && Truthy(Get(data, TitleField, Null)) && data[TitleField].Str? && AllSpace(Python, data[TitleField].s) ==>
      r == Refused(400, "Title cannot be empty")
    ensures |data| > 0 && CreateTitleOk(data) && !CreateDescriptionOk(data) ==>
      r == Refused(500, "Failed to create task")
    ensures |data| > 0 && CreateTitleOk(data) && CreateDescriptionOk(data) && Truthy(Get(data, DueDateField, Null)) ==>
      (!data[DueDateField].Str? ==> r == Refused(500, "Failed to create task"))
      && (data[DueDateField].Str? && parse(data[DueDateField].s).None? ==> r == Refused(400, "Invalid due date format"))
    ensures r.Built? <==> |data| > 0 && CreateTitleOk(data) && CreateDescriptionOk(data) && DueDateOk(data, parse)
  {
    if |data| == 0 then Refused(400, "No data provided")
    else
      var title := Get(data, TitleField, Null);
      if !Truthy(title) then Refused(400, "Title is required")
      // `.strip()` on a non-string raises, and the handler answers 500.
      else if !title.Str? then Refused(500, "Failed to create task")
      else if (StripEmptyIff(Python, title.s); Strip(Python, title.s) == []) then Refused(400, "Title cannot be empty")
      else
        var description := Get(data, DescriptionField, Str(""));
        if !description.Str? then Refused(500, "Failed to create task")
        else
          var due := Get(data, DueDateField, Null);
          if Truthy(due) && !due.Str? then Refused(500, "Failed to create task")
          else if Truthy(due) && parse(due.s).None? then Refused(400, "Invalid due date format")
          else
            var priority := Get(data, PriorityField, Str(DefaultPriority));
            Built(Task(
              id, Strip(Python, title.s), Strip(Python, description.s),
              if priority.Str? && IsPriority(priority.s) then priority.s else DefaultPriority,
              if Truthy(due) then parse(due.s) else None,
              Truthy(Get(data, CompletedField, Bool(false))), now, now))
  }

  /** The row `create_task` inserts: the stripped title, the stripped
      description (empty when absent), the requested priority when it is
      one of the three and the default otherwise, the parsed due date, the
      truthiness of `completed`, and the clock for both timestamps. It
      satisfies the table invariant. */
  lemma NewTaskRecord(data: Body, parse: string -> Option<int>, id: int, now: int)
    requires NewTask(data, parse, id, now).Built?
    ensures var t := NewTask(data, parse, id, now).task;
      && Stored(id, t)
      && t.title == Strip(Python, data[TitleField].s)
      && t.description == (if DescriptionField in data then Strip(Python, data[DescriptionField].s) else "")
      && t.priority == (if PriorityField in data && data[PriorityField].Str? && IsPriority(data[PriorityField].s)
                        then data[PriorityField].s else DefaultPriority)
      && t.dueDate == DueDateOf(data, parse)
      && t.completed == (CompletedField in data && Truthy(data[CompletedField]))
      && t.createdAt == now && t.updatedAt == now
  {
  }

  /** The field-by-field changes `update_task` makes to one row: each field
      named in the body changes by its own rule, every other field keeps
      its value, and the update time is bumped. */
  function Revised(was: Task, data: Body, parse: string -> Option<int>, now: int): (r: Built)
    ensures TitleField in data && !Truthy(data[TitleField]) ==> r == Refused(400, "Title cannot be empty")
    ensures TitleField in data && Truthy(data[TitleField]) && !data[TitleField].Str? ==>
      r == Refused(500, "Failed to update task")
    ensures TitleField in data && Truthy(data[TitleField]) && data[TitleField].Str? && AllSpace(Python, data[TitleField].s) ==>
      r == Refused(400, "Title cannot be empty")
    ensures UpdateTitleOk(data) && !UpdateDescriptionOk(data) ==> r == Refused(500, "Failed to update task")
    ensures UpdateTitleOk(data) && UpdateDescriptionOk(data) && Truthy(Get(data, DueDateField, Null)) ==>
      (!data[DueDateField].Str? ==> r == Refused(500, "Failed to update task"))
      && (data[DueDateField].Str? && parse(data[DueDateField].s).None? ==> r == Refused(400, "Invalid due date format"))
    ensures r.Built? <==> UpdateTitleOk(data) && UpdateDescriptionOk(data) && DueDateOk(data, parse)
  {
    if TitleField in data && !Truthy(data[TitleField]) then Refused(400, "Title cannot be empty")
    else if TitleField in data && !data[TitleField].Str? then Refused(500, "Failed to update task")
    else if TitleField in data && (StripEmptyIff(Python, data[TitleField].s); Strip(Python, data[TitleField].s) == []) then
      Refused(400, "Title cannot be empty")
    else
      var t1 := if TitleField in data then was.(title := Strip(Python, data[TitleField].s)) else was;
      if DescriptionField in data && Truthy(data[DescriptionField]) && !data[DescriptionField].Str? then
        Refused(500, "Failed to update task")
      else
        var t2 := if DescriptionField !in data then t1
          else if Truthy(data[DescriptionField]) then t1.(description := Strip(Python, data[DescriptionField].s))
          else t1.(description := "");
        var t3 := if CompletedField in data then t2.(completed := Truthy(data[CompletedField])) else t2;
        var t4 := if PriorityField in data && data[PriorityField].Str? && IsPriority(data[PriorityField].s)
          then t3.(priority := data[PriorityField].s) else t3;
        if DueDateField in data && Truthy(data[DueDateField]) && !data[DueDateField].Str? then
          Refused(500, "Failed to update task")
        else if DueDateField in data && Truthy(data[DueDateField]) && parse(data[DueDateField].s).None? then
          // The fields set so far are never committed.
          Refused(400, "Invalid due date format")
        else
          var t5 := if DueDateField !in data then t4
            else t4.(dueDate := if Truthy(data[DueDateField]) then parse(data[DueDateField].s) else None);
          Built(t5.(updatedAt := now))
  }

  /** The row `update_task` commits: each field named in the body changes
      by its own rule, every other field keeps its value, and the update
      time is bumped. */
  lemma RevisedRecord(was: Task, data: Body, parse: string -> Option<int>, now: int)
    requires Revised(was, data, parse, now).Built?
    ensures var t := Revised(was, data, parse, now).task;
      && t.id == was.id && t.createdAt == was.createdAt && t.updatedAt == now
      && t.title == (if TitleField in data then Strip(Python, data[TitleField].s) else was.title)
      && t.description == (if DescriptionField !in data then was.description
                           else if Truthy(data[DescriptionField]) then Strip(Python, data[DescriptionField].s) else "")
      && t.completed == (if CompletedField in data then Truthy(data[CompletedField]) else was.completed)
      // Unlike create, an unrecognised priority leaves the stored one in place.
      && t.priority == (if PriorityField in data && data[PriorityField].Str? && IsPriority(data[PriorityField].s)
                        then data[PriorityField].s else was.priority)
      && t.dueDate == (if DueDateField in data then DueDateOf(data, parse) else was.dueDate)
  {
  }

  /** An update keeps a stored row within the table invariant. */
  lemma RevisedStored(was: Task, data: Body, parse: string -> Option<int>, now: int)
    requires Stored(was.id, was) && Revised(was, data, parse, now).Built?
    ensures Stored(was.id, Revised(was, data, parse, now).task)
  {
    RevisedRecord(was, data, parse, now);
  }

  /** Sending the same update twice changes nothing more than the first
      did, apart from the update time. */
  lemma RevisedIdempotent(was: Task, data: Body, parse: string -> Option<int>, now: int, later: int)
    requires Revised(was, data, parse, now).Built?
    ensures var once := Revised(was, data, parse, now).task;
      Revised(once, data, parse, later) == Built(once.(updatedAt := later))
  {
    var once := Revised(was, data, parse, now).task;
    RevisedRecord(was, data, parse, now);
    RevisedRecord(once, data, parse, later);
  }

  // ---- the table ----------------------------------------------------------

  /** The `task` table. `nextId` stands for the database's id allocation. */
  class TaskTable {
    var rows: map<int, Task>
    var nextId: int

    ghost predicate Valid()
      reads this
    {
      1 <= nextId && forall k :: k in rows ==> 1 <= k < nextId && Stored(k, rows[k])
    }

    constructor ()
      ensures Valid() && rows == map[] && nextId == 1
    {
      rows := map[];
      nextId := 1;
    }

    /** GET /api/tasks: every listed task is a stored row, so it too has a
      stripped, non-empty title and one of the three priorities. */
    function GetTasks(completed: Option<string>, priority: Option<string>): (r: ListReply)
      reads this
      requires Valid()
      ensures r.count == |r.tasks|
      ensures forall i :: 0 <= i < |r.tasks| ==>
        var t := r.tasks[i]; t.id in rows && rows[t.id] == t && Stored(t.id, t) && Matches(t, completed, priority)
    {
      Listing(rows, completed, priority)
    }

    /** POST /api/tasks: the new row goes in under a fresh id. */
    method Create(data: Body, parse: string -> Option<int>, now: int) returns (r: Answer)
      requires Valid()
      modifies this
      ensures Valid()
      ensures var b := NewTask(data, parse, old(nextId), now);
        && (b.Refused? ==> r == Err(b.status, b.error) && rows == old(rows) && nextId == old(nextId))
        && (b.Built? ==>
              && r == Ok(201, "Task created successfully", Some(b.task))
              && old(nextId) !in old(rows)
              && rows == old(rows)[old(nextId) := b.task] && nextId == old(nextId) + 1)
    {
      var b := NewTask(data, parse, nextId, now);
      if b.Refused? {
        return Err(b.status, b.error);
      }
      NewTaskRecord(data, parse, nextId, now);
      rows := rows[nextId := b.task];
      nextId := nextId + 1;
      return Ok(201, "Task created successfully", Some(b.task));
    }

    /** PUT /api/tasks/<id>: only that row changes, and only when every
      field of the body passes; the other rows stay as they are. */
    method Update(id: int, data: Body, parse: string -> Option<int>, now: int) returns (r: Answer)
      requires Valid()
      modifies this
      ensures Valid() && nextId == old(nextId)
      ensures id !in old(rows) ==> r == Err(404, "Task not found") && rows == old(rows)
      ensures id in old(rows) && |data| == 0 ==> r == Err(400, "No data provided") && rows == old(rows)
      ensures id in old(rows) && |data| > 0 ==>
        var b := Revised(old(rows)[id], data, parse, now);
        && (b.Refused? ==> r == Err(b.status, b.error) && rows == old(rows))
        && (b.Built? ==> r == Ok(200, "Task updated successfully", Some(b.task)) && rows == old(rows)[id := b.task])
    {
      if id !in rows {
        return Err(404, "Task not found");
      }
      if |data| == 0 {
        return Err(400, "No data provided");
      }
      var b := Revised(rows[id], data, parse, now);
      if b.Refused? {
        return Err(b.status, b.error);
      }
      RevisedStored(rows[id], data, parse, now);
      rows := rows[id := b.task];
      return Ok(200, "Task updated successfully", Some(b.task));
    }

    /** DELETE /api/tasks/<id> */
    method Delete(id: int) returns (r: Answer)
      requires Valid()
      modifies this
      ensures Valid() && nextId == old(nextId)
      ensures r.Ok? <==> id in old(rows)
      ensures r.Ok? ==> r == Ok(200, "Task deleted successfully", None) && rows == old(rows) - {id}
      ensures r.Err? ==> r == Err(404, "Task not found") && rows == old(rows)
    {
      if id !in rows {
        return Err(404, "Task not found");
      }
      rows := rows - {id};
      return Ok(200, "Task deleted successfully", None);
    }

    /** PATCH /api/tasks/<id>/toggle */
    method Toggle(id: int, now: int) returns (r: Answer)
      requires Valid()
      modifies this
      ensures Valid() && nextId == old(nextId)
      ensures r.Ok? <==> id in old(rows)
      ensures r.Err? ==> r == Err(404, "Task not found") && rows == old(rows)
      ensures r.Ok? ==>
        && rows == old(rows)[id := old(rows)[id].(completed := !old(rows)[id].completed, updatedAt := now)]
        && r.status == 200 && r.task == Some(rows[id])
        && r.message == (if rows[id].completed then "Task marked as completed" else "Task marked as incomplete")
    {
      if id !in rows {
        return Err(404, "Task not found");
      }
      var task := rows[id];
      task := task.(completed := !task.completed, updatedAt := now);
      rows := rows[id := task];
      var state := if task.completed then "completed" else "incomplete";
      return Ok(200, "Task marked as " + state, Some(task));
    }
  }

  /** Toggling a task twice gives back its completion flag; only the
      update time moves. */
  method ToggleTwice(table: TaskTable, id: int, first: int, second: int) returns (a: Answer, b: Answer)
    requires table.Valid() && id in table.rows
    modifies table
    ensures table.Valid() && a.Ok? && b.Ok?
    ensures table.rows == old(table.rows)[id := old(table.rows)[id].(updatedAt := second)]
  {
    a := table.Toggle(id, first);
    b := table.Toggle(id, second);
  }
}
