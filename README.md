# Task manager: client controller and server task store

This project models a small task manager in Dafny. A Flask server keeps a
table of tasks and offers five JSON handlers: list, create, update, delete
and toggle. A browser controller, `TaskManager`, caches the list and holds
three fields: `tasks`, `currentFilter` and `editingTask`. It sends the
requests and renders the filtered list.

The model has five modules:

- `Text` (text.dfy) models whitespace stripping for each runtime: Python's
  `str.strip` on the server and JavaScript's `String.trim` in the browser.
  Their whitespace sets share 24 characters. Python also strips U+001C to
  U+001F and U+0085; JavaScript also trims U+FEFF. `Text` also models
  ASCII lower-casing, and decimal rendering of integers with a parse that
  reads them back.
- `Tasks` (task.dfy) holds the task record and the three priorities.
- `TaskStore` (store.dfy) models the handlers of `routes.py`:
  - The class `TaskTable` holds an id-keyed map of rows and an id counter.
    Its methods are create, update, delete and toggle.
  - `Valid()` is the table invariant. Every row sits under its own id. Its
    title is stripped and not empty, its description is stripped, and its
    priority is one of the three.
  - The list handler is a pure function (`Listing`): filter, then order
    newest first.
  - Request bodies are maps from field names to JSON scalars, with Python
    truthiness. A body that forces `.strip()` or `.replace()` on a
    non-string gives the handler's 500 answer.
- `TaskView` (view.dfy) holds the client's pure projections. These are the
  filtered view, reading and validating the form, the count label, the
  priority badge fallback and the due-date urgency.
- `TaskClient` (manager.dfy) holds the class `TaskManager` with its three
  fields and one method per handler.
  - Each server answer is a parameter: a reply with `success`, `message`,
    `error` and `tasks`, or a connection failure.
  - A handler returns what it sent, the notice it showed and whether a
    reload follows.
  - Lemmas connect the form the client sends to what the server's create
    and update then do with it.

Clocks are integer millisecond parameters. Due-date parsing is a parameter
`parse: string -> Option<int>`, which may fail.

Behaviour the model follows, as the code has it:

- `setFilter` stores any value verbatim. A value other than "completed"
  or "pending", recognised or not, then shows every task.
- A successful `loadTasks` leaves `editingTask` as it was. Only a
  successful submit, a cancel or a form reset ends an edit.
- A due date less than one day in the past shows as due soon, not
  overdue. `Math.ceil` of a day difference in (-1, 0] is zero (or minus
  zero), which is not below zero.
- A title of exactly 200 characters passes the client's check, although
  the message speaks of "less than 200". The server sets no limit.
- A title the client accepts can still be refused by the server. One made
  of U+001C, for instance, survives `trim`, but Python strips it to
  nothing and answers 400 "Title cannot be empty".

## Model

| member | source | states |
|---|---|---|
| Text.Strip | routes.py:75-76 | the result has no whitespace of the runtime at either end and is no longer than the input |
| Text.StripIdempotent | routes.py:75-76 | a stripped string has no whitespace at either end, and stripping again changes nothing |
| Text.StripEmptyIff | routes.py:67-71 | a title strips to the empty string exactly when it is all whitespace |
| Text.StripSlice | static/js/app.js:118-119 | strip keeps one contiguous slice of the input and removes only whitespace from each end |
| Text.StripAgree | static/js/app.js:118 | Python's strip and JavaScript's trim give the same result on text without the characters on which their whitespace sets differ |
| Text.SpaceDiffersExactly | routes.py:67 | the two sets differ in exactly U+001C to U+001F, U+0085 and U+FEFF |
| Text.Lower | routes.py:26 | the lower-cased text has the same length and maps each character by the ASCII case mapping |
| Text.ParseNatToString | static/js/app.js:417 | the decimal text rendered for a count reads back as that count |
| Text.IntToStringInjective | static/js/app.js:80 | different task ids render as different text in a URL |
| TaskStore.Listing | routes.py:19-39 | every listed task matches the lower-cased `completed` filter and a non-empty `priority` filter and is a stored row. Every matching row is listed, newest first with ties by id, and `count` is the number listed |
| TaskStore.NewestFirst | routes.py:33 | the rows under the given ids, each once, ordered by creation time descending with ties by id |
| TaskStore.TaskTable.GetTasks | routes.py:14-39 | every listed task is a stored row matching the filters, with a stripped non-empty title and one of the three priorities; `count` is the number listed |
| TaskStore.TaskTable.constructor | routes.py:23 | the table starts empty, with the invariant holding |
| TaskStore.ListingCompletedSplit | routes.py:25-27 | the `completed=true` and `completed=false` listings together count as many rows as the listing without that filter |
| TaskStore.ListingDistinct | routes.py:33-37 | no row is listed twice |
| TaskStore.ListingAfterDelete | routes.py:193-194 | after a row is removed no listing shows its id |
| TaskStore.ListingAfterInsert | routes.py:33-39 | after an insert under a fresh id the unfiltered listing contains the new row and is one longer |
| TaskStore.NewTask | routes.py:52-93 | an empty body gives 400 "No data provided". A missing or falsy title gives 400 "Title is required". A whitespace-only title gives 400 "Title cannot be empty". A non-string where `.strip()` or `.replace()` is called gives 500. An unparsable due date gives 400 "Invalid due date format". A row is built exactly when none of these apply |
| TaskStore.NewTaskRecord | routes.py:74-93 | the new row has the stripped title, the stripped description ("" when absent), the requested priority coerced to "medium" when it is not one of the three, the parsed due date, the truthiness of `completed` and both timestamps at the clock. It satisfies the table invariant |
| TaskStore.Revised | routes.py:131-163 | a falsy or blank title gives 400 "Title cannot be empty". A non-string where `.strip()` or `.replace()` is called gives 500 "Failed to update task". An unparsable due date gives 400 "Invalid due date format". The row is revised exactly when none of these apply |
| TaskStore.RevisedRecord | routes.py:132-163 | each field named in the body changes by its own rule and every other field is kept. An unrecognised priority keeps the old one. A falsy due date clears it. The update time is bumped |
| TaskStore.RevisedStored | routes.py:132-141 | an update keeps a stored row within the table invariant |
| TaskStore.RevisedIdempotent | routes.py:131-163 | applying the same update body twice leaves the row as the first application did, apart from the update time |
| TaskStore.TaskTable.Create | routes.py:48-110 | a refused body leaves the table unchanged and answers with the error. Otherwise the row goes in under a fresh id, nothing else changes, and the answer is 201 "Task created successfully" |
| TaskStore.TaskTable.Update | routes.py:113-179 | an unknown id gives 404 "Task not found" and an empty body 400 "No data provided", both with no change. A refused body changes nothing. Otherwise only that row is replaced, by the revised one, and the answer is 200 "Task updated successfully" |
| TaskStore.TaskTable.Delete | routes.py:182-199 | a known id is removed and no other row changes, answering "Task deleted successfully". An unknown id gives 404 "Task not found" with no change |
| TaskStore.TaskTable.Toggle | routes.py:210-229 | the flag flips, the update time moves and no other row changes. The message names the new state. An unknown id gives 404 "Task not found" |
| TaskStore.ToggleTwice | routes.py:221-222 | toggling twice restores the completion flag; only the update time differs |
| TaskView.Select | static/js/app.js:393-395 | the kept tasks are exactly those with the given completion flag |
| TaskView.SelectAppend | static/js/app.js:393-395 | filtering keeps the tasks' relative order |
| TaskView.SelectPartition | static/js/app.js:392-395 | the completed and pending views partition the tasks as a multiset, and their lengths add up |
| TaskView.FilterTasks | static/js/app.js:390-399 | "completed" keeps exactly the completed tasks and "pending" exactly the others. Any other filter value returns the tasks unchanged |
| TaskView.FilterAppend | static/js/app.js:390-399 | every filter keeps relative order |
| TaskView.SelectIdempotent | static/js/app.js:393-395 | filtering by the flag twice is filtering once |
| TaskView.FilterIdempotent | static/js/app.js:390-399 | applying the same filter twice is applying it once |
| TaskView.GetFormData | static/js/app.js:116-123 | title and description are trimmed, the priority is passed as selected, and an empty due-date input becomes null |
| TaskView.ValidateForm | static/js/app.js:125-147 | the form passes exactly when the trimmed title has 1 to 200 characters (200 passes). An empty title gets "Task title is required" and a longer one "Task title must be less than 200 characters" |
| TaskView.BlankTitleRejected | static/js/app.js:118-137 | a title typed as whitespace only is refused with "Task title is required" |
| TaskView.CountLabel | static/js/app.js:413-418 | the label is "1 task" exactly for one task, and "<n> tasks" otherwise, 0 included |
| TaskView.CountLabelReadsBack | static/js/app.js:416-417 | the label starts with the decimal count, which parses back to the count |
| TaskView.BadgePriority | static/js/app.js:315-322 | "high" and "low" get their own badge; every other value shows as medium |
| TaskView.CeilDays | static/js/app.js:334 | the rounded-up day count q satisfies (q-1) days < diff <= q days |
| TaskView.DueUrgency | static/js/app.js:328-345 | no due date gives no badge. Overdue exactly when diff <= -86400000 ms, due soon exactly when -86400000 < diff <= 86400000, neutral otherwise |
| TaskView.UrgencyMonotone | static/js/app.js:333-345 | as the clock moves forward a fixed due date never becomes less urgent |
| TaskView.ErrorText | static/js/app.js:49 | a non-empty server error is shown as is; a missing or empty one gives the fallback |
| TaskView.Render | static/js/app.js:248-265 | the view lists the filtered tasks, shows the empty state exactly when no task passes the filter, and labels the count |
| TaskClient.TaskPathInjective | static/js/app.js:80 | two task ids give the same request path only when they are equal |
| TaskClient.TaskPath | static/js/app.js:80 | the address is the collection path, a slash, and the decimal id |
| TaskClient.TogglePath | static/js/app.js:175 | the address is the task's address followed by "/toggle" |
| TaskClient.TogglePathDistinct | static/js/app.js:155-175 | a toggle address is never the plain address of any task |
| TaskClient.EditForm | static/js/app.js:197-208 | the form gets the task's title, description and priority, and an empty due-date input when the task has none |
| TaskClient.Settle | static/js/app.js:100-109 | a reload follows exactly a successful answer, which shows the server's message. A failed answer shows its error or the handler's fallback, and no answer shows "Failed to connect to server" |
| TaskClient.SubmitRequest | static/js/app.js:78-96 | PUT to the edited task's address while editing, otherwise POST to /api/tasks, with the form as body |
| TaskClient.EditFormRoundTrip | static/js/app.js:193-208 | reading back the form filled from a task gives its title, and likewise its description, exactly when `trim` leaves it unchanged; the priority always comes back |
| TaskClient.StoredFieldRoundTrip | routes.py:75 | a field Python has stripped is left alone by `trim` unless it starts or ends with U+FEFF |
| TaskClient.TaskManager.constructor | static/js/app.js:4-9 | no tasks, filter "all", no task being edited |
| TaskClient.TaskManager.LoadTasks | static/js/app.js:36-57 | a successful answer replaces `tasks` wholesale and renders them. Otherwise `tasks` is unchanged and the error is the server's, else "Failed to load tasks", or "Failed to connect to server" |
| TaskClient.TaskManager.HandleFormSubmit | static/js/app.js:59-114 | an invalid form sends nothing and changes nothing. A valid one sends PUT or POST. Only a successful answer ends the edit and reloads, and a failure keeps `editingTask` and `tasks`. The fallback text is "Operation failed" |
| TaskClient.TaskManager.DeleteTask | static/js/app.js:149-171 | a declined confirmation sends nothing. Otherwise DELETE goes to the task's address, with fallback "Failed to delete task" |
| TaskClient.TaskManager.ToggleTaskCompletion | static/js/app.js:173-191 | PATCH goes to the task's toggle address, with fallback "Failed to update task" |
| TaskClient.TaskManager.EditTask | static/js/app.js:193-208 | the task becomes the one being edited, and the form is filled with its values |
| TaskClient.TaskManager.CancelEdit | static/js/app.js:225-228 | no task is being edited afterwards |
| TaskClient.TaskManager.ResetForm | static/js/app.js:230-246 | no task is being edited afterwards |
| TaskClient.TaskManager.SetFilter | static/js/app.js:401-411 | the filter is stored verbatim and the list is rendered through it |
| TaskClient.EditTwice | static/js/app.js:194 | of two edits the last one wins, and nothing else changes |
| TaskClient.SetFilterTwice | static/js/app.js:401-411 | setting the same filter twice shows the same view |
| TaskClient.SubmitThenReload | static/js/app.js:100-103 | a successful submit followed by a successful load ends the edit and leaves exactly the listed tasks |
| TaskClient.FormBody | static/js/app.js:85 | the body sent always has data in it |
| TaskClient.SubmittedFormCreates | static/js/app.js:89-95 | a form that passes the client's validation is refused with 400 "Title cannot be empty" when Python sees only whitespace in its title, and with 400 "Invalid due date format" for a bad date; otherwise it is created. The row holds the form's title and description as Python strips them, and starts incomplete |
| TaskClient.SubmittedFormUpdates | static/js/app.js:80-86 | updating from the form is refused only for a title that Python sees as all whitespace or for a bad due date. Otherwise it keeps the completion flag, takes the form's title and description as Python strips them, and clears the due date when the input is empty |
| TaskClient.SubmittedTitleKept | static/js/app.js:118-144 | a validated title without the characters on which the whitespace sets differ is stored exactly as the client sent it |
| TaskClient.SeparatorTitleRefused | routes.py:67-71 | a title of one U+001C passes the client's checks and is refused by the server with 400 "Title cannot be empty" |

## Left out

- HTTP transport, `fetch` and JSON encoding are not modelled. A server answer is an abstract reply value, and a thrown exception is `ConnectionFailed`.
- DOM work is not modelled: HTML templates, `createTaskHTML`, button labels and styles, focus, scrolling, `bindEvents` and `bindTaskEvents`. `escapeHtml` is left out because it relies on the browser DOM.
- Notification timing (`setTimeout`) and the loading indicator are not modelled.
- Date handling is abstract:
  - `datetime.fromisoformat` together with the `Z` replacement is the `parse` parameter.
  - `datetime.utcnow` and `new Date()` are integer clock parameters.
  - The datetime-local conversion in `editTask` is the `localInput` parameter.
  - `toLocaleDateString` is not modelled. The created and updated dates appear only as fields.
- Due-date arithmetic is done on integers. JavaScript divides with floating point and then applies `Math.ceil`. An unparsable stored date, which JavaScript classifies through `NaN`, is not modelled.
- Concurrent in-flight requests and the race in which the last load wins are not modelled. Each handler call runs to completion.
- The database session is not modelled: commit, rollback, logging and the Flask 404 and 500 error handlers. An error answer leaves the table unchanged. `update_task` assigns fields before its due-date check, but an invalid date returns before the commit.
- The handler-wide exception answers are not modelled for failures other than calling a string method on a non-string value. These answers are "Failed to fetch tasks", "Failed to delete task" and "Failed to toggle task completion".
- JSON arrays, objects and non-integer numbers as body values are not modelled. `Value` covers null, booleans, integers and strings.
- `Lower` folds ASCII letters only. Python's `lower` also folds other letters, such as "É" in a `completed` query value.
- The whitespace sets are those of current Python 3 and ECMAScript. Other Unicode versions may differ.
- `validateForm` measures the title in code points. JavaScript counts UTF-16 code units.
- Ids come from a counter. The database's own id allocation is not modelled.
- `Listing` puts rows with equal creation times in ascending id order. The query leaves their order unspecified.
- `models.py` is not part of this model. `to_dict`, the column types and the defaults are assumed:
  - Create stores `completed` as the truthiness of the value sent.
  - Both timestamps of a new row are the clock.
- `BadgePriority` does not model property names inherited by a JavaScript object, such as "constructor". Those are truthy lookups in `priorityConfig` and would not fall back to medium.
