/** What the browser client derives from its cached tasks without touching
    any state: the filtered list, the form's values and their validation,
    the count label, the priority badge and the due-date urgency. */
module TaskView {
  import opened Tasks
  import opened Text

  // ---- filtering ----------------------------------------------------------

  /** The tasks whose completion flag is `done`, in their original order
      (`tasks.filter(task => task.completed)` and its negation). */
  function Select(ts: seq<Task>, done: bool): (r: seq<Task>)
    ensures |r| <= |ts|
    ensures forall t :: t in r <==> t in ts && t.completed == done
  {
    if ts == [] then []
    else if ts[0].completed == done then [ts[0]] + Select(ts[1..], done)
    else Select(ts[1..], done)
  }

  /** Selecting from a concatenation selects from each part in turn, so the
      relative order of the kept tasks is the order they had. */
  lemma {:induction false} SelectAppend(a: seq<Task>, b: seq<Task>, done: bool)
    ensures Select(a + b, done) == Select(a, done) + Select(b, done)
  {
    if a != [] {
      assert (a + b)[1..] == a[1..] + b;
      SelectAppend(a[1..], b, done);
    } else {
      assert a + b == b;
    }
  }

  /** The completed and the pending views split the tasks between them:
      every task lands in exactly one, as often as it occurs. */
  lemma {:induction false} SelectPartition(ts: seq<Task>)
    ensures multiset(Select(ts, true)) + multiset(Select(ts, false)) == multiset(ts)
    ensures |Select(ts, true)| + |Select(ts, false)| == |ts|
  {
    if ts != [] {
      SelectPartition(ts[1..]);
      assert ts == [ts[0]] + ts[1..];
    }
  }

  /** Whether a task passes the current filter: "completed" and "pending"
      select by the flag; any other value lets every task through. */
  predicate Shown(t: Task, filter: string) {
    (filter == "completed" ==> t.completed) && (filter == "pending" ==> !t.completed)
  }

  /** `getFilteredTasks` */
  function FilterTasks(tasks: seq<Task>, filter: string): (r: seq<Task>)
    ensures filter == "completed" ==> r == Select(tasks, true)
    ensures filter == "pending" ==> r == Select(tasks, false)
    ensures filter != "completed" && filter != "pending" ==> r == tasks
    ensures forall t :: t in r <==> t in tasks && Shown(t, filter)
  {
    if filter == "completed" then Select(tasks, true)
    else if filter == "pending" then Select(tasks, false)
    else tasks
  }

  /** Any filter keeps the order of the tasks it shows: filtering a list
      made of two parts filters each part. */
  lemma FilterAppend(a: seq<Task>, b: seq<Task>, filter: string)
    ensures FilterTasks(a + b, filter) == FilterTasks(a, filter) + FilterTasks(b, filter)
  {
    SelectAppend(a, b, true);
    SelectAppend(a, b, false);
  }

  /** Filtering twice by the same value is filtering once. */
  lemma {:induction false} SelectIdempotent(ts: seq<Task>, done: bool)
    ensures Select(Select(ts, done), done) == Select(ts, done)
  {
    if ts != [] {
      SelectIdempotent(ts[1..], done);
      if ts[0].completed == done {
        assert ([ts[0]] + Select(ts[1..], done))[1..] == Select(ts[1..], done);
      }
    }
  }

  lemma FilterIdempotent(tasks: seq<Task>, filter: string)
    ensures FilterTasks(FilterTasks(tasks, filter), filter) == FilterTasks(tasks, filter)
  {
    SelectIdempotent(tasks, true);
    SelectIdempotent(tasks, false);
  }

  // ---- the task form ------------------------------------------------------

  /** The raw values of the form's four inputs. */
  datatype FormInput = FormInput(title: string, description: string, priority: string, dueDate: string)

  /** `getFormData`: the object that is sent as the request body. */
  datatype FormData = FormData(title: string, description: string, priority: string, dueDate: Option<string>)

  /** Title and description trimmed, the priority as selected, and an empty
      due-date input sent as null. */
  function GetFormData(input: FormInput): (r: FormData)
    ensures r.title == Strip(JavaScript, input.title) && r.description == Strip(JavaScript, input.description)
    ensures r.priority == input.priority
    ensures r.dueDate.None? <==> input.dueDate == ""
    ensures r.dueDate.Some? ==> r.dueDate.value == input.dueDate
  {
    FormData(Strip(JavaScript, input.title), Strip(JavaScript, input.description), input.priority,
      if input.dueDate == "" then None else Some(input.dueDate))
  }

  const MaxTitleLength: nat := 200

  /** `validateForm`: the message shown under the title, or None when the
      form may be submitted. A title of exactly 200 characters passes,
      although the message speaks of "less than 200". */
  function ValidateForm(data: FormData): (r: Option<string>)
    ensures r.None? <==> 1 <= |data.title| <= MaxTitleLength
    ensures r == Some("Task title is required") <==> data.title == []
    ensures r == Some("Task title must be less than 200 characters") <==> |data.title| > MaxTitleLength
  {
    if data.title == [] then Some("Task title is required")
    else if |data.title| > MaxTitleLength then Some("Task title must be less than 200 characters")
    else None
  }

  /** A title typed as whitespace only never gets past validation. */
  lemma BlankTitleRejected(input: FormInput)
    requires AllSpace(JavaScript, input.title)
    ensures ValidateForm(GetFormData(input)) == Some("Task title is required")
  {
    StripEmptyIff(JavaScript, input.title);
  }

  // ---- labels and badges --------------------------------------------------

  /** `updateTaskCount`: "1 task", otherwise the number and "tasks". */
  function CountLabel(n: nat): (r: string)
    ensures n == 1 <==> r == "1 task"
    ensures n != 1 ==> r == NatToString(n) + " tasks"
  {
    NatToString(n) + " task" + if n != 1 then "s" else ""
  }

  /** The label starts with the decimal count, which reads back as the
      count, and ends in the singular or the plural noun. */
  lemma CountLabelReadsBack(n: nat)
    ensures var d := NatToString(n); var r := CountLabel(n);
      && d <= r
      && ParseNat(d) == n
      && r[|d|..] == (if n == 1 then " task" else " tasks")
  {
    ParseNatToString(n);
  }

  datatype Priority = Low | Medium | High

  /** `getPriorityBadgeHTML`: the badge for a priority, Medium for any
      value that is not one of the three. */
  function BadgePriority(p: string): (r: Priority)
    ensures r == High <==> p == "high"
    ensures r == Low <==> p == "low"
    ensures r == Medium <==> p != "high" && p != "low"
  {
    if p == "high" then High else if p == "low" then Low else Medium
  }

  // ---- due dates ----------------------------------------------------------

  const MsPerDay: int := 1000 * 60 * 60 * 24

  /** `Math.ceil(ms / MsPerDay)` for an integer count of milliseconds. */
  function CeilDays(ms: int): (q: int)
    ensures (q - 1) * MsPerDay < ms <= q * MsPerDay
  {
    -((-ms) / MsPerDay)
  }

  datatype Urgency = Overdue | DueSoon | Neutral

  /** `getDueDateHTML`'s class: no badge without a due date; overdue when
      the rounded-up day difference is negative; due soon when it is at
      most one. */
  function DueUrgency(due: Option<int>, now: int): (r: Option<Urgency>)
    ensures r.None? <==> due.None?
    ensures r == Some(Overdue) <==> due.Some? && due.value - now <= -MsPerDay
    ensures r == Some(DueSoon) <==> due.Some? && -MsPerDay < due.value - now <= MsPerDay
    ensures r == Some(Neutral) <==> due.Some? && due.value - now > MsPerDay
  {
    if due.None? then None
    else
      var diffDays := CeilDays(due.value - now);
      if diffDays < 0 then Some(Overdue)
      else if diffDays <= 1 then Some(DueSoon)
      else Some(Neutral)
  }

  /** As the clock advances towards a fixed due date the urgency never
      relaxes: neutral, then due soon, then overdue. */
  lemma UrgencyMonotone(due: int, now: int, later: int)
    requires now <= later
    ensures DueUrgency(Some(due), now) == Some(Overdue) ==> DueUrgency(Some(due), later) == Some(Overdue)
    ensures DueUrgency(Some(due), later) == Some(Neutral) ==> DueUrgency(Some(due), now) == Some(Neutral)
  {
  }

  // ---- the rendered list --------------------------------------------------

  /** `data.error || fallback`: an absent or empty error string gives the
      fallback. */
  function ErrorText(error: Option<string>, fallback: string): (r: string)
    ensures error.Some? && error.value != "" ==> r == error.value
    ensures error.None? || error.value == "" ==> r == fallback
  {
    if error.Some? && error.value != "" then error.value else fallback
  }

  /** What `renderTasks` and `updateTaskCount` put on the page. */
  datatype View = View(items: seq<Task>, emptyState: bool, countLabel: string)

  function Render(tasks: seq<Task>, filter: string): (v: View)
    ensures v.items == FilterTasks(tasks, filter)
    ensures v.emptyState <==> forall t :: t in tasks ==> !Shown(t, filter)
    ensures v.countLabel == CountLabel(|v.items|)
  {
    var items := FilterTasks(tasks, filter);
    assert items != [] ==> items[0] in items;
    View(items, items == [], CountLabel(|items|))
  }
}
