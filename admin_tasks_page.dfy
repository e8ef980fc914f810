/** The list logic of the admin's task page (src/app/admin/tasks/page.jsx): the filter, the
    pagination of 8 tasks per page, and the task the new-task form submits. */
module AdminTasksPage {
  import opened Util
  import opened Models
  import opened JsText
  import opened TaskList
  import opened TaskEdit

  const TasksPerPage: nat := 8

  /** The page's filters: three selects, where "all" means no constraint, and the search text. */
  datatype Filters = Filters(taskType: string, priority: string, status: string, search: string)

  /** The filters the page starts with. */
  const InitialFilters := Filters("all", "all", "all", "")

  /** `text && text.toLowerCase().includes(term)`. */
  predicate TextHit(text: string, term: string)
    ensures TextHit(text, term) <==> text != "" && exists i :: OccursAt(Lower(text), term, i)
  {
    text != "" && Includes(Lower(text), term)
  }

  /** The search test: a search that trims to nothing is no constraint; otherwise the lower-cased
      search (not trimmed) must occur in the lower-cased title, description or assignee. */
  predicate SearchMatches(t: Task, search: string)
    ensures IsBlank(search) ==> SearchMatches(t, search)
    ensures !IsBlank(search) ==>
      (SearchMatches(t, search) <==>
        var term := Lower(search);
        TextHit(t.title, term) || TextHit(t.description, term) || TextHit(t.assignee, term))
  {
    TrimEmptyIffBlank(search);
    Trim(search) == "" ||
    var term := Lower(search);
    TextHit(t.title, term) || TextHit(t.description, term) || TextHit(t.assignee, term)
  }

  /** The filter effect's predicate: all four tests together. */
  predicate Keep(f: Filters, t: Task)
    ensures Keep(f, t) ==> SearchMatches(t, f.search)
    ensures f.taskType == "all" && f.priority == "all" && f.status == "all" ==>
      (Keep(f, t) <==> SearchMatches(t, f.search))
  {
    && SelectMatches(f.taskType, t.taskType)
    && SelectMatches(f.priority, t.priority)
    && SelectMatches(f.status, t.status)
    && SearchMatches(t, f.search)
  }

  /** The filter effect: the kept tasks, in order, back on page 1. */
  function ApplyFilters(v: ListView, f: Filters): (r: ListView)
    ensures r.currentPage == 1 && r.tasks == v.tasks
    ensures forall i :: 0 <= i < |r.filtered| ==> Keep(f, r.filtered[i]) && r.filtered[i] in v.tasks
    ensures forall i :: 0 <= i < |v.tasks| && Keep(f, v.tasks[i]) ==> v.tasks[i] in r.filtered
  {
    Refilter(v, t => Keep(f, t))
  }

  /** The filter keeps list order: filtering two runs of tasks one after the other gives the
      kept tasks of the first run followed by those of the second. */
  lemma ApplyFiltersAppend(a: seq<Task>, b: seq<Task>, page: int, f: Filters)
    ensures ApplyFilters(ListView(a + b, [], page), f).filtered ==
      ApplyFilters(ListView(a, [], page), f).filtered + ApplyFilters(ListView(b, [], page), f).filtered
  {
    FilterAppend(a, b, t => Keep(f, t));
  }

  /** A single task is kept exactly when it passes the filters. */
  lemma ApplyFiltersOne(t: Task, page: int, f: Filters)
    ensures ApplyFilters(ListView([t], [], page), f).filtered == if Keep(f, t) then [t] else []
  {
    assert [t][1..] == [];
  }

  /** A blank search (empty or only white space) constrains nothing: what is kept is decided by
      the three selects alone. */
  lemma BlankSearchIgnored(f: Filters, t: Task)
    requires IsBlank(f.search)
    ensures Keep(f, t) <==>
      SelectMatches(f.taskType, t.taskType) && SelectMatches(f.priority, t.priority)
      && SelectMatches(f.status, t.status)
  {
    TrimEmptyIffBlank(f.search);
  }

  /** A task kept under a non-blank search holds the lower-cased search in its lower-cased title,
      description or assignee. */
  lemma NonBlankSearchHits(f: Filters, t: Task)
    requires !IsBlank(f.search) && Keep(f, t)
    ensures var term := Lower(f.search);
      Includes(Lower(t.title), term) || Includes(Lower(t.description), term)
      || Includes(Lower(t.assignee), term)
  {
    TrimEmptyIffBlank(f.search);
  }

  /** The search ignores case: typing it in lower case keeps exactly the same tasks. */
  lemma SearchIgnoresCase(f: Filters, t: Task)
    ensures Keep(f.(search := Lower(f.search)), t) <==> Keep(f, t)
  {
    var s := f.search;
    LowerIdempotent(s);
    LowerKeepsBlank(s);
    TrimEmptyIffBlank(s);
    TrimEmptyIffBlank(Lower(s));
    assert SearchMatches(t, Lower(s)) <==> SearchMatches(t, s);
  }

  /** With the initial filters every task is kept, so the first page shows the first 8 tasks. */
  lemma InitialFiltersKeepAll(v: ListView)
    ensures ApplyFilters(v, InitialFilters).filtered == v.tasks
    ensures Shown(ApplyFilters(v, InitialFilters), TasksPerPage) ==
            v.tasks[..Min(TasksPerPage, |v.tasks|)]
  {
    TrimEmptyIffBlank("");
    FilterAll(v.tasks, t => Keep(InitialFilters, t));
    RefilterShowsFirstPage(v, t => Keep(InitialFilters, t), TasksPerPage);
  }

  /** The status values the form creates ("pending", "in progress", "completed") never equal the
      values the status filter offers ("Pending", "In Progress", "Completed"): a task created on
      this page disappears as soon as any status is chosen. */
  lemma StatusCaseMismatch(f: Filters, t: Task)
    requires t.status in {"pending", "in progress", "completed"}
    requires f.status in {"Pending", "In Progress", "Completed"}
    ensures !Keep(f, t)
  {
    assert t.status != f.status by {
      assert t.status[0] != f.status[0];
    }
  }

  /** `Pagination`: the loop pushing 1, 2, ... up to `Math.ceil(totalTasks / tasksPerPage)`. */
  method PageNumbers(totalTasks: nat, tasksPerPage: nat) returns (numbers: seq<int>)
    requires tasksPerPage > 0
    ensures |numbers| == PageCount(totalTasks, tasksPerPage)
    ensures forall k :: 0 <= k < |numbers| ==> numbers[k] == k + 1
  {
    numbers := [];
    var i := 1;
    while i <= PageCount(totalTasks, tasksPerPage)
      invariant 1 <= i <= PageCount(totalTasks, tasksPerPage) + 1
      invariant |numbers| == i - 1
      invariant forall k :: 0 <= k < |numbers| ==> numbers[k] == k + 1
    {
      numbers := numbers + [i];
      i := i + 1;
    }
  }

  /** Every page the pagination lists shows at least one task, and a page past the last listed
      one shows none. */
  lemma ListedPagesNonEmpty(v: ListView, page: int)
    requires page >= 1
    ensures PageOf(v.filtered, page, TasksPerPage) != [] <==>
            page <= PageCount(|v.filtered|, TasksPerPage)
  {
    PageNonEmpty(v.filtered, page, TasksPerPage);
  }

  /** The body `handleSubmit` posts to /api/admins/addTask: the form's fields with only the
      non-blank objectives, the admin's organisation and the submission time. */
  datatype Submission = Submission(draft: TaskDraft, organisation: string)

  function SubmitTask(form: TaskForm, organisation: string, now: int): (r: Submission)
    ensures r.organisation == organisation && r.draft.createdAt == now
    ensures r.draft.objectives == DropBlank(form.objectives)
    ensures forall i :: 0 <= i < |r.draft.objectives| ==> !IsBlank(r.draft.objectives[i])
    ensures r.draft.title == form.title && r.draft.description == form.description
    ensures r.draft.dueDate == form.dueDate && r.draft.priority == form.priority
    ensures r.draft.assignee == form.assignee && r.draft.status == form.status
    ensures r.draft.taskType == form.taskType
  {
    var draft := TaskDraft(form.title, form.description, DropBlank(form.objectives), form.status,
                           form.dueDate, form.assignee, now, form.priority, form.taskType);
    Submission(draft, organisation)
  }
}
