/** The list logic of a user's task page (src/app/tasks/page.jsx): the filter, the pagination of
    9 tasks per page, and the personal task the new-task form submits. */
module TasksPage {
  import opened Util
  import opened Models
  import opened JsText
  import opened TaskList
  import opened TaskEdit

  const TasksPerPage: nat := 9

  /** The same three selects ("all" = no constraint) and search text as the admin page. */
  datatype Filters = Filters(taskType: string, priority: string, status: string, search: string)

  const InitialFilters := Filters("all", "all", "all", "")

  /** The search test of this page: always applied, on title and description only, and with the
      search neither trimmed nor checked for blankness. */
  predicate SearchMatches(t: Task, search: string)
    ensures search == "" ==> SearchMatches(t, search)
    ensures SearchMatches(t, search) <==>
      (exists i :: OccursAt(Lower(t.title), Lower(search), i))
      || (exists i :: OccursAt(Lower(t.description), Lower(search), i))
    ensures SearchMatches(t, search) ==> |search| <= |t.title| || |search| <= |t.description|
  {
    IncludesEmpty(Lower(t.title));
    Includes(Lower(t.title), Lower(search)) || Includes(Lower(t.description), Lower(search))
  }

  predicate Keep(f: Filters, t: Task)
    ensures Keep(f, t) ==> SearchMatches(t, f.search)
    ensures f.taskType == "all" && f.priority == "all" && f.status == "all" ==>
      (Keep(f, t) <==> SearchMatches(t, f.search))
  {
    && SelectMatches(f.taskType, t.taskType)
    && SelectMatches(f.priority, t.priority)
    && SelectMatches(f.status, t.status)
    && SearchMatches(t, f.search)
  }

  /** The filter effect: the kept tasks, in order, back on page 1. */
  function ApplyFilters(v: ListView, f: Filters): (r: ListView)
    ensures r.currentPage == 1 && r.tasks == v.tasks
    ensures forall i :: 0 <= i < |r.filtered| ==> Keep(f, r.filtered[i]) && r.filtered[i] in v.tasks
    ensures forall i :: 0 <= i < |v.tasks| && Keep(f, v.tasks[i]) ==> v.tasks[i] in r.filtered
  {
    Refilter(v, t => Keep(f, t))
  }

  /** The filter keeps list order: filtering two runs of tasks one after the other gives the
      kept tasks of the first run followed by those of the second. */
  lemma ApplyFiltersAppend(a: seq<Task>, b: seq<Task>, page: int, f: Filters)
    ensures ApplyFilters(ListView(a + b, [], page), f).filtered ==
      ApplyFilters(ListView(a, [], page), f).filtered + ApplyFilters(ListView(b, [], page), f).filtered
  {
    FilterAppend(a, b, t => Keep(f, t));
  }

  /** A single task is kept exactly when it passes the filters. */
  lemma ApplyFiltersOne(t: Task, page: int, f: Filters)
    ensures ApplyFilters(ListView([t], [], page), f).filtered == if Keep(f, t) then [t] else []
  {
    assert [t][1..] == [];
  }

  /** `totalPages`: `Math.ceil(filteredTasks.length / 9)`, the number of buttons. */
  function TotalPages(v: ListView): (r: nat)
    ensures |v.filtered| <= r * TasksPerPage
    ensures r > 0 ==> (r - 1) * TasksPerPage < |v.filtered|
  {
    PageCount(|v.filtered|, TasksPerPage)
  }

  /** The empty search matches every task: only the selects decide. */
  lemma EmptySearchKeepsSelected(f: Filters, t: Task)
    requires f.search == ""
    ensures Keep(f, t) <==>
      SelectMatches(f.taskType, t.taskType) && SelectMatches(f.priority, t.priority)
      && SelectMatches(f.status, t.status)
  {
    IncludesEmpty(Lower(t.title));
  }

  /** Unlike the admin page, a search of one space is a constraint: it drops every task whose
      title and description hold no space. */
  lemma SpaceSearchIsConstraint(f: Filters, t: Task)
    requires f.search == " " && ' ' !in t.title && ' ' !in t.description
    ensures !Keep(f, t)
  {
    assert Lower(" ") == " ";
    forall s: string, i | ' ' !in s ensures !OccursAt(Lower(s), " ", i) {
      if 0 <= i && i + 1 <= |s| {
        assert Lower(s)[i..i + 1] == [Lower(s)[i]];
        assert s[i] != ' ';
      }
    }
  }

  /** The assignee is not searched: a task whose assignee holds the search but whose title and
      description do not is dropped. */
  lemma AssigneeNotSearched(f: Filters, t: Task)
    requires !Includes(Lower(t.title), Lower(f.search))
    requires !Includes(Lower(t.description), Lower(f.search))
    ensures !Keep(f, t)
  {
  }

  /** The body `handleSubmit` posts to /api/users/addTask: a personal, pending task assigned to
      the current user, with only the non-blank objectives. */
  function PersonalTask(form: TaskForm, username: string, now: int): (d: TaskDraft)
    ensures d.assignee == username && d.status == "pending" && d.taskType == "personal"
    ensures d.objectives == DropBlank(form.objectives)
    ensures forall i :: 0 <= i < |d.objectives| ==> !IsBlank(d.objectives[i])
    ensures d.title == form.title && d.description == form.description
    ensures d.dueDate == form.dueDate && d.priority == form.priority && d.createdAt == now
  {
    TaskDraft(form.title, form.description, DropBlank(form.objectives), "pending", form.dueDate,
              username, now, form.priority, "personal")
  }

  /** A personal task as stored has status "pending", which the status filter's "Pending",
      "In Progress" and "Completed" never match: choosing any status hides it. */
  lemma PersonalTaskHiddenByStatus(form: TaskForm, username: string, now: int, id: Id, f: Filters)
    requires f.status in {"Pending", "In Progress", "Completed"}
    ensures !Keep(f, StoredTask(PersonalTask(form, username, now), id))
  {
    var t := StoredTask(PersonalTask(form, username, now), id);
    assert t.status == "pending";
    assert t.status[0] != f.status[0];
  }
}
