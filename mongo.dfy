/** The store operations of server/mongo.js over the four collections. Each collection is an
    insertion-ordered sequence of documents, so `find` returns documents in insertion order and
    `findOne` returns the first match. Saving a document runs the schema's `required` checks and
    the `unique` indexes; every new document takes the next id of one shared counter. */
module Mongo {
  import opened Util
  import opened Models
  import opened Counting

  /** The errors the store operations raise. */
  datatype StoreError = AssigneeNotFound | OrganisationNotFound | ValidationFailed

  datatype Result<T> = Ok(value: T) | Fail(error: StoreError)

  /** The fields an update body carries: Some for a field present in the body. */
  datatype TaskPatch = TaskPatch(
    title: Option<string>,
    description: Option<string>,
    objectives: Option<seq<string>>,
    status: Option<string>,
    dueDate: Option<string>,
    assignee: Option<string>,
    createdAt: Option<int>,
    priority: Option<string>,
    taskType: Option<string>)

  function Pick<T>(o: Option<T>, current: T): T
  {
    if o.Some? then o.value else current
  }

  /** The task after `findByIdAndUpdate` applied `p`: present fields overwrite, the rest stay. */
  function Merge(t: Task, p: TaskPatch): (r: Task)
    ensures r.id == t.id
  {
    Task(t.id, Pick(p.title, t.title), Pick(p.description, t.description),
         Pick(p.objectives, t.objectives), Pick(p.status, t.status), Pick(p.dueDate, t.dueDate),
         Pick(p.assignee, t.assignee), Pick(p.createdAt, t.createdAt),
         Pick(p.priority, t.priority), Pick(p.taskType, t.taskType))
  }

  /** The patch that carries every field of `t`, as a client sends a whole edited task. */
  function FullPatch(t: Task): TaskPatch
  {
    TaskPatch(Some(t.title), Some(t.description), Some(t.objectives), Some(t.status),
              Some(t.dueDate), Some(t.assignee), Some(t.createdAt), Some(t.priority),
              Some(t.taskType))
  }

  const EmptyPatch := TaskPatch(None, None, None, None, None, None, None, None, None)

  /** An update carrying no fields leaves the task as it was. */
  lemma MergeEmpty(t: Task)
    ensures Merge(t, EmptyPatch) == t
  {
  }

  /** Applying the same update twice is applying it once. */
  lemma MergeIdempotent(t: Task, p: TaskPatch)
    ensures Merge(Merge(t, p), p) == Merge(t, p)
  {
  }

  /** An update carrying every field of an edited copy makes the stored task equal to that copy. */
  lemma MergeFull(t: Task, edited: Task)
    requires edited.id == t.id
    ensures Merge(t, FullPatch(edited)) == edited
  {
  }

  /** The filters `generateTaskSummary` receives. An empty string is a falsy filter; the dates are
      already parsed timestamps, None when the query left them out. */
  datatype SummaryFilters = SummaryFilters(
    status: string,
    assignee: string,
    priority: string,
    startDate: Option<int>,
    endDate: Option<int>)

  /** The query the filters build: exact match on each truthy string filter, and the inclusive
      range on `createdAt` only when both dates are given. */
  predicate MatchesQuery(t: Task, f: SummaryFilters)
    ensures f.status == "" && f.assignee == "" && f.priority == "" && f.startDate.None? ==>
      MatchesQuery(t, f)
    ensures f.status != "" ==> (MatchesQuery(t, f) ==> t.status == f.status)
    ensures f.assignee != "" ==> (MatchesQuery(t, f) ==> t.assignee == f.assignee)
    ensures f.priority != "" ==> (MatchesQuery(t, f) ==> t.priority == f.priority)
    ensures MatchesQuery(t, f) && f.startDate.Some? && f.endDate.Some? ==>
      f.startDate.value <= t.createdAt <= f.endDate.value
  {
    && (f.status == "" || t.status == f.status)
    && (f.assignee == "" || t.assignee == f.assignee)
    && (f.priority == "" || t.priority == f.priority)
    && (f.startDate.None? || f.endDate.None? ||
        f.startDate.value <= t.createdAt <= f.endDate.value)
  }

  /** The four fields a summary breaks the tasks down by. */
  datatype Breakdown = ByStatus | ByPriority | ByType | ByAssignee

  /** The raw stored value of field `b` of `t`, used as the breakdown key. */
  function KeyOf(t: Task, b: Breakdown): string
  {
    match b
    case ByStatus => t.status
    case ByPriority => t.priority
    case ByType => t.taskType
    case ByAssignee => t.assignee
  }

  function KeysOf(ts: seq<Task>, b: Breakdown): (ks: seq<string>)
    ensures |ks| == |ts|
  {
    seq(|ts|, i requires 0 <= i < |ts| => KeyOf(ts[i], b))
  }

  datatype Summary = Summary(
    totalTasks: nat,
    statusBreakdown: map<string, nat>,
    priorityBreakdown: map<string, nat>,
    typeBreakdown: map<string, nat>,
    assigneeBreakdown: map<string, nat>)
  {
    function Of(b: Breakdown): map<string, nat>
    {
      match b
      case ByStatus => statusBreakdown
      case ByPriority => priorityBreakdown
      case ByType => typeBreakdown
      case ByAssignee => assigneeBreakdown
    }
  }

  /** Every id in `ids` was handed out before `n`. */
  ghost predicate IdsBelow(ids: seq<Id>, n: Id)
  {
    forall j :: 0 <= j < |ids| ==> ids[j] < n
  }

  ghost predicate AccountBelow(a: Account, n: Id)
  {
    a.id < n && IdsBelow(a.tasks, n)
  }

  ghost predicate OrgBelow(o: Organisation, n: Id)
  {
    o.id < n && IdsBelow(o.admins, n) && IdsBelow(o.users, n) && IdsBelow(o.tasks, n)
    && IdsBelow(o.requests, n)
  }

  class Store {
    var users: seq<Account>
    var admins: seq<Account>
    var tasks: seq<Task>
    var orgs: seq<Organisation>
    /** The next fresh id. */
    var nextId: Id

    /** What the store keeps true: every saved account and organisation passed its schema, the
        unique indexes of User and Admin hold, task ids are distinct, and every id anywhere was
        handed out before `nextId`. */
    ghost predicate Valid()
      reads this
    {
      && (forall i :: 0 <= i < |users| ==> UserSchemaOk(users[i]) && AccountBelow(users[i], nextId))
      && (forall i :: 0 <= i < |admins| ==> AdminSchemaOk(admins[i]) && AccountBelow(admins[i], nextId))
      && (forall i :: 0 <= i < |orgs| ==> OrgSchemaOk(orgs[i]) && OrgBelow(orgs[i], nextId))
      && (forall i :: 0 <= i < |tasks| ==> tasks[i].id < nextId)
      && (forall i, j :: 0 <= i < j < |tasks| ==> tasks[i].id != tasks[j].id)
      && UniqueIdentities(users) && UniqueIdentities(admins)
    }

    constructor ()
      ensures Valid()
      ensures users == [] && admins == [] && tasks == [] && orgs == [] && nextId == 0
    {
      users, admins, tasks, orgs, nextId := [], [], [], [], 0;
    }

    /** The collection `findUser` queries for a role: User for "users", Admin for anything else. */
    function Accounts(role: string): seq<Account>
      reads this
    {
      if role == "users" then users else admins
    }

    /** `findUser(username, role)`: the first account of the role's collection with that
        username, or None (mongo.js's `false`). */
    function FindUser(username: string, role: string): (r: Option<Account>)
      reads this
      ensures r.Some? ==> r.value in Accounts(role) && r.value.username == username
      ensures r.None? <==> forall i :: 0 <= i < |Accounts(role)| ==> Accounts(role)[i].username != username
    {
      match FirstIndex(Accounts(role), (a: Account) => a.username == username)
      case None => None
      case Some(i) => Some(Accounts(role)[i])
    }

    /** Position of the first User named `username`. */
    function UserIndex(username: string): Option<nat>
      reads this
    {
      FirstIndex(users, (a: Account) => a.username == username)
    }

    /** `findOrganisation(name)`: the position of the first organisation with that name. */
    function FindOrganisation(name: string): (r: Option<nat>)
      reads this
      ensures r.Some? ==> r.value < |orgs| && orgs[r.value].name == name
      ensures r.Some? ==> forall j :: 0 <= j < r.value ==> orgs[j].name != name
      ensures r.None? <==> forall j :: 0 <= j < |orgs| ==> orgs[j].name != name
    {
      FirstIndex(orgs, (o: Organisation) => o.name == name)
    }

    /** Position of the task with id `id`. */
    function TaskIndex(id: Id): (r: Option<nat>)
      reads this
      ensures r.Some? ==> r.value < |tasks| && tasks[r.value].id == id
      ensures r.None? <==> forall j :: 0 <= j < |tasks| ==> tasks[j].id != id
    {
      FirstIndex(tasks, (t: Task) => t.id == id)
    }

    /** `findTasks(userId, username)`: the tasks whose assignee is `username`, in store order.
        The user id plays no part. */
    function FindTasks(userId: Id, username: string): (r: seq<Task>)
      reads this
      ensures forall i :: 0 <= i < |r| ==> r[i] in tasks && r[i].assignee == username
      ensures forall i :: 0 <= i < |tasks| && tasks[i].assignee == username ==> tasks[i] in r
    {
      Filter(tasks, (t: Task) => t.assignee == username)
    }

    /** `findTasksAdmin(org)`: fails when no organisation has that name; otherwise the tasks whose
        id is in the first such organisation's `tasks` list, in store order. */
    function FindTasksAdmin(org: string): (r: Result<seq<Task>>)
      reads this
      ensures r.Fail? <==> FindOrganisation(org).None?
      ensures r.Fail? ==> r.error == OrganisationNotFound
      ensures r.Ok? ==> forall i :: 0 <= i < |r.value| ==>
        r.value[i] in tasks && r.value[i].id in orgs[FindOrganisation(org).value].tasks
      ensures r.Ok? ==> forall i :: 0 <= i < |tasks| ==>
        (tasks[i].id in orgs[FindOrganisation(org).value].tasks ==> tasks[i] in r.value)
    {
      match FindOrganisation(org)
      case None => Fail(OrganisationNotFound)
      case Some(k) =>
        var ids := orgs[k].tasks;
        Ok(Filter(tasks, (t: Task) => t.id in ids))
    }

    /** `Task.find(query)` for the summary filters. */
    function Query(f: SummaryFilters): (r: seq<Task>)
      reads this
      ensures forall i :: 0 <= i < |r| ==> r[i] in tasks && MatchesQuery(r[i], f)
      ensures forall i :: 0 <= i < |tasks| && MatchesQuery(tasks[i], f) ==> tasks[i] in r
    {
      Filter(tasks, (t: Task) => MatchesQuery(t, f))
    }

    /** The constructor of a new document takes the next fresh id. */
    method NewId() returns (id: Id)
      requires Valid()
      modifies this
      ensures Valid()
      ensures id == old(nextId) && nextId == id + 1
      ensures users == old(users) && admins == old(admins) && tasks == old(tasks) && orgs == old(orgs)
    {
      id := nextId;
      nextId := nextId + 1;
    }

    /** `new User(a).save()`: succeeds when the User schema's required fields are present and
        neither username nor email is taken in the User collection. */
    method SaveUser(a: Account) returns (ok: bool)
      requires Valid() && AccountBelow(a, nextId)
      modifies this
      ensures Valid()
      ensures ok == (UserSchemaOk(a) && !Clashes(old(users), a))
      ensures users == if ok then old(users) + [a] else old(users)
      ensures admins == old(admins) && tasks == old(tasks) && orgs == old(orgs) && nextId == old(nextId)
    {
      ok := UserSchemaOk(a) && !Clashes(users, a);
      if ok {
        AppendKeepsUnique(users, a);
        users := users + [a];
      }
    }

    /** `new Admin(a).save()`: as SaveUser, on the Admin collection and the Admin schema. */
    method SaveAdmin(a: Account) returns (ok: bool)
      requires Valid() && AccountBelow(a, nextId)
      modifies this
      ensures Valid()
      ensures ok == (AdminSchemaOk(a) && !Clashes(old(admins), a))
      ensures admins == if ok then old(admins) + [a] else old(admins)
      ensures users == old(users) && tasks == old(tasks) && orgs == old(orgs) && nextId == old(nextId)
    {
      ok := AdminSchemaOk(a) && !Clashes(admins, a);
      if ok {
        AppendKeepsUnique(admins, a);
        admins := admins + [a];
      }
    }

    /** `new Organisation(o).save()`: succeeds when the name is present; names are not unique. */
    method SaveOrganisation(o: Organisation) returns (ok: bool)
      requires Valid() && OrgBelow(o, nextId)
      modifies this
      ensures Valid()
      ensures ok == OrgSchemaOk(o)
      ensures orgs == if ok then old(orgs) + [o] else old(orgs)
      ensures users == old(users) && admins == old(admins) && tasks == old(tasks) && nextId == old(nextId)
    {
      ok := OrgSchemaOk(o);
      if ok {
        orgs := orgs + [o];
      }
    }

    /** `org.save()` after editing the loaded organisation in place: the document at position `k`
        becomes `o`. The name is unchanged, so the save passes validation. */
    method ResaveOrganisation(k: nat, o: Organisation)
      requires Valid() && k < |orgs| && o.name == orgs[k].name && OrgBelow(o, nextId)
      modifies this
      ensures Valid()
      ensures orgs == old(orgs)[k := o]
      ensures users == old(users) && admins == old(admins) && tasks == old(tasks) && nextId == old(nextId)
    {
      orgs := orgs[k := o];
    }

    /** `insertTask(task)`: fails with "Assignee not found" when no User has the assignee's
        username, and with a validation error when a required field is missing; in both cases
        nothing changes. Otherwise it stores the task under a fresh id, with `assignee` the
        username string, and appends that id once, at the end, to the assignee's `tasks`. */
    method InsertTask(d: TaskDraft) returns (r: Result<Task>)
      requires Valid()
      modifies this
      ensures Valid()
      ensures admins == old(admins) && orgs == old(orgs)
      ensures old(UserIndex(d.assignee)).None? ==>
        r == Fail(AssigneeNotFound) && users == old(users) && tasks == old(tasks)
      ensures old(UserIndex(d.assignee)).Some? && !TaskSchemaOk(d) ==>
        r == Fail(ValidationFailed) && users == old(users) && tasks == old(tasks)
      ensures old(UserIndex(d.assignee)).Some? && TaskSchemaOk(d) ==>
        var k := old(UserIndex(d.assignee)).value;
        && r == Ok(StoredTask(d, old(nextId)))
        && tasks == old(tasks) + [r.value]
        && users == old(users)[k := old(users)[k].(tasks := old(users)[k].tasks + [r.value.id])]
        && multiset(users[k].tasks)[r.value.id] == 1
    {
      var found := UserIndex(d.assignee);
      if found.None? {
        return Fail(AssigneeNotFound);
      }
      if !TaskSchemaOk(d) {
        return Fail(ValidationFailed);
      }
      var k := found.value;
      var id := NewId();
      var t := StoredTask(d, id);
      tasks := tasks + [t];
      var assignee := users[k];
      NotAmong(assignee.tasks, id);
      TasksUpdateKeepsUnique(users, k, assignee.tasks + [id]);
      LinkKeepsAccounts(users, k, id, nextId);
      users := users[k := assignee.(tasks := assignee.tasks + [id])];
      r := Ok(t);
    }

    /** `updateTask(taskId, updateData)`: the post-update task, or None (mongo.js's `false`)
        when no task has that id. Schema validators do not run on this path. */
    method UpdateTask(id: Id, p: TaskPatch) returns (r: Option<Task>)
      requires Valid()
      modifies this
      ensures Valid()
      ensures users == old(users) && admins == old(admins) && orgs == old(orgs)
      ensures old(TaskIndex(id)).None? ==> r.None? && tasks == old(tasks)
      ensures old(TaskIndex(id)).Some? ==>
        var k := old(TaskIndex(id)).value;
        r == Some(Merge(old(tasks)[k], p)) && tasks == old(tasks)[k := r.value]
    {
      var found := TaskIndex(id);
      if found.None? {
        return None;
      }
      var k := found.value;
      var t := Merge(tasks[k], p);
      tasks := tasks[k := t];
      r := Some(t);
    }

    /** `deleteTask(taskId)`: removes that task and returns it, or None when absent. The task
        lists of users and organisations keep the id. */
    method DeleteTask(id: Id) returns (r: Option<Task>)
      requires Valid()
      modifies this
      ensures Valid()
      ensures users == old(users) && admins == old(admins) && orgs == old(orgs)
      ensures old(TaskIndex(id)).None? ==> r.None? && tasks == old(tasks)
      ensures old(TaskIndex(id)).Some? ==>
        var k := old(TaskIndex(id)).value;
        r == Some(old(tasks)[k]) && tasks == old(tasks)[..k] + old(tasks)[k + 1..]
      ensures forall j :: 0 <= j < |tasks| ==> tasks[j].id != id
    {
      var found := TaskIndex(id);
      if found.None? {
        return None;
      }
      var k := found.value;
      r := Some(tasks[k]);
      tasks := tasks[..k] + tasks[k + 1..];
    }

    /** `insertUser(...)`. Role "users": a User without organisation; when `org` is given, its id
        is appended to that organisation's `requests`, and an unknown organisation raises, which
        is caught, so nothing is saved and the result is None. Role "admins": an Admin whose
        `organisation` is `org`; a given `org` gets the Admin's id appended to its `admins`, and an
        unknown one fails the same way. Any other role saves nothing. The organisation is saved
        before the account, so a failing account save leaves the organisation's list extended. */
    method InsertUser(username: string, password: string, email: string, gender: string,
                      role: string, org: string) returns (r: Option<Account>)
      requires Valid()
      modifies this
      ensures Valid()
      ensures tasks == old(tasks)
      ensures role != "users" && role != "admins" ==>
        r.None? && users == old(users) && admins == old(admins) && orgs == old(orgs)
      ensures (role == "users" || role == "admins") && org != "" && old(FindOrganisation(org)).None? ==>
        r.None? && users == old(users) && admins == old(admins) && orgs == old(orgs)
      ensures role == "users" ==> admins == old(admins)
      ensures role == "admins" ==> users == old(users)
      ensures role == "users" && (org == "" || old(FindOrganisation(org)).Some?) ==>
        var u := Account(old(nextId), username, password, email, gender, "", []);
        && r == (if UserSchemaOk(u) && !Clashes(old(users), u) then Some(u) else None)
        && users == (if r.Some? then old(users) + [u] else old(users))
        && orgs == (if org == "" then old(orgs)
                    else var k := old(FindOrganisation(org)).value;
                         old(orgs)[k := old(orgs)[k].(requests := old(orgs)[k].requests + [u.id])])
      ensures role == "admins" && (org == "" || old(FindOrganisation(org)).Some?) ==>
        var a := Account(old(nextId), username, password, email, gender, org, []);
        && r == (if AdminSchemaOk(a) && !Clashes(old(admins), a) then Some(a) else None)
        && admins == (if r.Some? then old(admins) + [a] else old(admins))
        && orgs == (if org == "" then old(orgs)
                    else var k := old(FindOrganisation(org)).value;
                         old(orgs)[k := old(orgs)[k].(admins := old(orgs)[k].admins + [a.id])])
    {
      if role == "users" {
        var id := NewId();
        var u := Account(id, username, password, email, gender, "", []);
        if org != "" {
          var found := FindOrganisation(org);
          if found.None? {
            return None;
          }
          var o := orgs[found.value];
          ResaveOrganisation(found.value, o.(requests := o.requests + [id]));
        }
        var ok := SaveUser(u);
        r := if ok then Some(u) else None;
      } else if role == "admins" {
        var id := NewId();
        var a := Account(id, username, password, email, gender, org, []);
        if org != "" {
          var found := FindOrganisation(org);
          if found.None? {
            return None;
          }
          var o := orgs[found.value];
          ResaveOrganisation(found.value, o.(admins := o.admins + [id]));
        }
        var ok := SaveAdmin(a);
        r := if ok then Some(a) else None;
      } else {
        r := None;
      }
    }

    /** `generateTaskSummary(filters)`: runs the query the filters build, then summarises the
        tasks it selects. */
    method GenerateTaskSummary(f: SummaryFilters) returns (s: Summary)
      ensures s.totalTasks == |Query(f)|
      ensures forall b: Breakdown :: s.Of(b) == Tally(KeysOf(Query(f), b))
      ensures forall b: Breakdown :: Total(s.Of(b)) == s.totalTasks
    {
      var selected := Query(f);
      s := Summarize(selected);
    }
  }

  /** The summary of the selected tasks, counted in one pass as the `forEach` does: the number of
      tasks, and for each of status, priority, type and assignee a map from each raw stored value
      among them to its number of occurrences. Each breakdown's counts add up to the total. */
  method Summarize(selected: seq<Task>) returns (s: Summary)
    ensures s.totalTasks == |selected|
    ensures forall b: Breakdown :: s.Of(b) == Tally(KeysOf(selected, b))
    ensures forall b: Breakdown :: Total(s.Of(b)) == s.totalTasks
  {
    s := Summary(0, map[], map[], map[], map[]);
    for i := 0 to |selected|
      invariant Counted(s, selected, i)
    {
      var t := selected[i];
      CountedStep(s, selected, i);
      s := Summary(i + 1, Inc(s.statusBreakdown, t.status), Inc(s.priorityBreakdown, t.priority),
                   Inc(s.typeBreakdown, t.taskType), Inc(s.assigneeBreakdown, t.assignee));
    }
    CountedAll(s, selected);
  }

  /** `s` is the summary of the first `i` selected tasks. */
  ghost predicate Counted(s: Summary, ts: seq<Task>, i: nat)
    requires i <= |ts|
  {
    && s.totalTasks == i
    && (forall b: Breakdown :: s.Of(b) == Tally(KeysOf(ts, b)[..i]))
  }

  /** Counting task `i` adds one to its key in each of the four breakdowns. */
  lemma CountedStep(s: Summary, ts: seq<Task>, i: nat)
    requires i < |ts| && Counted(s, ts, i)
    ensures var t := ts[i];
      Counted(Summary(i + 1, Inc(s.statusBreakdown, t.status), Inc(s.priorityBreakdown, t.priority),
                      Inc(s.typeBreakdown, t.taskType), Inc(s.assigneeBreakdown, t.assignee)), ts, i + 1)
  {
    forall b: Breakdown ensures Tally(KeysOf(ts, b)[..i + 1]) == Inc(s.Of(b), KeyOf(ts[i], b)) {
      TallyStep(ts, b, i);
    }
  }

  /** Once every task is counted, each breakdown is the tally of all keys and sums to the total. */
  lemma CountedAll(s: Summary, ts: seq<Task>)
    requires Counted(s, ts, |ts|)
    ensures s.totalTasks == |ts|
    ensures forall b: Breakdown :: s.Of(b) == Tally(KeysOf(ts, b))
    ensures forall b: Breakdown :: Total(s.Of(b)) == s.totalTasks
  {
    forall b: Breakdown
      ensures s.Of(b) == Tally(KeysOf(ts, b)) && Total(s.Of(b)) == s.totalTasks
    {
      assert KeysOf(ts, b)[..|ts|] == KeysOf(ts, b);
      TallyTotal(KeysOf(ts, b));
    }
  }

  /** Counting one more task of the selection extends the tally by that task's key. */
  lemma TallyStep(ts: seq<Task>, b: Breakdown, i: nat)
    requires i < |ts|
    ensures Tally(KeysOf(ts, b)[..i + 1]) == Inc(Tally(KeysOf(ts, b)[..i]), KeyOf(ts[i], b))
  {
    var ks := KeysOf(ts, b);
    assert ks[..i + 1][..i] == ks[..i];
  }

  /** Adding an id handed out before `n` to one account's task list keeps every account
      schema-valid and below `n`. */
  lemma LinkKeepsAccounts(coll: seq<Account>, k: nat, id: Id, n: Id)
    requires k < |coll| && id < n
    requires forall i :: 0 <= i < |coll| ==> UserSchemaOk(coll[i]) && AccountBelow(coll[i], n)
    ensures var c := coll[k := coll[k].(tasks := coll[k].tasks + [id])];
      forall i :: 0 <= i < |c| ==> UserSchemaOk(c[i]) && AccountBelow(c[i], n)
  {
  }

  /** A fresh id appended to a list of older ids occurs in it exactly once. */
  lemma NotAmong(ids: seq<Id>, id: Id)
    requires IdsBelow(ids, id)
    ensures multiset(ids + [id])[id] == 1
  {
    assert id !in ids;
    assert multiset(ids)[id] == 0;
  }

  /** With no filter the summary counts every stored task. */
  lemma EmptyFilterSelectsAll(s: Store)
    ensures s.Query(SummaryFilters("", "", "", None, None)) == s.tasks
  {
    FilterAll(s.tasks, (t: Task) => MatchesQuery(t, SummaryFilters("", "", "", None, None)));
  }
}
