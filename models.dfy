/** The four document shapes of server/models.js and what their schemas demand of a document
    before it may be saved: the `required` fields and the `unique` indexes. */
module Models {
  import opened Util

  /** A document id (a Mongo ObjectId), drawn from one counter shared by all collections. */
  type Id = nat

  /** A User or an Admin document. The two schemas have the same fields; they differ in that
      `organisation` is required only on Admin, and they live in separate collections, so the same
      username may exist in both. An absent `organisation` is the empty string. */
  datatype Account = Account(
    id: Id,
    username: string,
    password: string,
    email: string,
    gender: string,
    organisation: string,
    tasks: seq<Id>)

  /** A Task document. `assignee` is the assignee's username, not a reference. `dueDate` is kept as
      the ISO text the client reads back; `createdAt` as a timestamp. */
  datatype Task = Task(
    id: Id,
    title: string,
    description: string,
    objectives: seq<string>,
    status: string,
    dueDate: string,
    assignee: string,
    createdAt: int,
    priority: string,
    taskType: string)

  /** The fields of a task as a request body carries them, before the store gives it an id.
      Absent fields are the empty string. */
  datatype TaskDraft = TaskDraft(
    title: string,
    description: string,
    objectives: seq<string>,
    status: string,
    dueDate: string,
    assignee: string,
    createdAt: int,
    priority: string,
    taskType: string)

  /** An Organisation document: its name and four lists of ids. */
  datatype Organisation = Organisation(
    id: Id,
    name: string,
    admins: seq<Id>,
    users: seq<Id>,
    tasks: seq<Id>,
    requests: seq<Id>)

  /** Mongoose's `required` check on a String path: present and not empty. */
  predicate Present(s: string)
  {
    |s| > 0
  }

  /** The required fields of the User schema. */
  predicate UserSchemaOk(a: Account)
  {
    Present(a.username) && Present(a.password) && Present(a.email) && Present(a.gender)
  }

  /** The required fields of the Admin schema: those of User plus `organisation`. */
  predicate AdminSchemaOk(a: Account)
  {
    UserSchemaOk(a) && Present(a.organisation)
  }

  /** The required fields of the Task schema. Every array satisfies `objectives`, and `createdAt`
      is always present in this model. */
  predicate TaskSchemaOk(d: TaskDraft)
  {
    && Present(d.title) && Present(d.description) && Present(d.status) && Present(d.dueDate)
    && Present(d.assignee) && Present(d.priority) && Present(d.taskType)
  }

  /** The required field of the Organisation schema. */
  predicate OrgSchemaOk(o: Organisation)
  {
    Present(o.name)
  }

  /** The document `new Task({...draft})` creates under id `id`. */
  function StoredTask(d: TaskDraft, id: Id): (t: Task)
    ensures t.id == id && t.assignee == d.assignee
  {
    Task(id, d.title, d.description, d.objectives, d.status, d.dueDate, d.assignee,
         d.createdAt, d.priority, d.taskType)
  }

  /** Saving `a` into `coll` would break a unique index: its username or its email is taken. */
  predicate Clashes(coll: seq<Account>, a: Account)
  {
    exists i :: 0 <= i < |coll| && (coll[i].username == a.username || coll[i].email == a.email)
  }

  /** The unique indexes of one account collection hold: no two documents share a username or an
      email. */
  ghost predicate UniqueIdentities(coll: seq<Account>)
  {
    forall i, j :: 0 <= i < j < |coll| ==>
      coll[i].username != coll[j].username && coll[i].email != coll[j].email
  }

  /** A save that does not clash keeps the unique indexes. */
  lemma AppendKeepsUnique(coll: seq<Account>, a: Account)
    requires UniqueIdentities(coll) && !Clashes(coll, a)
    ensures UniqueIdentities(coll + [a])
  {
    forall i, j | 0 <= i < j < |coll| + 1
      ensures (coll + [a])[i].username != (coll + [a])[j].username
      ensures (coll + [a])[i].email != (coll + [a])[j].email
    {
      if j == |coll| {
        assert (coll + [a])[i] == coll[i];
      }
    }
  }

  /** Under the unique index a username names at most one account: looking it up finds exactly
      the account that holds it. */
  lemma {:induction false} UsernameIsKey(coll: seq<Account>, k: nat)
    requires UniqueIdentities(coll) && k < |coll|
    ensures FirstIndex(coll, (a: Account) => a.username == coll[k].username) == Some(k)
  {
    var name := coll[k].username;
    var r := FirstIndex(coll, (a: Account) => a.username == name);
    assert r.Some?;
  }

  /** Replacing an account's task list keeps the collection's unique indexes. */
  lemma TasksUpdateKeepsUnique(coll: seq<Account>, k: nat, ts: seq<Id>)
    requires UniqueIdentities(coll) && k < |coll|
    ensures UniqueIdentities(coll[k := coll[k].(tasks := ts)])
  {
  }
}
