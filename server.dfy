/** The request handlers of server/server.js, one request at a time, over a Store. Password hashing
    and token signing are outside the model: `argon2.hash` is the digest the caller passes in,
    `argon2.verify` and `jwt.verify` are function parameters (None when the library throws), and a
    signed token is represented by the payload handed to `jwt.sign`. A handler that throws outside a
    try block answers nothing; that outcome is `Crashed`. */
module Server {
  import opened Util
  import opened Models
  import opened Mongo
  import opened JsText
  import opened Counting

  /** Seconds in the "1h" lifetime every token is signed with. */
  const TokenLifetime: nat := 3600

  /** The payload of a signed token. */
  datatype Token = Token(name: string, expiresInSeconds: nat)

  // ----- /validateCreds -----

  datatype LoginResponse =
    | LoginSuccess(token: Token)
    | LoginFailure(message: string)
    | LoginServerError

  /** POST /validateCreds. `checkExist` looks the username up in the role's collection; a missing
      account, or one without a password, is "User does not exist"; a password the digest does not
      verify is "Invalid password"; a verified one gets a one-hour token naming the account. When
      the verifier throws the answer is the 500 "Server error". */
  method ValidateCreds(store: Store, username: string, password: string, role: string,
                       verify: (string, string) -> Option<bool>) returns (resp: LoginResponse)
    ensures resp == LoginFailure("User does not exist") <==>
      store.FindUser(username, role).None? || store.FindUser(username, role).value.password == ""
    ensures resp == LoginFailure("Invalid password") <==>
      var found := store.FindUser(username, role);
      found.Some? && found.value.password != "" && verify(found.value.password, password) == Some(false)
    ensures resp.LoginSuccess? <==>
      var found := store.FindUser(username, role);
      found.Some? && found.value.password != "" && verify(found.value.password, password) == Some(true)
    ensures resp.LoginSuccess? ==> resp.token == Token(username, TokenLifetime)
    ensures resp.LoginServerError? <==>
      var found := store.FindUser(username, role);
      found.Some? && found.value.password != "" && verify(found.value.password, password).None?
  {
    var found := store.FindUser(username, role);
    if found.Some? && found.value.password != "" {
      var check := verify(found.value.password, password);
      if check.None? {
        resp := LoginServerError;
      } else if check.value {
        resp := LoginSuccess(Token(found.value.username, TokenLifetime));
      } else {
        resp := LoginFailure("Invalid password");
      }
    } else {
      resp := LoginFailure("User does not exist");
    }
  }

  // ----- /protected -----

  /** `authHeader && authHeader.split(" ")[1]`: None stands for `undefined`. An absent header gives
      no token; an empty header gives the empty token itself; otherwise the second space-separated
      piece, if there is one. */
  function BearerToken(authorization: Option<string>): (r: Option<string>)
    ensures authorization.None? ==> r.None?
    ensures authorization == Some("") ==> r == Some("")
    ensures r.Some? ==> ' ' !in r.value
  {
    match authorization
    case None => None
    case Some(h) =>
      if h == "" then Some("")
      else
        var parts := SplitOn(h, ' ');
        if |parts| > 1 then Some(parts[1]) else None
  }

  /** The header a client builds as `Bearer ${token}` yields that token back. */
  lemma BearerRoundTrip(token: string)
    requires ' ' !in token
    ensures BearerToken(Some("Bearer " + token)) == Some(token)
  {
    SplitAfterPiece("Bearer", ' ', token);
    assert "Bearer" + [' '] + token == "Bearer " + token;
    SplitWithoutSep(token, ' ');
  }

  /** A header without a space, such as a bare token, yields no token and so a 401. */
  lemma NoSpaceNoToken(h: string)
    requires h != "" && ' ' !in h
    ensures BearerToken(Some(h)).None?
  {
    SplitWithoutSep(h, ' ');
  }

  datatype ProtectedResponse =
    | StatusOnly(code: nat)
    | UserProfile(username: string, gender: string, tasks: Option<seq<Task>>)
    | AdminProfile(username: string, gender: string, organisation: string, tasks: Option<seq<Task>>)
    | NoResponse

  /** The username a verified token carries, None when there is no token or verification throws. */
  function TokenName(authorization: Option<string>, verifyJwt: string -> Option<string>): (r: Option<string>)
    ensures BearerToken(authorization).None? ==> r.None?
    ensures r.Some? ==> verifyJwt(BearerToken(authorization).value) == r
  {
    match BearerToken(authorization)
    case None => None
    case Some(t) => verifyJwt(t)
  }

  /** GET /protected. No token: 401. A token whose verification throws: 403. Role "users": 404
      without a User of the token's name, else that user's name and gender, with the tasks assigned
      to them exactly when the `tasks` header is "true". Role "admins": likewise on the Admin
      collection, adding the organisation and, on request, the organisation's tasks; a missing
      organisation then makes `findTasksAdmin` throw, which the handler turns into 403. Any other
      role is never answered. */
  method Protected(store: Store, authorization: Option<string>, role: string, tasksHeader: string,
                   verifyJwt: string -> Option<string>) returns (resp: ProtectedResponse)
    ensures resp == StatusOnly(401) <==> BearerToken(authorization).None?
    ensures resp == StatusOnly(404) <==>
      var name := TokenName(authorization, verifyJwt);
      name.Some? && (role == "users" || role == "admins") && store.FindUser(name.value, role).None?
    ensures resp.UserProfile? <==>
      var name := TokenName(authorization, verifyJwt);
      name.Some? && role == "users" && store.FindUser(name.value, role).Some?
    ensures resp.UserProfile? ==>
      var u := store.FindUser(TokenName(authorization, verifyJwt).value, role).value;
      && resp.username == u.username && resp.gender == u.gender
      && (resp.tasks.Some? <==> tasksHeader == "true")
      && (resp.tasks.Some? ==> resp.tasks.value == store.FindTasks(u.id, u.username))
    ensures resp.AdminProfile? ==>
      var name := TokenName(authorization, verifyJwt);
      && name.Some? && role == "admins" && store.FindUser(name.value, role).Some?
      && var a := store.FindUser(name.value, role).value;
      && resp.username == a.username && resp.gender == a.gender
      && resp.organisation == a.organisation
      && (resp.tasks.Some? <==> tasksHeader == "true")
      && (resp.tasks.Some? ==> store.FindTasksAdmin(a.organisation) == Ok(resp.tasks.value))
    ensures resp.AdminProfile? <==>
      var name := TokenName(authorization, verifyJwt);
      && name.Some? && role == "admins" && store.FindUser(name.value, role).Some?
      && (tasksHeader != "true" || store.FindTasksAdmin(store.FindUser(name.value, role).value.organisation).Ok?)
    ensures resp == StatusOnly(403) <==>
      var name := TokenName(authorization, verifyJwt);
      && BearerToken(authorization).Some?
      && (|| name.None?
          || (&& role == "admins" && tasksHeader == "true" && store.FindUser(name.value, role).Some?
              && store.FindTasksAdmin(store.FindUser(name.value, role).value.organisation).Fail?))
    ensures resp.NoResponse? <==>
      TokenName(authorization, verifyJwt).Some? && role != "users" && role != "admins"
  {
    var token := BearerToken(authorization);
    if token.None? {
      return StatusOnly(401);
    }
    var decoded := verifyJwt(token.value);
    if decoded.None? {
      return StatusOnly(403);
    }
    var name := decoded.value;
    if role == "users" {
      var user := store.FindUser(name, role);
      if user.None? {
        return StatusOnly(404);
      }
      var u := user.value;
      var tasks := if tasksHeader == "true" then Some(store.FindTasks(u.id, u.username)) else None;
      resp := UserProfile(u.username, u.gender, tasks);
    } else if role == "admins" {
      var admin := store.FindUser(name, role);
      if admin.None? {
        return StatusOnly(404);
      }
      var a := admin.value;
      if tasksHeader == "true" {
        var found := store.FindTasksAdmin(a.organisation);
        if found.Fail? {
          return StatusOnly(403);
        }
        resp := AdminProfile(a.username, a.gender, a.organisation, Some(found.value));
      } else {
        resp := AdminProfile(a.username, a.gender, a.organisation, None);
      }
    } else {
      resp := NoResponse;
    }
  }

  // ----- /api/register -----

  /** The registration body; absent fields are the empty string. */
  datatype RegisterBody = RegisterBody(
    username: string,
    password: string,
    email: string,
    gender: string,
    role: string,
    organisation: string)

  datatype RegisterResponse = Registered(token: Token) | AlreadyExists | RegisterCrashed

  /** The User document registration creates under id `id`. */
  function NewUserRecord(b: RegisterBody, hash: string, id: Id): Account
  {
    Account(id, b.username, hash, b.email, b.gender, b.organisation, [])
  }

  /** Registration of an admin whose username is free in Admin: the Admin is saved, then a User
      with the same digest, then the User's id (not the Admin's) is appended to the named
      organisation's `admins`, or a new organisation is created with that id as its only admin
      and only user. A failing save crashes the request, keeping the saves before it. */
  method RegisterAdmin(store: Store, b: RegisterBody, hash: string) returns (resp: RegisterResponse)
    requires store.Valid() && b.role == "admins"
    modifies store
    ensures store.Valid()
    ensures store.tasks == old(store.tasks) && resp != AlreadyExists
    ensures resp.Registered? ==> resp.token == Token(b.username, TokenLifetime)
    ensures
      var a := NewUserRecord(b, hash, old(store.nextId));
      var u := NewUserRecord(b, hash, old(store.nextId) + 1);
      && (resp.Registered? <==>
            AdminSchemaOk(a) && !Clashes(old(store.admins), a) && !Clashes(old(store.users), u))
      && store.admins == (if AdminSchemaOk(a) && !Clashes(old(store.admins), a)
                          then old(store.admins) + [a] else old(store.admins))
      && store.users == (if resp.Registered? then old(store.users) + [u] else old(store.users))
      && store.orgs == (
        if !resp.Registered? then old(store.orgs)
        else match old(store.FindOrganisation(b.organisation))
          case Some(k) =>
            old(store.orgs)[k := old(store.orgs)[k].(admins := old(store.orgs)[k].admins + [u.id])]
          case None =>
            old(store.orgs) + [Organisation(old(store.nextId) + 2, b.organisation, [u.id], [u.id], [], [])])
  {
    ghost var found0 := store.FindOrganisation(b.organisation);
    var userId, saved := SaveAdminThenUser(store, b, hash);
    if !saved {
      return RegisterCrashed;
    }
    assert store.FindOrganisation(b.organisation) == found0;
    LinkAdmin(store, b.organisation, userId);
    resp := Registered(Token(b.username, TokenLifetime));
  }

  /** The two saves of an admin registration: the Admin under the next id and, if it was saved,
      the User under the one after. */
  method SaveAdminThenUser(store: Store, b: RegisterBody, hash: string) returns (userId: Id, saved: bool)
    requires store.Valid()
    modifies store
    ensures store.Valid()
    ensures store.tasks == old(store.tasks) && store.orgs == old(store.orgs)
    ensures
      var a := NewUserRecord(b, hash, old(store.nextId));
      var u := NewUserRecord(b, hash, old(store.nextId) + 1);
      && (saved <==> AdminSchemaOk(a) && !Clashes(old(store.admins), a) && !Clashes(old(store.users), u))
      && store.admins == (if AdminSchemaOk(a) && !Clashes(old(store.admins), a)
                          then old(store.admins) + [a] else old(store.admins))
      && store.users == (if saved then old(store.users) + [u] else old(store.users))
      && (saved ==> userId == u.id && store.nextId == userId + 1 && b.organisation != "")
  {
    var adminId := store.NewId();
    var adminSaved := store.SaveAdmin(NewUserRecord(b, hash, adminId));
    if !adminSaved {
      return 0, false;
    }
    userId := store.NewId();
    saved := store.SaveUser(NewUserRecord(b, hash, userId));
  }

  /** The organisation step of an admin registration: the User's id joins the named
      organisation's `admins`, or a new organisation is saved under the next id with that id as
      its only admin and only user. */
  method LinkAdmin(store: Store, organisation: string, userId: Id)
    requires store.Valid() && userId < store.nextId && organisation != ""
    modifies store
    ensures store.Valid()
    ensures store.users == old(store.users) && store.admins == old(store.admins)
    ensures store.tasks == old(store.tasks)
    ensures store.orgs == match old(store.FindOrganisation(organisation))
      case Some(k) => old(store.orgs)[k := old(store.orgs)[k].(admins := old(store.orgs)[k].admins + [userId])]
      case None => old(store.orgs) + [Organisation(old(store.nextId), organisation, [userId], [userId], [], [])]
  {
    var found := store.FindOrganisation(organisation);
    if found.Some? {
      var o := store.orgs[found.value];
      store.ResaveOrganisation(found.value, o.(admins := o.admins + [userId]));
    } else {
      var orgId := store.NewId();
      var created := store.SaveOrganisation(Organisation(orgId, organisation, [userId], [userId], [], []));
      assert created;
    }
  }

  /** Registration under any other role, with the username free in that role's collection: a User
      is saved; when an organisation is named and exists, the User's id is appended to its `users`
      (not `requests`); a named organisation that does not exist is skipped. A failing save
      crashes the request. */
  method RegisterMember(store: Store, b: RegisterBody, hash: string) returns (resp: RegisterResponse)
    requires store.Valid() && b.role != "admins"
    modifies store
    ensures store.Valid()
    ensures store.tasks == old(store.tasks) && resp != AlreadyExists
    ensures resp.Registered? ==> resp.token == Token(b.username, TokenLifetime)
    ensures
      var u := NewUserRecord(b, hash, old(store.nextId));
      && store.admins == old(store.admins)
      && (resp.Registered? <==> UserSchemaOk(u) && !Clashes(old(store.users), u))
      && store.users == (if resp.Registered? then old(store.users) + [u] else old(store.users))
      && store.orgs == (
        if resp.Registered? && b.organisation != "" && old(store.FindOrganisation(b.organisation)).Some?
        then var k := old(store.FindOrganisation(b.organisation)).value;
             old(store.orgs)[k := old(store.orgs)[k].(users := old(store.orgs)[k].users + [u.id])]
        else old(store.orgs))
  {
    ghost var found0 := store.FindOrganisation(b.organisation);
    var userId := store.NewId();
    var saved := store.SaveUser(NewUserRecord(b, hash, userId));
    if !saved {
      return RegisterCrashed;
    }
    if b.organisation != "" {
      var found := store.FindOrganisation(b.organisation);
      assert found == found0;
      if found.Some? {
        var o := store.orgs[found.value];
        store.ResaveOrganisation(found.value, o.(users := o.users + [userId]));
      }
    }
    resp := Registered(Token(b.username, TokenLifetime));
  }

  /** POST /api/register. `checkExist` looks the username up in the role's collection (User for
      "users", Admin for any other role); when taken the answer is "User already exists" and
      nothing is created. Otherwise an admin registration or a member registration follows. */
  method Register(store: Store, b: RegisterBody, hash: string) returns (resp: RegisterResponse)
    requires store.Valid()
    modifies store
    ensures store.Valid()
    ensures store.tasks == old(store.tasks)
    ensures resp == AlreadyExists <==> old(store.FindUser(b.username, b.role)).Some?
    ensures resp == AlreadyExists ==>
      store.users == old(store.users) && store.admins == old(store.admins) && store.orgs == old(store.orgs)
    ensures resp.Registered? ==> resp.token == Token(b.username, TokenLifetime)
    // Any role but "admins": only a User, and `users` (not `requests`) of an existing organisation.
    ensures b.role != "admins" && resp != AlreadyExists ==>
      var u := NewUserRecord(b, hash, old(store.nextId));
      && store.admins == old(store.admins)
      && (resp.Registered? <==> UserSchemaOk(u) && !Clashes(old(store.users), u))
      && store.users == (if resp.Registered? then old(store.users) + [u] else old(store.users))
      && store.orgs == (
        if resp.Registered? && b.organisation != "" && old(store.FindOrganisation(b.organisation)).Some?
        then var k := old(store.FindOrganisation(b.organisation)).value;
             old(store.orgs)[k := old(store.orgs)[k].(users := old(store.orgs)[k].users + [u.id])]
        else old(store.orgs))
    // Role "admins": an Admin and a User sharing the digest; the User's id goes into `admins`.
    ensures b.role == "admins" && resp != AlreadyExists ==>
      var a := NewUserRecord(b, hash, old(store.nextId));
      var u := NewUserRecord(b, hash, old(store.nextId) + 1);
      && (resp.Registered? <==>
            AdminSchemaOk(a) && !Clashes(old(store.admins), a) && !Clashes(old(store.users), u))
      && store.admins == (if AdminSchemaOk(a) && !Clashes(old(store.admins), a)
                          then old(store.admins) + [a] else old(store.admins))
      && store.users == (if resp.Registered? then old(store.users) + [u] else old(store.users))
      && store.orgs == (
        if !resp.Registered? then old(store.orgs)
        else match old(store.FindOrganisation(b.organisation))
          case Some(k) =>
            old(store.orgs)[k := old(store.orgs)[k].(admins := old(store.orgs)[k].admins + [u.id])]
          case None =>
            old(store.orgs) + [Organisation(old(store.nextId) + 2, b.organisation, [u.id], [u.id], [], [])])
  {
    var taken := store.FindUser(b.username, b.role);
    if taken.Some? {
      return AlreadyExists;
    }
    if b.role == "admins" {
      resp := RegisterAdmin(store, b, hash);
    } else {
      resp := RegisterMember(store, b, hash);
    }
  }

  // ----- /api/admins/addTask -----

  datatype AddTaskResponse = TaskAdded(task: Task) | AddTaskCrashed

  /** POST /api/admins/addTask. `insertTask` runs first; when it throws the request crashes and
      nothing changes. Otherwise the new task's id is appended to the named organisation's `tasks`
      when that organisation exists, so the id is then in both the assignee's and the
      organisation's task lists. */
  method AdminAddTask(store: Store, d: TaskDraft, organisation: string) returns (resp: AddTaskResponse)
    requires store.Valid()
    modifies store
    ensures store.Valid()
    ensures store.admins == old(store.admins)
    ensures resp.AddTaskCrashed? <==> old(store.UserIndex(d.assignee)).None? || !TaskSchemaOk(d)
    ensures resp.AddTaskCrashed? ==>
      store.users == old(store.users) && store.tasks == old(store.tasks) && store.orgs == old(store.orgs)
    ensures resp.TaskAdded? ==>
      var k := old(store.UserIndex(d.assignee)).value;
      && resp.task == StoredTask(d, old(store.nextId))
      && store.tasks == old(store.tasks) + [resp.task]
      && store.users == old(store.users)[k := old(store.users)[k].(tasks := old(store.users)[k].tasks + [resp.task.id])]
      && store.orgs == (
        match old(store.FindOrganisation(organisation))
        case None => old(store.orgs)
        case Some(j) => old(store.orgs)[j := old(store.orgs)[j].(tasks := old(store.orgs)[j].tasks + [resp.task.id])])
  {
    var inserted := store.InsertTask(d);
    if inserted.Fail? {
      return AddTaskCrashed;
    }
    var t := inserted.value;
    var found := store.FindOrganisation(organisation);
    if found.Some? {
      var o := store.orgs[found.value];
      store.ResaveOrganisation(found.value, o.(tasks := o.tasks + [t.id]));
    }
    resp := TaskAdded(t);
  }

  // ----- /api/tasks/summary -----

  /** GET /api/tasks/summary. The query's strings become the filters as they are; the date range
      is used only when both dates are given, each read by `parseDate`. */
  method TaskSummary(store: Store, status: string, assignee: string, priority: string,
                     startDate: string, endDate: string, parseDate: string -> int) returns (s: Summary)
    ensures var f := SummaryFilters(status, assignee, priority,
                                    if startDate != "" then Some(parseDate(startDate)) else None,
                                    if endDate != "" then Some(parseDate(endDate)) else None);
      && s.totalTasks == |store.Query(f)|
      && (forall b: Breakdown :: s.Of(b) == Tally(KeysOf(store.Query(f), b)))
      && (forall b: Breakdown :: Total(s.Of(b)) == s.totalTasks)
  {
    var f := SummaryFilters(status, assignee, priority,
                            if startDate != "" then Some(parseDate(startDate)) else None,
                            if endDate != "" then Some(parseDate(endDate)) else None);
    s := store.GenerateTaskSummary(f);
  }

  // ----- properties across requests -----

  /** A user who registered with digest `hash` of `password` logs in with that password and gets
      a token carrying their username. */
  method RegisterThenLogin(store: Store, b: RegisterBody, hash: string,
                           verify: (string, string) -> Option<bool>)
    returns (reg: RegisterResponse, login: LoginResponse)
    requires store.Valid() && b.role == "users" && verify(hash, b.password) == Some(true)
    modifies store
    ensures reg.Registered? ==> login == LoginSuccess(Token(b.username, TokenLifetime))
  {
    reg := Register(store, b, hash);
    login := ValidateCreds(store, b.username, b.password, b.role, verify);
    if reg.Registered? {
      var u := store.users[|store.users| - 1];
      assert store.users == old(store.users) + [u];
      assert store.FindUser(b.username, b.role) == Some(u) by {
        assert forall i :: 0 <= i < |old(store.users)| ==> old(store.users)[i].username != b.username;
      }
    }
  }
}
