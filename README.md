# Task manager: a Dafny model of its task-ownership bookkeeping

The system is a small task manager. A Next.js front end talks to an Express server that keeps
four MongoDB collections: Users, Admins, Tasks and Organisations. Users and admins register and
log in with a password, which the server hashes with argon2. They then carry a one-hour JWT. An
admin assigns tasks to users of their organisation. A user sees the tasks assigned to them, and
can add personal tasks. Both kinds of task page filter, search and paginate the list they get.

This project models the parts of that system that keep the books:

- **Records and schemas** (`models.dfy`, module `Models`). An account, a task, a task draft and
  an organisation are datatypes. The predicates say what each Mongoose schema requires. The
  unique indexes on username and email are an invariant of each account collection.
- **The store** (`mongo.dfy`, module `Mongo`).
  - `Mongo.Store` is a class whose fields are the four collections, kept in insertion order
    (Mongo's natural order, so "find one" is "first match"). A shared counter hands out fresh ids.
  - `Store.Valid()` is the invariant every operation keeps: every account and organisation
    passed its schema, the unique indexes hold, task ids are distinct, and no id is ahead of the
    counter. Tasks are not required to pass the Task schema: `updateTask` uses
    `findByIdAndUpdate`, which runs no validators, so an update may store a task that the schema
    would reject.
  - The lookups are functions. `insertTask`, `updateTask`, `deleteTask` and `insertUser` are
    methods over the store.
  - `generateTaskSummary` is a counting loop, proved against the `Tally` of each breakdown
    (`counting.dfy`, module `Counting`). Every breakdown sums to the total. This is the intended
    count: the source counts into plain objects, and keys that name `Object.prototype` members
    break it (see Findings).
- **The request handlers** (`server.dfy`, module `Server`). `/validateCreds`, `/protected`,
  `/api/register`, `/api/admins/addTask` and `/api/tasks/summary` each handle one request as a
  step on the store.
  - argon2 and jsonwebtoken are parameters. `verify` and `verifyJwt` return None where the
    library throws; the hash is a digest passed in. A signed token is represented by the payload
    given to `jwt.sign`.
  - A save that fails outside a `try` leaves the request unanswered. The model calls that outcome
    `Crashed`, and the store keeps whatever was saved before the failure.
- **The pages' list logic.**
  - Local edits by `_id` and page arithmetic are shared by both pages: `task_list.dfy`, module
    `TaskList`.
  - Objective edits, the edit form and the due-date input are in `task_edit.dfy`, module
    `TaskEdit`.
  - The admin page's filter, pagination and submission are in `admin_tasks_page.dfy`, module
    `AdminTasksPage`.
  - The user page's filter, page count and personal task are in `tasks_page.dfy`, module
    `TasksPage`.
  - The detail view's objective-completion map is in `completion.dfy`, module `Completion`.
- **JavaScript built-ins the code relies on.** `trim`, ASCII `toLowerCase`, `includes` and a
  one-character `split` are in `jstext.dfy` (module `JsText`). `Array.prototype.filter` and
  first-match search are in `util.dfy` (module `Util`).

Behaviour the model records as the code has it:

- Registering a plain user with an existing organisation appends the user's id to the
  organisation's `users`. Only `insertUser` appends to `requests`.
- Registering an admin appends the id of the *User* record, not the Admin record, to the
  organisation's `admins`.
- Registering an admin whose username or email is already taken by a User saves the Admin, then
  fails on the User save. The request is left unanswered, and an Admin is left with no
  organisation link.
- `deleteTask` leaves the task's id in every user's and organisation's task list.
- The new-task forms create the statuses "pending", "in progress" and "completed". The status
  filters offer "Pending", "In Progress" and "Completed". The comparison is case-sensitive, so a
  task created by a form is hidden as soon as a status is chosen.
- The admin page ignores a search made only of white space. The user page does not: there, a
  search of one space drops every task whose title and description have no space.

## Model

| member | source | states |
|---|---|---|
| `Util.FirstIndex` | server/mongo.js:59-66 | The index of the first element that passes the test, with no earlier element passing it; None exactly when no element passes. This is the search behind `findOne`. |
| `Util.Filter` | server/mongo.js:100-108 | Never longer than the list. Every kept element comes from the list and passes the test, and every passing element is kept. This is the order-keeping filter behind `find` and `Array.prototype.filter`. |
| `Util.FilterAppend` | server/mongo.js:100-108 | Filtering a concatenation filters each part and keeps them in order. |
| `Models.StoredTask` | server/models.js:21-31 | The saved task has the id it was given and the assignee's username string as `assignee`. |
| `Models.AppendKeepsUnique` | server/models.js:3-19 | Saving an account whose username and email are both new keeps the collection's unique indexes. |
| `Models.UsernameIsKey` | server/models.js:4 | Under the unique index, looking up an account's username finds exactly that account. |
| `Models.TasksUpdateKeepsUnique` | server/models.js:9 | Replacing an account's task-id list keeps the unique indexes. |
| `Counting.Inc` | server/mongo.js:180-183 | The intended step: a missing key reads as 0, so key k is added with count 1 or incremented by one; every other entry is unchanged. |
| `Counting.Tally` | server/mongo.js:179-184 | The intended breakdown of a list of keys, one step per key in order. Every count is at least 1 and at most the number of keys. |
| `Counting.TallyCounts` | server/mongo.js:179-184 | The tally's keys are exactly the values seen, and each count is the number of occurrences. |
| `Counting.SumSplit` | server/mongo.js:171-184 | A sum of counts over a key set is one key's count plus the sum over the other keys. |
| `Counting.SumAgree` | server/mongo.js:171-184 | Two count maps that agree on a key set have the same sum over it. |
| `Counting.IncTotal` | server/mongo.js:180-183 | One increment raises the sum of all counts by exactly one. |
| `Counting.TallyTotal` | server/mongo.js:171-184 | The counts of a tally sum to the number of values tallied. |
| `Counting.ObjectTally` | server/mongo.js:179-184 | The breakdown object the `forEach` builds, as written. Its keys are exactly the values seen other than "__proto__". What it holds under them is stated by `Counting.ObjectTallyAgrees`, `Counting.ProtoKeyIsLost` and `Counting.ConstructorKeyIsText`. |
| `Counting.ObjectInc` | server/mongo.js:180-183 | The step as written, on a plain object. A `__proto__` key is never stored. A key new to the object counts 1, unless it names an inherited member, in which case it holds text. Other entries are unchanged. |
| `Counting.AsEntries` | server/mongo.js:171-177 | A tally read as the object's entries: the same keys, each holding its count as a number. |
| `Counting.ObjectTallyAgrees` | server/mongo.js:179-184 | When no key names an inherited member, the object the loop builds holds exactly the intended tally. |
| `Counting.ProtoKeyIsLost` | server/mongo.js:180-183 | One task keyed "__proto__" leaves the object empty, while the intended tally counts it and sums to 1. |
| `Counting.ConstructorKeyIsText` | server/mongo.js:180-183 | One task keyed "constructor" leaves text, not a count, under that key; the intended tally counts it once. |
| `Mongo.Merge` | server/mongo.js:129-134 | An update keeps the task's id. |
| `Mongo.MergeEmpty` | server/mongo.js:131-133 | An update body with no fields leaves the task unchanged. |
| `Mongo.MergeIdempotent` | server/mongo.js:131-133 | Applying the same update twice gives the same task as applying it once. |
| `Mongo.MergeFull` | server/mongo.js:131-133 | An update carrying every field of an edited copy with the same id stores exactly that copy. |
| `Mongo.KeysOf` | server/mongo.js:179-184 | One breakdown key per selected task. |
| `Mongo.MatchesQuery` | server/mongo.js:151-167 | With no filter set, every task matches. A set status, assignee or priority filter admits only tasks with exactly that value. When both dates are given, only tasks created within the inclusive range match. |
| `Mongo.Store.constructor` | server/mongo.js:1-6 | An empty database satisfies the store invariant. |
| `Mongo.Store.FindUser` | server/mongo.js:59-67 | Searches User for role "users" and Admin for any other role. Returns an account of that collection with the username, or None exactly when no account there has it. |
| `Mongo.Store.FindOrganisation` | server/mongo.js:69-76 | The first organisation with that name, or None exactly when no organisation has it. |
| `Mongo.Store.TaskIndex` | server/mongo.js:131 | The position of the task with that id, or None exactly when no task has it. |
| `Mongo.Store.FindTasks` | server/mongo.js:100-108 | Exactly the stored tasks whose `assignee` equals the username; the user id plays no part. |
| `Mongo.Store.FindTasksAdmin` | server/mongo.js:110-127 | Fails with "not found" exactly when no organisation has the name. Otherwise returns exactly the stored tasks whose id is in that organisation's `tasks`. |
| `Mongo.Store.Query` | server/mongo.js:151-169 | Exactly the stored tasks the query matches. A truthy status, assignee or priority must match exactly. The inclusive `createdAt` range applies only when both dates are given. |
| `Mongo.Store.NewId` | server/mongo.js:84 | Hands out the next fresh id; no collection changes. |
| `Mongo.Store.SaveUser` | server/models.js:3-10 | The User save succeeds exactly when the required fields are non-empty and the username and email are both free in User. It appends on success and changes nothing otherwise. |
| `Mongo.Store.SaveAdmin` | server/models.js:12-19 | The same for Admin, with `organisation` also required. |
| `Mongo.Store.SaveOrganisation` | server/models.js:33-39 | The organisation save succeeds exactly when the name is non-empty, and appends it. |
| `Mongo.Store.ResaveOrganisation` | server/mongo.js:29-30 | `org.save()` after a push replaces that organisation and nothing else; the invariant is kept. |
| `Mongo.Store.InsertTask` | server/mongo.js:78-98 | Unknown assignee: "Assignee not found" and nothing changes. A missing required field: a validation failure and nothing changes. Otherwise the task is stored under a fresh id, and that id is appended once, at the end, to that user's `tasks`; other users and the admins and organisations are unchanged. |
| `Mongo.Store.UpdateTask` | server/mongo.js:129-138 | Unknown id: None and nothing changes. Otherwise the merged task replaces that one task and is returned. |
| `Mongo.Store.DeleteTask` | server/mongo.js:140-147 | Unknown id: None and nothing changes. Otherwise exactly that task is removed and returned, and no task with the id remains. User and organisation lists are untouched. |
| `Mongo.Store.InsertUser` | server/mongo.js:8-57 | Role "users" with a known organisation: the new id is appended to its `requests`, then the User is saved if valid. Role "users" or "admins" with an unknown organisation: None and nothing changes. Role "admins" with a known organisation: the Admin id is appended to `admins`. Any other role: nothing. |
| `Mongo.Store.GenerateTaskSummary` | server/mongo.js:149-190 | `totalTasks` is the number of tasks the query selects. Each breakdown is the tally of the selected tasks' raw values, and sums to `totalTasks`. |
| `Mongo.Summarize` | server/mongo.js:171-184 | The `forEach` loop: each of the four breakdowns equals the tally of its field over the selected tasks, and sums to the count. |
| `Mongo.TallyStep` | server/mongo.js:180-183 | One loop step extends each breakdown's tally by the next task's key. |
| `Mongo.NotAmong` | server/mongo.js:90 | A fresh id occurs exactly once in a list it is appended to. |
| `Mongo.EmptyFilterSelectsAll` | server/mongo.js:151-169 | With no filters the query selects every task, in order. |
| `Server.ValidateCreds` | server/server.js:51-80 | An unknown account, or one without a password: "User does not exist". A password the digest rejects: "Invalid password". An accepted one: a one-hour token naming the username. A verifier that throws: a server error. Each outcome holds exactly under its condition. |
| `Server.BearerRoundTrip` | server/server.js:83-84 | A `Bearer <token>` header yields that token back. |
| `Server.NoSpaceNoToken` | server/server.js:84-86 | A non-empty header with no space yields no token. |
| `Server.BearerToken` | server/server.js:83-84 | No header gives no token, and an empty header gives the empty token. Any token found contains no space. |
| `Server.TokenName` | server/server.js:84-89 | No bearer token gives no name. A name is always what the verifier returned for the bearer token. |
| `Server.Protected` | server/server.js:82-134 | 401 exactly when there is no token. 403 exactly when there is a token and either its verification throws or an admin asks for tasks and `findTasksAdmin` throws because the organisation is missing. 404 exactly when the role is "users" or "admins" and no account of that role has the token's name. A user profile exactly when a User has that name: name and gender, plus `findTasks` only when the `tasks` header is exactly "true". An admin profile exactly when an Admin has that name and either no tasks are requested or `findTasksAdmin` succeeds: name, gender and organisation, plus the organisation's tasks on request. No response exactly for any other role. |
| `Server.SaveAdminThenUser` | server/server.js:140-157 | The Admin is saved first, then a User with the same digest and the next id. The Admin is stored exactly when its schema holds and its identity is free. The User is stored, and its id returned, exactly when the Admin was stored and the User's identity is free too. |
| `Server.LinkAdmin` | server/server.js:158-170 | The User's id is appended to the named organisation's `admins` when it exists. Otherwise a new organisation is saved under the next id, with that id as its only admin and only user. Accounts and tasks are unchanged. |
| `Server.RegisterAdmin` | server/server.js:140-170 | For role "admins": success exactly when both saves succeed, and then the organisation is linked as above. A failed save crashes the request, keeping the Admin if it was stored. |
| `Server.RegisterMember` | server/server.js:150-177 | For any other role: success exactly when the User save succeeds. Admin is untouched. The User's id joins `users` (not `requests`) of an existing named organisation; a missing organisation is skipped. |
| `Server.Register` | server/server.js:136-190 | "User already exists" exactly when `checkExist` finds the username in the role's collection, and then nothing changes. Otherwise the saves and the organisation link happen as above. A failing save crashes the request but keeps the earlier saves. A success returns a token naming the username. |
| `Server.AdminAddTask` | server/server.js:201-213 | Crashes, changing nothing, exactly when `insertTask` fails. Otherwise the task is inserted, and its id is appended to the named organisation's `tasks` only when that organisation exists. |
| `Server.TaskSummary` | server/server.js:235-246 | The query strings become the filters unchanged, and the date range counts only when both dates are given. The answer is that query's summary, and every breakdown sums to the total. |
| `Server.RegisterThenLogin` | server/server.js:51-75 | A plain user who registers successfully can log in with the password the digest was made from, and gets a token naming them. |
| `TaskList.RemoveById` | src/app/tasks/page.jsx:184-186 | After a delete, every remaining entry has a different `_id`, and every entry with a different `_id` remains. The admin page does the same (src/app/admin/tasks/page.jsx:191-193). |
| `TaskList.ReplaceById` | src/app/admin/tasks/page.jsx:228-232 | After an update, the length is kept, entries with the `_id` become the returned task, and all others are unchanged. The user page does the same. |
| `TaskList.RemoveAbsent` | src/app/tasks/page.jsx:184-186 | Deleting an id the list does not hold changes nothing. |
| `TaskList.AddThenRemove` | src/app/tasks/page.jsx:91 | Appending a newly added task and then deleting it restores the list. |
| `TaskList.ReplaceThenRemove` | src/app/tasks/page.jsx:221-225 | An update keeping the id touches no entry with another id. |
| `TaskList.SliceIndex` | src/app/tasks/page.jsx:279 | `slice` clamps every index into the list and leaves an in-range index as it is. |
| `TaskList.Slice` | src/app/tasks/page.jsx:279 | A slice is never longer than the list. |
| `TaskList.PageOf` | src/app/tasks/page.jsx:277-279 | The tasks of page `page`: never more than the list holds, and none for page 0. Its exact window is stated by `TaskList.PageWindow`. |
| `TaskList.PageCount` | src/app/tasks/page.jsx:280 | `Math.ceil(total / perPage)`: the smallest page count whose pages hold all tasks. |
| `TaskList.PageWindow` | src/app/admin/tasks/page.jsx:290-292 | Page p ≥ 1 shows positions (p-1)·perPage up to p·perPage of the list, cut at its end, so at most perPage tasks. |
| `TaskList.PageNonEmpty` | src/app/tasks/page.jsx:277-280 | A page p ≥ 1 shows a task exactly when p is at most the page count. |
| `TaskList.PagesArePrefix` | src/app/tasks/page.jsx:277-279 | Pages 1..k together are the first k·perPage tasks. |
| `TaskList.AllPages` | src/app/tasks/page.jsx:277-280 | All pages in order are the whole list: nothing is lost or shown twice. |
| `TaskList.PageOfIndex` | src/app/tasks/page.jsx:277-279 | The task at position q·perPage + r is the r-th on page q + 1. |
| `TaskList.Refilter` | src/app/tasks/page.jsx:251-274 | The filter effect keeps exactly the tasks the predicate accepts, leaves the tasks alone and resets the page to 1. |
| `TaskList.RefilterShowsFirstPage` | src/app/tasks/page.jsx:272-279 | Right after refiltering, the page shows the first perPage kept tasks. |
| `TaskEdit.AddObjective` | src/app/admin/tasks/TaskDetailView.jsx:18-23 | Exactly one "" is appended, and the earlier objectives are unchanged. The admin page's `addObjective` (src/app/admin/tasks/page.jsx:54-60) is the same. |
| `TaskEdit.RemoveObjective` | src/app/admin/tasks/TaskDetailView.jsx:25-30 | The objective at the index is dropped and the rest keep their order. An out-of-range index changes nothing. |
| `TaskEdit.SetObjective` | src/app/admin/tasks/TaskDetailView.jsx:12-16 | Only that index takes the value. The admin page's `handleObjectiveChange` (src/app/admin/tasks/page.jsx:46-52) is the same. |
| `TaskEdit.AddThenRemoveObjective` | src/app/admin/tasks/TaskDetailView.jsx:18-30 | Removing the objective just added restores the list. |
| `TaskEdit.SetThenRemoveObjective` | src/app/admin/tasks/TaskDetailView.jsx:12-30 | Removing an objective discards what was typed into it. |
| `TaskEdit.DropBlank` | src/app/admin/tasks/page.jsx:73-75 | Every kept objective is non-blank and comes from the list, and every non-blank objective is kept. The user page does the same (src/app/tasks/page.jsx:70-72). Order and repeats are stated by `TaskEdit.DropBlankAppend` and `TaskEdit.DropBlankOne`. |
| `TaskEdit.DropBlankAppend` | src/app/admin/tasks/page.jsx:73-75 | Cleaning two runs of objectives one after the other gives the first run's kept objectives followed by the second's, so order and repeats are kept. |
| `TaskEdit.DropBlankOne` | src/app/tasks/page.jsx:70-72 | A single objective is kept exactly when it is not blank. With `DropBlankAppend`, this fixes the cleaned list entry by entry. |
| `TaskEdit.DropBlankKeepsFilled` | src/app/tasks/page.jsx:70-72 | A list with no blank objectives passes through unchanged, order included. |
| `TaskEdit.AddThenDropBlank` | src/app/admin/tasks/page.jsx:54-75 | An objective added and left empty is not sent. |
| `TaskEdit.DropBlankIdempotent` | src/app/tasks/page.jsx:70-72 | Cleaning twice is cleaning once. |
| `TaskEdit.SetField` | src/app/admin/tasks/TaskDetailView.jsx:7-10 | `handleInputChange` sets the named field and no other. The user's detail view does the same (src/app/tasks/TaskDetailView.jsx:16-19). |
| `TaskEdit.SetFieldUnchanged` | src/app/tasks/TaskDetailView.jsx:16-19 | Setting a field to its current value changes nothing. |
| `TaskEdit.MergeOneField` | server/mongo.js:131-133 | A server update carrying one field changes the stored task exactly as the client's `handleInputChange` changes the copy. |
| `TaskEdit.Save` | src/app/tasks/TaskDetailView.jsx:21-25 | Save sends the edited copy and leaves edit mode, with the copy kept. The admin detail view does the same (src/app/admin/tasks/TaskDetailView.jsx:32-36). |
| `TaskEdit.SavedEditIsStored` | src/app/admin/tasks/TaskDetailView.jsx:32-36 | After one field edit and a save, the stored task is the original with that field changed. |
| `TaskEdit.DueDateInput` | src/app/admin/tasks/TaskDetailView.jsx:102 | The date input shows the longest prefix of `dueDate` without a 'T', which is followed by a 'T' or is the whole value. |
| `TaskEdit.DueDateOfTimestamp` | src/app/admin/tasks/TaskDetailView.jsx:102-103 | A stored `date + "T" + time` shows `date`, and a date typed into the input shows unchanged. |
| `TaskList.SelectMatches` | src/app/admin/tasks/page.jsx:260-266 | The select test both pages apply (also src/app/tasks/page.jsx:253-259): "all" admits every value; any other choice admits exactly the equal value, case included. |
| `AdminTasksPage.TextHit` | src/app/admin/tasks/page.jsx:272-277 | A field hits exactly when it is non-empty and the term occurs in its lower-cased text. |
| `AdminTasksPage.SearchMatches` | src/app/admin/tasks/page.jsx:268-278 | A blank search admits every task. A non-blank one admits exactly the tasks whose title, description or assignee the lower-cased search hits. |
| `AdminTasksPage.Keep` | src/app/admin/tasks/page.jsx:259-283 | A kept task passes the search. With every select on "all", a task is kept exactly when it passes the search. |
| `AdminTasksPage.ApplyFilters` | src/app/admin/tasks/page.jsx:258-286 | Every kept task comes from the list and passes all four tests, every passing task is kept, and the page goes back to 1. The task list itself is unchanged. |
| `AdminTasksPage.ApplyFiltersAppend` | src/app/admin/tasks/page.jsx:259-283 | The filter keeps list order: two runs of tasks filtered one after the other give the first run's kept tasks followed by the second's. |
| `AdminTasksPage.ApplyFiltersOne` | src/app/admin/tasks/page.jsx:259-283 | A single task is kept exactly when it passes the four tests. With `ApplyFiltersAppend`, this fixes the kept list entry by entry. |
| `AdminTasksPage.BlankSearchIgnored` | src/app/admin/tasks/page.jsx:268-269 | With an empty or white-space search, only the three selects decide. "all" is a wildcard; other values match exactly. |
| `AdminTasksPage.NonBlankSearchHits` | src/app/admin/tasks/page.jsx:269-278 | Under a non-blank search, a kept task has the lower-cased search in its lower-cased title, description or assignee. |
| `AdminTasksPage.SearchIgnoresCase` | src/app/admin/tasks/page.jsx:270-277 | A search and its lower-cased form keep the same tasks. |
| `AdminTasksPage.InitialFiltersKeepAll` | src/app/admin/tasks/page.jsx:24-29 | The initial filters keep every task, and the first page shows the first 8. |
| `AdminTasksPage.StatusCaseMismatch` | src/app/admin/tasks/page.jsx:265-266 | A task with a status the form creates is never kept under a status the filter offers. |
| `AdminTasksPage.PageNumbers` | src/app/admin/tasks/page.jsx:605-611 | The loop lists 1, 2, … up to `Math.ceil(total / perPage)`, and nothing when the total is 0. |
| `AdminTasksPage.ListedPagesNonEmpty` | src/app/admin/tasks/page.jsx:605-611 | Every listed page shows a task, and no page past the last listed one does. |
| `AdminTasksPage.SubmitTask` | src/app/admin/tasks/page.jsx:71-79 | The posted task has the form's fields, only its non-blank objectives, the admin's organisation and the submission time. |
| `TasksPage.SearchMatches` | src/app/tasks/page.jsx:260-266 | A task passes exactly when the lower-cased search occurs in its lower-cased title or its lower-cased description. So the empty search admits every task, and a passing task's title or description is at least as long as the search. |
| `TasksPage.Keep` | src/app/tasks/page.jsx:252-270 | A kept task passes the search. With every select on "all", a task is kept exactly when it passes the search. |
| `TasksPage.ApplyFilters` | src/app/tasks/page.jsx:251-274 | Every kept task comes from the list and passes the three selects and the search, every passing task is kept, and the page goes back to 1. The task list itself is unchanged. |
| `TasksPage.ApplyFiltersAppend` | src/app/tasks/page.jsx:252-270 | The filter keeps list order: two runs of tasks filtered one after the other give the first run's kept tasks followed by the second's. |
| `TasksPage.ApplyFiltersOne` | src/app/tasks/page.jsx:252-270 | A single task is kept exactly when it passes the selects and the search. With `ApplyFiltersAppend`, this fixes the kept list entry by entry. |
| `TasksPage.TotalPages` | src/app/tasks/page.jsx:280 | `Math.ceil(n / 9)`: the fewest 9-task pages that hold the kept tasks. |
| `TasksPage.EmptySearchKeepsSelected` | src/app/tasks/page.jsx:260-266 | An empty search matches every task, so only the selects decide. |
| `TasksPage.SpaceSearchIsConstraint` | src/app/tasks/page.jsx:260-266 | A one-space search drops every task whose title and description contain no space. |
| `TasksPage.AssigneeNotSearched` | src/app/tasks/page.jsx:260-266 | Search looks at title and description only; a task matching on neither is dropped. |
| `TasksPage.PersonalTask` | src/app/tasks/page.jsx:68-77 | The posted task is assigned to the current username, is "pending" and "personal", and has only the non-blank objectives. |
| `TasksPage.PersonalTaskHiddenByStatus` | src/app/tasks/page.jsx:258-259 | A stored personal task is hidden under every status the filter offers. |
| `Completion.InitCompleted` | src/app/tasks/TaskDetailView.jsx:8-14 | The `reduce` loop gives a map that holds exactly the objective indices, each mapped to false. |
| `Completion.Toggle` | src/app/tasks/TaskDetailView.jsx:27-32 | Entry i is negated, and an absent entry becomes true. Every other entry is unchanged. |
| `Completion.ToggleTwice` | src/app/tasks/TaskDetailView.jsx:27-32 | Toggling the same index twice shows every objective as before, and restores the map when it held that index. |
| `Completion.ToggleCommutes` | src/app/tasks/TaskDetailView.jsx:27-32 | Toggles of two objectives can happen in either order. |
| `JsText.TrimStart` | src/app/admin/tasks/page.jsx:269 | The result is a suffix of the text. It starts with a character that is not white space, and everything cut off is white space. |
| `JsText.TrimEnd` | src/app/admin/tasks/page.jsx:269 | The result is a prefix of the text. It ends with a character that is not white space, and everything cut off is white space. |
| `JsText.Trim` | src/app/admin/tasks/page.jsx:269 | `trim()` is never longer than the text. When non-empty, it starts and ends with a character that is not white space. |
| `JsText.TrimIsBlock` | src/app/admin/tasks/page.jsx:269 | `trim()` is the block of the text left once the white space on either side is cut off. |
| `JsText.Lower` | src/app/admin/tasks/page.jsx:270 | `toLowerCase()` keeps the length and maps each character on its own, ASCII upper case to lower case. |
| `JsText.SplitOn` | server/server.js:84 | `split(sep)` always returns at least one piece, and no piece contains the separator. |
| `JsText.TrimEmptyIffBlank` | src/app/admin/tasks/page.jsx:269 | `s.trim() !== ""` exactly when `s` holds a character that is not white space. |
| `JsText.Includes` | src/app/admin/tasks/page.jsx:273 | `s.includes(t)` exactly when `t` occurs in `s` at some position. |
| `JsText.LowerKeepsBlank` | src/app/admin/tasks/page.jsx:269-270 | Lower-casing neither creates nor removes white space. |
| `JsText.JoinSplit` | server/server.js:84 | Splitting loses nothing: joining the pieces with the separator gives the string back. |
| `JsText.SplitFirstPiece` | src/app/admin/tasks/TaskDetailView.jsx:102 | The first piece of a split is the prefix before the first separator. |

## Left out

- `Counting.Inc`: states the intended count, in which a key that names an `Object.prototype` member
  counts like any other. As written, the source does not count such keys, and its breakdowns
  then do not sum to `totalTasks` (see Findings; `Counting.ObjectTally` models that behaviour).
- `Mongo.Summarize`: states the intended count, in which a key that names an `Object.prototype` member
  counts like any other. As written, the source does not count such keys, and its breakdowns
  then do not sum to `totalTasks` (see Findings; `Counting.ObjectTally` models that behaviour).
- `Mongo.Store.GenerateTaskSummary`: states the intended count, in which a key that names an `Object.prototype` member
  counts like any other. As written, the source does not count such keys, and its breakdowns
  then do not sum to `totalTasks` (see Findings; `Counting.ObjectTally` models that behaviour).
- `Server.TaskSummary`: states the intended count, in which a key that names an `Object.prototype` member
  counts like any other. As written, the source does not count such keys, and its breakdowns
  then do not sum to `totalTasks` (see Findings; `Counting.ObjectTally` models that behaviour).

- Password hashing, and signing and verifying JWTs, are library calls and stay abstract. The
  verifiers are parameters and the hash is a digest passed in. Token expiry is recorded as 3600
  seconds, but time does not pass in the model.
- A missing password makes `argon2.hash` throw during registration. The model takes any digest,
  so it does not model that crash.
- The Express and Next.js setup, CORS, body parsing, the catch-all route and `listen` are left
  out. So is the `verifyToken` middleware, which is defined but never attached to a route.
- `/api/users/addTask`, `DELETE /api/tasks/:id` and `PUT /api/users/updateTask/:id` only pass
  their input to `insertTask`, `deleteTask` and `updateTask` (modelled in `Mongo.Store`) and
  echo the result. Their response bodies are not modelled.
- Concurrent requests are left out; each handler is one step on the store.
- Database failures other than a missing required field or a unique-index clash are not
  modelled: connection loss, cast errors and driver errors.
- Dates are not parsed. `createdAt` and the summary's range are integers; `parseDate` stands for
  `new Date(...)`. An invalid date is not modelled, and neither is a `dueDate` that does not
  cast to a Date.
- `toLowerCase` is modelled for ASCII letters only; other characters pass through unchanged.
- An absent string field of a request body or form is modelled as "". Both are falsy, and an
  absent field fails `required` just as "" does. The Authorization header is the exception: it
  is an `Option`, because an empty header and a missing one get different answers.
- The task schema's `objectives: { type: Array, required: true }` accepts any array, including
  an empty one.
- A token whose payload has no `name` is not modelled.
- A client update that gets `task: false` back (the task vanished meanwhile) is not modelled:
  `TaskList.ReplaceById` always receives a task.
- Browser effects are left out: `fetch`, `localStorage`, redirects, DOM listeners, error
  messages, rendering.
- These form helpers are also left out: the new-task form's `handleInputChange` (including its
  special case for `objectives`), `toggleAddTaskForm`, and the form resets after a submit.
- The login, registration and home pages, the navigation bar and the layout hold no list logic
  and are not part of this model.
- `Server.RegisterThenLogin` covers role "users" only. An admin login searches Admin, which
  `Server.Register` also fills, but that path is not stated as a lemma.

## Findings

| source | as written | input that shows it | evidently intended | confidence | as-written member | corrected member |
|---|---|---|---|---|---|---|
| server/mongo.js:180-183 | `b[k] = (b[k] \|\| 0) + 1` on a plain `{}`. A key that names an `Object.prototype` member first reads the inherited value, so `+ 1` makes text. A `__proto__` write goes to the prototype setter and is dropped. | One task with assignee "__proto__" (an empty breakdown for a total of 1), or one with assignee "constructor" (text instead of 1) | Each breakdown counts every task once and sums to `totalTasks` | not executed | `Counting.ProtoKeyIsLost` | `Counting.TallyTotal` |
