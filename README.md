# Productivity-Inc: ownership-gated projects and tasks

This project models the authorization core of a multi-tenant project and task
tracker. An authenticated user creates projects and creates tasks under them.
A user may read or change only their own projects. The project delete checks
ownership only after it has removed the document, so a non-owner's delete
still removes the project (see Findings). A task has no
owner of its own. Access to a task is decided by the owner of its parent
project.

The model has these parts:

- `Common` (`common.dfy`): ids, the handler reply (`Ok`, `NotFound`, `Forbidden`,
  `Error`), JavaScript truthiness of a body field, and the `x || y` fallback.
- `TaskSchema` (`task_schema.dfy`): the Task document of `models/Task.js`. It has
  the status enum with its default, the validation `Task.create` applies, and
  the validated update of `PUT /api/tasks/:taskId`.
- `ProjectSchema` (`project_schema.dfy`): the Project document of `models/Project.js`,
  its create-time validation and its update with fallback.
- `DocumentStore` (`document_store.dfy`): class `Store`. It holds the two
  collections as maps `projects` and `tasks` keyed by id, plus the counter
  `nextId` that hands out fresh ids. Its methods are the Mongoose calls the
  handlers make: `create`, `findByIdAndUpdate`, `findByIdAndDelete`. Its
  invariant `Valid()` says that every stored id, and every project id a task
  refers to, was handed out, and that every stored document passed its
  schema's validators. An id is never handed out twice, so a new project never
  inherits the tasks of a deleted one.
- `ProjectRoutes` (`project_routes.dfy`) and `TaskRoutes` (`task_routes.dfy`): the
  handlers of `routes/projects.js` and `routes/tasks.js`. The caller is a plain
  user id parameter. Read-only handlers are functions of the collections.
  Handlers that write are methods that take the store and change it in place.
  Each method's postcondition states the reply tag, the whole new state of both
  collections and of the id counter, and which failure wins when several
  apply. It also states which list replies of other users stay the same: the
  project handlers keep every other user's project list (the as-written delete
  can only drop the deleted id from it, see Findings), and the task handlers
  keep every task list another user can obtain. Other users' replies by id do
  change, as they do in the program: once a project exists, another user's
  fetch of its id turns from NotFound into Forbidden.
- `Scenarios` (`scenarios.dfy`): request sequences against one store. Each reply
  is proved from the handlers' contracts alone.

A request body is a record of optional strings, where `None` is a field the
body leaves out. A field is truthy when it is present and non-empty. Mongoose
`required` on a string rejects the empty string as well as a missing value, so
a project with an empty name or a task with an empty title is never stored. A
rejected validation reaches the client as the 500 of the handler's `catch`. The
model writes this as `Error`, and nothing is stored.

Behaviour of the code worth noting:

- Validation failures are not a separate reply. They surface through the
  `catch` as 500, which the model calls `Error`.
- Task status is not checked by the handlers. The schema's enum validator
  rejects it: on create through `Task.create`, and on update through
  `runValidators: true`.
- A status of `""` on create is not a missing value. The default does not
  apply, so the enum validator rejects it.
- The project delete removes the document before it checks ownership (see
  Findings). The task delete checks before it deletes.
- Deleting a project does not cascade. Its tasks stay in the store. Listing
  them answers 404, and each one answers 403 to every caller, the former owner
  included.

## Model

| member | source | states |
|---|---|---|
| `Common.Or` | routes/tasks.js:79 | the `req.body.x or old.x` fallback for an optional field: the result is one of the two, the given value wins when truthy, and it is falsy only when both are |
| `Common.OrStored` | routes/tasks.js:78 | the `req.body.x or old.x` fallback for a required field: a non-empty stored value never yields an empty result |
| `TaskSchema.DefaultStatus` | models/Task.js:15 | the status a task gets when the body gives none: 'To Do' |
| `TaskSchema.WellFormed` | models/Task.js:5-8 | the `required` validator on the title: a stored title is non-empty |
| `TaskSchema.ParseStatus` | models/Task.js:12-14 | a string is accepted exactly when it is one of 'To Do', 'In Progress', 'Done', and it then maps to the status of that name |
| `TaskSchema.NewTask` | models/Task.js:4-23 | create-time validation: succeeds exactly when the title is non-empty and the status is absent or in the enum; the stored task carries the payload's title and description, the given project, and status 'To Do' when none is given |
| `TaskSchema.Updated` | routes/tasks.js:75-83 | each of title, description and status becomes the body's value when non-empty and keeps the old one otherwise; a non-empty status outside the enum rejects the whole update; the project reference never changes; a non-empty title stays non-empty |
| `TaskSchema.ParseName` | models/Task.js:14 | each status is accepted back from its own name |
| `TaskSchema.UpdateIdempotent` | routes/tasks.js:75-83 | applying the same body twice gives the same task as applying it once |
| `TaskSchema.EmptyUpdateKeepsTask` | routes/tasks.js:78-80 | a body with every field absent or empty leaves the task unchanged |
| `TaskSchema.AnyStatusReachable` | models/Task.js:12-16 | any status can be reached from any other by an update carrying only that status name, and nothing else changes |
| `ProjectSchema.WellFormed` | models/Project.js:5-8 | the `required` validator on the name: a stored name is non-empty |
| `ProjectSchema.NewProject` | models/Project.js:4-18 | create-time validation: succeeds exactly when the name is non-empty; the stored project carries the payload's name and description and the given owner |
| `ProjectSchema.Updated` | routes/projects.js:73-80 | name and description become the body's value when non-empty and keep the old one otherwise; the owner `user` never changes; a non-empty name stays non-empty |
| `ProjectSchema.UpdateIdempotent` | routes/projects.js:73-80 | applying the same body twice gives the same project as applying it once |
| `ProjectSchema.EmptyUpdateKeepsProject` | routes/projects.js:76-77 | a body with every field absent or empty leaves the project unchanged |
| `DocumentStore.Store.Valid` | models/Task.js:5-21 | the store invariant: every stored id and every project id a task refers to is below the id counter, every stored task has the non-empty title of models/Task.js:5-8, and every stored project has the non-empty name of models/Project.js:5-8 |
| `DocumentStore.Store.CreateProject` | routes/projects.js:15-19 | stores a validated project under the next id of the counter, an id never handed out before, and advances the counter; no other project and no task changes |
| `DocumentStore.Store.FindProjectByIdAndUpdate` | routes/projects.js:73-80 | replaces the project with that id and returns the new document, or returns None and changes nothing when the id is absent |
| `DocumentStore.Store.FindProjectByIdAndDelete` | routes/projects.js:92 | removes the project with that id and returns it, or returns None when absent; tasks are untouched |
| `DocumentStore.Store.CreateTask` | routes/tasks.js:27-32 | stores a validated task under the next id of the counter, an id never handed out before, and advances the counter; no other task and no project changes |
| `DocumentStore.Store.FindTaskByIdAndUpdate` | routes/tasks.js:75-83 | replaces the task with that id and returns the new document, or returns None and changes nothing when the id is absent |
| `DocumentStore.Store.FindTaskByIdAndDelete` | routes/tasks.js:106 | removes the task with that id and returns it, or returns None when absent; projects are untouched |
| `ProjectRoutes.Owns` | routes/projects.js:68 | the ownership test shared by every handler: the project's `user` is the caller |
| `ProjectRoutes.Get` | routes/projects.js:42-50 | NotFound exactly when the id is absent, Forbidden exactly when present and owned by another user, otherwise the stored project; never Error |
| `ProjectRoutes.List` | routes/projects.js:30-31 | exactly the stored projects whose owner is the caller, with their stored contents |
| `ProjectRoutes.Create` | routes/projects.js:14-21 | succeeds exactly when the name is non-empty; then one new project owned by the caller with the payload's fields, under an id never handed out before and referred to by no stored task, and no existing project changes; on Error nothing is stored; tasks are untouched; no other user's list changes |
| `ProjectRoutes.Update` | routes/projects.js:61-80 | NotFound or Forbidden, in that order of precedence, with nothing written; otherwise the project is replaced by its fallback update with the same owner; tasks are untouched; no other user's list changes |
| `ProjectRoutes.Delete` | routes/projects.js:92-100 | NotFound when the id is absent; otherwise the project is removed whoever the caller is, and the reply is Forbidden exactly when the removed project's owner is not the caller; tasks are untouched; another user's list loses at most that id |
| `ProjectRoutes.DeleteIfOwner` | routes/projects.js:92-99 | corrected delete: NotFound, then Forbidden with the store unchanged, and removal only for the owner; no other user's list changes |
| `ProjectRoutes.ListAgreesWithGet` | routes/projects.js:30-50 | a project is in the caller's list exactly when fetching it by id as that caller succeeds |
| `ProjectRoutes.VisibleToOwnerOnly` | routes/projects.js:30 | every stored project appears in exactly one user's list, its owner's |
| `ProjectRoutes.ListAfterCreate` | routes/projects.js:15-30 | a new project joins its owner's list and leaves every other list unchanged |
| `ProjectRoutes.ListAfterDelete` | routes/projects.js:92 | a removed project leaves every list |
| `TaskRoutes.MayAccess` | routes/tasks.js:70-72 | transitive ownership: the caller may act on a task exactly when its parent project still exists and is the caller's; no field of the task but its project reference is consulted |
| `TaskRoutes.FindOwned` | routes/tasks.js:64-74 | NotFound exactly when the task is absent; Forbidden exactly when its parent project is gone or owned by another user; otherwise the stored task; never Error |
| `TaskRoutes.List` | routes/tasks.js:44-53 | NotFound when the project is absent, Forbidden when it is another user's, otherwise exactly the tasks whose project is that id, with their stored contents |
| `TaskRoutes.Create` | routes/tasks.js:17-34 | NotFound for an absent project, then Forbidden for another user's, then Error when the body fails validation, with no task stored in each case; otherwise one new task under that project built from the payload, under an id never handed out before; projects are untouched; no other user's task list changes |
| `TaskRoutes.Update` | routes/tasks.js:64-83 | NotFound for an absent task, Forbidden when the parent is gone or another user's, Error for a status outside the enum, with nothing written in each case; otherwise the task is replaced by its fallback update, which keeps its project; no other user's task list changes |
| `TaskRoutes.Delete` | routes/tasks.js:95-107 | NotFound or Forbidden with nothing removed; otherwise exactly that task is removed and every other task and every project stays; no other user's task list changes |
| `TaskRoutes.SameParentSameAccess` | routes/tasks.js:70-72 | two tasks of the same project get the same access answer for every caller |
| `TaskRoutes.ListAgreesWithFindOwned` | routes/tasks.js:44-74 | every task listed for a caller can be updated or deleted by that caller |
| `TaskRoutes.ListAfterCreate` | routes/tasks.js:27-52 | a created task joins its own project's list and leaves every other project's list unchanged |
| `TaskRoutes.OrphanedAfterProjectDelete` | routes/tasks.js:44-48 | once a project is removed, listing its tasks answers NotFound, and each remaining task answers Forbidden to every caller |
| `TaskRoutes.WriteInvisibleToOthers` | routes/tasks.js:70-83 | storing a task under one of the caller's projects changes no task list that another user can obtain |
| `TaskRoutes.RemovalInvisibleToOthers` | routes/tasks.js:101-106 | removing a task of one of the caller's projects changes no task list that another user can obtain |
| `Scenarios.LaunchLifecycle` | routes/tasks.js:14-57 | create project, create task (status 'To Do'), move it to 'In Progress' with the title kept, delete the project: listing its tasks then answers NotFound while the task document remains |
| `Scenarios.OtherUserLockedOut` | routes/tasks.js:61-74 | another user gets Forbidden for the project and for a status change of its task; a status of 'Blocked' is an Error even for the owner |
| `Scenarios.NonOwnerDeleteRemoves` | routes/projects.js:92-99 | a non-owner's delete answers Forbidden, yet the owner then gets NotFound for the project |
| `Scenarios.NonOwnerDeleteRefused` | routes/projects.js:92-99 | with the corrected delete, the same request answers Forbidden and the owner still has the project |
| `Scenarios.OrphanNotAdopted` | routes/tasks.js:70-72 | after an owner deletes a project, a project another user creates later gets a new id: that user gets Forbidden for the orphaned task and an empty task list for the new project |

## Left out

- HTTP status codes, JSON responses and the `res.status(...).json` plumbing. Each reply is reduced to its tag and its value.
- Logging with `console.log` and `console.error`.
- The authentication middleware and `routes/users.js`. The caller is a given user id.
- `server.js`: bootstrap, configuration, middleware registration, the database connection and `listen`.
- Store failures and exceptions other than validation. The only `Error` the model produces is a rejected validation.
- A malformed id in the URL. Mongoose's cast would fail with a 500. In the model every id is a valid id.
- Request bodies carrying non-string values. Mongoose's casting of numbers or objects into the string paths is not modelled.
- The `!project.user` guard of `routes/projects.js:46`. `user` is a required path, and every project is created with the caller as owner, so a stored project always has an owner. The guard, and the TypeError that a missing owner would raise in the other handlers, cannot arise in the model.
- ObjectId generation. Ids come from one counter shared by both collections. The model keeps that an id is never handed out twice, not the ObjectId's form or its embedded timestamp.
- The order of a list reply. The model returns a list as a map from id to document.
- `populate`. It is a lookup of the task's project id in the project map.
- Async handlers and concurrent requests. Each handler is one atomic step. The last-write-wins race between the fetch and `findByIdAndUpdate` is outside the model, and so is a `null` update result caused by a concurrent delete.

## Findings

| source | as written | input that shows it | evidently intended | confidence | as-written member | corrected member |
|---|---|---|---|---|---|---|
| routes/projects.js:92-99 | `findByIdAndDelete` removes the project first; ownership is checked only on the removed document | user B sends DELETE /api/projects/:id for a project owned by user A: the reply is 403, yet the project is gone and A gets 404 for it | check ownership before deleting, so that a non-owner's request leaves the store unchanged and no other user's list changes | high; not executed | `ProjectRoutes.Delete` (exhibited by `Scenarios.NonOwnerDeleteRemoves`) | `ProjectRoutes.DeleteIfOwner` (exhibited by `Scenarios.NonOwnerDeleteRefused`) |

`ProjectRoutes.Delete` models the route as written, and `Scenarios.LaunchLifecycle`, `Scenarios.NonOwnerDeleteRemoves` and `Scenarios.OrphanNotAdopted` use it. `ProjectRoutes.DeleteIfOwner` is the corrected handler, used by `Scenarios.NonOwnerDeleteRefused`. The two agree whenever the id is absent or the caller owns the project.
