/** The handlers of routes/tasks.js. A task has no owner of its own: every
    handler resolves the task's parent project and applies the project
    ownership check to it. */
module TaskRoutes {
  import opened Common
  import opened TaskSchema
  import opened DocumentStore
  import ProjectSchema
  import ProjectRoutes

  /** The caller may act on `t` exactly when its parent project still exists
      and is owned by the caller; no field of the task itself is consulted. */
  predicate MayAccess(projects: map<Id, ProjectSchema.Project>, t: Task, caller: Id)
  {
    t.project in projects && ProjectRoutes.Owns(projects[t.project], caller)
  }

  /** The opening of PUT and DELETE /api/tasks/:taskId: fetch the task with
      its project populated, 404 if the task is absent, 403 if the project is
      gone or owned by someone else, else the task. */
  function FindOwned(projects: map<Id, ProjectSchema.Project>, tasks: map<Id, Task>, caller: Id, id: Id): (r: Reply<Task>)
    ensures r.NotFound? <==> id !in tasks
    ensures r.Forbidden? <==> id in tasks && !MayAccess(projects, tasks[id], caller)
    ensures r.Ok? <==> id in tasks && MayAccess(projects, tasks[id], caller)
    ensures r.Ok? ==> r.value == tasks[id]
    ensures !r.Error?
  {
    if id !in tasks then NotFound
    else if !MayAccess(projects, tasks[id], caller) then Forbidden
    else Ok(tasks[id])
  }

  /** GET /api/tasks/projects/:projectId/tasks: the project check, then
      `Task.find({project: projectId})`. */
  function List(projects: map<Id, ProjectSchema.Project>, tasks: map<Id, Task>, caller: Id, projectId: Id)
    : (r: Reply<map<Id, Task>>)
    ensures r.NotFound? <==> projectId !in projects
    ensures r.Forbidden? <==> projectId in projects && !ProjectRoutes.Owns(projects[projectId], caller)
    ensures !r.Error?
    ensures r.Ok? ==> forall k :: k in r.value <==> k in tasks && tasks[k].project == projectId
    ensures r.Ok? ==> forall k | k in r.value :: r.value[k] == tasks[k]
  {
    match ProjectRoutes.Get(projects, caller, projectId)
    case NotFound => NotFound
    case Forbidden => Forbidden
    case Ok(_) => Ok(map k | k in tasks && tasks[k].project == projectId :: tasks[k])
  }

  /** POST /api/tasks/projects/:projectId/tasks: 404 if the project is
      absent, 403 if it is not the caller's, 500 if the body fails the
      schema, else one new task under that project. */
  method Create(s: Store, caller: Id, projectId: Id, input: TaskInput) returns (r: Reply<(Id, Task)>)
    requires s.Valid()
    modifies s
    ensures s.Valid()
    ensures r == NotFound <==> projectId !in old(s.projects)
    ensures r == Forbidden <==> projectId in old(s.projects) && !ProjectRoutes.Owns(old(s.projects)[projectId], caller)
    ensures r.Error? <==> ProjectRoutes.Get(old(s.projects), caller, projectId).Ok? && NewTask(input, projectId).None?
    ensures !r.Ok? ==> s.tasks == old(s.tasks)
    ensures r.Ok? ==> r.value.0 !in old(s.tasks) && s.tasks == old(s.tasks)[r.value.0 := r.value.1]
    ensures r.Ok? ==> Some(r.value.1) == NewTask(input, projectId) && r.value.1.project == projectId
    ensures r.Ok? ==> old(s.nextId) <= r.value.0 && s.nextId == r.value.0 + 1
    ensures !r.Ok? ==> s.nextId == old(s.nextId)
    ensures s.projects == old(s.projects)
    ensures forall u, pid | u != caller :: List(s.projects, s.tasks, u, pid) == List(old(s.projects), old(s.tasks), u, pid)
  {
    if projectId !in s.projects {
      return NotFound;
    }
    if !ProjectRoutes.Owns(s.projects[projectId], caller) {
      return Forbidden;
    }
    var doc := NewTask(input, projectId);
    if doc.None? {
      return Error;
    }
    ghost var before := s.tasks;
    var k := s.CreateTask(doc.value);
    r := Ok((k, doc.value));
    forall u, pid | u != caller
      ensures List(s.projects, s.tasks, u, pid) == List(s.projects, before, u, pid)
    {
      WriteInvisibleToOthers(s.projects, before, k, doc.value, caller, u, pid);
    }
  }

  /** PUT /api/tasks/:taskId: the task check, then every field becomes the
      body's value when that is non-empty and keeps the stored one otherwise;
      a status outside the enum is a 500 and nothing is written. */
  method Update(s: Store, caller: Id, id: Id, input: TaskInput) returns (r: Reply<Task>)
    requires s.Valid()
    modifies s
    ensures s.Valid()
    ensures r == NotFound <==> id !in old(s.tasks)
    ensures r == Forbidden <==> id in old(s.tasks) && !MayAccess(old(s.projects), old(s.tasks)[id], caller)
    ensures r.Error? <==> FindOwned(old(s.projects), old(s.tasks), caller, id).Ok? && Updated(old(s.tasks)[id], input).None?
    ensures !r.Ok? ==> s.tasks == old(s.tasks)
    ensures r.Ok? ==> Some(r.value) == Updated(old(s.tasks)[id], input) && s.tasks == old(s.tasks)[id := r.value]
    ensures r.Ok? ==> r.value.project == old(s.tasks)[id].project
    ensures s.projects == old(s.projects) && s.nextId == old(s.nextId)
    ensures forall u, pid | u != caller :: List(s.projects, s.tasks, u, pid) == List(old(s.projects), old(s.tasks), u, pid)
  {
    if id !in s.tasks {
      return NotFound;
    }
    var task := s.tasks[id];
    if !MayAccess(s.projects, task, caller) {
      return Forbidden;
    }
    var doc := Updated(task, input);
    if doc.None? {
      return Error;
    }
    ghost var before := s.tasks;
    var updated := s.FindTaskByIdAndUpdate(id, doc.value);
    r := Ok(updated.value);
    forall u, pid | u != caller
      ensures List(s.projects, s.tasks, u, pid) == List(s.projects, before, u, pid)
    {
      WriteInvisibleToOthers(s.projects, before, id, doc.value, caller, u, pid);
    }
  }

  /** DELETE /api/tasks/:taskId: the task check, and only then the delete. */
  method Delete(s: Store, caller: Id, id: Id) returns (r: Reply<()>)
    requires s.Valid()
    modifies s
    ensures s.Valid()
    ensures r == NotFound <==> id !in old(s.tasks)
    ensures r == Forbidden <==> id in old(s.tasks) && !MayAccess(old(s.projects), old(s.tasks)[id], caller)
    ensures r == Ok(()) <==> FindOwned(old(s.projects), old(s.tasks), caller, id).Ok?
    ensures r.Ok? ==> s.tasks == old(s.tasks) - {id}
    ensures !r.Ok? ==> s.tasks == old(s.tasks)
    ensures s.projects == old(s.projects) && s.nextId == old(s.nextId)
    ensures forall u, pid | u != caller :: List(s.projects, s.tasks, u, pid) == List(old(s.projects), old(s.tasks), u, pid)
  {
    if id !in s.tasks {
      return NotFound;
    }
    if !MayAccess(s.projects, s.tasks[id], caller) {
      return Forbidden;
    }
    ghost var before := s.tasks;
    var _ := s.FindTaskByIdAndDelete(id);
    r := Ok(());
    forall u, pid | u != caller
      ensures List(s.projects, s.tasks, u, pid) == List(s.projects, before, u, pid)
    {
      RemovalInvisibleToOthers(s.projects, before, id, caller, u, pid);
    }
  }

  /** Access is inherited from the parent: two tasks of the same project get
      the same answer for every caller, whatever else they hold. */
  lemma SameParentSameAccess(projects: map<Id, ProjectSchema.Project>, tasks: map<Id, Task>, caller: Id, k1: Id, k2: Id)
    requires k1 in tasks && k2 in tasks && tasks[k1].project == tasks[k2].project
    ensures FindOwned(projects, tasks, caller, k1).Ok? == FindOwned(projects, tasks, caller, k2).Ok?
    ensures FindOwned(projects, tasks, caller, k1).Forbidden? == FindOwned(projects, tasks, caller, k2).Forbidden?
  {
  }

  /** Listing and per-task access agree: every task listed for a project may
      be updated or deleted by the same caller. */
  lemma ListAgreesWithFindOwned(projects: map<Id, ProjectSchema.Project>, tasks: map<Id, Task>, caller: Id, projectId: Id, k: Id)
    requires List(projects, tasks, caller, projectId).Ok?
    requires k in List(projects, tasks, caller, projectId).value
    ensures FindOwned(projects, tasks, caller, k) == Ok(tasks[k])
  {
  }

  /** A created task joins its own project's list and no other. */
  lemma ListAfterCreate(projects: map<Id, ProjectSchema.Project>, tasks: map<Id, Task>, caller: Id, projectId: Id, k: Id, t: Task)
    requires k !in tasks
    requires List(projects, tasks, caller, projectId).Ok?
    ensures List(projects, tasks[k := t], caller, projectId).Ok?
    ensures List(projects, tasks[k := t], caller, projectId).value ==
            if t.project == projectId then List(projects, tasks, caller, projectId).value[k := t]
            else List(projects, tasks, caller, projectId).value
  {
  }

  /** Once a project is gone, its list answers 404 and each of its remaining
      tasks answers 403 to every caller, its owner included. */
  lemma OrphanedAfterProjectDelete(projects: map<Id, ProjectSchema.Project>, tasks: map<Id, Task>, caller: Id, projectId: Id, k: Id)
    requires k in tasks && tasks[k].project == projectId
    ensures List(projects - {projectId}, tasks, caller, projectId) == NotFound
    ensures FindOwned(projects - {projectId}, tasks, caller, k) == Forbidden
  {
  }

  /** Tenant isolation for a task write: storing a task under one of the
      caller's projects, in place of nothing or of another task of the
      caller's, changes no task list any other user can obtain. */
  lemma WriteInvisibleToOthers(projects: map<Id, ProjectSchema.Project>, tasks: map<Id, Task>, k: Id, t: Task, caller: Id, u: Id, projectId: Id)
    requires MayAccess(projects, t, caller)
    requires k in tasks ==> MayAccess(projects, tasks[k], caller)
    requires u != caller
    ensures List(projects, tasks[k := t], u, projectId) == List(projects, tasks, u, projectId)
  {
    if List(projects, tasks, u, projectId).Ok? {
      assert t.project != projectId;
      assert k in tasks ==> tasks[k].project != projectId;
      assert List(projects, tasks[k := t], u, projectId).value == List(projects, tasks, u, projectId).value;
    }
  }

  /** Tenant isolation for a task delete: removing a task of one of the
      caller's projects changes no task list any other user can obtain. */
  lemma RemovalInvisibleToOthers(projects: map<Id, ProjectSchema.Project>, tasks: map<Id, Task>, k: Id, caller: Id, u: Id, projectId: Id)
    requires k in tasks ==> MayAccess(projects, tasks[k], caller)
    requires u != caller
    ensures List(projects, tasks - {k}, u, projectId) == List(projects, tasks, u, projectId)
  {
    if List(projects, tasks, u, projectId).Ok? {
      assert k in tasks ==> tasks[k].project != projectId;
      assert List(projects, tasks - {k}, u, projectId).value == List(projects, tasks, u, projectId).value;
    }
  }
}
