/** Client code: request sequences run against one store, with what each
    reply is, proved from the handlers' contracts alone. */
module Scenarios {
  import opened Common
  import opened ProjectSchema
  import opened TaskSchema
  import opened DocumentStore
  import ProjectRoutes
  import TaskRoutes

  /** A user creates project "Launch", a task "Write spec" under it with the
      default status, moves the task to "In Progress", deletes the project,
      and then asks for the project's tasks. */
  method LaunchLifecycle(s: Store, u: Id)
    returns (created: Reply<(Id, Task)>, updated: Reply<Task>, deleted: Reply<()>, listed: Reply<map<Id, Task>>)
    requires s.Valid()
    modifies s
    ensures s.Valid()
    ensures created.Ok? && created.value.1.status == ToDo && created.value.1.title == "Write spec"
    ensures updated.Ok? && updated.value == created.value.1.(status := InProgress)
    ensures deleted == Ok(())
    ensures listed == NotFound
    ensures created.value.0 in s.tasks && s.tasks[created.value.0] == updated.value
  {
    var project := ProjectRoutes.Create(s, u, ProjectInput(Some("Launch"), Some("")));
    var projectId := project.value.0;
    created := TaskRoutes.Create(s, u, projectId, TaskInput(Some("Write spec"), None, None));
    updated := TaskRoutes.Update(s, u, created.value.0, TaskInput(None, None, Some("In Progress")));
    deleted := ProjectRoutes.Delete(s, u, projectId);
    listed := TaskRoutes.List(s.projects, s.tasks, u, projectId);
  }

  /** Another user reaches neither the project nor, through it, its tasks,
      and a status outside the enum is rejected for the owner too. */
  method OtherUserLockedOut(s: Store, owner: Id, other: Id)
    returns (fetched: Reply<Project>, statusChange: Reply<Task>, blocked: Reply<(Id, Task)>)
    requires s.Valid() && owner != other
    modifies s
    ensures s.Valid()
    ensures fetched == Forbidden && statusChange == Forbidden && blocked == Error
  {
    var project := ProjectRoutes.Create(s, owner, ProjectInput(Some("Launch"), None));
    var projectId := project.value.0;
    var task := TaskRoutes.Create(s, owner, projectId, TaskInput(Some("Write spec"), None, None));
    fetched := ProjectRoutes.Get(s.projects, other, projectId);
    statusChange := TaskRoutes.Update(s, other, task.value.0, TaskInput(None, None, Some("Done")));
    blocked := TaskRoutes.Create(s, owner, projectId, TaskInput(Some("x"), None, Some("Blocked")));
  }

  /** DELETE /api/projects/:id as written, sent by a user who does not own
      the project: the reply is 403, yet the project is gone, and its owner
      now gets 404 for it. */
  method NonOwnerDeleteRemoves(s: Store, owner: Id, other: Id)
    returns (deleted: Reply<()>, afterwards: Reply<Project>)
    requires s.Valid() && owner != other
    modifies s
    ensures s.Valid()
    ensures deleted == Forbidden && afterwards == NotFound
  {
    var project := ProjectRoutes.Create(s, owner, ProjectInput(Some("Launch"), None));
    var projectId := project.value.0;
    deleted := ProjectRoutes.Delete(s, other, projectId);
    afterwards := ProjectRoutes.Get(s.projects, owner, projectId);
  }

  /** The same request against the delete that checks ownership first: 403,
      and the owner still has the project. */
  method NonOwnerDeleteRefused(s: Store, owner: Id, other: Id)
    returns (deleted: Reply<()>, afterwards: Reply<Project>)
    requires s.Valid() && owner != other
    modifies s
    ensures s.Valid()
    ensures deleted == Forbidden && afterwards == Ok(Project("Launch", None, owner))
  {
    var project := ProjectRoutes.Create(s, owner, ProjectInput(Some("Launch"), None));
    var projectId := project.value.0;
    deleted := ProjectRoutes.DeleteIfOwner(s, other, projectId);
    afterwards := ProjectRoutes.Get(s.projects, owner, projectId);
  }

  /** Ids are never handed out twice: after a project is deleted, a project
      that another user creates later does not take over its orphaned task. */
  method OrphanNotAdopted(s: Store, owner: Id, other: Id)
    returns (updated: Reply<Task>, listed: Reply<map<Id, Task>>)
    requires s.Valid() && owner != other
    modifies s
    ensures s.Valid()
    ensures updated == Forbidden
    ensures listed.Ok? && listed.value == map[]
  {
    var project := ProjectRoutes.Create(s, owner, ProjectInput(Some("Launch"), None));
    var task := TaskRoutes.Create(s, owner, project.value.0, TaskInput(Some("Write spec"), None, None));
    var _ := ProjectRoutes.Delete(s, owner, project.value.0);
    var newer := ProjectRoutes.Create(s, other, ProjectInput(Some("Takeover"), None));
    updated := TaskRoutes.Update(s, other, task.value.0, TaskInput(None, None, Some("Done")));
    listed := TaskRoutes.List(s.projects, s.tasks, other, newer.value.0);
  }
}
