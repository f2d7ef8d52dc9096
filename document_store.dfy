/** The document store the route handlers talk to: the Project and Task
    collections, keyed by id, and the id source that `create` draws from.
    Its methods are the Mongoose model calls the handlers make; lookups by
    id and by filter read the two maps directly. */
module DocumentStore {
  import opened Common
  import ProjectSchema
  import TaskSchema

  class Store {
    var projects: map<Id, ProjectSchema.Project>
    var tasks: map<Id, TaskSchema.Task>
    /** Every id below this one has been handed out. */
    var nextId: Id

    /** Every stored id, and every project a task refers to, was handed out
        below `nextId`; every stored document passed its schema's validators. */
    ghost predicate Valid()
      reads this
    {
      && (forall k | k in projects :: k < nextId && ProjectSchema.WellFormed(projects[k]))
      && (forall k | k in tasks :: k < nextId && TaskSchema.WellFormed(tasks[k]))
      && (forall k | k in tasks :: tasks[k].project < nextId)
    }

    constructor ()
      ensures Valid()
      ensures projects == map[] && tasks == map[]
    {
      projects, tasks, nextId := map[], map[], 0;
    }

    /** `Project.create` on a validated document: stores it under a new id. */
    method CreateProject(p: ProjectSchema.Project) returns (k: Id)
      requires Valid() && ProjectSchema.WellFormed(p)
      modifies this
      ensures Valid()
      ensures k == old(nextId) && nextId == old(nextId) + 1
      ensures k !in old(projects) && projects == old(projects)[k := p]
      ensures tasks == old(tasks)
    {
      k := nextId;
      projects := projects[k := p];
      nextId := nextId + 1;
    }

    /** `Project.findByIdAndUpdate(k, p, {new: true})`: the new document, or
        None when no project has that id. */
    method FindProjectByIdAndUpdate(k: Id, p: ProjectSchema.Project) returns (updated: Option<ProjectSchema.Project>)
      requires Valid() && ProjectSchema.WellFormed(p)
      modifies this
      ensures Valid()
      ensures nextId == old(nextId)
      ensures k in old(projects) ==> updated == Some(p) && projects == old(projects)[k := p]
      ensures k !in old(projects) ==> updated == None && projects == old(projects)
      ensures tasks == old(tasks)
    {
      if k in projects {
        projects := projects[k := p];
        updated := Some(p);
      } else {
        updated := None;
      }
    }

    /** `Project.findByIdAndDelete(k)`: the removed document, or None when no
        project has that id. */
    method FindProjectByIdAndDelete(k: Id) returns (deleted: Option<ProjectSchema.Project>)
      requires Valid()
      modifies this
      ensures Valid()
      ensures nextId == old(nextId)
      ensures k in old(projects) ==> deleted == Some(old(projects)[k])
      ensures k !in old(projects) ==> deleted == None
      ensures projects == old(projects) - {k}
      ensures tasks == old(tasks)
    {
      if k in projects {
        deleted := Some(projects[k]);
        projects := projects - {k};
      } else {
        deleted := None;
      }
    }

    /** `Task.create` on a validated document: stores it under a new id. */
    method CreateTask(t: TaskSchema.Task) returns (k: Id)
      requires Valid() && TaskSchema.WellFormed(t) && t.project < nextId
      modifies this
      ensures Valid()
      ensures k == old(nextId) && nextId == old(nextId) + 1
      ensures k !in old(tasks) && tasks == old(tasks)[k := t]
      ensures projects == old(projects)
    {
      k := nextId;
      tasks := tasks[k := t];
      nextId := nextId + 1;
    }

    /** `Task.findByIdAndUpdate(k, t, {new: true})`: the new document, or None
        when no task has that id. */
    method FindTaskByIdAndUpdate(k: Id, t: TaskSchema.Task) returns (updated: Option<TaskSchema.Task>)
      requires Valid() && TaskSchema.WellFormed(t) && t.project < nextId
      modifies this
      ensures Valid()
      ensures nextId == old(nextId)
      ensures k in old(tasks) ==> updated == Some(t) && tasks == old(tasks)[k := t]
      ensures k !in old(tasks) ==> updated == None && tasks == old(tasks)
      ensures projects == old(projects)
    {
      if k in tasks {
        tasks := tasks[k := t];
        updated := Some(t);
      } else {
        updated := None;
      }
    }

    /** `Task.findByIdAndDelete(k)`: the removed document, or None when no
        task has that id. */
    method FindTaskByIdAndDelete(k: Id) returns (deleted: Option<TaskSchema.Task>)
      requires Valid()
      modifies this
      ensures Valid()
      ensures nextId == old(nextId)
      ensures k in old(tasks) ==> deleted == Some(old(tasks)[k])
      ensures k !in old(tasks) ==> deleted == None
      ensures tasks == old(tasks) - {k}
      ensures projects == old(projects)
    {
      if k in tasks {
        deleted := Some(tasks[k]);
        tasks := tasks - {k};
      } else {
        deleted := None;
      }
    }
  }
}
