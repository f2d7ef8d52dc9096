/** The handlers of routes/projects.js. The authenticated caller is the user
    id `caller`; read-only handlers are functions of the Project collection,
    the others are methods on the store. */
module ProjectRoutes {
  import opened Common
  import opened ProjectSchema
  import opened DocumentStore

  /** The ownership check: the project's `user` is the caller. */
  predicate Owns(p: Project, caller: Id)
  {
    p.user == caller
  }

  /** GET /api/projects/:id: fetch, then 404 if absent, then 403 if not
      owned, else the project. The task routes open with the same check on
      the parent project. */
  function Get(projects: map<Id, Project>, caller: Id, id: Id): (r: Reply<Project>)
    ensures r.NotFound? <==> id !in projects
    ensures r.Forbidden? <==> id in projects && !Owns(projects[id], caller)
    ensures r.Ok? <==> id in projects && Owns(projects[id], caller)
    ensures r.Ok? ==> r.value == projects[id]
    ensures !r.Error?
  {
    if id !in projects then NotFound
    else if !Owns(projects[id], caller) then Forbidden
    else Ok(projects[id])
  }

  /** GET /api/projects: `Project.find({user: caller})`. */
  function List(projects: map<Id, Project>, caller: Id): (r: map<Id, Project>)
    ensures forall k :: k in r <==> k in projects && Owns(projects[k], caller)
    ensures forall k | k in r :: r[k] == projects[k]
  {
    map k | k in projects && Owns(projects[k], caller) :: projects[k]
  }

  /** POST /api/projects: validate, then store with the caller as owner. */
  method Create(s: Store, caller: Id, input: ProjectInput) returns (r: Reply<(Id, Project)>)
    requires s.Valid()
    modifies s
    ensures s.Valid()
    ensures r.Ok? || r.Error?
    ensures r.Ok? <==> Truthy(input.name)
    ensures r.Ok? ==> r.value.0 !in old(s.projects) && s.projects == old(s.projects)[r.value.0 := r.value.1]
    ensures r.Ok? ==> r.value.1.user == caller && Some(r.value.1.name) == input.name
    ensures r.Ok? ==> r.value.1.description == input.description
    ensures r.Error? ==> s.projects == old(s.projects)
    ensures r.Ok? ==> old(s.nextId) <= r.value.0 && s.nextId == r.value.0 + 1
    ensures r.Error? ==> s.nextId == old(s.nextId)
    ensures r.Ok? ==> forall k | k in s.tasks :: s.tasks[k].project != r.value.0
    ensures s.tasks == old(s.tasks)
    ensures forall u | u != caller :: List(s.projects, u) == List(old(s.projects), u)
  {
    var doc := NewProject(input, caller);
    if doc.None? {
      return Error;
    }
    var k := s.CreateProject(doc.value);
    r := Ok((k, doc.value));
  }

  /** PUT /api/projects/:id: 404 and 403 before any write, then every field
      becomes the body's value when that is non-empty and keeps the stored one
      otherwise; the owner never changes. */
  method Update(s: Store, caller: Id, id: Id, input: ProjectInput) returns (r: Reply<Project>)
    requires s.Valid()
    modifies s
    ensures s.Valid()
    ensures r == NotFound <==> id !in old(s.projects)
    ensures r == Forbidden <==> id in old(s.projects) && !Owns(old(s.projects)[id], caller)
    ensures !r.Error?
    ensures !r.Ok? ==> s.projects == old(s.projects)
    ensures r.Ok? <==> id in old(s.projects) && Owns(old(s.projects)[id], caller)
    ensures r.Ok? ==> s.projects == old(s.projects)[id := r.value]
    ensures r.Ok? ==> r.value.user == old(s.projects)[id].user
    ensures r.Ok? ==> r.value.name == if Truthy(input.name) then input.name.value else old(s.projects)[id].name
    ensures r.Ok? ==> r.value.description ==
                      if Truthy(input.description) then input.description else old(s.projects)[id].description
    ensures s.tasks == old(s.tasks) && s.nextId == old(s.nextId)
    ensures forall u | u != caller :: List(s.projects, u) == List(old(s.projects), u)
  {
    if id !in s.projects {
      return NotFound;
    }
    var project := s.projects[id];
    if !Owns(project, caller) {
      return Forbidden;
    }
    var updated := s.FindProjectByIdAndUpdate(id, Updated(project, input));
    r := Ok(updated.value);
  }

  /** DELETE /api/projects/:id as written: `findByIdAndDelete` first, and the
      ownership check only on the document already removed. Whoever the
      caller, an existing project is gone afterwards; tasks are not touched. */
  method Delete(s: Store, caller: Id, id: Id) returns (r: Reply<()>)
    requires s.Valid()
    modifies s
    ensures s.Valid()
    ensures id !in old(s.projects) ==> r == NotFound
    ensures id in old(s.projects) ==> (r == Forbidden <==> !Owns(old(s.projects)[id], caller))
    ensures id in old(s.projects) ==> (r == Ok(()) <==> Owns(old(s.projects)[id], caller))
    ensures s.projects == old(s.projects) - {id}
    ensures s.tasks == old(s.tasks) && s.nextId == old(s.nextId)
    ensures forall u | u != caller :: List(s.projects, u) == List(old(s.projects), u) - {id}
  {
    var deleted := s.FindProjectByIdAndDelete(id);
    if deleted.None? {
      return NotFound;
    }
    if !Owns(deleted.value, caller) {
      return Forbidden;
    }
    r := Ok(());
  }

  /** DELETE /api/projects/:id with the check moved before the write: fetch,
      404, 403, and only then delete. A caller who does not own the project
      leaves the store as it was. */
  method DeleteIfOwner(s: Store, caller: Id, id: Id) returns (r: Reply<()>)
    requires s.Valid()
    modifies s
    ensures s.Valid()
    ensures r == NotFound <==> id !in old(s.projects)
    ensures r == Forbidden <==> id in old(s.projects) && !Owns(old(s.projects)[id], caller)
    ensures r == Ok(()) <==> id in old(s.projects) && Owns(old(s.projects)[id], caller)
    ensures r.Ok? ==> s.projects == old(s.projects) - {id}
    ensures !r.Ok? ==> s.projects == old(s.projects)
    ensures s.tasks == old(s.tasks) && s.nextId == old(s.nextId)
    ensures forall u | u != caller :: List(s.projects, u) == List(old(s.projects), u)
  {
    if id !in s.projects {
      return NotFound;
    }
    if !Owns(s.projects[id], caller) {
      return Forbidden;
    }
    var _ := s.FindProjectByIdAndDelete(id);
    r := Ok(());
  }

  /** Listing and fetching agree: a project is in the caller's list exactly
      when fetching it by id as that caller succeeds. */
  lemma ListAgreesWithGet(projects: map<Id, Project>, caller: Id, id: Id)
    ensures id in List(projects, caller) <==> Get(projects, caller, id).Ok?
  {
  }

  /** Every stored project is listed for exactly one user, its owner. */
  lemma VisibleToOwnerOnly(projects: map<Id, Project>, id: Id)
    requires id in projects
    ensures exists u :: id in List(projects, u)
    ensures forall u1, u2 :: id in List(projects, u1) && id in List(projects, u2) ==> u1 == u2
  {
    assert id in List(projects, projects[id].user);
  }

  /** A project created by `caller` joins that caller's list and no other. */
  lemma ListAfterCreate(projects: map<Id, Project>, k: Id, p: Project, u: Id)
    requires k !in projects
    ensures List(projects[k := p], u) == if Owns(p, u) then List(projects, u)[k := p] else List(projects, u)
  {
  }

  /** A deleted project leaves every list. */
  lemma ListAfterDelete(projects: map<Id, Project>, k: Id, u: Id)
    ensures List(projects - {k}, u) == List(projects, u) - {k}
  {
  }
}
