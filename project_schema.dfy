/** The Project document of models/Project.js: a required name, an optional
    description and a required owner `user`. A project holds no list of its
    tasks; the relation is kept on the task side only. */
module ProjectSchema {
  import opened Common

  datatype Project = Project(name: string, description: Option<string>, user: Id)

  /** `required` on the name rejects the empty string too. */
  predicate WellFormed(p: Project)
  {
    p.name != ""
  }

  datatype ProjectInput = ProjectInput(name: Option<string>, description: Option<string>)

  /** `Project.create({name, description, user})`: the document that is stored,
      or None when validation rejects it. */
  function NewProject(input: ProjectInput, owner: Id): (r: Option<Project>)
    ensures r.Some? <==> Truthy(input.name)
    ensures r.Some? ==> WellFormed(r.value)
    ensures r.Some? ==> Some(r.value.name) == input.name && r.value.description == input.description
    ensures r.Some? ==> r.value.user == owner
  {
    if Truthy(input.name) then Some(Project(input.name.value, input.description, owner)) else None
  }

  /** The update of routes/projects.js: name and description become
      `req.body.x || project.x`; the owner is not part of the update. */
  function Updated(p: Project, input: ProjectInput): (r: Project)
    ensures r.user == p.user
    ensures r.name == if Truthy(input.name) then input.name.value else p.name
    ensures r.description == if Truthy(input.description) then input.description else p.description
    ensures WellFormed(p) ==> WellFormed(r)
  {
    Project(OrStored(input.name, p.name), Or(input.description, p.description), p.user)
  }

  /** Sending the same body twice stores the same document as sending it once. */
  lemma UpdateIdempotent(p: Project, input: ProjectInput)
    ensures Updated(Updated(p, input), input) == Updated(p, input)
  {
  }

  /** A body whose fields are all absent or empty leaves the project as it was. */
  lemma EmptyUpdateKeepsProject(p: Project, input: ProjectInput)
    requires !Truthy(input.name) && !Truthy(input.description)
    ensures Updated(p, input) == p
  {
  }
}
