/** The Task document of models/Task.js: a required title, an optional
    description, a status drawn from a closed list with a default, and a
    required reference to the project the task belongs to. */
module TaskSchema {
  import opened Common

  /** The `enum` of the status path. */
  datatype Status = ToDo | InProgress | Done
  {
    /** The string stored in the document for this status. */
    function Name(): string
    {
      match this
      case ToDo => "To Do"
      case InProgress => "In Progress"
      case Done => "Done"
    }
  }

  /** The `default` of the status path. */
  const DefaultStatus: Status := ToDo

  /** The enum validator: a string is accepted exactly when it is the name of
      one of the three statuses. */
  function ParseStatus(s: string): (r: Option<Status>)
    ensures r.Some? ==> r.value.Name() == s
    ensures r.None? <==> s != "To Do" && s != "In Progress" && s != "Done"
  {
    if s == "To Do" then Some(ToDo)
    else if s == "In Progress" then Some(InProgress)
    else if s == "Done" then Some(Done)
    else None
  }

  datatype Task = Task(title: string, description: Option<string>, status: Status, project: Id)

  /** What the schema's validators guarantee of every stored task beyond its
      type: `required` on a string rejects the empty string too. */
  predicate WellFormed(t: Task)
  {
    t.title != ""
  }

  /** The fields a request body may carry; None is a field left out. */
  datatype TaskInput = TaskInput(title: Option<string>, description: Option<string>, status: Option<string>)

  /** `Task.create({title, description, status, project})`: the document that
      is stored, or None when validation rejects it. */
  function NewTask(input: TaskInput, project: Id): (r: Option<Task>)
    ensures r.Some? <==> Truthy(input.title) && (input.status.None? || ParseStatus(input.status.value).Some?)
    ensures r.Some? ==> WellFormed(r.value)
    ensures r.Some? ==> Some(r.value.title) == input.title && r.value.description == input.description
    ensures r.Some? ==> r.value.project == project
    ensures r.Some? && input.status.None? ==> r.value.status == DefaultStatus
    ensures r.Some? && input.status.Some? ==> r.value.status.Name() == input.status.value
  {
    if !Truthy(input.title) then None
    else
      match input.status
      case None => Some(Task(input.title.value, input.description, DefaultStatus, project))
      case Some(s) =>
        match ParseStatus(s)
        case None => None
        case Some(st) => Some(Task(input.title.value, input.description, st, project))
  }

  /** The update of routes/tasks.js: every field becomes `req.body.x || task.x`,
      then the validators run on the new status; None is a rejected update. */
  function Updated(t: Task, input: TaskInput): (r: Option<Task>)
    ensures r.None? <==> Truthy(input.status) && ParseStatus(input.status.value).None?
    ensures r.Some? ==> r.value.project == t.project
    ensures r.Some? ==> r.value.title == if Truthy(input.title) then input.title.value else t.title
    ensures r.Some? ==> r.value.description == if Truthy(input.description) then input.description else t.description
    ensures r.Some? && Truthy(input.status) ==> r.value.status.Name() == input.status.value
    ensures r.Some? && !Truthy(input.status) ==> r.value.status == t.status
    ensures r.Some? && WellFormed(t) ==> WellFormed(r.value)
  {
    var status := if Truthy(input.status) then ParseStatus(input.status.value) else Some(t.status);
    match status
    case None => None
    case Some(st) => Some(Task(OrStored(input.title, t.title), Or(input.description, t.description), st, t.project))
  }

  /** Every status is accepted back from its own name: the three names are
      distinct. */
  lemma ParseName(st: Status)
    ensures ParseStatus(st.Name()) == Some(st)
  {
  }

  /** Sending the same body twice stores the same document as sending it once. */
  lemma UpdateIdempotent(t: Task, input: TaskInput)
    requires Updated(t, input).Some?
    ensures Updated(Updated(t, input).value, input) == Updated(t, input)
  {
  }

  /** A body whose fields are all absent or empty leaves the task as it was. */
  lemma EmptyUpdateKeepsTask(t: Task, input: TaskInput)
    requires !Truthy(input.title) && !Truthy(input.description) && !Truthy(input.status)
    ensures Updated(t, input) == Some(t)
  {
  }

  /** Status has no enforced order: an update whose body carries only a status
      name moves any task to that status and changes nothing else. */
  lemma AnyStatusReachable(t: Task, to: Status)
    ensures Updated(t, TaskInput(None, None, Some(to.Name()))) == Some(t.(status := to))
  {
  }
}
