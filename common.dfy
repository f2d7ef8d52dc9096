/** Values shared by the schemas and the route handlers. */
module Common {

  /** Document and user ids (MongoDB ObjectIds), compared by value. */
  type Id = nat

  datatype Option<+T> = None | Some(value: T)

  /** What a handler answers: the resource on success, or the failure it
      reports (404, 403, or the 500 that a rejected validation turns into). */
  datatype Reply<+T> = Ok(value: T) | NotFound | Forbidden | Error

  /** JavaScript truthiness of a string field of a request body: an absent
      field and the empty string are both falsy. */
  predicate Truthy(v: Option<string>)
  {
    v.Some? && v.value != ""
  }

  /** `given || stored` for a field that may be absent in the stored document. */
  function Or(given: Option<string>, stored: Option<string>): (r: Option<string>)
    ensures r == given || r == stored
    ensures Truthy(r) <==> Truthy(given) || Truthy(stored)
    ensures Truthy(given) ==> r == given
    ensures !Truthy(given) ==> r == stored
  {
    if Truthy(given) then given else stored
  }

  /** `given || stored` for a field the stored document always has. */
  function OrStored(given: Option<string>, stored: string): (r: string)
    ensures Some(r) == given || r == stored
    ensures stored != "" ==> r != ""
    ensures Truthy(given) ==> Some(r) == given
  {
    if Truthy(given) then given.value else stored
  }
}
