/** Result and option types shared by every part of the model. */
module Common {

  datatype Option<+T> = None | Some(value: T)

  /** The error replies of the routes, named after their HTTP meaning.
      ServerError is what a route's catch block answers when the document
      store refuses a save (a schema validation failure) or a query. */
  datatype Failure = BadRequest | Forbidden | NotFound | ServerError

  datatype Result<+T> = Ok(value: T) | Err(failure: Failure)

  /** JavaScript truthiness of an optional string: undefined and "" are falsy. */
  predicate Truthy(s: Option<string>)
  {
    s.Some? && s.value != ""
  }
}
