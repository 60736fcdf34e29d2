/** Value wrappers shared by every module of the model. */
module Common {

  /** A nullable document field or an optional request field. */
  datatype Option<T> = None | Some(value: T)

  /** Either the value a handler returns on success or the error it answers with. */
  datatype Result<T, E> = Ok(value: T) | Err(error: E)

  /**
   * JavaScript truthiness of an optional string request field: `!field` holds
   * for a missing field and for the empty string.
   */
  predicate Truthy(field: Option<string>)
  {
    field.Some? && field.value != ""
  }
}
