/** Small shared vocabulary: optional values, identifiers and handler responses. */
module Common {

  datatype Option<+T> = None | Some(value: T)

  /** A database identifier, in its hexadecimal string form. */
  type Id = string

  /** Field name to human-readable message, the JSON error body every handler sends. */
  type ErrorMap = map<string, string>

  /**
   * What a route handler answers: a JSON body with status 200, an error status with
   * a field map, or an exception that escapes the handler (a driver cast error or a
   * dereference of a missing document).  The app's own error middleware receives such an
   * exception; what it answers is not part of this model.
   */
  datatype Response<+P> = Ok(body: P) | Err(status: int, errors: ErrorMap) | Fault

  /** The `{deleted: true}` answer. */
  datatype Deleted = Deleted

  /** The format predicates the validation library supplies; they are parameters of the model. */
  datatype Formats = Formats(isEmail: string -> bool, isUri: string -> bool, isDate: string -> bool)
}
