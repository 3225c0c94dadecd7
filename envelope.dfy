/** The value shapes shared by both services. */
module Envelope {

  /** A value that may be missing: a request field left undefined, a lookup that found nothing. */
  datatype Option<+T> = None | Some(value: T)

  /**
   * The object every service method returns: `type` is "success" or "error",
   * `message` a fixed human-readable text, `data` the payload of a success and
   * `errors` the list of validation messages of an error (empty when the
   * source's object has no `errors` key).
   */
  datatype Response<+T> =
    | Success(message: string, data: T)
    | Error(message: string, errors: seq<string>)
}
