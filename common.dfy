/** Small shared datatypes. */
module Common {

  /** A value that may be absent: a session without a user, a lookup that found nothing. */
  datatype Option<+T> = None | Some(value: T)

  /** What a route handler answers: a redirect, a view file sent as the page, a JSON
      body, or an error status with its message. */
  datatype Reply<+T> =
    | Redirect(location: string)
    | File(view: string)
    | Json(body: T)
    | Error(status: nat, message: string)
}
