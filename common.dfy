/** Values shared by every part of the model: the outcome of a request handler
    and an optional value for fields a request may leave out. */
module Common {

  datatype Option<+T> = None | Some(value: T)

  /** The HTTP outcome of a route handler. `Ok` carries the JSON body (200 or 201);
      `ServerError` stands for every 500 the handlers' catch blocks produce. */
  datatype Response<+T> =
    | Ok(value: T)
    | NotFound
    | Forbidden
    | BadRequest(msg: string)
    | ServerError

  /** Identifiers stand for MongoDB ObjectIds; the store hands out fresh ones from a counter. */
  type Id = nat

  /** A point in time, in milliseconds, as `new Date()` / `Date.now()` would give it. */
  type Time = int
}
