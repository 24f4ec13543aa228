/** The (status, message) replies the route handlers send with `res.status(..).json(..)`. */
module Http {
  import opened Wrappers

  datatype Reply<T> =
    /** `{ success: true, message?, data }`; `summary` is the optional `message` */
    | Ok(status: int, summary: Option<string>, data: T)
    /** `{ success: false, message, details? }` */
    | Err(status: int, message: string, details: seq<string>)
    /**
     * The rejection sent by the `authorize(...)` middleware, whose text is defined in
     * backend/src/middleware/auth.ts, a file that is not part of this model.
     */
    | Forbidden

  function Error<T>(status: int, message: string): (r: Reply<T>)
    ensures r.Err? && r.status == status && r.message == message && r.details == []
  {
    Err(status, message, [])
  }

  /** The catch-all reply of every route handler. */
  function InternalError<T>(): (r: Reply<T>)
    ensures r.Err? && r.status == 500
  {
    Err(500, "Internal server error", [])
  }

  /** What an Express middleware does: call `next()`, or end the request with a reply. */
  datatype Gate<T> = Next | Halt(reply: Reply<T>)
}
