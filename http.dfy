/** The JSON responses the handlers send: a status code and either
    `{ success: true, ... }` with a payload or
    `{ success: false, error: [{ value?, msg }, ...] }`. */
module Http {
  import opened Js

  /** One entry of the `error` array; `value` is omitted when it is `undefined`. */
  datatype ErrorItem = ErrorItem(value: Option<string>, msg: string)

  datatype Body<+P> = Ok(payload: P) | Errors(errors: seq<ErrorItem>)

  datatype Response<+P> = Response(status: nat, body: Body<P>)

  /** `res.status(status).json({ success: false, error: [{ msg }] })` */
  function Fail<P>(status: nat, msg: string): Response<P> {
    Response(status, Errors([ErrorItem(None, msg)]))
  }

  /** What every handler's `catch` block sends. */
  function InternalServerError<P>(): Response<P> {
    Fail(500, "Internal Server Error")
  }
}
