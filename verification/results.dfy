/** Outcomes of the service layer: either a value, or the error a NestJS handler
    would throw. Every service operation of the model returns a `Result`. */
module Results {

  /** Mongo document ids (ObjectId strings), treated as opaque keys. */
  type Id = string

  /** An error leaving a service method or guard.
      `HttpException` stands for Nest's HttpException and its subclasses
      (UnauthorizedException, DuplicateKeyException, ...): a status and a message.
      `JsError` is any other JavaScript error, propagated unchanged and told apart
      by its `name` (the jwt library's TokenExpiredError, a TypeError, ...). */
  datatype Failure =
    | HttpException(status: int, message: string)
    | JsError(name: string, message: string)

  const CREATED := 201
  const BAD_REQUEST := 400
  const UNAUTHORIZED := 401
  const NOT_FOUND := 404
  const INTERNAL_SERVER_ERROR := 500

  function BadRequest(message: string): Failure { HttpException(BAD_REQUEST, message) }
  function NotFound(message: string): Failure { HttpException(NOT_FOUND, message) }
  function Unauthorized(message: string): Failure { HttpException(UNAUTHORIZED, message) }
  function InternalError(message: string): Failure { HttpException(INTERNAL_SERVER_ERROR, message) }

  /** An optional value: an absent header, an unset document field. */
  datatype Option<+T> = None | Some(value: T)

  /** A value or the failure that replaced it; usable with `:-`. */
  datatype Result<+T> = Ok(value: T) | Err(error: Failure) {

    predicate IsFailure() {
      Err?
    }

    function PropagateFailure<U>(): Result<U>
      requires Err?
    {
      Err(error)
    }

    function Extract(): T
      requires Ok?
    {
      value
    }
  }

  /** The outcome of one guard (`if (cond) throw ...`) in a service method; usable with `:-`. */
  datatype Check = Pass | Fail(error: Failure) {

    predicate IsFailure() {
      Fail?
    }

    function PropagateFailure<U>(): Result<U>
      requires Fail?
    {
      Err(error)
    }
  }

  /** Continue when `condition` holds, otherwise throw `error`. */
  function Need(condition: bool, error: Failure): Check
  {
    if condition then Pass else Fail(error)
  }
}
