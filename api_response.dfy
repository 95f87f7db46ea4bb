/** The JSON envelopes every endpoint answers with, and the error-code table. */
module ApiResponse {
  import opened Common

  /** The keys of `ErrorCodes`. */
  datatype ErrorCode =
    | BadRequest | BroadcastInvalidStatus | BroadcastNotFound | ContactNotFound
    | EmailSendFailed | InternalError | NotFound | RateLimited
    | TokenExpired | TokenInvalid | Unauthorized | ValidationError

  /** The name of each key of `ErrorCodes`. */
  function Key(c: ErrorCode): string
  {
    match c
    case BadRequest => "BAD_REQUEST"
    case BroadcastInvalidStatus => "BROADCAST_INVALID_STATUS"
    case BroadcastNotFound => "BROADCAST_NOT_FOUND"
    case ContactNotFound => "CONTACT_NOT_FOUND"
    case EmailSendFailed => "EMAIL_SEND_FAILED"
    case InternalError => "INTERNAL_ERROR"
    case NotFound => "NOT_FOUND"
    case RateLimited => "RATE_LIMITED"
    case TokenExpired => "TOKEN_EXPIRED"
    case TokenInvalid => "TOKEN_INVALID"
    case Unauthorized => "UNAUTHORIZED"
    case ValidationError => "VALIDATION_ERROR"
  }

  /** `ErrorCodes[key]`: the string sent as `error.code`. Every value equals
      its key, and distinct codes are sent as distinct strings. */
  function Code(c: ErrorCode): (v: string)
    ensures v == Key(c)
    ensures forall d: ErrorCode :: Key(d) == v ==> d == c
  {
    match c
    case BadRequest => "BAD_REQUEST"
    case BroadcastInvalidStatus => "BROADCAST_INVALID_STATUS"
    case BroadcastNotFound => "BROADCAST_NOT_FOUND"
    case ContactNotFound => "CONTACT_NOT_FOUND"
    case EmailSendFailed => "EMAIL_SEND_FAILED"
    case InternalError => "INTERNAL_ERROR"
    case NotFound => "NOT_FOUND"
    case RateLimited => "RATE_LIMITED"
    case TokenExpired => "TOKEN_EXPIRED"
    case TokenInvalid => "TOKEN_INVALID"
    case Unauthorized => "UNAUTHORIZED"
    case ValidationError => "VALIDATION_ERROR"
  }

  datatype ErrorInfo = ErrorInfo(code: string, message: string)

  /** A response body: `{ data, success: true }` or `{ error: {code, message}, success: false }`. */
  datatype Body = Body(success: bool, data: Option<Json>, error: Option<ErrorInfo>)

  /** A JSON response with its HTTP status. */
  datatype Response = Response(status: int, body: Body)

  /** The two body shapes: the `success` flag alone tells them apart. */
  predicate WellFormed(b: Body)
  {
    if b.success then b.data.Some? && b.error.None? else b.data.None? && b.error.Some?
  }

  /** `successResponse(data, status = 200)`. */
  function SuccessResponse(data: Json, status: int := 200): (r: Response)
    ensures WellFormed(r.body) && r.body.success
    ensures r.body.data == Some(data) && r.status == status
  {
    Response(status, Body(true, Some(data), None))
  }

  /** `errorResponse(code, message, status = 400)`. */
  function ErrorResponse(code: ErrorCode, message: string, status: int := 400): (r: Response)
    ensures WellFormed(r.body) && !r.body.success
    ensures r.body.error == Some(ErrorInfo(Key(code), message)) && r.status == status
  {
    Response(status, Body(false, None, Some(ErrorInfo(Code(code), message))))
  }

  /** A well-formed envelope is a success envelope or an error envelope
      according to its flag, never both. */
  lemma EnvelopeKindBySuccessFlag(data: Json, s1: int, code: ErrorCode, message: string, s2: int, b: Body)
    requires WellFormed(b)
    ensures SuccessResponse(data, s1).body != ErrorResponse(code, message, s2).body
    ensures b.success <==> b.error.None?
    ensures b.success <==> b.data.Some?
  {
  }
}
