/**
 * src/auth/guards/jwt-auth.guard.ts: `handleRequest`, which turns the outcome
 * of Passport's JWT strategy (an error, a user, and the verifier's info
 * object) into the authenticated user or an exception.
 */
module JwtGuard {
  import opened Common

  /**
   * The verifier's `info` object. An absent `message` is the empty string:
   * both are falsy where the guard tests it.
   */
  datatype Info = Info(name: string, message: string)

  const InvalidFormat := "Invalid token format"
  const Expired := "Token has expired"
  const NotActive := "Token not active yet"
  const Required := "Authentication required"

  /** The fixed message for the three jsonwebtoken error classes, if `name` is one of them. */
  function KnownJwtError(name: string): (m: Option<string>)
    ensures m.Some? <==> name in {"JsonWebTokenError", "TokenExpiredError", "NotBeforeError"}
  {
    match name
    case "JsonWebTokenError" => Some(InvalidFormat)
    case "TokenExpiredError" => Some(Expired)
    case "NotBeforeError" => Some(NotActive)
    case _ => None
  }

  /** Whether the info object by itself decides the request (the switch at the top). */
  predicate InfoRejects(info: Option<Info>)
  {
    info.Some? && (KnownJwtError(info.value.name).Some? || info.value.message != "")
  }

  /** `handleRequest(err, user, info)`; a thrown `err` is rethrown as it is. */
  function HandleRequest<U>(err: Option<Failure>, user: Option<U>, info: Option<Info>): (r: Result<U>)
    ensures r.Ok? <==> !InfoRejects(info) && err.None? && user.Some?
    ensures r.Ok? ==> r.value == user.value
    ensures InfoRejects(info) ==> r.Err? && r.error.Unauthorized?
    ensures info.Some? && KnownJwtError(info.value.name).Some? ==>
              r == Err(Unauthorized(KnownJwtError(info.value.name).value))
    ensures InfoRejects(info) && KnownJwtError(info.value.name).None? ==> r == Err(Unauthorized(info.value.message))
    ensures !InfoRejects(info) && err.Some? ==> r == Err(err.value)
    ensures !InfoRejects(info) && err.None? && user.None? ==> r == Err(Unauthorized(Required))
  {
    if info.Some? && KnownJwtError(info.value.name).Some? then
      Err(Unauthorized(KnownJwtError(info.value.name).value))
    else if info.Some? && info.value.message != "" then
      Err(Unauthorized(info.value.message))
    else if err.Some? then
      Err(err.value)
    else if user.None? then
      Err(Unauthorized(Required))
    else
      Ok(user.value)
  }

  /** An expired token is refused whatever the strategy's error and user are. */
  lemma ExpiredAlwaysRefused<U>(err: Option<Failure>, user: Option<U>, message: string)
    ensures HandleRequest(err, user, Some(Info("TokenExpiredError", message))) == Err(Unauthorized(Expired))
  {
  }

  /** Info takes precedence over err: an info message wins over a thrown error. */
  lemma InfoBeforeError<U>(e: Failure, user: Option<U>, name: string, message: string)
    requires KnownJwtError(name).None? && message != ""
    ensures HandleRequest(Some(e), user, Some(Info(name, message))) == Err(Unauthorized(message))
  {
  }

  /** Info without a message and with an unknown name falls through to err and user. */
  lemma SilentInfoFallsThrough<U>(err: Option<Failure>, user: Option<U>, name: string)
    requires KnownJwtError(name).None?
    ensures HandleRequest(err, user, Some(Info(name, ""))) == HandleRequest(err, user, None)
  {
  }
}
