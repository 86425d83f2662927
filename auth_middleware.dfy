/** The request authentication middleware: from the `Authorization` header to
    either `next()` with the requesting principal or a 401 reply with a
    message. Token verification (`jwt.verify` with the server's secret) is a
    parameter: it either yields the decoded payload or throws one of the
    library's errors. */
module AuthMiddleware {
  import opened Common
  import opened ObjectIds
  import opened Users

  const BEARER_PREFIX: string := "Bearer "
  /** Every rejection the middleware sends has this status. */
  const UNAUTHORIZED: int := 401

  const MSG_HEADER_MISSING: string := "Authorization header missing"
  const MSG_NO_TOKEN: string := "No token found in header"
  const MSG_MALFORMED: string := "Malformed token payload"
  const MSG_USER_NOT_FOUND: string := "User not found"
  const MSG_EXPIRED: string := "Token expired"
  const MSG_BAD_SIGNATURE: string := "Invalid token signature"
  const MSG_INVALID: string := "Invalid token"

  /** What can be thrown inside the middleware's `try`. `TokenExpiredError` and
      `NotBeforeError` are subclasses of `JsonWebTokenError`; `OtherError` is
      anything else, such as a failed ObjectId cast in the user lookup. */
  datatype ThrownError = TokenExpiredError | NotBeforeError | JsonWebTokenError | OtherError

  /** `err instanceof jwt.JsonWebTokenError`. */
  predicate IsJsonWebTokenError(e: ThrownError) {
    e != OtherError
  }

  /** The outcome of `jwt.verify(token, secret)`. */
  datatype Verification = Verified(payload: Json) | Threw(error: ThrownError)

  /** The middleware's effect: `next()` with `req.user` set, or a 401 reply. */
  datatype Outcome = Next(user: Principal) | Unauthorized(message: string)

  /** The token is the header without a leading "Bearer ", or the whole header. */
  function ExtractToken(header: string): (token: string)
    ensures StartsWith(header, BEARER_PREFIX) ==> header == BEARER_PREFIX + token
    ensures !StartsWith(header, BEARER_PREFIX) ==> token == header
  {
    if StartsWith(header, BEARER_PREFIX) then header[|BEARER_PREFIX|..] else header
  }

  /** Only the first "Bearer " is removed: the token after it is taken as it is. */
  lemma ExtractAfterBearer(token: string)
    ensures ExtractToken(BEARER_PREFIX + token) == token
  {
    assert (BEARER_PREFIX + token)[..|BEARER_PREFIX|] == BEARER_PREFIX;
  }

  /** The message for an error caught by the middleware. The expired test comes
      first, so an expired token is reported as expired although its error is
      also a `JsonWebTokenError`. */
  function CatchMessage(e: ThrownError): (m: string)
    ensures m == MSG_EXPIRED <==> e == TokenExpiredError
    ensures m == MSG_BAD_SIGNATURE <==> IsJsonWebTokenError(e) && e != TokenExpiredError
    ensures m == MSG_INVALID <==> !IsJsonWebTokenError(e)
  {
    if e == TokenExpiredError then MSG_EXPIRED
    else if IsJsonWebTokenError(e) then MSG_BAD_SIGNATURE
    else MSG_INVALID
  }

  /** The result of `User.findById(decoded.id)`: the id is cast to an ObjectId
      first, and a value that does not cast throws. */
  datatype Lookup = CastFailed | NoSuchUser | Found(user: User)

  function FindById(users: map<Email, User>, id: Json): (r: Lookup)
    requires WellFormed(users)
    ensures r.CastFailed? <==> !id.JStr? || CastObjectId(id.s).None?
    ensures r.Found? <==> id.JStr? && CastObjectId(id.s).Some? && IdInUse(users, CastObjectId(id.s).value)
    ensures r.Found? ==>
              && id.JStr? && CastObjectId(id.s) == Some(r.user.id)
              && r.user.email in users && users[r.user.email] == r.user
  {
    if !id.JStr? then CastFailed
    else match CastObjectId(id.s)
      case None => CastFailed
      case Some(oid) =>
        match LookupById(users, oid)
        case None => NoSuchUser
        case Some(u) => Found(u)
  }

  /** The middleware, for a request with the given `Authorization` header
      (None when the header is absent). */
  function Authenticate(header: Option<string>, verify: string -> Verification, users: map<Email, User>): (r: Outcome)
    requires WellFormed(users)
    ensures header.None? || header == Some("") ==> r == Unauthorized(MSG_HEADER_MISSING)
    ensures header == Some(BEARER_PREFIX) ==> r == Unauthorized(MSG_NO_TOKEN)
    ensures r.Next? ==>
              header.Some? && ExtractToken(header.value) != ""
              && var v := verify(ExtractToken(header.value));
              && v.Verified?
              && var id := Property(v.payload, "id");
              && id.Some? && id.value.JStr? && CastObjectId(id.value.s) == Some(r.user.id)
              && exists u :: u in users.Values && r.user == ToPrincipal(u)
    ensures header.Some? && header.value != "" && ExtractToken(header.value) != ""
            && verify(ExtractToken(header.value)).Threw? ==>
              r == Unauthorized(CatchMessage(verify(ExtractToken(header.value)).error))
  {
    if header.None? || header.value == "" then Unauthorized(MSG_HEADER_MISSING)
    else
      var token := ExtractToken(header.value);
      if token == "" then Unauthorized(MSG_NO_TOKEN)
      else match verify(token)
        case Threw(e) => Unauthorized(CatchMessage(e))
        case Verified(decoded) =>
          var id := Property(decoded, "id");
          if id.None? || !JsonTruthy(id.value) then Unauthorized(MSG_MALFORMED)
          else match FindById(users, id.value)
            case CastFailed => Unauthorized(CatchMessage(OtherError))
            case NoSuchUser => Unauthorized(MSG_USER_NOT_FOUND)
            case Found(u) => Next(ToPrincipal(u))
  }

  /** A verified payload whose top-level `id` is missing or falsy is rejected as malformed. */
  lemma NoTopLevelIdIsMalformed(header: string, verify: string -> Verification, users: map<Email, User>)
    requires WellFormed(users)
    requires header != "" && ExtractToken(header) != ""
    requires verify(ExtractToken(header)).Verified?
    requires var id := Property(verify(ExtractToken(header)).payload, "id"); id.None? || !JsonTruthy(id.value)
    ensures Authenticate(Some(header), verify, users) == Unauthorized(MSG_MALFORMED)
  {
  }

  /** A verified payload whose top-level `id` is truthy but not a string that casts to an ObjectId fails the cast
      in the user lookup, and the error is reported as "Invalid token". */
  lemma UncastableIdIsInvalid(header: string, verify: string -> Verification, users: map<Email, User>)
    requires WellFormed(users)
    requires header != "" && ExtractToken(header) != ""
    requires verify(ExtractToken(header)).Verified?
    requires var id := Property(verify(ExtractToken(header)).payload, "id");
             id.Some? && JsonTruthy(id.value) && (!id.value.JStr? || CastObjectId(id.value.s).None?)
    ensures Authenticate(Some(header), verify, users) == Unauthorized(MSG_INVALID)
  {
  }

  /** A verified payload whose top-level `id` is a string casting to a stored user's `_id` yields exactly that
      user's principal, whether the header carries "Bearer " or the bare token, and whatever the letter case of
      the id's hex digits. */
  lemma StoredIdAuthenticates(header: string, verify: string -> Verification, users: map<Email, User>, u: User,
                              s: string)
    requires WellFormed(users) && u.email in users && users[u.email] == u
    requires header != "" && ExtractToken(header) != ""
    requires verify(ExtractToken(header)).Verified?
    requires Property(verify(ExtractToken(header)).payload, "id") == Some(JStr(s))
    requires CastObjectId(s) == Some(u.id)
    ensures Authenticate(Some(header), verify, users) == Next(ToPrincipal(u))
  {
    assert LookupById(users, u.id) == Some(u);
  }

  /** A verified payload whose top-level `id` is a string casting to an id that no stored user has is rejected
      with "User not found", whatever the form of the header. */
  lemma UnknownIdRejected(header: string, verify: string -> Verification, users: map<Email, User>, oid: ObjectId,
                          s: string)
    requires WellFormed(users) && !IdInUse(users, oid)
    requires header != "" && ExtractToken(header) != ""
    requires verify(ExtractToken(header)).Verified?
    requires Property(verify(ExtractToken(header)).payload, "id") == Some(JStr(s))
    requires CastObjectId(s) == Some(oid)
    ensures Authenticate(Some(header), verify, users) == Unauthorized(MSG_USER_NOT_FOUND)
  {
  }
}
