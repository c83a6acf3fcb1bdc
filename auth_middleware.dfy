/** Bearer-token authentication for the owner routes: the token check and the chain of
    early rejections in front of the protected handlers. JWT verification itself is a
    parameter: the library either returns a payload or throws. */
module AuthMiddleware {
  import opened Wrappers
  import opened Strings
  import opened Types

  const BearerPrefix := "Bearer "
  const AuthRequired := "Authentication required"
  const InvalidToken := "Invalid or expired token"
  const OwnerMismatch := "Forbidden: token does not match resource owner"

  /** What `jwt.verify` does with a token: returns its payload or throws. */
  datatype JwtOutcome = Verified(payload: AuthTokenPayload) | Threw

  /** `verifyToken`: the payload, or `null` whenever verification throws. */
  function VerifyToken(token: string, verify: string -> JwtOutcome): (r: Option<AuthTokenPayload>)
    ensures r.None? <==> verify(token).Threw?
    ensures r.Some? ==> verify(token) == Verified(r.value)
  {
    match verify(token)
    case Verified(p) => Some(p)
    case Threw => None
  }

  /** `req.params.userId` as a condition: an absent or empty parameter is falsy. */
  predicate RouteNamesUser(routeUserId: Option<string>) {
    routeUserId.Some? && routeUserId.value != ""
  }

  /** How `requireAuth` ends: a status and error body, or `next()` with the payload. */
  datatype Decision = Reject(status: int, error: string) | Proceed(payload: AuthTokenPayload)

  /** The token after `Bearer `. */
  function TokenOf(header: string): string
    requires StartsWith(header, BearerPrefix)
  {
    header[|BearerPrefix|..]
  }

  /** The decision chain of `requireAuth` for an `Authorization` header (absent as `None`)
      and the route's `userId` parameter. */
  function Decide(header: Option<string>, routeUserId: Option<string>, verify: string -> JwtOutcome): Decision {
    if header.None? || !StartsWith(header.value, BearerPrefix) then Reject(401, AuthRequired)
    else
      match VerifyToken(TokenOf(header.value), verify)
      case None => Reject(401, InvalidToken)
      case Some(payload) =>
        if RouteNamesUser(routeUserId) && routeUserId.value != payload.userId then Reject(403, OwnerMismatch)
        else Proceed(payload)
  }

  // ---- What the decision satisfies ----

  /** The token is the header with its first seven characters removed, and the header is
      that prefix followed by the token. */
  lemma TokenIsRestOfHeader(header: string)
    requires StartsWith(header, BearerPrefix)
    ensures |TokenOf(header)| == |header| - 7
    ensures header == BearerPrefix + TokenOf(header)
  {
    assert header == header[..7] + header[7..];
  }

  /** A missing header, or one without the `Bearer ` prefix, is a 401 asking for
      authentication, whatever the token or route. */
  lemma MissingBearerRejected(header: Option<string>, routeUserId: Option<string>, verify: string -> JwtOutcome)
    requires header.None? || !StartsWith(header.value, BearerPrefix)
    ensures Decide(header, routeUserId, verify) == Reject(401, AuthRequired)
  {
  }

  /** A token that fails verification is a 401, whatever the route. */
  lemma BadTokenRejected(token: string, routeUserId: Option<string>, verify: string -> JwtOutcome)
    requires verify(token).Threw?
    ensures Decide(Some(BearerPrefix + token), routeUserId, verify) == Reject(401, InvalidToken)
  {
    assert (BearerPrefix + token)[..|BearerPrefix|] == BearerPrefix;
    assert TokenOf(BearerPrefix + token) == token;
  }

  /** A valid token for another owner than the route names is a 403. */
  lemma OtherOwnerForbidden(token: string, route: string, verify: string -> JwtOutcome)
    requires verify(token).Verified? && route != "" && route != verify(token).payload.userId
    ensures Decide(Some(BearerPrefix + token), Some(route), verify) == Reject(403, OwnerMismatch)
  {
    assert (BearerPrefix + token)[..|BearerPrefix|] == BearerPrefix;
    assert TokenOf(BearerPrefix + token) == token;
  }

  /** The request proceeds exactly when the header carries a bearer token that verifies,
      and the route names no user or names the token's user; it proceeds with the token's
      payload. */
  lemma ProceedsExactly(header: Option<string>, routeUserId: Option<string>, verify: string -> JwtOutcome)
    ensures Decide(header, routeUserId, verify).Proceed? <==>
      && header.Some? && StartsWith(header.value, BearerPrefix)
      && verify(TokenOf(header.value)).Verified?
      && (!RouteNamesUser(routeUserId) || routeUserId.value == verify(TokenOf(header.value)).payload.userId)
    ensures Decide(header, routeUserId, verify).Proceed? ==>
      Decide(header, routeUserId, verify).payload == verify(TokenOf(header.value)).payload
  {
  }

  /** Every rejection is a 401 or a 403 with one of the three messages. */
  lemma RejectionsAreAuthErrors(header: Option<string>, routeUserId: Option<string>, verify: string -> JwtOutcome)
    ensures var d := Decide(header, routeUserId, verify);
      d.Reject? ==>
        || (d.status == 401 && (d.error == AuthRequired || d.error == InvalidToken))
        || (d.status == 403 && d.error == OwnerMismatch)
  {
  }

  // ---- The middleware on a request and its response ----

  /** An Express request and response as `requireAuth` touches them: the attached user,
      the response status and error body, and how often `next` has been called. */
  class Exchange {
    var authUser: Option<AuthTokenPayload>
    var status: Option<int>
    var errorBody: Option<string>
    var nextCalls: nat

    constructor ()
      ensures authUser.None? && status.None? && errorBody.None? && nextCalls == 0
    {
      authUser := None;
      status := None;
      errorBody := None;
      nextCalls := 0;
    }

    /** `requireAuth`: on a rejection it sets the status and body and leaves the user and
        `next` alone; otherwise it attaches the payload and calls `next` once. */
    method RequireAuth(header: Option<string>, routeUserId: Option<string>, verify: string -> JwtOutcome)
      modifies this
      ensures match Decide(header, routeUserId, verify)
        case Reject(code, message) =>
          && status == Some(code) && errorBody == Some(message)
          && authUser == old(authUser) && nextCalls == old(nextCalls)
        case Proceed(payload) =>
          && authUser == Some(payload) && nextCalls == old(nextCalls) + 1
          && status == old(status) && errorBody == old(errorBody)
    {
      if header.None? || !StartsWith(header.value, BearerPrefix) {
        status, errorBody := Some(401), Some(AuthRequired);
        return;
      }
      var token := header.value[7..];
      var payload := VerifyToken(token, verify);
      if payload.None? {
        status, errorBody := Some(401), Some(InvalidToken);
        return;
      }
      if RouteNamesUser(routeUserId) && routeUserId.value != payload.value.userId {
        status, errorBody := Some(403), Some(OwnerMismatch);
        return;
      }
      authUser := payload;
      nextCalls := nextCalls + 1;
    }
  }
}
