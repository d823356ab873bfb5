/**
 * The JWT dependencies that guard protected routes: `require_jwt` turns any decoding
 * failure into a 401, `require_active_session` checks the user_id claim and asks the
 * Sessions table whether that user has an active session. Decoding itself (signature,
 * expiry) happens outside the model: its outcome is an input.
 */
module JwtAuth {
  import opened Wrappers
  import opened AuthService

  /**
   * A decoded token. `userId` is the user_id claim (`None` when absent); `claims`
   * stands for every other claim, carried along untouched.
   */
  datatype Payload = Payload(userId: Option<int>, claims: map<string, string>)

  /** An HTTPException: status code and detail. */
  datatype HttpError = HttpError(status: int, detail: string)

  const InvalidToken: HttpError := HttpError(401, "Invalid or expired token")
  const InvalidPayload: HttpError := HttpError(401, "Invalid token payload")
  const NoActiveSession: HttpError := HttpError(401, "No active session found for this user.")

  /** `if not user_id`: the claim is missing or is the integer 0. */
  predicate Falsy(userId: Option<int>)
  {
    userId.None? || userId.value == 0
  }

  /** The session select for `uid` returns at least one row. */
  predicate HasActiveSession(sessions: seq<Session>, uid: int)
  {
    uid >= 0 && ActiveSessions(sessions, uid as nat) != []
  }

  /**
   * `require_jwt`: `decoded` is what decoding the bearer token gave, the payload or
   * the exception it raised. Any exception becomes one and the same 401.
   */
  function RequireJwt(decoded: Result<Payload, string>): (r: Result<Payload, HttpError>)
    ensures r.Ok? <==> decoded.Ok?
    ensures r.Ok? ==> r.value == decoded.value
    ensures r.Err? ==> r.error == InvalidToken
  {
    match decoded
    case Ok(p) => Ok(p)
    case Err(_) => Err(InvalidToken)
  }

  /**
   * `require_active_session`. `storeError` is `Some(message)` when the select raises
   * an APIError; the 401 raised inside the try is not an APIError and passes through.
   */
  function RequireActiveSession(payload: Payload, sessions: seq<Session>, storeError: Option<string>)
    : Result<Payload, HttpError>
  {
    if Falsy(payload.userId) then Err(InvalidPayload)
    else if storeError.Some? then Err(HttpError(500, "Error checking session: " + storeError.value))
    else if !HasActiveSession(sessions, payload.userId.value) then Err(NoActiveSession)
    else Ok(payload)
  }

  /** Both dependencies as FastAPI chains them for a protected route. */
  function Protect(decoded: Result<Payload, string>, sessions: seq<Session>, storeError: Option<string>)
    : Result<Payload, HttpError>
  {
    match RequireJwt(decoded)
    case Err(e) => Err(e)
    case Ok(p) => RequireActiveSession(p, sessions, storeError)
  }

  /**
   * The session gate passes exactly when the claim is a truthy id, the select succeeds
   * and that user has a row with is_active set; it then returns the payload unchanged.
   * Otherwise the error is, in this order of precedence: the bad payload, the 500, the
   * missing session.
   */
  lemma RequireActiveSessionCases(payload: Payload, sessions: seq<Session>, storeError: Option<string>)
    ensures var r := RequireActiveSession(payload, sessions, storeError);
            && (r.Ok? <==> !Falsy(payload.userId) && storeError.None?
                           && payload.userId.value >= 0
                           && exists s :: s in sessions && s.userId == payload.userId.value && s.isActive)
            && (r.Ok? ==> r.value == payload)
            && (Falsy(payload.userId) ==> r == Err(InvalidPayload))
            && (!Falsy(payload.userId) && storeError.Some? ==> r.Err? && r.error.status == 500)
            && (!Falsy(payload.userId) && storeError.None? && r.Err? ==> r.error == NoActiveSession)
  {
    if payload.userId.Some? && payload.userId.value >= 0 {
      var uid := payload.userId.value as nat;
      ActiveSessionsMembers(sessions, uid);
      if ActiveSessions(sessions, uid) != [] {
        assert ActiveSessions(sessions, uid)[0] in ActiveSessions(sessions, uid);
      }
    }
  }

  /** A falsy user_id is refused before any query: neither the table nor a store error matters. */
  lemma FalsyNeedsNoQuery(payload: Payload, s1: seq<Session>, e1: Option<string>, s2: seq<Session>, e2: Option<string>)
    requires Falsy(payload.userId)
    ensures RequireActiveSession(payload, s1, e1) == RequireActiveSession(payload, s2, e2) == Err(InvalidPayload)
  {
  }

  /** A protected route sees the decoded payload itself, or a 401/500 error. */
  lemma ProtectCases(decoded: Result<Payload, string>, sessions: seq<Session>, storeError: Option<string>)
    ensures var r := Protect(decoded, sessions, storeError);
            && (decoded.Err? ==> r == Err(InvalidToken))
            && (r.Ok? ==> decoded.Ok? && r.value == decoded.value)
            && (r.Err? ==> r.error.status == 401 || r.error.status == 500)
  {
  }

  /**
   * After a login of user `uid` (a non-zero id), any token carrying that user_id passes
   * the gate: the check is per user, so a token from an earlier login, whose session
   * the login just deactivated, is accepted as well as the new one.
   */
  lemma GateAfterLogin(sessions: seq<Session>, uid: nat, token: string, ip: Option<string>, payload: Payload)
    requires uid != 0 && payload.userId == Some(uid)
    ensures var after := Deactivate(sessions, uid) + [Session(uid, token, ip, true)];
            RequireActiveSession(payload, after, None) == Ok(payload)
  {
    LoginSessions(sessions, uid, token, ip);
  }

  /**
   * After a logout of user `uid` every token carrying that user_id is refused with the
   * missing-session 401, whatever other users do.
   */
  lemma GateAfterLogout(sessions: seq<Session>, uid: nat, payload: Payload)
    requires uid != 0 && payload.userId == Some(uid)
    ensures RequireActiveSession(payload, Deactivate(sessions, uid), None) == Err(NoActiveSession)
  {
    DeactivateEffect(sessions, uid);
  }

  /** A logout of one user changes nothing for the tokens of another. */
  lemma GateOtherUsers(sessions: seq<Session>, uid: nat, payload: Payload, storeError: Option<string>)
    requires payload.userId != Some(uid as int)
    ensures RequireActiveSession(payload, Deactivate(sessions, uid), storeError)
         == RequireActiveSession(payload, sessions, storeError)
  {
    DeactivateEffect(sessions, uid);
  }
}
