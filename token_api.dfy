/** renewAccessToken (api/token.go): a refresh token is exchanged for a
    new access token only after a fixed sequence of checks on the token's
    claims and the stored session. Token verification, UUID parsing, the
    session lookup and token creation are function parameters; `now` is
    the clock. */
module TokenApi {
  import opened Wrappers
  import opened DbErrors
  import opened Schema
  import Http

  /** The registered JWT claims the handler reads. */
  datatype Claims = Claims(id: string, subject: string, expiresAt: Time)

  /** A sessions row. */
  datatype Session = Session(id: string, username: string, refreshToken: string, isBlocked: bool, expiresAt: Time)

  /** The calls the handler makes into code outside the model. */
  datatype RenewDeps = RenewDeps(
    verifyToken: string -> Result<Claims, Error>,
    parseUuid: string -> Result<string, Error>,
    getSession: string -> Result<Session, Error>,
    createToken: (string, Duration) -> Result<(string, Claims), Error>)

  datatype RenewAccessTokenResponse = RenewAccessTokenResponse(accessToken: string, accessTokenExpiresAt: Time)

  /** The handler's answer, and the username it asked for a token for. */
  datatype RenewOutcome = RenewOutcome(status: int, tokenFor: Option<string>, response: Option<RenewAccessTokenResponse>)

  /** time.Now().After(expiresAt): strictly later. */
  predicate Expired(now: Time, expiresAt: Time)
  {
    now > expiresAt
  }

  /** The four checks on the stored session, in the order they run. */
  predicate SessionAccepted(session: Session, claims: Claims, presented: string, now: Time)
  {
    !session.isBlocked && session.username == claims.subject && session.refreshToken == presented
    && !Expired(now, claims.expiresAt)
  }

  function RenewAccessToken(refreshToken: string, deps: RenewDeps, accessDuration: Duration, now: Time): (r: RenewOutcome)
    ensures deps.verifyToken(refreshToken).Err? ==> r == RenewOutcome(Http.StatusUnauthorized, None, None)
    ensures var claims := deps.verifyToken(refreshToken);
            claims.Ok? && deps.parseUuid(claims.value.id).Err? ==>
              r == RenewOutcome(Http.StatusInternalServerError, None, None)
    ensures var claims := deps.verifyToken(refreshToken);
            claims.Ok? && deps.parseUuid(claims.value.id).Ok? ==>
              var found := deps.getSession(deps.parseUuid(claims.value.id).value);
              && (found.Err? ==>
                    r == RenewOutcome(if Is(found.error, ErrNoRows) then Http.StatusNotFound else Http.StatusInternalServerError, None, None))
              && (found.Ok? ==>
                    var s := found.value;
                    && (s.isBlocked ==> r == RenewOutcome(Http.StatusUnauthorized, None, None))
                    && (!s.isBlocked && s.username != claims.value.subject ==> r == RenewOutcome(Http.StatusUnauthorized, None, None))
                    && (!s.isBlocked && s.username == claims.value.subject && s.refreshToken != refreshToken ==>
                          r == RenewOutcome(Http.StatusUnauthorized, None, None))
                    && ((!s.isBlocked && s.username == claims.value.subject && s.refreshToken == refreshToken
                         && Expired(now, claims.value.expiresAt)) ==> r == RenewOutcome(Http.StatusUnauthorized, None, None))
                    && (SessionAccepted(s, claims.value, refreshToken, now) ==>
                          var created := deps.createToken(s.username, accessDuration);
                          && r.tokenFor == Some(s.username)
                          && (created.Err? ==> r.status == Http.StatusInternalServerError && r.response.None?)
                          && (created.Ok? ==>
                                r.status == Http.StatusOK
                                && r.response == Some(RenewAccessTokenResponse(created.value.0, created.value.1.expiresAt)))))
    ensures r.status == Http.StatusOK <==> r.response.Some?
    ensures r.status in {Http.StatusOK, Http.StatusUnauthorized, Http.StatusNotFound, Http.StatusInternalServerError}
  {
    var claims := deps.verifyToken(refreshToken);
    if claims.Err? then RenewOutcome(Http.StatusUnauthorized, None, None)
    else
      var sessionId := deps.parseUuid(claims.value.id);
      if sessionId.Err? then RenewOutcome(Http.StatusInternalServerError, None, None)
      else
        var found := deps.getSession(sessionId.value);
        if found.Err? then
          if Is(found.error, ErrNoRows) then RenewOutcome(Http.StatusNotFound, None, None)
          else RenewOutcome(Http.StatusInternalServerError, None, None)
        else
          var s := found.value;
          if s.isBlocked then RenewOutcome(Http.StatusUnauthorized, None, None)
          else if s.username != claims.value.subject then RenewOutcome(Http.StatusUnauthorized, None, None)
          else if s.refreshToken != refreshToken then RenewOutcome(Http.StatusUnauthorized, None, None)
          else if Expired(now, claims.value.expiresAt) then RenewOutcome(Http.StatusUnauthorized, None, None)
          else
            var created := deps.createToken(s.username, accessDuration);
            if created.Err? then RenewOutcome(Http.StatusInternalServerError, Some(s.username), None)
            else RenewOutcome(Http.StatusOK, Some(s.username),
                              Some(RenewAccessTokenResponse(created.value.0, created.value.1.expiresAt)))
  }

  /** A token is issued only when every check passes, and only for the
      verified subject, who is the session's user. */
  lemma IssuedOnlyAfterAllChecks(refreshToken: string, deps: RenewDeps, accessDuration: Duration, now: Time)
    ensures var r := RenewAccessToken(refreshToken, deps, accessDuration, now);
            r.tokenFor.Some? <==>
              && deps.verifyToken(refreshToken).Ok?
              && deps.parseUuid(deps.verifyToken(refreshToken).value.id).Ok?
              && deps.getSession(deps.parseUuid(deps.verifyToken(refreshToken).value.id).value).Ok?
              && SessionAccepted(deps.getSession(deps.parseUuid(deps.verifyToken(refreshToken).value.id).value).value,
                                 deps.verifyToken(refreshToken).value, refreshToken, now)
    ensures var r := RenewAccessToken(refreshToken, deps, accessDuration, now);
            r.tokenFor.Some? ==> r.tokenFor.value == deps.verifyToken(refreshToken).value.subject
  {
  }

  /** The token is still good at the very instant it expires, and refused
      one nanosecond later. */
  lemma ExpiryIsStrict(claims: Claims)
    ensures !Expired(claims.expiresAt, claims.expiresAt)
    ensures Expired(claims.expiresAt + 1, claims.expiresAt)
  {
  }
}
