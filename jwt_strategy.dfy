/** The token strategy: the expiry rule the strategy is configured with and
    `validate`, which turns a decoded payload into the request's identity. */
module JwtStrategy {
  import opened Common
  import opened Entities
  import opened UsersService
  import AuthService

  const InvalidTokenPayload := Unauthorized("Invalid token payload")
  /** Reading `payload.sub` for the log line before the guard, on a missing payload. */
  const MissingPayload := TypeError("Cannot read properties of undefined (reading 'sub')")

  /** A decoded payload: the claims the strategy reads, either of which may be absent. */
  datatype JwtPayload = JwtPayload(sub: Option<string>, email: Option<string>, exp: Option<int>)

  /** What `validate` attaches to the request. */
  datatype Identity = Identity(userId: string, email: Option<string>)

  /** The strategy's options; the expiration is not ignored. */
  datatype StrategyOptions = StrategyOptions(ignoreExpiration: bool)
  const Options := StrategyOptions(false)

  /** The expiry rule applied before `validate`: a token whose `exp` claim
      (seconds) is not after the current time is refused unless the options
      ignore expiration; a token with no `exp` claim is not checked. */
  predicate AcceptsExpiry(opts: StrategyOptions, p: JwtPayload, nowSeconds: int)
  {
    opts.ignoreExpiration || p.exp.None? || nowSeconds < p.exp.value
  }


  /** `validate`: a missing payload fails on the log line that reads its
      `sub`, so the guard's `!payload` never decides; a missing or empty
      `sub` is Unauthorized; otherwise the identity is the subject and the
      e-mail. */
  function Validate(payload: Option<JwtPayload>): (r: Result<Identity>)
    ensures payload.None? ==> r == Failure(MissingPayload)
    ensures payload.Some? ==> (r.Success? <==> Truthy(payload.value.sub))
    ensures payload.Some? && r.Failure? ==> r.error == InvalidTokenPayload
    ensures r.Success? ==> r.value.userId == payload.value.sub.value && r.value.userId != ""
                           && r.value.email == payload.value.email
  {
    if payload.None? then Failure(MissingPayload)
    else if !Truthy(payload.value.sub) then Failure(InvalidTokenPayload)
    else Success(Identity(payload.value.sub.value, payload.value.email))
  }

  /** The payload a signed token decodes back to, with its expiry claim. */
  function Decoded(p: AuthService.Payload, exp: Option<int>): (d: JwtPayload)
    ensures d.sub == Some(p.sub) && d.email == Some(p.email) && d.exp == exp
  {
    JwtPayload(Some(p.sub), Some(p.email), exp)
  }

  /** The guard's refusal of a token it does not accept; the guard throws
      `UnauthorizedException` with its default message. */
  const GuardRefusal := Unauthorized("Unauthorized")

  /** A decoded token through the strategy: the expiry rule with the
      configured options first, `validate` only for a token it accepts. */
  function Authenticate(p: JwtPayload, nowSeconds: int): (r: Result<Identity>)
    ensures p.exp.Some? && nowSeconds >= p.exp.value ==> r == Failure(GuardRefusal)
    ensures (p.exp.None? || nowSeconds < p.exp.value) ==> r == Validate(Some(p))
  {
    if AcceptsExpiry(Options, p, nowSeconds) then Validate(Some(p)) else Failure(GuardRefusal)
  }

  /** A token signed for a stored user validates to that user's id and e-mail:
      ids are never empty. */
  lemma StoredUserValidates(users: UserStore, u: User, exp: Option<int>)
    requires users.Valid() && u.id in users.users && users.users[u.id] == u
    ensures Validate(Some(Decoded(AuthService.PayloadFor(u), exp))) == Success(Identity(u.id, Some(u.email)))
  {
    IdSetNonEmpty(users.nextUser, u.id);
  }

  /** A token signed for a stored user is refused at or after its expiry,
      whatever `validate` would make of it. */
  lemma ExpiredTokenRefused(u: User, exp: int, nowSeconds: int)
    requires nowSeconds >= exp
    ensures Authenticate(Decoded(AuthService.PayloadFor(u), Some(exp)), nowSeconds) == Failure(GuardRefusal)
  {
  }

  /** Before its expiry, a token signed for a stored user authenticates as
      that user. */
  lemma FreshTokenAuthenticates(users: UserStore, u: User, exp: int, nowSeconds: int)
    requires users.Valid() && u.id in users.users && users.users[u.id] == u
    requires nowSeconds < exp
    ensures Authenticate(Decoded(AuthService.PayloadFor(u), Some(exp)), nowSeconds) == Success(Identity(u.id, Some(u.email)))
  {
    StoredUserValidates(users, u, Some(exp));
  }
}
