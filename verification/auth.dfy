/** Bearer-token authentication and the two gates every protected route
    starts with. Signing and verifying a token are library calls and appear
    here as parameters; the stored account, not the token, decides the role. */
module Auth {
  import opened Common

  /** The stored role: "user" or "admin". */
  datatype Role = Participant | Administrator

  /** An account as the routes may show it: never the password. */
  datatype Profile = Profile(id: Id, name: string, email: string, role: Role, createdAt: int)

  /** A stored account: its profile and its salted password hash. */
  datatype Account = Account(profile: Profile, passwordHash: string)

  /** The users collection, by `_id`. */
  type Users = map<Id, Account>

  /** The payload a token carries. */
  datatype Claims = Claims(userId: Id, email: string, role: Role)

  /** An AuthError carries the status the route answers with. */
  datatype AuthError = AuthError(status: int)

  /** The lifetime of an issued token, `expiresIn: "7d"`, in seconds. */
  const TokenLifetimeSeconds := 7 * 24 * 60 * 60

  /** Whether a token issued at millisecond `issuedAt` is still valid at
      millisecond `at`. The JWT library works in whole seconds: it records
      `iat` as the issuing time rounded down to a second and `exp` as
      `iat` plus the lifetime, and refuses the token once the current time,
      rounded down to a second, reaches `exp`. */
  predicate WithinLifetime(issuedAt: int, at: int)
  {
    issuedAt <= at && at / 1000 < issuedAt / 1000 + TokenLifetimeSeconds
  }

  /** What authentication reads: the users collection, the token verifier
      (`None` wherever the library throws: bad signature, expired, malformed)
      and the current time. */
  datatype AuthContext = AuthContext(users: Users, verify: (string, int) -> Option<Claims>, now: int)

  /** A signer and verifier that agree: a signed token is non-empty and,
      while it is within its lifetime, verifies to the claims it was signed
      with. */
  ghost predicate HonestCodec(sign: (Claims, int) -> string, verify: (string, int) -> Option<Claims>)
  {
    && (forall c: Claims, issuedAt: int :: sign(c, issuedAt) != "")
    && (forall c: Claims, issuedAt: int, at: int | WithinLifetime(issuedAt, at) ::
          verify(sign(c, issuedAt), at) == Some(c))
  }

  const BearerPrefix := "Bearer "

  /** The token of an `Authorization` header: what follows a case-sensitive
      "Bearer " prefix; nothing when the header is missing, empty or has
      another scheme. */
  function ExtractToken(header: Option<string>): (t: Option<string>)
    ensures t.Some? <==> header.Some? && BearerPrefix <= header.value
    ensures t.Some? ==> header.value == BearerPrefix + t.value
  {
    if header.None? || header.value == "" || !(BearerPrefix <= header.value) then None
    else Some(header.value[|BearerPrefix|..])
  }

  /** Prefixing a token with "Bearer " and extracting it gives it back. */
  lemma BearerRoundTrip(t: string)
    ensures ExtractToken(Some(BearerPrefix + t)) == Some(t)
  {
    assert BearerPrefix <= BearerPrefix + t;
    assert (BearerPrefix + t)[|BearerPrefix|..] == t;
  }

  /** The account a request authenticates as: the stored profile of the user
      the verified token names. A missing or empty token, a failed
      verification or an unknown user all give nothing. */
  function GetAuthUser(ctx: AuthContext, header: Option<string>): (u: Option<Profile>)
    ensures u.Some? <==>
      && ExtractToken(header).Some?
      && ExtractToken(header).value != ""
      && ctx.verify(ExtractToken(header).value, ctx.now).Some?
      && ctx.verify(ExtractToken(header).value, ctx.now).value.userId in ctx.users
    ensures u.Some? ==>
      u.value == ctx.users[ctx.verify(ExtractToken(header).value, ctx.now).value.userId].profile
  {
    match ExtractToken(header)
    case None => None
    case Some(token) =>
      if token == "" then None
      else
        match ctx.verify(token, ctx.now)
        case None => None
        case Some(claims) =>
          if claims.userId in ctx.users then Some(ctx.users[claims.userId].profile) else None
  }

  /** `requireAuth`: the authenticated profile, or AuthError 401. */
  function RequireAuth(ctx: AuthContext, header: Option<string>): (r: Result<Profile, AuthError>)
    ensures r.Err? <==> GetAuthUser(ctx, header).None?
    ensures r.Err? ==> r.error == AuthError(StatusUnauthorized)
    ensures r.Ok? ==> GetAuthUser(ctx, header) == Some(r.value)
  {
    match GetAuthUser(ctx, header)
    case None => Err(AuthError(StatusUnauthorized))
    case Some(user) => Ok(user)
  }

  /** `requireAdmin`: 401 when unauthenticated, 403 when the stored role is
      not administrator, otherwise the profile. */
  function RequireAdmin(ctx: AuthContext, header: Option<string>): (r: Result<Profile, AuthError>)
    ensures r == Err(AuthError(StatusUnauthorized)) <==> GetAuthUser(ctx, header).None?
    ensures r == Err(AuthError(StatusForbidden)) <==>
      GetAuthUser(ctx, header).Some? && GetAuthUser(ctx, header).value.role != Administrator
    ensures r.Ok? <==> GetAuthUser(ctx, header).Some? && GetAuthUser(ctx, header).value.role == Administrator
    ensures r.Ok? ==> GetAuthUser(ctx, header) == Some(r.value)
  {
    match RequireAuth(ctx, header)
    case Err(e) => Err(e)
    case Ok(user) => if user.role != Administrator then Err(AuthError(StatusForbidden)) else Ok(user)
  }

  /** The role `requireAdmin` checks is the stored one: a token that claims
      administrator for an account stored as a participant is refused. */
  lemma StoredRoleDecides(ctx: AuthContext, token: string, id: Id, email: string)
    requires token != ""
    requires ctx.verify(token, ctx.now) == Some(Claims(id, email, Administrator))
    requires id in ctx.users && ctx.users[id].profile.role == Participant
    ensures RequireAdmin(ctx, Some(BearerPrefix + token)) == Err(AuthError(StatusForbidden))
  {
    BearerRoundTrip(token);
  }

  /** Within its lifetime, a token issued for a stored user
      authenticates as that user's current stored profile. */
  lemma IssuedTokenAuthenticates(ctx: AuthContext, sign: (Claims, int) -> string, c: Claims, issuedAt: int)
    requires HonestCodec(sign, ctx.verify)
    requires c.userId in ctx.users
    requires WithinLifetime(issuedAt, ctx.now)
    ensures RequireAuth(ctx, Some(BearerPrefix + sign(c, issuedAt))) == Ok(ctx.users[c.userId].profile)
  {
    var token := sign(c, issuedAt);
    BearerRoundTrip(token);
    assert token != "";
    assert ctx.verify(token, ctx.now) == Some(c);
  }
}
