/** Registration: schema check, duplicate-email check, role assignment from
    the optional administrator code, account creation and the issued token.
    Hashing, signing, the fresh `_id` and the clock are parameters. */
module RegisterRoute {
  import opened Common
  import opened Text
  import opened Validations
  import opened Auth

  /** The role a new account gets: administrator only when both the supplied
      code and the server's secret are present and non-empty and the two are
      equal; participant otherwise. */
  function DetermineRole(adminCode: Option<string>, secret: Option<string>): (role: Role)
    ensures role == Administrator <==>
      && adminCode.Some? && adminCode.value != ""
      && secret.Some? && secret.value != ""
      && adminCode.value == secret.value
  {
    if adminCode.Some? && adminCode.value != "" && secret.Some? && secret.value != "" && adminCode.value == secret.value
    then Administrator
    else Participant
  }

  /** Fail closed: without a configured secret nobody becomes administrator,
      whatever code they supply. */
  lemma NoSecretNoAdministrator(adminCode: Option<string>)
    ensures DetermineRole(adminCode, None) == Participant
    ensures DetermineRole(adminCode, Some("")) == Participant
  {
  }

  /** What the server supplies: the email syntax check, the password hash,
      the token signer, the configured secret, a fresh `_id` and the clock. */
  datatype RegisterEnv = RegisterEnv(
    isEmail: string -> bool,
    hash: string -> string,
    sign: (Claims, int) -> string,
    adminSecret: Option<string>,
    newId: Id,
    now: int)

  datatype RegisterOutcome =
    | Caught(code: Option<int>)
    | Rejected(fields: set<string>)
    | EmailTaken
    | Registered(token: string, user: Profile)
  {
    function Status(): int
    {
      match this
      case Caught(code) => CaughtStatus(code)
      case Rejected(_) => StatusBadRequest
      case EmailTaken => StatusConflict
      case Registered(_, _) => StatusCreated
    }
  }

  /** Some stored account has this email. */
  predicate EmailInUse(users: Users, email: string)
  {
    exists id | id in users :: users[id].profile.email == email
  }

  /** No two accounts share an email, and every account is stored under its
      own id. */
  ghost predicate UniqueEmails(users: Users)
  {
    && (forall id | id in users :: users[id].profile.id == id)
    && (forall a, b | a in users && b in users && users[a].profile.email == users[b].profile.email :: a == b)
  }

  /** The account creation once the email is known to be free: a taken `_id`
      is an index violation (code 11000); otherwise the account is stored
      with the hashed password and a token is signed for it. */
  function CreateAccount(users: Users, reg: Registration, env: RegisterEnv): (r: (RegisterOutcome, Users))
    ensures env.newId in users <==> r.0 == Caught(Some(DuplicateKeyCode))
    ensures env.newId !in users <==> r.0.Registered?
    ensures r.0.Caught? || r.0.Registered?
    ensures r.0.Registered? ==>
      && r.0.user == Profile(env.newId, reg.name, reg.email, DetermineRole(reg.adminCode, env.adminSecret), env.now)
      && r.0.token == env.sign(Claims(r.0.user.id, r.0.user.email, r.0.user.role), env.now)
      && env.newId !in users
      && r.1 == users[env.newId := Account(r.0.user, env.hash(reg.password))]
    ensures r.0.Caught? ==> r.1 == users
  {
    if env.newId in users then (Caught(Some(DuplicateKeyCode)), users)
    else
      var role := DetermineRole(reg.adminCode, env.adminSecret);
      var profile := Profile(env.newId, reg.name, reg.email, role, env.now);
      var token := env.sign(Claims(profile.id, profile.email, profile.role), env.now);
      (Registered(token, profile), users[env.newId := Account(profile, env.hash(reg.password))])
  }

  /** POST /api/auth/register: a body that is not JSON throws (500); a schema
      failure is 400 before the store is read; an email in use is 409 and
      nothing is created; otherwise the account is created. */
  function Register(users: Users, body: JsonBody, env: RegisterEnv): (r: (RegisterOutcome, Users))
    ensures body.Unparsable? ==> r == (Caught(None), users)
    ensures body.Json? && ParseRegister(body.value, env.isEmail).Invalid? ==>
      r == (Rejected(ParseRegister(body.value, env.isEmail).fields), users)
    ensures body.Json? && ParseRegister(body.value, env.isEmail).Valid? ==>
      var reg := ParseRegister(body.value, env.isEmail).value;
      r == if EmailInUse(users, reg.email) then (EmailTaken, users) else CreateAccount(users, reg, env)
  {
    match body
    case Unparsable => (Caught(None), users)
    case Json(v) =>
      match ParseRegister(v, env.isEmail)
      case Invalid(fields) => (Rejected(fields), users)
      case Valid(reg) =>
        if EmailInUse(users, reg.email) then (EmailTaken, users)
        else CreateAccount(users, reg, env)
  }

  /** A registration either leaves the accounts as they were or adds exactly
      the new account, under a fresh id; 409 for a taken email creates
      nothing. */
  lemma RegisterAddsAtMostOne(users: Users, body: JsonBody, env: RegisterEnv)
    ensures var r := Register(users, body, env);
      && (r.0.Registered? <==> r.1 != users)
      && (r.0 == EmailTaken ==> r.1 == users)
      && (r.0.Registered? ==>
            && r.0.user.id !in users
            && r.1 == users[r.0.user.id := Account(r.0.user, r.1[r.0.user.id].passwordHash)]
            && |r.1| == |users| + 1)
  {
    var r := Register(users, body, env);
    if r.0.Registered? {
      assert r.0.user.id in r.1;
    }
  }

  /** The duplicate-email answer is exactly the case of a valid request for
      an email some account already has. */
  lemma EmailTakenExactlyWhenInUse(users: Users, body: JsonBody, env: RegisterEnv)
    ensures Register(users, body, env).0 == EmailTaken <==>
      && body.Json? && ParseRegister(body.value, env.isEmail).Valid?
      && EmailInUse(users, ParseRegister(body.value, env.isEmail).value.email)
  {
  }

  /** Registration keeps emails unique. */
  lemma RegisterKeepsEmailsUnique(users: Users, body: JsonBody, env: RegisterEnv)
    requires UniqueEmails(users)
    ensures UniqueEmails(Register(users, body, env).1)
  {
    var r := Register(users, body, env);
    if r.0.Registered? {
      var reg := ParseRegister(body.value, env.isEmail).value;
      assert !EmailInUse(users, reg.email);
    }
  }

  /** A second registration whose email differs from a stored one only in
      letter case and surrounding whitespace is refused with 409. */
  lemma CaseVariantEmailIsTaken(users: Users, body: JsonBody, env: RegisterEnv, id: Id, stored: string)
    requires id in users && users[id].profile.email == NormalizeEmail(stored)
    requires body.Json? && ParseRegister(body.value, env.isEmail).Valid?
    requires SameIgnoringCase(Trim(body.value.members["email"].s), Trim(stored))
    ensures Register(users, body, env).0 == EmailTaken
    ensures Register(users, body, env).0.Status() == StatusConflict
  {
    NormalizeEmailIgnoresCase(body.value.members["email"].s, stored);
  }

  /** The token handed back authenticates, for the next seven days counted
      in whole seconds, as the
      account just created. */
  lemma RegisteredTokenAuthenticates(users: Users, body: JsonBody, env: RegisterEnv,
                                     verify: (string, int) -> Option<Claims>, at: int)
    requires HonestCodec(env.sign, verify)
    requires Register(users, body, env).0.Registered?
    requires WithinLifetime(env.now, at)
    ensures var r := Register(users, body, env);
      RequireAuth(AuthContext(r.1, verify, at), Some(BearerPrefix + r.0.token)) == Ok(r.0.user)
  {
    var r := Register(users, body, env);
    var u := r.0.user;
    var ctx := AuthContext(r.1, verify, at);
    assert u.id in r.1 && r.1[u.id].profile == u;
    IssuedTokenAuthenticates(ctx, env.sign, Claims(u.id, u.email, u.role), env.now);
  }
}
