/** The round access gate: an authenticated participant supplies a round
    number and an access code, which must equal the code the server has
    configured for that round. The gate reads no store and writes none. */
module RoundsVerifyRoute {
  import opened Common
  import opened Text
  import opened Validations
  import opened Auth

  /** The server's configured codes for rounds 1, 2 and 3; each may be unset. */
  datatype RoundCodes = RoundCodes(round1: Option<string>, round2: Option<string>, round3: Option<string>)

  /** The code configured for a round; nothing for any other round number. */
  function ExpectedCode(codes: RoundCodes, round: int): (c: Option<string>)
    ensures round !in {1, 2, 3} ==> c.None?
  {
    if round == 1 then codes.round1
    else if round == 2 then codes.round2
    else if round == 3 then codes.round3
    else None
  }

  /** An unset or empty code counts as not configured. */
  predicate Configured(expected: Option<string>)
  {
    expected.Some? && expected.value != ""
  }

  datatype GateDecision = NotConfigured | WrongCode | Granted

  /** The decision for one request: not configured, a mismatch (the
      comparison is exact and case-sensitive), or access granted. */
  function Gate(expected: Option<string>, supplied: string): (d: GateDecision)
    ensures d == NotConfigured <==> !Configured(expected)
    ensures d == WrongCode <==> Configured(expected) && supplied != expected.value
    ensures d == Granted <==> Configured(expected) && supplied == expected.value
  {
    match expected
    case None => NotConfigured
    case Some(code) =>
      if code == "" then NotConfigured
      else if supplied != code then WrongCode
      else Granted
  }

  datatype VerifyOutcome =
    | Unauthorized(error: AuthError)
    | Caught(code: Option<int>)
    | Rejected(fields: set<string>)
    | CodeNotConfigured
    | CodeMismatch
    | Verified(round: int)
  {
    function Status(): int
    {
      match this
      case Unauthorized(e) => e.status
      case Caught(code) => CaughtStatus(code)
      case Rejected(_) => StatusBadRequest
      case CodeNotConfigured => StatusInternalError
      case CodeMismatch => StatusForbidden
      case Verified(_) => StatusOk
    }
  }

  /** POST /api/rounds/verify: authentication, then the body (a body that is
      not JSON throws and is answered 500), then the schema, then the gate. */
  function VerifyRound(auth: AuthContext, header: Option<string>, body: JsonBody, codes: RoundCodes): (o: VerifyOutcome)
    ensures RequireAuth(auth, header).Err? ==> o == Unauthorized(RequireAuth(auth, header).error)
    ensures RequireAuth(auth, header).Ok? && body.Unparsable? ==> o == Caught(None)
    ensures RequireAuth(auth, header).Ok? && body.Json? && ParseRoundVerify(body.value).Invalid? ==>
      o == Rejected(ParseRoundVerify(body.value).fields)
    ensures RequireAuth(auth, header).Ok? && body.Json? && ParseRoundVerify(body.value).Valid? ==>
      o.CodeNotConfigured? || o.CodeMismatch? || o.Verified?
    ensures o.CodeNotConfigured? || o.CodeMismatch? || o.Verified? ==>
      && RequireAuth(auth, header).Ok? && body.Json? && ParseRoundVerify(body.value).Valid?
      && var req := ParseRoundVerify(body.value).value;
         && (o.CodeNotConfigured? <==> !Configured(ExpectedCode(codes, req.round)))
         && (o.CodeMismatch? <==> Configured(ExpectedCode(codes, req.round)) && req.accessCode != ExpectedCode(codes, req.round).value)
    ensures o.Verified? ==>
      && var req := ParseRoundVerify(body.value).value;
         && o.round == req.round
         && Configured(ExpectedCode(codes, req.round))
         && req.accessCode == ExpectedCode(codes, req.round).value
  {
    match RequireAuth(auth, header)
    case Err(e) => Unauthorized(e)
    case Ok(_) =>
      match body
      case Unparsable => Caught(None)
      case Json(v) =>
        match ParseRoundVerify(v)
        case Invalid(fields) => Rejected(fields)
        case Valid(req) =>
          match Gate(ExpectedCode(codes, req.round), req.accessCode)
          case NotConfigured => CodeNotConfigured
          case WrongCode => CodeMismatch
          case Granted => Verified(req.round)
  }

  /** Fail closed: a round without a configured code is never verified,
      whatever code is supplied; the answer is 500. */
  lemma UnconfiguredRoundNeverVerifies(auth: AuthContext, header: Option<string>, body: JsonBody, codes: RoundCodes)
    requires RequireAuth(auth, header).Ok? && body.Json? && ParseRoundVerify(body.value).Valid?
    requires !Configured(ExpectedCode(codes, ParseRoundVerify(body.value).value.round))
    ensures VerifyRound(auth, header, body, codes) == CodeNotConfigured
    ensures VerifyRound(auth, header, body, codes).Status() == StatusInternalError
  {
  }

  /** A configured code that equals the supplied one opens the round: the
      answer is 200 and echoes the requested round. */
  lemma MatchingCodeVerifies(auth: AuthContext, header: Option<string>, body: JsonBody, codes: RoundCodes)
    requires RequireAuth(auth, header).Ok? && body.Json? && ParseRoundVerify(body.value).Valid?
    requires Configured(ExpectedCode(codes, ParseRoundVerify(body.value).value.round))
    requires ParseRoundVerify(body.value).value.accessCode == ExpectedCode(codes, ParseRoundVerify(body.value).value.round).value
    ensures VerifyRound(auth, header, body, codes) == Verified(ParseRoundVerify(body.value).value.round)
    ensures VerifyRound(auth, header, body, codes).Status() == StatusOk
  {
  }

  /** A configured code that differs from the supplied one is refused with
      403. */
  lemma WrongCodeIsForbidden(auth: AuthContext, header: Option<string>, body: JsonBody, codes: RoundCodes)
    requires RequireAuth(auth, header).Ok? && body.Json? && ParseRoundVerify(body.value).Valid?
    requires Configured(ExpectedCode(codes, ParseRoundVerify(body.value).value.round))
    requires ParseRoundVerify(body.value).value.accessCode != ExpectedCode(codes, ParseRoundVerify(body.value).value.round).value
    ensures VerifyRound(auth, header, body, codes) == CodeMismatch
    ensures VerifyRound(auth, header, body, codes).Status() == StatusForbidden
  {
  }

  /** A code differing only in letter case is refused. */
  lemma CaseMatters(expected: string, supplied: string)
    requires expected != "" && supplied != expected && SameIgnoringCase(supplied, expected)
    ensures Gate(Some(expected), supplied) == WrongCode
  {
  }

  /** Whatever is configured, an unauthenticated request learns nothing about
      the codes: it gets the authentication error. */
  lemma UnauthenticatedLearnsNothing(auth: AuthContext, header: Option<string>, body: JsonBody, c1: RoundCodes, c2: RoundCodes)
    requires RequireAuth(auth, header).Err?
    ensures VerifyRound(auth, header, body, c1) == VerifyRound(auth, header, body, c2)
    ensures VerifyRound(auth, header, body, c1).Status() == StatusUnauthorized
  {
  }
}
