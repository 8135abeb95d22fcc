/** The request schemas: registration, login, round verification and the
    text fields of a submission. Each parse either yields the transformed
    value or names the fields that failed, as a `safeParse` followed by
    `flatten().fieldErrors` does. String bounds are checked on the string as
    received; `.trim()` and `.toLowerCase()` transform it only afterwards. */
module Validations {
  import opened Common
  import opened Text

  /** A JSON value as `request.json()` produces it. */
  datatype JsonValue =
    | Null
    | Bool(b: bool)
    | Number(n: JsNumber)
    | Str(s: string)
    | Array(items: seq<JsonValue>)
    | Object(members: map<string, JsonValue>)

  /** A request body: text that is not JSON makes `request.json()` throw. */
  datatype JsonBody = Unparsable | Json(value: JsonValue)

  /** The outcome of a schema parse. A body that is not an object fails as a
      whole and names no field. */
  datatype Parsed<T> = Valid(value: T) | Invalid(fields: set<string>)

  const NameMinLength := 2
  const NameMaxLength := 100
  const PasswordMinLength := 6
  const PasswordMaxLength := 128
  const ImageNameMaxLength := 200
  const TeamNameMaxLength := 100
  const PromptMaxLength := 5000
  const FirstRound := 1
  const LastRound := 3

  /** A member of a JSON object; `None` is `undefined`. */
  function Field(members: map<string, JsonValue>, name: string): Option<JsonValue>
  {
    if name in members then Some(members[name]) else None
  }

  /** `z.string().min(lo).max(hi)` on a possibly missing member. */
  predicate StringWithin(v: Option<JsonValue>, lo: nat, hi: nat)
  {
    v.Some? && v.value.Str? && lo <= Utf16Length(v.value.s) <= hi
  }

  /** `z.string().min(lo)` with no upper bound. */
  predicate StringAtLeast(v: Option<JsonValue>, lo: nat)
  {
    v.Some? && v.value.Str? && lo <= Utf16Length(v.value.s)
  }

  /** The singleton naming `field` when its check failed. */
  function Unless(ok: bool, field: string): set<string>
  {
    if ok then {} else {field}
  }

  /** `.toLowerCase().trim()` applied to an email address. */
  function NormalizeEmail(s: string): string
  {
    Trim(ToLower(s))
  }

  /** Email addresses that differ only in letter case and in surrounding
      whitespace normalise to the same stored value. */
  lemma NormalizeEmailIgnoresCase(a: string, b: string)
    requires SameIgnoringCase(Trim(a), Trim(b))
    ensures NormalizeEmail(a) == NormalizeEmail(b)
  {
    TrimCommutesWithLower(a);
    TrimCommutesWithLower(b);
    ToLowerIdentifies(Trim(a), Trim(b));
  }

  // ---------------------------------------------------------------- register

  datatype Registration = Registration(name: string, email: string, password: string, adminCode: Option<string>)

  predicate EmailOk(m: map<string, JsonValue>, isEmail: string -> bool)
  {
    var v := Field(m, "email");
    v.Some? && v.value.Str? && isEmail(v.value.s)
  }

  predicate AdminCodeOk(m: map<string, JsonValue>)
  {
    var v := Field(m, "adminCode");
    v.None? || v.value.Str?
  }

  function RegisterFailures(m: map<string, JsonValue>, isEmail: string -> bool): set<string>
  {
    Unless(StringWithin(Field(m, "name"), NameMinLength, NameMaxLength), "name")
    + Unless(EmailOk(m, isEmail), "email")
    + Unless(StringWithin(Field(m, "password"), PasswordMinLength, PasswordMaxLength), "password")
    + Unless(AdminCodeOk(m), "adminCode")
  }

  /** `registerSchema`. `isEmail` is the schema library's email syntax check,
      applied to the address as received. */
  function ParseRegister(body: JsonValue, isEmail: string -> bool): (p: Parsed<Registration>)
    ensures p.Valid? <==>
      && body.Object?
      && StringWithin(Field(body.members, "name"), NameMinLength, NameMaxLength)
      && EmailOk(body.members, isEmail)
      && StringWithin(Field(body.members, "password"), PasswordMinLength, PasswordMaxLength)
      && AdminCodeOk(body.members)
    ensures p.Invalid? && body.Object? ==> p.fields != {}
    ensures p.Invalid? && body.Object? ==>
      ("name" in p.fields <==> !StringWithin(Field(body.members, "name"), NameMinLength, NameMaxLength))
    ensures p.Invalid? && body.Object? ==> ("email" in p.fields <==> !EmailOk(body.members, isEmail))
    ensures p.Invalid? && body.Object? ==>
      ("password" in p.fields <==> !StringWithin(Field(body.members, "password"), PasswordMinLength, PasswordMaxLength))
    ensures p.Invalid? && body.Object? ==> ("adminCode" in p.fields <==> !AdminCodeOk(body.members))
    ensures p.Valid? ==>
      && p.value.name == Trim(body.members["name"].s)
      && p.value.email == NormalizeEmail(body.members["email"].s)
      && p.value.password == body.members["password"].s
      && Utf16Length(p.value.name) <= NameMaxLength
      && PasswordMinLength <= Utf16Length(p.value.password) <= PasswordMaxLength
      && (p.value.adminCode.Some? <==> "adminCode" in body.members)
      && (p.value.adminCode.Some? ==> p.value.adminCode.value == body.members["adminCode"].s)
  {
    if !body.Object? then Invalid({})
    else
      var m := body.members;
      var bad := RegisterFailures(m, isEmail);
      if bad != {} then Invalid(bad)
      else
        Valid(Registration(
          Trim(m["name"].s),
          NormalizeEmail(m["email"].s),
          m["password"].s,
          if "adminCode" in m then Some(m["adminCode"].s) else None))
  }

  /** A sample registration body with a two-character name that starts with
      a space and no administrator code. */
  function SampleRegistration(): map<string, JsonValue>
  {
    map["name" := Str(" a"), "email" := Str("a@b.co"), "password" := Str("secret")]
  }

  lemma SampleRegistrationMembers()
    ensures Field(SampleRegistration(), "name") == Some(Str(" a"))
    ensures Field(SampleRegistration(), "email") == Some(Str("a@b.co"))
    ensures Field(SampleRegistration(), "password") == Some(Str("secret"))
    ensures Field(SampleRegistration(), "adminCode") == None
  {
  }

  lemma SampleRegistrationLengths()
    ensures Utf16Length(" a") == 2 && Utf16Length("secret") == 6
  {
    assert " a"[1..] == "a";
    assert "a"[1..] == "";
    assert "secret"[1..] == "ecret";
    assert "ecret"[1..] == "cret";
    assert "cret"[1..] == "ret";
    assert "ret"[1..] == "et";
    assert "et"[1..] == "t";
    assert "t"[1..] == "";
  }

  lemma SampleRegistrationNormalForms()
    ensures Trim(" a") == "a" && NormalizeEmail("a@b.co") == "a@b.co"
  {
    assert " a"[1..] == "a";
    TrimOfTrimmed("a");
    assert ToLower("a@b.co") == "a@b.co";
    TrimOfTrimmed("a@b.co");
  }

  /** The sample registration passes every field check. */
  lemma SampleRegistrationPasses(isEmail: string -> bool)
    requires isEmail("a@b.co")
    ensures RegisterFailures(SampleRegistration(), isEmail) == {}
  {
    SampleRegistrationMembers();
    SampleRegistrationLengths();
  }

  /** The length bounds apply before trimming: a two-character name whose
      first character is a space is accepted and stored as one character. */
  lemma NameBoundsPrecedeTrim(isEmail: string -> bool)
    requires isEmail("a@b.co")
    ensures ParseRegister(Object(SampleRegistration()), isEmail) == Valid(Registration("a", "a@b.co", "secret", None))
  {
    SampleRegistrationPasses(isEmail);
    SampleRegistrationMembers();
    SampleRegistrationNormalForms();
  }

  // ------------------------------------------------------------------- login

  datatype Credentials = Credentials(email: string, password: string)

  /** `loginSchema`: a syntactically valid email and a non-empty password. */
  function ParseLogin(body: JsonValue, isEmail: string -> bool): (p: Parsed<Credentials>)
    ensures p.Valid? <==> body.Object? && EmailOk(body.members, isEmail) && StringAtLeast(Field(body.members, "password"), 1)
    ensures p.Invalid? && body.Object? ==>
      && ("email" in p.fields <==> !EmailOk(body.members, isEmail))
      && ("password" in p.fields <==> !StringAtLeast(Field(body.members, "password"), 1))
    ensures p.Valid? ==>
      && p.value.email == NormalizeEmail(body.members["email"].s)
      && p.value.password == body.members["password"].s
      && p.value.password != []
  {
    if !body.Object? then Invalid({})
    else
      var m := body.members;
      var bad := Unless(EmailOk(m, isEmail), "email") + Unless(StringAtLeast(Field(m, "password"), 1), "password");
      if bad != {} then Invalid(bad)
      else Valid(Credentials(NormalizeEmail(m["email"].s), m["password"].s))
  }

  // ------------------------------------------------------------ round verify

  datatype AccessRequest = AccessRequest(round: int, accessCode: string)

  predicate RoundNumberOk(v: Option<JsonValue>)
  {
    v.Some? && v.value.Number? && IsIntegerBetween(v.value.n, FirstRound, LastRound)
  }

  /** `roundVerifySchema`: a JSON number that is an integer in 1..3 (no
      coercion from strings) and a non-empty access code, trimmed afterwards. */
  function ParseRoundVerify(body: JsonValue): (p: Parsed<AccessRequest>)
    ensures p.Valid? <==> body.Object? && RoundNumberOk(Field(body.members, "roundNumber")) && StringAtLeast(Field(body.members, "accessCode"), 1)
    ensures p.Invalid? && body.Object? ==>
      && ("roundNumber" in p.fields <==> !RoundNumberOk(Field(body.members, "roundNumber")))
      && ("accessCode" in p.fields <==> !StringAtLeast(Field(body.members, "accessCode"), 1))
    ensures p.Valid? ==>
      && FirstRound <= p.value.round <= LastRound
      && body.members["roundNumber"].n == Finite(p.value.round as real)
      && p.value.accessCode == Trim(body.members["accessCode"].s)
  {
    if !body.Object? then Invalid({})
    else
      var m := body.members;
      var bad := Unless(RoundNumberOk(Field(m, "roundNumber")), "roundNumber")
        + Unless(StringAtLeast(Field(m, "accessCode"), 1), "accessCode");
      if bad != {} then Invalid(bad)
      else Valid(AccessRequest(m["roundNumber"].n.value.Floor, Trim(m["accessCode"].s)))
  }

  // -------------------------------------------------------- submission fields

  /** An uploaded file: its declared MIME type and its content. */
  datatype File = File(mimeType: string, bytes: seq<Byte>)

  /** What `formData.get(name)` returns: null, a string or a file. */
  datatype FormEntry = Absent | TextValue(s: string) | Upload(file: File)

  function Entry(form: map<string, FormEntry>, name: string): FormEntry
  {
    if name in form then form[name] else Absent
  }

  /** `Number(value)` as `z.coerce.number()` applies it: null becomes 0, a
      file becomes NaN, and a string goes through JavaScript's numeric
      conversion, here the parameter `numberOf`. */
  function CoerceNumber(e: FormEntry, numberOf: string -> JsNumber): JsNumber
  {
    match e
    case Absent => Finite(0.0)
    case TextValue(s) => numberOf(s)
    case Upload(_) => NaN
  }

  predicate TextWithin(e: FormEntry, lo: nat, hi: nat)
  {
    e.TextValue? && lo <= Utf16Length(e.s) <= hi
  }

  datatype SubmissionFields = SubmissionFields(round: int, imageName: string, teamName: string, prompt: string)

  predicate FormRoundOk(form: map<string, FormEntry>, numberOf: string -> JsNumber)
  {
    IsIntegerBetween(CoerceNumber(Entry(form, "roundNumber"), numberOf), FirstRound, LastRound)
  }

  /** The fields a submission form fails on, given the outcome of each
      field's check: each is named exactly when its own check fails. */
  function SubmissionFailures(roundOk: bool, imageNameOk: bool, teamNameOk: bool, promptOk: bool): (bad: set<string>)
    ensures bad == {} <==> roundOk && imageNameOk && teamNameOk && promptOk
    ensures "roundNumber" in bad <==> !roundOk
    ensures "imageName" in bad <==> !imageNameOk
    ensures "teamName" in bad <==> !teamNameOk
    ensures "prompt" in bad <==> !promptOk
  {
    Unless(roundOk, "roundNumber") + Unless(imageNameOk, "imageName")
    + Unless(teamNameOk, "teamName") + Unless(promptOk, "prompt")
  }

  function RoundOf(form: map<string, FormEntry>, numberOf: string -> JsNumber): int
    requires FormRoundOk(form, numberOf)
  {
    CoerceNumber(Entry(form, "roundNumber"), numberOf).value.Floor
  }

  /** `submissionFieldsSchema` over the multipart form, as written: the
      image and team names are bounded before they are trimmed. */
  function ParseSubmissionFields(form: map<string, FormEntry>, numberOf: string -> JsNumber): (p: Parsed<SubmissionFields>)
    ensures p.Valid? <==>
      && FormRoundOk(form, numberOf)
      && TextWithin(Entry(form, "imageName"), 1, ImageNameMaxLength)
      && TextWithin(Entry(form, "teamName"), 1, TeamNameMaxLength)
      && TextWithin(Entry(form, "prompt"), 1, PromptMaxLength)
    ensures p.Invalid? ==> p.fields != {}
    ensures p.Invalid? ==> ("roundNumber" in p.fields <==> !FormRoundOk(form, numberOf))
    ensures p.Invalid? ==> ("prompt" in p.fields <==> !TextWithin(Entry(form, "prompt"), 1, PromptMaxLength))
    ensures p.Invalid? ==> ("imageName" in p.fields <==> !TextWithin(Entry(form, "imageName"), 1, ImageNameMaxLength))
    ensures p.Invalid? ==> ("teamName" in p.fields <==> !TextWithin(Entry(form, "teamName"), 1, TeamNameMaxLength))
    ensures p.Valid? ==>
      && FirstRound <= p.value.round <= LastRound
      && CoerceNumber(Entry(form, "roundNumber"), numberOf) == Finite(p.value.round as real)
      && p.value.imageName == Trim(form["imageName"].s)
      && p.value.teamName == Trim(form["teamName"].s)
      && p.value.prompt == form["prompt"].s
      && Utf16Length(p.value.imageName) <= ImageNameMaxLength
      && Utf16Length(p.value.teamName) <= TeamNameMaxLength
      && 1 <= Utf16Length(p.value.prompt) <= PromptMaxLength
  {
    var bad := SubmissionFailures(
      FormRoundOk(form, numberOf),
      TextWithin(Entry(form, "imageName"), 1, ImageNameMaxLength),
      TextWithin(Entry(form, "teamName"), 1, TeamNameMaxLength),
      TextWithin(Entry(form, "prompt"), 1, PromptMaxLength));
    if bad != {} then Invalid(bad)
    else
      Valid(SubmissionFields(
        RoundOf(form, numberOf),
        Trim(form["imageName"].s),
        Trim(form["teamName"].s),
        form["prompt"].s))
  }

  /** A name field checked after trimming: its stored form is non-empty and
      within the bound. */
  predicate TrimmedWithin(e: FormEntry, hi: nat)
  {
    e.TextValue? && 1 <= Utf16Length(Trim(e.s)) <= hi
  }

  /** The submission schema with `.trim()` placed before the bounds, so that
      what is accepted is exactly what the stored schema accepts. */
  function ParseSubmissionFieldsCorrected(form: map<string, FormEntry>, numberOf: string -> JsNumber): (p: Parsed<SubmissionFields>)
    ensures p.Valid? <==>
      && FormRoundOk(form, numberOf)
      && TrimmedWithin(Entry(form, "imageName"), ImageNameMaxLength)
      && TrimmedWithin(Entry(form, "teamName"), TeamNameMaxLength)
      && TextWithin(Entry(form, "prompt"), 1, PromptMaxLength)
    ensures p.Invalid? ==> p.fields != {}
    ensures p.Invalid? ==> ("roundNumber" in p.fields <==> !FormRoundOk(form, numberOf))
    ensures p.Invalid? ==> ("prompt" in p.fields <==> !TextWithin(Entry(form, "prompt"), 1, PromptMaxLength))
    ensures p.Invalid? ==> ("imageName" in p.fields <==> !TrimmedWithin(Entry(form, "imageName"), ImageNameMaxLength))
    ensures p.Invalid? ==> ("teamName" in p.fields <==> !TrimmedWithin(Entry(form, "teamName"), TeamNameMaxLength))
    ensures p.Valid? ==>
      && FirstRound <= p.value.round <= LastRound
      && 1 <= Utf16Length(p.value.imageName) <= ImageNameMaxLength
      && 1 <= Utf16Length(p.value.teamName) <= TeamNameMaxLength
      && 1 <= Utf16Length(p.value.prompt) <= PromptMaxLength
      && IsTrimmed(p.value.imageName)
      && IsTrimmed(p.value.teamName)
    ensures p.Valid? ==>
      && CoerceNumber(Entry(form, "roundNumber"), numberOf) == Finite(p.value.round as real)
      && p.value.imageName == Trim(form["imageName"].s)
      && p.value.teamName == Trim(form["teamName"].s)
      && p.value.prompt == form["prompt"].s
  {
    var bad := SubmissionFailures(
      FormRoundOk(form, numberOf),
      TrimmedWithin(Entry(form, "imageName"), ImageNameMaxLength),
      TrimmedWithin(Entry(form, "teamName"), TeamNameMaxLength),
      TextWithin(Entry(form, "prompt"), 1, PromptMaxLength));
    if bad != {} then Invalid(bad)
    else
      TrimIdempotent(form["imageName"].s);
      TrimIdempotent(form["teamName"].s);
      Valid(SubmissionFields(
        RoundOf(form, numberOf),
        Trim(form["imageName"].s),
        Trim(form["teamName"].s),
        form["prompt"].s))
  }

  /** Whatever the schema as written accepts, the corrected one accepts too
      unless a name is blank once trimmed: the two differ only there. */
  lemma CorrectionOnlyRejectsBlankNames(form: map<string, FormEntry>, numberOf: string -> JsNumber)
    requires ParseSubmissionFields(form, numberOf).Valid?
    ensures ParseSubmissionFieldsCorrected(form, numberOf).Valid? <==>
      Trim(form["imageName"].s) != [] && Trim(form["teamName"].s) != []
  {
  }
}
