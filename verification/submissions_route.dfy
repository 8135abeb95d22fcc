/** The submissions endpoint. POST runs a fixed cascade (authentication,
    text schema, image presence, MIME type, size, existing entry) and then
    creates the document; GET lists the caller's own submissions by round. */
module SubmissionsRoute {
  import opened Common
  import opened Text
  import opened Validations
  import opened Auth
  import opened SubmissionModel

  const AllowedImageTypes: seq<string> := ["image/jpeg", "image/png", "image/gif", "image/webp", "image/svg+xml"]

  /** Five mebibytes; a file of exactly this size is accepted. */
  const MaxFileSize := 5 * 1024 * 1024

  /** The request body: `request.formData()` throws unless it is a form. */
  datatype Form = Unreadable | Fields(entries: map<string, FormEntry>)

  datatype SubmitOutcome =
    | Unauthorized(error: AuthError)
    | Rejected(fields: set<string>)
    | ImageRequired
    | ImageTypeNotAllowed
    | ImageTooLarge
    | AlreadySubmitted(round: int)
    | Caught(code: Option<int>)
    | Created(submission: Submission)
  {
    function Status(): int
    {
      match this
      case Unauthorized(e) => e.status
      case Rejected(_) => StatusBadRequest
      case ImageRequired => StatusBadRequest
      case ImageTypeNotAllowed => StatusBadRequest
      case ImageTooLarge => StatusBadRequest
      case AlreadySubmitted(_) => StatusConflict
      case Caught(code) => CaughtStatus(code)
      case Created(_) => StatusCreated
    }
  }

  /** What the server supplies to a submission: JavaScript's numeric
      conversion of form text, base64 encoding, a fresh `_id` and the clock. */
  datatype SubmitEnv = SubmitEnv(numberOf: string -> JsNumber, base64: seq<Byte> -> string, newId: Id, now: int)

  /** The stored image reference: a data URL carrying the declared MIME type
      and the base64 payload. */
  function DataUrl(mimeType: string, payload: string): string
  {
    "data:" + mimeType + ";base64," + payload
  }

  /** Reads a data URL of that shape back into its MIME type and payload. */
  function SplitDataUrl(url: string): Option<(string, string)>
  {
    if !("data:" <= url) then None
    else
      var rest := url[5..];
      var i := IndexOf(rest, ';');
      if ";base64," <= rest[i..] then Some((rest[..i], rest[i + 8..])) else None
  }

  /** For a MIME type without ';' the data URL gives back both its parts. */
  lemma DataUrlRoundTrip(mimeType: string, payload: string)
    requires ';' !in mimeType
    ensures SplitDataUrl(DataUrl(mimeType, payload)) == Some((mimeType, payload))
  {
    var url := DataUrl(mimeType, payload);
    assert "data:" <= url;
    var rest := url[5..];
    assert rest == mimeType + ";base64," + payload;
    var i := IndexOf(rest, ';');
    assert rest[|mimeType|] == ';';
    assert forall k | 0 <= k < |mimeType| :: rest[k] == mimeType[k];
    assert i == |mimeType|;
    assert rest[i..] == ";base64," + payload;
    assert rest[..i] == mimeType;
    assert rest[i + 8..] == payload;
  }

  lemma DataUrlNotEmpty(mimeType: string, payload: string)
    ensures DataUrl(mimeType, payload) != []
  {
    assert DataUrl(mimeType, payload)[0] == 'd';
  }

  lemma AllowedTypesHaveNoSemicolon()
    ensures forall m | m in AllowedImageTypes :: ';' !in m
  {
  }

  /** The image checks in their order: present as a file, of an allowed
      type, at most `MaxFileSize` bytes. */
  function CheckImage(e: FormEntry): (r: Result<File, SubmitOutcome>)
    ensures r.Ok? <==> e.Upload? && e.file.mimeType in AllowedImageTypes && |e.file.bytes| <= MaxFileSize
    ensures r.Ok? ==> r.value == e.file
    ensures r == Err(ImageRequired) <==> !e.Upload?
    ensures r == Err(ImageTypeNotAllowed) <==> e.Upload? && e.file.mimeType !in AllowedImageTypes
    ensures r == Err(ImageTooLarge) <==>
      e.Upload? && e.file.mimeType in AllowedImageTypes && |e.file.bytes| > MaxFileSize
  {
    match e
    case Upload(file) =>
      if file.mimeType !in AllowedImageTypes then Err(ImageTypeNotAllowed)
      else if |file.bytes| > MaxFileSize then Err(ImageTooLarge)
      else Ok(file)
    case _ => Err(ImageRequired)
  }

  /** The document a caller's accepted request asks to create. */
  function DraftOf(caller: Profile, f: SubmissionFields, file: File, env: SubmitEnv): Draft
  {
    Draft(caller.id, f.round, f.imageName, f.teamName, f.prompt, DataUrl(file.mimeType, env.base64(file.bytes)), None)
  }

  /** The create step of an accepted request: the document goes in, or the
      thrown error goes to the catch block. */
  function Store(caller: Profile, f: SubmissionFields, file: File, ledger: Ledger, env: SubmitEnv)
    : (r: (SubmitOutcome, Ledger))
    ensures r.0.Created? || r.0.Caught?
    ensures r.1 == ledger || (r.0.Created? && KeyOf(r.0.submission) !in ledger && r.1 == ledger[KeyOf(r.0.submission) := r.0.submission])
    ensures r.0.Created? <==> Create(ledger, DraftOf(caller, f, file, env), env.newId, env.now).Ok?
    ensures Create(ledger, DraftOf(caller, f, file, env), env.newId, env.now).Err? ==>
      r.0 == Caught(ErrorCode(Create(ledger, DraftOf(caller, f, file, env), env.newId, env.now).error))
    ensures r.0 == Caught(None) <==> !SchemaValid(Materialize(DraftOf(caller, f, file, env), env.newId, env.now))
    ensures r.0.Created? ==> r.1 != ledger
    ensures WellFormed(ledger) ==> WellFormed(r.1)
    ensures r.0.Created? ==>
      && r.0.submission.userId == caller.id
      && r.0.submission.round == f.round
      && r.0.submission.imageName == Trim(f.imageName)
      && r.0.submission.teamName == Trim(f.teamName)
      && r.0.submission.prompt == f.prompt
      && r.0.submission.imagePath == DataUrl(file.mimeType, env.base64(file.bytes))
      && r.0.submission.submittedAt == env.now
      && r.0.submission.id == env.newId
  {
    match Create(ledger, DraftOf(caller, f, file, env), env.newId, env.now)
    case Err(e) => (Caught(ErrorCode(e)), ledger)
    case Ok(created) =>
      CreateKeepsWellFormed(ledger, DraftOf(caller, f, file, env), env.newId, env.now);
      (Created(created.0), created.1)
  }

  /** Everything after authentication and form reading: the text schema's
      verdict, the image checks, the existing-entry lookup and the create. */
  function Proceed(caller: Profile, parsed: Parsed<SubmissionFields>, image: FormEntry, ledger: Ledger, env: SubmitEnv)
    : (r: (SubmitOutcome, Ledger))
    ensures r.1 == ledger || (r.0.Created? && KeyOf(r.0.submission) !in ledger && r.1 == ledger[KeyOf(r.0.submission) := r.0.submission])
    ensures r.0.Created? <==> r.1 != ledger
    ensures WellFormed(ledger) ==> WellFormed(r.1)
    ensures parsed.Invalid? ==> r.0 == Rejected(parsed.fields)
    ensures parsed.Valid? && CheckImage(image).Err? ==> r.0 == CheckImage(image).error
    ensures parsed.Valid? && CheckImage(image).Ok? && Key(caller.id, parsed.value.round) in ledger ==>
      r.0 == AlreadySubmitted(parsed.value.round)
    ensures parsed.Valid? && CheckImage(image).Ok? && Key(caller.id, parsed.value.round) !in ledger ==>
      r == Store(caller, parsed.value, CheckImage(image).value, ledger, env)
    ensures r.0 == Caught(None) ==>
      && parsed.Valid? && CheckImage(image).Ok?
      && !SchemaValid(Materialize(DraftOf(caller, parsed.value, CheckImage(image).value, env), env.newId, env.now))
  {
    match parsed
    case Invalid(fields) => (Rejected(fields), ledger)
    case Valid(f) =>
      match CheckImage(image)
      case Err(e) => (e, ledger)
      case Ok(file) =>
        if Key(caller.id, f.round) in ledger then (AlreadySubmitted(f.round), ledger)
        else Store(caller, f, file, ledger, env)
  }

  /** POST /api/submissions as written. */
  function Submit(auth: AuthContext, header: Option<string>, form: Form, ledger: Ledger, env: SubmitEnv)
    : (r: (SubmitOutcome, Ledger))
    ensures RequireAuth(auth, header).Err? ==> r == (Unauthorized(RequireAuth(auth, header).error), ledger)
    ensures RequireAuth(auth, header).Ok? && form.Unreadable? ==> r == (Caught(None), ledger)
    ensures RequireAuth(auth, header).Ok? && form.Fields? ==>
      r == Proceed(RequireAuth(auth, header).value, ParseSubmissionFields(form.entries, env.numberOf),
                   Entry(form.entries, "image"), ledger, env)
    ensures r.1 == ledger || (r.0.Created? && KeyOf(r.0.submission) !in ledger && r.1 == ledger[KeyOf(r.0.submission) := r.0.submission])
    ensures r.0.Created? <==> r.1 != ledger
    ensures WellFormed(ledger) ==> WellFormed(r.1)
  {
    match RequireAuth(auth, header)
    case Err(e) => (Unauthorized(e), ledger)
    case Ok(caller) =>
      match form
      case Unreadable => (Caught(None), ledger)
      case Fields(entries) =>
        Proceed(caller, ParseSubmissionFields(entries, env.numberOf), Entry(entries, "image"), ledger, env)
  }

  /** A request the corrected schema accepts never fails the stored schema:
      its names are already trimmed and within the stored bounds. */
  lemma CorrectedFieldsAreStorable(caller: Profile, f: SubmissionFields, file: File, env: SubmitEnv)
    requires FirstRound <= f.round <= LastRound
    requires 1 <= Utf16Length(f.imageName) <= ImageNameMaxLength && IsTrimmed(f.imageName)
    requires 1 <= Utf16Length(f.teamName) <= TeamNameMaxLength && IsTrimmed(f.teamName)
    requires 1 <= Utf16Length(f.prompt) <= PromptMaxLength
    ensures SchemaValid(Materialize(DraftOf(caller, f, file, env), env.newId, env.now))
  {
    assert f.round == 1 || f.round == 2 || f.round == 3;
    TrimmedKeepsLength(f.imageName);
    TrimmedKeepsLength(f.teamName);
    DataUrlNotEmpty(file.mimeType, env.base64(file.bytes));
  }

  /** POST /api/submissions with the corrected schema that trims names
      before bounding them. */
  function SubmitCorrected(auth: AuthContext, header: Option<string>, form: Form, ledger: Ledger, env: SubmitEnv)
    : (r: (SubmitOutcome, Ledger))
    ensures RequireAuth(auth, header).Err? ==> r == (Unauthorized(RequireAuth(auth, header).error), ledger)
    ensures RequireAuth(auth, header).Ok? && form.Unreadable? ==> r == (Caught(None), ledger)
    ensures RequireAuth(auth, header).Ok? && form.Fields? ==>
      r == Proceed(RequireAuth(auth, header).value, ParseSubmissionFieldsCorrected(form.entries, env.numberOf),
                   Entry(form.entries, "image"), ledger, env)
    ensures r.1 == ledger || (r.0.Created? && KeyOf(r.0.submission) !in ledger && r.1 == ledger[KeyOf(r.0.submission) := r.0.submission])
    ensures r.0.Created? <==> r.1 != ledger
    ensures WellFormed(ledger) ==> WellFormed(r.1)
    ensures form.Fields? ==> r.0 != Caught(None)
  {
    match RequireAuth(auth, header)
    case Err(e) => (Unauthorized(e), ledger)
    case Ok(caller) =>
      match form
      case Unreadable => (Caught(None), ledger)
      case Fields(entries) =>
        var parsed := ParseSubmissionFieldsCorrected(entries, env.numberOf);
        var image := Entry(entries, "image");
        if parsed.Valid? && CheckImage(image).Ok? then
          CorrectedFieldsAreStorable(caller, parsed.value, CheckImage(image).value, env);
          Proceed(caller, parsed, image, ledger, env)
        else
          Proceed(caller, parsed, image, ledger, env)
  }

  /** A form whose image name is a single space. */
  function BlankNameForm(): map<string, FormEntry>
  {
    map[
      "roundNumber" := TextValue("1"),
      "imageName" := TextValue(" "),
      "teamName" := TextValue("t"),
      "prompt" := TextValue("p"),
      "image" := Upload(File("image/png", []))]
  }

  lemma BlankNameFormEntries()
    ensures Entry(BlankNameForm(), "roundNumber") == TextValue("1")
    ensures Entry(BlankNameForm(), "imageName") == TextValue(" ")
    ensures Entry(BlankNameForm(), "teamName") == TextValue("t")
    ensures Entry(BlankNameForm(), "prompt") == TextValue("p")
    ensures Entry(BlankNameForm(), "image") == Upload(File("image/png", []))
  {
  }

  /** The trims the sample form needs. */
  lemma SampleTrims()
    ensures Trim(" ") == [] && Trim("t") == "t"
    ensures Utf16Length(" ") == 1 && Utf16Length("t") == 1 && Utf16Length("p") == 1
  {
    assert " "[1..] == [];
    TrimOfTrimmed("t");
  }

  /** The schema as written accepts the sample form, image name and all. */
  lemma BlankNameFormPassesAsWritten(numberOf: string -> JsNumber)
    requires numberOf("1") == Finite(1.0)
    ensures ParseSubmissionFields(BlankNameForm(), numberOf) == Valid(SubmissionFields(1, [], "t", "p"))
  {
    BlankNameFormEntries();
    SampleTrims();
    assert FormRoundOk(BlankNameForm(), numberOf);
    assert RoundOf(BlankNameForm(), numberOf) == 1;
  }

  /** The corrected schema rejects the sample form for its image name only. */
  lemma BlankNameFormFailsCorrected(numberOf: string -> JsNumber)
    requires numberOf("1") == Finite(1.0)
    ensures ParseSubmissionFieldsCorrected(BlankNameForm(), numberOf) == Invalid({"imageName"})
  {
    BlankNameFormEntries();
    SampleTrims();
    assert FormRoundOk(BlankNameForm(), numberOf);
    assert !TrimmedWithin(Entry(BlankNameForm(), "imageName"), ImageNameMaxLength);
    assert TrimmedWithin(Entry(BlankNameForm(), "teamName"), TeamNameMaxLength);
  }

  /** As written, a blank image name passes the text schema, is trimmed to
      the empty string, and the stored schema's `required` rule then throws
      inside the create: the caller gets 500, not 400. */
  lemma BlankImageNameIsInternalError(auth: AuthContext, header: Option<string>, env: SubmitEnv)
    requires RequireAuth(auth, header).Ok?
    requires env.numberOf("1") == Finite(1.0)
    ensures Submit(auth, header, Fields(BlankNameForm()), map[], env).0 == Caught(None)
    ensures Submit(auth, header, Fields(BlankNameForm()), map[], env).0.Status() == StatusInternalError
  {
    var caller := RequireAuth(auth, header).value;
    BlankNameFormPassesAsWritten(env.numberOf);
    BlankNameFormReachesCreate(caller, env);
  }

  lemma BlankNameFormReachesCreate(caller: Profile, env: SubmitEnv)
    ensures Proceed(caller, Valid(SubmissionFields(1, [], "t", "p")), Entry(BlankNameForm(), "image"), map[], env)
      == (Caught(None), map[])
  {
    var f := SubmissionFields(1, [], "t", "p");
    var file := File("image/png", []);
    BlankNameFormEntries();
    assert CheckImage(Entry(BlankNameForm(), "image")) == Ok(file);
    SampleTrims();
    BlankNameIsNotStored(caller, f, file, map[], env);
  }

  /** An image name that trims to nothing fails the stored schema, whatever
      else the request carries: the create throws without a code. */
  lemma BlankNameIsNotStored(caller: Profile, f: SubmissionFields, file: File, ledger: Ledger, env: SubmitEnv)
    requires Trim(f.imageName) == []
    ensures Store(caller, f, file, ledger, env) == (Caught(None), ledger)
  {
    assert Utf16Length(Materialize(DraftOf(caller, f, file, env), env.newId, env.now).imageName) == 0;
  }

  /** With the corrected schema the same request is a validation failure
      naming the image name. */
  lemma BlankImageNameRejectedWhenCorrected(auth: AuthContext, header: Option<string>, env: SubmitEnv)
    requires RequireAuth(auth, header).Ok?
    requires env.numberOf("1") == Finite(1.0)
    ensures SubmitCorrected(auth, header, Fields(BlankNameForm()), map[], env).0 == Rejected({"imageName"})
    ensures SubmitCorrected(auth, header, Fields(BlankNameForm()), map[], env).0.Status() == StatusBadRequest
  {
    BlankNameFormFailsCorrected(env.numberOf);
  }

  /** A stored submission sits under its own key and has a valid round. */
  lemma StoredUnderOwnKey(ledger: Ledger, s: Submission)
    requires WellFormed(ledger) && s in ledger.Values
    ensures KeyOf(s) in ledger && ledger[KeyOf(s)] == s
    ensures s.round == 1 || s.round == 2 || s.round == 3
  {
    var k :| k in ledger && ledger[k] == s;
    assert KeyOf(s) == k;
  }

  /** The caller's own submissions in ascending round order. */
  function OwnSubmissions(ledger: Ledger, user: Id): (r: seq<Submission>)
    requires WellFormed(ledger)
    ensures forall s :: s in r <==> s in ledger.Values && s.userId == user
    ensures forall i, j | 0 <= i < j < |r| :: r[i].round < r[j].round
  {
    var s1, s2, s3 := Slot(ledger, user, 1), Slot(ledger, user, 2), Slot(ledger, user, 3);
    forall s | s in ledger.Values && s.userId == user
      ensures s in s1 + s2 + s3
    {
      StoredUnderOwnKey(ledger, s);
    }
    s1 + s2 + s3
  }

  /** The caller's submission for one round, if any. */
  function Slot(ledger: Ledger, user: Id, round: int): (r: seq<Submission>)
    requires WellFormed(ledger)
    ensures |r| <= 1
    ensures forall s :: s in r <==> s in ledger.Values && s.userId == user && s.round == round
  {
    if Key(user, round) in ledger then
      var s := ledger[Key(user, round)];
      assert KeyOf(s) == Key(user, round);
      [s]
    else
      forall s | s in ledger.Values && s.userId == user && s.round == round
        ensures false
      {
        StoredUnderOwnKey(ledger, s);
      }
      []
  }

  /** GET /api/submissions: authentication, then the caller's submissions. */
  function ListSubmissions(auth: AuthContext, header: Option<string>, ledger: Ledger): (r: Result<seq<Submission>, AuthError>)
    requires WellFormed(ledger)
    ensures r.Err? <==> RequireAuth(auth, header).Err?
    ensures r.Err? ==> r.error.status == StatusUnauthorized
    ensures r.Ok? ==> forall s :: s in r.value <==> s in ledger.Values && s.userId == RequireAuth(auth, header).value.id
    ensures r.Ok? ==> forall i, j | 0 <= i < j < |r.value| :: r.value[i].round < r.value[j].round
  {
    match RequireAuth(auth, header)
    case Err(e) => Err(e)
    case Ok(caller) => Ok(OwnSubmissions(ledger, caller.id))
  }

  /** A created submission is the caller's request as the schemas read it:
      the caller's id, the coerced round, the trimmed names, the prompt as
      sent, the server's clock; it is added under a (user, round) pair that
      was free, and nothing else changes. */
  lemma CreatedRecordIsTheRequest(auth: AuthContext, header: Option<string>, form: Form, ledger: Ledger, env: SubmitEnv)
    requires Submit(auth, header, form, ledger, env).0.Created?
    ensures RequireAuth(auth, header).Ok? && form.Fields?
    ensures ParseSubmissionFields(form.entries, env.numberOf).Valid?
    ensures var r := Submit(auth, header, form, ledger, env);
      var s := r.0.submission;
      && s.userId == RequireAuth(auth, header).value.id
      && s.round == ParseSubmissionFields(form.entries, env.numberOf).value.round
      && s.imageName == Trim(form.entries["imageName"].s)
      && s.teamName == Trim(form.entries["teamName"].s)
      && s.prompt == form.entries["prompt"].s
      && s.submittedAt == env.now
      && Key(s.userId, s.round) !in ledger
      && r.1 == ledger[Key(s.userId, s.round) := s]
  {
    TrimIdempotent(form.entries["imageName"].s);
    TrimIdempotent(form.entries["teamName"].s);
  }

  /** A created submission's stored path gives back the uploaded file's MIME
      type and the encoding of its bytes. */
  lemma StoredPathRecoversUpload(auth: AuthContext, header: Option<string>, form: Form, ledger: Ledger, env: SubmitEnv)
    requires Submit(auth, header, form, ledger, env).0.Created?
    ensures form.Fields?
    ensures
      var file := Entry(form.entries, "image").file;
      SplitDataUrl(Submit(auth, header, form, ledger, env).0.submission.imagePath)
        == Some((file.mimeType, env.base64(file.bytes)))
  {
    var file := Entry(form.entries, "image").file;
    AllowedTypesHaveNoSemicolon();
    DataUrlRoundTrip(file.mimeType, env.base64(file.bytes));
  }
}
