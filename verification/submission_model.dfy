/** The submissions collection: the stored document, the schema's field
    rules, and the unique indexes on `_id` and on (userId, roundNumber).
    The collection is a map keyed by (user, round), so the compound index is
    the map's own key uniqueness; `Create` is the atomic insert-or-fail. */
module SubmissionModel {
  import opened Common
  import opened Text

  const Rounds: set<int> := {1, 2, 3}
  const StoredImageNameMax := 200
  const StoredTeamNameMax := 100
  const StoredPromptMax := 5000

  datatype Submission = Submission(
    id: Id,
    userId: Id,
    round: int,
    imageName: string,
    teamName: string,
    prompt: string,
    imagePath: string,
    submittedAt: int)

  /** The document handed to `Submission.create`, before the schema's
      setters and defaults apply; `submittedAt` may be left out. */
  datatype Draft = Draft(
    userId: Id,
    round: int,
    imageName: string,
    teamName: string,
    prompt: string,
    imagePath: string,
    submittedAt: Option<int>)

  /** The schema's validators: `required` (which rejects the empty string),
      the round enumeration and the maximum lengths. */
  predicate SchemaValid(s: Submission)
  {
    && s.round in Rounds
    && 1 <= Utf16Length(s.imageName) <= StoredImageNameMax
    && 1 <= Utf16Length(s.teamName) <= StoredTeamNameMax
    && 1 <= Utf16Length(s.prompt) <= StoredPromptMax
    && s.imagePath != []
  }

  /** The stored document: names trimmed by the schema's `trim` setters,
      `submittedAt` defaulting to the current time, the prompt as given. */
  function Materialize(d: Draft, id: Id, now: int): (s: Submission)
    ensures s.imageName == Trim(d.imageName) && s.teamName == Trim(d.teamName)
    ensures s.prompt == d.prompt && s.imagePath == d.imagePath
    ensures s.submittedAt == (if d.submittedAt.Some? then d.submittedAt.value else now)
    ensures s.userId == d.userId && s.round == d.round && s.id == id
  {
    Submission(
      id, d.userId, d.round, Trim(d.imageName), Trim(d.teamName), d.prompt, d.imagePath,
      match d.submittedAt case Some(t) => t case None => now)
  }

  datatype Key = Key(user: Id, round: int)

  function KeyOf(s: Submission): Key
  {
    Key(s.userId, s.round)
  }

  type Ledger = map<Key, Submission>

  /** What the collection's schema and indexes maintain: every document sits
      under its own (user, round) key, satisfies the schema, and has an `_id`
      no other document has. */
  ghost predicate WellFormed(l: Ledger)
  {
    && (forall k | k in l :: KeyOf(l[k]) == k && SchemaValid(l[k]))
    && (forall k1, k2 | k1 in l && k2 in l && l[k1].id == l[k2].id :: k1 == k2)
  }

  predicate IdTaken(l: Ledger, id: Id)
  {
    exists k | k in l :: l[k].id == id
  }

  /** Why `Submission.create` throws: a schema validator failed, or a unique
      index was violated. */
  datatype CreateError = SchemaRejected | DuplicateKey

  /** The `code` property of the thrown error: only an index violation has
      one. */
  function ErrorCode(e: CreateError): (code: Option<int>)
    ensures code == Some(DuplicateKeyCode) <==> e == DuplicateKey
  {
    match e
    case SchemaRejected => None
    case DuplicateKey => Some(DuplicateKeyCode)
  }

  /** `Submission.create`: validate the materialised document, then insert
      it atomically unless its (user, round) pair or its `_id` is taken. */
  function Create(l: Ledger, d: Draft, id: Id, now: int): (r: Result<(Submission, Ledger), CreateError>)
    ensures r.Err? && r.error == SchemaRejected <==> !SchemaValid(Materialize(d, id, now))
    ensures r.Err? && r.error == DuplicateKey <==>
      SchemaValid(Materialize(d, id, now)) && (Key(d.userId, d.round) in l || IdTaken(l, id))
    ensures r.Ok? ==>
      && r.value.0 == Materialize(d, id, now)
      && KeyOf(r.value.0) !in l
      && r.value.1 == l[KeyOf(r.value.0) := r.value.0]
      && |r.value.1| == |l| + 1
  {
    var s := Materialize(d, id, now);
    if !SchemaValid(s) then Err(SchemaRejected)
    else if KeyOf(s) in l || IdTaken(l, id) then Err(DuplicateKey)
    else Ok((s, l[KeyOf(s) := s]))
  }

  /** A successful insert keeps the collection well formed: the schema and
      both unique indexes still hold. */
  lemma CreateKeepsWellFormed(l: Ledger, d: Draft, id: Id, now: int)
    ensures WellFormed(l) && Create(l, d, id, now).Ok? ==> WellFormed(Create(l, d, id, now).value.1)
  {
    if WellFormed(l) && Create(l, d, id, now).Ok? {
      var s := Materialize(d, id, now);
      var l' := l[KeyOf(s) := s];
      assert Create(l, d, id, now).value.1 == l';
      assert !IdTaken(l, id);
      forall k1, k2 | k1 in l' && k2 in l' && l'[k1].id == l'[k2].id
        ensures k1 == k2
      {
        if k1 != KeyOf(s) && k2 != KeyOf(s) {
          assert l[k1].id == l[k2].id;
        }
      }
    }
  }

  /** The compound unique index: in a valid collection no two documents share
      a (user, round) pair. */
  lemma AtMostOnePerPair(l: Ledger, s1: Submission, s2: Submission)
    requires WellFormed(l)
    requires s1 in l.Values && s2 in l.Values
    requires s1.userId == s2.userId && s1.round == s2.round
    ensures s1 == s2
  {
    var k1 :| k1 in l && l[k1] == s1;
    var k2 :| k2 in l && l[k2] == s2;
    assert k1 == KeyOf(s1) == KeyOf(s2) == k2;
  }
}
