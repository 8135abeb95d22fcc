# promptarena: a Dafny model of the competition server's decision core

promptarena runs a three-round prompt-engineering competition. Participants
register and log in. They unlock a round with an access code, then submit
one image per round, with a name, a team name and a prompt. Administrators
see every submission grouped by round and ranked by arrival.

This project models the server-side decisions behind those features as pure
Dafny functions over immutable data. It proves what those decisions
guarantee. The modules follow the source files:

| module | file | models |
|---|---|---|
| `Common` | common.dfy | option and result types, JavaScript numbers, status codes, the catch-block mapping |
| `Text` | text.dfy | the JavaScript string operations the schemas use: `.length` in UTF-16 units, `.trim()`, `.toLowerCase()`, decimal rendering |
| `Auth` | auth.dfy | `lib/auth.ts`: bearer extraction, `getAuthUser`, `requireAuth`, `requireAdmin` |
| `Validations` | validations.dfy | `lib/validations.ts`: the four zod schemas, including their field error sets |
| `SubmissionModel` | submission_model.dfy | `lib/models/submission.ts`: field rules, trim setters, the `submittedAt` default, the two unique indexes |
| `SubmissionsRoute` | submissions_route.dfy | `POST` and `GET /api/submissions` |
| `AdminSubmissionsRoute` | admin_submissions_route.dfy | `GET /api/admin/submissions`: group by round, rank by position |
| `RoundsVerifyRoute` | rounds_verify_route.dfy | `POST /api/rounds/verify`: the access-code gate |
| `RegisterRoute` | register_route.dfy | `POST /api/auth/register`: role, duplicate email, the issued token |
| `RankDisplay` | rank_display.dfy | `getRankLabel`, `getRankIcon` and `allEmpty` of the administrator table |

The stores are maps:
- The users collection maps an id to an account.
- The submissions collection maps a (user, round) key to a submission. So
  the compound unique index is the map's own key uniqueness, and
  `SubmissionModel.Create` is an atomic insert-or-fail.

Everything the server gets from outside becomes a parameter of the
operation that uses it:
- JavaScript's `Number()` on form text;
- zod's email syntax check;
- bcrypt;
- JWT signing and verifying;
- base64;
- fresh ObjectIds;
- the clock;
- the configured secrets.

Where a property needs the JWT library to behave, it takes the hypothesis
`Auth.HonestCodec`: while it is within its lifetime, a signed token
verifies to its claims. The lifetime is counted the way the JWT library
counts it, in whole seconds (`Auth.WithinLifetime`). The library records
the issuing time rounded down to a second and expires the token seven days
later, so a token stops verifying up to 999 ms before seven days have
passed to the millisecond.

## Model

| member | source | states |
|---|---|---|
| Common.CaughtStatus | app/api/submissions/route.ts:126-142 | a thrown error with code 11000 is answered 409; any other thrown error is answered 500 |
| Text.Utf16Length | lib/validations.ts:42-62 | the length the bounds measure lies between the number of characters and twice that, and is zero only for the empty string |
| Text.Utf16LengthAppend | lib/validations.ts:42-62 | lengths of concatenated strings add up |
| Text.Utf16LengthSlice | lib/models/submission.ts:29-40 | a substring is never longer than the whole string |
| Text.Trim | lib/models/submission.ts:29-40 | the trimmed string has no whitespace at either end and is no longer than the original |
| Text.TrimOffset | lib/models/submission.ts:29-40 | the number of characters trimming drops at the front lies within the string |
| Text.TrimIsInfix | lib/models/submission.ts:29-40 | the trimmed string is a contiguous piece of the original |
| Text.TrimDropsWhitespace | lib/models/submission.ts:29-40 | everything trimming drops, at either end, is whitespace |
| Text.TrimOfTrimmed | lib/validations.ts:4-13 | trimming changes nothing in a string without whitespace at either end |
| Text.TrimmedKeepsLength | lib/models/submission.ts:29-40 | such a string keeps its length when trimmed |
| Text.TrimIdempotent | lib/models/submission.ts:29-40 | trimming a second time changes nothing |
| Text.TrimEmptyIffBlank | lib/models/submission.ts:29-34 | trimming leaves the empty string exactly when every character is whitespace |
| Text.ToLower | lib/validations.ts:9-13 | lower-casing keeps the length |
| Text.LowerCharAgreement | lib/validations.ts:9-13 | two characters lower-case alike exactly when they are equal or case variants of each other |
| Text.ToLowerIdentifies | lib/validations.ts:9-13 | two strings lower-case alike exactly when they differ only in letter case |
| Text.LowerKeepsWhitespace | lib/validations.ts:9-13 | lower-casing a character neither creates nor removes whitespace |
| Text.TrimCommutesWithLower | lib/validations.ts:9-13 | lower-casing then trimming gives the same string as trimming then lower-casing |
| Text.IndexOf | app/api/submissions/route.ts:90-92 | the position found is within the string |
| Text.DigitChar | components/admin-submissions-table.tsx:39 | the character of a digit value is a decimal digit |
| Text.NatToDecimal | components/admin-submissions-table.tsx:39 | a numeral is a non-empty string of digits, and it starts with '0' only for zero |
| Text.NatDecimalRoundTrip | components/admin-submissions-table.tsx:39 | reading a natural number's numeral gives the number back |
| Text.IntToDecimal | components/admin-submissions-table.tsx:39 | an integer's numeral is never empty |
| Text.IntDecimalRoundTrip | components/admin-submissions-table.tsx:39 | reading an integer's numeral, sign included, gives the integer back |
| Auth.ExtractToken | lib/auth.ts:37-43 | a token is found exactly when the header is present and starts with the case-sensitive "Bearer "; the header is then "Bearer " followed by the token |
| Auth.BearerRoundTrip | lib/auth.ts:37-43 | extracting from "Bearer " + t gives back t, for every t |
| Auth.GetAuthUser | lib/auth.ts:49-63 | a user is found exactly when there is a non-empty token, it verifies, and its user id is stored; the user found is that stored account's profile |
| Auth.RequireAuth | lib/auth.ts:68-76 | 401 exactly when no user is found; otherwise that user |
| Auth.RequireAdmin | lib/auth.ts:81-89 | 401 exactly when no user is found; 403 exactly when the stored role is not administrator; otherwise the user |
| Auth.StoredRoleDecides | lib/auth.ts:81-89 | a valid token that claims administrator, for an account stored as a participant, gets 403 |
| Auth.IssuedTokenAuthenticates | lib/auth.ts:23-32 | while the current time, rounded down to a second, is less than seven days after the signing second, a token for a stored user authenticates as that user's stored profile |
| Validations.NormalizeEmailIgnoresCase | lib/validations.ts:9-13 | emails that differ only in letter case and in surrounding whitespace normalise to the same value |
| Validations.ParseRegister | lib/validations.ts:3-19 | accepted exactly when the name is 2..100 long, the email passes the check, the password is 6..128 long, and any adminCode is a string; each field is named in the errors exactly when its own check fails; accepted values are the trimmed name, the lower-cased and trimmed email, the password as sent, and the adminCode as sent when present |
| Validations.SampleRegistrationMembers | lib/validations.ts:3-19 | the sample registration has the name " a", the email "a@b.co", the password "secret" and no adminCode |
| Validations.SampleRegistrationLengths | lib/validations.ts:3-19 | the sample name " a" has length 2 and the sample password has length 6 |
| Validations.SampleRegistrationNormalForms | lib/validations.ts:4-13 | the sample name trims to "a" and the sample email normalises to itself |
| Validations.SampleRegistrationPasses | lib/validations.ts:3-19 | the sample registration fails no field check |
| Validations.NameBoundsPrecedeTrim | lib/validations.ts:4-8 | the length bounds apply before trimming: the name " a" is accepted and becomes "a", one character, below the minimum of 2 |
| Validations.ParseLogin | lib/validations.ts:21-28 | accepted exactly when the email passes the check and the password is non-empty; the email is normalised and the password is kept as sent |
| Validations.ParseRoundVerify | lib/validations.ts:30-40 | accepted exactly when roundNumber is a JSON number that is an integer in 1..3 and the access code is non-empty; the code is trimmed after the check |
| Validations.SubmissionFailures | lib/validations.ts:42-62 | the submission schemas' error set is empty exactly when every field passes, and it names each field exactly when that field's check fails |
| Validations.ParseSubmissionFields | lib/validations.ts:42-62 | accepted exactly when the coerced round is an integer in 1..3, the image name is 1..200 long, the team name 1..100 and the prompt 1..5000, all measured before trimming; each field is named in the errors exactly when its own check fails; the names are trimmed afterwards and the prompt is not |
| Validations.ParseSubmissionFieldsCorrected | lib/validations.ts:48-57 | the corrected schema bounds the trimmed names: accepted exactly when every check passes, each field named in the errors exactly when its own check fails; accepted values are the coerced round, the trimmed names, which are non-empty and within their bounds, and the prompt as sent |
| Validations.CorrectionOnlyRejectsBlankNames | lib/validations.ts:48-57 | on input the schema as written accepts, the corrected schema disagrees only when a name trims to nothing |
| SubmissionModel.Materialize | lib/models/submission.ts:14-54 | the stored document has trimmed names, the prompt and image path as given, and `submittedAt` defaulting to the current time |
| SubmissionModel.ErrorCode | lib/models/submission.ts:57 | only an index violation carries code 11000 |
| SubmissionModel.Create | lib/models/submission.ts:14-57 | a schema failure comes first; otherwise a taken (user, round) pair or a taken id is a duplicate key; otherwise exactly one document is added under its own key |
| SubmissionModel.CreateKeepsWellFormed | lib/models/submission.ts:14-57 | an insert keeps every document valid, stored under its own (user, round) key, and with a unique id |
| SubmissionModel.AtMostOnePerPair | lib/models/submission.ts:57 | in a well-formed collection, two documents with the same user and round are the same document |
| SubmissionsRoute.DataUrlRoundTrip | app/api/submissions/route.ts:90-92 | for a MIME type without ';', the data URL splits back into the MIME type and the payload |
| SubmissionsRoute.DataUrlNotEmpty | lib/models/submission.ts:46-49 | the stored image path is never empty, so `required` accepts it |
| SubmissionsRoute.AllowedTypesHaveNoSemicolon | app/api/submissions/route.ts:7-13 | no allowed MIME type contains ';' |
| SubmissionsRoute.CheckImage | app/api/submissions/route.ts:46-68 | checks run in this order: a missing or non-file image, then a MIME type outside the five allowed, then a size above 5*1024*1024 bytes; exactly that size is accepted |
| SubmissionsRoute.Store | app/api/submissions/route.ts:95-102 | the create either adds the one document carrying the caller's id, the parsed fields, the data URL and the clock, or changes nothing; a failed create is answered with the store error's code, and the error has no code exactly when the stored schema rejects the document |
| SubmissionsRoute.Proceed | app/api/submissions/route.ts:30-102 | a schema failure gives 400 with its fields; then the image checks; then an existing (user, round) entry gives 409 with nothing changed; only then the create |
| SubmissionsRoute.Submit | app/api/submissions/route.ts:16-144 | authentication comes first and its error is returned; an unreadable form is a 500; the collection changes exactly when the answer is 201, by one document under a free key, and stays well formed |
| SubmissionsRoute.CorrectedFieldsAreStorable | lib/models/submission.ts:14-49 | whatever the corrected schema accepts, the stored schema accepts too |
| SubmissionsRoute.SubmitCorrected | app/api/submissions/route.ts:16-144 | the route with only the schema changed: 401 before anything else, 500 with the ledger unchanged for an unreadable form, otherwise the corrected schema, then the image checks and the store; the ledger changes exactly when a submission is created, and a readable form never ends in a code-less 500 |
| SubmissionsRoute.BlankNameFormEntries | app/api/submissions/route.ts:23-27 | the entries of the sample form |
| SubmissionsRoute.SampleTrims | lib/validations.ts:48-57 | " " trims to nothing and "t" to itself |
| SubmissionsRoute.BlankNameFormPassesAsWritten | lib/validations.ts:48-52 | the schema as written accepts an image name of one space, and trims it to the empty string |
| SubmissionsRoute.BlankNameFormFailsCorrected | lib/validations.ts:48-52 | the corrected schema rejects that form, naming only imageName |
| SubmissionsRoute.BlankNameIsNotStored | lib/models/submission.ts:29-34 | an image name that trims to nothing makes the create throw without a code, and nothing is stored |
| SubmissionsRoute.BlankNameFormReachesCreate | app/api/submissions/route.ts:95-102 | the sample form passes every check up to the create, which then throws |
| SubmissionsRoute.BlankImageNameIsInternalError | app/api/submissions/route.ts:126-142 | as written, a one-space image name is answered 500 |
| SubmissionsRoute.BlankImageNameRejectedWhenCorrected | app/api/submissions/route.ts:37-43 | corrected, the same request is answered 400, naming imageName |
| SubmissionsRoute.StoredUnderOwnKey | lib/models/submission.ts:21-28 | a stored submission sits under its own key and has round 1, 2 or 3 |
| SubmissionsRoute.Slot | app/api/submissions/route.ts:152 | the caller's submission for one round: at most one, and exactly the stored ones for that user and round |
| SubmissionsRoute.OwnSubmissions | app/api/submissions/route.ts:152-154 | exactly the caller's stored submissions, in strictly ascending round order |
| SubmissionsRoute.ListSubmissions | app/api/submissions/route.ts:146-180 | 401 exactly when unauthenticated; otherwise exactly the caller's submissions, ordered by round |
| SubmissionsRoute.CreatedRecordIsTheRequest | app/api/submissions/route.ts:95-102 | a created submission carries the caller's id, the coerced round, the trimmed names, the prompt as sent and the server's clock; it goes in under a (user, round) pair that was free, and nothing else changes |
| SubmissionsRoute.StoredPathRecoversUpload | app/api/submissions/route.ts:90-92 | a created submission's image path splits back into the uploaded file's MIME type and the encoding of its bytes |
| AdminSubmissionsRoute.Ranked | app/api/admin/submissions/route.ts:43-54 | one entry per row of the round |
| AdminSubmissionsRoute.RankedAt | app/api/admin/submissions/route.ts:43-54 | the k-th entry is built from the k-th row, with rank k + 1 |
| AdminSubmissionsRoute.RankedSnoc | app/api/admin/submissions/route.ts:43-54 | appending a row appends its entry, ranked one past the previous length |
| AdminSubmissionsRoute.InRoundSnoc | app/api/admin/submissions/route.ts:35-55 | a new row extends its own round's list and no other |
| AdminSubmissionsRoute.InRoundMembership | app/api/admin/submissions/route.ts:35-55 | a row is in a round's list exactly when it is an input row of that round |
| AdminSubmissionsRoute.InRoundEmpty | app/api/admin/submissions/route.ts:39-41 | a round's list is empty exactly when no input row has that round |
| AdminSubmissionsRoute.GroupAndRank | app/api/admin/submissions/route.ts:33-55 | there is a group exactly for rounds 1, 2 and 3 and for every round some row has; each group is that round's rows, in input order, ranked by position |
| AdminSubmissionsRoute.GroupStepRounds | app/api/admin/submissions/route.ts:39-41 | one loop step adds a group for its row's round only |
| AdminSubmissionsRoute.GroupStepLists | app/api/admin/submissions/route.ts:43-54 | one loop step keeps every group equal to its ranked round |
| AdminSubmissionsRoute.GroupStep | app/api/admin/submissions/route.ts:35-55 | one loop step keeps both properties of `GroupAndRank` |
| AdminSubmissionsRoute.RanksArePositions | app/api/admin/submissions/route.ts:53 | a round's ranks are exactly 1, 2, ..., n, where n is the number of its rows |
| AdminSubmissionsRoute.EveryRowHasItsGroup | app/api/admin/submissions/route.ts:35-55 | every row lands in the group of its own round, including a round outside 1..3 |
| AdminSubmissionsRoute.EntriesCopyTheirRows | app/api/admin/submissions/route.ts:36-52 | an entry copies its row's submission fields; name and email are "Unknown" when the user is missing |
| AdminSubmissionsRoute.InRoundSortedByTime | app/api/admin/submissions/route.ts:15 | under the query's order, a round's rows are in submission-time order |
| AdminSubmissionsRoute.RankOrderFollowsTime | app/api/admin/submissions/route.ts:15-55 | under the query's order, a better rank in a round never has a later submission time |
| AdminSubmissionsRoute.KeyOrder | app/api/admin/submissions/route.ts:33-41 | the groups in creation order: each round once, and exactly the rounds that get a group |
| AdminSubmissionsRoute.SizeSumFrame | app/api/admin/submissions/route.ts:57-60 | the total of group sizes depends only on the groups counted |
| AdminSubmissionsRoute.SizeSumUpdate | app/api/admin/submissions/route.ts:57-60 | replacing one counted group changes the total by the change in its size |
| AdminSubmissionsRoute.PushAddsOne | app/api/admin/submissions/route.ts:43-54 | one push adds one to the total of group sizes |
| AdminSubmissionsRoute.GroupSizesSumToTotal | app/api/admin/submissions/route.ts:57-60 | the group sizes add up to the number of rows |
| AdminSubmissionsRoute.AdminGet | app/api/admin/submissions/route.ts:6-74 | the administrator gate comes first and its error status is returned as is; otherwise the grouped view, with `total` the number of rows and equal to the sum of the group sizes |
| RoundsVerifyRoute.ExpectedCode | app/api/rounds/verify/route.ts:5-9 | no round outside 1..3 has a code |
| RoundsVerifyRoute.Gate | app/api/rounds/verify/route.ts:30-44 | not configured exactly when the code is unset or empty; a mismatch exactly when a configured code differs from the supplied one; access exactly when they are equal |
| RoundsVerifyRoute.VerifyRound | app/api/rounds/verify/route.ts:11-63 | authentication first, then the body, then the schema (400), then the gate, which always decides a parsed request of an authenticated caller: 500 when not configured, 403 on a mismatch, and the requested round when verified |
| RoundsVerifyRoute.UnconfiguredRoundNeverVerifies | app/api/rounds/verify/route.ts:30-36 | a round without a configured code is answered 500, whatever code is supplied |
| RoundsVerifyRoute.MatchingCodeVerifies | app/api/rounds/verify/route.ts:39-50 | a configured code equal to the supplied one is answered 200 with the requested round |
| RoundsVerifyRoute.WrongCodeIsForbidden | app/api/rounds/verify/route.ts:39-44 | a configured code different from the supplied one is answered 403 |
| RoundsVerifyRoute.CaseMatters | app/api/rounds/verify/route.ts:38-44 | a code that differs only in letter case is refused |
| RoundsVerifyRoute.UnauthenticatedLearnsNothing | app/api/rounds/verify/route.ts:13 | an unauthenticated request gets 401 whatever the codes are |
| RegisterRoute.DetermineRole | app/api/auth/register/route.ts:40-44 | administrator exactly when the supplied code and the server's code are both non-empty and equal |
| RegisterRoute.NoSecretNoAdministrator | app/api/auth/register/route.ts:41-42 | with no server code, or an empty one, nobody becomes administrator |
| RegisterRoute.CreateAccount | app/api/auth/register/route.ts:47-74 | a taken id is a duplicate key (11000), and a free id always registers: one account is added, with the hashed password, and the token carries exactly its id, email and role |
| RegisterRoute.Register | app/api/auth/register/route.ts:8-93 | a body that is not JSON is a 500; a schema failure is a 400, before the store is read; an email in use is a 409; otherwise the account is created |
| RegisterRoute.RegisterAddsAtMostOne | app/api/auth/register/route.ts:27-52 | the accounts change exactly when registration succeeds, by one account under a fresh id; a 409 changes nothing |
| RegisterRoute.EmailTakenExactlyWhenInUse | app/api/auth/register/route.ts:27-33 | the duplicate-email answer is given exactly for a valid request whose email some account has |
| RegisterRoute.RegisterKeepsEmailsUnique | app/api/auth/register/route.ts:27-52 | registration keeps emails unique among accounts |
| RegisterRoute.CaseVariantEmailIsTaken | app/api/auth/register/route.ts:27-33 | an email that differs from a stored one only in letter case and in surrounding whitespace is answered 409 |
| RegisterRoute.RegisteredTokenAuthenticates | app/api/auth/register/route.ts:55-59 | the returned token authenticates as the account just created for as long as the current time, rounded down to a second, is less than seven days after the registration second |
| RankDisplay.Suffix | components/admin-submissions-table.tsx:37-38 | every suffix has two letters |
| RankDisplay.RankLabel | components/admin-submissions-table.tsx:36-40 | the label is the decimal rank followed by a two-letter suffix: "st", "nd" or "rd" exactly for 1, 2 or 3, and "th" for every other rank |
| RankDisplay.RankLabelRoundTrip | components/admin-submissions-table.tsx:36-40 | the number before the suffix reads back as the rank |
| RankDisplay.RankLabelInjective | components/admin-submissions-table.tsx:36-40 | different ranks get different labels |
| RankDisplay.LabelFromDigits | components/admin-submissions-table.tsx:39 | the label is the rank's digits followed by its suffix |
| RankDisplay.SingleDigitLabel | components/admin-submissions-table.tsx:39 | a one-digit rank's label is that digit and its suffix |
| RankDisplay.FirstLabel | components/admin-submissions-table.tsx:37 | rank 1 is "1st" |
| RankDisplay.SecondLabel | components/admin-submissions-table.tsx:37 | rank 2 is "2nd" |
| RankDisplay.ThirdLabel | components/admin-submissions-table.tsx:37 | rank 3 is "3rd" |
| RankDisplay.TwentyFirstLabel | components/admin-submissions-table.tsx:37-38 | rank 21 is "21th": the suffix depends on the whole rank |
| RankDisplay.EleventhLabel | components/admin-submissions-table.tsx:37-38 | rank 11 is "11th" |
| RankDisplay.RankIcon | components/admin-submissions-table.tsx:29-34 | an icon exactly for ranks 1 to 3 |
| RankDisplay.IconsFollowLabels | components/admin-submissions-table.tsx:29-40 | a rank has an icon exactly when its label does not end in "th", and no two ranks share an icon |
| RankDisplay.AllEmptyIffNoRows | components/admin-submissions-table.tsx:59-61 | the grouped view is all empty exactly when there are no submissions |

## Left out

- User interface: the React pages and components, apart from the three pure helpers of the administrator table. The client's own file checks are left out too; they duplicate the server's checks and allow 10 MB where the server allows 5 MB.
- The client library `lib/api-client.ts`: fetch and local-storage plumbing.
- Cryptography and encoding: JWT signing and verifying, bcrypt and base64 are parameters. Their only assumed property is `Auth.HonestCodec`, stated as a hypothesis where it is needed.
- Database access: connecting, `populate` and `sort`. The admin route receives the query's rows; the rows are already joined with their users and carry no ordering guarantee. Sortedness by (round, time) is a hypothesis of `AdminSubmissionsRoute.RankOrderFollowsTime`. Store failures other than the duplicate key and the schema rejection (a `findOne`, `find` or `create` failing for another reason, which the routes answer with 500) are not modelled: `AdminSubmissionsRoute.AdminGet`, `SubmissionsRoute.ListSubmissions` and `RegisterRoute.Register` have no such outcome.
- Lone UTF-16 surrogates: a Dafny `string` cannot hold one, while a JSON body can carry one and JavaScript's `.length` counts it as 1. `Text.Utf16Length` is stated for well-formed strings only.
- Concurrency: two simultaneous requests for the same (user, round) pair are not interleaved. The unique index is the atomic `SubmissionModel.Create`, and a duplicate-key error from it is modelled.
- RegisterRoute.RegisterKeepsEmailsUnique: holds for requests handled one after another. Two simultaneous registrations with the same email are not modelled. The user model, with any unique index on email it has, is not part of this model.
- The login route and `lib/models/user.ts` are not part of this model. Only the login schema is, as `Validations.ParseLogin`. The user model's own validators are not modelled either.
- The users and current-user routes: they add nothing beyond the authentication gate already modelled.
- The administrator page's completion rate and date formatting: floating-point presentation.
- Deletion of submissions: no delete endpoint exists.
- Error message texts, including the size error that says 10 MB while the limit is 5 MB. Responses are modelled by their outcome and status.
- Text.ToLower: folds only the ASCII letters, whereas JavaScript's `toLowerCase` folds all of Unicode. The case-insensitivity lemmas hold for the ASCII model.
- JavaScript's `Number()` conversion of form text is the parameter `numberOf`. Coercing an absent field (null) gives 0 and coercing a file gives NaN; both are modelled.
- Validations.ParseRegister: `isEmail` is a parameter standing for zod's email pattern, not a definition of it.
- AdminSubmissionsRoute.KeyOrder: lists the groups in creation order. A JavaScript object lists its array-index keys (non-negative integers below 2^32 - 1) first, in ascending order, and other keys, such as negative round numbers, after them in insertion order. The order does not affect the total or `allEmpty`.
- The `Authorization` header is taken as the single string the platform returns. Header-name case and repeated headers are the platform's business.

## Findings

| source | as written | input that shows it | evidently intended | confidence | as-written member | corrected member |
|---|---|---|---|---|---|---|
| lib/validations.ts:48-57 | `.min(1)` and `.max(...)` run before `.trim()`, so a name of only whitespace passes the request schema. It is then stored trimmed to "", the stored schema's `required` rule throws inside `Submission.create`, and the catch block answers 500 | an authenticated multipart form with roundNumber "1", imageName " ", teamName "t", prompt "p" and a PNG file | a 400 validation failure naming imageName (trim before bounding) | not executed | SubmissionsRoute.BlankImageNameIsInternalError | SubmissionsRoute.BlankImageNameRejectedWhenCorrected |

The corrected schema is `Validations.ParseSubmissionFieldsCorrected`, used by
`SubmissionsRoute.SubmitCorrected`. Its guarantee that a readable form never
ends in a code-less 500 rests on `SubmissionsRoute.CorrectedFieldsAreStorable`.
