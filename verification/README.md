# Quiz attempt engine, modelled in Dafny

This project models the in-memory core of the quiz-app Go service: the
database of quizzes, users and quiz attempts, and the operations that
change it. The core is:

- the attempt engine (`src/service/userquiz.go`): starting a quiz,
  submitting answers under a time limit with scoring and a completion stamp,
  and reading the results;
- the quiz catalog (`src/service/quiz.go`): creation with title trimming,
  duplicate-title rejection ignoring case, a default time limit and
  identifier linking, and lookup returning a copy with the answer key
  stripped (`src/utils/object.go`);
- the existence checks (`src/db/validations/foreignkey.go`) and the
  request validators (`src/db/models/userresponse.go`,
  `userquizattempts.go`, `user.go`);
- the user store (`src/service/user.go`): registration and login;
- the legacy controllers (`src/controllers/*.go`), which duplicate the
  engine without the time gate and the completion stamp, the catalog
  without the time-limit default, and the user store unchanged;
- the seed fixture (`src/db/db.go`).

Every operation is a pure function over immutable datatypes. An operation
that changes the database returns a `Step(state, out)`: the new database
and either `Ok(value)` or `Err(error)`. Failures are stated to return the
database unchanged. Go `error` values become `Failure(message)` with the
source's message. A nil pointer dereference that would panic becomes
`NilDereference`. Identifiers are strings. The identifiers `uuid.New` would
draw, the clock reading `now` (nanoseconds), the bcrypt hash, the password
comparison and the JWT issuer are parameters. A submission reads the
clock twice, once in the time-limit check and once for the end stamp; the
model passes one reading `now` per call for both, so the stamp is the
instant the check passed rather than a slightly later one.

Files, one module each:

| file | module | holds |
|---|---|---|
| wrappers.dfy | Wrappers | `Nullable`, `Error`, `Result`, `Outcome`, `Step` |
| lookup.dfy | Lookup | first index satisfying a predicate (every Go range-and-return loop) |
| ascii.dfy | Ascii | trimming, character classes, lower-casing, equality ignoring case |
| models.dfy | Models | the records, the database, lookups by identifier |
| foreignkey.dfy | ForeignKey | user and quiz existence checks |
| userresponse.dfy, userquizattempts.dfy, user.dfy | UserResponseModel, UserQuizAttemptsModel, UserModel | validators |
| object.dfy | ObjectCopy | the answer-key-stripping copy |
| quiz_service.dfy | QuizService | catalog creation and lookup |
| user_service.dfy | UserService | registration and login |
| ledger.dfy | Ledger | helpers both attempt engines share, ledger invariants |
| userquiz_service.dfy | UserQuizService | the attempt engine |
| userquiz_properties.dfy | UserQuizProperties | properties relating several engine calls |
| controllers_userquiz.dfy, controllers_quiz.dfy, controllers_user.dfy | LegacyUserQuiz, LegacyQuiz, LegacyUser | the legacy controllers |
| legacy_properties.dfy | LegacyProperties | the legacy engine compared with the service engine, and its invariants |
| seed.dfy | Seed | the seed fixture |
| scenarios.dfy | Scenarios | concrete runs on the seeded database |

## Behaviour kept as written

These behaviours are modelled the way the code has them:

- `SubmitAnswer` finds the attempt by its identifier alone. It never checks
  that the attempt belongs to the request's user or quiz
  (`Scenarios.AnswerIntoOthersAttempt`).
- The time limit is read from the attempt's own quiz. The completion count
  is read from the request's quiz. So an attempt on a two-question quiz is
  stamped ended after one answer sent under a one-question quiz
  (`UserQuizProperties.StampedAfterOneOfTwo`). When each request names the
  attempt's own quiz, a stamp still means a full set of responses
  (`UserQuizProperties.SubmitAnswerKeepsStampedComplete`).
- When time runs out, writes are blocked but `EndedAt` is never set
  (`UserQuizProperties.OverdueAttemptRejects`).
- `updateUserQuizScore` bumps every attempt carrying the identifier. The
  response is appended only to the first one.
- A response is stored with its correctness flag set to "selected option is
  correct, or the request already said so". The request handlers clear the
  flag before the call, so the invariant lemmas assume a cleared flag.
- The service `StartQuiz` keeps every other field of the request, including
  its responses and end stamp. The legacy one also keeps the request's
  start time.
- `Register` appends the user before issuing the token, so a token failure
  returns an error while the user stays stored.
- `User.Validate` reports "name must be specified" for an empty username or
  password, and checks the username characters on the untrimmed value.
- A legacy `Create` with a zero time limit stores 0. The service engine
  would then reject every later answer once any time has passed
  (`LegacyQuiz.ZeroLimitKept`).

## Model

| member | source | states |
|---|---|---|
| Ascii.TrimSpace | src/db/models/user.go:20 | the trimmed string has no leading or trailing ASCII space and is a contiguous piece of the input |
| Ascii.TrimSpaceIdempotent | src/service/user.go:33-35 | trimming an already trimmed value changes nothing |
| Ascii.TrimSpaceFixedPoint | src/service/quiz.go:31 | a string is its own trim exactly when it has no outer space |
| Ascii.SameIgnoringCaseProperties | src/service/quiz.go:72 | the case-insensitive comparison is per-character lower-case equality and is reflexive, symmetric and transitive |
| ForeignKey.DoesUserIdExist | src/db/validations/foreignkey.go:11-19 | passes exactly when some stored user has the id; otherwise fails with "user not found" |
| ForeignKey.DoesQuizIdExist | src/db/validations/foreignkey.go:22-30 | passes exactly when some stored quiz has the id; otherwise fails with "quiz not found" |
| UserResponseModel.Validate | src/db/models/userresponse.go:21-38 | nil user, quiz, question and option ids are reported in that order with their messages; passes exactly when all four are set |
| UserResponseModel.ValidateIgnoresAttemptAndFlag | src/db/models/userresponse.go:21-38 | the attempt id, the response id and the correctness flag never affect the outcome |
| UserQuizAttemptsModel.Validate | src/db/models/userquizattempts.go:22-31 | a nil user id is reported first, then a nil quiz id; passes exactly when both are set |
| UserQuizAttemptsModel.ValidateIgnoresProgress | src/db/models/userquizattempts.go:22-31 | the timestamps, score and responses never affect the outcome |
| UserModel.Checks | src/db/models/user.go:21-62 | on the trimmed values, the first failing check in source order gives its message, including the reused name message for an empty username or password; passes exactly when every bound and pattern holds |
| UserModel.Validate | src/db/models/user.go:19-63 | only the name changes (it is trimmed); passes exactly when the user is well formed |
| UserModel.PaddedUsernameRejected | src/db/models/user.go:38-53 | a username padded with spaces passes the length check on its trim but fails the character check |
| ObjectCopy.CopyOption | src/utils/object.go:35-42 | keeps id, question id and answer, and clears the correctness flag |
| ObjectCopy.CopyQuestion | src/utils/object.go:20-33 | keeps id, quiz id and text, and copies the options one for one in order |
| ObjectCopy.CopyQuiz | src/utils/object.go:5-18 | the copy agrees with the quiz everywhere except the flags, and every flag is nil |
| ObjectCopy.StrippedAgreementIsEquality | src/utils/object.go:5-42 | two quizzes that agree outside the flags and both have no flags are equal |
| ObjectCopy.CopyQuizIdempotent | src/utils/object.go:5-42 | copying a copy changes nothing |
| ObjectCopy.CopyQuizFixesExactlyStripped | src/utils/object.go:5-42 | a quiz is its own copy exactly when it carries no flags |
| QuizService.CheckTitleExist | src/service/quiz.go:70-78 | passes exactly when no stored title equals the title ignoring case; otherwise fails with the duplicate-title message |
| QuizService.AssignQuestionIds | src/service/quiz.go:83-90 | gives the question its id and quiz id and each option its id and the question's id, keeping text, answers and flags |
| QuizService.AssignIds | src/service/quiz.go:80-92 | the result is linked (questions to quiz, options to question), carries the drawn ids, and keeps counts, order and every other field |
| QuizService.Create | src/service/quiz.go:30-46 | a trimmed title already present ignoring case gives the duplicate error with the catalog unchanged; otherwise the linked quiz with trimmed title and defaulted time limit is appended, keeping every question text and every option's answer and flag in order under the fresh ids |
| QuizService.GetQuiz | src/service/quiz.go:49-67 | fails with "quiz not found" exactly for unknown ids; otherwise returns a flag-free copy agreeing with the first quiz with the id |
| QuizService.CreateThenGetQuiz | src/service/quiz.go:30-67 | a quiz just created is found by its id, as the copy of what was stored |
| QuizService.CreateSameTitleTwice | src/service/quiz.go:30-36 | creating a second quiz whose trimmed title matches ignoring case fails and leaves the catalog unchanged |
| UserService.UsernameIndex | src/service/user.go:107-115 | the position of the first stored user whose username matches ignoring case |
| UserService.CheckDuplicateExist | src/service/user.go:96-104 | passes exactly when no stored username matches ignoring case; otherwise fails with "same username already exists" |
| UserService.GetUserByUsername | src/service/user.go:107-115 | returns the first user matching ignoring case, or "username or password is incorrect" when none does |
| UserService.Register | src/service/user.go:32-64 | a taken username or a hashing failure leaves the store unchanged; otherwise the trimmed user with the hash and fresh id is appended, and the response echoes it with the token |
| UserService.Login | src/service/user.go:67-93 | an unknown username and a wrong password give the same error; a success echoes the matched stored user; the store is an input only |
| UserService.AppendedIsFirstMatch | src/service/user.go:107-115 | a user appended under a username no stored user has is the first match for it |
| UserService.RegisterThenLogin | src/service/user.go:32-93 | logging in with the credentials just registered returns what the registration returned, when the hash verifies its own plaintext |
| UserService.LoginOtherFailuresFromToken | src/service/user.go:67-93 | any other login failure comes from token issuing for a matched user |
| Ledger.GetQuizById | src/service/userquiz.go:172-180 | returns the first quiz with the id, or "quiz not found" exactly when none exists |
| Ledger.GetQuestionById | src/service/userquiz.go:183-191 | returns the first question with the id, or "question not found" exactly when none exists |
| Ledger.GetOptionById | src/service/userquiz.go:194-202 | returns the first option with the id, or "option not found" exactly when none exists |
| Ledger.GetCorrectOption | src/service/userquiz.go:205-213 | returns the first option flagged true after only false flags; a nil flag met first panics; all false gives "correct option not found" |
| Ledger.DoesQuestionExistForQuiz | src/service/userquiz.go:216-229 | an unknown quiz gives "quiz not found"; otherwise passes exactly when the quiz has the question |
| Ledger.GetUserQuiz | src/service/userquiz.go:232-239 | returns the first attempt with the id, or "please start quiz before submitting answers" exactly when none exists |
| Ledger.IsQuestionAnswered | src/service/userquiz.go:242-250 | fails with "question already answered" exactly when some response answers the question |
| Ledger.UpdateUserQuizScore | src/service/userquiz.go:163-169 | every attempt with the id gains one point and every other attempt is unchanged |
| Ledger.AppendResponse | src/service/userquiz.go:124-135 | only the first attempt with the id gains the response, at the end of its list |
| Ledger.Locate | src/service/userquiz.go:84-110 | the answer checks fail exactly as the declarative reference `AnswerFailure` says; on success the quiz, question, option and flag located are those named by the request |
| Ledger.CountCorrectAppend | src/service/userquiz.go:110-126 | appending a response raises the correct-response count by one exactly when the response is correct |
| UserQuizService.StartQuiz | src/service/userquiz.go:33-60 | unknown user, then unknown quiz, then an existing attempt for the pair are refused with the ledger unchanged; otherwise exactly one attempt with the fresh id, zero score and start time is appended |
| UserQuizService.IsQuizCompleted | src/service/userquiz.go:253-273 | fails exactly when the attempt is missing, ended, its quiz is missing, it has no start time, or more than the time limit has passed |
| UserQuizService.Grade | src/service/userquiz.go:63-120 | fails exactly with the first failure of the ordered checks; on success reveals the selected option when it is correct, otherwise the first option flagged correct |
| UserQuizService.StampCompletion | src/service/userquiz.go:128-131 | only the first attempt with the id is stamped, and only when its response count equals the question count |
| UserQuizService.CommitLedger | src/service/userquiz.go:122-135 | the score bump, the append and the completion stamp together give the first matching attempt one response, the point and the stamp when its responses reach the question count, and give every other attempt at most the bump |
| UserQuizService.CommitEffect | src/service/userquiz.go:110-135 | the writes of a submission have exactly the effect `SubmissionEffect` describes |
| UserQuizService.SubmitAnswer | src/service/userquiz.go:63-138 | fails exactly with the first failing check, leaving the database unchanged; on success the open attempt gains one response, one point when correct, and the end stamp when complete; the revealed option is the selected one when correct, otherwise the first flagged correct |
| UserQuizService.GetUserQuizResults | src/service/userquiz.go:141-160 | unknown user, then unknown quiz, then "user not attempted specified quiz"; otherwise the first attempt of the pair |
| UserQuizProperties.StartQuizTwice | src/service/userquiz.go:45-50 | a second start for the same user and quiz is refused with the ledger unchanged |
| UserQuizProperties.StartQuizPreservesInvariant | src/service/userquiz.go:33-60 | starting keeps attempt ids unique, one attempt per pair, distinct questions per attempt, and score equal to correct responses |
| UserQuizProperties.StartThenResults | src/service/userquiz.go:141-160 | the results right after a start are the attempt just started |
| UserQuizProperties.EffectPreservesInvariant | src/service/userquiz.go:110-135 | a submission's effect keeps the ledger invariants |
| UserQuizProperties.SubmitAnswerPreservesInvariant | src/service/userquiz.go:63-138 | every submission, failed or not, keeps the ledger invariants |
| UserQuizProperties.EffectRecordsAnswer | src/service/userquiz.go:124-126 | after a submission the attempt it went to holds an answer to the question |
| UserQuizProperties.SubmitSameQuestionTwice | src/service/userquiz.go:84-87 | answering the same question of the same attempt again fails and changes nothing |
| UserQuizProperties.AnsweredRejects | src/service/userquiz.go:242-250 | a submission to an already answered question fails and changes nothing |
| UserQuizProperties.EndedAtNeverCleared | src/service/userquiz.go:128-131 | an end stamp, once set, is never changed by a submission |
| UserQuizProperties.EffectKeepsStampedComplete | src/service/userquiz.go:122-135 | when the request names the attempt's own quiz, every stamped attempt whose quiz exists still holds one response per question of that quiz after the submission's effect |
| UserQuizProperties.SubmitAnswerKeepsStampedComplete | src/service/userquiz.go:63-138 | a submission whose request names the attempt's own quiz keeps "stamped only when every question of the attempt's quiz is answered" |
| UserQuizProperties.StartQuizKeepsStampedComplete | src/service/userquiz.go:33-60 | a start whose request has no end stamp, as both start handlers build it, keeps "stamped only when every question of the attempt's quiz is answered" |
| UserQuizProperties.CrossQuizAccepted | src/service/userquiz.go:64-108 | an answer to an attempt on quiz A that names quiz B and B's question passes every check, because the question is looked up in the request's quiz |
| UserQuizProperties.CrossQuizEffect | src/service/userquiz.go:93-131 | that submission's effect stamps the attempt on the two-question quiz A after its first response |
| UserQuizProperties.StampedAfterOneOfTwo | src/service/userquiz.go:93-131 | the submission is accepted and leaves a stamped attempt with one response on a two-question quiz, so "stamped only when complete" fails |
| UserQuizProperties.EndedAttemptRejects | src/service/userquiz.go:259-261 | once ended, every submission to the attempt fails with "cannot answer questions after quiz has ended" and changes nothing |
| UserQuizProperties.OverdueAttemptRejects | src/service/userquiz.go:268-270 | past the time limit of the attempt's quiz every submission fails with "maximum time exceeded for this quiz", changing nothing and setting no end stamp |
| LegacyUserQuiz.StartQuiz | src/controllers/userquiz.go:32-57 | the same refusals as the service start; otherwise one attempt with the fresh id and zero score is appended, with the request's start time |
| LegacyUserQuiz.CommitLedger | src/controllers/userquiz.go:101-114 | the score bump and the append together give the first matching attempt one response and the point, and every other attempt at most the bump |
| LegacyUserQuiz.CommitEffect | src/controllers/userquiz.go:101-114 | the legacy writes have exactly the effect `AnswerEffect` describes: one response, one point when correct, no end stamp |
| LegacyUserQuiz.SubmitAnswer | src/controllers/userquiz.go:60-121 | fails exactly with the first failing legacy check, leaving the database unchanged; otherwise records the answer and returns the stored response |
| LegacyProperties.StartAgreesWithService | src/controllers/userquiz.go:32-57 | both starts refuse the same requests with the same error; accepted starts differ only in the start time |
| LegacyProperties.FailureAgreesWithService | src/controllers/userquiz.go:60-99 | the legacy checks are the service checks without the timing gate and the correct-option lookup |
| LegacyProperties.NoTimeGate | src/controllers/userquiz.go:60-99 | an attempt that is ended or past its time still takes answers when the answer checks pass |
| LegacyProperties.StartPreservesInvariant | src/controllers/userquiz.go:32-57 | the legacy start keeps the ledger invariants |
| LegacyProperties.EffectPreservesInvariant | src/controllers/userquiz.go:101-114 | the legacy effect keeps the ledger invariants |
| LegacyProperties.SubmitAnswerPreservesInvariant | src/controllers/userquiz.go:60-121 | every legacy submission keeps the ledger invariants |
| LegacyProperties.NeverStampsEnd | src/controllers/userquiz.go:106-114 | the legacy submission never changes an end stamp |
| LegacyQuiz.Create | src/controllers/quiz.go:31-43 | the same refusal as the service; otherwise the linked quiz with trimmed title and the time limit as given is appended, keeping every question text and every option's answer and flag in order under the fresh ids |
| LegacyQuiz.GetQuiz | src/controllers/quiz.go:46-65 | fails with "quiz not found" exactly for unknown ids; otherwise the copy of the first quiz with the id |
| LegacyQuiz.CreateAgreesWithService | src/controllers/quiz.go:31-43 | the service creation equals the legacy one on a request whose zero limit is defaulted; on a non-zero limit they coincide |
| LegacyQuiz.GetQuizAgreesWithService | src/controllers/quiz.go:46-65 | both lookups return the same result |
| LegacyQuiz.ZeroLimitKept | src/controllers/quiz.go:31-43 | the legacy path stores a zero limit where the service stores 2, and a zero limit is exceeded as soon as any time passes |
| LegacyUser.Register | src/controllers/user.go:29-61 | a taken username is refused with the store unchanged; a successful hash appends the trimmed user with the hash and fresh id |
| LegacyUser.Login | src/controllers/user.go:64-90 | an unknown username fails with the shared message; a success echoes the matched user |
| LegacyUser.RegisterAgreesWithService | src/controllers/user.go:29-61 | the legacy registration equals the service one on every input |
| LegacyUser.LoginAgreesWithService | src/controllers/user.go:64-90 | the legacy login equals the service one on every input |
| Seed.DummyOptions | src/db/db.go:64-96 | four options Paris, Delhi, London, New York, linked to the question, only Paris flagged correct |
| Seed.DummyQuestions | src/db/db.go:40-62 | two questions with their texts, linked to the quiz, each with the dummy options |
| Seed.NewDatabase | src/db/db.go:17-119 | one linked quiz "Sample Quiz" with the fixed id, limit 1 and two questions of four options with only the first correct; two users, the first with the fixed id; no attempts |
| Scenarios.SeedStart | src/service/userquiz.go:33-60 | on the seeded database either user can start the sample quiz, and the ledger then holds exactly that attempt |
| Scenarios.EmptyLedgerStart | src/service/userquiz.go:33-60 | on an empty ledger a known user's start at a known quiz stores exactly the request under the fresh id, start time and zero score, and returns it |
| Scenarios.SoleAttemptAnswer | src/service/userquiz.go:63-138 | on any database with one quiz and one open attempt within its limit, an answer naming a question and option of the quiz is recorded on that attempt and reveals the selected option when correct, otherwise the first option |
| Scenarios.AnswerStep | src/service/userquiz.go:63-138 | on a seeded database with one open attempt, an answer within the minute is accepted, scores for Paris only, completes on the second answer, and reveals Paris |
| Scenarios.CorrectFirstAnswer | src/service/userquiz.go:110-135 | starting and answering the first question with Paris scores 1 and leaves the attempt open |
| Scenarios.CompletingAnswer | src/service/userquiz.go:122-135 | answering the second question with Paris scores 2, stamps the end at that time, and the results read it back |
| Scenarios.SecondStartRefused | src/service/userquiz.go:45-50 | a second start by user one is refused with the ledger unchanged |
| Scenarios.ExpiredAttemptRefused | src/service/userquiz_test.go:119-148 | after more than one minute every answer is refused for time, with the attempt unchanged |
| Scenarios.RepeatedAnswerRefused | src/service/userquiz.go:84-87 | answering the first question again, with any option, is refused with the ledger unchanged |
| Scenarios.WrongAnswerRevealsParis | src/service/userquiz.go:110-120 | choosing Delhi stores an incorrect response without a point and reveals Paris |
| Scenarios.AnswerIntoOthersAttempt | src/service/userquiz.go:232-239 | user two's answer is filed into user one's attempt and scores there |

## Left out

- The HTTP layer, routes, server and request parsing (`src/controller`,
  `src/routes`, `src/server`, `src/main.go`) are not part of this model.
  The request handlers clear the response's correctness flag. The lemmas
  that depend on this state it as a precondition.
- Password hashing, password comparison and JWT issuing are opaque function
  parameters. `src/security` is not part of this model.
- `uuid.New`, `time.Now` and `time.Since` are parameters. Fresh identifiers
  carry a freshness precondition. One clock reading per call stands for
  both the `time.Since` check (`src/service/userquiz.go:268`) and the later
  `time.Now()` end stamp (`src/service/userquiz.go:129`).
- Go's Unicode `strings.TrimSpace`, `strings.EqualFold`/`ToLower` and
  `regexp` are reduced to ASCII: ASCII white space, ASCII letters and ASCII
  lower-casing. Byte length equals character count.
- Nil and empty slices are not distinguished.
- Pointer and range-variable aliasing is not modelled. Lookups return
  values.
- The legacy `GetQuiz` JSON round trip (`src/controllers/quiz.go:53-54`) is
  not modelled, because its result is overwritten at line 55.
- Debug printing, concurrency and the stale model stubs are not modelled.
  The stubs are the quiz, question and option validators, `src/db/init.go`
  and the model tests.
- A failed `Create` still leaves the trimmed title in the caller's struct.
  That caller-visible mutation is not modelled. The same applies to the
  trimmed fields of a failed `Register`.
- UserQuizService.IsQuizCompleted: the `uint64` multiplication
  `MaxTime * time.Minute` and the `Duration` conversion are computed without
  overflow, so very large limits never wrap.
- UserQuizService.SubmitAnswer: `TotalScore` is an unbounded natural rather
  than a `uint32` that could wrap.
- UserQuizProperties.StartQuizPreservesInvariant: requires a start request
  without responses. `StartQuiz` stores whatever its argument carries, but
  both start handlers (`src/controller/userquiz.go:38-51`,
  `src/routes/userquiz.go:37-50`) pass an attempt holding only the user and
  quiz ids, so the precondition holds at every call site.
- UserQuizProperties.SubmitAnswerPreservesInvariant: requires the request's
  correctness flag to be clear. A request already marked correct is stored
  correct without a point.
- LegacyProperties.SubmitAnswerPreservesInvariant: requires the request's
  correctness flag to be clear, for the same reason.
- The ledger-wide invariant "an attempt is stamped exactly when every
  question of its quiz is answered" is not promised. A request naming
  another quiz breaks it (`UserQuizProperties.StampedAfterOneOfTwo`). An
  attempt on a quiz with no questions is complete but never stamped. So
  only the direction "stamped implies complete" is proved: submissions
  naming the attempt's own quiz keep it, and so do starts, whose handlers
  always pass an attempt without an end stamp
  (`UserQuizProperties.StartQuizKeepsStampedComplete`).
- LegacyUser.Register: states agreement with the service registration
  instead of repeating each clause of its contract.
- LegacyUser.Login: states agreement with the service login instead of
  repeating each clause of its contract.
