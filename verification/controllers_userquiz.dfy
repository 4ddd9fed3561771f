/** The legacy attempt engine: the same ledger operations as the service
    engine without start times, time limit, end stamps or the lookup of the
    correct option. */
module LegacyUserQuiz {
  import opened Wrappers
  import opened Models
  import opened Ledger
  import opened ForeignKey

  /** Starts an attempt after the user, quiz and one-attempt-per-pair
      checks; the request is stored with a fresh identifier and a zero
      score, and its start time is kept as the caller sent it. */
  function StartQuiz(db: Database, req: UserQuizAttempt, attemptId: Id): (s: Step<Database, UserQuizAttempt>)
    requires !KnownAttempt(db, attemptId)
    ensures s.out.Err? ==> s.state == db
    ensures !KnownUser(db, req.userId) ==> s.out == Err(Failure(UserNotFound))
    ensures KnownUser(db, req.userId) && !KnownQuiz(db, req.quizId) ==> s.out == Err(Failure(QuizNotFound))
    ensures KnownUser(db, req.userId) && KnownQuiz(db, req.quizId) && Attempted(db, req.userId, req.quizId) ==>
              s.out == Err(Failure(AlreadyAttempted))
    ensures s.out.Ok? <==> KnownUser(db, req.userId) && KnownQuiz(db, req.quizId) && !Attempted(db, req.userId, req.quizId)
    ensures s.out.Ok? ==>
              && s.state == db.(attempts := db.attempts + [s.out.value])
              && s.out.value.id == attemptId
              && s.out.value.totalScore == 0
              && s.out.value.startedAt == req.startedAt
              && s.out.value == req.(id := attemptId, totalScore := 0)
  {
    match DoesUserIdExist(db, req.userId)
    case Fail(e) => Step(db, Err(e))
    case Pass =>
      match DoesQuizIdExist(db, req.quizId)
      case Fail(e) => Step(db, Err(e))
      case Pass =>
        if PairIndex(db.attempts, req.userId, req.quizId) < |db.attempts| then
          Step(db, Err(Failure(AlreadyAttempted)))
        else
          var attempt := req.(totalScore := 0, id := attemptId);
          Step(db.(attempts := db.attempts + [attempt]), Ok(attempt))
  }

  /** The first failing check of the legacy submission, in order: user,
      quiz, attempt started, then the answer checks. */
  function LegacyFailure(db: Database, req: UserResponse): Nullable<Error> {
    if !KnownUser(db, req.userId) then Value(Failure(UserNotFound))
    else if !KnownQuiz(db, req.quizId) then Value(Failure(QuizNotFound))
    else if !KnownAttempt(db, req.attemptId) then Value(Failure(NotStarted))
    else AnswerFailure(db, AttemptWithId(db, req.attemptId), req)
  }

  /** What a successful legacy submission does to the ledger: the attempt
      `k` the identifier first matches gains exactly the response `r` and
      one point when `correct`, its end stamp as it was; any other attempt
      changes only by the score bump every attempt with the same identifier
      gets. */
  predicate LedgerEffect(ledger: seq<UserQuizAttempt>, ledger': seq<UserQuizAttempt>, id: Id, r: UserResponse, correct: bool)
    requires AttemptIndex(ledger, id) < |ledger|
  {
    var k := AttemptIndex(ledger, id);
    var bump := if correct then 1 else 0;
    && |ledger'| == |ledger|
    && ledger'[k] == ledger[k].(responses := ledger[k].responses + [r], totalScore := ledger[k].totalScore + bump)
    && (forall i :: 0 <= i < |ledger| && i != k ==>
          ledger'[i] == if ledger[i].id == id then ledger[i].(totalScore := ledger[i].totalScore + bump)
                        else ledger[i])
  }

  /** What a successful legacy submission does to the database: catalog and
      users are untouched and the ledger changes as LedgerEffect says, the
      point going by the selected option's flag. */
  predicate AnswerEffect(db: Database, db': Database, req: UserResponse, responseId: Id)
    requires AnswerResolves(db, req)
  {
    var correct := SelectedOption(db, req).isCorrect == Value(true);
    && db'.quizzes == db.quizzes
    && db'.users == db.users
    && LedgerEffect(db.attempts, db'.attempts, req.attemptId, Recorded(req, responseId, correct), correct)
  }

  /** The legacy writes: the score bump on every attempt with the
      identifier when the answer is correct, then the append to the first. */
  function Commit(db: Database, req: UserResponse, responseId: Id, correct: bool): Database {
    var scored := if correct then UpdateUserQuizScore(db.attempts, req.attemptId) else db.attempts;
    db.(attempts := AppendResponse(scored, req.attemptId, Recorded(req, responseId, correct)))
  }

  /** The two legacy ledger writes together: the first attempt with the
      identifier gains the response and the point; every other attempt
      changes only by the score bump. */
  lemma CommitLedger(ledger: seq<UserQuizAttempt>, id: Id, r: UserResponse, correct: bool)
    requires AttemptIndex(ledger, id) < |ledger|
    ensures LedgerEffect(ledger, AppendResponse(if correct then UpdateUserQuizScore(ledger, id) else ledger, id, r),
                         id, r, correct)
  {
    var bump := if correct then 1 else 0;
    var scored := if correct then UpdateUserQuizScore(ledger, id) else ledger;
    assert forall i :: 0 <= i < |ledger| ==>
      scored[i] == if ledger[i].id == id then ledger[i].(totalScore := ledger[i].totalScore + bump) else ledger[i];
    AttemptIndexStable(ledger, scored, id);
  }

  lemma CommitEffect(db: Database, req: UserResponse, responseId: Id, correct: bool)
    requires AnswerResolves(db, req)
    requires correct <==> SelectedOption(db, req).isCorrect == Value(true)
    ensures AnswerEffect(db, Commit(db, req, responseId, correct), req, responseId)
  {
    assert AttemptIndex(db.attempts, req.attemptId) < |db.attempts|;
    CommitLedger(db.attempts, req.attemptId, Recorded(req, responseId, correct), correct);
  }

  /** Submits one answer. The first failing check is reported and the
      database is left as it was; otherwise the answer is recorded as
      AnswerEffect describes and the stored response is handed back. */
  function SubmitAnswer(db: Database, req: UserResponse, responseId: Id): (s: Step<Database, UserResponse>)
    requires FreshResponseId(db, responseId)
    ensures s.out.Err? <==> LegacyFailure(db, req).Value?
    ensures s.out.Err? ==> s.state == db && s.out.error == LegacyFailure(db, req).get
    ensures s.out.Ok? ==>
              && AnswerResolves(db, req)
              && !Answered(AttemptWithId(db, req.attemptId), req.questionId)
              && AnswerEffect(db, s.state, req, responseId)
              && s.out.value == Recorded(req, responseId, SelectedOption(db, req).isCorrect == Value(true))
  {
    match DoesUserIdExist(db, req.userId)
    case Fail(e) => Step(db, Err(e))
    case Pass =>
      match DoesQuizIdExist(db, req.quizId)
      case Fail(e) => Step(db, Err(e))
      case Pass =>
        match GetUserQuiz(db, req.attemptId)
        case Err(e) => Step(db, Err(e))
        case Ok(attempt) =>
          match Locate(db, attempt, req)
          case Err(e) => Step(db, Err(e))
          case Ok(loc) =>
            CommitEffect(db, req, responseId, loc.correct);
            Step(Commit(db, req, responseId, loc.correct), Ok(Recorded(req, responseId, loc.correct)))
  }
}
