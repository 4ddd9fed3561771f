/** The attempt engine: starting a quiz, submitting answers under a time
    limit with scoring and completion stamping, and reading results. */
module UserQuizService {
  import opened Wrappers
  import opened Models
  import opened Ledger
  import opened ForeignKey

  const QuizEnded := "cannot answer questions after quiz has ended"
  const TimeExceeded := "maximum time exceeded for this quiz"
  const NotAttempted := "user not attempted specified quiz"

  /** More than `maxTime` minutes separate the start from `now`; a clock
      reading before the start never counts as overdue. */
  predicate Overdue(startedAt: nat, now: nat, maxTime: nat) {
    now - startedAt > maxTime * NanosPerMinute
  }

  // Starting.

  /** Starts an attempt: an unknown user, then an unknown quiz, then an
      existing attempt for the pair is refused with the ledger unchanged;
      otherwise the request is appended with a fresh identifier, a zero
      score and the start time. */
  function StartQuiz(db: Database, req: UserQuizAttempt, attemptId: Id, now: nat): (s: Step<Database, UserQuizAttempt>)
    requires !KnownAttempt(db, attemptId)
    ensures s.out.Err? ==> s.state == db
    ensures !KnownUser(db, req.userId) ==> s.out == Err(Failure(UserNotFound))
    ensures KnownUser(db, req.userId) && !KnownQuiz(db, req.quizId) ==> s.out == Err(Failure(QuizNotFound))
    ensures KnownUser(db, req.userId) && KnownQuiz(db, req.quizId) && Attempted(db, req.userId, req.quizId) ==>
              s.out == Err(Failure(AlreadyAttempted))
    ensures s.out.Ok? <==> KnownUser(db, req.userId) && KnownQuiz(db, req.quizId) && !Attempted(db, req.userId, req.quizId)
    ensures s.out.Ok? ==>
              && s.state == db.(attempts := db.attempts + [s.out.value])
              && s.out.value.id == attemptId
              && s.out.value.totalScore == 0
              && s.out.value.startedAt == Value(now)
              && s.out.value == req.(id := attemptId, startedAt := Value(now), totalScore := 0)
  {
    match DoesUserIdExist(db, req.userId)
    case Fail(e) => Step(db, Err(e))
    case Pass =>
      match DoesQuizIdExist(db, req.quizId)
      case Fail(e) => Step(db, Err(e))
      case Pass =>
        if PairIndex(db.attempts, req.userId, req.quizId) < |db.attempts| then
          Step(db, Err(Failure(AlreadyAttempted)))
        else
          var attempt := req.(id := attemptId, startedAt := Value(now), totalScore := 0);
          Step(db.(attempts := db.attempts + [attempt]), Ok(attempt))
  }

  // Submitting.

  /** The checks of isQuizCompleted on a located attempt, in order: already
      ended, the attempt's own quiz missing, no start time (a nil
      dereference), time limit of the attempt's quiz exceeded. */
  function TimingFailure(db: Database, a: UserQuizAttempt, now: nat): Nullable<Error> {
    if a.endedAt.Value? then Value(Failure(QuizEnded))
    else if !KnownQuiz(db, a.quizId) then Value(Failure(QuizNotFound))
    else if a.startedAt.Null? then Value(NilDereference)
    else if Overdue(a.startedAt.get, now, QuizWithId(db, a.quizId).maxTime) then Value(Failure(TimeExceeded))
    else Null
  }

  function IsQuizCompleted(db: Database, attemptId: Id, now: nat): (o: Outcome)
    ensures !KnownAttempt(db, attemptId) ==> o == Fail(Failure(NotStarted))
    ensures KnownAttempt(db, attemptId) ==>
              && (o.Fail? <==> TimingFailure(db, AttemptWithId(db, attemptId), now).Value?)
              && (o.Fail? ==> o.error == TimingFailure(db, AttemptWithId(db, attemptId), now).get)
  {
    match GetUserQuiz(db, attemptId)
    case Err(e) => Fail(e)
    case Ok(a) =>
      if a.endedAt.Value? then Fail(Failure(QuizEnded))
      else
        match GetQuizById(db, a.quizId)
        case Err(e) => Fail(e)
        case Ok(quiz) =>
          match a.startedAt
          case Null => Fail(NilDereference)
          case Value(t) => if Overdue(t, now, quiz.maxTime) then Fail(Failure(TimeExceeded)) else Pass
  }

  /** The first failing check of SubmitAnswer, in the order the service runs
      them: user, quiz, attempt started, the timing checks, the answer
      checks, and for an incorrect answer the lookup of the correct option. */
  function SubmitFailure(db: Database, req: UserResponse, now: nat): Nullable<Error> {
    if !KnownUser(db, req.userId) then Value(Failure(UserNotFound))
    else if !KnownQuiz(db, req.quizId) then Value(Failure(QuizNotFound))
    else if !KnownAttempt(db, req.attemptId) then Value(Failure(NotStarted))
    else if TimingFailure(db, AttemptWithId(db, req.attemptId), now).Value? then
      TimingFailure(db, AttemptWithId(db, req.attemptId), now)
    else if AnswerFailure(db, AttemptWithId(db, req.attemptId), req).Value? then
      AnswerFailure(db, AttemptWithId(db, req.attemptId), req)
    else if SelectedOption(db, req).isCorrect == Value(false)
            && GetCorrectOption(SelectedQuestion(db, req).options).Err? then
      Value(GetCorrectOption(SelectedQuestion(db, req).options).error)
    else Null
  }

  /** `o` is the first option flagged correct, every option before it being
      flagged incorrect. */
  predicate FirstFlaggedCorrect(options: seq<Option>, o: Option) {
    && o.isCorrect == Value(true)
    && exists k :: 0 <= k < |options| && options[k] == o
                   && forall j :: 0 <= j < k ==> options[j].isCorrect == Value(false)
  }

  /** The outcome of the checks: what was located and the option revealed to
      the caller. */
  datatype Graded = Graded(located: Located, revealed: Option)

  function Grade(db: Database, req: UserResponse, now: nat): (r: Result<Graded>)
    ensures r.Err? <==> SubmitFailure(db, req, now).Value?
    ensures r.Err? ==> r.error == SubmitFailure(db, req, now).get
    ensures r.Ok? ==> AnswerResolves(db, req)
    ensures r.Ok? ==>
              && KnownUser(db, req.userId)
              && AttemptWithId(db, req.attemptId).endedAt.Null?
              && r.value.located.quiz == QuizWithId(db, req.quizId)
              && r.value.located.question == SelectedQuestion(db, req)
              && r.value.located.selected == SelectedOption(db, req)
              && (r.value.located.correct <==> SelectedOption(db, req).isCorrect == Value(true))
              && (r.value.located.correct ==> r.value.revealed == r.value.located.selected)
              && (r.value.located.correct ==> r.value.revealed.isCorrect == Value(true))
              && (!r.value.located.correct ==> FirstFlaggedCorrect(SelectedQuestion(db, req).options, r.value.revealed))
  {
    match DoesUserIdExist(db, req.userId)
    case Fail(e) => Err(e)
    case Pass =>
      match DoesQuizIdExist(db, req.quizId)
      case Fail(e) => Err(e)
      case Pass =>
        match IsQuizCompleted(db, req.attemptId, now)
        case Fail(e) => Err(e)
        case Pass =>
          match GetUserQuiz(db, req.attemptId)
          case Err(e) => Err(e)
          case Ok(attempt) =>
            match Locate(db, attempt, req)
            case Err(e) => Err(e)
            case Ok(loc) =>
              if loc.correct then Ok(Graded(loc, loc.selected))
              else
                match GetCorrectOption(loc.question.options)
                case Err(e) => Err(e)
                case Ok(c) => Ok(Graded(loc, c))
  }

  /** The writes of a successful submission, in the service's order: the
      score of every attempt with the identifier rises when the answer is
      correct, the response is appended to the first such attempt, and that
      attempt is stamped ended once its response count equals the question
      count of the request's quiz. */
  function Commit(db: Database, req: UserResponse, responseId: Id, now: nat, g: Graded): Database {
    var scored := if g.located.correct then UpdateUserQuizScore(db.attempts, req.attemptId) else db.attempts;
    var appended := AppendResponse(scored, req.attemptId, Recorded(req, responseId, g.located.correct));
    db.(attempts := StampCompletion(appended, req.attemptId, |g.located.quiz.questions|, now))
  }

  /** Sets the end stamp of the first attempt with the identifier when its
      response count equals `questionCount`. */
  function StampCompletion(ledger: seq<UserQuizAttempt>, attemptId: Id, questionCount: nat, now: nat): (r: seq<UserQuizAttempt>)
    ensures |r| == |ledger|
    ensures forall i :: 0 <= i < |ledger| && i != AttemptIndex(ledger, attemptId) ==> r[i] == ledger[i]
    ensures AttemptIndex(ledger, attemptId) < |ledger| ==>
              var k := AttemptIndex(ledger, attemptId);
              r[k] == ledger[k].(endedAt := if questionCount == |ledger[k].responses| then Value(now) else ledger[k].endedAt)
  {
    var k := AttemptIndex(ledger, attemptId);
    if k < |ledger| && questionCount == |ledger[k].responses| then ledger[k := ledger[k].(endedAt := Value(now))]
    else ledger
  }

  /** What a successful submission does to the ledger, stated against the
      attempt `k` the identifier first matches: attempt `k` gains exactly
      the response `r`, one point when `correct`, and the end stamp when its
      responses now number `questionCount`; any other attempt changes only
      by the score bump every attempt with the same identifier gets. */
  predicate LedgerEffect(ledger: seq<UserQuizAttempt>, ledger': seq<UserQuizAttempt>, id: Id, r: UserResponse,
                         correct: bool, questionCount: nat, now: nat)
    requires AttemptIndex(ledger, id) < |ledger|
  {
    var k := AttemptIndex(ledger, id);
    var bump := if correct then 1 else 0;
    var responses := ledger[k].responses + [r];
    && |ledger'| == |ledger|
    && ledger'[k] == ledger[k].(responses := responses, totalScore := ledger[k].totalScore + bump,
                                endedAt := if |responses| == questionCount then Value(now) else ledger[k].endedAt)
    && (forall i :: 0 <= i < |ledger| && i != k ==>
          ledger'[i] == if ledger[i].id == id then ledger[i].(totalScore := ledger[i].totalScore + bump)
                        else ledger[i])
  }

  /** What a successful submission does to the database: catalog and users
      are untouched, and the ledger changes as LedgerEffect says, with the
      response recorded under `responseId`, the point going by the selected
      option's flag, and the question count taken from the request's quiz. */
  predicate SubmissionEffect(db: Database, db': Database, req: UserResponse, responseId: Id, now: nat)
    requires AnswerResolves(db, req)
  {
    var correct := SelectedOption(db, req).isCorrect == Value(true);
    && db'.quizzes == db.quizzes
    && db'.users == db.users
    && LedgerEffect(db.attempts, db'.attempts, req.attemptId, Recorded(req, responseId, correct), correct,
                    |QuizWithId(db, req.quizId).questions|, now)
  }

  /** The three ledger writes together have the effect LedgerEffect
      describes. */
  lemma CommitLedger(ledger: seq<UserQuizAttempt>, id: Id, r: UserResponse, correct: bool, questionCount: nat, now: nat)
    requires AttemptIndex(ledger, id) < |ledger|
    ensures var scored := if correct then UpdateUserQuizScore(ledger, id) else ledger;
            LedgerEffect(ledger, StampCompletion(AppendResponse(scored, id, r), id, questionCount, now),
                         id, r, correct, questionCount, now)
  {
    var k := AttemptIndex(ledger, id);
    var bump := if correct then 1 else 0;
    var scored := if correct then UpdateUserQuizScore(ledger, id) else ledger;
    assert |scored| == |ledger|;
    assert forall i :: 0 <= i < |ledger| ==>
      scored[i] == if ledger[i].id == id then ledger[i].(totalScore := ledger[i].totalScore + bump) else ledger[i];
    AttemptIndexStable(ledger, scored, id);
    var appended := AppendResponse(scored, id, r);
    AttemptIndexStable(scored, appended, id);
    assert appended[k] == scored[k].(responses := scored[k].responses + [r]);
    assert forall i :: 0 <= i < |ledger| && i != k ==> appended[i] == scored[i];
  }

  lemma CommitEffect(db: Database, req: UserResponse, responseId: Id, now: nat, g: Graded)
    requires AnswerResolves(db, req)
    requires g.located.quiz == QuizWithId(db, req.quizId)
    requires g.located.correct <==> SelectedOption(db, req).isCorrect == Value(true)
    ensures SubmissionEffect(db, Commit(db, req, responseId, now, g), req, responseId, now)
  {
    assert AttemptIndex(db.attempts, req.attemptId) < |db.attempts|;
    CommitLedger(db.attempts, req.attemptId, Recorded(req, responseId, g.located.correct), g.located.correct,
                 |g.located.quiz.questions|, now);
  }

  /** Submits one answer. The first failing check is reported and the
      database is left as it was; otherwise the answer is recorded as
      SubmissionEffect describes, and the option returned is the selected
      one when it is correct, else the first option flagged correct. */
  function SubmitAnswer(db: Database, req: UserResponse, responseId: Id, now: nat): (s: Step<Database, Option>)
    requires FreshResponseId(db, responseId)
    ensures s.out.Err? <==> SubmitFailure(db, req, now).Value?
    ensures s.out.Err? ==> s.state == db && s.out.error == SubmitFailure(db, req, now).get
    ensures s.out.Ok? ==>
              && AnswerResolves(db, req)
              && AttemptWithId(db, req.attemptId).endedAt.Null?
              && !Answered(AttemptWithId(db, req.attemptId), req.questionId)
    ensures s.out.Ok? ==> SubmissionEffect(db, s.state, req, responseId, now)
    ensures s.out.Ok? && SelectedOption(db, req).isCorrect == Value(true) ==> s.out.value == SelectedOption(db, req)
    ensures s.out.Ok? && SelectedOption(db, req).isCorrect != Value(true) ==>
              FirstFlaggedCorrect(SelectedQuestion(db, req).options, s.out.value)
  {
    match Grade(db, req, now)
    case Err(e) => Step(db, Err(e))
    case Ok(g) =>
      CommitEffect(db, req, responseId, now, g);
      Step(Commit(db, req, responseId, now, g), Ok(g.revealed))
  }

  // Reading results.

  /** Returns the first attempt of the user at the quiz, after checking that
      both exist; never creates one. */
  function GetUserQuizResults(db: Database, userId: Id, quizId: Id): (r: Result<UserQuizAttempt>)
    ensures !KnownUser(db, userId) ==> r == Err(Failure(UserNotFound))
    ensures KnownUser(db, userId) && !KnownQuiz(db, quizId) ==> r == Err(Failure(QuizNotFound))
    ensures KnownUser(db, userId) && KnownQuiz(db, quizId) && !Attempted(db, userId, quizId) ==>
              r == Err(Failure(NotAttempted))
    ensures r.Ok? <==> KnownUser(db, userId) && KnownQuiz(db, quizId) && Attempted(db, userId, quizId)
    ensures r.Ok? ==> r.value.userId == userId && r.value.quizId == quizId
                      && r.value == db.attempts[PairIndex(db.attempts, userId, quizId)]
  {
    match DoesUserIdExist(db, userId)
    case Fail(e) => Err(e)
    case Pass =>
      match DoesQuizIdExist(db, quizId)
      case Fail(e) => Err(e)
      case Pass =>
        var k := PairIndex(db.attempts, userId, quizId);
        if k < |db.attempts| then Ok(db.attempts[k]) else Err(Failure(NotAttempted))
  }
}
