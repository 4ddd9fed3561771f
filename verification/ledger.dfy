/** The attempt ledger: the lookups and updates both attempt engines run,
    the checks they share on a submitted answer, and the invariants the
    ledger is meant to keep. */
module Ledger {
  import opened Wrappers
  import opened Models
  import ForeignKey

  const NotStarted := "please start quiz before submitting answers"
  const AlreadyAnswered := "question already answered"
  const QuestionNotInQuiz := "question not found for specified quiz"
  const QuestionNotFound := "question not found"
  const OptionNotFound := "option not found"
  const CorrectOptionNotFound := "correct option not found"
  const AlreadyAttempted := "user has already attempted this quiz"

  function QuestionWithId(quiz: Quiz, id: Id): Question
    requires HasQuestion(quiz, id)
  {
    quiz.questions[QuestionIndex(quiz.questions, id)]
  }

  function OptionWithId(question: Question, id: Id): Option
    requires HasOption(question, id)
  {
    question.options[OptionIndex(question.options, id)]
  }

  function GetQuizById(db: Database, id: Id): (r: Result<Quiz>)
    ensures r.Ok? <==> KnownQuiz(db, id)
    ensures r.Ok? ==> r.value == QuizWithId(db, id) && r.value.id == id
    ensures r.Err? ==> r.error == Failure(ForeignKey.QuizNotFound)
  {
    var k := QuizIndex(db.quizzes, id);
    if k < |db.quizzes| then Ok(db.quizzes[k]) else Err(Failure(ForeignKey.QuizNotFound))
  }

  function GetQuestionById(quiz: Quiz, id: Id): (r: Result<Question>)
    ensures r.Ok? <==> HasQuestion(quiz, id)
    ensures r.Ok? ==> r.value == QuestionWithId(quiz, id) && r.value.id == id
    ensures r.Err? ==> r.error == Failure(QuestionNotFound)
  {
    var k := QuestionIndex(quiz.questions, id);
    if k < |quiz.questions| then Ok(quiz.questions[k]) else Err(Failure(QuestionNotFound))
  }

  function GetOptionById(question: Question, id: Id): (r: Result<Option>)
    ensures r.Ok? <==> HasOption(question, id)
    ensures r.Ok? ==> r.value == OptionWithId(question, id) && r.value.id == id
    ensures r.Err? ==> r.error == Failure(OptionNotFound)
  {
    var k := OptionIndex(question.options, id);
    if k < |question.options| then Ok(question.options[k]) else Err(Failure(OptionNotFound))
  }

  /** The scan for the option flagged correct: it dereferences each flag in
      turn, so a nil flag met before a true one panics, and a list with no
      true flag reports that no correct option exists. */
  function GetCorrectOption(options: seq<Option>): (r: Result<Option>)
    ensures r.Ok? ==> exists k :: 0 <= k < |options| && options[k] == r.value
                                  && (forall j :: 0 <= j < k ==> options[j].isCorrect == Value(false))
    ensures r.Ok? ==> r.value.isCorrect == Value(true)
    ensures r == Err(Failure(CorrectOptionNotFound)) <==>
              forall j :: 0 <= j < |options| ==> options[j].isCorrect == Value(false)
    ensures r.Err? ==> r.error == Failure(CorrectOptionNotFound) || r.error == NilDereference
    ensures r == Err(NilDereference) <==>
              exists k :: 0 <= k < |options| && options[k].isCorrect.Null?
                          && forall j :: 0 <= j < k ==> options[j].isCorrect == Value(false)
    decreases |options|
  {
    if |options| == 0 then Err(Failure(CorrectOptionNotFound))
    else match options[0].isCorrect
      case Null => Err(NilDereference)
      case Value(b) =>
        if b then Ok(options[0])
        else
          var r := GetCorrectOption(options[1..]);
          assert forall k :: 1 <= k < |options| ==> options[k] == options[1..][k - 1];
          r
  }

  /** Passes exactly when the quiz exists and has the question. */
  function DoesQuestionExistForQuiz(db: Database, quizId: Id, questionId: Id): (o: Outcome)
    ensures !KnownQuiz(db, quizId) ==> o == Fail(Failure(ForeignKey.QuizNotFound))
    ensures KnownQuiz(db, quizId) ==>
              (o.Pass? <==> HasQuestion(QuizWithId(db, quizId), questionId))
              && (o.Fail? ==> o.error == Failure(QuestionNotInQuiz))
  {
    match GetQuizById(db, quizId)
    case Err(e) => Fail(e)
    case Ok(quiz) =>
      if QuestionIndex(quiz.questions, questionId) < |quiz.questions| then Pass
      else Fail(Failure(QuestionNotInQuiz))
  }

  /** The attempt with the identifier, looked up by identifier alone. */
  function GetUserQuiz(db: Database, attemptId: Id): (r: Result<UserQuizAttempt>)
    ensures r.Ok? <==> KnownAttempt(db, attemptId)
    ensures r.Ok? ==> r.value == AttemptWithId(db, attemptId) && r.value.id == attemptId
    ensures r.Err? ==> r.error == Failure(NotStarted)
  {
    var k := AttemptIndex(db.attempts, attemptId);
    if k < |db.attempts| then Ok(db.attempts[k]) else Err(Failure(NotStarted))
  }

  function IsQuestionAnswered(attempt: UserQuizAttempt, questionId: Id): (o: Outcome)
    ensures o.Pass? <==> !Answered(attempt, questionId)
    ensures o.Fail? ==> o.error == Failure(AlreadyAnswered)
  {
    if AnsweredIndex(attempt.responses, questionId) < |attempt.responses| then Fail(Failure(AlreadyAnswered))
    else Pass
  }

  /** Adds one to the score of every attempt carrying the identifier. */
  function UpdateUserQuizScore(ledger: seq<UserQuizAttempt>, attemptId: Id): (r: seq<UserQuizAttempt>)
    ensures |r| == |ledger|
    ensures forall i :: 0 <= i < |ledger| && ledger[i].id != attemptId ==> r[i] == ledger[i]
    ensures forall i :: 0 <= i < |ledger| && ledger[i].id == attemptId ==>
              r[i] == ledger[i].(totalScore := ledger[i].totalScore + 1)
  {
    seq(|ledger|, i requires 0 <= i < |ledger| =>
      if ledger[i].id == attemptId then ledger[i].(totalScore := ledger[i].totalScore + 1) else ledger[i])
  }

  /** Appends the response to the first attempt carrying the identifier. */
  function AppendResponse(ledger: seq<UserQuizAttempt>, attemptId: Id, response: UserResponse): (r: seq<UserQuizAttempt>)
    ensures |r| == |ledger|
    ensures forall i :: 0 <= i < |ledger| && i != AttemptIndex(ledger, attemptId) ==> r[i] == ledger[i]
    ensures AttemptIndex(ledger, attemptId) < |ledger| ==>
              var k := AttemptIndex(ledger, attemptId);
              r[k] == ledger[k].(responses := ledger[k].responses + [response])
  {
    var k := AttemptIndex(ledger, attemptId);
    if k < |ledger| then ledger[k := ledger[k].(responses := ledger[k].responses + [response])] else ledger
  }

  /** Rewriting attempts without touching their identifiers does not move
      the first match for an identifier. */
  lemma AttemptIndexStable(ledger: seq<UserQuizAttempt>, ledger': seq<UserQuizAttempt>, id: Id)
    requires |ledger'| == |ledger|
    requires forall i :: 0 <= i < |ledger| ==> ledger'[i].id == ledger[i].id
    ensures AttemptIndex(ledger', id) == AttemptIndex(ledger, id)
  {
    var k, k' := AttemptIndex(ledger, id), AttemptIndex(ledger', id);
    if k < k' {
      assert ledger'[k].id == id;
    }
  }

  // Checks both engines run on the answer once the attempt is located.

  /** What the answer checks establish: the quiz named by the request, the
      question in it, the selected option, and that option's flag. */
  datatype Located = Located(quiz: Quiz, question: Question, selected: Option, correct: bool)

  /** The first of the answer checks that fails, stated over the
      existence predicates: question already answered in the attempt,
      question not in the request's quiz, option not in the question, and
      a nil correctness flag on the selected option. */
  function AnswerFailure(db: Database, attempt: UserQuizAttempt, req: UserResponse): Nullable<Error>
    requires KnownQuiz(db, req.quizId)
  {
    if Answered(attempt, req.questionId) then Value(Failure(AlreadyAnswered))
    else if !HasQuestion(QuizWithId(db, req.quizId), req.questionId) then Value(Failure(QuestionNotInQuiz))
    else if !HasOption(QuestionWithId(QuizWithId(db, req.quizId), req.questionId), req.selectedOptionId) then
      Value(Failure(OptionNotFound))
    else if OptionWithId(QuestionWithId(QuizWithId(db, req.quizId), req.questionId), req.selectedOptionId).isCorrect.Null? then
      Value(NilDereference)
    else Null
  }

  /** The answer checks: isQuestionAnswered, doesQuestionExistForQuiz, then
      the quiz, question and option lookups and the flag dereference. */
  function Locate(db: Database, attempt: UserQuizAttempt, req: UserResponse): (r: Result<Located>)
    requires KnownQuiz(db, req.quizId)
    ensures r.Err? <==> AnswerFailure(db, attempt, req).Value?
    ensures r.Err? ==> r.error == AnswerFailure(db, attempt, req).get
    ensures r.Ok? ==>
              && !Answered(attempt, req.questionId)
              && r.value.quiz == QuizWithId(db, req.quizId)
              && HasQuestion(r.value.quiz, req.questionId)
              && r.value.question == QuestionWithId(r.value.quiz, req.questionId)
              && HasOption(r.value.question, req.selectedOptionId)
              && r.value.selected == OptionWithId(r.value.question, req.selectedOptionId)
              && r.value.selected.isCorrect == Value(r.value.correct)
  {
    match IsQuestionAnswered(attempt, req.questionId)
    case Fail(e) => Err(e)
    case Pass =>
      match DoesQuestionExistForQuiz(db, req.quizId, req.questionId)
      case Fail(e) => Err(e)
      case Pass =>
        match GetQuizById(db, req.quizId)
        case Err(e) => Err(e)
        case Ok(quiz) =>
          match GetQuestionById(quiz, req.questionId)
          case Err(e) => Err(e)
          case Ok(question) =>
            match GetOptionById(question, req.selectedOptionId)
            case Err(e) => Err(e)
            case Ok(option) =>
              match option.isCorrect
              case Null => Err(NilDereference)
              case Value(b) => Ok(Located(quiz, question, option, b))
  }

  /** The request names a known attempt and quiz, a question of that quiz,
      and an option of that question. */
  predicate AnswerResolves(db: Database, req: UserResponse) {
    && KnownAttempt(db, req.attemptId)
    && KnownQuiz(db, req.quizId)
    && HasQuestion(QuizWithId(db, req.quizId), req.questionId)
    && HasOption(QuestionWithId(QuizWithId(db, req.quizId), req.questionId), req.selectedOptionId)
  }

  function SelectedQuestion(db: Database, req: UserResponse): Question
    requires AnswerResolves(db, req)
  {
    QuestionWithId(QuizWithId(db, req.quizId), req.questionId)
  }

  function SelectedOption(db: Database, req: UserResponse): Option
    requires AnswerResolves(db, req)
  {
    OptionWithId(SelectedQuestion(db, req), req.selectedOptionId)
  }

  /** No response anywhere on the ledger carries the identifier. */
  predicate FreshResponseId(db: Database, id: Id) {
    forall i, j :: 0 <= i < |db.attempts| && 0 <= j < |db.attempts[i].responses| ==>
      db.attempts[i].responses[j].id != id
  }

  /** The response as stored: the request with its fresh identifier, marked
      correct when the selected option is; a request already marked correct
      stays so. */
  function Recorded(req: UserResponse, id: Id, correct: bool): UserResponse {
    req.(id := id, isCorrect := correct || req.isCorrect)
  }

  // Invariants.

  function CountCorrect(rs: seq<UserResponse>): (n: nat)
    ensures n <= |rs|
  {
    if |rs| == 0 then 0 else (if rs[0].isCorrect then 1 else 0) + CountCorrect(rs[1..])
  }

  /** Appending a response adds one to the count exactly when it is
      correct. */
  lemma {:induction false} CountCorrectAppend(rs: seq<UserResponse>, x: UserResponse)
    ensures CountCorrect(rs + [x]) == CountCorrect(rs) + (if x.isCorrect then 1 else 0)
    decreases |rs|
  {
    if |rs| == 0 {
      assert rs + [x] == [x];
      assert [x][1..] == [];
    } else {
      assert (rs + [x])[1..] == rs[1..] + [x];
      CountCorrectAppend(rs[1..], x);
    }
  }

  /** No two responses answer the same question. */
  predicate DistinctQuestions(rs: seq<UserResponse>) {
    forall i, j :: 0 <= i < j < |rs| ==> rs[i].questionId != rs[j].questionId
  }

  predicate UniqueAttemptIds(ledger: seq<UserQuizAttempt>) {
    forall i, j :: 0 <= i < j < |ledger| ==> ledger[i].id != ledger[j].id
  }

  /** At most one attempt per (user, quiz) pair. */
  predicate OnePerPair(ledger: seq<UserQuizAttempt>) {
    forall i, j :: 0 <= i < j < |ledger| ==>
      !(ledger[i].userId == ledger[j].userId && ledger[i].quizId == ledger[j].quizId)
  }

  /** The score of the attempt equals its number of correct responses. */
  predicate ScoreMatches(a: UserQuizAttempt) {
    a.totalScore == CountCorrect(a.responses)
  }

  predicate LedgerInvariant(ledger: seq<UserQuizAttempt>) {
    && UniqueAttemptIds(ledger)
    && OnePerPair(ledger)
    && (forall i :: 0 <= i < |ledger| ==> DistinctQuestions(ledger[i].responses) && ScoreMatches(ledger[i]))
  }
}
