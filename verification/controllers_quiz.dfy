/** The legacy quiz catalog: creation without the time-limit default, and
    lookup returning the key-stripped copy. */
module LegacyQuiz {
  import opened Wrappers
  import opened Ascii
  import opened Models
  import opened ObjectCopy
  import ForeignKey
  import opened QuizService
  import UserQuizService

  /** Creates a quiz: the title is trimmed, a title already present
      ignoring case is refused with the catalog unchanged, and the linked
      quiz is appended with its time limit exactly as given. */
  function Create(db: Database, quiz: Quiz, ids: QuizIds): (s: Step<Database, Quiz>)
    requires FitsShape(ids, quiz)
    requires !KnownQuiz(db, ids.quiz)
    ensures TitleExists(db, TrimSpace(quiz.title)) ==> s == Step(db, Err(Failure(TitleTaken)))
    ensures !TitleExists(db, TrimSpace(quiz.title)) ==>
              && s.out.Ok?
              && Appended(db, s.state, s.out.value)
              && s.out.value.id == ids.quiz
              && s.out.value.title == TrimSpace(quiz.title)
              && s.out.value.maxTime == quiz.maxTime
              && Linked(s.out.value)
              && KeepsContent(s.out.value, quiz, ids)
  {
    var title := TrimSpace(quiz.title);
    match CheckTitleExist(db, title)
    case Fail(e) => Step(db, Err(e))
    case Pass =>
      var created := AssignIds(quiz.(title := title), ids);
      Step(db.(quizzes := db.quizzes + [created]), Ok(created))
  }

  /** Looks a quiz up by identifier and returns its key-stripped copy. */
  function GetQuiz(db: Database, quizId: Id): (r: Result<Quiz>)
    ensures r.Ok? <==> KnownQuiz(db, quizId)
    ensures r.Err? ==> r.error == Failure(ForeignKey.QuizNotFound)
    ensures r.Ok? ==> r.value == CopyQuiz(QuizWithId(db, quizId))
  {
    var k := QuizIndex(db.quizzes, quizId);
    if k < |db.quizzes| then Ok(CopyQuiz(db.quizzes[k])) else Err(Failure(ForeignKey.QuizNotFound))
  }

  /** The service creation is the legacy one run on a request whose zero
      time limit was replaced by the default; on a non-zero limit the two
      coincide. */
  lemma CreateAgreesWithService(db: Database, quiz: Quiz, ids: QuizIds)
    requires FitsShape(ids, quiz)
    requires !KnownQuiz(db, ids.quiz)
    ensures QuizService.Create(db, quiz, ids)
         == Create(db, quiz.(maxTime := if quiz.maxTime == 0 then DefaultMaxTime else quiz.maxTime), ids)
    ensures quiz.maxTime != 0 ==> QuizService.Create(db, quiz, ids) == Create(db, quiz, ids)
  {
  }

  /** Both lookups return the same result. */
  lemma GetQuizAgreesWithService(db: Database, quizId: Id)
    ensures GetQuiz(db, quizId) == QuizService.GetQuiz(db, quizId)
  {
  }

  /** A quiz created with no time limit through the legacy path is stored
      with a zero limit, which makes every later submission to an attempt
      on it overdue for the service engine as soon as any time has
      passed. */
  lemma ZeroLimitKept(db: Database, quiz: Quiz, ids: QuizIds)
    requires FitsShape(ids, quiz)
    requires !KnownQuiz(db, ids.quiz)
    requires quiz.maxTime == 0
    requires !TitleExists(db, TrimSpace(quiz.title))
    ensures Create(db, quiz, ids).out.value.maxTime == 0
    ensures QuizService.Create(db, quiz, ids).out.value.maxTime == DefaultMaxTime
    ensures forall start: nat, now: nat :: UserQuizService.Overdue(start, now, Create(db, quiz, ids).out.value.maxTime) <==> now > start
  {
  }
}
