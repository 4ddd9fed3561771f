/** Existence checks run before any attempt operation touches the ledger. */
module ForeignKey {
  import opened Wrappers
  import opened Models

  const UserNotFound := "user not found"
  const QuizNotFound := "quiz not found"

  /** Passes exactly when some stored user carries the identifier. */
  function DoesUserIdExist(db: Database, userId: Id): (r: Outcome)
    ensures r.Pass? <==> KnownUser(db, userId)
    ensures r.Fail? ==> r.error == Failure(UserNotFound)
  {
    if UserIndex(db.users, userId) < |db.users| then Pass else Fail(Failure(UserNotFound))
  }

  /** Passes exactly when some stored quiz carries the identifier. */
  function DoesQuizIdExist(db: Database, quizId: Id): (r: Outcome)
    ensures r.Pass? <==> KnownQuiz(db, quizId)
    ensures r.Fail? ==> r.error == Failure(QuizNotFound)
  {
    if QuizIndex(db.quizzes, quizId) < |db.quizzes| then Pass else Fail(Failure(QuizNotFound))
  }
}
