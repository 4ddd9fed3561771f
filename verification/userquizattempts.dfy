/** Shape check of a start-quiz request before it reaches the engine. */
module UserQuizAttemptsModel {
  import opened Wrappers
  import opened Models

  const UserIdRequired := "user ID is required"
  const QuizIdRequired := "quiz ID is required"

  /** Reports a nil user identifier before a nil quiz identifier. */
  function Validate(a: UserQuizAttempt): (o: Outcome)
    ensures a.userId == NilId ==> o == Fail(Failure(UserIdRequired))
    ensures a.userId != NilId && a.quizId == NilId ==> o == Fail(Failure(QuizIdRequired))
    ensures o.Pass? <==> a.userId != NilId && a.quizId != NilId
  {
    if a.userId == NilId then Fail(Failure(UserIdRequired))
    else if a.quizId == NilId then Fail(Failure(QuizIdRequired))
    else Pass
  }

  /** Timestamps, score, responses and the attempt's own identifier play
      no part in the verdict. */
  lemma ValidateIgnoresProgress(a: UserQuizAttempt, id: Id, startedAt: Nullable<nat>, endedAt: Nullable<nat>,
                                score: nat, responses: seq<UserResponse>)
    ensures Validate(a.(id := id, startedAt := startedAt, endedAt := endedAt, totalScore := score, responses := responses))
         == Validate(a)
  {
  }
}
