/** Shape check of a submitted answer before it reaches the engine. */
module UserResponseModel {
  import opened Wrappers
  import opened Models

  const UserIdRequired := "user ID is required"
  const QuizIdRequired := "quiz ID is required"
  const QuestionIdRequired := "question ID is required"
  const SelectedOptionIdRequired := "selected option ID is required"

  /** Reports the first nil identifier among user, quiz, question and
      selected option, in that order. */
  function Validate(r: UserResponse): (o: Outcome)
    ensures r.userId == NilId ==> o == Fail(Failure(UserIdRequired))
    ensures r.userId != NilId && r.quizId == NilId ==> o == Fail(Failure(QuizIdRequired))
    ensures r.userId != NilId && r.quizId != NilId && r.questionId == NilId ==>
              o == Fail(Failure(QuestionIdRequired))
    ensures r.userId != NilId && r.quizId != NilId && r.questionId != NilId && r.selectedOptionId == NilId ==>
              o == Fail(Failure(SelectedOptionIdRequired))
    ensures o.Pass? <==> r.userId != NilId && r.quizId != NilId && r.questionId != NilId && r.selectedOptionId != NilId
  {
    if r.userId == NilId then Fail(Failure(UserIdRequired))
    else if r.quizId == NilId then Fail(Failure(QuizIdRequired))
    else if r.questionId == NilId then Fail(Failure(QuestionIdRequired))
    else if r.selectedOptionId == NilId then Fail(Failure(SelectedOptionIdRequired))
    else Pass
  }

  /** The response's own identifier, its attempt and its correctness flag
      are never inspected. */
  lemma ValidateIgnoresAttemptAndFlag(r: UserResponse, id: Id, attemptId: Id, isCorrect: bool)
    ensures Validate(r.(id := id, attemptId := attemptId, isCorrect := isCorrect)) == Validate(r)
  {
  }
}
