/** The fixture the in-memory database starts with: one two-question quiz
    with four options per question and two users. The identifiers uuid.New
    would draw and the password hashes are parameters. */
module Seed {
  import opened Wrappers
  import opened Models
  import opened Ledger
  import QuizService

  const SampleQuizId := "997f06f9-89d1-4f95-9300-09caee4d6b40"
  const UserOneId := "bfc8ec19-124b-40a1-8936-12dace6fd162"
  const SampleTitle := "Sample Quiz"
  const SampleMaxTime: nat := 1
  const Answers := ["Paris", "Delhi", "London", "New York"]
  const Texts := ["What is the capital of France?", "What is the capital of India?"]

  /** The identifiers drawn while seeding: one per question, four options
      per question, and the second user's. */
  datatype SeedIds = SeedIds(questions: seq<Id>, options: seq<seq<Id>>, userTwo: Id)

  /** Fresh draws: two distinct question identifiers, four distinct option
      identifiers for each question, and a second user identifier different
      from the fixed first one. */
  predicate FreshDraws(ids: SeedIds) {
    && |ids.questions| == 2 && ids.questions[0] != ids.questions[1]
    && |ids.options| == 2
    && (forall i :: 0 <= i < 2 ==> |ids.options[i]| == 4)
    && (forall i, j, k :: 0 <= i < 2 && 0 <= j < k < 4 ==> ids.options[i][j] != ids.options[i][k])
    && ids.userTwo != UserOneId
  }

  /** Exactly one option carries a true flag and every other a false one. */
  predicate ExactlyOneCorrect(options: seq<Option>) {
    exists k :: 0 <= k < |options| && options[k].isCorrect == Value(true)
                && forall j :: 0 <= j < |options| && j != k ==> options[j].isCorrect == Value(false)
  }

  /** The four options of a seeded question, answers in the order of
      `Answers`, Paris first and the only one flagged correct. */
  function DummyOptions(questionId: Id, ids: seq<Id>): (r: seq<Option>)
    requires |ids| == 4
    ensures |r| == 4 && r[0].answer == "Paris" && r[0].isCorrect == Value(true)
    ensures ExactlyOneCorrect(r)
    ensures forall j :: 0 <= j < 4 ==> r[j].id == ids[j] && r[j].questionId == questionId
    ensures forall j :: 0 <= j < 4 ==> r[j].answer == Answers[j]
  {
    var r := [Option(ids[0], questionId, Answers[0], Value(true)),
              Option(ids[1], questionId, Answers[1], Value(false)),
              Option(ids[2], questionId, Answers[2], Value(false)),
              Option(ids[3], questionId, Answers[3], Value(false))];
    assert forall j :: 0 <= j < 4 && j != 0 ==> r[j].isCorrect == Value(false);
    r
  }

  /** The two seeded questions, in order, linked to the quiz. */
  function DummyQuestions(quizId: Id, ids: SeedIds): (r: seq<Question>)
    requires FreshDraws(ids)
    ensures |r| == 2
    ensures forall i :: 0 <= i < 2 ==>
              && r[i].id == ids.questions[i] && r[i].quizId == quizId && r[i].text == Texts[i]
              && r[i].options == DummyOptions(r[i].id, ids.options[i])
  {
    [Question(ids.questions[0], quizId, Texts[0], DummyOptions(ids.questions[0], ids.options[0])),
     Question(ids.questions[1], quizId, Texts[1], DummyOptions(ids.questions[1], ids.options[1]))]
  }

  function DummyQuiz(ids: SeedIds): Quiz
    requires FreshDraws(ids)
  {
    Quiz(SampleQuizId, SampleTitle, SampleMaxTime, DummyQuestions(SampleQuizId, ids))
  }

  function DummyUsers(ids: SeedIds, hashOne: string, hashTwo: string): seq<User> {
    [User(UserOneId, "User one", "userone", hashOne), User(ids.userTwo, "User two", "usertwo", hashTwo)]
  }

  /** The seeded database: the sample quiz linked to its questions and
      options, each question answered correctly only by its first option,
      two users with distinct identifiers, and an empty ledger. */
  function NewDatabase(ids: SeedIds, hashOne: string, hashTwo: string): (db: Database)
    requires FreshDraws(ids)
    ensures |db.quizzes| == 1
    ensures db.quizzes[0].id == SampleQuizId && db.quizzes[0].title == SampleTitle
    ensures db.quizzes[0].maxTime == SampleMaxTime
    ensures |db.quizzes[0].questions| == 2
    ensures QuizService.Linked(db.quizzes[0])
    ensures forall i :: 0 <= i < 2 ==>
              && |db.quizzes[0].questions[i].options| == 4
              && ExactlyOneCorrect(db.quizzes[0].questions[i].options)
              && db.quizzes[0].questions[i].options[0].answer == "Paris"
              && GetCorrectOption(db.quizzes[0].questions[i].options) == Ok(db.quizzes[0].questions[i].options[0])
    ensures |db.users| == 2 && db.users[0].id == UserOneId && db.users[1].id != db.users[0].id
    ensures db.attempts == [] && LedgerInvariant(db.attempts)
  {
    Database([DummyQuiz(ids)], DummyUsers(ids, hashOne, hashTwo), [])
  }
}
