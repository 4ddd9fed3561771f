/** The records of the in-memory database: quizzes with their questions
    and options, users, and the attempt ledger with its responses. */
module Models {
  import opened Wrappers
  import opened Lookup

  /** A UUID in its textual form. */
  type Id = string

  /** uuid.Nil. */
  const NilId: Id := "00000000-0000-0000-0000-000000000000"

  /** Nanoseconds in Go's time.Minute; timestamps are nanoseconds. */
  const NanosPerMinute: nat := 60_000_000_000

  /** An answer choice; `isCorrect` is a nil-able `*bool`, nil once the
      answer key has been stripped. */
  datatype Option = Option(id: Id, questionId: Id, answer: string, isCorrect: Nullable<bool>)

  datatype Question = Question(id: Id, quizId: Id, text: string, options: seq<Option>)

  /** `maxTime` is the time limit in minutes. */
  datatype Quiz = Quiz(id: Id, title: string, maxTime: nat, questions: seq<Question>)

  /** `password` holds the hash once the user is stored. */
  datatype User = User(id: Id, name: string, username: string, password: string)

  datatype Login = Login(username: string, password: string)

  datatype LoginResponse = LoginResponse(id: Id, name: string, username: string, token: string)

  /** One submitted answer; `attemptId` names the attempt it belongs to. */
  datatype UserResponse = UserResponse(
    id: Id, userId: Id, quizId: Id, attemptId: Id,
    questionId: Id, selectedOptionId: Id, isCorrect: bool)

  /** One user's run through one quiz. `endedAt` stays nil until every
      question has been answered. */
  datatype UserQuizAttempt = UserQuizAttempt(
    id: Id, userId: Id, quizId: Id,
    startedAt: Nullable<nat>, endedAt: Nullable<nat>,
    totalScore: nat, responses: seq<UserResponse>)

  datatype Database = Database(quizzes: seq<Quiz>, users: seq<User>, attempts: seq<UserQuizAttempt>)

  // First-match scans by identifier.

  function QuizIndex(qs: seq<Quiz>, id: Id): (r: nat)
    ensures r <= |qs|
    ensures r < |qs| ==> qs[r].id == id
    ensures forall j :: 0 <= j < r ==> qs[j].id != id
  {
    FirstIndex(qs, (q: Quiz) => q.id == id)
  }

  function UserIndex(us: seq<User>, id: Id): (r: nat)
    ensures r <= |us|
    ensures r < |us| ==> us[r].id == id
    ensures forall j :: 0 <= j < r ==> us[j].id != id
  {
    FirstIndex(us, (u: User) => u.id == id)
  }

  function AttemptIndex(ledger: seq<UserQuizAttempt>, id: Id): (r: nat)
    ensures r <= |ledger|
    ensures r < |ledger| ==> ledger[r].id == id
    ensures forall j :: 0 <= j < r ==> ledger[j].id != id
  {
    FirstIndex(ledger, (a: UserQuizAttempt) => a.id == id)
  }

  /** First attempt of `userId` at `quizId`. */
  function PairIndex(ledger: seq<UserQuizAttempt>, userId: Id, quizId: Id): (r: nat)
    ensures r <= |ledger|
    ensures r < |ledger| ==> ledger[r].userId == userId && ledger[r].quizId == quizId
    ensures forall j :: 0 <= j < r ==> !(ledger[j].userId == userId && ledger[j].quizId == quizId)
  {
    FirstIndex(ledger, (a: UserQuizAttempt) => a.userId == userId && a.quizId == quizId)
  }

  function QuestionIndex(qs: seq<Question>, id: Id): (r: nat)
    ensures r <= |qs|
    ensures r < |qs| ==> qs[r].id == id
    ensures forall j :: 0 <= j < r ==> qs[j].id != id
  {
    FirstIndex(qs, (q: Question) => q.id == id)
  }

  function OptionIndex(os: seq<Option>, id: Id): (r: nat)
    ensures r <= |os|
    ensures r < |os| ==> os[r].id == id
    ensures forall j :: 0 <= j < r ==> os[j].id != id
  {
    FirstIndex(os, (o: Option) => o.id == id)
  }

  function AnsweredIndex(rs: seq<UserResponse>, questionId: Id): (r: nat)
    ensures r <= |rs|
    ensures r < |rs| ==> rs[r].questionId == questionId
    ensures forall j :: 0 <= j < r ==> rs[j].questionId != questionId
  {
    FirstIndex(rs, (x: UserResponse) => x.questionId == questionId)
  }

  // Existence, stated without reference to the scans.

  predicate KnownUser(db: Database, id: Id) {
    exists i :: 0 <= i < |db.users| && db.users[i].id == id
  }

  predicate KnownQuiz(db: Database, id: Id) {
    exists i :: 0 <= i < |db.quizzes| && db.quizzes[i].id == id
  }

  predicate KnownAttempt(db: Database, id: Id) {
    exists i :: 0 <= i < |db.attempts| && db.attempts[i].id == id
  }

  /** Some attempt of `userId` at `quizId` is on the ledger. */
  predicate Attempted(db: Database, userId: Id, quizId: Id) {
    exists i :: 0 <= i < |db.attempts| && db.attempts[i].userId == userId && db.attempts[i].quizId == quizId
  }

  predicate HasQuestion(quiz: Quiz, id: Id) {
    exists i :: 0 <= i < |quiz.questions| && quiz.questions[i].id == id
  }

  predicate HasOption(question: Question, id: Id) {
    exists i :: 0 <= i < |question.options| && question.options[i].id == id
  }

  /** Some response of the attempt answers `questionId`. */
  predicate Answered(attempt: UserQuizAttempt, questionId: Id) {
    exists i :: 0 <= i < |attempt.responses| && attempt.responses[i].questionId == questionId
  }

  /** The first stored quiz with the identifier. */
  function QuizWithId(db: Database, id: Id): Quiz
    requires KnownQuiz(db, id)
  {
    db.quizzes[QuizIndex(db.quizzes, id)]
  }

  /** The first ledger entry with the identifier. */
  function AttemptWithId(db: Database, id: Id): UserQuizAttempt
    requires KnownAttempt(db, id)
  {
    db.attempts[AttemptIndex(db.attempts, id)]
  }
}
