/** Concrete runs of the attempt engine on the seeded database: a full
    correct run, a second start, an expired attempt, a repeated answer, a
    wrong answer, and an answer filed into another user's attempt. */
module Scenarios {
  import opened Wrappers
  import opened Models
  import opened Ledger
  import opened Seed
  import opened UserQuizService

  /** A start request as the request handler builds it: only the user and
      quiz identifiers are set. */
  function StartRequest(userId: Id): UserQuizAttempt {
    UserQuizAttempt(NilId, userId, SampleQuizId, Null, Null, 0, [])
  }

  /** An answer to seed question `i` choosing its option `j`, with the
      correctness flag cleared as the request handler does. */
  function AnswerRequest(ids: SeedIds, userId: Id, attemptId: Id, i: nat, j: nat): UserResponse
    requires FreshDraws(ids) && i < 2 && j < 4
  {
    UserResponse(NilId, userId, SampleQuizId, attemptId, ids.questions[i], ids.options[i][j], false)
  }

  /** Seed question `i` sits at position `i` of the sample quiz, its option
      `j` at position `j` of the question, and only option 0 is flagged
      correct. */
  lemma SeedOptionLookup(ids: SeedIds, i: nat, j: nat)
    requires FreshDraws(ids) && i < 2 && j < 4
    ensures |DummyQuiz(ids).questions| == 2
    ensures QuestionIndex(DummyQuiz(ids).questions, ids.questions[i]) == i
    ensures |DummyQuiz(ids).questions[i].options| == 4
    ensures OptionIndex(DummyQuiz(ids).questions[i].options, ids.options[i][j]) == j
    ensures DummyQuiz(ids).questions[i].options[0].isCorrect == Value(true)
    ensures DummyQuiz(ids).questions[i].options[j].isCorrect == Value(j == 0)
  {
    var qs := DummyQuiz(ids).questions;
    assert qs[i].id == ids.questions[i];
    assert i == 1 ==> qs[0].id != ids.questions[i];
    var os := qs[i].options;
    assert os == DummyOptions(ids.questions[i], ids.options[i]);
    DistinctOptionIndex(os, ids.options[i], j);
  }

  /** Options carrying pairwise distinct ids in order are found at their
      own positions. */
  lemma DistinctOptionIndex(os: seq<Option>, ids: seq<Id>, j: nat)
    requires |os| == |ids| && j < |ids|
    requires forall k :: 0 <= k < |os| ==> os[k].id == ids[k]
    requires forall a, b :: 0 <= a < b < |ids| ==> ids[a] != ids[b]
    ensures OptionIndex(os, ids[j]) == j
  {
    assert os[j].id == ids[j];
  }

  /** Any database holding the seed catalog and users finds both users and
      the sample quiz. */
  lemma SeedLookups(db: Database, ids: SeedIds, hashOne: string, hashTwo: string)
    requires FreshDraws(ids)
    requires db.quizzes == [DummyQuiz(ids)] && db.users == DummyUsers(ids, hashOne, hashTwo)
    ensures KnownUser(db, UserOneId) && KnownUser(db, ids.userTwo)
    ensures KnownQuiz(db, SampleQuizId) && QuizWithId(db, SampleQuizId) == DummyQuiz(ids)
  {
    assert db.users[0].id == UserOneId && db.users[1].id == ids.userTwo;
    assert db.quizzes[0].id == SampleQuizId;
  }

  /** The seed catalog and users with a ledger holding only `a`. */
  function SeedState(ids: SeedIds, hashOne: string, hashTwo: string, a: UserQuizAttempt): Database
    requires FreshDraws(ids)
  {
    Database([DummyQuiz(ids)], DummyUsers(ids, hashOne, hashTwo), [a])
  }

  /** The attempt a start request from `userId` stores. */
  function Started(attemptId: Id, userId: Id, now: nat): UserQuizAttempt {
    UserQuizAttempt(attemptId, userId, SampleQuizId, Value(now), Null, 0, [])
  }

  /** The first option of seed question `i`, "Paris", the one flagged
      correct. */
  function Paris(ids: SeedIds, i: nat): Option
    requires FreshDraws(ids) && i < 2
  {
    DummyQuiz(ids).questions[i].options[0]
  }

  /** The attempt `a` of the two-question sample quiz after response `x`
      is recorded at time `now`: a point when the selected option was the
      correct one, and the end stamp when it is the second response. */
  function Advanced(a: UserQuizAttempt, x: UserResponse, correct: bool, now: nat): UserQuizAttempt {
    var responses := a.responses + [x];
    a.(responses := responses, totalScore := a.totalScore + (if correct then 1 else 0),
       endedAt := if |responses| == 2 then Value(now) else a.endedAt)
  }

  /** On a ledger holding only `a`, a submission's effect replaces `a` by
      the attempt with the response, the point and the end stamp added. */
  lemma SingleAttemptEffect(db: Database, db': Database, a: UserQuizAttempt, req: UserResponse,
                            responseId: Id, now: nat, correct: bool)
    requires AnswerResolves(db, req) && db.attempts == [a]
    requires SubmissionEffect(db, db', req, responseId, now)
    requires SelectedOption(db, req).isCorrect == Value(correct)
    requires |QuizWithId(db, req.quizId).questions| == 2
    ensures db' == db.(attempts := [Advanced(a, Recorded(req, responseId, correct), correct, now)])
  {
    assert AttemptIndex(db.attempts, req.attemptId) == 0;
    assert |db'.attempts| == 1;
    assert db'.attempts[0] == Advanced(a, Recorded(req, responseId, correct), correct, now);
  }

  /** When the first option is the one flagged correct, it is the first
      flagged correct. */
  lemma FirstFlaggedIsHead(options: seq<Option>, o: Option)
    requires |options| > 0 && options[0].isCorrect == Value(true)
    requires FirstFlaggedCorrect(options, o)
    ensures o == options[0]
  {
    var k :| 0 <= k < |options| && options[k] == o
             && forall m :: 0 <= m < k ==> options[m].isCorrect == Value(false);
    assert k == 0;
  }

  /** On a database with one quiz and one attempt, an answer to the
      attempt that is open, within the limit, and names the question at
      position `i` and its option at position `j`, passes every check,
      provided the question's first option is flagged correct. */
  lemma SoleAttemptAccepted(db: Database, a: UserQuizAttempt, req: UserResponse, now: nat, i: nat, j: nat)
    requires |db.quizzes| == 1 && db.attempts == [a] && KnownUser(db, req.userId)
    requires db.quizzes[0].id == req.quizId && a.quizId == req.quizId && a.id == req.attemptId
    requires a.endedAt.Null? && a.startedAt.Value? && !Overdue(a.startedAt.get, now, db.quizzes[0].maxTime)
    requires !Answered(a, req.questionId)
    requires i < |db.quizzes[0].questions| && QuestionIndex(db.quizzes[0].questions, req.questionId) == i
    requires j < |db.quizzes[0].questions[i].options|
    requires OptionIndex(db.quizzes[0].questions[i].options, req.selectedOptionId) == j
    requires db.quizzes[0].questions[i].options[0].isCorrect == Value(true)
    requires db.quizzes[0].questions[i].options[j].isCorrect.Value?
    ensures SubmitFailure(db, req, now).Null? && AnswerResolves(db, req)
    ensures SelectedQuestion(db, req) == db.quizzes[0].questions[i]
    ensures SelectedOption(db, req) == db.quizzes[0].questions[i].options[j]
  {
    var q := db.quizzes[0];
    assert KnownQuiz(db, req.quizId) && QuizIndex(db.quizzes, req.quizId) == 0;
    assert db.attempts[0] == a;
    assert KnownAttempt(db, req.attemptId) && AttemptIndex(db.attempts, req.attemptId) == 0;
    assert AttemptWithId(db, req.attemptId) == a;
    assert TimingFailure(db, a, now).Null?;
    assert q.questions[i].id == req.questionId;
    assert HasQuestion(q, req.questionId) && QuestionWithId(q, req.questionId) == q.questions[i];
    assert q.questions[i].options[j].id == req.selectedOptionId;
    assert HasOption(q.questions[i], req.selectedOptionId);
    assert AnswerFailure(db, a, req).Null?;
    assert GetCorrectOption(q.questions[i].options) == Ok(q.questions[i].options[0]);
  }

  /** On such a database the answer is recorded on the one attempt, and
      the option revealed is the selected one when it is correct and the
      first option otherwise. */
  lemma SoleAttemptAnswer(db: Database, a: UserQuizAttempt, req: UserResponse, responseId: Id, now: nat, i: nat, j: nat)
    requires |db.quizzes| == 1 && db.attempts == [a] && KnownUser(db, req.userId)
    requires db.quizzes[0].id == req.quizId && a.quizId == req.quizId && a.id == req.attemptId
    requires a.endedAt.Null? && a.startedAt.Value? && !Overdue(a.startedAt.get, now, db.quizzes[0].maxTime)
    requires !Answered(a, req.questionId)
    requires |db.quizzes[0].questions| == 2 && i < 2 && QuestionIndex(db.quizzes[0].questions, req.questionId) == i
    requires j < |db.quizzes[0].questions[i].options|
    requires OptionIndex(db.quizzes[0].questions[i].options, req.selectedOptionId) == j
    requires db.quizzes[0].questions[i].options[0].isCorrect == Value(true)
    requires db.quizzes[0].questions[i].options[j].isCorrect.Value?
    requires FreshResponseId(db, responseId)
    ensures var options := db.quizzes[0].questions[i].options;
            var correct := options[j].isCorrect == Value(true);
            SubmitAnswer(db, req, responseId, now)
              == Step(db.(attempts := [Advanced(a, Recorded(req, responseId, correct), correct, now)]),
                      Ok(if correct then options[j] else options[0]))
  {
    var options := db.quizzes[0].questions[i].options;
    var correct := options[j].isCorrect == Value(true);
    SoleAttemptAccepted(db, a, req, now, i, j);
    var s := SubmitAnswer(db, req, responseId, now);
    assert s.out.Ok?;
    assert QuizWithId(db, req.quizId) == db.quizzes[0];
    SingleAttemptEffect(db, s.state, a, req, responseId, now, correct);
    if !correct {
      FirstFlaggedIsHead(options, s.out.value);
    }
  }

  /** The accepted answer scores a point exactly for the first option,
      stamps the attempt ended when it is the second answer, and reveals the
      question's first option ("Paris") either way. */
  lemma AnswerStep(ids: SeedIds, hashOne: string, hashTwo: string, a: UserQuizAttempt,
                   userId: Id, i: nat, j: nat, responseId: Id, now: nat)
    requires FreshDraws(ids) && i < 2 && j < 4
    requires userId == UserOneId || userId == ids.userTwo
    requires a.endedAt.Null? && a.quizId == SampleQuizId && a.startedAt.Value?
    requires !Overdue(a.startedAt.get, now, SampleMaxTime)
    requires !Answered(a, ids.questions[i])
    requires forall k :: 0 <= k < |a.responses| ==> a.responses[k].id != responseId
    ensures FreshResponseId(SeedState(ids, hashOne, hashTwo, a), responseId)
    ensures var req := AnswerRequest(ids, userId, a.id, i, j);
            SubmitAnswer(SeedState(ids, hashOne, hashTwo, a), req, responseId, now)
              == Step(SeedState(ids, hashOne, hashTwo, Advanced(a, Recorded(req, responseId, j == 0), j == 0, now)),
                      Ok(Paris(ids, i)))
  {
    var db := SeedState(ids, hashOne, hashTwo, a);
    SeedLookups(db, ids, hashOne, hashTwo);
    SeedOptionLookup(ids, i, j);
    assert FreshResponseId(db, responseId);
    SoleAttemptAnswer(db, a, AnswerRequest(ids, userId, a.id, i, j), responseId, now, i, j);
  }

  /** Starting the sample quiz on the seeded database succeeds for either
      seeded user and stores one attempt with the start time. */
  lemma SeedStart(ids: SeedIds, hashOne: string, hashTwo: string, userId: Id, attemptId: Id, now: nat)
    requires FreshDraws(ids)
    requires userId == UserOneId || userId == ids.userTwo
    ensures StartQuiz(NewDatabase(ids, hashOne, hashTwo), StartRequest(userId), attemptId, now)
         == Step(SeedState(ids, hashOne, hashTwo, Started(attemptId, userId, now)), Ok(Started(attemptId, userId, now)))
  {
    var db := NewDatabase(ids, hashOne, hashTwo);
    assert db == Database([DummyQuiz(ids)], DummyUsers(ids, hashOne, hashTwo), []);
    SeedLookups(db, ids, hashOne, hashTwo);
    EmptyLedgerStart(db, StartRequest(userId), attemptId, now);
  }

  /** On an empty ledger, a start by a known user at a known quiz stores
      the request under the fresh id with the start time and zero score. */
  lemma EmptyLedgerStart(db: Database, req: UserQuizAttempt, attemptId: Id, now: nat)
    requires db.attempts == [] && KnownUser(db, req.userId) && KnownQuiz(db, req.quizId)
    ensures var a := req.(id := attemptId, startedAt := Value(now), totalScore := 0);
            StartQuiz(db, req, attemptId, now) == Step(db.(attempts := [a]), Ok(a))
  {
    assert db.attempts + [req.(id := attemptId, startedAt := Value(now), totalScore := 0)]
        == [req.(id := attemptId, startedAt := Value(now), totalScore := 0)];
  }

  /** User one's attempt after answering the first question with "Paris". */
  function AfterFirst(ids: SeedIds, attemptId: Id, r1: Id, t0: nat): UserQuizAttempt
    requires FreshDraws(ids)
  {
    Started(attemptId, UserOneId, t0).(responses := [Recorded(AnswerRequest(ids, UserOneId, attemptId, 0, 0), r1, true)],
                                       totalScore := 1)
  }

  /** User one's attempt after answering the second question with "Paris"
      too, at time `t2`. */
  function AfterSecond(ids: SeedIds, attemptId: Id, r1: Id, r2: Id, t0: nat, t2: nat): UserQuizAttempt
    requires FreshDraws(ids)
  {
    var a1 := AfterFirst(ids, attemptId, r1, t0);
    a1.(responses := a1.responses + [Recorded(AnswerRequest(ids, UserOneId, attemptId, 1, 0), r2, true)],
        totalScore := 2, endedAt := Value(t2))
  }

  /** Scenario, first half: user one starts the sample quiz and answers the
      first question with "Paris" within the minute; the answer scores a
      point, "Paris" is revealed, and the attempt stays open. */
  lemma CorrectFirstAnswer(ids: SeedIds, hashOne: string, hashTwo: string, attemptId: Id, r1: Id, t0: nat, t1: nat)
    requires FreshDraws(ids)
    requires t0 <= t1 <= t0 + NanosPerMinute
    ensures StartQuiz(NewDatabase(ids, hashOne, hashTwo), StartRequest(UserOneId), attemptId, t0)
         == Step(SeedState(ids, hashOne, hashTwo, Started(attemptId, UserOneId, t0)), Ok(Started(attemptId, UserOneId, t0)))
    ensures FreshResponseId(SeedState(ids, hashOne, hashTwo, Started(attemptId, UserOneId, t0)), r1)
    ensures SubmitAnswer(SeedState(ids, hashOne, hashTwo, Started(attemptId, UserOneId, t0)),
                         AnswerRequest(ids, UserOneId, attemptId, 0, 0), r1, t1)
         == Step(SeedState(ids, hashOne, hashTwo, AfterFirst(ids, attemptId, r1, t0)), Ok(Paris(ids, 0)))
    ensures AfterFirst(ids, attemptId, r1, t0).endedAt.Null?
  {
    var a0 := Started(attemptId, UserOneId, t0);
    SeedStart(ids, hashOne, hashTwo, UserOneId, attemptId, t0);
    assert !Overdue(t0, t1, SampleMaxTime);
    assert !Answered(a0, ids.questions[0]);
    AnswerStep(ids, hashOne, hashTwo, a0, UserOneId, 0, 0, r1, t1);
    var x := Recorded(AnswerRequest(ids, UserOneId, attemptId, 0, 0), r1, true);
    assert a0.responses + [x] == [x];
    assert Advanced(a0, x, true, t1) == AfterFirst(ids, attemptId, r1, t0);
  }

  /** Scenario, second half: answering the second question with "Paris"
      within the minute scores the second point and, the quiz now being
      complete, stamps the attempt ended at that time; the results read back
      the completed attempt with score 2. */
  lemma CompletingAnswer(ids: SeedIds, hashOne: string, hashTwo: string, attemptId: Id,
                         r1: Id, r2: Id, t0: nat, t2: nat)
    requires FreshDraws(ids) && r1 != r2
    requires t0 <= t2 <= t0 + NanosPerMinute
    ensures FreshResponseId(SeedState(ids, hashOne, hashTwo, AfterFirst(ids, attemptId, r1, t0)), r2)
    ensures SubmitAnswer(SeedState(ids, hashOne, hashTwo, AfterFirst(ids, attemptId, r1, t0)),
                         AnswerRequest(ids, UserOneId, attemptId, 1, 0), r2, t2)
         == Step(SeedState(ids, hashOne, hashTwo, AfterSecond(ids, attemptId, r1, r2, t0, t2)), Ok(Paris(ids, 1)))
    ensures GetUserQuizResults(SeedState(ids, hashOne, hashTwo, AfterSecond(ids, attemptId, r1, r2, t0, t2)),
                               UserOneId, SampleQuizId)
         == Ok(AfterSecond(ids, attemptId, r1, r2, t0, t2))
    ensures AfterSecond(ids, attemptId, r1, r2, t0, t2).totalScore == 2
    ensures AfterSecond(ids, attemptId, r1, r2, t0, t2).endedAt == Value(t2)
  {
    var a1 := AfterFirst(ids, attemptId, r1, t0);
    assert a1.responses[0].questionId != ids.questions[1];
    AnswerStep(ids, hashOne, hashTwo, a1, UserOneId, 1, 0, r2, t2);
    var x := Recorded(AnswerRequest(ids, UserOneId, attemptId, 1, 0), r2, true);
    assert Advanced(a1, x, true, t2) == AfterSecond(ids, attemptId, r1, r2, t0, t2);
    SoleResults(ids, hashOne, hashTwo, AfterSecond(ids, attemptId, r1, r2, t0, t2));
  }

  /** On a seeded database whose only attempt is user one's at the sample
      quiz, the results return that attempt. */
  lemma SoleResults(ids: SeedIds, hashOne: string, hashTwo: string, a: UserQuizAttempt)
    requires FreshDraws(ids) && a.userId == UserOneId && a.quizId == SampleQuizId
    ensures GetUserQuizResults(SeedState(ids, hashOne, hashTwo, a), UserOneId, SampleQuizId) == Ok(a)
  {
    var db := SeedState(ids, hashOne, hashTwo, a);
    SeedLookups(db, ids, hashOne, hashTwo);
    assert db.attempts[0] == a;
    assert Attempted(db, UserOneId, SampleQuizId);
  }

  /** Scenario: a second start of the sample quiz by user one is refused
      and the ledger keeps the one attempt. */
  lemma SecondStartRefused(ids: SeedIds, hashOne: string, hashTwo: string, attemptId: Id, id2: Id, t0: nat, t: nat)
    requires FreshDraws(ids) && id2 != attemptId
    ensures !KnownAttempt(SeedState(ids, hashOne, hashTwo, Started(attemptId, UserOneId, t0)), id2)
    ensures StartQuiz(SeedState(ids, hashOne, hashTwo, Started(attemptId, UserOneId, t0)), StartRequest(UserOneId), id2, t)
         == Step(SeedState(ids, hashOne, hashTwo, Started(attemptId, UserOneId, t0)), Err(Failure(AlreadyAttempted)))
  {
    var db := SeedState(ids, hashOne, hashTwo, Started(attemptId, UserOneId, t0));
    SeedLookups(db, ids, hashOne, hashTwo);
    assert db.attempts[0].userId == UserOneId && db.attempts[0].quizId == SampleQuizId;
  }

  /** Scenario: once more than the quiz's one minute has passed since the
      start, any answer is refused for exceeding the time, and the attempt
      is left as it was, without an end stamp. */
  lemma ExpiredAttemptRefused(ids: SeedIds, hashOne: string, hashTwo: string, attemptId: Id,
                              i: nat, j: nat, r: Id, t0: nat, t: nat)
    requires FreshDraws(ids) && i < 2 && j < 4
    requires t > t0 + NanosPerMinute
    ensures FreshResponseId(SeedState(ids, hashOne, hashTwo, Started(attemptId, UserOneId, t0)), r)
    ensures SubmitAnswer(SeedState(ids, hashOne, hashTwo, Started(attemptId, UserOneId, t0)),
                         AnswerRequest(ids, UserOneId, attemptId, i, j), r, t)
         == Step(SeedState(ids, hashOne, hashTwo, Started(attemptId, UserOneId, t0)), Err(Failure(TimeExceeded)))
  {
    var a0 := Started(attemptId, UserOneId, t0);
    var db := SeedState(ids, hashOne, hashTwo, a0);
    SeedLookups(db, ids, hashOne, hashTwo);
    var req := AnswerRequest(ids, UserOneId, attemptId, i, j);
    assert AttemptIndex(db.attempts, attemptId) == 0;
    assert AttemptWithId(db, attemptId) == a0;
    assert Overdue(t0, t, SampleMaxTime);
    assert TimingFailure(db, a0, t) == Value(Failure(TimeExceeded));
    assert SubmitFailure(db, req, t) == Value(Failure(TimeExceeded));
  }

  /** Scenario: answering the first question again, with any option, after
      it was answered is refused and changes nothing. */
  lemma RepeatedAnswerRefused(ids: SeedIds, hashOne: string, hashTwo: string, attemptId: Id,
                              j: nat, r1: Id, r: Id, t0: nat, t: nat)
    requires FreshDraws(ids) && j < 4 && r != r1
    requires t0 <= t <= t0 + NanosPerMinute
    ensures FreshResponseId(SeedState(ids, hashOne, hashTwo, AfterFirst(ids, attemptId, r1, t0)), r)
    ensures SubmitAnswer(SeedState(ids, hashOne, hashTwo, AfterFirst(ids, attemptId, r1, t0)),
                         AnswerRequest(ids, UserOneId, attemptId, 0, j), r, t)
         == Step(SeedState(ids, hashOne, hashTwo, AfterFirst(ids, attemptId, r1, t0)), Err(Failure(AlreadyAnswered)))
  {
    var a1 := AfterFirst(ids, attemptId, r1, t0);
    var db := SeedState(ids, hashOne, hashTwo, a1);
    SeedLookups(db, ids, hashOne, hashTwo);
    var req := AnswerRequest(ids, UserOneId, attemptId, 0, j);
    assert AttemptIndex(db.attempts, attemptId) == 0;
    assert AttemptWithId(db, attemptId) == a1;
    assert !Overdue(t0, t, SampleMaxTime);
    assert TimingFailure(db, a1, t).Null?;
    assert a1.responses[0].questionId == ids.questions[0];
    assert Answered(a1, ids.questions[0]);
    assert SubmitFailure(db, req, t) == Value(Failure(AlreadyAnswered));
  }

  /** Scenario: choosing "Delhi" for the first question is accepted without
      a point, the response is stored as incorrect, and "Paris" is revealed
      as the correct option. */
  lemma WrongAnswerRevealsParis(ids: SeedIds, hashOne: string, hashTwo: string, attemptId: Id, r1: Id, t0: nat, t1: nat)
    requires FreshDraws(ids)
    requires t0 <= t1 <= t0 + NanosPerMinute
    ensures FreshResponseId(SeedState(ids, hashOne, hashTwo, Started(attemptId, UserOneId, t0)), r1)
    ensures var req := AnswerRequest(ids, UserOneId, attemptId, 0, 1);
            SubmitAnswer(SeedState(ids, hashOne, hashTwo, Started(attemptId, UserOneId, t0)), req, r1, t1)
            == Step(SeedState(ids, hashOne, hashTwo,
                    Started(attemptId, UserOneId, t0).(responses := [Recorded(req, r1, false)])),
                    Ok(Paris(ids, 0)))
    ensures Paris(ids, 0).answer == "Paris" && Paris(ids, 0).isCorrect == Value(true)
    ensures Recorded(AnswerRequest(ids, UserOneId, attemptId, 0, 1), r1, false).isCorrect == false
  {
    var a0 := Started(attemptId, UserOneId, t0);
    assert !Overdue(t0, t1, SampleMaxTime);
    assert !Answered(a0, ids.questions[0]);
    AnswerStep(ids, hashOne, hashTwo, a0, UserOneId, 0, 1, r1, t1);
    var x := Recorded(AnswerRequest(ids, UserOneId, attemptId, 0, 1), r1, false);
    assert a0.responses + [x] == [x];
    assert Advanced(a0, x, false, t1) == a0.(responses := [x]);
    assert DummyQuiz(ids).questions[0].options == DummyOptions(ids.questions[0], ids.options[0]);
  }

  /** Scenario: user two answers into user one's attempt. The attempt is
      found by its identifier alone, so the answer is accepted, scores a
      point on user one's attempt, and is stored carrying user two's
      identifier. */
  lemma AnswerIntoOthersAttempt(ids: SeedIds, hashOne: string, hashTwo: string, attemptId: Id, r1: Id, t0: nat, t1: nat)
    requires FreshDraws(ids)
    requires t0 <= t1 <= t0 + NanosPerMinute
    ensures FreshResponseId(SeedState(ids, hashOne, hashTwo, Started(attemptId, UserOneId, t0)), r1)
    ensures var req := AnswerRequest(ids, ids.userTwo, attemptId, 0, 0);
            SubmitAnswer(SeedState(ids, hashOne, hashTwo, Started(attemptId, UserOneId, t0)), req, r1, t1)
            == Step(SeedState(ids, hashOne, hashTwo,
                    Started(attemptId, UserOneId, t0).(responses := [Recorded(req, r1, true)], totalScore := 1)),
                    Ok(Paris(ids, 0)))
    ensures Recorded(AnswerRequest(ids, ids.userTwo, attemptId, 0, 0), r1, true).userId
         != Started(attemptId, UserOneId, t0).userId
  {
    var a0 := Started(attemptId, UserOneId, t0);
    assert !Overdue(t0, t1, SampleMaxTime);
    assert !Answered(a0, ids.questions[0]);
    AnswerStep(ids, hashOne, hashTwo, a0, ids.userTwo, 0, 0, r1, t1);
    var x := Recorded(AnswerRequest(ids, ids.userTwo, attemptId, 0, 0), r1, true);
    assert a0.responses + [x] == [x];
    assert Advanced(a0, x, true, t1) == a0.(responses := [x], totalScore := 1);
  }
}
