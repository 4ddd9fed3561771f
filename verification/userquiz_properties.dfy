/** What the attempt engine guarantees across calls: the ledger invariants
    survive every operation, an attempt is started once per pair, a
    question is answered once per attempt, and the end stamp is one-way. */
module UserQuizProperties {
  import opened Wrappers
  import opened Models
  import opened Ledger
  import opened UserQuizService

  /** A second start for the same user and quiz is refused, whatever the
      rest of the request and whenever it comes. */
  lemma StartQuizTwice(db: Database, req: UserQuizAttempt, id: Id, now: nat, req': UserQuizAttempt, id': Id, now': nat)
    requires !KnownAttempt(db, id)
    requires StartQuiz(db, req, id, now).out.Ok?
    requires req'.userId == req.userId && req'.quizId == req.quizId
    requires !KnownAttempt(StartQuiz(db, req, id, now).state, id')
    ensures StartQuiz(StartQuiz(db, req, id, now).state, req', id', now')
         == Step(StartQuiz(db, req, id, now).state, Err(Failure(AlreadyAttempted)))
  {
    var s := StartQuiz(db, req, id, now);
    var n := |db.attempts|;
    assert s.state.attempts[n] == s.out.value;
    assert Attempted(s.state, req.userId, req.quizId);
    var iu :| 0 <= iu < |db.users| && db.users[iu].id == req.userId;
    assert s.state.users[iu].id == req'.userId;
    var iq :| 0 <= iq < |db.quizzes| && db.quizzes[iq].id == req.quizId;
    assert s.state.quizzes[iq].id == req'.quizId;
  }

  /** Starting keeps the ledger invariants, given a request without
      responses (the request handlers always send an empty one). */
  lemma StartQuizPreservesInvariant(db: Database, req: UserQuizAttempt, id: Id, now: nat)
    requires !KnownAttempt(db, id)
    requires LedgerInvariant(db.attempts)
    requires req.responses == []
    ensures LedgerInvariant(StartQuiz(db, req, id, now).state.attempts)
  {
    var s := StartQuiz(db, req, id, now);
    if s.out.Ok? {
      var ledger := s.state.attempts;
      var n := |db.attempts|;
      assert ledger[n] == s.out.value;
      forall i | 0 <= i < n
        ensures ledger[i].id != ledger[n].id
        ensures !(ledger[i].userId == ledger[n].userId && ledger[i].quizId == ledger[n].quizId)
      {
        assert ledger[i] == db.attempts[i];
      }
    }
  }

  /** Results right after a start return the attempt just started. */
  lemma StartThenResults(db: Database, req: UserQuizAttempt, id: Id, now: nat)
    requires !KnownAttempt(db, id)
    requires StartQuiz(db, req, id, now).out.Ok?
    ensures GetUserQuizResults(StartQuiz(db, req, id, now).state, req.userId, req.quizId)
         == Ok(StartQuiz(db, req, id, now).out.value)
  {
    var s := StartQuiz(db, req, id, now);
    var n := |db.attempts|;
    assert s.state.attempts[n] == s.out.value;
    assert forall j :: 0 <= j < n ==> s.state.attempts[j] == db.attempts[j];
    assert PairIndex(s.state.attempts, req.userId, req.quizId) == n;
    var iu :| 0 <= iu < |db.users| && db.users[iu].id == req.userId;
    assert s.state.users[iu].id == req.userId;
    var iq :| 0 <= iq < |db.quizzes| && db.quizzes[iq].id == req.quizId;
    assert s.state.quizzes[iq].id == req.quizId;
  }

  /** A submission's effect keeps the ledger invariants: identifiers and
      pairs are untouched, the new response answers a question not answered
      before, and the score moves with the correct-response count. */
  lemma EffectPreservesInvariant(db: Database, db': Database, req: UserResponse, responseId: Id, now: nat)
    requires AnswerResolves(db, req)
    requires SubmissionEffect(db, db', req, responseId, now)
    requires LedgerInvariant(db.attempts)
    requires !Answered(AttemptWithId(db, req.attemptId), req.questionId)
    requires !req.isCorrect
    ensures LedgerInvariant(db'.attempts)
  {
    var ledger, ledger' := db.attempts, db'.attempts;
    var k := AttemptIndex(ledger, req.attemptId);
    var correct := SelectedOption(db, req).isCorrect == Value(true);
    var x := Recorded(req, responseId, correct);
    forall i | 0 <= i < |ledger| && i != k
      ensures ledger'[i] == ledger[i]
    {
      assert ledger[i].id != ledger[k].id;
    }
    var a, a' := ledger[k], ledger'[k];
    assert a == AttemptWithId(db, req.attemptId);
    assert a'.responses == a.responses + [x];
    assert a'.id == a.id && a'.userId == a.userId && a'.quizId == a.quizId;
    assert DistinctQuestions(a'.responses) by {
      forall i, j | 0 <= i < j < |a'.responses|
        ensures a'.responses[i].questionId != a'.responses[j].questionId
      {
        if j == |a.responses| {
          assert a'.responses[i] == a.responses[i];
        }
      }
    }
    CountCorrectAppend(a.responses, x);
    assert ScoreMatches(a');
    forall i | 0 <= i < |ledger'|
      ensures ledger'[i].id == ledger[i].id
      ensures ledger'[i].userId == ledger[i].userId && ledger'[i].quizId == ledger[i].quizId
      ensures DistinctQuestions(ledger'[i].responses) && ScoreMatches(ledger'[i])
    {
      if i != k { assert ledger'[i] == ledger[i]; }
    }
  }

  /** Submitting keeps the ledger invariants. The request handlers clear
      the request's own correctness flag before calling. */
  lemma SubmitAnswerPreservesInvariant(db: Database, req: UserResponse, responseId: Id, now: nat)
    requires FreshResponseId(db, responseId)
    requires LedgerInvariant(db.attempts)
    requires !req.isCorrect
    ensures LedgerInvariant(SubmitAnswer(db, req, responseId, now).state.attempts)
  {
    var s := SubmitAnswer(db, req, responseId, now);
    if s.out.Ok? {
      EffectPreservesInvariant(db, s.state, req, responseId, now);
    }
  }

  /** After a submission's effect the attempt it went to holds an answer
      to the submitted question. */
  lemma EffectRecordsAnswer(db: Database, db': Database, req: UserResponse, responseId: Id, now: nat)
    requires AnswerResolves(db, req)
    requires SubmissionEffect(db, db', req, responseId, now)
    ensures KnownAttempt(db', req.attemptId)
    ensures Answered(AttemptWithId(db', req.attemptId), req.questionId)
  {
    var k := AttemptIndex(db.attempts, req.attemptId);
    forall j | 0 <= j < k
      ensures db'.attempts[j].id != req.attemptId
    {
      assert db.attempts[j].id != req.attemptId;
    }
    assert db'.attempts[k].id == req.attemptId;
    assert AttemptIndex(db'.attempts, req.attemptId) == k;
    var a' := db'.attempts[k];
    assert a'.responses[|a'.responses| - 1].questionId == req.questionId;
  }

  /** An answer to a question already answered in the same attempt never
      succeeds, and the ledger stays as it was. */
  lemma SubmitSameQuestionTwice(db: Database, req: UserResponse, responseId: Id, now: nat,
                                req': UserResponse, responseId': Id, now': nat)
    requires FreshResponseId(db, responseId)
    requires SubmitAnswer(db, req, responseId, now).out.Ok?
    requires req'.attemptId == req.attemptId && req'.questionId == req.questionId
    requires FreshResponseId(SubmitAnswer(db, req, responseId, now).state, responseId')
    ensures SubmitAnswer(SubmitAnswer(db, req, responseId, now).state, req', responseId', now').out.Err?
    ensures SubmitAnswer(SubmitAnswer(db, req, responseId, now).state, req', responseId', now').state
         == SubmitAnswer(db, req, responseId, now).state
  {
    var db' := SubmitAnswer(db, req, responseId, now).state;
    EffectRecordsAnswer(db, db', req, responseId, now);
    AnsweredRejects(db', req', responseId', now');
  }

  /** A submission for a question the attempt has already answered fails
      and changes nothing. */
  lemma AnsweredRejects(db: Database, req: UserResponse, responseId: Id, now: nat)
    requires FreshResponseId(db, responseId)
    requires KnownAttempt(db, req.attemptId)
    requires Answered(AttemptWithId(db, req.attemptId), req.questionId)
    ensures SubmitAnswer(db, req, responseId, now).out.Err?
    ensures SubmitAnswer(db, req, responseId, now).state == db
  {
    assert SubmitFailure(db, req, now).Value?;
  }

  /** A stamped end is never cleared or moved by a later submission. */
  lemma EndedAtNeverCleared(db: Database, req: UserResponse, responseId: Id, now: nat)
    requires FreshResponseId(db, responseId)
    ensures forall i :: 0 <= i < |db.attempts| && db.attempts[i].endedAt.Value? ==>
              SubmitAnswer(db, req, responseId, now).state.attempts[i].endedAt == db.attempts[i].endedAt
  {
    var s := SubmitAnswer(db, req, responseId, now);
    if s.out.Ok? {
      EffectKeepsEnded(db, s.state, req, responseId, now);
    }
  }

  /** A recorded answer goes to an attempt without an end stamp, so every
      stamped attempt keeps its stamp. */
  lemma EffectKeepsEnded(db: Database, db': Database, req: UserResponse, responseId: Id, now: nat)
    requires AnswerResolves(db, req)
    requires AttemptWithId(db, req.attemptId).endedAt.Null?
    requires SubmissionEffect(db, db', req, responseId, now)
    ensures forall i :: 0 <= i < |db.attempts| && db.attempts[i].endedAt.Value? ==>
              db'.attempts[i].endedAt == db.attempts[i].endedAt
  {
    var k := AttemptIndex(db.attempts, req.attemptId);
    forall i | 0 <= i < |db.attempts| && db.attempts[i].endedAt.Value?
      ensures db'.attempts[i].endedAt == db.attempts[i].endedAt
    {
      assert i != k;
    }
  }

  /** Once an attempt is stamped ended, every submission to it fails with
      the ended message and changes nothing. */
  lemma EndedAttemptRejects(db: Database, req: UserResponse, responseId: Id, now: nat)
    requires FreshResponseId(db, responseId)
    requires KnownUser(db, req.userId) && KnownQuiz(db, req.quizId) && KnownAttempt(db, req.attemptId)
    requires AttemptWithId(db, req.attemptId).endedAt.Value?
    ensures SubmitAnswer(db, req, responseId, now) == Step(db, Err(Failure(QuizEnded)))
  {
  }

  /** Past the time limit of the attempt's own quiz a submission fails with
      the time message and the attempt keeps no end stamp: expiry blocks
      writes without recording anything. */
  lemma OverdueAttemptRejects(db: Database, req: UserResponse, responseId: Id, now: nat)
    requires FreshResponseId(db, responseId)
    requires KnownUser(db, req.userId) && KnownQuiz(db, req.quizId) && KnownAttempt(db, req.attemptId)
    requires AttemptWithId(db, req.attemptId).endedAt.Null?
    requires KnownQuiz(db, AttemptWithId(db, req.attemptId).quizId)
    requires AttemptWithId(db, req.attemptId).startedAt.Value?
    requires Overdue(AttemptWithId(db, req.attemptId).startedAt.get, now,
                     QuizWithId(db, AttemptWithId(db, req.attemptId).quizId).maxTime)
    ensures SubmitAnswer(db, req, responseId, now) == Step(db, Err(Failure(TimeExceeded)))
    ensures AttemptWithId(SubmitAnswer(db, req, responseId, now).state, req.attemptId).endedAt.Null?
  {
  }

  // The end stamp and the question count.

  /** Every stamped attempt whose quiz is in the catalog holds one response
      per question of that quiz. */
  predicate StampedOnlyWhenComplete(db: Database) {
    forall i :: 0 <= i < |db.attempts| && db.attempts[i].endedAt.Value? && KnownQuiz(db, db.attempts[i].quizId) ==>
      |db.attempts[i].responses| == |QuizWithId(db, db.attempts[i].quizId).questions|
  }

  /** When the request names the attempt's own quiz, a submission's effect
      keeps every stamp matched to a full set of responses. */
  lemma EffectKeepsStampedComplete(db: Database, db': Database, req: UserResponse, responseId: Id, now: nat)
    requires AnswerResolves(db, req)
    requires AttemptWithId(db, req.attemptId).endedAt.Null?
    requires AttemptWithId(db, req.attemptId).quizId == req.quizId
    requires SubmissionEffect(db, db', req, responseId, now)
    requires StampedOnlyWhenComplete(db)
    ensures StampedOnlyWhenComplete(db')
  {
    var k := AttemptIndex(db.attempts, req.attemptId);
    forall i | 0 <= i < |db'.attempts| && db'.attempts[i].endedAt.Value? && KnownQuiz(db', db'.attempts[i].quizId)
      ensures |db'.attempts[i].responses| == |QuizWithId(db', db'.attempts[i].quizId).questions|
    {
      if i == k {
        assert db'.attempts[k].quizId == req.quizId;
      } else {
        assert db'.attempts[i].endedAt == db.attempts[i].endedAt;
        assert db'.attempts[i].responses == db.attempts[i].responses;
        assert db'.attempts[i].quizId == db.attempts[i].quizId;
      }
    }
  }

  /** A submission naming the attempt's own quiz stamps the attempt only
      once it holds a response to every question of that quiz. */
  lemma SubmitAnswerKeepsStampedComplete(db: Database, req: UserResponse, responseId: Id, now: nat)
    requires FreshResponseId(db, responseId)
    requires StampedOnlyWhenComplete(db)
    requires KnownAttempt(db, req.attemptId) ==> AttemptWithId(db, req.attemptId).quizId == req.quizId
    ensures StampedOnlyWhenComplete(SubmitAnswer(db, req, responseId, now).state)
  {
    var s := SubmitAnswer(db, req, responseId, now);
    if s.out.Ok? {
      EffectKeepsStampedComplete(db, s.state, req, responseId, now);
    }
  }

  /** A start whose request carries no end stamp, as every start handler
      builds it, keeps every stamp matched to a full set of responses. */
  lemma StartQuizKeepsStampedComplete(db: Database, req: UserQuizAttempt, id: Id, now: nat)
    requires !KnownAttempt(db, id)
    requires StampedOnlyWhenComplete(db)
    requires req.endedAt.Null?
    ensures StampedOnlyWhenComplete(StartQuiz(db, req, id, now).state)
  {
    var s := StartQuiz(db, req, id, now);
    if s.out.Ok? {
      var n := |db.attempts|;
      assert s.state.attempts[n].endedAt.Null?;
      forall i | 0 <= i < n ensures s.state.attempts[i] == db.attempts[i] { }
    }
  }

  /** The catalog of the cross-quiz case: quiz "A" with two questions and
      quiz "B" with one, each option flagged correct. */
  function CrossQuizCatalog(): seq<Quiz> {
    [Quiz("A", "a", 1, [Question("A1", "A", "", [Option("A1o", "A1", "", Value(true))]),
                        Question("A2", "A", "", [Option("A2o", "A2", "", Value(true))])]),
     Quiz("B", "b", 1, [Question("B1", "B", "", [Option("B1o", "B1", "", Value(true))])])]
  }

  /** The ledger of the cross-quiz case: one attempt "t" of user "u" on
      quiz "A", started at `now`, with no responses yet. */
  function CrossQuizDatabase(now: nat): Database {
    Database(CrossQuizCatalog(), [User("u", "", "", "")], [UserQuizAttempt("t", "u", "A", Value(now), Null, 0, [])])
  }

  /** An answer to attempt "t" that names quiz "B" and its only question. */
  function CrossQuizRequest(): UserResponse {
    UserResponse(NilId, "u", "B", "t", "B1", "B1o", false)
  }

  /** Every check of a submission passes for the cross-quiz request, since
      each one looks the question up in the quiz the request names. */
  lemma CrossQuizAccepted(now: nat)
    ensures SubmitFailure(CrossQuizDatabase(now), CrossQuizRequest(), now).Null?
    ensures AnswerResolves(CrossQuizDatabase(now), CrossQuizRequest())
    ensures SelectedOption(CrossQuizDatabase(now), CrossQuizRequest()).isCorrect == Value(true)
  {
    var db, req := CrossQuizDatabase(now), CrossQuizRequest();
    var a, qb := db.attempts[0], db.quizzes[1];
    assert db.users[0].id == "u" && db.quizzes[0].id == "A" && qb.id == "B";
    assert QuizIndex(db.quizzes, "B") == 1;
    assert AttemptIndex(db.attempts, "t") == 0 && AttemptWithId(db, "t") == a;
    assert TimingFailure(db, a, now).Null?;
    assert qb.questions[0].id == "B1" && QuestionIndex(qb.questions, "B1") == 0;
    assert qb.questions[0].options[0].id == "B1o" && OptionIndex(qb.questions[0].options, "B1o") == 0;
    assert AnswerFailure(db, a, req).Null?;
  }

  /** The effect of the cross-quiz submission stamps attempt "t" after its
      first response, with the count of quiz "B" in place of that of "A". */
  lemma CrossQuizEffect(now: nat, db': Database)
    requires AnswerResolves(CrossQuizDatabase(now), CrossQuizRequest())
    requires SubmissionEffect(CrossQuizDatabase(now), db', CrossQuizRequest(), "r", now)
    ensures |db'.attempts| == 1 && db'.attempts[0].endedAt == Value(now) && |db'.attempts[0].responses| == 1
    ensures db'.quizzes == CrossQuizCatalog() && |QuizWithId(db', db'.attempts[0].quizId).questions| == 2
    ensures !StampedOnlyWhenComplete(db')
  {
    var db := CrossQuizDatabase(now);
    assert AttemptIndex(db.attempts, "t") == 0 && QuizIndex(db.quizzes, "B") == 1;
    assert db'.attempts[0].quizId == "A" && QuizIndex(db'.quizzes, "A") == 0;
  }

  /** The completion count comes from the request's quiz: an attempt on
      two-question quiz "A" that is sent an answer naming quiz "B" and its
      only question is accepted and stamped ended after one response. */
  lemma StampedAfterOneOfTwo(now: nat)
    ensures FreshResponseId(CrossQuizDatabase(now), "r")
    ensures var s := SubmitAnswer(CrossQuizDatabase(now), CrossQuizRequest(), "r", now);
            && s.out.Ok?
            && s.state.attempts[0].endedAt == Value(now)
            && |s.state.attempts[0].responses| == 1
            && |QuizWithId(s.state, s.state.attempts[0].quizId).questions| == 2
            && !StampedOnlyWhenComplete(s.state)
  {
    assert FreshResponseId(CrossQuizDatabase(now), "r");
    CrossQuizAccepted(now);
    CrossQuizEffect(now, SubmitAnswer(CrossQuizDatabase(now), CrossQuizRequest(), "r", now).state);
  }
}
