/** The legacy attempt engine against the service engine: the same checks
    minus the timing gate and the correct-option lookup, the same start
    without a start time, and the same ledger invariants, with no end stamp
    ever written. */
module LegacyProperties {
  import opened Wrappers
  import opened Models
  import opened Ledger
  import Service = UserQuizService
  import Legacy = LegacyUserQuiz

  /** Both engines accept and refuse the same starts with the same error;
      an accepted start differs only in the start time stored. */
  lemma StartAgreesWithService(db: Database, req: UserQuizAttempt, id: Id, now: nat)
    requires !KnownAttempt(db, id)
    ensures Legacy.StartQuiz(db, req, id).out.Err? <==> Service.StartQuiz(db, req, id, now).out.Err?
    ensures Legacy.StartQuiz(db, req, id).out.Err? ==>
              Legacy.StartQuiz(db, req, id) == Service.StartQuiz(db, req, id, now)
    ensures Legacy.StartQuiz(db, req, id).out.Ok? ==>
              Legacy.StartQuiz(db, req, id).out.value
                == Service.StartQuiz(db, req, id, now).out.value.(startedAt := req.startedAt)
  {
  }

  /** The legacy checks are the service checks with the timing checks and
      the correct-option lookup removed: whatever the service accepts the
      legacy engine accepts, a failure of user, quiz or attempt is reported
      alike, and on an attempt that passes the timing checks the legacy
      engine reports every answer-check failure the service reports. */
  lemma FailureAgreesWithService(db: Database, req: UserResponse, now: nat)
    ensures Service.SubmitFailure(db, req, now).Null? ==> Legacy.LegacyFailure(db, req).Null?
    ensures !(KnownUser(db, req.userId) && KnownQuiz(db, req.quizId) && KnownAttempt(db, req.attemptId)) ==>
              Legacy.LegacyFailure(db, req) == Service.SubmitFailure(db, req, now)
    ensures KnownAttempt(db, req.attemptId)
            && Service.TimingFailure(db, AttemptWithId(db, req.attemptId), now).Null?
            && Legacy.LegacyFailure(db, req).Value? ==>
              Legacy.LegacyFailure(db, req) == Service.SubmitFailure(db, req, now)
  {
  }

  /** An attempt that is past its time limit still takes answers in the
      legacy engine, as long as the answer checks pass. */
  lemma NoTimeGate(db: Database, req: UserResponse, responseId: Id)
    requires FreshResponseId(db, responseId)
    requires KnownUser(db, req.userId) && KnownQuiz(db, req.quizId) && KnownAttempt(db, req.attemptId)
    requires AnswerFailure(db, AttemptWithId(db, req.attemptId), req).Null?
    ensures Legacy.SubmitAnswer(db, req, responseId).out.Ok?
  {
  }

  /** Starting keeps the ledger invariants for a request without
      responses. */
  lemma StartPreservesInvariant(db: Database, req: UserQuizAttempt, id: Id)
    requires !KnownAttempt(db, id)
    requires LedgerInvariant(db.attempts)
    requires req.responses == []
    ensures LedgerInvariant(Legacy.StartQuiz(db, req, id).state.attempts)
  {
    var s := Legacy.StartQuiz(db, req, id);
    if s.out.Ok? {
      var ledger := s.state.attempts;
      var n := |db.attempts|;
      assert ledger[n] == s.out.value;
      forall i | 0 <= i < n
        ensures ledger[i].id != ledger[n].id
        ensures !(ledger[i].userId == ledger[n].userId && ledger[i].quizId == ledger[n].quizId)
      {
        assert ledger[i] == db.attempts[i];
      }
    }
  }

  /** A legacy submission's effect keeps the ledger invariants. */
  lemma EffectPreservesInvariant(db: Database, db': Database, req: UserResponse, responseId: Id)
    requires AnswerResolves(db, req)
    requires Legacy.AnswerEffect(db, db', req, responseId)
    requires LedgerInvariant(db.attempts)
    requires !Answered(AttemptWithId(db, req.attemptId), req.questionId)
    requires !req.isCorrect
    ensures LedgerInvariant(db'.attempts)
  {
    var ledger, ledger' := db.attempts, db'.attempts;
    var k := AttemptIndex(ledger, req.attemptId);
    var correct := SelectedOption(db, req).isCorrect == Value(true);
    var x := Recorded(req, responseId, correct);
    forall i | 0 <= i < |ledger| && i != k
      ensures ledger'[i] == ledger[i]
    {
      assert ledger[i].id != ledger[k].id;
    }
    var a, a' := ledger[k], ledger'[k];
    assert a == AttemptWithId(db, req.attemptId);
    assert a'.responses == a.responses + [x];
    assert DistinctQuestions(a'.responses) by {
      forall i, j | 0 <= i < j < |a'.responses|
        ensures a'.responses[i].questionId != a'.responses[j].questionId
      {
        if j == |a.responses| {
          assert a'.responses[i] == a.responses[i];
        }
      }
    }
    CountCorrectAppend(a.responses, x);
    forall i | 0 <= i < |ledger'|
      ensures ledger'[i].id == ledger[i].id
      ensures ledger'[i].userId == ledger[i].userId && ledger'[i].quizId == ledger[i].quizId
      ensures DistinctQuestions(ledger'[i].responses) && ScoreMatches(ledger'[i])
    {
      if i != k { assert ledger'[i] == ledger[i]; }
    }
  }

  /** Submitting keeps the ledger invariants when the request's own
      correctness flag is clear. */
  lemma SubmitAnswerPreservesInvariant(db: Database, req: UserResponse, responseId: Id)
    requires FreshResponseId(db, responseId)
    requires LedgerInvariant(db.attempts)
    requires !req.isCorrect
    ensures LedgerInvariant(Legacy.SubmitAnswer(db, req, responseId).state.attempts)
  {
    var s := Legacy.SubmitAnswer(db, req, responseId);
    if s.out.Ok? {
      EffectPreservesInvariant(db, s.state, req, responseId);
    }
  }

  /** The legacy engine never writes an end stamp: every attempt keeps the
      one it had. */
  lemma NeverStampsEnd(db: Database, req: UserResponse, responseId: Id)
    requires FreshResponseId(db, responseId)
    ensures |Legacy.SubmitAnswer(db, req, responseId).state.attempts| == |db.attempts|
    ensures forall i :: 0 <= i < |db.attempts| ==>
              Legacy.SubmitAnswer(db, req, responseId).state.attempts[i].endedAt == db.attempts[i].endedAt
  {
    var s := Legacy.SubmitAnswer(db, req, responseId);
    if s.out.Ok? {
      AnswerEffectKeepsEnds(db, s.state, req, responseId);
    }
  }

  /** The legacy effect leaves every end stamp as it was. */
  lemma AnswerEffectKeepsEnds(db: Database, db': Database, req: UserResponse, responseId: Id)
    requires AnswerResolves(db, req)
    requires Legacy.AnswerEffect(db, db', req, responseId)
    ensures |db'.attempts| == |db.attempts|
    ensures forall i :: 0 <= i < |db.attempts| ==> db'.attempts[i].endedAt == db.attempts[i].endedAt
  {
    var k := AttemptIndex(db.attempts, req.attemptId);
    forall i | 0 <= i < |db.attempts|
      ensures db'.attempts[i].endedAt == db.attempts[i].endedAt
    {
      if i == k {
        assert db'.attempts[k].endedAt == db.attempts[k].endedAt;
      }
    }
  }
}
