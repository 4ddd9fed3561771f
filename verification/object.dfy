/** The deep copy handed to quiz-takers: every field is kept except the
    answer key, which is cleared on every option. */
module ObjectCopy {
  import opened Wrappers
  import opened Models

  /** No option of the quiz carries a correctness flag. */
  predicate KeyStripped(q: Quiz) {
    forall i, j :: 0 <= i < |q.questions| && 0 <= j < |q.questions[i].options| ==>
      q.questions[i].options[j].isCorrect.Null?
  }

  /** `a` and `b` agree on everything except the options' correctness
      flags: identifiers, title, time limit, texts, answers, and the number
      and order of questions and options. */
  predicate AgreesExceptKey(a: Quiz, b: Quiz) {
    && a.id == b.id && a.title == b.title && a.maxTime == b.maxTime
    && |a.questions| == |b.questions|
    && (forall i :: 0 <= i < |a.questions| ==>
          && a.questions[i].id == b.questions[i].id
          && a.questions[i].quizId == b.questions[i].quizId
          && a.questions[i].text == b.questions[i].text
          && |a.questions[i].options| == |b.questions[i].options|)
    && (forall i, j :: 0 <= i < |a.questions| && 0 <= j < |a.questions[i].options| ==>
          && a.questions[i].options[j].id == b.questions[i].options[j].id
          && a.questions[i].options[j].questionId == b.questions[i].options[j].questionId
          && a.questions[i].options[j].answer == b.questions[i].options[j].answer)
  }

  function CopyOption(o: Option): (r: Option)
    ensures r.id == o.id && r.questionId == o.questionId && r.answer == o.answer
    ensures r.isCorrect.Null?
  {
    Option(o.id, o.questionId, o.answer, Null)
  }

  function CopyQuestion(q: Question): (r: Question)
    ensures r.id == q.id && r.quizId == q.quizId && r.text == q.text
    ensures |r.options| == |q.options|
    ensures forall j :: 0 <= j < |q.options| ==>
              && r.options[j].id == q.options[j].id
              && r.options[j].questionId == q.options[j].questionId
              && r.options[j].answer == q.options[j].answer
              && r.options[j].isCorrect.Null?
  {
    Question(q.id, q.quizId, q.text, seq(|q.options|, j requires 0 <= j < |q.options| => CopyOption(q.options[j])))
  }

  /** The copy keeps everything but the answer key, which it clears. */
  function CopyQuiz(q: Quiz): (r: Quiz)
    ensures AgreesExceptKey(r, q)
    ensures KeyStripped(r)
  {
    Quiz(q.id, q.title, q.maxTime,
         seq(|q.questions|, i requires 0 <= i < |q.questions| => CopyQuestion(q.questions[i])))
  }

  /** Two stripped quizzes that agree except on the key are equal. */
  lemma StrippedAgreementIsEquality(a: Quiz, b: Quiz)
    requires AgreesExceptKey(a, b) && KeyStripped(a) && KeyStripped(b)
    ensures a == b
  {
    forall i | 0 <= i < |a.questions|
      ensures a.questions[i] == b.questions[i]
    {
      var qa, qb := a.questions[i], b.questions[i];
      forall j | 0 <= j < |qa.options|
        ensures qa.options[j] == qb.options[j]
      {
        assert qa.options[j].isCorrect == Null == qb.options[j].isCorrect;
      }
      assert qa.options == qb.options;
    }
    assert a.questions == b.questions;
  }

  /** Copying a copy changes nothing. */
  lemma CopyQuizIdempotent(q: Quiz)
    ensures CopyQuiz(CopyQuiz(q)) == CopyQuiz(q)
  {
    var c := CopyQuiz(q);
    var cc := CopyQuiz(c);
    assert AgreesExceptKey(cc, c);
    StrippedAgreementIsEquality(cc, c);
  }

  /** The copy returns its argument unchanged exactly when the argument
      carries no answer key. */
  lemma CopyQuizFixesExactlyStripped(q: Quiz)
    ensures CopyQuiz(q) == q <==> KeyStripped(q)
  {
    if KeyStripped(q) {
      StrippedAgreementIsEquality(CopyQuiz(q), q);
    }
  }
}
