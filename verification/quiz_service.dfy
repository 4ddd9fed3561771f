/** The quiz catalog: creation with title normalisation, duplicate-title
    rejection, time-limit default and identifier linking; lookup returning
    the key-stripped copy. */
module QuizService {
  import opened Wrappers
  import opened Ascii
  import opened Lookup
  import opened Models
  import opened ObjectCopy
  import ForeignKey

  const TitleTaken := "quiz with same title already exists"

  /** Minutes given to a quiz created without a time limit. */
  const DefaultMaxTime: nat := 2

  /** The identifiers uuid.New hands out while a quiz is created: one for
      the quiz, one per question, one per option. */
  datatype QuizIds = QuizIds(quiz: Id, questions: seq<Id>, options: seq<seq<Id>>)

  /** The supplied identifiers cover every question and option. */
  predicate FitsShape(ids: QuizIds, quiz: Quiz) {
    && |ids.questions| == |quiz.questions|
    && |ids.options| == |quiz.questions|
    && forall i :: 0 <= i < |quiz.questions| ==> |ids.options[i]| == |quiz.questions[i].options|
  }

  /** Every question points back at its quiz and every option at its
      question. */
  predicate Linked(q: Quiz) {
    && (forall i :: 0 <= i < |q.questions| ==> q.questions[i].quizId == q.id)
    && (forall i, j :: 0 <= i < |q.questions| && 0 <= j < |q.questions[i].options| ==>
          q.questions[i].options[j].questionId == q.questions[i].id)
  }

  /** Some stored quiz has the title, ignoring case. */
  predicate TitleExists(db: Database, title: string) {
    exists i :: 0 <= i < |db.quizzes| && SameIgnoringCase(db.quizzes[i].title, title)
  }

  function CheckTitleExist(db: Database, title: string): (o: Outcome)
    ensures o.Pass? <==> !TitleExists(db, title)
    ensures o.Fail? ==> o.error == Failure(TitleTaken)
  {
    if FirstIndex(db.quizzes, (q: Quiz) => SameIgnoringCase(q.title, title)) < |db.quizzes|
    then Fail(Failure(TitleTaken))
    else Pass
  }

  function AssignQuestionIds(q: Question, quizId: Id, id: Id, optionIds: seq<Id>): (r: Question)
    requires |optionIds| == |q.options|
    ensures r.id == id && r.quizId == quizId && r.text == q.text
    ensures |r.options| == |q.options|
    ensures forall j :: 0 <= j < |q.options| ==>
              r.options[j] == q.options[j].(id := optionIds[j], questionId := id)
  {
    q.(id := id, quizId := quizId,
       options := seq(|q.options|, j requires 0 <= j < |q.options| =>
                    q.options[j].(id := optionIds[j], questionId := id)))
  }

  /** `r` holds the questions and options of `quiz` in the same order, with
      the same texts, answers and correctness flags, each under its drawn
      identifier. Together with Linked this fixes every field of every
      question and option of `r`. */
  predicate KeepsContent(r: Quiz, quiz: Quiz, ids: QuizIds)
    requires FitsShape(ids, quiz)
  {
    && |r.questions| == |quiz.questions|
    && (forall i :: 0 <= i < |quiz.questions| ==>
          && r.questions[i].id == ids.questions[i]
          && r.questions[i].text == quiz.questions[i].text
          && |r.questions[i].options| == |quiz.questions[i].options|)
    && (forall i, j :: 0 <= i < |quiz.questions| && 0 <= j < |quiz.questions[i].options| ==>
          && r.questions[i].options[j].id == ids.options[i][j]
          && r.questions[i].options[j].answer == quiz.questions[i].options[j].answer
          && r.questions[i].options[j].isCorrect == quiz.questions[i].options[j].isCorrect)
  }

  /** Gives the quiz, each question and each option its identifier and
      links children to parents, keeping counts, order and every other
      field. */
  function AssignIds(quiz: Quiz, ids: QuizIds): (r: Quiz)
    requires FitsShape(ids, quiz)
    ensures Linked(r)
    ensures r.id == ids.quiz && r.title == quiz.title && r.maxTime == quiz.maxTime
    ensures KeepsContent(r, quiz, ids)
  {
    quiz.(id := ids.quiz,
          questions := seq(|quiz.questions|, i requires 0 <= i < |quiz.questions| =>
                         AssignQuestionIds(quiz.questions[i], ids.quiz, ids.questions[i], ids.options[i])))
  }

  /** A successful creation appends exactly `q` to the catalog. */
  predicate Appended(db: Database, db': Database, q: Quiz) {
    db' == db.(quizzes := db.quizzes + [q])
  }

  /** Creates a quiz: the title is trimmed, a title already present
      ignoring case is refused with the catalog unchanged, a zero time limit
      becomes the default, and the linked quiz is appended. */
  function Create(db: Database, quiz: Quiz, ids: QuizIds): (s: Step<Database, Quiz>)
    requires FitsShape(ids, quiz)
    requires !KnownQuiz(db, ids.quiz)
    ensures TitleExists(db, TrimSpace(quiz.title)) ==> s == Step(db, Err(Failure(TitleTaken)))
    ensures !TitleExists(db, TrimSpace(quiz.title)) ==>
              && s.out.Ok?
              && Appended(db, s.state, s.out.value)
              && s.out.value.id == ids.quiz
              && s.out.value.title == TrimSpace(quiz.title)
              && s.out.value.maxTime == (if quiz.maxTime == 0 then DefaultMaxTime else quiz.maxTime)
              && Linked(s.out.value)
              && KeepsContent(s.out.value, quiz, ids)
  {
    var title := TrimSpace(quiz.title);
    match CheckTitleExist(db, title)
    case Fail(e) => Step(db, Err(e))
    case Pass =>
      var limit := if quiz.maxTime == 0 then DefaultMaxTime else quiz.maxTime;
      var created := AssignIds(quiz.(title := title, maxTime := limit), ids);
      Step(db.(quizzes := db.quizzes + [created]), Ok(created))
  }

  /** Looks a quiz up by identifier and returns its key-stripped copy. */
  function GetQuiz(db: Database, quizId: Id): (r: Result<Quiz>)
    ensures r.Ok? <==> KnownQuiz(db, quizId)
    ensures r.Err? ==> r.error == Failure(ForeignKey.QuizNotFound)
    ensures r.Ok? ==> r.value.id == quizId && KeyStripped(r.value) && AgreesExceptKey(r.value, QuizWithId(db, quizId))
  {
    var k := QuizIndex(db.quizzes, quizId);
    if k < |db.quizzes| then Ok(CopyQuiz(db.quizzes[k])) else Err(Failure(ForeignKey.QuizNotFound))
  }

  /** A created quiz is found again by its identifier, as the stripped copy
      of what was stored. */
  lemma CreateThenGetQuiz(db: Database, quiz: Quiz, ids: QuizIds)
    requires FitsShape(ids, quiz)
    requires !KnownQuiz(db, ids.quiz)
    requires Create(db, quiz, ids).out.Ok?
    ensures GetQuiz(Create(db, quiz, ids).state, ids.quiz) == Ok(CopyQuiz(Create(db, quiz, ids).out.value))
  {
    var s := Create(db, quiz, ids);
    var qs := s.state.quizzes;
    assert qs == db.quizzes + [s.out.value];
    assert forall j :: 0 <= j < |db.quizzes| ==> qs[j].id != ids.quiz;
    assert qs[|db.quizzes|].id == ids.quiz;
    assert QuizIndex(qs, ids.quiz) == |db.quizzes|;
  }

  /** After a quiz is created, creating another whose trimmed title matches
      it ignoring case fails and leaves the catalog as it was. */
  lemma CreateSameTitleTwice(db: Database, quiz: Quiz, ids: QuizIds, other: Quiz, ids': QuizIds)
    requires FitsShape(ids, quiz) && !KnownQuiz(db, ids.quiz)
    requires Create(db, quiz, ids).out.Ok?
    requires FitsShape(ids', other) && !KnownQuiz(Create(db, quiz, ids).state, ids'.quiz)
    requires SameIgnoringCase(TrimSpace(other.title), TrimSpace(quiz.title))
    ensures Create(Create(db, quiz, ids).state, other, ids') == Step(Create(db, quiz, ids).state, Err(Failure(TitleTaken)))
  {
    var s := Create(db, quiz, ids);
    var n := |db.quizzes|;
    assert s.state.quizzes[n] == s.out.value;
    SameIgnoringCaseProperties(s.out.value.title, TrimSpace(other.title), TrimSpace(other.title));
    assert SameIgnoringCase(s.state.quizzes[n].title, TrimSpace(other.title));
  }
}
