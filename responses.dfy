/** The responses router: the daily check-in submission, which checks the
    caller, the connection, the one-response-per-day rule, the quiz and
    every answered question, in that order, then scores the answers,
    resolves the recommendation and stores the response with one answer row
    per answer; and the history and same-day queries beside it. The clock
    enters as parameters: `now` (the submission time) and `midnight` (the
    start of the current local day). */
module Responses {
  import opened Common
  import opened Types
  import opened Scoring
  import opened Recommendation
  import opened Records
  import opened Db
  import JsParse

  const OnlyPatientsSubmit := "Only patients can submit quiz responses"
  const AlreadyAnswered := "You have already completed the quiz today. Please come back tomorrow!"
  const QuizNotFound := "Quiz not found"
  const NotAuthenticated := "Not authenticated"
  const OnlyOncologistsView := "Only oncologists can view patient history"
  const OnlyPatientsView := "Only patients can view their responses"

  /** The `limit` a history query uses when the caller gives none. */
  const DefaultHistoryLimit := 30

  /** One answer of the submitted form. */
  datatype SubmittedAnswer = SubmittedAnswer(questionId: nat, answerValue: string)

  /** The caller is signed in with the PATIENT role. */
  predicate IsPatient(caller: Option<User>)
  {
    caller.Some? && caller.value.role == Patient
  }

  function QuestionNotFound(questionId: nat): string
  {
    "Question " + JsParse.DecimalString(questionId) + " not found"
  }

  /** `quiz.questions.find(q => q.id === questionId)`. */
  function QuestionFor(qs: seq<Question>, questionId: nat): (r: Option<Question>)
    ensures r.Some? ==> r.value in qs && r.value.id == questionId
    ensures r.None? <==> forall i :: 0 <= i < |qs| ==> qs[i].id != questionId
  {
    if qs == [] then None
    else if qs[0].id == questionId then Some(qs[0])
    else QuestionFor(qs[1..], questionId)
  }

  /** Where the first answer whose question the quiz lacks sits, or `|ans|`. */
  function MissingAt(qs: seq<Question>, ans: seq<SubmittedAnswer>): (k: nat)
    ensures k <= |ans|
    ensures k < |ans| ==> QuestionFor(qs, ans[k].questionId).None?
    ensures forall i :: 0 <= i < k ==> QuestionFor(qs, ans[i].questionId).Some?
  {
    if ans == [] || QuestionFor(qs, ans[0].questionId).None? then 0
    else 1 + MissingAt(qs, ans[1..])
  }

  /** An answer joined with its question's weight and type. */
  function Weigh(q: Question, a: SubmittedAnswer): WeightedAnswer
  {
    WeightedAnswer(a.questionId, q.weight, q.questionType, a.answerValue)
  }

  /** `input.answers.map(...)`: each answer joined with its question, in the
      order of the answers; the first answer whose question is missing
      throws. */
  function WeighAnswers(qs: seq<Question>, ans: seq<SubmittedAnswer>): (r: Result<seq<WeightedAnswer>>)
    ensures r.Err? <==> MissingAt(qs, ans) < |ans|
    ensures r.Err? ==> r.message == QuestionNotFound(ans[MissingAt(qs, ans)].questionId)
    ensures r.Ok? ==> |r.value| == |ans|
    ensures r.Ok? ==> forall i :: 0 <= i < |ans| ==>
              QuestionFor(qs, ans[i].questionId).Some? &&
              r.value[i] == Weigh(QuestionFor(qs, ans[i].questionId).value, ans[i])
  {
    if ans == [] then Ok([])
    else
      match QuestionFor(qs, ans[0].questionId)
      case None => Err(QuestionNotFound(ans[0].questionId))
      case Some(q) =>
        match WeighAnswers(qs, ans[1..])
        case Err(m) => Err(m)
        case Ok(rest) => Ok([Weigh(q, ans[0])] + rest)
  }

  /** Every answered question is a question of the quiz. */
  predicate AllAnswered(qs: seq<Question>, ans: seq<SubmittedAnswer>)
  {
    forall i :: 0 <= i < |ans| ==> exists q :: q in qs && q.id == ans[i].questionId
  }

  lemma WeighAnswersOk(qs: seq<Question>, ans: seq<SubmittedAnswer>)
    ensures WeighAnswers(qs, ans).Ok? <==> AllAnswered(qs, ans)
    ensures WeighAnswers(qs, ans).Ok? ==> forall i :: 0 <= i < |ans| ==>
              && WeighAnswers(qs, ans).value[i].questionId == ans[i].questionId
              && WeighAnswers(qs, ans).value[i].answerValue == ans[i].answerValue
              && exists q :: q in qs && q.id == ans[i].questionId
                   && WeighAnswers(qs, ans).value[i].weight == q.weight
                   && WeighAnswers(qs, ans).value[i].questionType == q.questionType
  {
    var k := MissingAt(qs, ans);
    if k < |ans| {
      assert !exists q :: q in qs && q.id == ans[k].questionId;
    } else {
      forall i | 0 <= i < |ans| ensures exists q :: q in qs && q.id == ans[i].questionId {
        assert QuestionFor(qs, ans[i].questionId).value in qs;
      }
    }
  }

  /** The checks of `submitDaily` up to the weighing of the answers, in the
      order the handler makes them; the weighted answers when all pass. */
  function Admission(db: Store, caller: Option<User>, quizId: nat, answers: seq<SubmittedAnswer>, midnight: int)
    : (r: Result<seq<WeightedAnswer>>)
    reads db
    ensures !IsPatient(caller) ==> r == Err(OnlyPatientsSubmit)
    ensures r.Ok? <==>
              && IsPatient(caller)
              && db.online
              && (forall i :: 0 <= i < |db.responses| ==> !IsToday(db.responses[i], caller.value.id, quizId, midnight))
              && db.QuizById(quizId).Some?
              && AllAnswered(db.QuizById(quizId).value.questions, answers)
    ensures IsPatient(caller) && !db.online ==> r == Err(DbUnavailable)
    ensures IsPatient(caller) && db.online
            && (exists i :: 0 <= i < |db.responses| && IsToday(db.responses[i], caller.value.id, quizId, midnight)) ==>
              r == Err(AlreadyAnswered)
    ensures IsPatient(caller) && db.TodayResponse(caller.value.id, quizId, midnight).None? && db.online
            && db.QuizById(quizId).None? ==>
              r == Err(QuizNotFound)
    ensures IsPatient(caller) && db.TodayResponse(caller.value.id, quizId, midnight).None? && db.online
            && db.QuizWithQuestions(quizId).Some? ==>
              var qs := db.QuizWithQuestions(quizId).value.questions;
              MissingAt(qs, answers) < |answers| ==> r == Err(QuestionNotFound(answers[MissingAt(qs, answers)].questionId))
    ensures r.Ok? ==>
              db.QuizWithQuestions(quizId).Some? && r == WeighAnswers(db.QuizWithQuestions(quizId).value.questions, answers)
  {
    if !IsPatient(caller) then Err(OnlyPatientsSubmit)
    else if !db.online then Err(DbUnavailable)
    else if db.TodayResponse(caller.value.id, quizId, midnight).Some? then Err(AlreadyAnswered)
    else
      match db.QuizWithQuestions(quizId)
      case None => Err(QuizNotFound)
      case Some(quiz) =>
        WeighAnswersOk(quiz.questions, answers);
        QuestionsOfSnapshot(db.QuizById(quizId).value, answers);
        WeighAnswers(quiz.questions, answers)
  }

  /** The snapshot holds the same question ids as the stored quiz. */
  lemma QuestionsOfSnapshot(quiz: Quiz, ans: seq<SubmittedAnswer>)
    ensures AllAnswered(QuizView.Snapshot(quiz).questions, ans) <==> AllAnswered(quiz.questions, ans)
  {
    var s := QuizView.Snapshot(quiz).questions;
    QuizView.SnapshotPermutes(quiz);
    var m := QuizView.SortAllOptions(quiz.questions);
    assert forall q :: q in s <==> q in m by {
      forall q ensures q in s <==> q in m {
        assert q in s <==> q in multiset(s);
        assert q in m <==> q in multiset(m);
      }
    }
    forall i | 0 <= i < |ans|
      ensures (exists q :: q in s && q.id == ans[i].questionId) <==> (exists q :: q in quiz.questions && q.id == ans[i].questionId)
    {
      if q :| q in s && q.id == ans[i].questionId {
        var j :| 0 <= j < |m| && m[j] == q;
        assert quiz.questions[j].id == q.id;
      }
      if q :| q in quiz.questions && q.id == ans[i].questionId {
        var j :| 0 <= j < |quiz.questions| && quiz.questions[j] == q;
        assert m[j] in s;
      }
    }
  }

  /** The answer rows of one response, given ids after `last` in answer
      order. */
  function AnswerRows(responseId: nat, ans: seq<SubmittedAnswer>, last: nat): (r: seq<ResponseAnswer>)
    ensures |r| == |ans|
    ensures forall i :: 0 <= i < |ans| ==>
              r[i] == ResponseAnswer(last + i + 1, responseId, ans[i].questionId, ans[i].answerValue)
  {
    seq(|ans|, i requires 0 <= i < |ans| => ResponseAnswer(last + i + 1, responseId, ans[i].questionId, ans[i].answerValue))
  }

  /** The rules of a quiz copied into a fresh array, which the resolver
      sorts. */
  method RulesArray(rules: seq<ScoringRule>) returns (a: array<ScoringRule>)
    ensures fresh(a) && a[..] == rules
  {
    a := new ScoringRule[|rules|](i requires 0 <= i < |rules| => rules[i]);
  }

  /** The write loop of `submitDaily`: one answer row per submitted answer,
      in answer order, each with the next answer-row id. */
  method StoreAnswers(db: Store, responseId: nat, answers: seq<SubmittedAnswer>)
    requires db.Valid() && db.online
    modifies db`counters, db`answers
    ensures db.Valid()
    ensures db.answers == old(db.answers) + AnswerRows(responseId, answers, old(db.counters).quizResponseAnswers)
    ensures db.counters == old(db.counters).(quizResponseAnswers := old(db.counters).quizResponseAnswers + |answers|)
  {
    ghost var c0 := db.counters;
    for i := 0 to |answers|
      invariant db.Valid()
      invariant db.answers == old(db.answers) + AnswerRows(responseId, answers[..i], c0.quizResponseAnswers)
      invariant db.counters == c0.(quizResponseAnswers := c0.quizResponseAnswers + i)
    {
      var row := db.InsertResponseAnswer(responseId, answers[i].questionId, answers[i].answerValue);
      assert row.value == ResponseAnswer(c0.quizResponseAnswers + i + 1, responseId, answers[i].questionId, answers[i].answerValue);
      assert AnswerRows(responseId, answers[..i + 1], c0.quizResponseAnswers)
          == AnswerRows(responseId, answers[..i], c0.quizResponseAnswers) + [row.value];
    }
    assert answers[..|answers|] == answers;
  }

  /** What `submitDaily` does once every check has passed: score, resolve
      against a sorted copy of the quiz's tiers, insert the response dated
      `now`, then its answer rows. */
  method StoreSubmission(db: Store, userId: nat, quizId: nat, weighted: seq<WeightedAnswer>,
                         answers: seq<SubmittedAnswer>, now: int)
    returns (response: QuizResponse)
    requires db.Valid() && db.online
    modifies db`counters, db`responses, db`answers
    ensures db.Valid()
    ensures var advice := Resolve(Score(weighted), old(db.ScoringConfigForQuiz(quizId)));
            response == QuizResponse(old(db.counters).quizResponses + 1, userId, quizId, now, Score(weighted),
                                     advice.isGoodDay, advice.recommendedExerciseType)
    ensures db.responses == old(db.responses) + [response]
    ensures db.answers == old(db.answers) + AnswerRows(response.id, answers, old(db.counters).quizResponseAnswers)
    ensures db.counters == old(db.counters).(quizResponses := old(db.counters).quizResponses + 1,
                                            quizResponseAnswers := old(db.counters).quizResponseAnswers + |answers|)
  {
    var totalScore := CalculateScore(weighted);
    var configs := RulesArray(db.ScoringConfigForQuiz(quizId));
    var advice := GetRecommendation(totalScore, configs);
    var inserted := db.InsertQuizResponse(userId, quizId, now, totalScore,
                                          advice.isGoodDay, advice.recommendedExerciseType);
    response := inserted.value;
    StoreAnswers(db, response.id, answers);
  }

  /** `submitDaily`, storing the response through the store's insert. Any
      failed check throws before anything is written; on success exactly one
      response (the computed score and the resolved recommendation, dated
      `now`) and one answer row per submitted answer, in answer order, are
      added, and the stored response is returned. */
  method SubmitDaily(db: Store, caller: Option<User>, quizId: nat, answers: seq<SubmittedAnswer>,
                     now: int, midnight: int)
    returns (r: Result<QuizResponse>)
    requires db.Valid()
    modifies db`counters, db`responses, db`answers
    ensures db.Valid()
    ensures old(Admission(db, caller, quizId, answers, midnight)).Err? ==>
              && r == Err(old(Admission(db, caller, quizId, answers, midnight)).message)
              && db.counters == old(db.counters) && db.responses == old(db.responses) && db.answers == old(db.answers)
    ensures old(Admission(db, caller, quizId, answers, midnight)).Ok? ==>
              var weighted := old(Admission(db, caller, quizId, answers, midnight)).value;
              var advice := Resolve(Score(weighted), old(db.ScoringConfigForQuiz(quizId)));
              var c0 := old(db.counters);
              && r == Ok(QuizResponse(c0.quizResponses + 1, caller.value.id, quizId, now, Score(weighted),
                                      advice.isGoodDay, advice.recommendedExerciseType))
              && db.responses == old(db.responses) + [r.value]
              && db.answers == old(db.answers) + AnswerRows(r.value.id, answers, c0.quizResponseAnswers)
              && db.counters == c0.(quizResponses := c0.quizResponses + 1,
                                    quizResponseAnswers := c0.quizResponseAnswers + |answers|)
  {
    var admitted := Admission(db, caller, quizId, answers, midnight);
    if admitted.Err? {
      return Err(admitted.message);
    }
    var response := StoreSubmission(db, caller.value.id, quizId, admitted.value, answers, now);
    r := Ok(response);
  }

  /** `submitDaily` as the handler is written: the connection `getDb`
      returns is a MongoDB database handle, which has no `insert` method, so
      once every check has passed and the score and recommendation are
      computed, `db.insert(quizResponses)` throws a TypeError and nothing is
      stored. */
  method SubmitDailyAsWritten(db: Store, caller: Option<User>, quizId: nat, answers: seq<SubmittedAnswer>,
                              now: int, midnight: int)
    returns (r: Result<QuizResponse>)
    ensures Admission(db, caller, quizId, answers, midnight).Err? ==>
              r == Err(Admission(db, caller, quizId, answers, midnight).message)
    ensures Admission(db, caller, quizId, answers, midnight).Ok? ==> r == Err(InsertIsNotAFunction)
    ensures r.Err?
  {
    var admitted := Admission(db, caller, quizId, answers, midnight);
    if admitted.Err? {
      return Err(admitted.message);
    }
    var totalScore := CalculateScore(admitted.value);
    var configs := RulesArray(db.ScoringConfigForQuiz(quizId));
    var advice := GetRecommendation(totalScore, configs);
    r := Err(InsertIsNotAFunction);
  }

  const InsertIsNotAFunction := "db.insert is not a function"

  /** A patient with no response today who answers nothing on a stored quiz
      passes every check, so the handler as written fails on a submission
      the store accepts. */
  lemma AdmissibleSubmission(db: Store, patient: User, quizId: nat, midnight: int)
    requires patient.role == Patient && db.online && db.responses == []
    requires exists i :: 0 <= i < |db.quizzes| && db.quizzes[i].id == quizId
    ensures Admission(db, Some(patient), quizId, [], midnight).Ok?
  {
    var i :| 0 <= i < |db.quizzes| && db.quizzes[i].id == quizId;
    assert db.QuizById(quizId).Some?;
  }

  /** `getMyHistory`: the caller's own responses, newest first, at most
      `limit` (30 when absent) of them. */
  function GetMyHistory(db: Store, caller: Option<User>, limit: Option<int>): (r: Result<seq<QuizResponse>>)
    reads db
    ensures r.Err? <==> caller.None?
    ensures r.Err? ==> r.message == NotAuthenticated
    ensures r.Ok? ==> forall i :: 0 <= i < |r.value| ==> r.value[i].userId == caller.value.id && r.value[i] in db.responses
    ensures r.Ok? ==> forall i, j :: 0 <= i < j < |r.value| ==> r.value[i].responseDate >= r.value[j].responseDate
    ensures r.Ok? && limit.None? ==> |r.value| <= DefaultHistoryLimit
    ensures r.Ok? && limit.Some? && CursorLimit(limit.value) > 0 ==> |r.value| <= CursorLimit(limit.value)
    ensures r.Ok? ==> multiset(r.value) <= multiset(Own(db.responses, caller.value.id))
    ensures r.Ok? ==> r.value == if !db.online then []
                                 else History(db.responses, caller.value.id,
                                              if limit.Some? then limit.value else DefaultHistoryLimit)
  {
    if caller.None? then Err(NotAuthenticated)
    else Ok(db.PatientResponses(caller.value.id, if limit.Some? then limit.value else DefaultHistoryLimit))
  }

  /** `getPatientHistory`: any patient's responses, for oncologists only. */
  function GetPatientHistory(db: Store, caller: Option<User>, patientId: nat, limit: Option<int>)
    : (r: Result<seq<QuizResponse>>)
    reads db
    ensures r.Err? <==> caller.None? || caller.value.role != Oncologist
    ensures r.Err? ==> r.message == OnlyOncologistsView
    ensures r.Ok? ==> forall i :: 0 <= i < |r.value| ==> r.value[i].userId == patientId && r.value[i] in db.responses
    ensures r.Ok? ==> forall i, j :: 0 <= i < j < |r.value| ==> r.value[i].responseDate >= r.value[j].responseDate
    ensures r.Ok? && limit.None? ==> |r.value| <= DefaultHistoryLimit
    ensures r.Ok? && limit.Some? && CursorLimit(limit.value) > 0 ==> |r.value| <= CursorLimit(limit.value)
    ensures r.Ok? ==> multiset(r.value) <= multiset(Own(db.responses, patientId))
    ensures r.Ok? ==> r.value == if !db.online then []
                                 else History(db.responses, patientId,
                                              if limit.Some? then limit.value else DefaultHistoryLimit)
  {
    if caller.None? || caller.value.role != Oncologist then Err(OnlyOncologistsView)
    else Ok(db.PatientResponses(patientId, if limit.Some? then limit.value else DefaultHistoryLimit))
  }

  /** `getToday`: the caller's response to the quiz since midnight, or null. */
  function GetToday(db: Store, caller: Option<User>, quizId: nat, midnight: int): (r: Result<Option<QuizResponse>>)
    reads db
    ensures r.Err? <==> !IsPatient(caller)
    ensures r.Err? ==> r.message == OnlyPatientsView
    ensures r.Ok? && r.value.Some? ==>
              r.value.value in db.responses && IsToday(r.value.value, caller.value.id, quizId, midnight)
    ensures r.Ok? ==> (r.value.None? <==>
              !db.online || forall i :: 0 <= i < |db.responses| ==> !IsToday(db.responses[i], caller.value.id, quizId, midnight))
  {
    if !IsPatient(caller) then Err(OnlyPatientsView)
    else Ok(db.TodayResponse(caller.value.id, quizId, midnight))
  }

  /** A same-day response blocks a second submission to the quiz until the
      next midnight, and leaves the store as it was. */
  lemma SecondSubmissionRejected(db: Store, caller: Option<User>, quizId: nat, answers: seq<SubmittedAnswer>,
                                 midnight: int, earlier: QuizResponse)
    requires IsPatient(caller) && db.online
    requires earlier in db.responses && IsToday(earlier, caller.value.id, quizId, midnight)
    ensures Admission(db, caller, quizId, answers, midnight) == Err(AlreadyAnswered)
  {
    var k :| 0 <= k < |db.responses| && db.responses[k] == earlier;
    assert db.TodayResponse(caller.value.id, quizId, midnight).Some?;
  }
}
