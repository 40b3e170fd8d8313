/** The document store behind the server (users, patient profiles, quizzes
    with their embedded questions and scoring tiers, responses, answer rows,
    exercise tutorials and the id counters), held in memory. `online` says
    whether a database connection is configured; without one, reads return
    nothing and inserts fail with "Database not available". */
module Db {
  import opened Common
  import opened Types
  import opened Sorting
  import opened Baseline
  import opened QuizView
  import opened Records

  const DbUnavailable := "Database not available"

  /** `email.trim().toLowerCase()`. */
  function NormalizeEmail(email: string): string
  {
    ToLower(Trim(email))
  }

  /** A normalized address has no white space at either end and no
      upper-case ASCII letter. */
  lemma NormalizedEmailShape(email: string)
    ensures Trimmed(NormalizeEmail(email))
    ensures forall i :: 0 <= i < |NormalizeEmail(email)| ==> !('A' <= NormalizeEmail(email)[i] <= 'Z')
  {
    TrimIsTrimmed(email);
    ToLowerKeepsTrimmed(Trim(email));
  }

  /** Normalizing an address that is already normalized changes nothing. */
  lemma NormalizeEmailIdempotent(email: string)
    ensures NormalizeEmail(NormalizeEmail(email)) == NormalizeEmail(email)
  {
    var n := NormalizeEmail(email);
    NormalizedEmailShape(email);
    TrimOfTrimmed(n);
    ToLowerIdempotent(Trim(email));
  }

  /** The `_id` of a counter document, one per sequence of ids. */
  datatype CounterName = Users | PatientProfiles | Quizzes | QuizQuestions | QuizQuestionOptions
                       | QuizScoringConfig | QuizResponses | QuizResponseAnswers | ExerciseTutorials

  function SequenceName(c: CounterName): string
  {
    match c
    case Users => "users"
    case PatientProfiles => "patient_profiles"
    case Quizzes => "quizzes"
    case QuizQuestions => "quiz_questions"
    case QuizQuestionOptions => "quiz_question_options"
    case QuizScoringConfig => "quiz_scoring_config"
    case QuizResponses => "quiz_responses"
    case QuizResponseAnswers => "quiz_response_answers"
    case ExerciseTutorials => "exercise_tutorials"
  }

  /** The counters collection, one field per sequence name: the last id
      handed out, 0 for a counter document never written. */
  datatype Counters = Counters(
    users: nat, patientProfiles: nat, quizzes: nat, quizQuestions: nat, quizQuestionOptions: nat,
    quizScoringConfig: nat, quizResponses: nat, quizResponseAnswers: nat, exerciseTutorials: nat)

  const NoCounters := Counters(0, 0, 0, 0, 0, 0, 0, 0, 0)

  /** The current value of the counter document with this name. */
  function Counter(c: Counters, name: CounterName): nat
  {
    match name
    case Users => c.users
    case PatientProfiles => c.patientProfiles
    case Quizzes => c.quizzes
    case QuizQuestions => c.quizQuestions
    case QuizQuestionOptions => c.quizQuestionOptions
    case QuizScoringConfig => c.quizScoringConfig
    case QuizResponses => c.quizResponses
    case QuizResponseAnswers => c.quizResponseAnswers
    case ExerciseTutorials => c.exerciseTutorials
  }

  /** `$inc: { seq: 1 }` on one counter document. */
  function Bump(c: Counters, name: CounterName): (r: Counters)
    ensures Counter(r, name) == Counter(c, name) + 1
    ensures Grown(c, r)
  {
    match name
    case Users => c.(users := c.users + 1)
    case PatientProfiles => c.(patientProfiles := c.patientProfiles + 1)
    case Quizzes => c.(quizzes := c.quizzes + 1)
    case QuizQuestions => c.(quizQuestions := c.quizQuestions + 1)
    case QuizQuestionOptions => c.(quizQuestionOptions := c.quizQuestionOptions + 1)
    case QuizScoringConfig => c.(quizScoringConfig := c.quizScoringConfig + 1)
    case QuizResponses => c.(quizResponses := c.quizResponses + 1)
    case QuizResponseAnswers => c.(quizResponseAnswers := c.quizResponseAnswers + 1)
    case ExerciseTutorials => c.(exerciseTutorials := c.exerciseTutorials + 1)
  }

  /** Drawing an id from one sequence leaves every other sequence alone. */
  lemma BumpOthers(c: Counters, name: CounterName, other: CounterName)
    requires other != name
    ensures Counter(Bump(c, name), other) == Counter(c, other)
  {
  }

  /** No counter went down. */
  predicate Grown(c0: Counters, c: Counters)
  {
    && c0.users <= c.users && c0.patientProfiles <= c.patientProfiles && c0.quizzes <= c.quizzes
    && c0.quizQuestions <= c.quizQuestions && c0.quizQuestionOptions <= c.quizQuestionOptions
    && c0.quizScoringConfig <= c.quizScoringConfig && c0.quizResponses <= c.quizResponses
    && c0.quizResponseAnswers <= c.quizResponseAnswers && c0.exerciseTutorials <= c.exerciseTutorials
  }

  /** Ids of a collection in storage order: positive, none above the
      collection's counter, and strictly increasing, because every insert
      appends an id freshly drawn from that counter. In particular no two
      records of a collection share an id. */
  predicate IdsOk(ids: seq<nat>, bound: nat)
  {
    && (forall i :: 0 <= i < |ids| ==> 0 < ids[i] <= bound)
    && (forall i, j :: 0 <= i < j < |ids| ==> ids[i] < ids[j])
  }

  /** An id drawn from the counter is new to the collection. */
  lemma IdsOkSnoc(ids: seq<nat>, x: nat, bound: nat)
    requires IdsOk(ids, bound) && x == bound + 1
    ensures IdsOk(ids + [x], x)
    ensures forall i :: 0 <= i < |ids| ==> ids[i] != x
  {
  }

  /** Removing one record keeps the ids of the others apart. */
  lemma IdsOkDrop(ids: seq<nat>, k: nat, bound: nat)
    requires k < |ids| && IdsOk(ids, bound)
    ensures IdsOk(ids[..k] + ids[k + 1..], bound)
  {
    var t := ids[..k] + ids[k + 1..];
    forall i | 0 <= i < |t| ensures t[i] == ids[if i < k then i else i + 1] {
    }
  }

  /** The ids of each collection, in storage order. */
  function QuizIds(qs: seq<Quiz>): (r: seq<nat>)
    ensures |r| == |qs| && forall i :: 0 <= i < |qs| ==> r[i] == qs[i].id
  {
    seq(|qs|, i requires 0 <= i < |qs| => qs[i].id)
  }

  function ResponseIds(rs: seq<QuizResponse>): (r: seq<nat>)
    ensures |r| == |rs| && forall i :: 0 <= i < |rs| ==> r[i] == rs[i].id
  {
    seq(|rs|, i requires 0 <= i < |rs| => rs[i].id)
  }

  function AnswerIds(ans: seq<ResponseAnswer>): (r: seq<nat>)
    ensures |r| == |ans| && forall i :: 0 <= i < |ans| ==> r[i] == ans[i].id
  {
    seq(|ans|, i requires 0 <= i < |ans| => ans[i].id)
  }

  function UserIds(us: seq<User>): (r: seq<nat>)
    ensures |r| == |us| && forall i :: 0 <= i < |us| ==> r[i] == us[i].id
  {
    seq(|us|, i requires 0 <= i < |us| => us[i].id)
  }

  function ProfileIds(ps: seq<PatientProfile>): (r: seq<nat>)
    ensures |r| == |ps| && forall i :: 0 <= i < |ps| ==> r[i] == ps[i].id
  {
    seq(|ps|, i requires 0 <= i < |ps| => ps[i].id)
  }

  function ExerciseIds(es: seq<Exercise>): (r: seq<nat>)
    ensures |r| == |es| && forall i :: 0 <= i < |es| ==> r[i] == es[i].id
  {
    seq(|es|, i requires 0 <= i < |es| => es[i].id)
  }

  /** At most one quiz is active: every active quiz is the first active
      one. */
  predicate OneActive(qs: seq<Quiz>)
  {
    forall i :: 0 <= i < |qs| && qs[i].isActive ==> i == ActiveIndex(qs)
  }

  /** `OneActive` as a statement about pairs. */
  lemma OneActiveUnique(qs: seq<Quiz>)
    requires OneActive(qs)
    ensures forall i, j :: 0 <= i < |qs| && 0 <= j < |qs| && qs[i].isActive && qs[j].isActive ==> i == j
  {
  }

  lemma UniqueOneActive(qs: seq<Quiz>)
    requires forall i, j :: 0 <= i < |qs| && 0 <= j < |qs| && qs[i].isActive && qs[j].isActive ==> i == j
    ensures OneActive(qs)
  {
    forall i | 0 <= i < |qs| && qs[i].isActive ensures i == ActiveIndex(qs) {
      assert ActiveIndex(qs) <= i;
    }
  }

  /** `updateMany({ isActive: true, id: { $ne: keep } }, { $set: { isActive: false } })`,
      with `None` for no exception. */
  function Deactivated(qs: seq<Quiz>, keep: Option<nat>): (r: seq<Quiz>)
    ensures |r| == |qs|
    ensures forall i :: 0 <= i < |qs| ==>
              r[i].(isActive := qs[i].isActive) == qs[i]
              && (r[i].isActive <==> qs[i].isActive && keep == Some(qs[i].id))
  {
    seq(|qs|, i requires 0 <= i < |qs| =>
      if qs[i].isActive && keep != Some(qs[i].id) then qs[i].(isActive := false) else qs[i])
  }

  lemma DeactivatedKeepsIds(qs: seq<Quiz>, keep: Option<nat>)
    ensures QuizIds(Deactivated(qs, keep)) == QuizIds(qs)
  {
  }

  /** Deactivating every quiz but those with one id leaves at most one
      active quiz when ids are distinct. */
  lemma DeactivatedOneActive(qs: seq<Quiz>, keep: Option<nat>, bound: nat)
    requires IdsOk(QuizIds(qs), bound)
    ensures OneActive(Deactivated(qs, keep))
  {
    var d := Deactivated(qs, keep);
    forall i, j | 0 <= i < |d| && 0 <= j < |d| && d[i].isActive && d[j].isActive ensures i == j {
      assert QuizIds(qs)[i] == qs[i].id && QuizIds(qs)[j] == qs[j].id;
    }
    UniqueOneActive(d);
  }

  /** Replacing one quiz keeps at most one active, provided the replacement
      is inactive or every other quiz is. */
  lemma ReplaceOneActive(qs: seq<Quiz>, k: nat, q: Quiz)
    requires k < |qs| && OneActive(qs)
    requires q.isActive ==> forall i :: 0 <= i < |qs| && i != k ==> !qs[i].isActive
    ensures OneActive(qs[k := q])
  {
    OneActiveUnique(qs);
    UniqueOneActive(qs[k := q]);
  }

  /** Appending a quiz keeps at most one active, provided it is inactive or
      no other quiz is active. */
  lemma AppendOneActive(qs: seq<Quiz>, q: Quiz)
    requires OneActive(qs)
    requires q.isActive ==> forall i :: 0 <= i < |qs| ==> !qs[i].isActive
    ensures OneActive(qs + [q])
  {
    OneActiveUnique(qs);
    var r := qs + [q];
    forall i, j | 0 <= i < |r| && 0 <= j < |r| && r[i].isActive && r[j].isActive ensures i == j {
      if i < |qs| {
        assert r[i] == qs[i];
      }
      if j < |qs| {
        assert r[j] == qs[j];
      }
    }
    UniqueOneActive(r);
  }

  /** The quizzes after `createQuiz` appends `q` with a fresh id: the
      invariant holds, an active new quiz is the only active one, and an
      inactive one leaves the others as they were. */
  lemma CreatedQuizzesOk(qs: seq<Quiz>, q: Quiz, bound: nat)
    requires QuizzesOk(qs, bound) && q.id == bound + 1
    ensures var r := (if q.isActive then Deactivated(qs, None) else qs) + [q];
            && QuizzesOk(r, q.id)
            && (q.isActive ==> forall i :: 0 <= i < |r| ==> (r[i].isActive <==> i == |r| - 1))
            && (!q.isActive ==> r[..|qs|] == qs)
  {
    var kept := if q.isActive then Deactivated(qs, None) else qs;
    assert QuizIds(kept) == QuizIds(qs);
    assert QuizIds(kept + [q]) == QuizIds(kept) + [q.id];
    IdsOkSnoc(QuizIds(kept), q.id, bound);
    AppendOneActive(kept, q);
    assert (kept + [q])[..|qs|] == kept;
  }

  /** Replacing a quiz by one with the same id and the same activity keeps
      the quiz invariant. */
  lemma ReplaceKeepsQuizzesOk(qs: seq<Quiz>, k: nat, q: Quiz, bound: nat)
    requires k < |qs| && q.id == qs[k].id && q.isActive == qs[k].isActive
    requires QuizzesOk(qs, bound)
    ensures QuizzesOk(qs[k := q], bound)
  {
    ReplaceKeepsIds(qs, k, q);
    ReplaceOneActive(qs, k, q);
  }

  lemma ReplaceKeepsIds(qs: seq<Quiz>, k: nat, q: Quiz)
    requires k < |qs| && q.id == qs[k].id
    ensures QuizIds(qs[k := q]) == QuizIds(qs)
  {
    assert forall i :: 0 <= i < |qs| ==> QuizIds(qs[k := q])[i] == QuizIds(qs)[i];
  }

  function QuizIndex(qs: seq<Quiz>, quizId: nat): (k: nat)
    ensures k <= |qs|
    ensures k < |qs| ==> qs[k].id == quizId
    ensures forall i :: 0 <= i < k ==> qs[i].id != quizId
  {
    FirstIndex(qs, (q: Quiz) => q.id == quizId)
  }

  function QuestionIndex(qs: seq<Question>, questionId: nat): (k: nat)
    ensures k <= |qs|
    ensures k < |qs| ==> qs[k].id == questionId
    ensures forall i :: 0 <= i < k ==> qs[i].id != questionId
  {
    FirstIndex(qs, (q: Question) => q.id == questionId)
  }

  predicate HasQuestion(quiz: Quiz, questionId: nat)
  {
    QuestionIndex(quiz.questions, questionId) < |quiz.questions|
  }

  /** The first quiz holding a question with this id (the filter
      `{ "questions.id": questionId }`). */
  function HolderIndex(qs: seq<Quiz>, questionId: nat): (k: nat)
    ensures k <= |qs|
    ensures k < |qs| ==> HasQuestion(qs[k], questionId)
    ensures forall i :: 0 <= i < k ==> !HasQuestion(qs[i], questionId)
  {
    FirstIndex(qs, (q: Quiz) => HasQuestion(q, questionId))
  }

  function ActiveIndex(qs: seq<Quiz>): (k: nat)
    ensures k <= |qs|
    ensures k < |qs| ==> qs[k].isActive
    ensures forall i :: 0 <= i < k ==> !qs[i].isActive
  {
    FirstIndex(qs, (q: Quiz) => q.isActive)
  }

  /** `$pull: { questions: { id: questionId } }`. */
  function WithoutQuestion(qs: seq<Question>, questionId: nat): (r: seq<Question>)
    ensures forall i :: 0 <= i < |r| ==> r[i].id != questionId && r[i] in qs
    ensures forall i :: 0 <= i < |qs| && qs[i].id != questionId ==> qs[i] in r
  {
    Filter(qs, (q: Question) => q.id != questionId)
  }

  /** `$set` of the provided quiz fields: only those change. */
  function PatchQuiz(q: Quiz, name: Option<string>, description: Option<Option<string>>, isActive: Option<bool>): (r: Quiz)
    ensures r.name == if name.Some? then name.value else q.name
    ensures r.description == if description.Some? then description.value else q.description
    ensures r.isActive == if isActive.Some? then isActive.value else q.isActive
    ensures r.(name := q.name, description := q.description, isActive := q.isActive) == q
  {
    q.(name := if name.Some? then name.value else q.name,
       description := if description.Some? then description.value else q.description,
       isActive := if isActive.Some? then isActive.value else q.isActive)
  }

  /** `$set` of the provided question fields: only those change. */
  function PatchQuestion(q: Question, text: Option<string>, weight: Option<real>, order: Option<int>): (r: Question)
    ensures r.text == if text.Some? then text.value else q.text
    ensures r.weight == if weight.Some? then weight.value else q.weight
    ensures r.order == if order.Some? then order.value else q.order
    ensures r.(text := q.text, weight := q.weight, order := q.order) == q
  {
    q.(text := if text.Some? then text.value else q.text,
       weight := if weight.Some? then weight.value else q.weight,
       order := if order.Some? then order.value else q.order)
  }

  /** The quizzes after `updateQuizById`, and the quiz it reads back. */
  function UpdatedQuizzes(qs: seq<Quiz>, quizId: nat, name: Option<string>, description: Option<Option<string>>, isActive: Option<bool>)
    : (r: (seq<Quiz>, Option<Quiz>))
    ensures |r.0| == |qs|
    ensures r.1.None? <==> forall i :: 0 <= i < |qs| ==> qs[i].id != quizId
    ensures r.1.Some? ==> r.1.value.id == quizId && r.1.value in r.0
    ensures r.1.Some? && name.Some? ==> r.1.value.name == name.value
    ensures r.1.Some? && description.Some? ==> r.1.value.description == description.value
    ensures r.1.Some? && isActive.Some? ==> r.1.value.isActive == isActive.value
    ensures r.1.Some? ==>
              var k := QuizIndex(qs, quizId);
              && k < |qs| && r.1.value == r.0[k]
              && r.1.value.(name := qs[k].name, description := qs[k].description, isActive := qs[k].isActive) == qs[k]
              && (name.None? ==> r.1.value.name == qs[k].name)
              && (description.None? ==> r.1.value.description == qs[k].description)
              && (isActive.None? ==> r.1.value.isActive == qs[k].isActive)
  {
    var ds := if isActive == Some(true) then Deactivated(qs, Some(quizId)) else qs;
    assert forall i :: 0 <= i < |qs| ==> ds[i].id == qs[i].id;
    var k := QuizIndex(ds, quizId);
    if k == |ds| then (ds, None)
    else
      var u := PatchQuiz(ds[k], name, description, isActive);
      assert ds[k := u][k] == u;
      (ds[k := u], Some(u))
  }

  /** The update never changes an id, and a quiz without the id changes at
      most by being deactivated, which happens only when another quiz is
      activated. */
  lemma UpdatedQuizzesKeepsIds(qs: seq<Quiz>, quizId: nat, name: Option<string>, description: Option<Option<string>>, isActive: Option<bool>)
    ensures QuizIds(UpdatedQuizzes(qs, quizId, name, description, isActive).0) == QuizIds(qs)
    ensures forall i :: 0 <= i < |qs| && qs[i].id != quizId ==>
              var q := UpdatedQuizzes(qs, quizId, name, description, isActive).0[i];
              q.(isActive := qs[i].isActive) == qs[i] && (q.isActive <==> qs[i].isActive && isActive != Some(true))
  {
    var ds := if isActive == Some(true) then Deactivated(qs, Some(quizId)) else qs;
    assert QuizIds(ds) == QuizIds(qs);
    var k := QuizIndex(ds, quizId);
    if k < |ds| {
      ReplaceKeepsIds(ds, k, PatchQuiz(ds[k], name, description, isActive));
    }
  }

  /** Once every quiz without the id is deactivated, only the quiz holding
      the id may be active, because ids are distinct. */
  lemma ActivationKeepsOthersInactive(qs: seq<Quiz>, quizId: nat, bound: nat, k: nat)
    requires IdsOk(QuizIds(qs), bound) && k < |qs| && qs[k].id == quizId
    ensures forall i :: 0 <= i < |qs| && i != k ==> !Deactivated(qs, Some(quizId))[i].isActive
  {
    forall i | 0 <= i < |qs| && i != k ensures qs[i].id != quizId {
      assert QuizIds(qs)[i] == qs[i].id && QuizIds(qs)[k] == qs[k].id;
    }
  }

  /** With distinct ids, the update keeps at most one quiz active, and after
      an activation every active quiz has the activated id. */
  lemma UpdatedQuizzesOneActive(qs: seq<Quiz>, quizId: nat, name: Option<string>, description: Option<Option<string>>, isActive: Option<bool>, bound: nat)
    requires IdsOk(QuizIds(qs), bound) && OneActive(qs)
    ensures OneActive(UpdatedQuizzes(qs, quizId, name, description, isActive).0)
    ensures isActive == Some(true) ==>
              var r := UpdatedQuizzes(qs, quizId, name, description, isActive).0;
              forall i :: 0 <= i < |r| && r[i].isActive ==> r[i].id == quizId
  {
    var ds := if isActive == Some(true) then Deactivated(qs, Some(quizId)) else qs;
    if isActive == Some(true) {
      DeactivatedOneActive(qs, Some(quizId), bound);
    }
    assert QuizIds(ds) == QuizIds(qs);
    var k := QuizIndex(ds, quizId);
    if k < |ds| {
      var u := PatchQuiz(ds[k], name, description, isActive);
      if isActive == Some(true) {
        ActivationKeepsOthersInactive(qs, quizId, bound, k);
      }
      ReplaceOneActive(ds, k, u);
    }
  }

  function UserIndex(us: seq<User>, id: nat): (k: nat)
    ensures k <= |us|
    ensures k < |us| ==> us[k].id == id
    ensures forall i :: 0 <= i < k ==> us[i].id != id
  {
    FirstIndex(us, (u: User) => u.id == id)
  }

  function OpenIdIndex(us: seq<User>, openId: string): (k: nat)
    ensures k <= |us|
    ensures k < |us| ==> us[k].openId == openId
    ensures forall i :: 0 <= i < k ==> us[i].openId != openId
  {
    FirstIndex(us, (u: User) => u.openId == openId)
  }

  function EmailIndex(us: seq<User>, email: string): (k: nat)
    ensures k <= |us|
    ensures k < |us| ==> us[k].email == email
    ensures forall i :: 0 <= i < k ==> us[i].email != email
  {
    FirstIndex(us, (u: User) => u.email == email)
  }

  function ProfileIndex(ps: seq<PatientProfile>, userId: nat): (k: nat)
    ensures k <= |ps|
    ensures k < |ps| ==> ps[k].userId == userId
    ensures forall i :: 0 <= i < k ==> ps[i].userId != userId
  {
    FirstIndex(ps, (p: PatientProfile) => p.userId == userId)
  }

  /** The first user with the id is wherever the conditions that
      characterize it hold. */
  lemma UserIndexIs(us: seq<User>, id: nat, k: nat)
    requires k <= |us| && (k < |us| ==> us[k].id == id)
    requires forall i :: 0 <= i < k ==> us[i].id != id
    ensures UserIndex(us, id) == k
  {
  }

  /** The first profile of the user is wherever the conditions that
      characterize it hold. */
  lemma ProfileIndexIs(ps: seq<PatientProfile>, userId: nat, k: nat)
    requires k <= |ps| && (k < |ps| ==> ps[k].userId == userId)
    requires forall i :: 0 <= i < k ==> ps[i].userId != userId
    ensures ProfileIndex(ps, userId) == k
  {
  }

  function ExerciseIndex(es: seq<Exercise>, id: nat): (k: nat)
    ensures k <= |es|
    ensures k < |es| ==> es[k].id == id
    ensures forall i :: 0 <= i < k ==> es[i].id != id
  {
    FirstIndex(es, (e: Exercise) => e.id == id)
  }

  /** Tutorials seeded into an empty collection carry the ids after the
      counter's last value, in order. */
  lemma SeededExercisesIdsOk(ts: seq<ExerciseTemplate>, last: nat)
    ensures IdsOk(ExerciseIds(MakeExercises(ts, last)), last + |ts|)
  {
    var ids := ExerciseIds(MakeExercises(ts, last));
    assert forall i :: 0 <= i < |ids| ==> ids[i] == last + i + 1;
  }

  /** No two profiles belong to the same user. */
  predicate OneProfileEach(ps: seq<PatientProfile>)
  {
    forall i, j :: 0 <= i < j < |ps| ==> ps[i].userId != ps[j].userId
  }

  /** A profile for a user who has none keeps one profile per user. */
  lemma AppendKeepsOneProfileEach(ps: seq<PatientProfile>, p: PatientProfile)
    requires OneProfileEach(ps)
    requires forall i :: 0 <= i < |ps| ==> ps[i].userId != p.userId
    ensures OneProfileEach(ps + [p])
  {
  }

  /** So does replacing a profile by one of the same owner. */
  lemma ReplaceKeepsOneProfileEach(ps: seq<PatientProfile>, k: nat, p: PatientProfile)
    requires OneProfileEach(ps) && k < |ps| && p.userId == ps[k].userId
    ensures OneProfileEach(ps[k := p])
  {
  }

  /** At most one active quiz, and quiz ids within their counter. */
  ghost predicate QuizzesOk(quizzes: seq<Quiz>, bound: nat)
  {
    OneActive(quizzes) && IdsOk(QuizIds(quizzes), bound)
  }

  /** The other collections: ids within their counters, at most one profile
      per user. */
  ghost predicate RecordsOk(responses: seq<QuizResponse>, answers: seq<ResponseAnswer>, users: seq<User>,
                            profiles: seq<PatientProfile>, exercises: seq<Exercise>, c: Counters)
  {
    && IdsOk(ResponseIds(responses), c.quizResponses)
    && IdsOk(AnswerIds(answers), c.quizResponseAnswers)
    && IdsOk(UserIds(users), c.users)
    && IdsOk(ProfileIds(profiles), c.patientProfiles)
    && IdsOk(ExerciseIds(exercises), c.exerciseTutorials)
    && OneProfileEach(profiles)
  }

  lemma RecordsOkGrown(responses: seq<QuizResponse>, answers: seq<ResponseAnswer>, users: seq<User>,
                       profiles: seq<PatientProfile>, exercises: seq<Exercise>, c0: Counters, c: Counters)
    requires RecordsOk(responses, answers, users, profiles, exercises, c0) && Grown(c0, c)
    ensures RecordsOk(responses, answers, users, profiles, exercises, c)
  {
  }

  /** The invariant after each kind of write, stated on the collections
      themselves: an insert with an id freshly drawn from its counter, a
      replacement that keeps the id (and the owner, for a profile), a
      removal, and the seeding of the empty tutorial collection. */
  lemma InsertedResponseOk(qs: seq<Quiz>, rs: seq<QuizResponse>, ans: seq<ResponseAnswer>, us: seq<User>,
                           ps: seq<PatientProfile>, es: seq<Exercise>, c0: Counters, x: QuizResponse)
    requires QuizzesOk(qs, c0.quizzes) && RecordsOk(rs, ans, us, ps, es, c0) && x.id == c0.quizResponses + 1
    ensures QuizzesOk(qs, Bump(c0, QuizResponses).quizzes)
    ensures RecordsOk(rs + [x], ans, us, ps, es, Bump(c0, QuizResponses))
  {
    assert ResponseIds(rs + [x]) == ResponseIds(rs) + [x.id];
    IdsOkSnoc(ResponseIds(rs), x.id, c0.quizResponses);
  }

  lemma InsertedAnswerOk(qs: seq<Quiz>, rs: seq<QuizResponse>, ans: seq<ResponseAnswer>, us: seq<User>,
                         ps: seq<PatientProfile>, es: seq<Exercise>, c0: Counters, x: ResponseAnswer)
    requires QuizzesOk(qs, c0.quizzes) && RecordsOk(rs, ans, us, ps, es, c0) && x.id == c0.quizResponseAnswers + 1
    ensures QuizzesOk(qs, Bump(c0, QuizResponseAnswers).quizzes)
    ensures RecordsOk(rs, ans + [x], us, ps, es, Bump(c0, QuizResponseAnswers))
  {
    assert AnswerIds(ans + [x]) == AnswerIds(ans) + [x.id];
    IdsOkSnoc(AnswerIds(ans), x.id, c0.quizResponseAnswers);
  }

  lemma InsertedUserOk(qs: seq<Quiz>, rs: seq<QuizResponse>, ans: seq<ResponseAnswer>, us: seq<User>,
                       ps: seq<PatientProfile>, es: seq<Exercise>, c0: Counters, x: User)
    requires QuizzesOk(qs, c0.quizzes) && RecordsOk(rs, ans, us, ps, es, c0) && x.id == c0.users + 1
    ensures QuizzesOk(qs, Bump(c0, Users).quizzes)
    ensures RecordsOk(rs, ans, us + [x], ps, es, Bump(c0, Users))
  {
    assert UserIds(us + [x]) == UserIds(us) + [x.id];
    IdsOkSnoc(UserIds(us), x.id, c0.users);
  }

  lemma InsertedProfileOk(qs: seq<Quiz>, rs: seq<QuizResponse>, ans: seq<ResponseAnswer>, us: seq<User>,
                          ps: seq<PatientProfile>, es: seq<Exercise>, c0: Counters, x: PatientProfile)
    requires QuizzesOk(qs, c0.quizzes) && RecordsOk(rs, ans, us, ps, es, c0) && x.id == c0.patientProfiles + 1
    requires forall i :: 0 <= i < |ps| ==> ps[i].userId != x.userId
    ensures QuizzesOk(qs, Bump(c0, PatientProfiles).quizzes)
    ensures RecordsOk(rs, ans, us, ps + [x], es, Bump(c0, PatientProfiles))
  {
    assert ProfileIds(ps + [x]) == ProfileIds(ps) + [x.id];
    IdsOkSnoc(ProfileIds(ps), x.id, c0.patientProfiles);
    AppendKeepsOneProfileEach(ps, x);
  }

  lemma InsertedExerciseOk(qs: seq<Quiz>, rs: seq<QuizResponse>, ans: seq<ResponseAnswer>, us: seq<User>,
                           ps: seq<PatientProfile>, es: seq<Exercise>, c0: Counters, x: Exercise)
    requires QuizzesOk(qs, c0.quizzes) && RecordsOk(rs, ans, us, ps, es, c0) && x.id == c0.exerciseTutorials + 1
    ensures QuizzesOk(qs, Bump(c0, ExerciseTutorials).quizzes)
    ensures RecordsOk(rs, ans, us, ps, es + [x], Bump(c0, ExerciseTutorials))
  {
    assert ExerciseIds(es + [x]) == ExerciseIds(es) + [x.id];
    IdsOkSnoc(ExerciseIds(es), x.id, c0.exerciseTutorials);
  }

  lemma SeededOk(qs: seq<Quiz>, rs: seq<QuizResponse>, ans: seq<ResponseAnswer>, us: seq<User>,
                 ps: seq<PatientProfile>, c0: Counters, ts: seq<ExerciseTemplate>)
    requires QuizzesOk(qs, c0.quizzes) && RecordsOk(rs, ans, us, ps, [], c0)
    ensures RecordsOk(rs, ans, us, ps, MakeExercises(ts, c0.exerciseTutorials),
                      c0.(exerciseTutorials := c0.exerciseTutorials + |ts|))
  {
    SeededExercisesIdsOk(ts, c0.exerciseTutorials);
  }

  lemma ReplacedUserOk(rs: seq<QuizResponse>, ans: seq<ResponseAnswer>, us: seq<User>,
                       ps: seq<PatientProfile>, es: seq<Exercise>, c: Counters, k: nat, x: User)
    requires RecordsOk(rs, ans, us, ps, es, c) && k < |us| && x.id == us[k].id
    ensures RecordsOk(rs, ans, us[k := x], ps, es, c)
  {
    assert UserIds(us[k := x]) == UserIds(us);
  }

  lemma ReplacedProfileOk(rs: seq<QuizResponse>, ans: seq<ResponseAnswer>, us: seq<User>,
                          ps: seq<PatientProfile>, es: seq<Exercise>, c: Counters, k: nat, x: PatientProfile)
    requires RecordsOk(rs, ans, us, ps, es, c) && k < |ps| && x.id == ps[k].id && x.userId == ps[k].userId
    ensures RecordsOk(rs, ans, us, ps[k := x], es, c)
  {
    assert ProfileIds(ps[k := x]) == ProfileIds(ps);
    ReplaceKeepsOneProfileEach(ps, k, x);
  }

  lemma ReplacedExerciseOk(rs: seq<QuizResponse>, ans: seq<ResponseAnswer>, us: seq<User>,
                           ps: seq<PatientProfile>, es: seq<Exercise>, c: Counters, k: nat, x: Exercise)
    requires RecordsOk(rs, ans, us, ps, es, c) && k < |es| && x.id == es[k].id
    ensures RecordsOk(rs, ans, us, ps, es[k := x], c)
  {
    assert ExerciseIds(es[k := x]) == ExerciseIds(es);
  }

  lemma RemovedExerciseOk(rs: seq<QuizResponse>, ans: seq<ResponseAnswer>, us: seq<User>,
                          ps: seq<PatientProfile>, es: seq<Exercise>, c: Counters, k: nat)
    requires RecordsOk(rs, ans, us, ps, es, c) && k < |es|
    ensures RecordsOk(rs, ans, us, ps, es[..k] + es[k + 1..], c)
  {
    var ids := ExerciseIds(es);
    IdsOkDrop(ids, k, c.exerciseTutorials);
    assert ExerciseIds(es[..k] + es[k + 1..]) == ids[..k] + ids[k + 1..];
  }

  class Store {
    var online: bool
    var counters: Counters
    var users: seq<User>
    var profiles: seq<PatientProfile>
    var quizzes: seq<Quiz>
    var responses: seq<QuizResponse>
    var answers: seq<ResponseAnswer>
    var exercises: seq<Exercise>

    /** The store's invariant: at most one active quiz, at most one profile
        per user, and in every top-level collection distinct ids no greater
        than its counter. */
    ghost predicate Valid()
      reads this
    {
      QuizzesOk(quizzes, counters.quizzes) && RecordsOk(responses, answers, users, profiles, exercises, counters)
    }

    constructor(online: bool)
      ensures this.online == online && counters == NoCounters
      ensures users == [] && profiles == [] && quizzes == [] && responses == [] && answers == [] && exercises == []
      ensures Valid()
    {
      this.online := online;
      counters := NoCounters;
      users := [];
      profiles := [];
      quizzes := [];
      responses := [];
      answers := [];
      exercises := [];
    }

    /** `getNextId`: `$inc` on the named counter with upsert, read after the
        update, so the first id handed out is 1. */
    method NextId(name: CounterName) returns (id: nat)
      modifies this`counters
      ensures counters == Bump(old(counters), name)
      ensures id == Counter(counters, name) == Counter(old(counters), name) + 1
    {
      counters := Bump(counters, name);
      id := Counter(counters, name);
    }

    /** Raising counters keeps the invariant. */
    lemma ValidGrown(c0: Counters)
      requires QuizzesOk(quizzes, c0.quizzes) && RecordsOk(responses, answers, users, profiles, exercises, c0)
      requires Grown(c0, counters)
      ensures Valid()
    {
      RecordsOkGrown(responses, answers, users, profiles, exercises, c0, counters);
    }

    /** `createQuiz`. The id is drawn before the other quizzes are
        deactivated; the new quiz has no questions and no tiers. */
    method CreateQuiz(name: string, description: Option<string>, isActive: bool, createdBy: nat)
      returns (r: Result<Quiz>)
      requires Valid()
      modifies this`counters, this`quizzes
      ensures Valid()
      ensures !online ==> r == Err(DbUnavailable) && counters == old(counters) && quizzes == old(quizzes)
      ensures online ==>
                && counters == Bump(old(counters), Quizzes)
                && r == Ok(Quiz(counters.quizzes, name, description, isActive, Some(createdBy), [], []))
                && quizzes == (if isActive then Deactivated(old(quizzes), None) else old(quizzes)) + [r.value]
      ensures online && isActive ==>
                forall i :: 0 <= i < |quizzes| ==> (quizzes[i].isActive <==> i == |quizzes| - 1)
      ensures online && !isActive ==> quizzes[..|old(quizzes)|] == old(quizzes)
    {
      if !online {
        return Err(DbUnavailable);
      }
      var id := NextId(Quizzes);
      ValidGrown(old(counters));
      var quiz := Quiz(id, name, description, isActive, Some(createdBy), [], []);
      var kept := if isActive then Deactivated(quizzes, None) else quizzes;
      CreatedQuizzesOk(quizzes, quiz, old(counters).quizzes);
      quizzes := kept + [quiz];
      r := Ok(quiz);
    }

    /** `updateQuizById`. Activating a quiz first deactivates every other
        one, even when no quiz has the id; then the given fields of the
        first quiz with the id are set, and that quiz is read back. */
    method UpdateQuizById(quizId: nat, name: Option<string>, description: Option<Option<string>>, isActive: Option<bool>)
      returns (r: Option<Quiz>)
      requires Valid()
      modifies this`quizzes
      ensures Valid()
      ensures !online ==> r.None? && quizzes == old(quizzes)
      ensures online ==> (quizzes, r) == UpdatedQuizzes(old(quizzes), quizId, name, description, isActive)
    {
      if !online {
        return None;
      }
      UpdatedQuizzesKeepsIds(quizzes, quizId, name, description, isActive);
      UpdatedQuizzesOneActive(quizzes, quizId, name, description, isActive, counters.quizzes);
      var res := UpdatedQuizzes(quizzes, quizId, name, description, isActive);
      quizzes, r := res.0, res.1;
    }

    /** `createQuizQuestion`: the id is drawn first, so it is consumed even
        when the quiz does not exist. */
    method CreateQuizQuestion(quizId: nat, text: string, questionType: QuestionType, weight: real, order: int)
      returns (r: Result<Question>)
      requires Valid()
      modifies this`counters, this`quizzes
      ensures Valid()
      ensures !online ==> r == Err(DbUnavailable) && counters == old(counters) && quizzes == old(quizzes)
      ensures online ==>
                var id := counters.quizQuestions;
                var k := QuizIndex(old(quizzes), quizId);
                && counters == Bump(old(counters), QuizQuestions)
                && (k == |old(quizzes)| ==> r == Err("Quiz not found") && quizzes == old(quizzes))
                && (k < |old(quizzes)| ==>
                      r == Ok(Question(id, quizId, text, questionType, weight, order, []))
                      && quizzes == old(quizzes)[k := old(quizzes)[k].(questions := old(quizzes)[k].questions + [r.value])])
    {
      if !online {
        return Err(DbUnavailable);
      }
      var id := NextId(QuizQuestions);
      ValidGrown(old(counters));
      var question := Question(id, quizId, text, questionType, weight, order, []);
      var k := QuizIndex(quizzes, quizId);
      if k == |quizzes| {
        return Err("Quiz not found");
      }
      ReplaceKeepsQuizzesOk(quizzes, k, quizzes[k].(questions := quizzes[k].questions + [question]), counters.quizzes);
      quizzes := quizzes[k := quizzes[k].(questions := quizzes[k].questions + [question])];
      r := Ok(question);
    }

    /** `updateQuizQuestionById`: the positional update changes the first
        question with the id inside the first quiz holding it, and that
        question is read back. */
    method UpdateQuizQuestionById(questionId: nat, text: Option<string>, weight: Option<real>, order: Option<int>)
      returns (r: Option<Question>)
      requires Valid()
      modifies this`quizzes
      ensures Valid()
      ensures !online ==> r.None? && quizzes == old(quizzes)
      ensures online ==>
                var k := HolderIndex(old(quizzes), questionId);
                if k == |old(quizzes)| then r.None? && quizzes == old(quizzes)
                else
                  var qs := old(quizzes)[k].questions;
                  var j := QuestionIndex(qs, questionId);
                  && r == Some(PatchQuestion(qs[j], text, weight, order))
                  && quizzes == old(quizzes)[k := old(quizzes)[k].(questions := qs[j := r.value])]
      ensures r.Some? ==> r.value.id == questionId
    {
      if !online {
        return None;
      }
      var k := HolderIndex(quizzes, questionId);
      if k == |quizzes| {
        return None;
      }
      var qs := quizzes[k].questions;
      var j := QuestionIndex(qs, questionId);
      var updated := PatchQuestion(qs[j], text, weight, order);
      ReplaceKeepsQuizzesOk(quizzes, k, quizzes[k].(questions := qs[j := updated]), counters.quizzes);
      quizzes := quizzes[k := quizzes[k].(questions := qs[j := updated])];
      r := Some(updated);
    }

    /** `deleteQuizQuestionById`: removes every question with the id from
        the first quiz holding one; true exactly when such a quiz exists. */
    method DeleteQuizQuestionById(questionId: nat) returns (deleted: bool)
      requires Valid()
      modifies this`quizzes
      ensures Valid()
      ensures deleted <==> online && HolderIndex(old(quizzes), questionId) < |old(quizzes)|
      ensures !deleted ==> quizzes == old(quizzes)
      ensures deleted ==>
                var k := HolderIndex(old(quizzes), questionId);
                quizzes == old(quizzes)[k := old(quizzes)[k].(questions := WithoutQuestion(old(quizzes)[k].questions, questionId))]
    {
      if !online {
        return false;
      }
      var k := HolderIndex(quizzes, questionId);
      if k == |quizzes| {
        return false;
      }
      ReplaceKeepsQuizzesOk(quizzes, k, quizzes[k].(questions := WithoutQuestion(quizzes[k].questions, questionId)), counters.quizzes);
      quizzes := quizzes[k := quizzes[k].(questions := WithoutQuestion(quizzes[k].questions, questionId))];
      deleted := true;
    }

    /** The option loop inside the question loop: one option id per
        option, in template order. */
    method BuildChoices(cs: seq<ChoiceTemplate>) returns (options: seq<Choice>)
      modifies this`counters
      ensures options == MakeChoices(cs, old(counters).quizQuestionOptions)
      ensures counters == old(counters).(quizQuestionOptions := old(counters).quizQuestionOptions + |cs|)
    {
      ghost var base := counters.quizQuestionOptions;
      options := [];
      for j := 0 to |cs|
        invariant options == MakeChoices(cs[..j], base)
        invariant counters == old(counters).(quizQuestionOptions := base + j)
      {
        var optionId := NextId(QuizQuestionOptions);
        MakeChoicesSnoc(cs, j, base);
        options := options + [MakeChoice(cs[j], optionId)];
      }
      assert cs[..|cs|] == cs;
    }

    /** One pass of the question loop: a question id, then its options. */
    method BuildQuestion(t: QuestionTemplate, quizId: nat) returns (q: Question)
      modifies this`counters
      ensures q == MakeQuestion(t, quizId, old(counters).quizQuestions + 1,
                                MakeChoices(t.options, old(counters).quizQuestionOptions))
      ensures counters == old(counters).(quizQuestions := old(counters).quizQuestions + 1,
                                         quizQuestionOptions := old(counters).quizQuestionOptions + |t.options|)
    {
      var questionId := NextId(QuizQuestions);
      var options := BuildChoices(t.options);
      q := MakeQuestion(t, quizId, questionId, options);
    }

    /** The question loop of `createDefaultQuiz` and
        `ensureBaselineQuizQuestions`: for each template a question id is
        drawn, then one option id per option. */
    method BuildQuestions(ts: seq<QuestionTemplate>, quizId: nat) returns (qs: seq<Question>)
      modifies this`counters
      ensures qs == Materialize(ts, quizId, old(counters).quizQuestions, old(counters).quizQuestionOptions)
      ensures counters == old(counters).(quizQuestions := old(counters).quizQuestions + |ts|,
                                         quizQuestionOptions := old(counters).quizQuestionOptions + OptionCount(ts))
    {
      ghost var q0 := counters.quizQuestions;
      ghost var o0 := counters.quizQuestionOptions;
      qs := [];
      for i := 0 to |ts|
        invariant qs == Materialize(ts, quizId, q0, o0)[..i]
        invariant counters == old(counters).(quizQuestions := q0 + i, quizQuestionOptions := o0 + OptionOffset(ts, i))
      {
        var q := BuildQuestion(ts[i], quizId);
        ghost var all := Materialize(ts, quizId, q0, o0);
        assert q == all[i];
        PrefixSnoc(all, i);
        qs := qs + [q];
      }
    }

    /** The tier loop of `createDefaultQuiz`. */
    method BuildTiers(ts: seq<TierTemplate>, quizId: nat) returns (tiers: seq<ScoringRule>)
      modifies this`counters
      ensures tiers == MakeTiers(ts, quizId, old(counters).quizScoringConfig)
      ensures counters == old(counters).(quizScoringConfig := old(counters).quizScoringConfig + |ts|)
    {
      ghost var c0 := counters.quizScoringConfig;
      tiers := [];
      for i := 0 to |ts|
        invariant tiers == MakeTiers(ts[..i], quizId, c0)
        invariant counters == old(counters).(quizScoringConfig := c0 + i)
      {
        var id := NextId(QuizScoringConfig);
        tiers := tiers + [MakeTier(ts[i], quizId, id)];
      }
      assert ts[..|ts|] == ts;
    }

    /** `createDefaultQuiz` on given question and tier templates: a new
        active quiz whose questions, options and tiers draw fresh ids in
        template order. Its callers only reach it when no quiz is active, so
        that it is the only active quiz. */
    method CreateSeededQuiz(ts: seq<QuestionTemplate>, ds: seq<TierTemplate>) returns (quiz: Quiz)
      requires Valid() && online
      requires forall i :: 0 <= i < |quizzes| ==> !quizzes[i].isActive
      modifies this`counters, this`quizzes
      ensures Valid()
      ensures quiz.id == counters.quizzes == old(counters).quizzes + 1
      ensures quiz == Quiz(quiz.id, DefaultQuizName, Some(DefaultQuizDescription), true, None,
                           Materialize(ts, quiz.id, old(counters).quizQuestions, old(counters).quizQuestionOptions),
                           MakeTiers(ds, quiz.id, old(counters).quizScoringConfig))
      ensures quizzes == old(quizzes) + [quiz]
      ensures counters == old(counters).(quizzes := old(counters).quizzes + 1,
                                         quizQuestions := old(counters).quizQuestions + |ts|,
                                         quizQuestionOptions := old(counters).quizQuestionOptions + OptionCount(ts),
                                         quizScoringConfig := old(counters).quizScoringConfig + |ds|)
    {
      var quizId := NextId(Quizzes);
      var questions := BuildQuestions(ts, quizId);
      var scoringConfig := BuildTiers(ds, quizId);
      RecordsOkGrown(responses, answers, users, profiles, exercises, old(counters), counters);
      quiz := Quiz(quizId, DefaultQuizName, Some(DefaultQuizDescription), true, None, questions, scoringConfig);
      assert QuizIds(quizzes + [quiz]) == QuizIds(quizzes) + [quiz.id];
      IdsOkSnoc(QuizIds(quizzes), quiz.id, old(counters).quizzes);
      AppendOneActive(quizzes, quiz);
      quizzes := quizzes + [quiz];
    }

    /** `createDefaultQuiz`: an active quiz with the ten baseline questions
        and the four default tiers. */
    method CreateDefaultQuiz() returns (quiz: Quiz)
      requires Valid() && online
      requires forall i :: 0 <= i < |quizzes| ==> !quizzes[i].isActive
      modifies this`counters, this`quizzes
      ensures Valid()
      ensures quiz.id == counters.quizzes == old(counters).quizzes + 1
      ensures quiz == Quiz(quiz.id, DefaultQuizName, Some(DefaultQuizDescription), true, None,
                           Materialize(BaselineQuestions, quiz.id, old(counters).quizQuestions, old(counters).quizQuestionOptions),
                           MakeTiers(DefaultScoring, quiz.id, old(counters).quizScoringConfig))
      ensures quizzes == old(quizzes) + [quiz]
      ensures counters == old(counters).(quizzes := old(counters).quizzes + 1,
                                         quizQuestions := old(counters).quizQuestions + |BaselineQuestions|,
                                         quizQuestionOptions := old(counters).quizQuestionOptions + OptionCount(BaselineQuestions),
                                         quizScoringConfig := old(counters).quizScoringConfig + |DefaultScoring|)
    {
      quiz := CreateSeededQuiz(BaselineQuestions, DefaultScoring);
    }

    /** `getActiveQuiz`: the first active quiz, or a newly created default
        one when none is active. */
    method GetActiveQuiz() returns (r: Option<Quiz>)
      requires Valid()
      modifies this`counters, this`quizzes
      ensures Valid()
      ensures !online ==> r.None? && counters == old(counters) && quizzes == old(quizzes)
      ensures online && ActiveIndex(old(quizzes)) < |old(quizzes)| ==>
                r == Some(old(quizzes)[ActiveIndex(old(quizzes))])
                && counters == old(counters) && quizzes == old(quizzes)
      ensures online && ActiveIndex(old(quizzes)) == |old(quizzes)| ==>
                && r == Some(Quiz(old(counters).quizzes + 1, DefaultQuizName, Some(DefaultQuizDescription), true, None,
                                  Materialize(BaselineQuestions, old(counters).quizzes + 1, old(counters).quizQuestions,
                                              old(counters).quizQuestionOptions),
                                  MakeTiers(DefaultScoring, old(counters).quizzes + 1, old(counters).quizScoringConfig)))
                && quizzes == old(quizzes) + [r.value]
                && counters == old(counters).(quizzes := old(counters).quizzes + 1,
                                              quizQuestions := old(counters).quizQuestions + |BaselineQuestions|,
                                              quizQuestionOptions := old(counters).quizQuestionOptions + OptionCount(BaselineQuestions),
                                              quizScoringConfig := old(counters).quizScoringConfig + |DefaultScoring|)
      ensures r.Some? ==> r.value.isActive && r.value in quizzes
    {
      if !online {
        return None;
      }
      var k := ActiveIndex(quizzes);
      if k < |quizzes| {
        return Some(quizzes[k]);
      }
      var quiz := CreateDefaultQuiz();
      r := Some(quiz);
      assert quizzes[|quizzes| - 1] == quiz;
    }

    /** The merge of `ensureBaselineQuizQuestions` on given templates: the
        templates whose text the first quiz with the id lacks are appended to
        it, in template order, with freshly drawn ids; nothing changes when
        none is missing or no quiz has the id. */
    method MergeTemplates(ts: seq<QuestionTemplate>, quizId: nat)
      requires Valid()
      modifies this`counters, this`quizzes
      ensures Valid()
      ensures !online || QuizIndex(old(quizzes), quizId) == |old(quizzes)| ==>
                counters == old(counters) && quizzes == old(quizzes)
      ensures online && QuizIndex(old(quizzes), quizId) < |old(quizzes)| ==>
                var k := QuizIndex(old(quizzes), quizId);
                var existing := old(quizzes)[k].questions;
                quizzes == old(quizzes)[k := old(quizzes)[k].(questions := existing
                  + Materialize(Missing(ts, existing), quizId, old(counters).quizQuestions,
                                old(counters).quizQuestionOptions))]
                && counters == old(counters).(quizQuestions := old(counters).quizQuestions + |Missing(ts, existing)|,
                                              quizQuestionOptions := old(counters).quizQuestionOptions
                                                + OptionCount(Missing(ts, existing)))
      ensures online && QuizIndex(old(quizzes), quizId) < |old(quizzes)| ==>
                Missing(ts, quizzes[QuizIndex(old(quizzes), quizId)].questions) == []
    {
      if !online {
        return;
      }
      var k := QuizIndex(quizzes, quizId);
      if k == |quizzes| {
        return;
      }
      MergeMissingAt(k, ts);
    }

    /** The merge into the quiz at index `k`: its missing templates are
        appended with fresh ids, and nothing is written when none is
        missing. */
    method MergeMissingAt(k: nat, ts: seq<QuestionTemplate>)
      requires Valid() && k < |quizzes|
      modifies this`counters, this`quizzes
      ensures Valid()
      ensures var existing := old(quizzes)[k].questions;
              && quizzes == old(quizzes)[k := old(quizzes)[k].(questions := existing
                   + Materialize(Missing(ts, existing), old(quizzes)[k].id, old(counters).quizQuestions,
                                 old(counters).quizQuestionOptions))]
              && counters == old(counters).(quizQuestions := old(counters).quizQuestions + |Missing(ts, existing)|,
                                            quizQuestionOptions := old(counters).quizQuestionOptions
                                              + OptionCount(Missing(ts, existing)))
      ensures Missing(ts, quizzes[k].questions) == []
    {
      var existing := quizzes[k].questions;
      var missing := Missing(ts, existing);
      MergeIsIdempotent(ts, existing, quizzes[k].id, counters.quizQuestions, counters.quizQuestionOptions);
      if missing == [] {
        assert existing + Materialize(missing, quizzes[k].id, counters.quizQuestions, counters.quizQuestionOptions) == existing;
        assert quizzes[k := quizzes[k].(questions := existing)] == quizzes;
        return;
      }
      AppendQuestionsAt(k, missing);
    }

    /** Appends questions built from the templates to the quiz at index `k`. */
    method AppendQuestionsAt(k: nat, ts: seq<QuestionTemplate>)
      requires Valid() && k < |quizzes|
      modifies this`counters, this`quizzes
      ensures Valid()
      ensures quizzes == old(quizzes)[k := old(quizzes)[k].(questions := old(quizzes)[k].questions
                + Materialize(ts, old(quizzes)[k].id, old(counters).quizQuestions, old(counters).quizQuestionOptions))]
      ensures counters == old(counters).(quizQuestions := old(counters).quizQuestions + |ts|,
                                         quizQuestionOptions := old(counters).quizQuestionOptions + OptionCount(ts))
    {
      var existing := quizzes[k].questions;
      var added := BuildQuestions(ts, quizzes[k].id);
      ValidGrown(old(counters));
      ReplaceKeepsQuizzesOk(quizzes, k, quizzes[k].(questions := existing + added), counters.quizzes);
      quizzes := quizzes[k := quizzes[k].(questions := existing + added)];
    }

    /** `ensureBaselineQuizQuestions`: appends to the first quiz with the id
        the baseline questions whose text it lacks, in baseline order, with
        freshly drawn ids; it does nothing when none is missing. */
    method EnsureBaselineQuizQuestions(quizId: nat)
      requires Valid()
      modifies this`counters, this`quizzes
      ensures Valid()
      ensures !online || QuizIndex(old(quizzes), quizId) == |old(quizzes)| ==>
                counters == old(counters) && quizzes == old(quizzes)
      ensures online && QuizIndex(old(quizzes), quizId) < |old(quizzes)| ==>
                var k := QuizIndex(old(quizzes), quizId);
                var existing := old(quizzes)[k].questions;
                quizzes == old(quizzes)[k := old(quizzes)[k].(questions := existing
                  + Materialize(Missing(BaselineQuestions, existing), quizId, old(counters).quizQuestions,
                                old(counters).quizQuestionOptions))]
                && counters == old(counters).(quizQuestions := old(counters).quizQuestions + |Missing(BaselineQuestions, existing)|,
                                              quizQuestionOptions := old(counters).quizQuestionOptions
                                                + OptionCount(Missing(BaselineQuestions, existing)))
      ensures online && QuizIndex(old(quizzes), quizId) < |old(quizzes)| ==>
                Missing(BaselineQuestions, quizzes[QuizIndex(old(quizzes), quizId)].questions) == []
    {
      MergeTemplates(BaselineQuestions, quizId);
    }

    /** `getQuizById`: the first quiz with the id. */
    function QuizById(quizId: nat): (r: Option<Quiz>)
      reads this`online, this`quizzes
      ensures r.Some? ==> online && r.value in quizzes && r.value.id == quizId
      ensures r.None? <==> !online || forall i :: 0 <= i < |quizzes| ==> quizzes[i].id != quizId
    {
      if !online then None
      else
        var k := QuizIndex(quizzes, quizId);
        if k < |quizzes| then Some(quizzes[k]) else None
    }

    /** `getQuizWithQuestions`: the ordered view of that quiz. */
    function QuizWithQuestions(quizId: nat): (r: Option<Quiz>)
      reads this`online, this`quizzes
      ensures r.Some? <==> QuizById(quizId).Some?
      ensures r.Some? ==> r.value == Snapshot(QuizById(quizId).value)
    {
      match QuizById(quizId)
      case Some(q) => Some(Snapshot(q))
      case None => None
    }

    /** `getScoringConfigForQuiz`: the quiz's tiers as stored, or none. */
    function ScoringConfigForQuiz(quizId: nat): (r: seq<ScoringRule>)
      reads this`online, this`quizzes
      ensures QuizById(quizId).None? ==> r == []
      ensures QuizById(quizId).Some? ==> r == QuizById(quizId).value.scoringConfig
    {
      match QuizById(quizId)
      case Some(q) => q.scoringConfig
      case None => []
    }

    /** `getTodayResponse(userId, quizId)`, with `midnight` standing for the
        local midnight of the day the lookup runs: the first stored response
        of that user to that quiz dated from midnight on. */
    function TodayResponse(userId: nat, quizId: nat, midnight: int): (r: Option<QuizResponse>)
      reads this`online, this`responses
      ensures r.Some? ==> online && r.value in responses && IsToday(r.value, userId, quizId, midnight)
      ensures r.None? <==> !online || forall i :: 0 <= i < |responses| ==> !IsToday(responses[i], userId, quizId, midnight)
    {
      if !online then None
      else
        var k := TodayIndex(responses, userId, quizId, midnight);
        if k < |responses| then Some(responses[k]) else None
    }

    /** `getPatientResponses(userId, limit)`: that user's responses, newest
        first, at most `limit` of them when the limit is not 0. */
    function PatientResponses(userId: nat, limit: int): (r: seq<QuizResponse>)
      reads this`online, this`responses
      ensures !online ==> r == []
      ensures online ==> r == History(responses, userId, limit)
      ensures forall i :: 0 <= i < |r| ==> r[i].userId == userId && r[i] in responses
      ensures forall i, j :: 0 <= i < j < |r| ==> r[i].responseDate >= r[j].responseDate
      ensures CursorLimit(limit) > 0 ==> |r| <= CursorLimit(limit)
      ensures online && limit == 0 ==> multiset(r) == multiset(Own(responses, userId))
      ensures multiset(r) <= multiset(Own(responses, userId))
    {
      if !online then []
      else
        HistoryOwnAndOrdered(responses, userId, limit);
        HistoryWithinOwn(responses, userId, limit);
        HistoryUnlimited(responses, userId);
        History(responses, userId, limit)
    }

    /** `insertQuizResponse`: a response with a fresh id, appended. */
    method InsertQuizResponse(userId: nat, quizId: nat, responseDate: int, totalScore: real,
                              isGoodDayForExercise: bool, recommendedExerciseType: string)
      returns (r: Result<QuizResponse>)
      requires Valid()
      modifies this`counters, this`responses
      ensures Valid()
      ensures !online ==> r == Err(DbUnavailable) && counters == old(counters) && responses == old(responses)
      ensures online ==>
                && counters == Bump(old(counters), QuizResponses)
                && r == Ok(QuizResponse(counters.quizResponses, userId, quizId, responseDate, totalScore,
                                        isGoodDayForExercise, recommendedExerciseType))
                && responses == old(responses) + [r.value]
    {
      if !online {
        return Err(DbUnavailable);
      }
      var id := NextId(QuizResponses);
      var response := QuizResponse(id, userId, quizId, responseDate, totalScore, isGoodDayForExercise, recommendedExerciseType);
      InsertedResponseOk(quizzes, responses, answers, users, profiles, exercises, old(counters), response);
      responses := responses + [response];
      r := Ok(response);
    }

    /** The insert of one answer row of a submission, with a fresh id from
        the `quiz_response_answers` sequence. */
    method InsertResponseAnswer(responseId: nat, questionId: nat, answerValue: string)
      returns (r: Result<ResponseAnswer>)
      requires Valid()
      modifies this`counters, this`answers
      ensures Valid()
      ensures !online ==> r == Err(DbUnavailable) && counters == old(counters) && answers == old(answers)
      ensures online ==>
                && counters == Bump(old(counters), QuizResponseAnswers)
                && r == Ok(ResponseAnswer(counters.quizResponseAnswers, responseId, questionId, answerValue))
                && answers == old(answers) + [r.value]
    {
      if !online {
        return Err(DbUnavailable);
      }
      var id := NextId(QuizResponseAnswers);
      var row := ResponseAnswer(id, responseId, questionId, answerValue);
      InsertedAnswerOk(quizzes, responses, answers, users, profiles, exercises, old(counters), row);
      answers := answers + [row];
      r := Ok(row);
    }

    /** `getUserByOpenId`. */
    function UserByOpenId(openId: string): (r: Option<User>)
      reads this`online, this`users
      ensures r.Some? ==> online && r.value in users && r.value.openId == openId
      ensures r.None? <==> !online || forall i :: 0 <= i < |users| ==> users[i].openId != openId
    {
      if !online then None
      else
        var k := OpenIdIndex(users, openId);
        if k < |users| then Some(users[k]) else None
    }

    /** `getUserByEmail`: looks the address up normalized. */
    function UserByEmail(email: string): (r: Option<User>)
      reads this`online, this`users
      ensures r.Some? ==> online && r.value in users && r.value.email == NormalizeEmail(email)
      ensures r.None? <==> !online || forall i :: 0 <= i < |users| ==> users[i].email != NormalizeEmail(email)
    {
      if !online then None
      else
        var k := EmailIndex(users, NormalizeEmail(email));
        if k < |users| then Some(users[k]) else None
    }

    /** `getUserById`. */
    function UserById(id: nat): (r: Option<User>)
      reads this`online, this`users
      ensures r.Some? ==> online && r.value in users && r.value.id == id
      ensures r.None? <==> !online || forall i :: 0 <= i < |users| ==> users[i].id != id
    {
      if !online then None
      else
        var k := UserIndex(users, id);
        if k < |users| then Some(users[k]) else None
    }

    /** `createUser`: the address is stored normalized, and `now` is both the
        creation time and the first sign-in. */
    method CreateUser(openId: string, email: string, name: string, passwordHash: string, role: Role,
                      loginMethod: string, hasActivePlan: bool, hasCompletedAnamnesis: bool, now: int)
      returns (r: Result<User>)
      requires Valid()
      modifies this`counters, this`users
      ensures Valid()
      ensures !online ==> r == Err(DbUnavailable) && counters == old(counters) && users == old(users)
      ensures online ==>
                && counters == Bump(old(counters), Users)
                && r == Ok(User(counters.users, openId, Some(name), NormalizeEmail(email), Some(passwordHash), role,
                                Some(loginMethod), hasActivePlan, hasCompletedAnamnesis, now))
                && users == old(users) + [r.value]
    {
      if !online {
        return Err(DbUnavailable);
      }
      var id := NextId(Users);
      var user := User(id, openId, Some(name), NormalizeEmail(email), Some(passwordHash), role,
                       Some(loginMethod), hasActivePlan, hasCompletedAnamnesis, now);
      InsertedUserOk(quizzes, responses, answers, users, profiles, exercises, old(counters), user);
      users := users + [user];
      r := Ok(user);
    }

    /** `updateUserById`: sets the given fields of the first user with the
        id; nothing happens when there is none. */
    method UpdateUserById(id: nat, patch: UserPatch)
      requires Valid()
      modifies this`users
      ensures Valid()
      ensures !online || UserIndex(old(users), id) == |old(users)| ==> users == old(users)
      ensures online && UserIndex(old(users), id) < |old(users)| ==>
                var k := UserIndex(old(users), id);
                users == old(users)[k := PatchUser(old(users)[k], patch)]
    {
      if !online {
        return;
      }
      var k := UserIndex(users, id);
      if k == |users| {
        return;
      }
      ReplacedUserOk(responses, answers, users, profiles, exercises, counters, k, PatchUser(users[k], patch));
      users := users[k := PatchUser(users[k], patch)];
    }

    /** `getAllPatients`: the PATIENT users, projected, in stored order. */
    function AllPatients(): (r: seq<PatientSummary>)
      reads this`online, this`users
      ensures !online ==> r == []
      ensures forall i :: 0 <= i < |r| ==> SummarizesPatient(users, r[i])
      ensures online ==> forall j :: 0 <= j < |users| && users[j].role == Patient ==> Summary(users[j]) in r
    {
      if !online then [] else Patients(users)
    }

    /** `getPatientProfile`: the profile of the user, if any. */
    function ProfileOf(userId: nat): (r: Option<PatientProfile>)
      reads this`online, this`profiles
      ensures r.Some? ==> online && r.value in profiles && r.value.userId == userId
      ensures r.None? <==> !online || forall i :: 0 <= i < |profiles| ==> profiles[i].userId != userId
    {
      if !online then None
      else
        var k := ProfileIndex(profiles, userId);
        if k < |profiles| then Some(profiles[k]) else None
    }

    /** `updatePatientProfile`: inserts a profile with a fresh id for a user
        who has none, and otherwise sets the given keys of the user's
        profile; either way the profile is read back. */
    method UpdatePatientProfile(userId: nat, patch: ProfilePatch) returns (r: Option<PatientProfile>)
      requires Valid()
      modifies this`counters, this`profiles
      ensures Valid()
      ensures !online ==> r.None? && counters == old(counters) && profiles == old(profiles)
      ensures online && ProfileIndex(old(profiles), userId) == |old(profiles)| ==>
                && counters == Bump(old(counters), PatientProfiles)
                && r == Some(NewProfile(counters.patientProfiles, userId, patch))
                && profiles == old(profiles) + [r.value]
      ensures online && ProfileIndex(old(profiles), userId) < |old(profiles)| ==>
                var k := ProfileIndex(old(profiles), userId);
                && counters == old(counters)
                && r == Some(PatchProfile(old(profiles)[k], patch))
                && profiles == old(profiles)[k := r.value]
      ensures r.Some? ==> r == ProfileOf(userId)
    {
      if !online {
        return None;
      }
      var k := ProfileIndex(profiles, userId);
      if k == |profiles| {
        var id := NextId(PatientProfiles);
        var created := NewProfile(id, userId, patch);
        InsertedProfileOk(quizzes, responses, answers, users, profiles, exercises, old(counters), created);
        profiles := profiles + [created];
        ProfileIndexIs(profiles, userId, k);
        return Some(created);
      }
      var updated := PatchProfile(profiles[k], patch);
      ReplacedProfileOk(responses, answers, users, profiles, exercises, counters, k, updated);
      profiles := profiles[k := updated];
      ProfileIndexIs(profiles, userId, k);
      r := Some(updated);
    }

    /** The seeding loop of `ensureBaselineExercises`: one id per template,
        in template order. */
    method BuildExercises(ts: seq<ExerciseTemplate>) returns (docs: seq<Exercise>)
      modifies this`counters
      ensures docs == MakeExercises(ts, old(counters).exerciseTutorials)
      ensures counters == old(counters).(exerciseTutorials := old(counters).exerciseTutorials + |ts|)
    {
      ghost var c0 := counters.exerciseTutorials;
      docs := [];
      for i := 0 to |ts|
        invariant docs == MakeExercises(ts[..i], c0)
        invariant counters == old(counters).(exerciseTutorials := c0 + i)
      {
        var id := NextId(ExerciseTutorials);
        docs := docs + [MakeExercise(ts[i], id)];
      }
      assert ts[..|ts|] == ts;
    }

    /** `ensureBaselineExercises` on given templates: an empty collection
        receives them with fresh ids; a collection holding anything is left
        alone. */
    method SeedExercises(ts: seq<ExerciseTemplate>)
      requires Valid()
      modifies this`counters, this`exercises
      ensures Valid()
      ensures old(exercises) != [] ==> exercises == old(exercises) && counters == old(counters)
      ensures old(exercises) == [] ==>
                && exercises == MakeExercises(ts, old(counters).exerciseTutorials)
                && counters == old(counters).(exerciseTutorials := old(counters).exerciseTutorials + |ts|)
    {
      if exercises != [] {
        return;
      }
      var docs := BuildExercises(ts);
      SeededOk(quizzes, responses, answers, users, profiles, old(counters), ts);
      exercises := docs;
    }

    /** `ensureBaselineExercises`: the five baseline tutorials, seeded into
        an empty collection. */
    method EnsureBaselineExercises()
      requires Valid()
      modifies this`counters, this`exercises
      ensures Valid()
      ensures old(exercises) != [] ==> exercises == old(exercises) && counters == old(counters)
      ensures old(exercises) == [] ==>
                && exercises == MakeExercises(BaselineExercises, old(counters).exerciseTutorials)
                && counters == old(counters).(exerciseTutorials := old(counters).exerciseTutorials + |BaselineExercises|)
    {
      SeedExercises(BaselineExercises);
    }

    /** `getAllExercises`: every tutorial, after seeding an empty collection. */
    method AllExercises() returns (r: seq<Exercise>)
      requires Valid()
      modifies this`counters, this`exercises
      ensures Valid()
      ensures !online ==> r == [] && exercises == old(exercises) && counters == old(counters)
      ensures online ==> r == exercises && r != []
      ensures online && old(exercises) != [] ==> exercises == old(exercises) && counters == old(counters)
      ensures online && old(exercises) == [] ==>
                && exercises == MakeExercises(BaselineExercises, old(counters).exerciseTutorials)
                && counters == old(counters).(exerciseTutorials := old(counters).exerciseTutorials + |BaselineExercises|)
    {
      if !online {
        return [];
      }
      EnsureBaselineExercises();
      r := exercises;
    }

    /** `getExercisesByIntensity`: the tutorials of one intensity, in stored
        order, after seeding an empty collection. */
    method ExercisesByIntensity(intensity: Intensity) returns (r: seq<Exercise>)
      requires Valid()
      modifies this`counters, this`exercises
      ensures Valid()
      ensures !online ==> r == [] && exercises == old(exercises) && counters == old(counters)
      ensures online ==> r == ByIntensity(exercises, intensity)
      ensures forall i :: 0 <= i < |r| ==> r[i].intensityLevel == intensity && r[i] in exercises
      ensures online ==> forall i :: 0 <= i < |exercises| && exercises[i].intensityLevel == intensity ==> exercises[i] in r
      ensures online && old(exercises) != [] ==> exercises == old(exercises) && counters == old(counters)
      ensures online && old(exercises) == [] ==>
                && exercises == MakeExercises(BaselineExercises, old(counters).exerciseTutorials)
                && counters == old(counters).(exerciseTutorials := old(counters).exerciseTutorials + |BaselineExercises|)
    {
      if !online {
        return [];
      }
      EnsureBaselineExercises();
      r := ByIntensity(exercises, intensity);
    }

    /** `createExerciseTutorial`: a tutorial with a fresh id, appended. */
    method CreateExerciseTutorial(name: string, description: Option<string>, intensityLevel: Intensity,
                                  safetyGuidelines: Option<string>, videoLink: Option<string>)
      returns (r: Result<Exercise>)
      requires Valid()
      modifies this`counters, this`exercises
      ensures Valid()
      ensures !online ==> r == Err(DbUnavailable) && counters == old(counters) && exercises == old(exercises)
      ensures online ==>
                && counters == Bump(old(counters), ExerciseTutorials)
                && r == Ok(Exercise(counters.exerciseTutorials, name, description, intensityLevel, safetyGuidelines, videoLink))
                && exercises == old(exercises) + [r.value]
    {
      if !online {
        return Err(DbUnavailable);
      }
      var id := NextId(ExerciseTutorials);
      var exercise := Exercise(id, name, description, intensityLevel, safetyGuidelines, videoLink);
      InsertedExerciseOk(quizzes, responses, answers, users, profiles, exercises, old(counters), exercise);
      exercises := exercises + [exercise];
      r := Ok(exercise);
    }

    /** `updateExerciseTutorialById`: sets the given fields of the first
        tutorial with the id and reads it back; none when no tutorial has
        the id. */
    method UpdateExerciseTutorialById(exerciseId: nat, patch: ExercisePatch) returns (r: Option<Exercise>)
      requires Valid()
      modifies this`exercises
      ensures Valid()
      ensures !online || ExerciseIndex(old(exercises), exerciseId) == |old(exercises)| ==>
                r.None? && exercises == old(exercises)
      ensures online && ExerciseIndex(old(exercises), exerciseId) < |old(exercises)| ==>
                var k := ExerciseIndex(old(exercises), exerciseId);
                r == Some(PatchExercise(old(exercises)[k], patch)) && exercises == old(exercises)[k := r.value]
      ensures r.Some? ==> r.value.id == exerciseId && r.value in exercises
    {
      if !online {
        return None;
      }
      var k := ExerciseIndex(exercises, exerciseId);
      if k == |exercises| {
        return None;
      }
      var updated := PatchExercise(exercises[k], patch);
      ReplacedExerciseOk(responses, answers, users, profiles, exercises, counters, k, updated);
      exercises := exercises[k := updated];
      assert exercises[k] == updated;
      r := Some(updated);
    }

    /** `deleteExerciseTutorialById`: removes the first tutorial with the id;
        true exactly when there was one. */
    method DeleteExerciseTutorialById(exerciseId: nat) returns (deleted: bool)
      requires Valid()
      modifies this`exercises
      ensures Valid()
      ensures deleted <==> online && ExerciseIndex(old(exercises), exerciseId) < |old(exercises)|
      ensures !deleted ==> exercises == old(exercises)
      ensures deleted ==>
                var k := ExerciseIndex(old(exercises), exerciseId);
                exercises == old(exercises)[..k] + old(exercises)[k + 1..]
    {
      if !online {
        return false;
      }
      var k := ExerciseIndex(exercises, exerciseId);
      if k == |exercises| {
        return false;
      }
      RemovedExerciseOk(responses, answers, users, profiles, exercises, counters, k);
      exercises := exercises[..k] + exercises[k + 1..];
      deleted := true;
    }
  }
}
