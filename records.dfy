/** Queries and patches over the store's record collections other than the
    quizzes: the same-day response lookup, the response history with its
    ordering and limit, and the partial updates of users, patient profiles
    and exercise tutorials. The store class applies them to its fields. */
module Records {
  import opened Common
  import opened Types
  import opened Sorting

  /** The filter `{ userId, quizId, responseDate: { $gte: midnight } }`. */
  predicate IsToday(r: QuizResponse, userId: nat, quizId: nat, midnight: int)
  {
    r.userId == userId && r.quizId == quizId && r.responseDate >= midnight
  }

  /** The first stored response matching that filter. */
  function TodayIndex(rs: seq<QuizResponse>, userId: nat, quizId: nat, midnight: int): (k: nat)
    ensures k <= |rs|
    ensures k < |rs| ==> IsToday(rs[k], userId, quizId, midnight)
    ensures forall i :: 0 <= i < k ==> !IsToday(rs[i], userId, quizId, midnight)
  {
    FirstIndex(rs, (r: QuizResponse) => IsToday(r, userId, quizId, midnight))
  }

  /** The responses of one user, in stored order. */
  function Own(rs: seq<QuizResponse>, userId: nat): (r: seq<QuizResponse>)
    ensures forall i :: 0 <= i < |r| ==> r[i].userId == userId && r[i] in rs
    ensures forall i :: 0 <= i < |rs| && rs[i].userId == userId ==> rs[i] in r
  {
    Filter(rs, (x: QuizResponse) => x.userId == userId)
  }

  /** The sort key of `sort({ responseDate: -1 })`: newest first. */
  function NewestFirst(r: QuizResponse): real
  {
    -(r.responseDate as real)
  }

  /** How many documents a cursor's `limit(n)` lets through: 0 means no
      limit, and a negative limit counts as its absolute value. */
  function CursorLimit(limit: int): nat
  {
    if limit < 0 then -limit else limit
  }

  function Take<T>(s: seq<T>, n: nat): (r: seq<T>)
    ensures r <= s
    ensures |r| == if n == 0 || |s| <= n then |s| else n
  {
    if n == 0 || |s| <= n then s else s[..n]
  }

  /** `getPatientResponses(userId, limit)` over the stored responses:
      newest first, cut to the limit. Responses with the same date keep
      their stored order. */
  function History(rs: seq<QuizResponse>, userId: nat, limit: int): (r: seq<QuizResponse>)
    ensures |r| == if CursorLimit(limit) == 0 || |Own(rs, userId)| <= CursorLimit(limit) then |Own(rs, userId)| else CursorLimit(limit)
  {
    Take(SortBy(Own(rs, userId), NewestFirst), CursorLimit(limit))
  }

  /** The history holds only that user's stored responses, newest first. */
  lemma HistoryOwnAndOrdered(rs: seq<QuizResponse>, userId: nat, limit: int)
    ensures forall i :: 0 <= i < |History(rs, userId, limit)| ==>
              History(rs, userId, limit)[i].userId == userId && History(rs, userId, limit)[i] in rs
    ensures forall i, j :: 0 <= i < j < |History(rs, userId, limit)| ==>
              History(rs, userId, limit)[i].responseDate >= History(rs, userId, limit)[j].responseDate
  {
    var own := Own(rs, userId);
    var sorted := SortBy(own, NewestFirst);
    var h := History(rs, userId, limit);
    SortByPermutes(own, NewestFirst);
    SortBySorted(own, NewestFirst);
    forall i | 0 <= i < |h| ensures h[i].userId == userId && h[i] in rs {
      assert h[i] == sorted[i];
      assert sorted[i] in multiset(own);
    }
    forall i, j | 0 <= i < j < |h| ensures h[i].responseDate >= h[j].responseDate {
      assert NewestFirst(sorted[i]) <= NewestFirst(sorted[j]);
    }
  }

  /** A response of the user that the limit cut off is no newer than any
      response in the history. */
  lemma HistoryKeepsNewest(rs: seq<QuizResponse>, userId: nat, limit: int, x: QuizResponse)
    requires x in rs && x.userId == userId && x !in History(rs, userId, limit)
    ensures forall i :: 0 <= i < |History(rs, userId, limit)| ==>
              x.responseDate <= History(rs, userId, limit)[i].responseDate
  {
    var own := Own(rs, userId);
    var sorted := SortBy(own, NewestFirst);
    var h := History(rs, userId, limit);
    SortByPermutes(own, NewestFirst);
    SortBySorted(own, NewestFirst);
    assert x in multiset(sorted);
    var p :| 0 <= p < |sorted| && sorted[p] == x;
    assert p >= |h|;
    forall i | 0 <= i < |h| ensures x.responseDate <= h[i].responseDate {
      assert h[i] == sorted[i];
      assert NewestFirst(sorted[i]) <= NewestFirst(sorted[p]);
    }
  }

  /** Without a limit the history holds every response of the user, each
      as often as it is stored. */
  lemma HistoryUnlimited(rs: seq<QuizResponse>, userId: nat)
    ensures multiset(History(rs, userId, 0)) == multiset(Own(rs, userId))
  {
    SortByPermutes(Own(rs, userId), NewestFirst);
  }

  /** The history repeats no response more often than it is stored: it is
      a sub-multiset of the user's responses, whatever the limit. */
  lemma HistoryWithinOwn(rs: seq<QuizResponse>, userId: nat, limit: int)
    ensures multiset(History(rs, userId, limit)) <= multiset(Own(rs, userId))
  {
    var sorted := SortBy(Own(rs, userId), NewestFirst);
    SortByPermutes(Own(rs, userId), NewestFirst);
    var h := History(rs, userId, limit);
    assert sorted == h + sorted[|h|..];
    assert multiset(sorted) == multiset(h) + multiset(sorted[|h|..]);
  }

  /** The fields `updateUserById` may set; `None` leaves a field as it is. */
  datatype UserPatch = UserPatch(
    name: Option<string>,
    hasActivePlan: Option<bool>,
    hasCompletedAnamnesis: Option<bool>,
    lastSignedIn: Option<int>)

  function PatchUser(u: User, p: UserPatch): (r: User)
    ensures r.id == u.id && r.email == u.email && r.openId == u.openId && r.role == u.role
    ensures r.passwordHash == u.passwordHash && r.loginMethod == u.loginMethod
    ensures r.name == if p.name.Some? then Some(p.name.value) else u.name
    ensures r.hasActivePlan == if p.hasActivePlan.Some? then p.hasActivePlan.value else u.hasActivePlan
    ensures r.hasCompletedAnamnesis == if p.hasCompletedAnamnesis.Some? then p.hasCompletedAnamnesis.value else u.hasCompletedAnamnesis
    ensures r.lastSignedIn == if p.lastSignedIn.Some? then p.lastSignedIn.value else u.lastSignedIn
  {
    u.(name := if p.name.Some? then Some(p.name.value) else u.name,
       hasActivePlan := if p.hasActivePlan.Some? then p.hasActivePlan.value else u.hasActivePlan,
       hasCompletedAnamnesis := if p.hasCompletedAnamnesis.Some? then p.hasCompletedAnamnesis.value else u.hasCompletedAnamnesis,
       lastSignedIn := if p.lastSignedIn.Some? then p.lastSignedIn.value else u.lastSignedIn)
  }

  /** A patient as `getAllPatients` projects it. */
  datatype PatientSummary = PatientSummary(id: nat, name: Option<string>, email: string)

  function Summary(u: User): PatientSummary
  {
    PatientSummary(u.id, u.name, u.email)
  }

  /** `s` is the projection of some PATIENT among `users`. */
  predicate SummarizesPatient(users: seq<User>, s: PatientSummary)
  {
    exists u :: u in users && u.role == Patient && s == Summary(u)
  }

  /** The users whose role is PATIENT, projected, in stored order. */
  function Patients(users: seq<User>): (r: seq<PatientSummary>)
    ensures |r| <= |users|
    ensures forall i :: 0 <= i < |r| ==> SummarizesPatient(users, r[i])
    ensures forall j :: 0 <= j < |users| && users[j].role == Patient ==> Summary(users[j]) in r
  {
    if users == [] then []
    else
      var rest := Patients(users[1..]);
      assert forall j :: 1 <= j < |users| ==> users[j] == users[1..][j - 1];
      var u := users[0];
      if u.role == Patient then [Summary(u)] + rest else rest
  }

  /** The fields `updatePatientProfile` may be given. The outer `None` is a
      key that is absent; `Some(None)` is a key present with no value, which
      is written as null. */
  datatype ProfilePatch = ProfilePatch(
    mainDiagnosis: Option<Option<string>>,
    treatmentStage: Option<Option<string>>,
    dateOfBirth: Option<Option<int>>,
    gender: Option<Option<string>>,
    observations: Option<Option<Observations>>)

  /** `data.field ?? null`. */
  function OrNull<T>(o: Option<Option<T>>): (r: Option<T>)
    ensures r.Some? <==> o.Some? && o.value.Some?
    ensures r.Some? ==> r.value == o.value.value
  {
    if o.Some? then o.value else None
  }

  function Keep<T>(o: Option<Option<T>>, current: Option<T>): (r: Option<T>)
    ensures o.Some? ==> r == o.value
    ensures o.None? ==> r == current
  {
    if o.Some? then o.value else current
  }

  /** The profile inserted for a user who has none. */
  function NewProfile(id: nat, userId: nat, p: ProfilePatch): PatientProfile
  {
    PatientProfile(id, userId, OrNull(p.mainDiagnosis), OrNull(p.treatmentStage),
      OrNull(p.dateOfBirth), OrNull(p.gender), OrNull(p.observations))
  }

  /** `$set: { ...data }` on an existing profile. */
  function PatchProfile(q: PatientProfile, p: ProfilePatch): PatientProfile
  {
    q.(mainDiagnosis := Keep(p.mainDiagnosis, q.mainDiagnosis),
       treatmentStage := Keep(p.treatmentStage, q.treatmentStage),
       dateOfBirth := Keep(p.dateOfBirth, q.dateOfBirth),
       gender := Keep(p.gender, q.gender),
       observations := Keep(p.observations, q.observations))
  }

  /** Whichever path runs, a field given a value ends up with that value, and
      the profile keeps its owner. */
  lemma ProfileFieldsSet(id: nat, userId: nat, q: PatientProfile, p: ProfilePatch)
    ensures NewProfile(id, userId, p).userId == userId && PatchProfile(q, p).userId == q.userId
    ensures NewProfile(id, userId, p).id == id && PatchProfile(q, p).id == q.id
    ensures p.mainDiagnosis.Some? ==>
              NewProfile(id, userId, p).mainDiagnosis == p.mainDiagnosis.value
              && PatchProfile(q, p).mainDiagnosis == p.mainDiagnosis.value
    ensures p.treatmentStage.Some? ==>
              NewProfile(id, userId, p).treatmentStage == p.treatmentStage.value
              && PatchProfile(q, p).treatmentStage == p.treatmentStage.value
    ensures p.observations.Some? ==>
              NewProfile(id, userId, p).observations == p.observations.value
              && PatchProfile(q, p).observations == p.observations.value
    ensures p.dateOfBirth.Some? ==>
              NewProfile(id, userId, p).dateOfBirth == p.dateOfBirth.value
              && PatchProfile(q, p).dateOfBirth == p.dateOfBirth.value
    ensures p.gender.Some? ==>
              NewProfile(id, userId, p).gender == p.gender.value
              && PatchProfile(q, p).gender == p.gender.value
  {
  }

  /** An update with no keys leaves an existing profile as it is. */
  lemma EmptyProfilePatch(q: PatientProfile)
    ensures PatchProfile(q, ProfilePatch(None, None, None, None, None)) == q
  {
  }

  /** The fields `updateExerciseTutorialById` may set. */
  datatype ExercisePatch = ExercisePatch(
    name: Option<string>,
    description: Option<Option<string>>,
    intensityLevel: Option<Intensity>,
    safetyGuidelines: Option<Option<string>>,
    videoLink: Option<Option<string>>)

  function PatchExercise(e: Exercise, p: ExercisePatch): (r: Exercise)
    ensures r.id == e.id
    ensures r.name == if p.name.Some? then p.name.value else e.name
    ensures r.description == Keep(p.description, e.description)
    ensures r.intensityLevel == if p.intensityLevel.Some? then p.intensityLevel.value else e.intensityLevel
    ensures r.safetyGuidelines == Keep(p.safetyGuidelines, e.safetyGuidelines)
    ensures r.videoLink == Keep(p.videoLink, e.videoLink)
  {
    e.(name := if p.name.Some? then p.name.value else e.name,
       description := Keep(p.description, e.description),
       intensityLevel := if p.intensityLevel.Some? then p.intensityLevel.value else e.intensityLevel,
       safetyGuidelines := Keep(p.safetyGuidelines, e.safetyGuidelines),
       videoLink := Keep(p.videoLink, e.videoLink))
  }

  /** The filter `{ intensityLevel }`, in stored order. */
  function ByIntensity(es: seq<Exercise>, intensity: Intensity): (r: seq<Exercise>)
    ensures forall i :: 0 <= i < |r| ==> r[i].intensityLevel == intensity && r[i] in es
    ensures forall i :: 0 <= i < |es| && es[i].intensityLevel == intensity ==> es[i] in r
  {
    Filter(es, (e: Exercise) => e.intensityLevel == intensity)
  }
}
