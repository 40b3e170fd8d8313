/** The patients router: who may read or change a patient's record (an
    oncologist, or the patient themself), the patient details with their
    profile, the profile update, the anamnesis form a patient completes
    once, and the list of patients. */
module Patients {
  import opened Common
  import opened Types
  import opened Records
  import opened Db

  const Unauthorized := "Unauthorized"
  const PatientNotFound := "Patient not found"

  /** The rejection of a form whose diagnosis is empty (`z.string().min(1)`),
      raised before the handler runs. */
  const InvalidInput := "Invalid input"

  /** `ctx.user?.role !== "ONCOLOGIST" && ctx.user?.id !== patientId` is the
      refusal; this is its negation. */
  predicate CanAccess(caller: Option<User>, patientId: nat)
  {
    caller.Some? && (caller.value.role == Oncologist || caller.value.id == patientId)
  }

  /** Nobody signed in is refused; a patient reaches only their own record;
      an oncologist reaches every record. */
  lemma CanAccessCases(caller: Option<User>, patientId: nat)
    ensures caller.None? ==> !CanAccess(caller, patientId)
    ensures caller.Some? && caller.value.role == Patient ==>
              (CanAccess(caller, patientId) <==> caller.value.id == patientId)
    ensures caller.Some? && caller.value.role == Oncologist ==> CanAccess(caller, patientId)
  {
  }

  /** What `getById` returns. */
  datatype PatientDetails = PatientDetails(id: nat, name: Option<string>, email: string, profile: Option<PatientProfile>)

  /** `getById`. */
  function GetById(db: Store, caller: Option<User>, patientId: nat): (r: Result<PatientDetails>)
    reads db
    ensures r == Err(Unauthorized) <==> !CanAccess(caller, patientId)
    ensures CanAccess(caller, patientId) ==>
              (r == Err(PatientNotFound) <==> db.UserById(patientId).None? || db.UserById(patientId).value.role != Patient)
    ensures r.Ok? ==>
              && db.UserById(patientId).Some?
              && var u := db.UserById(patientId).value;
              && u.role == Patient && u.id == patientId
              && r.value == PatientDetails(u.id, u.name, u.email, db.ProfileOf(patientId))
    ensures r.Ok? && r.value.profile.Some? ==> r.value.profile.value.userId == patientId && r.value.profile.value in db.profiles
    ensures r.Ok? && r.value.profile.None? ==> forall i :: 0 <= i < |db.profiles| ==> db.profiles[i].userId != patientId
  {
    if !CanAccess(caller, patientId) then Err(Unauthorized)
    else
      match db.UserById(patientId)
      case None => Err(PatientNotFound)
      case Some(u) =>
        if u.role != Patient then Err(PatientNotFound)
        else Ok(PatientDetails(u.id, u.name, u.email, db.ProfileOf(patientId)))
  }

  /** The effect of `updatePatientProfile(userId, patch)` on a connected
      store: the user's profile gets the patch, or, when the user has none,
      a profile with the next id is appended; no other profile changes. */
  ghost predicate Upserted(before: seq<PatientProfile>, after: seq<PatientProfile>, c0: Counters, c1: Counters,
                           userId: nat, patch: ProfilePatch)
  {
    var k := ProfileIndex(before, userId);
    if k < |before| then c1 == c0 && after == before[k := PatchProfile(before[k], patch)]
    else c1 == Bump(c0, PatientProfiles) && after == before + [NewProfile(c1.patientProfiles, userId, patch)]
  }

  /** The keys `completeAnamnesis` sets on the account. */
  const MarkCompleted := UserPatch(None, None, Some(true), None)

  /** The effect of `updateUserById(userId, { hasCompletedAnamnesis: true })`
      on a connected store: the first user with the id is marked, and no
      other user changes. */
  ghost predicate Marked(before: seq<User>, after: seq<User>, userId: nat)
  {
    var k := UserIndex(before, userId);
    if k < |before| then after == before[k := PatchUser(before[k], MarkCompleted)] else after == before
  }

  /** The optional fields of the profile form. */
  datatype ProfileForm = ProfileForm(
    mainDiagnosis: Option<string>,
    treatmentStage: Option<string>,
    dateOfBirth: Option<int>,
    gender: Option<string>,
    observations: Option<string>)

  /** `updateProfile` always passes all five keys, so a field the form leaves
      out is present with no value (and is written as null). */
  function ProfileFormPatch(f: ProfileForm): (p: ProfilePatch)
    ensures p.mainDiagnosis == Some(f.mainDiagnosis) && p.treatmentStage == Some(f.treatmentStage)
    ensures p.dateOfBirth == Some(f.dateOfBirth) && p.gender == Some(f.gender)
    ensures p.observations == Some(if f.observations.Some? then Some(Note(f.observations.value)) else None)
  {
    ProfilePatch(Some(f.mainDiagnosis), Some(f.treatmentStage), Some(f.dateOfBirth), Some(f.gender),
                 Some(if f.observations.Some? then Some(Note(f.observations.value)) else None))
  }

  /** `updateProfile`: the upsert, for the patient or an oncologist; the
      profile read back is returned (none without a connection). */
  method UpdateProfile(db: Store, caller: Option<User>, patientId: nat, form: ProfileForm)
    returns (r: Result<Option<PatientProfile>>)
    requires db.Valid()
    modifies db`counters, db`profiles
    ensures db.Valid()
    ensures !CanAccess(caller, patientId) ==>
              r == Err(Unauthorized) && db.profiles == old(db.profiles) && db.counters == old(db.counters)
    ensures CanAccess(caller, patientId) ==> r.Ok?
    ensures CanAccess(caller, patientId) && !db.online ==>
              r == Ok(None) && db.profiles == old(db.profiles) && db.counters == old(db.counters)
    ensures CanAccess(caller, patientId) && db.online ==>
              && r.value.Some?
              && r.value == db.ProfileOf(patientId)
              && var p := r.value.value;
              && p.userId == patientId
              && p.mainDiagnosis == form.mainDiagnosis && p.treatmentStage == form.treatmentStage
              && p.dateOfBirth == form.dateOfBirth && p.gender == form.gender
              && p.observations == (if form.observations.Some? then Some(Note(form.observations.value)) else None)
    ensures CanAccess(caller, patientId) && db.online ==>
              Upserted(old(db.profiles), db.profiles, old(db.counters), db.counters, patientId, ProfileFormPatch(form))
  {
    if !CanAccess(caller, patientId) {
      return Err(Unauthorized);
    }
    var updated := db.UpdatePatientProfile(patientId, ProfileFormPatch(form));
    if updated.Some? {
      ProfileFieldsSet(updated.value.id, patientId, updated.value, ProfileFormPatch(form));
      ghost var k := ProfileIndex(old(db.profiles), patientId);
      if k < |old(db.profiles)| {
        ProfileFieldsSet(0, patientId, old(db.profiles)[k], ProfileFormPatch(form));
      }
    }
    r := Ok(updated);
  }

  /** The anamnesis form: the diagnosis and the other answers, which are
      stored together as the profile's observations. */
  datatype AnamnesisForm = AnamnesisForm(mainDiagnosis: string, details: AnamnesisDetails)

  /** The profile keys `completeAnamnesis` writes; date of birth and gender
      are not among them. */
  function AnamnesisPatch(form: AnamnesisForm): (p: ProfilePatch)
    ensures p.mainDiagnosis == Some(Some(form.mainDiagnosis))
    ensures p.treatmentStage == Some(form.details.treatmentStage)
    ensures p.observations == Some(Some(Anamnesis(form.details)))
    ensures p.dateOfBirth.None? && p.gender.None?
  {
    ProfilePatch(Some(Some(form.mainDiagnosis)), Some(form.details.treatmentStage), None, None,
                 Some(Some(Anamnesis(form.details))))
  }

  /** The reply `{ success: true, hasCompletedAnamnesis: true }`. */
  datatype Completed = Completed

  /** The first write of `completeAnamnesis`: the profile upsert. */
  method StoreAnamnesisProfile(db: Store, userId: nat, form: AnamnesisForm)
    requires db.Valid()
    modifies db`counters, db`profiles
    ensures db.Valid()
    ensures !db.online ==> db.profiles == old(db.profiles) && db.counters == old(db.counters)
    ensures db.online ==> Upserted(old(db.profiles), db.profiles, old(db.counters), db.counters, userId, AnamnesisPatch(form))
    ensures db.online ==>
              && db.ProfileOf(userId).Some?
              && var p := db.ProfileOf(userId).value;
              && p.mainDiagnosis == Some(form.mainDiagnosis)
              && p.treatmentStage == form.details.treatmentStage
              && p.observations == Some(Anamnesis(form.details))
    ensures db.online && old(db.ProfileOf(userId)).Some? ==>
              && db.ProfileOf(userId).value.dateOfBirth == old(db.ProfileOf(userId)).value.dateOfBirth
              && db.ProfileOf(userId).value.gender == old(db.ProfileOf(userId)).value.gender
    ensures db.online && old(db.ProfileOf(userId)).None? ==>
              db.ProfileOf(userId).value.dateOfBirth.None? && db.ProfileOf(userId).value.gender.None?
  {
    var profile := db.UpdatePatientProfile(userId, AnamnesisPatch(form));
    if profile.Some? {
      ProfileFieldsSet(profile.value.id, userId, profile.value, AnamnesisPatch(form));
      ghost var k := ProfileIndex(old(db.profiles), userId);
      if k < |old(db.profiles)| {
        ProfileFieldsSet(0, userId, old(db.profiles)[k], AnamnesisPatch(form));
      }
    }
  }

  /** The two writes of `completeAnamnesis` for the user `userId`. */
  method StoreAnamnesis(db: Store, userId: nat, form: AnamnesisForm)
    requires db.Valid()
    modifies db`counters, db`profiles, db`users
    ensures db.Valid()
    ensures !db.online ==> db.profiles == old(db.profiles) && db.users == old(db.users) && db.counters == old(db.counters)
    ensures db.online ==> Upserted(old(db.profiles), db.profiles, old(db.counters), db.counters, userId, AnamnesisPatch(form))
    ensures db.online ==> Marked(old(db.users), db.users, userId)
    ensures db.online ==>
              && db.ProfileOf(userId).Some?
              && var p := db.ProfileOf(userId).value;
              && p.mainDiagnosis == Some(form.mainDiagnosis)
              && p.treatmentStage == form.details.treatmentStage
              && p.observations == Some(Anamnesis(form.details))
    ensures db.online && old(db.UserById(userId)).Some? ==>
              db.UserById(userId) == Some(old(db.UserById(userId)).value.(hasCompletedAnamnesis := true))
  {
    StoreAnamnesisProfile(db, userId, form);
    MarkAnamnesisCompleted(db, userId);
  }

  /** The second write of `completeAnamnesis`: the account flag. */
  method MarkAnamnesisCompleted(db: Store, userId: nat)
    requires db.Valid()
    modifies db`users
    ensures db.Valid()
    ensures !db.online ==> db.users == old(db.users)
    ensures db.online ==> Marked(old(db.users), db.users, userId)
    ensures db.online && old(db.UserById(userId)).Some? ==>
              db.UserById(userId) == Some(old(db.UserById(userId)).value.(hasCompletedAnamnesis := true))
  {
    ghost var users := db.users;
    db.UpdateUserById(userId, MarkCompleted);
    ghost var k := UserIndex(users, userId);
    if db.online && k < |users| {
      UserIndexIs(db.users, userId, k);
    }
  }

  /** `completeAnamnesis`: for a signed-in patient, stores diagnosis,
      treatment stage and the answers in the caller's profile, then marks
      the caller's account as having completed the anamnesis. Without a
      connection both writes do nothing and the reply is still a success. */
  method CompleteAnamnesis(db: Store, caller: Option<User>, form: AnamnesisForm) returns (r: Result<Completed>)
    requires db.Valid()
    modifies db`counters, db`profiles, db`users
    ensures db.Valid()
    ensures form.mainDiagnosis == "" ==>
              r == Err(InvalidInput) && db.profiles == old(db.profiles) && db.users == old(db.users) && db.counters == old(db.counters)
    ensures form.mainDiagnosis != "" && (caller.None? || caller.value.role != Patient) ==>
              r == Err(Unauthorized) && db.profiles == old(db.profiles) && db.users == old(db.users) && db.counters == old(db.counters)
    ensures form.mainDiagnosis != "" && caller.Some? && caller.value.role == Patient ==> r == Ok(Completed)
    ensures r.Ok? && !db.online ==>
              db.profiles == old(db.profiles) && db.users == old(db.users) && db.counters == old(db.counters)
    ensures r.Ok? && db.online ==>
              && Upserted(old(db.profiles), db.profiles, old(db.counters), db.counters, caller.value.id, AnamnesisPatch(form))
              && Marked(old(db.users), db.users, caller.value.id)
    ensures r.Ok? && db.online ==>
              && db.ProfileOf(caller.value.id).Some?
              && var p := db.ProfileOf(caller.value.id).value;
              && p.mainDiagnosis == Some(form.mainDiagnosis)
              && p.treatmentStage == form.details.treatmentStage
              && p.observations == Some(Anamnesis(form.details))
    ensures r.Ok? && db.online && old(db.UserById(caller.value.id)).Some? ==>
              db.UserById(caller.value.id) == Some(old(db.UserById(caller.value.id)).value.(hasCompletedAnamnesis := true))
  {
    if form.mainDiagnosis == "" {
      return Err(InvalidInput);
    }
    if caller.None? || caller.value.role != Patient {
      return Err(Unauthorized);
    }
    StoreAnamnesis(db, caller.value.id, form);
    r := Ok(Completed);
  }

  /** `list`: every PATIENT user as id, name and e-mail, in stored order. */
  function List(db: Store): (r: seq<PatientSummary>)
    reads db
    ensures !db.online ==> r == []
    ensures forall i :: 0 <= i < |r| ==> SummarizesPatient(db.users, r[i])
    ensures db.online ==> forall j :: 0 <= j < |db.users| && db.users[j].role == Patient ==> Summary(db.users[j]) in r
  {
    db.AllPatients()
  }

  /** An update of an existing profile that gives only a diagnosis still
      writes every other form field, with null: what was stored for them is
      lost. */
  lemma ProfileUpdateNullsOmittedFields(q: PatientProfile, diagnosis: string)
    requires q.treatmentStage.Some? || q.gender.Some?
    ensures var p := PatchProfile(q, ProfileFormPatch(ProfileForm(Some(diagnosis), None, None, None, None)));
            && p.mainDiagnosis == Some(diagnosis)
            && p.treatmentStage.None? && p.dateOfBirth.None? && p.gender.None? && p.observations.None?
            && p != q
  {
  }
}
