/** The domain records of the check-in application (users, patient profiles,
    quizzes with their questions, options and scoring tiers, responses with
    their answer rows, exercise tutorials). Timestamps the store keeps only
    for bookkeeping (`createdAt`, `updatedAt`) are not represented; the ones
    the logic reads are integers (milliseconds of the clock). Decimal columns
    held as strings by the source (`weight`, `minScore`, `maxScore`,
    `totalScore`) are exact `real` values here. */
module Types {
  import opened Common

  datatype Role = Patient | Oncologist

  datatype QuestionType = YesNo | Scale0To10 | MultipleChoice

  datatype Intensity = Light | Moderate | Strong

  datatype User = User(
    id: nat,
    openId: string,
    name: Option<string>,
    email: string,
    passwordHash: Option<string>,
    role: Role,
    loginMethod: Option<string>,
    hasActivePlan: bool,
    hasCompletedAnamnesis: bool,
    lastSignedIn: int)

  /** An answer option of a MULTIPLE_CHOICE question. */
  datatype Choice = Choice(id: nat, text: string, scoreValue: string, order: int)

  datatype Question = Question(
    id: nat,
    quizId: nat,
    text: string,
    questionType: QuestionType,
    weight: real,
    order: int,
    options: seq<Choice>)

  /** One tier of a quiz's scoring table: the inclusive score range
      `[minScore, maxScore]` and the recommendation it gives. */
  datatype ScoringRule = ScoringRule(
    id: nat,
    quizId: nat,
    minScore: real,
    maxScore: real,
    isGoodDay: bool,
    recommendedExerciseType: string,
    exerciseDescription: Option<string>)

  /** A quiz document with its embedded questions and scoring table (a
      document without them reads as empty lists). */
  datatype Quiz = Quiz(
    id: nat,
    name: string,
    description: Option<string>,
    isActive: bool,
    createdBy: Option<nat>,
    questions: seq<Question>,
    scoringConfig: seq<ScoringRule>)

  datatype QuizResponse = QuizResponse(
    id: nat,
    userId: nat,
    quizId: nat,
    responseDate: int,
    totalScore: real,
    isGoodDayForExercise: bool,
    recommendedExerciseType: string)

  /** One stored answer row of a response. */
  datatype ResponseAnswer = ResponseAnswer(id: nat, responseId: nat, questionId: nat, answerValue: string)

  datatype Exercise = Exercise(
    id: nat,
    name: string,
    description: Option<string>,
    intensityLevel: Intensity,
    safetyGuidelines: Option<string>,
    videoLink: Option<string>)

  /** The optional answers of the anamnesis form other than the diagnosis;
      the form stores them, as given, as the profile's observations. */
  datatype AnamnesisDetails = AnamnesisDetails(
    metastasis: Option<string>,
    metastasisLocation: Option<string>,
    chemotherapy: Option<bool>,
    radiotherapy: Option<bool>,
    hormoneTherapy: Option<bool>,
    surgery: Option<string>,
    surgeryWhen: Option<string>,
    painScore: Option<real>,
    fatiguePerceived: Option<string>,
    neuropathy: Option<bool>,
    lymphedema: Option<bool>,
    dizziness: Option<bool>,
    fractureHistory: Option<bool>,
    thrombosisHistory: Option<bool>,
    canStandUp: Option<bool>,
    canWalk10Min: Option<bool>,
    exercisedBefore: Option<bool>,
    fearOrTrauma: Option<string>,
    treatmentPhase: Option<string>,
    treatmentStage: Option<string>,
    cancerType: Option<string>,
    age: Option<real>,
    observations: Option<string>)

  /** A profile's free-form observations: a note typed by hand, or the
      anamnesis answers. */
  datatype Observations = Note(text: string) | Anamnesis(details: AnamnesisDetails)

  datatype PatientProfile = PatientProfile(
    id: nat,
    userId: nat,
    mainDiagnosis: Option<string>,
    treatmentStage: Option<string>,
    dateOfBirth: Option<int>,
    gender: Option<string>,
    observations: Option<Observations>)
}
