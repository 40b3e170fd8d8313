# OncoLiving daily check-in: a verified model

OncoLiving is a web application for cancer patients and their oncologists.
Every day a patient answers a check-in quiz. The server scores the answers
with the question weights, looks the score up in the quiz's scoring tiers
to decide whether it is a good day for exercise and which kind, and stores
the response together with one row per answer. Oncologists manage the
quiz, its questions and tiers, the exercise tutorials and the patient
records. Accounts are created and signed in with an e-mail and a password.

This project models that core in Dafny:

- the router for daily responses (`server/routers/responses.ts`): the
  score calculator, the recommendation resolver, the guarded daily
  submission and the three history queries;
- the data layer (`server/db.ts`), over an in-memory store class
  `Db.Store`. The store's fields are the collections: users, patient
  profiles, quizzes with their embedded questions and tiers, responses,
  answer rows and exercise tutorials, plus one id counter per sequence.
  The class invariant `Valid` holds at most one active quiz and at most
  one profile per user. Within each collection the ids are positive,
  strictly increasing and bounded by the collection's counter;
- the password routes (`server/auth/passwordLogin.ts`): e-mail and role
  normalisation, the password hash format, registration, login and the
  default administrator;
- the patients router (`server/routers/patients.ts`): the
  owner-or-oncologist rule, patient details, the profile upsert, the
  anamnesis form and the patient list.

The modules follow the program:

- `Common` holds JavaScript string helpers: `trim`, ASCII `toLowerCase`
  and `split`.
- `JsParse` holds `parseInt`.
- `Types` holds the records of `shared/types.ts`.
- `Sorting` holds a stable insertion sort: a function, and a method that
  sorts an array in place.
- The rest of the source is split by topic:
  - `Scoring` and `Recommendation` for the two helpers of the responses router;
  - `QuizView` for the ordered quiz snapshot;
  - `Baseline` for the seed templates;
  - `Records` for the record-level functions of the data layer;
  - `Db` for the store;
  - `Responses`, `PasswordLogin` and `Patients` for the three handlers.

## Conventions

- **Database connection.** The store's `online` flag says whether a
  database is configured (`getDb` returns a handle). Without one:
  - reads return nothing;
  - the inserts of `db.ts` throw "Database not available";
  - updates do nothing.
- **Clock.** Instants are integers, such as milliseconds. The handlers
  take the current time `now` and the local midnight `midnight` as
  parameters.
- **Decimals.** A question weight and a tier bound are exact `real`s.
  `Number.prototype` arithmetic is modelled as real arithmetic.
- **Crypto and tokens.** These are parameters of the handlers:
  - the key derivation `kdf(password, salt)`;
  - the constant-time comparison `equal`, which answers `None` where
    `timingSafeEqual` throws (buffers of different lengths);
  - the token signer `sign`;
  - the random `salt`.
- **Omitted request fields.** A request field that may be absent is an
  `Option`. A patch field is an `Option<Option<T>>`: the outer `None`
  means the key is absent, and `Some(None)` means the key is present with
  no value, which MongoDB stores as null.

## Model

| member | source | states |
|---|---|---|
| Db.NormalizeEmail | server/db.ts:117-119 | `trim().toLowerCase()`; its properties are stated by NormalizedEmailShape and NormalizeEmailIdempotent |
| Db.NormalizedEmailShape | server/db.ts:117-119 | a normalized address has no white space at either end and no upper-case letter |
| Db.NormalizeEmailIdempotent | server/auth/passwordLogin.ts:23-25 | normalizing an address twice gives the same address as normalizing it once |
| JsParse.ParseInt | server/routers/responses.ts:36 | `parseInt` yields a number exactly when some digits follow the blanks, the sign and an optional hex prefix |
| JsParse.ParseIntOrZero | server/routers/responses.ts:36-41 | `parseInt(v) \|\| 0` is the parsed value, or 0 when there is nothing to parse (NaN) |
| JsParse.ParseIntDecimalString | server/routers/responses.ts:36 | the decimal rendering of any integer, followed by a non-digit, parses back to that integer |
| JsParse.ParseIntUnclamped | server/routers/responses.ts:36-41 | "15" parses to 15 and "-3" to -3: no range check |
| JsParse.ParseIntNaN | server/routers/responses.ts:36-41 | "YES", "" and "-" do not parse, so they count as 0 |
| JsParse.ParseIntSkipsBlanks | server/routers/responses.ts:36 | leading white space is skipped |
| JsParse.ParseIntStopsAtNonDigit | server/routers/responses.ts:36 | "8.9" parses to 8: parsing stops at the first non-digit |
| JsParse.ParseIntHex | server/routers/responses.ts:36 | "0x1A" parses as hexadecimal, to 26 |
| Scoring.RawPoints | server/routers/responses.ts:32-41 | the points of one answer by question type; YesNoContribution and NumericContribution state them case by case |
| Scoring.Score | server/routers/responses.ts:29-46 | the reference total that CalculateScore is proved to compute; ScoreAppend, ScoreSingle and ScorePermutation state its properties |
| Scoring.CalculateScore | server/routers/responses.ts:21-47 | the accumulator loop returns the sum of the per-answer contributions (raw value times weight) |
| Scoring.YesNoContribution | server/routers/responses.ts:34-35 | a YES_NO answer contributes 10 times its weight exactly when it is "YES", otherwise 0 |
| Scoring.NumericContribution | server/routers/responses.ts:36-41 | a SCALE_0_10 or MULTIPLE_CHOICE answer contributes its parsed integer times the weight (`Scaled`), or 0 when the text does not parse |
| Scoring.ScaleUnclamped | server/routers/responses.ts:36-41 | out-of-range answers 15 and -3 contribute 15 and -3 times the weight, without clamping |
| Scoring.ScoreAppend | server/routers/responses.ts:29-46 | the score of two answer lists joined is the sum of their scores |
| Scoring.ScoreSingle | server/routers/responses.ts:29-46 | one answer scores its own contribution |
| Scoring.ScorePermutation | server/routers/responses.ts:29-46 | the score does not depend on the order of the answers |
| Scoring.ScoreExample | server/routers/responses.ts:29-46 | a scale answer "7" with weight 2 and a YES_NO "NO" score 14 |
| Sorting.InsertPermutes | server/routers/responses.ts:61-63 | inserting an element adds exactly that element to the multiset |
| Sorting.SortByPermutes | server/routers/responses.ts:61-63 | sorting is a permutation |
| Sorting.InsertSorted | server/routers/responses.ts:61-63 | inserting into a sorted sequence keeps it sorted |
| Sorting.InsertLowerBound | server/routers/responses.ts:61-63 | insertion brings in no key below a bound that `x` and every element already meet |
| Sorting.WithKeyInsert | server/routers/responses.ts:61-63 | inserting into a sorted sequence puts `x` after every element with the same key |
| Sorting.SortBySorted | server/routers/responses.ts:61-63 | the sorted sequence is ordered by the key |
| Sorting.SortByStable | server/routers/responses.ts:61-63 | elements with equal keys keep their relative order, as `Array.prototype.sort` guarantees |
| Sorting.InsertAt | server/routers/responses.ts:61-63 | insertion places the element after every smaller-or-equal key and before the first larger one |
| Sorting.ShiftedIsInsert | server/routers/responses.ts:61-63 | an array prefix shifted right past every element with a larger key, with `x` in the gap, is the insertion of `x` |
| Sorting.InsertInPlace | server/routers/responses.ts:61-63 | one step of the in-place sort turns the sorted prefix plus the next element into the sorted prefix one longer, leaving the rest of the array alone |
| Sorting.SortInPlace | server/routers/responses.ts:61-63 | the array is sorted in place into the stable sort of its old contents |
| Recommendation.Covers | server/routers/responses.ts:66-69 | both bounds of a tier hold the score inclusively; Select and BestSpec are stated with it |
| Recommendation.Fallback | server/routers/responses.ts:77-81 | the advice when no tier holds the score; ResolveFallback states it |
| Recommendation.Select | server/routers/responses.ts:65-75 | the scan returns a rule whose inclusive range holds the score, the first one when it does; none exactly when no rule holds it |
| Recommendation.BestSpec | server/routers/responses.ts:61-75 | the rule chosen holds the score, has the least lower bound among the rules that hold it, and is the first of those in the unsorted list |
| Recommendation.SelectSortBy | server/routers/responses.ts:61-75 | scanning the sorted list picks the same rule as that order-independent choice |
| Recommendation.Resolve | server/routers/responses.ts:52-82 | the advice `getRecommendation` returns, as a value; ResolveMatch, ResolveFallback and GetRecommendation state it |
| Recommendation.ResolveMatch | server/routers/responses.ts:61-75 | when some rule holds the score, the advice is that of the lowest-bounded such rule, the first of them |
| Recommendation.ResolveFallback | server/routers/responses.ts:77-81 | when no rule holds the score (also with no rules) it is a good day exactly when the score is at least 50, with "Light Walk", otherwise "Rest Day" |
| Recommendation.SharedBoundGoesToLowerTier | server/routers/responses.ts:61-75 | a score of 20 against tiers [0,20] and [20,40] resolves to the lower tier, in either stored order |
| Recommendation.GetRecommendation | server/routers/responses.ts:52-82 | the method sorts the tier array in place by lower bound and returns the resolved advice of the original tiers |
| QuizView.SortAllOptions | server/db.ts:475-480 | each question keeps its place and gets its options sorted |
| QuizView.Snapshot | server/db.ts:471-481 | the snapshot differs from the stored quiz only in the order of its questions |
| QuizView.SortAllOptionsSortBy | server/db.ts:475-480 | sorting the options and sorting the questions commute |
| QuizView.SnapshotSorted | server/db.ts:475-480 | the snapshot's questions are ordered by `order`, and so are each question's options |
| QuizView.SnapshotPermutes | server/db.ts:475-480 | the snapshot holds exactly the stored questions, with their options sorted |
| QuizView.WithSortedOptionsPermutes | server/db.ts:477-479 | sorting a question's options changes nothing else and keeps the same options |
| QuizView.SnapshotStable | server/db.ts:475-480 | questions with equal `order` keep their stored relative order |
| Baseline.MakeChoices | server/db.ts:611-622 | the options of one seeded question get consecutive fresh ids in template order |
| Baseline.OptionOffsetMono | server/db.ts:608-635 | the option ids drawn so far never go down as the question loop advances |
| Baseline.Materialize | server/db.ts:608-635 | the i-th seeded question gets id last+i+1, and its options follow all earlier questions' options |
| Baseline.MakeChoicesSnoc | server/db.ts:613-621 | one more option appends one freshly numbered option |
| Baseline.MaterializeOptionBounds | server/db.ts:608-635 | every option id of the i-th question lies above the ids of earlier questions' options and within the drawn range |
| Baseline.MaterializedOptionId | server/db.ts:609-635 | the k-th option of the i-th question gets the id after every option drawn before it |
| Baseline.SameQuestionOptionIdsDistinct | server/db.ts:612-621 | the options of one question carry distinct ids |
| Baseline.EarlierOptionsFirst | server/db.ts:609-635 | the options of an earlier question are numbered before those of a later one |
| Baseline.MaterializeOptionIdsDistinct | server/db.ts:608-635 | no two seeded options share an id |
| Baseline.MakeTiers | server/db.ts:637-650 | the default tiers get consecutive fresh ids in template order |
| Baseline.MakeExercises | server/db.ts:814-831 | the seeded tutorials get consecutive fresh ids in template order |
| Baseline.MergeIsIdempotent | server/db.ts:669-717 | after the baseline merge no baseline text is missing, so a second merge adds nothing |
| Baseline.NothingMissing | server/db.ts:676-678 | when every template text is present, nothing is added |
| Baseline.AllMissingFromUnrelated | server/db.ts:676-677 | when no existing question carries any template text, every template is missing, in template order |
| Baseline.NothingMissingFromDefaults | server/db.ts:604-717 | a quiz created from the baseline questions is missing none of them |
| Baseline.DefaultTiers | server/db.ts:572-602 | the four default tiers give rest up to 20, active rest up to 40, light exercise up to 60, moderate exercise up to 100, and the fallback elsewhere |
| Records.IsToday | server/db.ts:735-736 | the filter of `getTodayResponse`: the same user and quiz, dated at or after midnight; TodayIndex and Db.Store.TodayResponse are stated with it |
| Records.TodayIndex | server/db.ts:727-739 | the first stored response of the user for the quiz dated at or after midnight |
| Records.Own | server/db.ts:741-754 | exactly the responses of the user |
| Records.CursorLimit | server/db.ts:751 | how many documents `limit(n)` lets through, 0 meaning all; History and Db.Store.PatientResponses are stated with it |
| Records.Take | server/db.ts:741-754 | a prefix of the list, as long as the positive limit allows |
| Records.History | server/db.ts:741-754 | the history is as long as the user's responses, cut to the limit |
| Records.HistoryWithinOwn | server/db.ts:741-754 | the history is a sub-multiset of the user's stored responses whatever the limit: sorting permutes and the limit keeps a prefix |
| Records.HistoryOwnAndOrdered | server/db.ts:741-754 | the history holds only the user's stored responses, newest first |
| Records.HistoryKeepsNewest | server/db.ts:741-754 | a response of the user left out of the history is no newer than any response in it |
| Records.HistoryUnlimited | server/db.ts:741-754 | with limit 0 the history is all of the user's responses |
| Records.PatchUser | server/db.ts:185-202 | the fields given are set, all others (id, e-mail, role, hash) are kept |
| Records.Patients | server/db.ts:220-231 | the summaries are of PATIENT users, and every PATIENT user has one |
| Records.OrNull | server/db.ts:268-272 | a stored optional field is present exactly when the patch gives it a value |
| Records.Keep | server/db.ts:878-883 | a patch key that is present replaces the field, an absent key keeps it |
| Records.NewProfile | server/db.ts:263-277 | the profile inserted for a user without one; ProfileFieldsSet states which fields it takes from the patch |
| Records.PatchProfile | server/db.ts:280-290 | the `$set` of the given keys on an existing profile; ProfileFieldsSet and EmptyProfilePatch state it |
| Records.ProfileFieldsSet | server/db.ts:233-291 | a profile inserted or updated with a patch has the patched fields, with its owner and id unchanged |
| Records.EmptyProfilePatch | server/db.ts:233-291 | an update with no keys leaves a profile unchanged |
| Records.PatchExercise | server/db.ts:870-896 | the given tutorial fields are set and the others kept, the id included |
| Records.ByIntensity | server/db.ts:842-854 | exactly the tutorials of the given intensity |
| Db.Bump | server/db.ts:102-110 | drawing an id raises that counter by one and lowers none |
| Db.BumpOthers | server/db.ts:102-110 | drawing from one sequence leaves the others unchanged |
| Db.IdsOkSnoc | server/db.ts:756-771 | an id freshly drawn from the counter is new to the collection |
| Db.IdsOkDrop | server/db.ts:898-904 | removing a record keeps the other ids distinct |
| Db.OneActiveUnique | server/db.ts:296-308 | in a store holding at most one active quiz, two active quizzes are the same one |
| Db.UniqueOneActive | server/db.ts:296-308 | the converse: when two active quizzes are always the same one, the store holds at most one active quiz |
| Db.Deactivated | server/db.ts:338-342 | turning off the active flag of every quiz but one changes nothing else |
| Db.DeactivatedKeepsIds | server/db.ts:338-342 | the deactivation keeps every quiz id |
| Db.DeactivatedOneActive | server/db.ts:338-342 | after deactivating all but one id, at most one quiz is active |
| Db.ReplaceOneActive | server/db.ts:360-385 | replacing a quiz keeps at most one active when the new one is active only if no other is |
| Db.AppendOneActive | server/db.ts:326-358 | appending a quiz keeps at most one active under the same condition |
| Db.CreatedQuizzesOk | server/db.ts:326-358 | creating an active quiz leaves it the only active one; creating an inactive one leaves the others as they were |
| Db.ReplaceKeepsQuizzesOk | server/db.ts:360-385 | a same-id, same-flag replacement keeps the quiz invariant |
| Db.ReplaceKeepsIds | server/db.ts:360-385 | a same-id replacement keeps the quiz ids |
| Db.QuizIndex | server/db.ts:310-316 | the position of the first quiz with the id, or the length when there is none |
| Db.QuestionIndex | server/db.ts:426-453 | the position of the first question with the id |
| Db.HolderIndex | server/db.ts:426-469 | the position of the first quiz holding a question with the id |
| Db.ActiveIndex | server/db.ts:296-308 | the position of the first active quiz |
| Db.WithoutQuestion | server/db.ts:455-469 | `$pull` keeps exactly the questions with other ids |
| Db.UpdatedQuizzes | server/db.ts:360-385 | the first quiz with the id gets the given fields and keeps every other one (questions, tiers, creator, and name, description or flag when not given); it is the quiz returned, and none is returned exactly when no quiz has the id |
| Db.PatchQuiz | server/db.ts:376-379 | `$set` of the provided quiz fields: each given field takes its value, every other field is unchanged |
| Db.UpdatedQuizzesKeepsIds | server/db.ts:369-384 | the update keeps the quiz ids; the other quizzes change at most their active flag, which is cleared only when activating |
| Db.ActivationKeepsOthersInactive | server/db.ts:369-374 | activating a quiz clears the flag of every other quiz |
| Db.UpdatedQuizzesOneActive | server/db.ts:369-384 | the update keeps at most one active quiz, and after activating, the active quiz is the one with the id |
| Db.UserIndex | server/db.ts:185-202 | the position of the first user with the id |
| Db.OpenIdIndex | server/db.ts:121-127 | the position of the first user with the open id |
| Db.EmailIndex | server/db.ts:129-138 | the position of the first user with the e-mail |
| Db.ProfileIndex | server/db.ts:207-218 | the position of the first profile of the user |
| Db.UserIndexIs | server/db.ts:185-202 | the first user with an id stays at its position once the store is updated |
| Db.ProfileIndexIs | server/db.ts:233-291 | the first profile of a user stays at its position once the store is updated |
| Db.ExerciseIndex | server/db.ts:870-904 | the position of the first tutorial with the id |
| Db.SeededExercisesIdsOk | server/db.ts:814-831 | the seeded tutorials have valid fresh ids |
| Db.AppendKeepsOneProfileEach | server/db.ts:263-277 | inserting a profile for a user who has none keeps one profile per user |
| Db.ReplaceKeepsOneProfileEach | server/db.ts:280-290 | updating a profile in place keeps one profile per user |
| Db.RecordsOkGrown | server/db.ts:102-110 | raising counters keeps the id bounds |
| Db.InsertedResponseOk | server/db.ts:756-771 | a response with a freshly drawn id keeps the invariant |
| Db.InsertedAnswerOk | server/routers/responses.ts:157-164 | an answer row with a freshly drawn id keeps the invariant |
| Db.InsertedUserOk | server/db.ts:151-183 | a user with a freshly drawn id keeps the invariant |
| Db.InsertedProfileOk | server/db.ts:263-277 | a new profile for a user without one keeps the invariant |
| Db.InsertedExerciseOk | server/db.ts:856-868 | a tutorial with a freshly drawn id keeps the invariant |
| Db.SeededOk | server/db.ts:814-831 | seeding the tutorials into an empty collection keeps the invariant |
| Db.ReplacedUserOk | server/db.ts:185-202 | a same-id user replacement keeps the invariant |
| Db.ReplacedProfileOk | server/db.ts:280-290 | a same-owner profile replacement keeps the invariant |
| Db.ReplacedExerciseOk | server/db.ts:870-896 | a same-id tutorial replacement keeps the invariant |
| Db.RemovedExerciseOk | server/db.ts:898-904 | removing a tutorial keeps the invariant |
| Db.Store.Valid | server/db.ts:102-110 | the invariant every store operation keeps over the top-level collections (quizzes, responses, answer rows, users, profiles, tutorials): their ids are distinct and no greater than their counter, at most one quiz is active (db.ts:338-342) and each user has at most one profile |
| Db.Store.NextId | server/db.ts:102-110 | the id returned is one more than the counter's previous value, and the counter now holds it |
| Db.Store.ValidGrown | server/db.ts:102-110 | the store stays valid under raised counters |
| Db.Store.CreateQuiz | server/db.ts:326-358 | the new quiz has a fresh id and no questions or tiers; created active, it is the only active quiz; created inactive, the other quizzes are untouched; offline it fails |
| Db.Store.UpdateQuizById | server/db.ts:360-385 | the update of the first quiz with the id, after deactivating every other quiz when activating; none is returned for an unknown id or offline |
| Db.Store.CreateQuizQuestion | server/db.ts:387-424 | the id is drawn first; the question is appended to the first quiz with the id, or "Quiz not found" leaves the quizzes as they were |
| Db.PatchQuestion | server/db.ts:434-440 | `$set` of the provided question fields through the positional operator: each given field takes its value, every other field is unchanged |
| Db.Store.UpdateQuizQuestionById | server/db.ts:426-453 | the given fields of the first matching question change in the first quiz holding it, and it is returned |
| Db.Store.DeleteQuizQuestionById | server/db.ts:455-469 | true exactly when some quiz holds the question, which is then pulled from the first such quiz |
| Db.Store.BuildChoices | server/db.ts:611-622 | the option loop draws one option id per option, in order |
| Db.Store.BuildQuestion | server/db.ts:609-635 | one question id, then its option ids |
| Db.Store.BuildQuestions | server/db.ts:608-635 | the question loop yields the seeded questions, with counters raised by the numbers of questions and options |
| Db.Store.BuildTiers | server/db.ts:637-650 | the tier loop yields the default tiers with fresh ids |
| Db.Store.CreateSeededQuiz | server/db.ts:604-667 | a new active quiz from the templates with fresh ids, appended, the only active quiz; the quiz counter rises by one, the question and option counters by the number of questions and options, the tier counter by the number of tiers |
| Db.Store.CreateDefaultQuiz | server/db.ts:604-667 | the active default quiz with the ten baseline questions and the four default tiers, and the four counters raised by what it drew |
| Db.Store.GetActiveQuiz | server/db.ts:296-308 | the first active quiz when there is one, with the store unchanged; otherwise the whole newly created default quiz (name, description, baseline questions, default tiers, fresh ids), appended, with the counters raised by what it drew |
| Db.Store.MergeTemplates | server/db.ts:669-717 | the questions whose text is missing are appended with fresh ids, the existing ones kept, the question and option counters raised by what was drawn, and afterwards none is missing |
| Db.Store.MergeMissingAt | server/db.ts:676-716 | the merge into one quiz: the missing questions appended (nothing written when none is missing), the counters raised by what was drawn |
| Db.Store.AppendQuestionsAt | server/db.ts:680-716 | the given templates are appended to one quiz with fresh ids, the question and option counters raised by their number |
| Db.Store.EnsureBaselineQuizQuestions | server/db.ts:669-717 | exactly the missing baseline questions are appended, the counters raised by what was drawn; afterwards none is missing, so a second call is a no-op |
| Db.Store.QuizById | server/db.ts:310-316 | a stored quiz with the id, none exactly when there is none or offline |
| Db.Store.QuizWithQuestions | server/db.ts:471-481 | the ordered snapshot of that quiz, present exactly when the quiz is |
| Db.Store.ScoringConfigForQuiz | server/db.ts:719-722 | the quiz's tiers, or none without the quiz |
| Db.Store.TodayResponse | server/db.ts:727-739 | a stored response of the user for the quiz at or after midnight, none exactly when there is none |
| Db.Store.PatientResponses | server/db.ts:741-754 | only the user's stored responses, newest first, at most the limit, none repeated more often than stored, all of them with limit 0 |
| Db.Store.InsertQuizResponse | server/db.ts:756-771 | the response is appended with a fresh id from its counter |
| Db.Store.InsertResponseAnswer | server/routers/responses.ts:157-164 | an answer row is appended with a fresh id |
| Db.Store.UserByOpenId | server/db.ts:121-127 | a stored user with the open id, none exactly when there is none |
| Db.Store.UserByEmail | server/db.ts:129-138 | a stored user whose e-mail is the normalized address, none exactly when there is none |
| Db.Store.UserById | server/db.ts:140-149 | a stored user with the id, none exactly when there is none |
| Db.Store.CreateUser | server/db.ts:151-183 | the user is appended with a fresh id and the normalized e-mail |
| Db.Store.UpdateUserById | server/db.ts:185-202 | the first user with the id gets the patch, every other user is unchanged |
| Db.Store.AllPatients | server/db.ts:220-231 | summaries of PATIENT users, one for every stored PATIENT |
| Db.Store.ProfileOf | server/db.ts:207-218 | the profile of the user, none exactly when the user has none |
| Db.Store.UpdatePatientProfile | server/db.ts:233-291 | the upsert: the existing profile is patched in place, or a new one is appended with a fresh id; the result is the user's profile afterwards |
| Db.Store.BuildExercises | server/db.ts:814-831 | the seed loop gives the tutorials consecutive fresh ids |
| Db.Store.SeedExercises | server/db.ts:814-831 | an empty collection is seeded from the templates with the tutorial counter raised by their number; a non-empty one is left alone |
| Db.Store.EnsureBaselineExercises | server/db.ts:814-831 | the same for the built-in tutorial list |
| Db.Store.AllExercises | server/db.ts:833-840 | every tutorial, after seeding an empty collection (counter included), so never none online |
| Db.Store.ExercisesByIntensity | server/db.ts:842-854 | exactly the tutorials of the intensity, after seeding an empty collection (counter included) |
| Db.Store.CreateExerciseTutorial | server/db.ts:856-868 | the tutorial is appended with a fresh id |
| Db.Store.UpdateExerciseTutorialById | server/db.ts:870-896 | the first tutorial with the id gets the given fields and is returned; none for an unknown id |
| Db.Store.DeleteExerciseTutorialById | server/db.ts:898-904 | true exactly when a tutorial with the id existed, and the first one is removed |
| Responses.QuestionFor | server/routers/responses.ts:123-127 | a question of the quiz with the id, none exactly when the quiz has none |
| Responses.MissingAt | server/routers/responses.ts:122-135 | the first answer whose question is not in the quiz |
| Responses.WeighAnswers | server/routers/responses.ts:122-135 | fails with "Question N not found" for the first unknown question; otherwise each answer carries its question's weight and type |
| Responses.WeighAnswersOk | server/routers/responses.ts:122-135 | the mapping succeeds exactly when every answered question exists, keeping each answer's id and value and taking weight and type from the question |
| Responses.Admission | server/routers/responses.ts:101-135 | the checks in order, one outcome each: a non-patient is refused, then "Database not available" offline, then the same-day rejection, then "Quiz not found", then "Question N not found" for the first unknown answer; a submission passes exactly when all pass, with the answers weighed against the quiz snapshot |
| Responses.QuestionsOfSnapshot | server/db.ts:471-481 | every answer finds its question in the ordered snapshot exactly when it finds it in the stored quiz |
| Responses.AnswerRows | server/routers/responses.ts:157-164 | one answer row per submitted answer, in order, with consecutive fresh ids |
| Responses.StoreAnswers | server/routers/responses.ts:157-164 | the loop appends exactly those rows |
| Responses.StoreSubmission | server/routers/responses.ts:137-164 | exactly one response is stored with the score and the resolved advice, then one row per answer |
| Responses.SubmitDaily | server/routers/responses.ts:88-174 | a refused submission writes nothing and reports the first failing check; an admitted one stores the scored response and its answer rows and returns it |
| Responses.SubmitDailyAsWritten | server/routers/responses.ts:144-155 | as written, every submission fails: the refusals as above, and an admitted one with "db.insert is not a function" |
| Responses.AdmissibleSubmission | server/routers/responses.ts:101-135 | a patient with no earlier response who submits no answers for an existing quiz is admitted |
| Responses.SecondSubmissionRejected | server/routers/responses.ts:108-114 | after a response today to the same quiz, a second submission is refused as already answered |
| Responses.GetMyHistory | server/routers/responses.ts:179-187 | refused exactly when nobody is signed in; otherwise the caller's history (Records.History, limit 30 by default), so only their own responses, newest first, none repeated, within the limit |
| Responses.GetPatientHistory | server/routers/responses.ts:192-205 | refused exactly for a caller who is not an oncologist; otherwise that patient's history (Records.History, limit 30 by default), newest first, none repeated, within the limit |
| Responses.GetToday | server/routers/responses.ts:210-219 | refused exactly for a non-patient; otherwise today's response of the caller for the quiz, none exactly when there is none |
| PasswordLogin.NormalizeRole | server/auth/passwordLogin.ts:27-28 | ONCOLOGIST exactly for the string "ONCOLOGIST", PATIENT for anything else, absence included |
| PasswordLogin.HashPassword | server/auth/passwordLogin.ts:9-13 | `salt:hash` with the derived key of the password under the salt; VerifyHashedPassword states the round trip |
| PasswordLogin.VerifyPassword | server/auth/passwordLogin.ts:15-21 | false for a missing or empty value, one without a ':', one with an empty salt and one with an empty hash piece (nothing, or a second ':', after the first ':') |
| PasswordLogin.NoSepOneSplit | server/auth/passwordLogin.ts:17 | a hash without ':' splits into one part, so its hash part is missing |
| PasswordLogin.LeadingSepSplit | server/auth/passwordLogin.ts:17 | a hash starting with ':' has an empty salt |
| PasswordLogin.EmptyHashSplit | server/auth/passwordLogin.ts:17 | splitting a salt followed by ':' and then nothing or another ':' gives an empty second piece |
| PasswordLogin.EmptyHashRejected | server/auth/passwordLogin.ts:17-18 | "ab:" and "ab::cd" never match, whatever the password |
| PasswordLogin.VerifyHashedPassword | server/auth/passwordLogin.ts:9-21 | a hash made by `hashPassword` is checked by comparing the derived key of the same password and salt with itself |
| PasswordLogin.RegistrationError | server/auth/passwordLogin.ts:55-73 | no error exactly when e-mail, password, name and plan are present and the password has at least 6 characters; the missing-credentials error comes first, then the name, then the plan, then the length |
| PasswordLogin.HasPaidPlan | server/auth/passwordLogin.ts:78 | the plan flag: a monthly or an annual plan; Register's contract stores it |
| PasswordLogin.Register | server/auth/passwordLogin.ts:53-103 | 400 with no user created for a bad form, 500 offline, 409 for a known e-mail, otherwise 201 and exactly one new user with the normalized e-mail as open id, the hash, the plan flag and no anamnesis |
| PasswordLogin.Login | server/auth/passwordLogin.ts:106-131 | 400 for missing fields; 401 for an unknown user or a failed check; 500 when the comparison throws; otherwise the user's sign-in time is updated (and nothing else), then 200 with the signed token, or 500 when signing throws for want of a JWT secret (server/auth/jwt.ts:17-19), the sign-in time staying written |
| PasswordLogin.StoredUserIndexed | server/auth/passwordLogin.ts:114-119 | a stored user is found by its id |
| PasswordLogin.SignedInAt | server/auth/passwordLogin.ts:119 | the login patch sets only the sign-in time |
| PasswordLogin.EnsureAdmin | server/auth/passwordLogin.ts:32-49 | the administrator is created only when no user has that e-mail, and afterwards exists online |
| Patients.CanAccess | server/routers/patients.ts:32-37 | the negation of the refusal shared by `getById` and `updateProfile` (patients.ts:71-76); CanAccessCases states its cases |
| Patients.CanAccessCases | server/routers/patients.ts:32-37 | nobody signed in is refused, a patient reaches only their own record, an oncologist every record |
| Patients.Upserted | server/db.ts:233-291 | the effect of the upsert on the profiles and the counter: the user's profile patched, or a new profile with the next id appended, no other profile touched |
| Patients.Marked | server/routers/patients.ts:158 | the effect of the account update: the first user with the id gets `hasCompletedAnamnesis`, no other user changes |
| Patients.GetById | server/routers/patients.ts:28-53 | "Unauthorized" exactly without access; "Patient not found" exactly when the user is missing or not a patient; otherwise the patient's details with their profile, or none when there is no profile |
| Patients.ProfileFormPatch | server/routers/patients.ts:78-84 | the update passes all five keys, an omitted field as a key with no value |
| Patients.UpdateProfile | server/routers/patients.ts:58-87 | "Unauthorized" with nothing written, unless the caller is an oncologist or the patient; otherwise the profile is upserted (Patients.Upserted) and the stored profile carries every form field, the given diagnosis included |
| Patients.AnamnesisPatch | server/routers/patients.ts:126-156 | the anamnesis writes the diagnosis, the treatment stage and the answers as observations, and leaves date of birth and gender alone |
| Patients.StoreAnamnesisProfile | server/routers/patients.ts:152-156 | the first write alone: online, the upsert of the diagnosis, stage and answers (Patients.Upserted), so the caller's profile then holds them while an existing date of birth and gender are kept (absent on a new profile); offline nothing changes |
| Patients.StoreAnamnesis | server/routers/patients.ts:152-158 | both writes: the profile upsert (Patients.Upserted) and the account flag (Patients.Marked); the caller's profile gets the diagnosis, stage and answers, and the account is marked as having completed the anamnesis |
| Patients.MarkAnamnesisCompleted | server/routers/patients.ts:158 | the second write alone: online, the account update (Patients.Marked), the user read back with the flag set; offline nothing changes |
| Patients.CompleteAnamnesis | server/routers/patients.ts:92-161 | an empty diagnosis and a non-patient caller are refused with nothing written; a patient gets success, even with no database, with both writes done exactly (Patients.Upserted, Patients.Marked) when online |
| Patients.List | server/routers/patients.ts:15-23 | every PATIENT user's id, name and e-mail, and nothing else |
| Patients.ProfileUpdateNullsOmittedFields | server/routers/patients.ts:78-84 | updating a stored profile with only a diagnosis nulls the other fields it had |

## Left out

- The MongoDB connection and its indexes are not modelled: `getDb`,
  `ensureMongoIndexes` and `resolveDbNameFromUri` (server/db.ts:44-100).
  The store is in memory, and the `online` flag stands for whether a
  connection is configured.
- The in-memory test stubs (server/db.ts:23-42) are not modelled: the
  unit-test profile map and the fixed test user. Neither are the branches
  that use them when the code runs under test without a database
  (server/db.ts:143, 210 and 239-256).
- The Drizzle insert and read-back in `submitDaily` are modelled as their
  evident intent: `insertQuizResponse`, then one answer row per answer,
  then the stored response is returned. See "## Findings".
  `Db.Store.InsertResponseAnswer` is an abstract store insert with its own
  "quiz_response_answers" counter, because `db.ts` has no answer-row
  function and the table lives only in the Drizzle schema.
- Responses.StoreSubmission stores `totalScore` as a number rather than
  its decimal string: the conversion of a JavaScript number to text
  involves floating point.
- `parseFloat` of weights and tier bounds, and floating-point rounding,
  are left out: decimals are exact reals. A weight or bound that is not a
  number (NaN in JavaScript) is not represented.
- Lower-casing covers ASCII letters only. Lengths count characters,
  whereas JavaScript counts UTF-16 code units.
- Time is not read from a clock:
  - `new Date()` becomes the `now` parameter;
  - the local midnight of `getTodayResponse` becomes the `midnight`
    parameter;
  - `createdAt` and `updatedAt` stamps are not stored.
- Concurrency is left out. So is the missing unique index on user,
  quiz and day, which lets concurrent submissions both pass the same-day
  check.
- Crypto and tokens are parameters:
  - pbkdf2 and random salts;
  - `timingSafeEqual` (its hex decoding included);
  - JWT signing, except that it may fail: `sign` returns no token when
    `signAuthToken` throws for a missing secret.

  The 16-byte hex salt and the 64-byte key are not modelled, so the
  lengths the comparison sees are whatever `kdf` returns.
- PasswordLogin.Login: a non-string `email` or `password` in the request
  body is not modelled, because models of fields are strings or absent.
  In the source the two behave differently:
  - a truthy non-string `email` reaches `normalizeEmail` outside the
    `try` and throws;
  - a truthy non-string `password`, such as the number 123456, gives 401
    when there is no user or the stored hash is missing or malformed;
  - for a user with a well-formed stored hash, that `password` reaches
    `pbkdf2Sync` inside the `try` (passwordLogin.ts:19), which throws, and
    the reply is 500 (passwordLogin.ts:127-129).
- Db.Store.Valid covers the top-level collections only. It does not
  state that the ids embedded in quizzes (questions, options and scoring
  tiers) are distinct and within their counters. Each quiz write states
  instead that the counters rise by exactly what it draws, and
  Baseline.MaterializeOptionIdsDistinct proves the option ids of one batch
  distinct. Carrying the embedded ids as an invariant through every
  question write would make the quiz methods' proofs far larger.
- Records.History puts responses with the same `responseDate` in their
  stored order. MongoDB's `sort({ responseDate: -1 })` (server/db.ts:750)
  leaves that order unspecified. When the limit cuts between responses
  with equal dates, the model therefore picks one of several possible
  results.
- The tRPC plumbing is not part of this model:
  - the context that reads the bearer token;
  - the zod schemas, except the non-empty diagnosis of the anamnesis,
    whose error text is abbreviated to "Invalid input";
  - the thin routers that only forward to `db.ts`: quizzes, exercises,
    subscriptions and `getAllQuizzes`.

  server/api/trpc.ts is not part of this model, so whether a procedure
  requires an administrator is not modelled.
- The React pages, the seed scripts and the serverless entry points are
  out of scope.

## Findings

| source | as written | input that shows it | evidently intended | confidence | as-written member | corrected member |
|---|---|---|---|---|---|---|
| server/routers/responses.ts:154 | `db` is the MongoDB `Db` handle returned by `getDb`, which has no `insert` method, so `db.insert(quizResponses)` throws after the checks and the score | any admitted submission, for example a patient with no earlier response who submits no answers to an existing quiz | store the response with `insertQuizResponse`, then one answer row per answer, and return the stored response | not executed | Responses.SubmitDailyAsWritten | Responses.SubmitDaily |
