/** The built-in content the store seeds itself with: the ten baseline
    check-in questions, the four default scoring tiers and the five baseline
    exercise tutorials, and how a batch of templates becomes stored records
    with freshly numbered ids. */
module Baseline {
  import opened Common
  import opened Types
  import opened Recommendation

  datatype ChoiceTemplate = ChoiceTemplate(text: string, scoreValue: string, order: int)

  datatype QuestionTemplate = QuestionTemplate(
    text: string,
    questionType: QuestionType,
    weight: real,
    order: int,
    options: seq<ChoiceTemplate>)

  datatype TierTemplate = TierTemplate(
    minScore: real,
    maxScore: real,
    isGoodDay: bool,
    recommendedExerciseType: string,
    exerciseDescription: string)

  datatype ExerciseTemplate = ExerciseTemplate(
    name: string,
    description: string,
    intensityLevel: Intensity,
    safetyGuidelines: string)

  const BaselineQuestions: seq<QuestionTemplate> := [
    QuestionTemplate("Como está seu nível de energia hoje? (0 = Muito baixo, 10 = Muito alto)", Scale0To10, 1.5, 1, []),
    QuestionTemplate("Como está sua dor hoje? (0 = Sem dor, 10 = Dor intensa)", Scale0To10, 2.0, 2, []),
    QuestionTemplate("Você está sentindo náusea hoje?", YesNo, 1.0, 3, []),
    QuestionTemplate("Como foi a qualidade do seu sono na última noite?", MultipleChoice, 1.2, 4, [
      ChoiceTemplate("Ruim", "2", 1),
      ChoiceTemplate("Regular", "5", 2),
      ChoiceTemplate("Boa", "8", 3),
      ChoiceTemplate("Excelente", "10", 4)]),
    QuestionTemplate("Você urinou hoje?", YesNo, 1.0, 5, []),
    QuestionTemplate("Quantos líquidos você ingeriu hoje?", MultipleChoice, 1.0, 6, [
      ChoiceTemplate("Menos de 500 ml", "2", 1),
      ChoiceTemplate("Entre 500 ml e 1 L", "5", 2),
      ChoiceTemplate("Entre 1 L e 2 L", "8", 3),
      ChoiceTemplate("Mais de 2 L", "10", 4)]),
    QuestionTemplate("Como foi sua última alimentação?", MultipleChoice, 1.0, 7, [
      ChoiceTemplate("Ainda não me alimentei", "2", 1),
      ChoiceTemplate("Lanche leve", "5", 2),
      ChoiceTemplate("Refeição completa", "8", 3),
      ChoiceTemplate("Tive enjoo/vômito", "1", 4)]),
    QuestionTemplate("Você está sentindo tontura ou falta de ar?", YesNo, 1.5, 8, []),
    QuestionTemplate("Teve febre ou calafrios nas últimas 24 horas?", YesNo, 2.0, 9, []),
    QuestionTemplate("Percebeu sangramentos ou hematomas diferentes do habitual?", YesNo, 2.0, 10, [])
  ]

  const DefaultScoring: seq<TierTemplate> := [
    TierTemplate(0.0, 20.0, false, "Dia de descanso",
      "Hoje não é um bom dia para exercícios. Foque em descanso e recuperação."),
    TierTemplate(20.0, 40.0, true, "Descanso ativo",
      "Movimentos leves como caminhada devagar ou alongamentos são recomendados."),
    TierTemplate(40.0, 60.0, true, "Exercício leve",
      "Caminhada leve ou alongamentos suaves por 15 a 20 minutos."),
    TierTemplate(60.0, 100.0, true, "Exercício moderado",
      "Você pode fazer exercícios moderados como caminhada acelerada ou treino de força leve.")
  ]

  const BaselineExercises: seq<ExerciseTemplate> := [
    ExerciseTemplate("Caminhada leve",
      "Caminhada confortável por 10–20 minutos, respeitando seus limites.", Light,
      "Hidrate-se. Pare se sentir tontura, falta de ar ou dor incomum."),
    ExerciseTemplate("Alongamento suave",
      "Alongamentos leves para mobilidade e rigidez (5–10 minutos).", Light,
      "Não force. Mantenha cada posição por 20–30 segundos."),
    ExerciseTemplate("Força leve (sentada)",
      "Exercícios com elástico leve ou peso do corpo, com pausas frequentes (8–12 min).", Moderate,
      "Priorize técnica. Interrompa se houver dor ou falta de ar intensa."),
    ExerciseTemplate("Cardio moderado controlado",
      "Marcha no lugar/caminhada com fala confortável (10–15 min).", Moderate,
      "Mantenha esforço leve/moderado e pare se sentir sintomas incomuns."),
    ExerciseTemplate("Circuito funcional (moderado)",
      "Sequência curta de força e mobilidade (10–15 min), sem impacto.", Strong,
      "Evite impacto. Faça pausas. Pare se houver dor, tontura ou falta de ar.")
  ]

  /** The name and description of the quiz created when none is active. */
  const DefaultQuizName := "Check de Bem-Estar Diário"
  const DefaultQuizDescription := "Avaliação rápida para saber se é um bom dia para se exercitar e qual atividade fazer"

  function MakeChoice(c: ChoiceTemplate, id: nat): Choice
  {
    Choice(id, c.text, c.scoreValue, c.order)
  }

  function MakeQuestion(t: QuestionTemplate, quizId: nat, id: nat, options: seq<Choice>): Question
  {
    Question(id, quizId, t.text, t.questionType, t.weight, t.order, options)
  }

  /** The options of one template, numbered consecutively after `last`,
      the value the option counter stands at. */
  function MakeChoices(cs: seq<ChoiceTemplate>, last: nat): (r: seq<Choice>)
    ensures |r| == |cs|
    ensures forall i :: 0 <= i < |cs| ==> r[i] == MakeChoice(cs[i], last + i + 1)
  {
    seq(|cs|, i requires 0 <= i < |cs| => MakeChoice(cs[i], last + i + 1))
  }

  /** How many option ids the first `i` templates of a batch consume. */
  function OptionOffset(ts: seq<QuestionTemplate>, i: nat): nat
    requires i <= |ts|
  {
    if i == 0 then 0 else OptionOffset(ts, i - 1) + |ts[i - 1].options|
  }

  /** How many option ids a whole batch consumes. */
  function OptionCount(ts: seq<QuestionTemplate>): nat
  {
    OptionOffset(ts, |ts|)
  }

  /** The options of a longer prefix start no earlier. */
  lemma {:induction false} OptionOffsetMono(ts: seq<QuestionTemplate>, i: nat, j: nat)
    requires i <= j <= |ts|
    ensures OptionOffset(ts, i) <= OptionOffset(ts, j)
    decreases j - i
  {
    if i < j {
      OptionOffsetMono(ts, i, j - 1);
    }
  }

  /** The records a batch of templates becomes when the question counter
      stands at `lastQ` and the option counter at `lastO`, ids being drawn in
      template order: the options of the i-th template come after those of
      the ones before it. */
  function Materialize(ts: seq<QuestionTemplate>, quizId: nat, lastQ: nat, lastO: nat): (r: seq<Question>)
    ensures |r| == |ts|
    ensures forall i {:trigger r[i]} :: 0 <= i < |ts| ==>
              r[i] == MakeQuestion(ts[i], quizId, lastQ + i + 1, MakeChoices(ts[i].options, lastO + OptionOffset(ts, i)))
  {
    seq(|ts|, i requires 0 <= i < |ts| =>
      MakeQuestion(ts[i], quizId, lastQ + i + 1, MakeChoices(ts[i].options, lastO + OptionOffset(ts, i))))
  }

  lemma MakeChoicesSnoc(cs: seq<ChoiceTemplate>, j: nat, last: nat)
    requires j < |cs|
    ensures MakeChoices(cs[..j + 1], last) == MakeChoices(cs[..j], last) + [MakeChoice(cs[j], last + j + 1)]
  {
  }

  /** The option ids of the materialized questions lie in
      `(lastO, lastO + OptionCount(ts)]`: each template's options sit
      between those of the templates before and after it. */
  lemma MaterializeOptionBounds(ts: seq<QuestionTemplate>, quizId: nat, lastQ: nat, lastO: nat, i: nat, k: nat)
    requires i < |ts| && k < |ts[i].options|
    ensures lastO + OptionOffset(ts, i) < Materialize(ts, quizId, lastQ, lastO)[i].options[k].id
              <= lastO + OptionOffset(ts, i + 1)
    ensures lastO < Materialize(ts, quizId, lastQ, lastO)[i].options[k].id <= lastO + OptionCount(ts)
  {
    OptionOffsetMono(ts, 0, i);
    OptionOffsetMono(ts, i + 1, |ts|);
  }

  /** The k-th option of the i-th materialized question has the id after
      the options of the templates before it and the k options before it. */
  lemma MaterializedOptionId(ts: seq<QuestionTemplate>, quizId: nat, lastQ: nat, lastO: nat, i: nat, k: nat)
    requires i < |ts| && k < |ts[i].options|
    ensures Materialize(ts, quizId, lastQ, lastO)[i].options[k].id == lastO + OptionOffset(ts, i) + k + 1
  {
    assert Materialize(ts, quizId, lastQ, lastO)[i].options == MakeChoices(ts[i].options, lastO + OptionOffset(ts, i));
  }

  /** The options of one materialized question carry distinct ids. */
  lemma SameQuestionOptionIdsDistinct(ts: seq<QuestionTemplate>, quizId: nat, lastQ: nat, lastO: nat,
                                      i: nat, k: nat, k': nat)
    requires i < |ts| && k < |ts[i].options| && k' < |ts[i].options| && k != k'
    ensures Materialize(ts, quizId, lastQ, lastO)[i].options[k].id
         != Materialize(ts, quizId, lastQ, lastO)[i].options[k'].id
  {
    var os := Materialize(ts, quizId, lastQ, lastO)[i].options;
    assert os == MakeChoices(ts[i].options, lastO + OptionOffset(ts, i));
  }

  /** The options of an earlier template are numbered before those of a
      later one. */
  lemma EarlierOptionsFirst(ts: seq<QuestionTemplate>, i: nat, k: nat, i': nat)
    requires i < i' <= |ts| && k < |ts[i].options|
    ensures OptionOffset(ts, i) + k < OptionOffset(ts, i')
  {
    assert OptionOffset(ts, i + 1) == OptionOffset(ts, i) + |ts[i].options|;
    OptionOffsetMono(ts, i + 1, i');
  }

  /** No two materialized options share an id. */
  lemma MaterializeOptionIdsDistinct(ts: seq<QuestionTemplate>, quizId: nat, lastQ: nat, lastO: nat,
                                     i: nat, k: nat, i': nat, k': nat)
    requires i < |ts| && k < |ts[i].options| && i' < |ts| && k' < |ts[i'].options|
    requires (i, k) != (i', k')
    ensures Materialize(ts, quizId, lastQ, lastO)[i].options[k].id
         != Materialize(ts, quizId, lastQ, lastO)[i'].options[k'].id
  {
    if i == i' {
      SameQuestionOptionIdsDistinct(ts, quizId, lastQ, lastO, i, k, k');
    } else {
      MaterializedOptionId(ts, quizId, lastQ, lastO, i, k);
      MaterializedOptionId(ts, quizId, lastQ, lastO, i', k');
      if i < i' {
        EarlierOptionsFirst(ts, i, k, i');
      } else {
        EarlierOptionsFirst(ts, i', k', i);
      }
    }
  }

  /** The scoring tiers, numbered consecutively after `last`. */
  function MakeTiers(ts: seq<TierTemplate>, quizId: nat, last: nat): (r: seq<ScoringRule>)
    ensures |r| == |ts|
    ensures forall i :: 0 <= i < |ts| ==> r[i] == MakeTier(ts[i], quizId, last + i + 1)
  {
    seq(|ts|, i requires 0 <= i < |ts| => MakeTier(ts[i], quizId, last + i + 1))
  }

  function MakeTier(t: TierTemplate, quizId: nat, id: nat): ScoringRule
  {
    ScoringRule(id, quizId, t.minScore, t.maxScore, t.isGoodDay, t.recommendedExerciseType, Some(t.exerciseDescription))
  }

  function MakeExercise(t: ExerciseTemplate, id: nat): Exercise
  {
    Exercise(id, t.name, Some(t.description), t.intensityLevel, Some(t.safetyGuidelines), None)
  }

  /** The seeded tutorials, numbered after the counter's last value. */
  function MakeExercises(ts: seq<ExerciseTemplate>, last: nat): (r: seq<Exercise>)
    ensures |r| == |ts|
    ensures forall i :: 0 <= i < |ts| ==> r[i] == MakeExercise(ts[i], last + i + 1)
  {
    seq(|ts|, i requires 0 <= i < |ts| => MakeExercise(ts[i], last + i + 1))
  }

  /** Whether some question already carries the text `t`. */
  predicate HasText(qs: seq<Question>, t: string)
  {
    exists i :: 0 <= i < |qs| && qs[i].text == t
  }

  /** The templates of `ts` (the baseline) whose text no existing question
      carries, in template order. */
  function Missing(ts: seq<QuestionTemplate>, existing: seq<Question>): seq<QuestionTemplate>
  {
    Filter(ts, (t: QuestionTemplate) => !HasText(existing, t.text))
  }

  /** After the missing templates are appended, nothing is missing any more:
      merging the baseline a second time adds nothing. */
  lemma MergeIsIdempotent(ts: seq<QuestionTemplate>, existing: seq<Question>, quizId: nat, lastQ: nat, lastO: nat)
    ensures Missing(ts, existing + Materialize(Missing(ts, existing), quizId, lastQ, lastO)) == []
  {
    var m := Missing(ts, existing);
    var added := Materialize(m, quizId, lastQ, lastO);
    var merged := existing + added;
    forall i | 0 <= i < |ts| ensures HasText(merged, ts[i].text) {
      var t := ts[i];
      if HasText(existing, t.text) {
        var j :| 0 <= j < |existing| && existing[j].text == t.text;
        assert merged[j] == existing[j];
      } else {
        assert t in m;
        var k :| 0 <= k < |m| && m[k] == t;
        assert merged[|existing| + k] == added[k];
      }
    }
    NothingMissing(ts, merged);
  }

  /** A quiz that already holds every baseline text is left alone. */
  lemma NothingMissing(ts: seq<QuestionTemplate>, existing: seq<Question>)
    requires forall i :: 0 <= i < |ts| ==> HasText(existing, ts[i].text)
    ensures Missing(ts, existing) == []
  {
    assert forall i :: 0 <= i < |ts| ==>
      !(((t: QuestionTemplate) => !HasText(existing, t.text))(ts[i]));
  }

  /** A quiz whose questions carry none of the template texts misses every
      template, so the merge appends all of them in template order. */
  lemma AllMissingFromUnrelated(ts: seq<QuestionTemplate>, existing: seq<Question>)
    requires forall i, j :: 0 <= i < |ts| && 0 <= j < |existing| ==> existing[j].text != ts[i].text
    ensures Missing(ts, existing) == ts
  {
    FilterAll(ts, (t: QuestionTemplate) => !HasText(existing, t.text));
  }

  /** In particular, the questions of a freshly created default quiz miss
      nothing. */
  lemma NothingMissingFromDefaults(ts: seq<QuestionTemplate>, quizId: nat, lastQ: nat, lastO: nat)
    ensures Missing(ts, Materialize(ts, quizId, lastQ, lastO)) == []
  {
    var qs := Materialize(ts, quizId, lastQ, lastO);
    forall i | 0 <= i < |ts| ensures HasText(qs, ts[i].text) {
      assert qs[i].text == ts[i].text;
    }
    NothingMissing(ts, qs);
  }

  /** A proof step for DefaultTiers and nothing more: it unfolds `Best` on
      a four-element list into its four `Combine` steps. */
  lemma Best4(a: ScoringRule, b: ScoringRule, c: ScoringRule, d: ScoringRule, score: real)
    ensures Best([a, b, c, d], score)
         == Combine(Combine(Combine(Combine(None, a, score), b, score), c, score), d, score)
  {
    assert [a][..0] == [];
    assert Best([a], score) == Combine(None, a, score);
    assert [a, b][..1] == [a];
    assert Best([a, b], score) == Combine(Best([a], score), b, score);
    assert [a, b, c][..2] == [a, b];
    assert Best([a, b, c], score) == Combine(Best([a, b], score), c, score);
    assert [a, b, c, d][..3] == [a, b, c];
  }

  /** The default tiers decide every score from 0 to 100: the shared bounds
      20, 40 and 60 belong to the lower tier, anything above 100 falls back
      to a "Light Walk" and anything below 0 to a "Rest Day". */
  lemma DefaultTiers(quizId: nat, last: nat, score: real)
    ensures var rules := MakeTiers(DefaultScoring, quizId, last);
            && (0.0 <= score <= 20.0 ==> Resolve(score, rules) == Recommendation(false, "Dia de descanso"))
            && (20.0 < score <= 40.0 ==> Resolve(score, rules) == Recommendation(true, "Descanso ativo"))
            && (40.0 < score <= 60.0 ==> Resolve(score, rules) == Recommendation(true, "Exercício leve"))
            && (60.0 < score <= 100.0 ==> Resolve(score, rules) == Recommendation(true, "Exercício moderado"))
            && (score > 100.0 ==> Resolve(score, rules) == Recommendation(true, "Light Walk"))
            && (score < 0.0 ==> Resolve(score, rules) == Recommendation(false, "Rest Day"))
  {
    var rules := MakeTiers(DefaultScoring, quizId, last);
    var t0, t1, t2, t3 := rules[0], rules[1], rules[2], rules[3];
    assert rules == [t0, t1, t2, t3];
    assert t0.minScore == 0.0 && t0.maxScore == 20.0 && !t0.isGoodDay && t0.recommendedExerciseType == "Dia de descanso";
    assert t1.minScore == 20.0 && t1.maxScore == 40.0 && t1.isGoodDay && t1.recommendedExerciseType == "Descanso ativo";
    assert t2.minScore == 40.0 && t2.maxScore == 60.0 && t2.isGoodDay && t2.recommendedExerciseType == "Exercício leve";
    assert t3.minScore == 60.0 && t3.maxScore == 100.0 && t3.isGoodDay && t3.recommendedExerciseType == "Exercício moderado";
    SelectSortBy(rules, score);
    Best4(t0, t1, t2, t3, score);
  }
}
