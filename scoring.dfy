/** The score calculator of the daily check-in: every answer is worth a raw
    number of points that depends on its question's type, multiplied by the
    question's weight, and the products are added up. There is no range check
    and no normalisation. */
module Scoring {
  import opened Types
  import JsParse

  /** An answer joined with its question's type and parsed weight. */
  datatype WeightedAnswer = WeightedAnswer(
    questionId: nat,
    weight: real,
    questionType: QuestionType,
    answerValue: string)

  /** Raw points of one answer: a YES_NO answer is worth 10 when it is exactly
      "YES"; the other two types are worth `parseInt(answerValue) || 0` (a
      choice's configured `scoreValue` is not consulted). */
  function RawPoints(t: QuestionType, answerValue: string): int
  {
    match t
    case YesNo => if answerValue == "YES" then 10 else 0
    case Scale0To10 => JsParse.ParseIntOrZero(answerValue)
    case MultipleChoice => JsParse.ParseIntOrZero(answerValue)
  }

  /** What one answer adds to the total. */
  function Contribution(a: WeightedAnswer): real
  {
    Scaled(RawPoints(a.questionType, a.answerValue), a.weight)
  }

  /** `questionScore * answer.weight`. */
  function Scaled(points: int, weight: real): real
  {
    (points as real) * weight
  }

  /** The total, accumulated from the first answer to the last. */
  function Score(answers: seq<WeightedAnswer>): real
  {
    if answers == [] then 0.0
    else Score(answers[..|answers| - 1]) + Contribution(answers[|answers| - 1])
  }

  /** `calculateScore`: the accumulation loop over the answers. */
  method CalculateScore(answers: seq<WeightedAnswer>) returns (totalScore: real)
    ensures totalScore == Score(answers)
  {
    totalScore := 0.0;
    var i := 0;
    while i < |answers|
      invariant 0 <= i <= |answers|
      invariant totalScore == Score(answers[..i])
    {
      var questionScore := RawPoints(answers[i].questionType, answers[i].answerValue);
      totalScore := totalScore + Scaled(questionScore, answers[i].weight);
      assert answers[..i + 1][..i] == answers[..i];
      i := i + 1;
    }
    assert answers[..i] == answers;
  }

  /** A YES_NO answer adds ten times its weight exactly when it is "YES";
      any other text adds nothing. */
  lemma YesNoContribution(a: WeightedAnswer)
    requires a.questionType == YesNo
    ensures a.answerValue == "YES" ==> Contribution(a) == 10.0 * a.weight
    ensures a.answerValue != "YES" ==> Contribution(a) == 0.0
  {
  }

  /** A SCALE_0_10 or MULTIPLE_CHOICE answer adds its parsed integer times the
      weight; text that is not a number adds nothing. */
  lemma NumericContribution(a: WeightedAnswer)
    requires a.questionType != YesNo
    ensures JsParse.ParseInt(a.answerValue).Some? ==>
              Contribution(a) == Scaled(JsParse.ParseInt(a.answerValue).value, a.weight)
    ensures JsParse.ParseInt(a.answerValue).None? ==> Contribution(a) == 0.0
  {
    if JsParse.ParseInt(a.answerValue).None? {
      assert Contribution(a) == Scaled(0, a.weight);
    }
  }

  /** Out-of-range scale answers are neither rejected nor clamped. */
  lemma ScaleUnclamped(q: nat, w: real)
    ensures Contribution(WeightedAnswer(q, w, Scale0To10, "15")) == 15.0 * w
    ensures Contribution(WeightedAnswer(q, w, Scale0To10, "-3")) == -3.0 * w
  {
    JsParse.ParseIntUnclamped();
    assert RawPoints(Scale0To10, "15") == 15;
    assert RawPoints(Scale0To10, "-3") == -3;
  }

  /** The totals of two batches of answers add up. */
  lemma {:induction false} ScoreAppend(a: seq<WeightedAnswer>, b: seq<WeightedAnswer>)
    ensures Score(a + b) == Score(a) + Score(b)
    decreases |b|
  {
    if b == [] {
      assert a + b == a;
    } else {
      assert (a + b)[..|a + b| - 1] == a + b[..|b| - 1];
      ScoreAppend(a, b[..|b| - 1]);
    }
  }

  lemma ScoreSingle(x: WeightedAnswer)
    ensures Score([x]) == Contribution(x)
  {
    assert [x][..0] == [];
  }

  /** The total does not depend on the order the answers were submitted in. */
  lemma {:induction false} ScorePermutation(a: seq<WeightedAnswer>, b: seq<WeightedAnswer>)
    requires multiset(a) == multiset(b)
    ensures Score(a) == Score(b)
    decreases |a|
  {
    if a != [] {
      var x := a[|a| - 1];
      var init := a[..|a| - 1];
      assert a == init + [x];
      assert x in multiset(b);
      var k :| 0 <= k < |b| && b[k] == x;
      var rest := b[..k] + b[k + 1..];
      assert b == b[..k] + [x] + b[k + 1..];
      assert multiset(a) == multiset(init) + multiset{x};
      assert multiset(b) == multiset(b[..k]) + multiset{x} + multiset(b[k + 1..]);
      assert multiset(rest) == multiset(b[..k]) + multiset(b[k + 1..]);
      assert multiset(init) == multiset(a) - multiset{x};
      assert multiset(rest) == multiset(b) - multiset{x};
      ScorePermutation(init, rest);
      ScoreAppend(b[..k] + [x], b[k + 1..]);
      ScoreAppend(b[..k], [x]);
      ScoreAppend(b[..k], b[k + 1..]);
      ScoreSingle(x);
    }
  }

  /** A SCALE_0_10 answer "7" of weight 2 and a YES_NO answer "NO" of weight 1
      score 14. */
  lemma ScoreExample()
    ensures Score([WeightedAnswer(1, 2.0, Scale0To10, "7"), WeightedAnswer(2, 1.0, YesNo, "NO")]) == 14.0
  {
    var s := [WeightedAnswer(1, 2.0, Scale0To10, "7"), WeightedAnswer(2, 1.0, YesNo, "NO")];
    JsParse.ParseIntDecimalString(7, "");
    assert JsParse.DecimalString(7) + "" == "7";
    assert s[..1] == [s[0]];
    ScoreSingle(s[0]);
  }
}
