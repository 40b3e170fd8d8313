/** The recommendation resolver of the daily check-in: the quiz's scoring
    tiers are sorted in place by their lower bound, and the first tier whose
    closed range holds the score decides; when none does, a fixed fallback
    applies. */
module Recommendation {
  import opened Common
  import opened Types
  import opened Sorting

  datatype Recommendation = Recommendation(isGoodDay: bool, recommendedExerciseType: string)

  /** The sort key: `parseFloat(minScore)`. */
  function MinKey(r: ScoringRule): real
  {
    r.minScore
  }

  /** Both bounds of a tier are inclusive. */
  predicate Covers(r: ScoringRule, score: real)
  {
    r.minScore <= score <= r.maxScore
  }

  function Advice(r: ScoringRule): Recommendation
  {
    Recommendation(r.isGoodDay, r.recommendedExerciseType)
  }

  /** The default when no tier holds the score. */
  function Fallback(score: real): Recommendation
  {
    Recommendation(score >= 50.0, if score >= 50.0 then "Light Walk" else "Rest Day")
  }

  /** The first tier of `s`, in the order of `s`, whose range holds `score`. */
  function Select(s: seq<ScoringRule>, score: real): (r: Option<ScoringRule>)
    ensures r.Some? ==> r.value in s && Covers(r.value, score)
    ensures r.None? <==> forall i :: 0 <= i < |s| ==> !Covers(s[i], score)
    ensures s != [] && Covers(s[0], score) ==> r == Some(s[0])
  {
    if s == [] then None
    else if Covers(s[0], score) then Some(s[0])
    else Select(s[1..], score)
  }

  /** `getRecommendation(score, configs)` as a value: the first covering tier
      of the tiers in ascending `minScore` order, or the fallback. */
  function Resolve(score: real, rules: seq<ScoringRule>): Recommendation
  {
    match Select(SortBy(rules, MinKey), score)
    case Some(r) => Advice(r)
    case None => Fallback(score)
  }

  /** Reference definition, independent of sorting: scanning the tiers in
      their stored order, keep the covering tier with the strictly smallest
      lower bound seen so far. */
  function Best(rules: seq<ScoringRule>, score: real): Option<ScoringRule>
  {
    if rules == [] then None
    else Combine(Best(rules[..|rules| - 1], score), rules[|rules| - 1], score)
  }

  function Combine(best: Option<ScoringRule>, x: ScoringRule, score: real): Option<ScoringRule>
  {
    if Covers(x, score) && (best.None? || x.minScore < best.value.minScore) then Some(x) else best
  }

  /** What `Best` picks: nothing exactly when no tier covers the score;
      otherwise a covering tier with the least lower bound, and among those
      the one stored first. */
  lemma {:induction false} BestSpec(rules: seq<ScoringRule>, score: real)
    ensures Best(rules, score).None? <==> forall i :: 0 <= i < |rules| ==> !Covers(rules[i], score)
    ensures Best(rules, score).Some? ==>
              Covers(Best(rules, score).value, score)
              && (forall i :: 0 <= i < |rules| && Covers(rules[i], score) ==>
                    Best(rules, score).value.minScore <= rules[i].minScore)
              && exists k :: 0 <= k < |rules| && rules[k] == Best(rules, score).value
                   && forall j :: 0 <= j < k && Covers(rules[j], score) ==>
                        rules[j].minScore > rules[k].minScore
  {
    if rules != [] {
      var init := rules[..|rules| - 1];
      var x := rules[|rules| - 1];
      BestSpec(init, score);
      var b := Best(init, score);
      forall i | 0 <= i < |init| ensures init[i] == rules[i] {
      }
      if Covers(x, score) && (b.None? || x.minScore < b.value.minScore) {
        var k := |rules| - 1;
        assert rules[k] == x;
        forall j | 0 <= j < k && Covers(rules[j], score) ensures rules[j].minScore > rules[k].minScore {
          assert init[j] == rules[j];
        }
      } else if b.Some? {
        var k :| 0 <= k < |init| && init[k] == b.value
                 && forall j :: 0 <= j < k && Covers(init[j], score) ==> init[j].minScore > init[k].minScore;
        assert rules[k] == b.value;
      }
    }
  }

  /** Inserting a tier into a sorted table changes the first covering tier the
      way `Combine` does: ties keep the tier already in the table. */
  lemma {:induction false} SelectInsert(x: ScoringRule, s: seq<ScoringRule>, score: real)
    requires SortedBy(s, MinKey)
    ensures Select(Insert(x, s, MinKey), score) == Combine(Select(s, score), x, score)
  {
    if s == [] {
    } else if MinKey(x) < MinKey(s[0]) {
      assert Insert(x, s, MinKey) == [x] + s;
      assert ([x] + s)[1..] == s;
      var c := Select(s, score);
      if c.Some? {
        var i :| 0 <= i < |s| && s[i] == c.value;
        assert MinKey(s[0]) <= MinKey(s[i]);
      }
    } else {
      var t := Insert(x, s[1..], MinKey);
      assert Insert(x, s, MinKey) == [s[0]] + t;
      assert ([s[0]] + t)[1..] == t;
      if !Covers(s[0], score) {
        assert SortedBy(s[1..], MinKey) by {
          forall i, j | 0 <= i < j < |s[1..]| ensures MinKey(s[1..][i]) <= MinKey(s[1..][j]) {
            assert s[1..][i] == s[i + 1] && s[1..][j] == s[j + 1];
          }
        }
        SelectInsert(x, s[1..], score);
      }
    }
  }

  /** The resolver agrees with the reference definition. */
  lemma {:induction false} SelectSortBy(rules: seq<ScoringRule>, score: real)
    ensures Select(SortBy(rules, MinKey), score) == Best(rules, score)
  {
    if rules != [] {
      var init := rules[..|rules| - 1];
      SelectSortBy(init, score);
      SortBySorted(init, MinKey);
      SelectInsert(rules[|rules| - 1], SortBy(init, MinKey), score);
    }
  }

  /** When some tier holds the score, the answer is that of a covering tier
      with the least `minScore`, the first such tier in stored order when
      several share it (the sort is stable). */
  lemma ResolveMatch(score: real, rules: seq<ScoringRule>)
    requires exists i :: 0 <= i < |rules| && Covers(rules[i], score)
    ensures exists k :: 0 <= k < |rules| && Covers(rules[k], score)
              && Resolve(score, rules) == Advice(rules[k])
              && (forall i :: 0 <= i < |rules| && Covers(rules[i], score) ==> rules[k].minScore <= rules[i].minScore)
              && (forall j :: 0 <= j < k && Covers(rules[j], score) ==> rules[j].minScore > rules[k].minScore)
  {
    SelectSortBy(rules, score);
    BestSpec(rules, score);
    var b := Best(rules, score).value;
    var k :| 0 <= k < |rules| && rules[k] == b
             && forall j :: 0 <= j < k && Covers(rules[j], score) ==> rules[j].minScore > rules[k].minScore;
    assert Covers(rules[k], score) && Resolve(score, rules) == Advice(rules[k]);
  }

  /** When no tier holds the score (in particular when there are no tiers),
      a score of at least 50 is a good day for a "Light Walk", anything lower
      a "Rest Day". */
  lemma ResolveFallback(score: real, rules: seq<ScoringRule>)
    requires forall i :: 0 <= i < |rules| ==> !Covers(rules[i], score)
    ensures Resolve(score, rules).isGoodDay <==> score >= 50.0
    ensures Resolve(score, rules).recommendedExerciseType == if score >= 50.0 then "Light Walk" else "Rest Day"
  {
    SelectSortBy(rules, score);
    BestSpec(rules, score);
  }

  /** A score may sit on the shared bound of two tiers: 20 against [0, 20]
      and [20, 40] resolves to the lower tier, whatever order they are
      stored in. */
  lemma SharedBoundGoesToLowerTier(quizId: nat)
    ensures var low := ScoringRule(1, quizId, 0.0, 20.0, false, "Rest", None);
            var high := ScoringRule(2, quizId, 20.0, 40.0, true, "Active Rest", None);
            Resolve(20.0, [low, high]) == Recommendation(false, "Rest")
            && Resolve(20.0, [high, low]) == Recommendation(false, "Rest")
  {
    var low := ScoringRule(1, quizId, 0.0, 20.0, false, "Rest", None);
    var high := ScoringRule(2, quizId, 20.0, 40.0, true, "Active Rest", None);
    SelectSortBy([low, high], 20.0);
    SelectSortBy([high, low], 20.0);
    assert [low, high][..1] == [low];
    assert [high, low][..1] == [high];
    assert [low][..0] == [] && [high][..0] == [];
  }

  /** `getRecommendation`: sorts the caller's array in place (the caller sees
      the reordering) and scans it with an early return. */
  method GetRecommendation(score: real, configs: array<ScoringRule>) returns (rec: Recommendation)
    modifies configs
    ensures configs[..] == SortBy(old(configs[..]), MinKey)
    ensures rec == Resolve(score, old(configs[..]))
  {
    SortInPlace(configs, MinKey);
    var i := 0;
    while i < configs.Length
      invariant 0 <= i <= configs.Length
      invariant configs[..] == SortBy(old(configs[..]), MinKey)
      invariant Select(configs[..], score) == Select(configs[i..], score)
    {
      assert configs[i..] == [configs[i]] + configs[i + 1..];
      if Covers(configs[i], score) {
        return Advice(configs[i]);
      }
      i := i + 1;
    }
    rec := Fallback(score);
  }
}
