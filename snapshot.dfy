/** The ordered view of a quiz (`getQuizWithQuestions`): a copy whose
    questions are sorted by `order`, each with its options sorted by
    `order`. Being a function, it cannot change the stored quiz. */
module QuizView {
  import opened Types
  import opened Sorting

  function QuestionOrder(q: Question): real
  {
    q.order as real
  }

  function ChoiceOrder(c: Choice): real
  {
    c.order as real
  }

  function WithSortedOptions(q: Question): Question
  {
    q.(options := SortBy(q.options, ChoiceOrder))
  }

  /** Sorts the options of every question, keeping the questions in place. */
  function SortAllOptions(qs: seq<Question>): (r: seq<Question>)
    ensures |r| == |qs|
    ensures forall i :: 0 <= i < |qs| ==> r[i] == WithSortedOptions(qs[i])
  {
    seq(|qs|, i requires 0 <= i < |qs| => WithSortedOptions(qs[i]))
  }

  /** The questions sorted by `order` (a stable sort), then each question's
      options sorted by `order`; every other field is copied. */
  function Snapshot(quiz: Quiz): (r: Quiz)
    ensures r.(questions := quiz.questions) == quiz
    ensures |r.questions| == |quiz.questions|
  {
    quiz.(questions := SortAllOptions(SortBy(quiz.questions, QuestionOrder)))
  }

  lemma SortAllOptionsCons(a: Question, s: seq<Question>)
    ensures SortAllOptions([a] + s) == [WithSortedOptions(a)] + SortAllOptions(s)
  {
  }

  lemma {:induction false} SortAllOptionsInsert(x: Question, s: seq<Question>)
    ensures SortAllOptions(Insert(x, s, QuestionOrder))
         == Insert(WithSortedOptions(x), SortAllOptions(s), QuestionOrder)
  {
    var m := SortAllOptions(s);
    var wx := WithSortedOptions(x);
    assert QuestionOrder(wx) == QuestionOrder(x);
    if s == [] || QuestionOrder(x) < QuestionOrder(s[0]) {
      SortAllOptionsCons(x, s);
    } else {
      var t := Insert(x, s[1..], QuestionOrder);
      assert Insert(x, s, QuestionOrder) == [s[0]] + t;
      SortAllOptionsInsert(x, s[1..]);
      SortAllOptionsCons(s[0], t);
      assert m == [WithSortedOptions(s[0])] + SortAllOptions(s[1..]) by {
        assert s == [s[0]] + s[1..];
        SortAllOptionsCons(s[0], s[1..]);
      }
      assert QuestionOrder(m[0]) == QuestionOrder(s[0]);
      assert Insert(wx, m, QuestionOrder) == [m[0]] + Insert(wx, m[1..], QuestionOrder);
    }
  }

  /** Sorting the options first or last gives the same questions, because a
      question's own `order` does not depend on its options. */
  lemma {:induction false} SortAllOptionsSortBy(qs: seq<Question>)
    ensures SortAllOptions(SortBy(qs, QuestionOrder)) == SortBy(SortAllOptions(qs), QuestionOrder)
  {
    if qs != [] {
      var init := qs[..|qs| - 1];
      SortAllOptionsSortBy(init);
      SortAllOptionsInsert(qs[|qs| - 1], SortBy(init, QuestionOrder));
      var m := SortAllOptions(qs);
      assert m[..|m| - 1] == SortAllOptions(init);
    }
  }

  /** The snapshot's questions are in ascending `order`, and so are the
      options of each of its questions. */
  lemma SnapshotSorted(quiz: Quiz)
    ensures SortedBy(Snapshot(quiz).questions, QuestionOrder)
    ensures forall i :: 0 <= i < |Snapshot(quiz).questions| ==>
              SortedBy(Snapshot(quiz).questions[i].options, ChoiceOrder)
  {
    SortAllOptionsSortBy(quiz.questions);
    SortBySorted(SortAllOptions(quiz.questions), QuestionOrder);
    var qs := Snapshot(quiz).questions;
    forall i | 0 <= i < |qs| ensures SortedBy(qs[i].options, ChoiceOrder) {
      var q := SortBy(quiz.questions, QuestionOrder)[i];
      assert qs[i] == WithSortedOptions(q);
      SortBySorted(q.options, ChoiceOrder);
    }
  }

  /** The snapshot holds exactly the stored questions (with their options
      reordered), each as often as it is stored. */
  lemma SnapshotPermutes(quiz: Quiz)
    ensures multiset(Snapshot(quiz).questions) == multiset(SortAllOptions(quiz.questions))
  {
    SortAllOptionsSortBy(quiz.questions);
    SortByPermutes(SortAllOptions(quiz.questions), QuestionOrder);
  }

  /** Each question keeps the options it had, only reordered. */
  lemma WithSortedOptionsPermutes(q: Question)
    ensures WithSortedOptions(q).(options := q.options) == q
    ensures multiset(WithSortedOptions(q).options) == multiset(q.options)
  {
    SortByPermutes(q.options, ChoiceOrder);
  }

  /** Questions sharing an `order` keep their stored relative order. */
  lemma SnapshotStable(quiz: Quiz, k: real)
    ensures WithKey(Snapshot(quiz).questions, QuestionOrder, k)
         == WithKey(SortAllOptions(quiz.questions), QuestionOrder, k)
  {
    SortAllOptionsSortBy(quiz.questions);
    SortByStable(SortAllOptions(quiz.questions), QuestionOrder, k);
  }
}
