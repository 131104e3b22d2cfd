/**
 * The answer-selection rule and the option highlighting of the question screen
 * (components/QuestionDisplay.tsx).
 */
module QuestionDisplay {
  import opened Types
  import opened Wrappers
  import Scoring

  /** `selected.filter(a => a !== x)`: every occurrence of `x` dropped, the rest in order. */
  function RemoveAll(s: seq<int>, x: int): (r: seq<int>)
    ensures multiset(r) == multiset(s)[x := 0]
    ensures forall y :: y in r <==> y in s && y != x
  {
    if s == [] then []
    else
      var rest := RemoveAll(s[..|s| - 1], x);
      assert s == s[..|s| - 1] + [s[|s| - 1]];
      if s[|s| - 1] == x then rest else rest + [s[|s| - 1]]
  }

  /** Filtering a single entry keeps it exactly when it is not `x`. */
  lemma RemoveAllSingle(y: int, x: int)
    ensures RemoveAll([y], x) == if y == x then [] else [y]
  {
    assert [y][..0] == [];
  }

  /** Filtering distributes over concatenation, so the kept entries stay in their order. */
  lemma {:induction false} RemoveAllConcat(a: seq<int>, b: seq<int>, x: int)
    ensures RemoveAll(a + b, x) == RemoveAll(a, x) + RemoveAll(b, x)
  {
    if b == [] {
      assert a + b == a;
    } else {
      var init := b[..|b| - 1];
      assert (a + b)[..|a + b| - 1] == a + init;
      assert (a + b)[|a + b| - 1] == b[|b| - 1];
      RemoveAllConcat(a, init, x);
    }
  }

  /**
   * `toggleOption(idx)`: what the question screen hands to `onAnswer`, or `None` when it
   * emits nothing (the review screen).
   */
  function ToggleOption(q: Question, selected: seq<int>, idx: int, showExplanation: bool): (r: Option<seq<int>>)
    ensures r.None? <==> showExplanation
    ensures r.Some? && q.kind == Single ==> r.value == [idx]
    ensures r.Some? && q.kind == Multiple && idx in selected ==>
              idx !in r.value && multiset(r.value) == multiset(selected)[idx := 0] &&
              r.value == RemoveAll(selected, idx)
    ensures r.Some? && q.kind == Multiple && idx !in selected ==> r.value == selected + [idx]
  {
    if showExplanation then None
    else if q.kind == Single then Some([idx])
    else if idx in selected then Some(RemoveAll(selected, idx))
    else Some(selected + [idx])
  }

  /** On a multiple-answer question the toggle keeps the selection duplicate-free. */
  lemma ToggleKeepsDistinct(q: Question, selected: seq<int>, idx: int)
    requires q.kind == Multiple && Distinct(selected)
    ensures Distinct(ToggleOption(q, selected, idx, false).value)
  {
    var r := ToggleOption(q, selected, idx, false).value;
    if idx in selected {
      forall i, j | 0 <= i < j < |r| ensures r[i] != r[j] {
        if r[i] == r[j] {
          assert r == r[..j] + r[j..];
          assert multiset(r)[r[i]] >= 2 by {
            assert r[i] in multiset(r[..j]) && r[j] in multiset(r[j..]);
          }
          DistinctOccursOnce(selected, r[i]);
        }
      }
    }
  }

  lemma {:induction false} DistinctOccursOnce(s: seq<int>, x: int)
    requires Distinct(s)
    ensures multiset(s)[x] <= 1
  {
    if s != [] {
      var n := |s|;
      var init := s[..n - 1];
      assert s == init + [s[n - 1]];
      assert Distinct(init);
      DistinctOccursOnce(init, x);
      if s[n - 1] == x {
        forall k | 0 <= k < |init| ensures init[k] != x {
          assert s[k] != s[n - 1];
        }
      }
    }
  }

  /**
   * Toggling the same option twice on a multiple-answer question restores the set of
   * selected options; when the option was not selected, the very same list comes back.
   */
  lemma ToggleTwice(q: Question, selected: seq<int>, idx: int)
    requires q.kind == Multiple
    ensures var once := ToggleOption(q, selected, idx, false).value;
            var twice := ToggleOption(q, once, idx, false).value;
            && Scoring.SetOf(twice) == Scoring.SetOf(selected)
            && (idx !in selected ==> twice == selected)
  {
    var once := ToggleOption(q, selected, idx, false).value;
    if idx !in selected {
      assert once == selected + [idx];
      assert multiset(RemoveAll(once, idx)) == multiset(selected);
      RemoveAllAbsent(selected, idx);
      assert once[..|once| - 1] == selected;
    }
  }

  lemma {:induction false} RemoveAllAbsent(s: seq<int>, x: int)
    requires x !in s
    ensures RemoveAll(s + [x], x) == s
    ensures RemoveAll(s, x) == s
  {
    if s != [] {
      assert (s + [x])[..|s + [x]| - 1] == s;
      RemoveAllAbsent(s[..|s| - 1], x);
      assert s == s[..|s| - 1] + [s[|s| - 1]];
    }
  }

  /** How an option button is drawn. */
  datatype OptionStyle = Plain | Chosen | ShownCorrect | ShownWrong

  /**
   * The review screen marks correct options green whatever the selection and selected
   * incorrect ones red; the exam screen highlights exactly the selected options.
   */
  function StyleOf(q: Question, selected: seq<int>, idx: int, showExplanation: bool): (r: OptionStyle)
    ensures showExplanation ==> (r == ShownCorrect <==> idx in q.correctAnswers)
    ensures showExplanation ==> (r == ShownWrong <==> idx !in q.correctAnswers && idx in selected)
    ensures showExplanation ==> (r == Plain <==> idx !in q.correctAnswers && idx !in selected)
    ensures !showExplanation ==> (r == Chosen <==> idx in selected)
    ensures !showExplanation ==> (r == Plain <==> idx !in selected)
  {
    var isSelected := idx in selected;
    var isCorrect := idx in q.correctAnswers;
    if showExplanation then
      if isCorrect then ShownCorrect else if isSelected then ShownWrong else Plain
    else if isSelected then Chosen else Plain
  }

  /**
   * Reviewing a question that was scored correct shows no option as wrong (for
   * duplicate-free correct indices).
   */
  lemma CorrectQuestionShowsNoWrongOption(q: Question, userAnswers: map<string, seq<int>>, idx: int)
    requires Distinct(q.correctAnswers)
    requires Scoring.IsCorrect(q, userAnswers)
    ensures StyleOf(q, Scoring.AnswersFor(userAnswers, q.id), idx, true) != ShownWrong
  {
    Scoring.CorrectMeansSameSet(q, userAnswers);
    var a := Scoring.AnswersFor(userAnswers, q.id);
    if idx in a {
      assert idx in Scoring.SetOf(a);
      assert idx in Scoring.SetOf(q.correctAnswers);
    }
  }
}
