/**
 * The scoring engine of the results screen (components/ResultsView.tsx): per-question
 * exact-match correctness, the correct count, the scaled score on 100..1000, the pass
 * mark and the per-domain breakdown.
 */
module Scoring {
  import opened Types

  /** The recorded selection for a question; a missing entry reads as no selection. */
  function AnswersFor(userAnswers: map<string, seq<int>>, id: string): (a: seq<int>)
    ensures id !in userAnswers ==> a == []
    ensures id in userAnswers ==> a == userAnswers[id]
  {
    if id in userAnswers then userAnswers[id] else []
  }

  /**
   * Exact-match test: as many recorded indices as correct ones, and every correct
   * index recorded.
   */
  predicate IsCorrect(q: Question, userAnswers: map<string, seq<int>>) {
    var answers := AnswersFor(userAnswers, q.id);
    |q.correctAnswers| == |answers| &&
    forall k :: 0 <= k < |q.correctAnswers| ==> q.correctAnswers[k] in answers
  }

  /** An unanswered question that has a correct answer is never correct. */
  lemma UnansweredIsIncorrect(q: Question, userAnswers: map<string, seq<int>>)
    requires |q.correctAnswers| > 0
    requires q.id !in userAnswers || userAnswers[q.id] == []
    ensures !IsCorrect(q, userAnswers)
  {
  }

  function SetOf(s: seq<int>): set<int> {
    set x | x in s
  }

  lemma {:induction false} SetOfSize(s: seq<int>)
    ensures |SetOf(s)| <= |s|
    ensures |SetOf(s)| == |s| <==> Distinct(s)
  {
    if s != [] {
      var t := s[1..];
      SetOfSize(t);
      assert SetOf(s) == {s[0]} + SetOf(t);
      if s[0] in t {
        assert SetOf(s) == SetOf(t);
        var j :| 0 <= j < |t| && t[j] == s[0];
        assert s[0] == s[j + 1];
      } else {
        assert |SetOf(s)| == |SetOf(t)| + 1;
        if Distinct(t) {
          forall i, j | 0 <= i < j < |s| ensures s[i] != s[j] {
            if i > 0 {
              assert s[i] == t[i - 1] && s[j] == t[j - 1];
            } else {
              assert s[j] == t[j - 1];
            }
          }
        }
      }
      if Distinct(s) {
        forall i, j | 0 <= i < j < |t| ensures t[i] != t[j] {
          assert t[i] == s[i + 1] && t[j] == s[j + 1];
        }
      }
    }
  }

  /**
   * When the correct indices are duplicate-free, a correct answer records exactly the
   * correct indices, each once.
   */
  lemma CorrectMeansSameSet(q: Question, userAnswers: map<string, seq<int>>)
    requires Distinct(q.correctAnswers)
    requires IsCorrect(q, userAnswers)
    ensures SetOf(AnswersFor(userAnswers, q.id)) == SetOf(q.correctAnswers)
    ensures Distinct(AnswersFor(userAnswers, q.id))
  {
    var a, c := AnswersFor(userAnswers, q.id), q.correctAnswers;
    SetOfSize(a);
    SetOfSize(c);
    assert SetOf(c) <= SetOf(a) by {
      forall x | x in SetOf(c) ensures x in SetOf(a) {
        var k :| 0 <= k < |c| && c[k] == x;
      }
    }
    SubsetOfEqualSize(SetOf(c), SetOf(a));
  }

  lemma SubsetOfEqualSize(small: set<int>, big: set<int>)
    requires small <= big && |big| <= |small|
    ensures small == big
  {
    assert big == small + (big - small);
    assert |big - small| == 0;
  }

  /**
   * For duplicate-free correct indices and a duplicate-free selection, the exact-match
   * test is set equality.
   */
  lemma CorrectIffSameSet(q: Question, userAnswers: map<string, seq<int>>)
    requires Distinct(q.correctAnswers)
    requires Distinct(AnswersFor(userAnswers, q.id))
    ensures IsCorrect(q, userAnswers) <==>
            SetOf(AnswersFor(userAnswers, q.id)) == SetOf(q.correctAnswers)
  {
    var a, c := AnswersFor(userAnswers, q.id), q.correctAnswers;
    if IsCorrect(q, userAnswers) {
      CorrectMeansSameSet(q, userAnswers);
    } else if SetOf(a) == SetOf(c) {
      SetOfSize(a);
      SetOfSize(c);
      forall k | 0 <= k < |c| ensures c[k] in a {
        assert c[k] in SetOf(c);
      }
    }
  }

  /** Number of correctly answered questions, counted front to back. */
  function CorrectCount(qs: seq<Question>, userAnswers: map<string, seq<int>>): (r: nat)
    ensures r <= |qs|
  {
    if qs == [] then 0
    else CorrectCount(qs[..|qs| - 1], userAnswers) + (if IsCorrect(qs[|qs| - 1], userAnswers) then 1 else 0)
  }

  /** JavaScript's `Math.round`: halves round towards positive infinity. */
  function Round(x: real): (r: int)
    ensures x - 0.5 < r as real <= x + 0.5
  {
    (x + 0.5).Floor
  }

  /** `Math.round(100 + (correct / total) * 900)`; the total must be positive. */
  function ScaledScore(correct: nat, total: nat): int
    requires total > 0
  {
    Round(100.0 + (correct as real / total as real) * 900.0)
  }

  lemma FractionBounds(c: nat, n: nat)
    requires 0 < n && c <= n
    ensures 0.0 <= c as real / n as real <= 1.0
  {
    var p := c as real / n as real;
    assert p * n as real == c as real;
  }

  /** The scaled score lies between 100 and 1000. */
  lemma ScaledScoreBounds(correct: nat, total: nat)
    requires 0 < total && correct <= total
    ensures 100 <= ScaledScore(correct, total) <= 1000
  {
    FractionBounds(correct, total);
  }

  /** More correct answers never give a lower scaled score. */
  lemma ScaledScoreMonotone(c1: nat, c2: nat, total: nat)
    requires 0 < total && c1 <= c2
    ensures ScaledScore(c1, total) <= ScaledScore(c2, total)
  {
    var p1, p2 := c1 as real / total as real, c2 as real / total as real;
    assert p1 * total as real == c1 as real;
    assert p2 * total as real == c2 as real;
    assert (p2 - p1) * total as real == (c2 - c1) as real;
    assert p1 <= p2;
  }

  /** For the 50-question sets every correct answer is worth exactly 18 points. */
  lemma ScaledScoreOfFifty(correct: nat)
    ensures ScaledScore(correct, 50) == 100 + 18 * correct
  {
    var p := correct as real / 50.0;
    assert p * 900.0 == (18 * correct) as real;
  }

  lemma ScaledScoreExamples()
    ensures ScaledScore(0, 50) == 100
    ensures ScaledScore(25, 50) == 550
    ensures ScaledScore(50, 50) == 1000
  {
    ScaledScoreOfFifty(0);
    ScaledScoreOfFifty(25);
    ScaledScoreOfFifty(50);
  }

  const PassingScore := 720

  predicate IsPass(scaledScore: int) {
    scaledScore >= PassingScore
  }

  /** On a 50-question set the pass mark of 720 means at least 35 correct answers. */
  lemma PassIffThirtyFiveOfFifty(correct: nat)
    ensures IsPass(ScaledScore(correct, 50)) <==> correct >= 35
  {
    ScaledScoreOfFifty(correct);
  }

  datatype Score = Score(scaledScore: int, correctCount: nat, percentage: real)

  /** `calculateScore`: one pass over the questions counting the correct ones. */
  method CalculateScore(questions: seq<Question>, userAnswers: map<string, seq<int>>)
    returns (score: Score)
    requires |questions| > 0
    ensures score.correctCount == CorrectCount(questions, userAnswers)
    ensures score.correctCount <= |questions|
    ensures score.percentage == score.correctCount as real / |questions| as real
    ensures 0.0 <= score.percentage <= 1.0
    ensures score.scaledScore == ScaledScore(score.correctCount, |questions|)
    ensures 100 <= score.scaledScore <= 1000
  {
    var correctCount := 0;
    for i := 0 to |questions|
      invariant correctCount == CorrectCount(questions[..i], userAnswers)
    {
      assert questions[..i + 1][..i] == questions[..i];
      if IsCorrect(questions[i], userAnswers) {
        correctCount := correctCount + 1;
      }
    }
    assert questions[..|questions|] == questions;
    var percentage := correctCount as real / |questions| as real;
    FractionBounds(correctCount, |questions|);
    ScaledScoreBounds(correctCount, |questions|);
    score := Score(Round(100.0 + percentage * 900.0), correctCount, percentage);
  }

  // Per-domain breakdown

  datatype DomainStat = DomainStat(total: nat, correct: nat)

  /** Number of correctly answered questions of domain `d`. */
  function CorrectIn(qs: seq<Question>, userAnswers: map<string, seq<int>>, d: Domain): (r: nat)
    ensures r <= CountIn(qs, d)
  {
    if qs == [] then 0
    else CorrectIn(qs[..|qs| - 1], userAnswers, d) +
         (if qs[|qs| - 1].domain == d && IsCorrect(qs[|qs| - 1], userAnswers) then 1 else 0)
  }

  /** Every question belongs to exactly one domain: the totals add up to the question count. */
  lemma {:induction false} TotalsSumToQuestionCount(qs: seq<Question>)
    ensures CountIn(qs, Secure) + CountIn(qs, Resilient) + CountIn(qs, HighPerforming) +
            CountIn(qs, CostOptimized) == |qs|
  {
    if qs != [] {
      TotalsSumToQuestionCount(qs[..|qs| - 1]);
    }
  }

  /** The per-domain correct counts add up to the overall correct count. */
  lemma {:induction false} CorrectSumToCorrectCount(qs: seq<Question>, userAnswers: map<string, seq<int>>)
    ensures CorrectIn(qs, userAnswers, Secure) + CorrectIn(qs, userAnswers, Resilient) +
            CorrectIn(qs, userAnswers, HighPerforming) + CorrectIn(qs, userAnswers, CostOptimized) ==
            CorrectCount(qs, userAnswers)
  {
    if qs != [] {
      CorrectSumToCorrectCount(qs[..|qs| - 1], userAnswers);
    }
  }

  /** `getDomainStats`: all four domains start at 0/0, then one pass over the questions. */
  method GetDomainStats(questions: seq<Question>, userAnswers: map<string, seq<int>>)
    returns (stats: map<Domain, DomainStat>)
    ensures forall d :: d in stats
    ensures forall d :: stats[d].total == CountIn(questions, d)
    ensures forall d :: stats[d].correct == CorrectIn(questions, userAnswers, d)
    ensures forall d :: stats[d].correct <= stats[d].total
  {
    stats := map[];
    for t := 0 to |AllDomains|
      invariant forall d :: d in stats <==> Ordinal(d) < t
      invariant forall d :: d in stats ==> stats[d] == DomainStat(0, 0)
    {
      AllDomainsInOrder(AllDomains[t]);
      stats := stats[AllDomains[t] := DomainStat(0, 0)];
    }
    for i := 0 to |questions|
      invariant forall d :: d in stats
      invariant forall d :: stats[d] == DomainStat(CountIn(questions[..i], d), CorrectIn(questions[..i], userAnswers, d))
    {
      assert questions[..i + 1][..i] == questions[..i];
      var q := questions[i];
      stats := stats[q.domain := stats[q.domain].(total := stats[q.domain].total + 1)];
      if IsCorrect(q, userAnswers) {
        stats := stats[q.domain := stats[q.domain].(correct := stats[q.domain].correct + 1)];
      }
    }
    assert questions[..|questions|] == questions;
  }

  /**
   * The accuracy of one domain as a fraction (the radar point's scale) and as a
   * percentage (the breakdown bar); an empty domain reads as 0.
   */
  function DomainFraction(s: DomainStat): (r: real)
    ensures s.total == 0 ==> r == 0.0
    ensures s.total > 0 ==> r * s.total as real == s.correct as real
    ensures s.correct <= s.total ==> 0.0 <= r <= 1.0
  {
    if s.total > 0 then s.correct as real / s.total as real else 0.0
  }

  function DomainPercent(s: DomainStat): (r: real)
    ensures s.correct <= s.total ==> 0.0 <= r <= 100.0
    ensures s.total == 0 ==> r == 0.0
    ensures s.total > 0 ==> r * s.total as real == 100.0 * s.correct as real
  {
    DomainFraction(s) * 100.0
  }
}
