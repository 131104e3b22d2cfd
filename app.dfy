/**
 * The session controller of the main view (App.tsx): which screen is showing, the
 * exam set in play, the cursor, the recorded answers, the marked questions and the
 * time-up flag, with one method per event handler.
 */
module App {
  import opened Types
  import opened Wrappers
  import Scoring
  import QuestionDisplay
  import Timer
  import Questions

  datatype View = Start | Exam | Results | Review

  /** The countdown length the main view hands to the timer. */
  const ExamMinutes := 130

  /** The timer of a fresh exam starts at 130 minutes, shown as "02:10:00". */
  lemma FullTimeDisplay()
    ensures Timer.FormatTime(ExamMinutes * 60) == "02:10:00"
  {
    assert ExamMinutes * 60 == 7800;
    Timer.DisplayOf7800();
  }

  /** Membership of `x` flipped, every other member kept. */
  function Flip(s: set<string>, x: string): (r: set<string>)
    ensures x in r <==> x !in s
    ensures forall y :: y != x ==> (y in r <==> y in s)
  {
    if x in s then s - {x} else s + {x}
  }

  /** Flipping twice restores the original set. */
  lemma FlipTwice(s: set<string>, x: string)
    ensures Flip(Flip(s, x), x) == s
  {
  }

  /** `shown` is `original` under the same id and name, its questions in some order. */
  ghost predicate ShuffleOf(shown: ExamSet, original: ExamSet) {
    && shown.id == original.id
    && shown.name == original.name
    && multiset(shown.questions) == multiset(original.questions)
  }

  class Session {
    /** The practice sets the question bank generated. */
    const examSets: seq<ExamSet>

    var view: View
    var currentSet: Option<ExamSet>
    var currentIndex: int
    var userAnswers: map<string, seq<int>>
    var marked: set<string>
    var isTimeUp: bool

    /** Which of `examSets` the current set was drawn from. */
    ghost var chosen: nat

    ghost predicate Valid()
      reads this
    {
      && |examSets| > 0
      && (forall k :: 0 <= k < |examSets| ==> |examSets[k].questions| > 0)
      && (currentSet.None? ==>
            view == Start && currentIndex == 0 && userAnswers == map[] && marked == {} && !isTimeUp)
      && (currentSet.Some? ==>
            && view != Start
            && chosen < |examSets|
            && ShuffleOf(currentSet.value, examSets[chosen])
            && 0 <= currentIndex < |currentSet.value.questions|
            && userAnswers.Keys <= Ids(currentSet.value.questions)
            && (forall id :: id in userAnswers ==> Distinct(userAnswers[id]))
            && marked <= Ids(currentSet.value.questions))
    }

    /** The questions of the set in play. */
    function InPlay(): seq<Question>
      reads this
      requires currentSet.Some?
    {
      currentSet.value.questions
    }

    /** The question under the cursor. */
    function CurrentQuestion(): Question
      reads this
      requires Valid() && currentSet.Some?
    {
      InPlay()[currentIndex]
    }

    /** The initial state: the start screen, nothing chosen or recorded. */
    constructor (sets: seq<ExamSet>)
      requires |sets| > 0 && forall k :: 0 <= k < |sets| ==> |sets[k].questions| > 0
      ensures Valid()
      ensures examSets == sets && view == Start && currentSet == None
      ensures currentIndex == 0 && userAnswers == map[] && marked == {} && !isTimeUp
    {
      examSets := sets;
      view := Start;
      currentSet := None;
      currentIndex := 0;
      userAnswers := map[];
      marked := {};
      isTimeUp := false;
      chosen := 0;
    }

    /**
     * `startRandomExam`, also the retake handler: some set in range, its questions in some
     * order, and a fresh exam state.
     */
    method StartRandomExam()
      requires Valid() && (view == Start || view == Results)
      modifies this
      ensures Valid()
      ensures chosen < |examSets| && currentSet.Some? && ShuffleOf(currentSet.value, examSets[chosen])
      ensures view == Exam && currentIndex == 0 && userAnswers == map[] && marked == {} && !isTimeUp
    {
      var randomIndex :| 0 <= randomIndex < |examSets|;
      var randomSet := examSets[randomIndex];
      var shuffledQuestions :| multiset(shuffledQuestions) == multiset(randomSet.questions);
      assert |shuffledQuestions| == |multiset(shuffledQuestions)| == |randomSet.questions|;
      currentSet := Some(randomSet.(questions := shuffledQuestions));
      chosen := randomIndex;
      currentIndex := 0;
      userAnswers := map[];
      marked := {};
      view := Exam;
      isTimeUp := false;
    }

    /** `handleFinish`: the results screen; calling it again changes nothing. */
    method HandleFinish()
      requires Valid() && currentSet.Some? && view != Review
      modifies this`view
      ensures Valid() && view == Results
    {
      view := Results;
    }

    /** The timer's time-up callback: the flag, then the results screen. */
    method OnTimeUp()
      requires Valid() && currentSet.Some? && view != Review
      modifies this`isTimeUp, this`view
      ensures Valid() && isTimeUp && view == Results
    {
      isTimeUp := true;
      HandleFinish();
    }

    /** `onAnswer(opts)`: replaces the entry of the current question, and only that entry. */
    method OnAnswer(opts: seq<int>)
      requires Valid() && currentSet.Some? && Distinct(opts)
      modifies this`userAnswers
      ensures Valid()
      ensures userAnswers == old(userAnswers)[CurrentQuestion().id := opts]
    {
      var id := currentSet.value.questions[currentIndex].id;
      userAnswers := userAnswers[id := opts];
    }

    /** A click on option `idx`: the selection rule, then `onAnswer` if it emitted anything. */
    method ClickOption(idx: int)
      requires Valid() && (view == Exam || view == Review)
      modifies this`userAnswers
      ensures Valid()
      ensures view == Review ==> userAnswers == old(userAnswers)
      ensures view == Exam ==>
                var q := CurrentQuestion();
                userAnswers == old(userAnswers)[q.id :=
                  QuestionDisplay.ToggleOption(q, Scoring.AnswersFor(old(userAnswers), q.id), idx, false).value]
    {
      var q := currentSet.value.questions[currentIndex];
      var emitted := QuestionDisplay.ToggleOption(q, Scoring.AnswersFor(userAnswers, q.id), idx, view == Review);
      if emitted.Some? {
        if q.kind == Multiple {
          QuestionDisplay.ToggleKeepsDistinct(q, Scoring.AnswersFor(userAnswers, q.id), idx);
        }
        OnAnswer(emitted.value);
      }
    }

    /** `onToggleMark`: flips the membership of the current question only. */
    method OnToggleMark()
      requires Valid() && currentSet.Some? && (view == Exam || view == Review)
      modifies this`marked
      ensures Valid()
      ensures marked == Flip(old(marked), CurrentQuestion().id)
    {
      var id := currentSet.value.questions[currentIndex].id;
      if id in marked {
        marked := marked - {id};
      } else {
        marked := marked + {id};
      }
    }

    /** The Previous button, disabled on the first question. */
    method Previous()
      requires Valid() && (view == Exam || view == Review)
      modifies this`currentIndex
      ensures Valid()
      ensures currentIndex == if old(currentIndex) == 0 then 0 else old(currentIndex) - 1
    {
      if currentIndex != 0 {
        currentIndex := currentIndex - 1;
      }
    }

    /** The Next button, disabled on the last question. */
    method Next()
      requires Valid() && (view == Exam || view == Review)
      modifies this`currentIndex
      ensures Valid()
      ensures currentIndex == if old(currentIndex) == |InPlay()| - 1 then old(currentIndex)
                              else old(currentIndex) + 1
    {
      if currentIndex != |currentSet.value.questions| - 1 {
        currentIndex := currentIndex + 1;
      }
    }

    /** A click on grid cell `idx`, which the grid only offers for positions of the list. */
    method OnNavigate(idx: int)
      requires Valid() && currentSet.Some? && 0 <= idx < |InPlay()|
      modifies this`currentIndex
      ensures Valid() && currentIndex == idx
    {
      currentIndex := idx;
    }

    /** The review button of the results screen: review from the first question. */
    method EnterReview()
      requires Valid() && view == Results
      modifies this`view, this`currentIndex
      ensures Valid() && view == Review && currentIndex == 0
    {
      view := Review;
      currentIndex := 0;
    }

    /** Exit Review: back to the results screen. */
    method ExitReview()
      requires Valid() && view == Review
      modifies this`view
      ensures Valid() && view == Results
    {
      view := Results;
    }

    /**
     * The recorded selections stay duplicate-free, so a question with duplicate-free
     * correct indices scores as correct exactly when its selection has the same set.
     */
    lemma ScoredBySet(k: int)
      requires Valid() && currentSet.Some? && 0 <= k < |InPlay()|
      requires Distinct(InPlay()[k].correctAnswers)
      ensures var q := InPlay()[k];
              Scoring.IsCorrect(q, userAnswers) <==>
              Scoring.SetOf(Scoring.AnswersFor(userAnswers, q.id)) == Scoring.SetOf(q.correctAnswers)
    {
      Scoring.CorrectIffSameSet(InPlay()[k], userAnswers);
    }

    /** What the results screen shows: the score and breakdown of the set in play. */
    method ShowResults() returns (score: Scoring.Score, stats: map<Domain, Scoring.DomainStat>)
      requires Valid() && view == Results
      ensures score.correctCount == Scoring.CorrectCount(InPlay(), userAnswers)
      ensures score.scaledScore == Scoring.ScaledScore(score.correctCount, |InPlay()|)
      ensures 100 <= score.scaledScore <= 1000
      ensures forall d :: d in stats && stats[d].total == CountIn(InPlay(), d)
      ensures forall d :: stats[d].correct == Scoring.CorrectIn(InPlay(), userAnswers, d)
    {
      score := Scoring.CalculateScore(currentSet.value.questions, userAnswers);
      stats := Scoring.GetDomainStats(currentSet.value.questions, userAnswers);
    }
  }

  /** The main view over the bank's generated sets, with an exam started. */
  method StartOnGeneratedSets() returns (s: Session)
    ensures fresh(s) && |s.examSets| == 5
    ensures forall k :: 0 <= k < 5 ==> Questions.FiftySplit(s.examSets[k].questions)
    ensures s.Valid() && s.view == Exam && s.currentSet.Some?
  {
    var sets := Questions.GenerateSets();
    assert forall k :: 0 <= k < 5 ==> Questions.FiftySplit(sets[k].questions) by {
      forall k | 0 <= k < 5 ensures Questions.FiftySplit(sets[k].questions) {
        assert Questions.GeneratedSet(sets[k], Questions.SetLetters[k]);
      }
    }
    s := new Session(sets);
    s.StartRandomExam();
  }

  /** A candidate's turn: answer, mark and unmark, move about, and finish twice. */
  method Play(s: Session)
    requires s.Valid() && s.view == Exam && s.currentSet.Some?
    modifies s
    ensures s.Valid() && s.view == Results && s.currentSet.Some?
    ensures s.chosen == old(s.chosen) && s.currentSet == old(s.currentSet)
  {
    s.ClickOption(0);
    s.OnToggleMark();
    s.OnToggleMark();
    s.Next();
    s.Previous();
    s.OnNavigate(|s.InPlay()| - 1);
    s.HandleFinish();
    s.HandleFinish();
  }

  /**
   * A whole session over the bank's sets: start, play, read the results, review, and
   * retake. The results screen shows a 50-question set split 15/13/12/10 over the
   * domains, scored 100 + 18 per correct answer.
   */
  method Walkthrough() returns (s: Session, score: Scoring.Score, stats: map<Domain, Scoring.DomainStat>)
    ensures |s.examSets| == 5
    ensures 0 <= score.correctCount <= 50 && score.scaledScore == 100 + 18 * score.correctCount
    ensures forall d :: d in stats
    ensures stats[Secure].total == 15 && stats[Resilient].total == 13
    ensures stats[HighPerforming].total == 12 && stats[CostOptimized].total == 10
    ensures s.Valid() && s.view == Exam && s.currentIndex == 0 && s.userAnswers == map[] && s.marked == {}
  {
    s := StartOnGeneratedSets();
    Play(s);
    Questions.ReorderedSplit(s.examSets[s.chosen].questions, s.InPlay());
    score, stats := s.ShowResults();
    Scoring.ScaledScoreOfFifty(score.correctCount);
    s.EnterReview();
    s.ExitReview();
    s.StartRandomExam();
  }
}
