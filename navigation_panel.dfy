/**
 * The question grid beside the exam screen (components/NavigationPanel.tsx): one cell
 * per question, numbered from 1, painted by priority and navigating to its own position.
 */
module NavigationPanel {
  import opened Types

  /** A question counts as answered when it has a non-empty recorded selection. */
  predicate IsAnswered(userAnswers: map<string, seq<int>>, id: string) {
    id in userAnswers && |userAnswers[id]| > 0
  }

  /** Clearing every option takes a question back to unanswered. */
  lemma ClearedIsUnanswered(userAnswers: map<string, seq<int>>, id: string)
    ensures !IsAnswered(userAnswers[id := []], id)
  {
  }

  datatype CellStatus = Current | Marked | Answered | Unanswered

  /** The status of the cell at `idx`, by priority current > marked > answered > unanswered. */
  function StatusOf(q: Question, idx: int, currentIndex: int, userAnswers: map<string, seq<int>>,
                    marked: set<string>): (r: CellStatus)
    ensures r == Current <==> idx == currentIndex
    ensures r == Marked <==> idx != currentIndex && q.id in marked
    ensures r == Answered <==> idx != currentIndex && q.id !in marked && IsAnswered(userAnswers, q.id)
    ensures r == Unanswered <==> idx != currentIndex && q.id !in marked && !IsAnswered(userAnswers, q.id)
  {
    var isAnswered := IsAnswered(userAnswers, q.id);
    var isMarked := q.id in marked;
    var isCurrent := currentIndex == idx;
    if isCurrent then Current
    else if isMarked then Marked
    else if isAnswered then Answered
    else Unanswered
  }

  /** A grid cell: its number, its status and the index a click navigates to. */
  datatype Cell = Cell(number: int, status: CellStatus, target: int)

  function Grid(questions: seq<Question>, currentIndex: int, userAnswers: map<string, seq<int>>,
                marked: set<string>): (cells: seq<Cell>)
    ensures |cells| == |questions|
    ensures forall k :: 0 <= k < |cells| ==>
              && cells[k].number == k + 1
              && cells[k].target == k
              && cells[k].status == StatusOf(questions[k], k, currentIndex, userAnswers, marked)
  {
    seq(|questions|, k requires 0 <= k < |questions| =>
      Cell(k + 1, StatusOf(questions[k], k, currentIndex, userAnswers, marked), k))
  }

  /** Every cell navigates to a position of the question list. */
  lemma TargetsInRange(questions: seq<Question>, currentIndex: int, userAnswers: map<string, seq<int>>,
                       marked: set<string>, k: int)
    requires 0 <= k < |questions|
    ensures 0 <= Grid(questions, currentIndex, userAnswers, marked)[k].target < |questions|
  {
  }

  function CountCurrent(cells: seq<Cell>): nat {
    if cells == [] then 0
    else CountCurrent(cells[..|cells| - 1]) + (if cells[|cells| - 1].status == Current then 1 else 0)
  }

  lemma {:induction false} CountCurrentOfCells(cells: seq<Cell>, c: int)
    requires forall k :: 0 <= k < |cells| ==> (cells[k].status == Current <==> k == c)
    ensures CountCurrent(cells) == if 0 <= c < |cells| then 1 else 0
  {
    if cells != [] {
      var init := cells[..|cells| - 1];
      assert forall k :: 0 <= k < |init| ==> init[k] == cells[k];
      CountCurrentOfCells(init, c);
    }
  }

  /** Exactly one cell is current when the cursor is in range, and none otherwise. */
  lemma ExactlyOneCurrent(questions: seq<Question>, currentIndex: int, userAnswers: map<string, seq<int>>,
                          marked: set<string>)
    ensures CountCurrent(Grid(questions, currentIndex, userAnswers, marked)) ==
            if 0 <= currentIndex < |questions| then 1 else 0
  {
    CountCurrentOfCells(Grid(questions, currentIndex, userAnswers, marked), currentIndex);
  }
}
