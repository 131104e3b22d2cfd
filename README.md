# Exam simulator core, modelled in Dafny

This project models the decision logic of a single-page exam simulator for the AWS
SAA-C03 certification. A session picks one of five generated 50-question practice
sets and shuffles it. It then records the candidate's selections and marks under a
130-minute countdown. At the end it scores the set exactly: a question is correct
only if the whole selection matches. The score is scaled to 100..1000, the pass mark
is 720, and the results show a breakdown over the four exam domains.

One Dafny module per source file:

| module | file | source |
|---|---|---|
| `Types` | types.dfy | types.ts: domains, question kinds, questions, sets; domain counts and distinct-id facts |
| `Decimal` | decimal.dfy | decimal rendering of counters, used by the id template and the clock display |
| `Questions` | questions.dfy | data/questions.ts: `createQuestion`, the pools, `addBatch`, the Fisher-Yates loop, `generateSets` |
| `Scoring` | results_view.dfy | components/ResultsView.tsx: `calculateScore`, `getDomainStats`, `isPass`, domain percentage |
| `QuestionDisplay` | question_display.dfy | components/QuestionDisplay.tsx: `toggleOption`, option styling |
| `NavigationPanel` | navigation_panel.dfy | components/NavigationPanel.tsx: cell status and targets |
| `Timer` | timer.dfy | components/Timer.tsx: countdown, time-up, `formatTime`, `isLow` |
| `App` | app.dfy | App.tsx: the session controller as a class with one method per handler |
| `Wrappers` | wrappers.dfy | `Option`, for "the handler emitted nothing" |

Form follows the source. The session controller and the countdown are classes whose
methods update fields, with `modifies` frames. Each handler may only touch its own
field (for example, `modifies this`userAnswers`). Every handler keeps the invariant
`Valid()`: the cursor is in range, and answers and marks only name questions of the
set in play. `calculateScore`, `getDomainStats`, `addBatch` and the shuffle are
methods with loops. Each loop is proved against a specification function, and the
properties are proved about those functions. Selection, styling and grid status are
functions.

Randomness is a nondeterministic choice (`:|`). The set index is any index in range.
The comparator sort in `startRandomExam` gives any reordering with the same multiset.
The Fisher-Yates partner is any `j` in `[0, i]`. Nothing here depends on the
distribution.

Where the code differs from the obvious reading, the model follows the code:
- `isCorrect` checks that every *correct* index is in the selection and that the
  lengths match. A test over the selected indices instead (same length, every
  selected index correct) agrees with it on duplicate-free selections (`Scoring.CorrectIffSameSet`). These are all
  the toggle rule can produce (`QuestionDisplay.ToggleKeepsDistinct`). The session
  invariant keeps every recorded selection duplicate-free (`App.Session.ScoredBySet`).
- Navigation is not clamped. The grid only offers indices `0..n-1`, and
  Previous/Next are disabled at the ends. So `OnNavigate` requires an in-range index,
  and `Previous`/`Next` are no-ops at the boundaries.
- There is no guard against an empty question list in the percentage, so
  `CalculateScore` requires at least one question.
- The timer and the END EXAM button are rendered on the results screen as well as
  the exam screen (everything except review). Finishing from the results screen
  therefore only sets the results view again, and `HandleFinish` is idempotent.

## Model

| member | source | states |
|---|---|---|
| `Types.AllDomainsInOrder` | types.ts:2-7 | there are exactly four domains, and `AllDomains` lists each one at its declaration position |
| `Types.DomainName` | types.ts:2-7 | each domain's string has the digit `'1'+ordinal` at position 7 |
| `Types.DomainDigitInjective` | types.ts:3-6 | position 7 of the domain string tells the four domains apart |
| `Types.CountIn` | components/ResultsView.tsx:32 | the per-domain question count is at most the list length |
| `Types.CountInConcat` | components/ResultsView.tsx:31-32 | domain counts add up over concatenation |
| `Types.CountInUniform` | data/questions.ts:146-149 | a single-domain list counts fully under its domain and zero elsewhere |
| `Types.CountInPermutation` | data/questions.ts:152-155 | domain counts depend only on the multiset of questions |
| `Types.DistinctIdsConcat` | data/questions.ts:138-143 | two lists with distinct ids and no shared id concatenate to a list with distinct ids |
| `Types.DistinctIdsPermutation` | data/questions.ts:152-155 | distinct ids survive any reordering with the same multiset |
| `Decimal.NatToString` | data/questions.ts:140 | the decimal rendering of a counter is a non-empty digit string, with one digit exactly below 10 |
| `Decimal.ParseNatToString` | data/questions.ts:140 | reading the decimal rendering back gives the number |
| `Decimal.NatToStringInjective` | data/questions.ts:140 | distinct counters render as distinct strings |
| `Questions.CreateQuestion` | data/questions.ts:5-13 | the kind is MULTIPLE iff there is more than one correct index; all other fields are copied |
| `Questions.PoolSecure` | data/questions.ts:19-58 | the three Secure templates D1-01, D1-02 (4 options, answer [0]) and D1-03 (5 options, answers [0, 2]), texts left empty |
| `Questions.PoolResilient` | data/questions.ts:60-85 | the two Resilient templates D2-01, D2-02 (4 options, answer [0]) |
| `Questions.PoolPerforming` | data/questions.ts:87-100 | the one HighPerforming template D3-01 (4 options, answer [0]) |
| `Questions.PoolCost` | data/questions.ts:102-115 | the one CostOptimized template D4-01 (4 options, answer [0]) |
| `Questions.PoolsWellFormed` | data/questions.ts:19-115 | every pool is non-empty and single-domain, and its questions are well formed (non-empty, in-range, duplicate-free correct indices; kind consistent with their number) |
| `Questions.BatchId` | data/questions.ts:140 | `SET-<letter>-<digit>-<i>` carries the letter at position 4 and the domain digit at position 6 |
| `Questions.BatchIdInjective` | data/questions.ts:140 | equal generated ids have the same letter, domain and counter |
| `Questions.Spread` | data/questions.ts:138-142 | the copy of a template pushed at position `i`: the spread template with the generated id and the `[Set L] ` scenario prefix |
| `Questions.Batch` | data/questions.ts:135-143 | a batch has exactly `count` questions |
| `Questions.BatchAt` | data/questions.ts:136-142 | item `i` is template `i mod |pool|` with the new id and the `[Set L] ` scenario prefix, every other field unchanged |
| `Questions.AddBatch` | data/questions.ts:135-144 | the loop appends exactly the batch to the list built so far |
| `Questions.Unshuffled` | data/questions.ts:146-149 | the set before shuffling: the Secure, Resilient, HighPerforming and CostOptimized batches of 15, 13, 12 and 10, in that order |
| `Questions.BatchFacts` | data/questions.ts:135-149 | a batch from a single-domain pool has well-formed questions of that domain, distinct ids, and `count` questions counted under that domain |
| `Questions.JoinTagged` | data/questions.ts:146-149 | batches of different domains never share an id |
| `Questions.JoinFour` | data/questions.ts:146-149 | four batches tagged with the four consecutive domain digits join into one list with distinct, tagged, well-formed questions whose domain counts add up |
| `Questions.UnshuffledFacts` | data/questions.ts:146-149 | before shuffling a set has 50 well-formed questions (Secure 15, Resilient 13, HighPerforming 12, CostOptimized 10) with distinct ids that carry the set's letter |
| `Questions.Shuffle` | data/questions.ts:152-155 | the swap loop with `j` in `[0, i]` leaves the same multiset |
| `Questions.ShuffledFacts` | data/questions.ts:151-161 | any reordering of the unshuffled set keeps its size, domain counts, distinct ids and well-formedness |
| `Questions.FiftySplit` | data/questions.ts:129-133 | 50 questions, 15/13/12/10 over the domains in declaration order |
| `Questions.ReorderedSplit` | data/questions.ts:151-155 | any reordering of a set with that split keeps it (App.tsx:26 reorders again) |
| `Questions.GenerateSet` | data/questions.ts:126-161 | one loop turn yields a set with the letter's id and name whose questions are a permutation of the unshuffled batches |
| `Questions.GenerateSets` | data/questions.ts:122-164 | exactly five sets are produced, in letter order A..E, each satisfying `GeneratedSet` |
| `Questions.GeneratedIdsUnique` | data/questions.ts:124-140 | generated ids are unique within a set and across sets |
| `Questions.ToLower` | data/questions.ts:158 | `toLowerCase` on ASCII only: each upper-case ASCII letter maps to the letter at the same place of the lower-case alphabet, and every other character is returned unchanged |
| `Questions.SetId` | data/questions.ts:158 | `set-` followed by the lower-cased letter |
| `Questions.SetName` | data/questions.ts:159 | `Practice Exam Set ` followed by the letter |
| `Questions.SetNames` | data/questions.ts:157-161 | the ids are `set-a`..`set-e` and the names `Practice Exam Set A`..`E` |
| `Scoring.AnswersFor` | components/ResultsView.tsx:16 | a missing entry reads as the empty selection |
| `Scoring.IsCorrect` | components/ResultsView.tsx:16-18 | exact match: as many recorded indices as correct ones, and every correct index recorded (the same test at 33-35); its meaning is stated by `UnansweredIsIncorrect`, `CorrectMeansSameSet` and `CorrectIffSameSet` |
| `Scoring.UnansweredIsIncorrect` | components/ResultsView.tsx:16-18 | an unanswered question with a non-empty correct list is never correct |
| `Scoring.SetOfSize` | components/ResultsView.tsx:17-18 | a list has at most as many distinct values as entries, with equality iff it is duplicate-free |
| `Scoring.CorrectMeansSameSet` | components/ResultsView.tsx:17-18 | with duplicate-free correct indices, a correct selection is duplicate-free and has exactly the correct indices as its set |
| `Scoring.CorrectIffSameSet` | components/ResultsView.tsx:17-18 | for duplicate-free lists the exact-match test is set equality, in both directions |
| `Scoring.CorrectCount` | components/ResultsView.tsx:14-19 | the correct count is at most the number of questions |
| `Scoring.Round` | components/ResultsView.tsx:23 | `Math.round` returns the integer within half of the argument, rounding halves up |
| `Scoring.ScaledScore` | components/ResultsView.tsx:22-23 | `Math.round(100 + c/n * 900)`; its bounds, monotonicity and 50-question form are the lemmas below |
| `Scoring.ScaledScoreBounds` | components/ResultsView.tsx:22-23 | the scaled score lies in [100, 1000] |
| `Scoring.ScaledScoreMonotone` | components/ResultsView.tsx:22-23 | for a fixed question count the scaled score never decreases as more answers are correct |
| `Scoring.ScaledScoreOfFifty` | components/ResultsView.tsx:22-23 | on 50 questions the scaled score is exactly 100 + 18 per correct answer |
| `Scoring.ScaledScoreExamples` | components/ResultsView.tsx:22-23 | on 50 questions: 0 correct gives 100, 25 gives 550, 50 gives 1000 |
| `Scoring.IsPass` | components/ResultsView.tsx:43 | a scaled score of at least 720 passes; `PassIffThirtyFiveOfFifty` restates it in correct answers |
| `Scoring.PassIffThirtyFiveOfFifty` | components/ResultsView.tsx:43 | with the 720 pass mark, a 50-question set is passed iff at least 35 answers are correct |
| `Scoring.CalculateScore` | components/ResultsView.tsx:13-25 | the loop's count equals `CorrectCount`; the percentage is count/n in [0, 1]; the scaled score is `round(100 + 900*c/n)` in [100, 1000] |
| `Scoring.CorrectIn` | components/ResultsView.tsx:33-36 | a domain's correct count is at most its total |
| `Scoring.TotalsSumToQuestionCount` | components/ResultsView.tsx:31-32 | the four domain totals add up to the number of questions |
| `Scoring.CorrectSumToCorrectCount` | components/ResultsView.tsx:31-37 | the four domain correct counts add up to the overall correct count |
| `Scoring.GetDomainStats` | components/ResultsView.tsx:27-40 | every domain has an entry (all start at 0/0); its total and correct count equal `CountIn` and `CorrectIn`, and correct is at most total |
| `Scoring.DomainFraction` | components/ResultsView.tsx:54 | 0 for an empty domain, otherwise correct/total, which lies in [0, 1] |
| `Scoring.DomainPercent` | components/ResultsView.tsx:155 | 0 for an empty domain, otherwise 100*correct/total, which lies in [0, 100] |
| `QuestionDisplay.RemoveAll` | components/QuestionDisplay.tsx:33 | the filter drops every occurrence of the index and keeps every other entry with its multiplicity |
| `QuestionDisplay.RemoveAllSingle` | components/QuestionDisplay.tsx:33 | a one-entry list keeps its entry exactly when it differs from the index |
| `QuestionDisplay.RemoveAllConcat` | components/QuestionDisplay.tsx:33 | filtering distributes over concatenation, so the kept entries stay in their original order |
| `QuestionDisplay.ToggleOption` | components/QuestionDisplay.tsx:26-36 | in review nothing is emitted; SINGLE emits `[idx]`; MULTIPLE filters a selected index out (via `RemoveAll`, the other entries in order) or appends an unselected one at the end |
| `QuestionDisplay.ToggleKeepsDistinct` | components/QuestionDisplay.tsx:32-35 | the MULTIPLE toggle keeps a selection duplicate-free |
| `QuestionDisplay.DistinctOccursOnce` | components/QuestionDisplay.tsx:32-35 | a duplicate-free selection holds each index at most once |
| `QuestionDisplay.RemoveAllAbsent` | components/QuestionDisplay.tsx:32-34 | removing an index that was just appended to a list without it gives the list back |
| `QuestionDisplay.ToggleTwice` | components/QuestionDisplay.tsx:32-35 | toggling the same option twice restores the set of selected indices, and the exact list when the option was unselected |
| `QuestionDisplay.StyleOf` | components/QuestionDisplay.tsx:67-88 | in review, correct options show as correct, selected incorrect ones as wrong and the rest as plain; otherwise an option is highlighted iff it is selected |
| `QuestionDisplay.CorrectQuestionShowsNoWrongOption` | components/QuestionDisplay.tsx:74-83 | reviewing a question that scored correct shows no option as wrong |
| `NavigationPanel.ClearedIsUnanswered` | components/NavigationPanel.tsx:25 | an empty selection makes a question unanswered again |
| `NavigationPanel.IsAnswered` | components/NavigationPanel.tsx:25 | a question is answered when its recorded selection exists and is non-empty |
| `NavigationPanel.StatusOf` | components/NavigationPanel.tsx:25-45 | each cell gets exactly one status, by priority current > marked > answered > unanswered |
| `NavigationPanel.Grid` | components/NavigationPanel.tsx:24-53 | one cell per question; cell `k` is numbered `k+1` and navigates to `k` |
| `NavigationPanel.TargetsInRange` | components/NavigationPanel.tsx:50 | every navigation target is a position of the question list |
| `NavigationPanel.CountCurrentOfCells` | components/NavigationPanel.tsx:27 | the cells marked current are exactly those at the cursor position |
| `NavigationPanel.ExactlyOneCurrent` | components/NavigationPanel.tsx:27-33 | exactly one cell is current when the cursor is in range, none otherwise |
| `Timer.Countdown.constructor` | components/Timer.tsx:10 | the countdown starts at `initialMinutes * 60` seconds |
| `Timer.Countdown.IsLow` | components/Timer.tsx:32 | fewer than 300 seconds remain; `Step` keeps it once shown |
| `Timer.Countdown.Step` | components/Timer.tsx:12-23 | time-up is signalled iff no seconds remain, and then nothing changes; otherwise exactly one second is taken off; a shown low-time warning stays |
| `Timer.Pad2` | components/Timer.tsx:29 | `padStart(2, '0')` keeps the string as its suffix, pads with '0' and returns at least two characters |
| `Timer.Hours` | components/Timer.tsx:26 | whole hours of the count |
| `Timer.Minutes` | components/Timer.tsx:27 | whole minutes past the hour |
| `Timer.Seconds` | components/Timer.tsx:28 | seconds past the minute; `ClockDecomposition` states all three together |
| `Timer.ClockDecomposition` | components/Timer.tsx:26-28 | hours*3600 + minutes*60 + seconds gives back the input, with minutes and seconds below 60 |
| `Timer.Clock` | components/Timer.tsx:29 | the display has at least eight characters |
| `Timer.FormatTime` | components/Timer.tsx:25-30 | the display of any non-negative count has at least eight characters |
| `Timer.TwoCharacters` | components/Timer.tsx:29 | numbers below 100 pad to exactly two characters |
| `Timer.ParsePadded` | components/Timer.tsx:29 | a padded field reads back as its number |
| `Timer.ClockRoundTrip` | components/Timer.tsx:29 | with minutes and seconds below 60 the colons stand third and sixth from the end, and the display reads back as the seconds it shows |
| `Timer.FormatTimeRoundTrip` | components/Timer.tsx:25-30 | reading the `formatTime` display back gives the remaining seconds |
| `Timer.DisplayOf7800` | components/Timer.tsx:25-29 | 7800 seconds display as "02:10:00" |
| `App.FullTimeDisplay` | App.tsx:104 | the 130 minutes App passes to the timer are shown as "02:10:00" |
| `App.Flip` | App.tsx:155-160 | the current id's membership is flipped and every other id is kept |
| `App.FlipTwice` | App.tsx:155-160 | toggling the mark twice restores the marked set |
| `App.Session.constructor` | App.tsx:13-18 | the start screen with no set, cursor 0, no answers or marks, and no time-up |
| `App.Session.Valid` | App.tsx:13-38 | the session invariant: no set means the start state; a set in play is a reordering of one of the bank's sets under its id and name, the cursor is a position of it, answers and marks only name its questions, and every recorded selection is duplicate-free |
| `App.Session.StartRandomExam` | App.tsx:20-38 | some set index in range; a permutation of that set's questions under the same id and name; cursor 0, no answers, no marks, the exam view, no time-up; callable from the start screen (Start Simulator) or the results screen (Retake) only |
| `App.Session.HandleFinish` | App.tsx:40-42 | from the exam or results screen (the button is not shown in review), the results view, nothing else changed, so finishing again changes nothing |
| `App.Session.OnTimeUp` | App.tsx:104 | from the exam or results screen (no timer is mounted in review), the time-up flag, then the results view, and nothing else |
| `App.Session.OnAnswer` | App.tsx:153 | only the current question's entry is replaced |
| `App.Session.ClickOption` | App.tsx:148-153 | in review the answers are unchanged; in the exam the current entry becomes the toggled selection |
| `App.Session.OnToggleMark` | App.tsx:155-160 | on the exam or review screen, where the Mark button is shown, the marked set is the old one with the current id flipped; nothing else changes |
| `App.Session.Previous` | App.tsx:165-167 | the cursor moves back one unless it is at 0, and stays in range |
| `App.Session.Next` | App.tsx:178-180 | the cursor moves forward one unless it is on the last question, and stays in range |
| `App.Session.OnNavigate` | App.tsx:133 | the cursor becomes the grid index handed in |
| `App.Session.EnterReview` | App.tsx:141-144 | the review view with the cursor at 0; answers and marks untouched |
| `App.Session.ExitReview` | App.tsx:108-109 | back to the results view; nothing else changes |
| `App.Session.ScoredBySet` | components/ResultsView.tsx:16-18 | on the session's recorded selections, which stay duplicate-free, a question with duplicate-free correct indices scores as correct iff its selection has the same set |
| `App.Session.ShowResults` | App.tsx:136-140 | the results are computed from the set in play and the recorded answers, with the scaled score in [100, 1000] |
| `App.StartOnGeneratedSets` | data/questions.ts:166 | the main view over `EXAM_SETS = generateSets()`: five sets meet the constructor's demands, each with the 50-question split, and an exam starts on one of them |
| `App.Play` | App.tsx:133-180 | answering, marking twice, Previous/Next, a grid jump and two finishes keep the invariant and end on the results screen with the set in play unchanged |
| `App.Walkthrough` | App.tsx:20-153 | a whole session over the bank's sets: the results show 50 questions split 15/13/12/10 over the domains and score 100 + 18 per correct answer; review, exit and retake then reset the session fields to a fresh exam (the countdown lies outside the session) |

## Left out

- Question texts: scenario, option and explanation strings are empty in the pool constants. Ids, domains, option counts and correct indices are kept. Nothing in the logic reads the texts except the `[Set L] ` prefix, which is modelled generically.
- Random distributions: `Math.random` becomes a nondeterministic choice. The model does not capture that the set choice is uniform, or that the `sort(() => Math.random() - 0.5)` shuffle is biased.
- Floating point: scores and percentages are exact reals. The model does not capture binary rounding of `c/n*900` before `Math.round`. For 50 questions the value is an integer either way.
- Radar-chart geometry (`Math.cos`/`Math.sin` points, label anchors), CSS classes, the progress percentage and all JSX rendering. These are presentation over floating point. The radar scale factor is `Scoring.DomainFraction`.
- The per-domain green colour threshold (`perc >= 72`): a presentation colour choice.
- React lifecycle: state batching, `setInterval`/`clearInterval` scheduling, and the Timer being unmounted on entering review and remounted (with a fresh 130 minutes) on leaving it. `Timer.Countdown.Step` models one effect run plus the tick it schedules. `App.ExamMinutes` records the 130 minutes App passes (`App.FullTimeDisplay`), but the session does not own a countdown.
- The `confirm()` dialog before END EXAM: a user decision outside the model. `HandleFinish` is the confirmed branch.
- `UserAnswer` and `ExamSession` in types.ts: the code never uses them.
- Timer.Countdown.Step: signals time-up once per effect run. It does not model React re-running the effect on every App render, since the `onTimeUp` arrow is new each time. The repeats come once the count is at 0, on the results screen: there a repeated `onTimeUp` only sets the same flag and view again. While time remains, the same re-run also clears and restarts the one-second interval, so each answer, mark or grid click drops the part of a second already counted.
- App.Session.StartRandomExam: as the retake handler it resets the session fields only, not the countdown. The Timer stays mounted from the results screen into the retaken exam, because both render it in the same place. So a retake keeps the old remaining seconds instead of 130 minutes. A retake after time-up ends at once: the remaining 0 makes the effect call `onTimeUp`, which sends the new exam back to the results screen with the time-up flag set. The session does not own a countdown, so the model does not show either effect.
- Questions.ToLower: covers ASCII only. JavaScript's `toLowerCase` also lowers non-ASCII capitals (`'É'` to `'é'`), which the model returns unchanged. The generator only passes the set letters 'A'..'E'.
- Timer.FormatTime: covers non-negative counts only. The countdown never goes below zero, so JavaScript's truncating `%` on negatives is not modelled.
