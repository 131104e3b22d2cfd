/**
 * The question bank (data/questions.ts): the question constructor, the four
 * single-domain template pools and the generator of the five 50-question practice sets.
 */
module Questions {
  import opened Types
  import opened Decimal

  /** `createQuestion`: the question kind follows from the number of correct indices. */
  function CreateQuestion(id: string, domain: Domain, scenario: string, options: seq<string>,
                          correctAnswers: seq<int>, explanation: string): (q: Question)
    ensures q.kind == Multiple <==> |correctAnswers| > 1
    ensures q.id == id && q.domain == domain && q.scenario == scenario && q.options == options
    ensures q.correctAnswers == correctAnswers && q.explanation == explanation
  {
    Question(id, scenario, options, correctAnswers, domain,
             if |correctAnswers| > 1 then Multiple else Single, explanation)
  }

  /** Stand-in for option texts, which this model does not keep. */
  function Blank(n: nat): (r: seq<string>)
    ensures |r| == n
  {
    seq(n, _ => "")
  }

  function PoolSecure(): seq<Question> {
    [ CreateQuestion("D1-01", Secure, "", Blank(4), [0], ""),
      CreateQuestion("D1-02", Secure, "", Blank(4), [0], ""),
      CreateQuestion("D1-03", Secure, "", Blank(5), [0, 2], "") ]
  }

  function PoolResilient(): seq<Question> {
    [ CreateQuestion("D2-01", Resilient, "", Blank(4), [0], ""),
      CreateQuestion("D2-02", Resilient, "", Blank(4), [0], "") ]
  }

  function PoolPerforming(): seq<Question> {
    [ CreateQuestion("D3-01", HighPerforming, "", Blank(4), [0], "") ]
  }

  function PoolCost(): seq<Question> {
    [ CreateQuestion("D4-01", CostOptimized, "", Blank(4), [0], "") ]
  }

  /** Every question of `pool` is well-formed and belongs to domain `d`. */
  predicate PoolOf(pool: seq<Question>, d: Domain) {
    |pool| > 0 && forall k :: 0 <= k < |pool| ==> WellFormed(pool[k]) && pool[k].domain == d
  }

  lemma PoolsWellFormed()
    ensures PoolOf(PoolSecure(), Secure)
    ensures PoolOf(PoolResilient(), Resilient)
    ensures PoolOf(PoolPerforming(), HighPerforming)
    ensures PoolOf(PoolCost(), CostOptimized)
  {
    var d103 := PoolSecure()[2];
    assert d103.correctAnswers == [0, 2] && |d103.options| == 5;
  }

  const SetLetters: seq<char> := ['A', 'B', 'C', 'D', 'E']

  /** `${letter}-${domain.charAt(7)}-${i}` behind the "SET-" prefix. */
  function BatchId(letter: char, domain: Domain, i: nat): (r: string)
    ensures |r| > 8 && r[4] == letter && r[6] == DomainName(domain)[7]
  {
    "SET-" + [letter] + "-" + [DomainName(domain)[7]] + "-" + NatToString(i)
  }

  /** Ids built from different letters, domains or counters differ. */
  lemma BatchIdInjective(l1: char, d1: Domain, i1: nat, l2: char, d2: Domain, i2: nat)
    requires BatchId(l1, d1, i1) == BatchId(l2, d2, i2)
    ensures l1 == l2 && d1 == d2 && i1 == i2
  {
    var a, b := BatchId(l1, d1, i1), BatchId(l2, d2, i2);
    assert a[8..] == NatToString(i1);
    assert b[8..] == NatToString(i2);
    NatToStringInjective(i1, i2);
    DomainDigitInjective(d1, d2);
  }

  /** The copy of a template that lands at position `i` of a batch. */
  function Spread(template: Question, letter: char, domain: Domain, i: nat): Question {
    template.(id := BatchId(letter, domain, i), scenario := "[Set " + [letter] + "] " + template.scenario)
  }

  /** The `count` questions `addBatch` pushes, cycling through `pool`. */
  function Batch(pool: seq<Question>, count: nat, domain: Domain, letter: char): (b: seq<Question>)
    requires |pool| > 0
    ensures |b| == count
  {
    seq(count, i requires 0 <= i < count => Spread(pool[i % |pool|], letter, domain, i))
  }

  /**
   * Question `i` of a batch is template `i mod |pool|` with a fresh id and the set's
   * scenario prefix, every other field unchanged.
   */
  lemma BatchAt(pool: seq<Question>, count: nat, domain: Domain, letter: char, i: nat)
    requires |pool| > 0 && i < count
    ensures var q, t := Batch(pool, count, domain, letter)[i], pool[i % |pool|];
            && q.id == BatchId(letter, domain, i)
            && q.scenario == "[Set " + [letter] + "] " + t.scenario
            && q.options == t.options && q.correctAnswers == t.correctAnswers
            && q.domain == t.domain && q.kind == t.kind && q.explanation == t.explanation
  {
  }

  /** `addBatch`: pushes `count` copies of the pool's templates onto `questions`. */
  method AddBatch(questions: seq<Question>, pool: seq<Question>, count: nat, domain: Domain, letter: char)
    returns (r: seq<Question>)
    requires |pool| > 0
    ensures r == questions + Batch(pool, count, domain, letter)
  {
    r := questions;
    for i := 0 to count
      invariant r == questions + Batch(pool, i, domain, letter)
    {
      var template := pool[i % |pool|];
      r := r + [template.(id := "SET-" + [letter] + "-" + [DomainName(domain)[7]] + "-" + NatToString(i),
                          scenario := "[Set " + [letter] + "] " + template.scenario)];
      assert Batch(pool, i + 1, domain, letter) == Batch(pool, i, domain, letter) + [Spread(template, letter, domain, i)];
    }
  }

  /** The set for `letter` before shuffling: the four batches in domain order. */
  function Unshuffled(letter: char): seq<Question> {
    Batch(PoolSecure(), 15, Secure, letter) + Batch(PoolResilient(), 13, Resilient, letter) +
    Batch(PoolPerforming(), 12, HighPerforming, letter) + Batch(PoolCost(), 10, CostOptimized, letter)
  }

  /**
   * Every id in `qs` is "SET-<letter>-<digit>-..." where the digit is that of a domain
   * whose ordinal lies in [lo, hi).
   */
  predicate Tagged(qs: seq<Question>, letter: char, lo: int, hi: int) {
    forall k :: 0 <= k < |qs| ==>
      |qs[k].id| > 8 && qs[k].id[4] == letter && lo <= qs[k].id[6] as int - '1' as int < hi
  }

  /** What a batch drawn from a single-domain pool contributes to a set. */
  lemma BatchFacts(pool: seq<Question>, count: nat, domain: Domain, letter: char)
    requires PoolOf(pool, domain)
    ensures var b := Batch(pool, count, domain, letter);
            && |b| == count
            && (forall k :: 0 <= k < |b| ==> WellFormed(b[k]) && b[k].domain == domain)
            && DistinctIds(b)
            && Tagged(b, letter, Ordinal(domain), Ordinal(domain) + 1)
            && (forall e :: CountIn(b, e) == if e == domain then count else 0)
  {
    var b := Batch(pool, count, domain, letter);
    forall k | 0 <= k < |b|
      ensures WellFormed(b[k]) && b[k].domain == domain && b[k].id == BatchId(letter, domain, k)
    {
      BatchAt(pool, count, domain, letter, k);
    }
    forall i, j | 0 <= i < j < |b| ensures b[i].id != b[j].id {
      if b[i].id == b[j].id {
        BatchIdInjective(letter, domain, i, letter, domain, j);
      }
    }
    forall e ensures CountIn(b, e) == if e == domain then count else 0 {
      CountInUniform(b, domain, e);
    }
  }

  /** Joining lists tagged with disjoint digit ranges keeps ids distinct. */
  lemma JoinTagged(a: seq<Question>, b: seq<Question>, letter: char, lo: int, mid: int, hi: int)
    requires lo <= mid <= hi
    requires DistinctIds(a) && Tagged(a, letter, lo, mid)
    requires DistinctIds(b) && Tagged(b, letter, mid, hi)
    ensures DistinctIds(a + b) && Tagged(a + b, letter, lo, hi)
  {
    forall i, j | 0 <= i < |a| && 0 <= j < |b| ensures a[i].id != b[j].id {
      assert a[i].id[6] != b[j].id[6];
    }
    DistinctIdsConcat(a, b);
    var c := a + b;
    forall k | 0 <= k < |c|
      ensures |c[k].id| > 8 && c[k].id[4] == letter && lo <= c[k].id[6] as int - '1' as int < hi
    {
      if k < |a| { assert c[k] == a[k]; } else { assert c[k] == b[k - |a|]; }
    }
  }

  /** Four batches tagged with consecutive domain digits join into one set. */
  lemma JoinFour(b1: seq<Question>, b2: seq<Question>, b3: seq<Question>, b4: seq<Question>, letter: char)
    requires DistinctIds(b1) && Tagged(b1, letter, 0, 1)
    requires DistinctIds(b2) && Tagged(b2, letter, 1, 2)
    requires DistinctIds(b3) && Tagged(b3, letter, 2, 3)
    requires DistinctIds(b4) && Tagged(b4, letter, 3, 4)
    requires forall k :: 0 <= k < |b1| ==> WellFormed(b1[k])
    requires forall k :: 0 <= k < |b2| ==> WellFormed(b2[k])
    requires forall k :: 0 <= k < |b3| ==> WellFormed(b3[k])
    requires forall k :: 0 <= k < |b4| ==> WellFormed(b4[k])
    ensures var u := b1 + b2 + b3 + b4;
            && DistinctIds(u) && Tagged(u, letter, 0, 4)
            && (forall k :: 0 <= k < |u| ==> WellFormed(u[k]))
            && (forall e :: CountIn(u, e) == CountIn(b1, e) + CountIn(b2, e) + CountIn(b3, e) + CountIn(b4, e))
  {
    JoinTagged(b1, b2, letter, 0, 1, 2);
    JoinTagged(b1 + b2, b3, letter, 0, 2, 3);
    JoinTagged(b1 + b2 + b3, b4, letter, 0, 3, 4);
    var u := b1 + b2 + b3 + b4;
    forall e ensures CountIn(u, e) == CountIn(b1, e) + CountIn(b2, e) + CountIn(b3, e) + CountIn(b4, e) {
      CountInConcat(b1, b2, e);
      CountInConcat(b1 + b2, b3, e);
      CountInConcat(b1 + b2 + b3, b4, e);
    }
    forall k | 0 <= k < |u| ensures WellFormed(u[k]) {
      var n1, n2, n3 := |b1|, |b1| + |b2|, |b1| + |b2| + |b3|;
      if k < n1 { assert u[k] == b1[k]; }
      else if k < n2 { assert u[k] == b2[k - n1]; }
      else if k < n3 { assert u[k] == b3[k - n2]; }
      else { assert u[k] == b4[k - n3]; }
    }
  }

  /**
   * The unshuffled set for a letter: 50 well-formed questions, 15/13/12/10 per domain,
   * pairwise distinct ids, each carrying the set's letter.
   */
  lemma UnshuffledFacts(letter: char)
    ensures var u := Unshuffled(letter);
            && |u| == 50
            && CountIn(u, Secure) == 15 && CountIn(u, Resilient) == 13
            && CountIn(u, HighPerforming) == 12 && CountIn(u, CostOptimized) == 10
            && DistinctIds(u)
            && (forall k :: 0 <= k < |u| ==> WellFormed(u[k]))
            && Tagged(u, letter, 0, 4)
  {
    PoolsWellFormed();
    BatchFacts(PoolSecure(), 15, Secure, letter);
    BatchFacts(PoolResilient(), 13, Resilient, letter);
    BatchFacts(PoolPerforming(), 12, HighPerforming, letter);
    BatchFacts(PoolCost(), 10, CostOptimized, letter);
    JoinFour(Batch(PoolSecure(), 15, Secure, letter), Batch(PoolResilient(), 13, Resilient, letter),
             Batch(PoolPerforming(), 12, HighPerforming, letter), Batch(PoolCost(), 10, CostOptimized, letter),
             letter);
  }

  /** The in-place Fisher-Yates loop: position `i` swaps with some `j` in [0, i]. */
  method Shuffle<T>(a: array<T>)
    modifies a
    ensures multiset(a[..]) == old(multiset(a[..]))
  {
    var i := a.Length - 1;
    while i > 0
      invariant i < a.Length
      invariant multiset(a[..]) == old(multiset(a[..]))
    {
      var j :| 0 <= j <= i;
      a[i], a[j] := a[j], a[i];
      i := i - 1;
    }
  }

  /** `letter.toLowerCase()` on ASCII: upper-case letters are lowered, nothing else changes. */
  function ToLower(c: char): (r: char)
    ensures 'A' <= c <= 'Z' ==> r == "abcdefghijklmnopqrstuvwxyz"[c as int - 'A' as int]
    ensures !('A' <= c <= 'Z') ==> r == c
  {
    if 'A' <= c <= 'Z' then (c as int + 32) as char else c
  }

  /** `set-${letter.toLowerCase()}` */
  function SetId(letter: char): string {
    "set-" + [ToLower(letter)]
  }

  /** `Practice Exam Set ${letter}` */
  function SetName(letter: char): string {
    "Practice Exam Set " + [letter]
  }

  /** 50 questions, 15/13/12/10 over the four domains in declaration order. */
  predicate FiftySplit(qs: seq<Question>) {
    && |qs| == 50
    && CountIn(qs, Secure) == 15 && CountIn(qs, Resilient) == 13
    && CountIn(qs, HighPerforming) == 12 && CountIn(qs, CostOptimized) == 10
  }

  /** Everything a generated practice set satisfies. */
  ghost predicate GeneratedSet(s: ExamSet, letter: char) {
    && s.id == SetId(letter)
    && s.name == SetName(letter)
    && multiset(s.questions) == multiset(Unshuffled(letter))
    && FiftySplit(s.questions)
    && DistinctIds(s.questions)
    && (forall k :: 0 <= k < |s.questions| ==> WellFormed(s.questions[k]))
    && Tagged(s.questions, letter, 0, 4)
  }

  /** A reordering of the unshuffled set keeps all of its counted properties. */
  lemma ShuffledFacts(letter: char, qs: seq<Question>)
    requires multiset(qs) == multiset(Unshuffled(letter))
    ensures GeneratedSet(ExamSet(SetId(letter), SetName(letter), qs), letter)
  {
    var u := Unshuffled(letter);
    UnshuffledFacts(letter);
    assert |qs| == |multiset(qs)| == |u|;
    forall d ensures CountIn(qs, d) == CountIn(u, d) {
      CountInPermutation(qs, u, d);
    }
    DistinctIdsPermutation(u, qs);
    forall k | 0 <= k < |qs|
      ensures WellFormed(qs[k]) && |qs[k].id| > 8 && qs[k].id[4] == letter
      ensures 0 <= qs[k].id[6] as int - '1' as int < 4
    {
      assert qs[k] in multiset(u);
      var m :| 0 <= m < |u| && u[m] == qs[k];
    }
  }

  /** Any reordering of a 50-question set keeps its domain split. */
  lemma ReorderedSplit(qs: seq<Question>, shown: seq<Question>)
    requires FiftySplit(qs)
    requires multiset(shown) == multiset(qs)
    ensures FiftySplit(shown)
  {
    assert |shown| == |multiset(shown)| == |qs|;
    forall d ensures CountIn(shown, d) == CountIn(qs, d) {
      CountInPermutation(shown, qs, d);
    }
  }

  /** One turn of `generateSets`: the set for `letter`, shuffled in place. */
  method GenerateSet(letter: char) returns (s: ExamSet)
    ensures GeneratedSet(s, letter)
  {
    var questions: seq<Question> := [];
    PoolsWellFormed();
    questions := AddBatch(questions, PoolSecure(), 15, Secure, letter);
    questions := AddBatch(questions, PoolResilient(), 13, Resilient, letter);
    questions := AddBatch(questions, PoolPerforming(), 12, HighPerforming, letter);
    questions := AddBatch(questions, PoolCost(), 10, CostOptimized, letter);
    assert questions == Unshuffled(letter);
    var shuffled := new Question[|questions|](k requires 0 <= k < |questions| => questions[k]);
    assert shuffled[..] == questions;
    Shuffle(shuffled);
    ShuffledFacts(letter, shuffled[..]);
    s := ExamSet("set-" + [ToLower(letter)], "Practice Exam Set " + [letter], shuffled[..]);
  }

  /** `generateSets`: one set per letter, in the order of the letters. */
  method GenerateSets() returns (sets: seq<ExamSet>)
    ensures |sets| == |SetLetters| == 5
    ensures forall k :: 0 <= k < |sets| ==> GeneratedSet(sets[k], SetLetters[k])
  {
    sets := [];
    for t := 0 to |SetLetters|
      invariant |sets| == t
      invariant forall k :: 0 <= k < t ==> GeneratedSet(sets[k], SetLetters[k])
    {
      var s := GenerateSet(SetLetters[t]);
      sets := sets + [s];
    }
  }

  /** Ids never repeat, within a set or across sets generated for different letters. */
  lemma GeneratedIdsUnique(s1: ExamSet, l1: char, i1: nat, s2: ExamSet, l2: char, i2: nat)
    requires GeneratedSet(s1, l1) && GeneratedSet(s2, l2)
    requires i1 < |s1.questions| && i2 < |s2.questions|
    requires l1 != l2 || (s1 == s2 && i1 != i2)
    ensures s1.questions[i1].id != s2.questions[i2].id
  {
    if l1 != l2 {
      assert s1.questions[i1].id[4] == l1;
      assert s2.questions[i2].id[4] == l2;
    } else if i1 > i2 {
      assert s1.questions[i2].id != s1.questions[i1].id;
    }
  }

  /** The five sets are "set-a" .. "set-e", "Practice Exam Set A" .. "E", in order. */
  lemma SetNames()
    ensures [SetId('A'), SetId('B'), SetId('C'), SetId('D'), SetId('E')] ==
            ["set-a", "set-b", "set-c", "set-d", "set-e"]
    ensures [SetName('A'), SetName('B'), SetName('C'), SetName('D'), SetName('E')] ==
            ["Practice Exam Set A", "Practice Exam Set B", "Practice Exam Set C",
             "Practice Exam Set D", "Practice Exam Set E"]
  {
    forall c | c in SetLetters
      ensures SetId(c) == ['s', 'e', 't', '-', ToLower(c)]
      ensures SetName(c) == "Practice Exam Set " + [c]
    {
    }
    assert ToLower('A') == 'a' && ToLower('B') == 'b' && ToLower('C') == 'c';
    assert ToLower('D') == 'd' && ToLower('E') == 'e';
    var prefix := "Practice Exam Set ";
    assert "Practice Exam Set A" == prefix + "A";
    assert "Practice Exam Set B" == prefix + "B";
    assert "Practice Exam Set C" == prefix + "C";
    assert "Practice Exam Set D" == prefix + "D";
    assert "Practice Exam Set E" == prefix + "E";
  }
}
