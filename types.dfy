/**
 * The data model of the exam simulator: the four exam domains, the two question
 * kinds, questions and exam sets (types.ts).
 */
module Types {

  /** The closed set of exam domains, in declaration order. */
  datatype Domain = Secure | Resilient | HighPerforming | CostOptimized

  /** Position of a domain in declaration order; `Object.values(Domain)` iterates in this order. */
  function Ordinal(d: Domain): nat {
    match d
    case Secure => 0
    case Resilient => 1
    case HighPerforming => 2
    case CostOptimized => 3
  }

  const AllDomains: seq<Domain> := [Secure, Resilient, HighPerforming, CostOptimized]

  lemma AllDomainsInOrder(d: Domain)
    ensures |AllDomains| == 4
    ensures Ordinal(d) < 4 && AllDomains[Ordinal(d)] == d
  {
  }

  /** The descriptive part of each domain's name. */
  function Area(d: Domain): string {
    match d
    case Secure => "Secure"
    case Resilient => "Resilient"
    case HighPerforming => "High-Performing"
    case CostOptimized => "Cost-Optimized"
  }

  /**
   * The string value of each enum member, "Domain <n>: Design <area> Architectures"
   * with n = 1..4 in declaration order.
   */
  function DomainName(d: Domain): (r: string)
    ensures |r| > 7 && r[7] == ('1' as int + Ordinal(d)) as char
  {
    "Domain " + [('1' as int + Ordinal(d)) as char] + ": Design " + Area(d) + " Architectures"
  }

  /** The character at position 7 of a domain's name identifies the domain. */
  lemma DomainDigitInjective(d: Domain, e: Domain)
    requires DomainName(d)[7] == DomainName(e)[7]
    ensures d == e
  {
  }

  datatype QuestionType = Single | Multiple

  datatype Question = Question(
    id: string,
    scenario: string,
    options: seq<string>,
    correctAnswers: seq<int>,  // indices into options
    domain: Domain,
    kind: QuestionType,
    explanation: string)

  datatype ExamSet = ExamSet(id: string, name: string, questions: seq<Question>)

  predicate Distinct(s: seq<int>) {
    forall i, j :: 0 <= i < j < |s| ==> s[i] != s[j]
  }

  /** What the question bank guarantees of every question it builds. */
  predicate WellFormed(q: Question) {
    && |q.correctAnswers| > 0
    && (forall k :: 0 <= k < |q.correctAnswers| ==> 0 <= q.correctAnswers[k] < |q.options|)
    && Distinct(q.correctAnswers)
    && q.kind == (if |q.correctAnswers| > 1 then Multiple else Single)
  }

  /** The identifiers of a list of questions. */
  function Ids(qs: seq<Question>): set<string> {
    set q | q in qs :: q.id
  }

  /** No two positions of the list hold questions with the same identifier. */
  predicate DistinctIds(qs: seq<Question>) {
    forall i, j :: 0 <= i < j < |qs| ==> qs[i].id != qs[j].id
  }

  /** Number of questions of domain `d`, counted front to back. */
  function CountIn(qs: seq<Question>, d: Domain): (r: nat)
    ensures r <= |qs|
  {
    if qs == [] then 0
    else CountIn(qs[..|qs| - 1], d) + (if qs[|qs| - 1].domain == d then 1 else 0)
  }

  lemma {:induction false} CountInConcat(a: seq<Question>, b: seq<Question>, d: Domain)
    ensures CountIn(a + b, d) == CountIn(a, d) + CountIn(b, d)
  {
    if b == [] {
      assert a + b == a;
    } else {
      assert (a + b)[..|a + b| - 1] == a + b[..|b| - 1];
      CountInConcat(a, b[..|b| - 1], d);
    }
  }

  /** A list whose questions all belong to `d` has all its questions counted under `d`. */
  lemma {:induction false} CountInUniform(qs: seq<Question>, d: Domain, e: Domain)
    requires forall k :: 0 <= k < |qs| ==> qs[k].domain == d
    ensures CountIn(qs, e) == if e == d then |qs| else 0
  {
    if qs != [] {
      CountInUniform(qs[..|qs| - 1], d, e);
    }
  }

  /** The list with position `k` taken out. */
  function RemoveAt(t: seq<Question>, k: nat): (r: seq<Question>)
    requires k < |t|
    ensures |r| == |t| - 1
  {
    t[..k] + t[k + 1..]
  }

  lemma MultisetRemoveAt(t: seq<Question>, k: nat)
    requires k < |t|
    ensures multiset(RemoveAt(t, k)) == multiset(t) - multiset{t[k]}
  {
    assert t == t[..k] + [t[k]] + t[k + 1..];
  }

  lemma CountInRemoveAt(t: seq<Question>, k: nat, d: Domain)
    requires k < |t|
    ensures CountIn(t, d) == CountIn(RemoveAt(t, k), d) + (if t[k].domain == d then 1 else 0)
  {
    assert t == t[..k] + [t[k]] + t[k + 1..];
    CountInConcat(t[..k] + [t[k]], t[k + 1..], d);
    CountInConcat(t[..k], [t[k]], d);
    CountInConcat(t[..k], t[k + 1..], d);
    assert [t[k]][..0] == [];
  }

  /** The last element of a list occurs in every reordering of it, and dropping both leaves equal multisets. */
  lemma PermutationStep(s: seq<Question>, t: seq<Question>) returns (k: nat)
    requires multiset(s) == multiset(t) && s != []
    ensures k < |t| && t[k] == s[|s| - 1]
    ensures multiset(s[..|s| - 1]) == multiset(RemoveAt(t, k))
  {
    var n := |s|;
    var x := s[n - 1];
    assert x in multiset(t) by {
      assert s == s[..n - 1] + [x];
    }
    k :| 0 <= k < |t| && t[k] == x;
    MultisetRemoveAt(s, n - 1);
    MultisetRemoveAt(t, k);
    assert RemoveAt(s, n - 1) == s[..n - 1];
  }

  /** Domain counts depend only on the multiset of questions, not on their order. */
  lemma {:induction false} CountInPermutation(s: seq<Question>, t: seq<Question>, d: Domain)
    requires multiset(s) == multiset(t)
    ensures CountIn(s, d) == CountIn(t, d)
    decreases |s|
  {
    if s == [] {
      assert |t| == |multiset(t)| == 0;
    } else {
      var k := PermutationStep(s, t);
      CountInPermutation(s[..|s| - 1], RemoveAt(t, k), d);
      CountInRemoveAt(t, k, d);
    }
  }

  lemma {:induction false} DistinctIdsConcat(a: seq<Question>, b: seq<Question>)
    requires DistinctIds(a) && DistinctIds(b)
    requires forall i, j :: 0 <= i < |a| && 0 <= j < |b| ==> a[i].id != b[j].id
    ensures DistinctIds(a + b)
  {
    var c := a + b;
    forall i, j | 0 <= i < j < |c| ensures c[i].id != c[j].id {
      if j < |a| {
        assert c[i] == a[i] && c[j] == a[j];
      } else if i < |a| {
        assert c[i] == a[i] && c[j] == b[j - |a|];
      } else {
        assert c[i] == b[i - |a|] && c[j] == b[j - |a|];
      }
    }
  }

  /** With distinct ids no question value occurs twice. */
  lemma {:induction false} DistinctIdsOccurOnce(s: seq<Question>, x: Question)
    requires DistinctIds(s)
    ensures multiset(s)[x] <= 1
    decreases |s|
  {
    if s != [] {
      var n := |s|;
      var init := s[..n - 1];
      assert s == init + [s[n - 1]];
      assert DistinctIds(init) by {
        forall i, j | 0 <= i < j < |init| ensures init[i].id != init[j].id {
          assert init[i] == s[i] && init[j] == s[j];
        }
      }
      DistinctIdsOccurOnce(init, x);
      if s[n - 1] == x {
        forall k | 0 <= k < |init| ensures init[k] != x {
          assert s[k].id != s[n - 1].id;
        }
      }
    }
  }

  /** Distinct ids survive any reordering of the list. */
  lemma DistinctIdsPermutation(s: seq<Question>, t: seq<Question>)
    requires multiset(s) == multiset(t)
    requires DistinctIds(s)
    ensures DistinctIds(t)
  {
    forall i, j | 0 <= i < j < |t| ensures t[i].id != t[j].id {
      if t[i] == t[j] {
        assert t == t[..j] + t[j..];
        assert t[i] in multiset(t[..j]) && t[j] in multiset(t[j..]);
        assert multiset(t)[t[i]] >= 2;
        DistinctIdsOccurOnce(s, t[i]);
      } else {
        assert t[i] in multiset(s) && t[j] in multiset(s);
        var a :| 0 <= a < |s| && s[a] == t[i];
        var b :| 0 <= b < |s| && s[b] == t[j];
        assert a != b;
        if a < b { assert s[a].id != s[b].id; } else { assert s[b].id != s[a].id; }
      }
    }
  }
}
