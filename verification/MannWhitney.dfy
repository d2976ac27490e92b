/**
 The rank-sum test of the benchmark script: ranks with ties averaged, U1 and U2, the tie-corrected
 variance, and Cliff's delta. The pairwise definitions are the reference the rank sums are proved equal to.
 */
module MannWhitney {
  import opened Numbers
  import Sorting

  datatype Pair = Pair(value: real, group: nat)

  datatype Test = Test(u1: real, u2: real, pValue: real, z: real)

  // ----- sums

  function Sum<T>(s: seq<T>, f: T -> real): (r: real) {
    if s == [] then 0.0 else f(s[0]) + Sum(s[1..], f)
  }

  lemma {:induction false} SumAppend<T>(s: seq<T>, t: seq<T>, f: T -> real)
    ensures Sum(s + t, f) == Sum(s, f) + Sum(t, f)
  {
    if s == [] {
      assert s + t == t;
    } else {
      SumAppend(s[1..], t, f);
      assert (s + t)[1..] == s[1..] + t;
    }
  }

  lemma {:induction false} SumPermutation<T>(s: seq<T>, t: seq<T>, f: T -> real)
    requires multiset(s) == multiset(t)
    ensures Sum(s, f) == Sum(t, f)
  {
    if s == [] {
      Sorting.SameElements(s, t);
    } else {
      var i := Sorting.TakeOut(s, t);
      SumPermutation(s[1..], t[..i] + t[i + 1..], f);
      SumAppend(t[..i], [s[0]] + t[i + 1..], f);
      SumAppend([s[0]], t[i + 1..], f);
      SumAppend(t[..i], t[i + 1..], f);
    }
  }

  lemma {:induction false} SumPointwise<T>(s: seq<T>, f: T -> real, g: T -> real, h: T -> real)
    requires forall x | x in s :: h(x) == f(x) + g(x)
    ensures Sum(s, h) == Sum(s, f) + Sum(s, g)
  {
    if s != [] {
      assert s[0] in s && forall x | x in s[1..] :: x in s;
      SumPointwise(s[1..], f, g, h);
    }
  }

  lemma {:induction false} SumConstant<T>(s: seq<T>, f: T -> real, c: real)
    requires forall x | x in s :: f(x) == c
    ensures Sum(s, f) == |s| as real * c
  {
    if s != [] {
      assert s[0] in s && forall x | x in s[1..] :: x in s;
      SumConstant(s[1..], f, c);
      assert |s| as real == |s[1..]| as real + 1.0;
    }
  }

  // ----- the pairwise definitions

  /** What the pair `(x, y)` contributes to the statistic of the sample `x` is taken from. */
  function Score(x: real, y: real): real {
    if x > y then 1.0 else if x == y then 0.5 else 0.0
  }

  function ScoreAgainst(x: real): real -> real { y => Score(x, y) }

  function Wins(x: real, s: seq<real>): real { Sum(s, ScoreAgainst(x)) }

  function WinsAgainst(s: seq<real>): real -> real { x => Wins(x, s) }

  /** The number of pairs in which the element of `a` is greater, plus half the tied pairs. */
  function Pairwise(a: seq<real>, b: seq<real>): real { Sum(a, WinsAgainst(b)) }

  function EqualTo(x: real): real -> real { y => if x == y then 1.0 else 0.0 }

  /** How many elements of `s` equal `x`. */
  function Ties(x: real, s: seq<real>): real { Sum(s, EqualTo(x)) }

  function ExcessIn(s: seq<real>): real -> real { x => Ties(x, s) * Ties(x, s) - 1.0 }

  /** The tie correction without groups: every element contributes the square of its tie count, less one. */
  function TieExcess(s: seq<real>): real { Sum(s, ExcessIn(s)) }

  function SignAgainst(x: real): real -> real { y => if x > y then 1.0 else if x < y then -1.0 else 0.0 }

  function DominanceAgainst(b: seq<real>): real -> real { x => Sum(b, SignAgainst(x)) }

  function Dominance(a: seq<real>, b: seq<real>): real { Sum(a, DominanceAgainst(b)) }

  function ScoreOf(y: real): real -> real { x => Score(x, y) }

  lemma ColumnSplit(b: seq<real>, a: seq<real>)
    requires a != []
    ensures Pairwise(b, a) == Sum(b, ScoreOf(a[0])) + Pairwise(b, a[1..])
  {
    forall x | x in b ensures WinsAgainst(a)(x) == ScoreOf(a[0])(x) + WinsAgainst(a[1..])(x) {
    }
    SumPointwise(b, ScoreOf(a[0]), WinsAgainst(a[1..]), WinsAgainst(a));
  }

  lemma {:induction false} RowAndColumn(x: real, b: seq<real>)
    ensures Wins(x, b) + Sum(b, ScoreOf(x)) == |b| as real
  {
    if b != [] {
      RowAndColumn(x, b[1..]);
    }
  }

  /** Each pair is won once or shared: the two statistics of a pair of samples sum to the number of pairs. */
  lemma {:induction false} PairwiseComplement(a: seq<real>, b: seq<real>)
    ensures Pairwise(a, b) + Pairwise(b, a) == |a| as real * |b| as real
  {
    if a == [] {
      SumConstant(b, WinsAgainst(a), 0.0);
    } else {
      PairwiseComplement(a[1..], b);
      ColumnSplit(b, a);
      RowAndColumn(a[0], b);
      assert |a| as real == |a[1..]| as real + 1.0;
      assert |a| as real * |b| as real == |a[1..]| as real * |b| as real + |b| as real;
    }
  }

  // ----- from ranks to pairs

  function Values(s: seq<Pair>): (r: seq<real>)
    ensures |r| == |s|
    ensures forall i | 0 <= i < |s| :: r[i] == s[i].value
  {
    if s == [] then [] else [s[0].value] + Values(s[1..])
  }

  function Tagged(a: seq<real>, group: nat): (r: seq<Pair>)
    ensures |r| == |a|
    ensures forall i | 0 <= i < |a| :: r[i] == Pair(a[i], group)
  {
    if a == [] then [] else [Pair(a[0], group)] + Tagged(a[1..], group)
  }

  /** `combined` before it is sorted. */
  function Combined(a: seq<real>, b: seq<real>): seq<Pair> { Tagged(a, 0) + Tagged(b, 1) }

  predicate ByValue(x: Pair, y: Pair) { x.value <= y.value }

  ghost predicate Ascending(s: seq<real>) {
    forall i, j | 0 <= i < j < |s| :: s[i] <= s[j]
  }

  /** `i..j` is one whole group of equal values of the ascending `s`. */
  ghost predicate TieGroup(s: seq<real>, i: nat, j: nat) {
    && i <= j < |s|
    && (forall k | i <= k <= j :: s[k] == s[i])
    && (forall k | 0 <= k < i :: s[k] < s[i])
    && (forall k | j < k < |s| :: s[k] > s[i])
  }

  lemma SumInThree<T>(p: seq<T>, q: seq<T>, r: seq<T>, f: T -> real, before: real, inside: real, after: real)
    requires forall x | x in p :: f(x) == before
    requires forall x | x in q :: f(x) == inside
    requires forall x | x in r :: f(x) == after
    ensures Sum(p + (q + r), f) == |p| as real * before + |q| as real * inside + |r| as real * after
  {
    SumAppend(p, q + r, f);
    SumAppend(q, r, f);
    SumConstant(p, f, before);
    SumConstant(q, f, inside);
    SumConstant(r, f, after);
  }

  lemma AverageOfGroup(i: nat, j: nat)
    requires i <= j
    ensures (i + j) as real / 2.0 + 1.0 == i as real * 1.0 + (j - i + 1) as real * 0.5 + 0.5
  {
    assert (i + j) as real == i as real + j as real && (j - i + 1) as real == j as real - i as real + 1.0;
  }

  /** The values below, in and above a tie group. */
  lemma GroupParts(s: seq<real>, i: nat, j: nat, p: seq<real>, q: seq<real>, r: seq<real>)
    requires TieGroup(s, i, j) && p == s[..i] && q == s[i..j + 1] && r == s[j + 1..]
    ensures s == p + (q + r) && |p| == i && |q| == j - i + 1
    ensures forall x | x in p :: x < s[i]
    ensures forall x | x in q :: x == s[i]
    ensures forall x | x in r :: x > s[i]
  {
  }

  lemma GroupWins(s: seq<real>, i: nat, j: nat)
    requires TieGroup(s, i, j)
    ensures Wins(s[i], s) == i as real * 1.0 + (j - i + 1) as real * 0.5
  {
    var v, p, q, r := s[i], s[..i], s[i..j + 1], s[j + 1..];
    GroupParts(s, i, j, p, q, r);
    SumInThree(p, q, r, ScoreAgainst(v), 1.0, 0.5, 0.0);
  }

  lemma GroupTies(s: seq<real>, i: nat, j: nat)
    requires TieGroup(s, i, j)
    ensures Ties(s[i], s) == (j - i + 1) as real
  {
    var v, p, q, r := s[i], s[..i], s[i..j + 1], s[j + 1..];
    GroupParts(s, i, j, p, q, r);
    SumInThree(p, q, r, EqualTo(v), 0.0, 1.0, 0.0);
  }

  /** The averaged rank of a tie group is one half more than the pairwise score against all values. */
  lemma GroupRank(s: seq<real>, i: nat, j: nat)
    requires TieGroup(s, i, j)
    ensures (i + j) as real / 2.0 + 1.0 == Wins(s[i], s) + 0.5
    ensures Ties(s[i], s) == (j - i + 1) as real
  {
    AverageOfGroup(i, j);
    GroupWins(s, i, j);
    GroupTies(s, i, j);
  }

  function RankTerm(s: seq<real>): Pair -> real {
    (p: Pair) => if p.group == 0 then Wins(p.value, s) + 0.5 else 0.0
  }

  lemma {:induction false} GroupZeroOnly(a: seq<real>, b: seq<real>, s: seq<real>)
    ensures Sum(Tagged(a, 0), RankTerm(s)) == Pairwise(a, s) + |a| as real / 2.0
    ensures Sum(Tagged(b, 1), RankTerm(s)) == 0.0
  {
    if a != [] {
      GroupZeroOnly(a[1..], b, s);
      assert Tagged(a, 0)[1..] == Tagged(a[1..], 0);
      assert |a| as real == |a[1..]| as real + 1.0;
    }
    SumConstant(Tagged(b, 1), RankTerm(s), 0.0);
  }

  lemma {:induction false} ValuesAppend(s: seq<Pair>, t: seq<Pair>)
    ensures Values(s + t) == Values(s) + Values(t)
  {
  }

  lemma CombinedValues(a: seq<real>, b: seq<real>)
    ensures Values(Combined(a, b)) == a + b
  {
  }

  lemma {:induction false} ValuesPermutation(s: seq<Pair>, t: seq<Pair>)
    requires multiset(s) == multiset(t)
    ensures multiset(Values(s)) == multiset(Values(t))
  {
    if s == [] {
      Sorting.SameElements(s, t);
    } else {
      var i := Sorting.TakeOut(s, t);
      ValuesPermutation(s[1..], t[..i] + t[i + 1..]);
      ValuesAppend(t[..i], [s[0]] + t[i + 1..]);
      ValuesAppend([s[0]], t[i + 1..]);
      ValuesAppend(t[..i], t[i + 1..]);
    }
  }

  lemma PairwiseAppend(a: seq<real>, b: seq<real>, c: seq<real>)
    ensures Pairwise(a, b + c) == Pairwise(a, b) + Pairwise(a, c)
  {
    forall x | x in a ensures WinsAgainst(b + c)(x) == WinsAgainst(b)(x) + WinsAgainst(c)(x) {
      SumAppend(b, c, ScoreAgainst(x));
    }
    SumPointwise(a, WinsAgainst(b), WinsAgainst(c), WinsAgainst(b + c));
  }

  lemma PairwisePermutation(a: seq<real>, s: seq<real>, t: seq<real>)
    requires multiset(s) == multiset(t)
    ensures Pairwise(a, s) == Pairwise(a, t)
  {
    var zero := (x: real) => 0.0;
    forall x | x in a ensures WinsAgainst(s)(x) == WinsAgainst(t)(x) + zero(x) {
      SumPermutation(s, t, ScoreAgainst(x));
    }
    SumPointwise(a, WinsAgainst(t), zero, WinsAgainst(s));
    SumConstant(a, zero, 0.0);
  }

  lemma RankSumSplit(a: seq<real>, b: seq<real>, arranged: seq<Pair>, s: seq<real>)
    requires multiset(arranged) == multiset(Combined(a, b))
    ensures Sum(arranged, RankTerm(s)) == Pairwise(a, s) + |a| as real / 2.0
  {
    SumPermutation(arranged, Combined(a, b), RankTerm(s));
    SumAppend(Tagged(a, 0), Tagged(b, 1), RankTerm(s));
    GroupZeroOnly(a, b, s);
  }

  /** The least rank sum a sample of `n` can have: 1 + 2 + ... + n. */
  function Triangle(n: nat): nat {
    if n == 0 then 0 else n + Triangle(n - 1)
  }

  lemma {:induction false} TriangleClosed(n: nat)
    ensures 2 * Triangle(n) == n * (n + 1)
  {
    if n > 0 {
      TriangleClosed(n - 1);
    }
  }

  lemma SelfScore(a: seq<real>)
    ensures Pairwise(a, a) + |a| as real / 2.0 == Triangle(|a|) as real
  {
    PairwiseComplement(a, a);
    TriangleClosed(|a|);
    assert (|a| * |a|) as real == |a| as real * |a| as real;
    assert |a| * (|a| + 1) == |a| * |a| + |a|;
  }

  lemma SameValues(a: seq<real>, b: seq<real>, arranged: seq<Pair>)
    requires multiset(arranged) == multiset(Combined(a, b))
    ensures multiset(Values(arranged)) == multiset(a + b)
  {
    ValuesPermutation(arranged, Combined(a, b));
    CombinedValues(a, b);
  }

  /** The sum of the first sample's ranks, in any arrangement of the combined sample, gives the pairwise statistic. */
  lemma RankSumIsPairwise(a: seq<real>, b: seq<real>, arranged: seq<Pair>)
    requires multiset(arranged) == multiset(Combined(a, b))
    ensures Sum(arranged, RankTerm(Values(arranged))) - Triangle(|a|) as real == Pairwise(a, b)
  {
    var s := Values(arranged);
    RankSumSplit(a, b, arranged, s);
    SameValues(a, b, arranged);
    PairwisePermutation(a, s, a + b);
    PairwiseAppend(a, a, b);
    SelfScore(a);
  }

  // ----- the tie correction

  /** Every tie count lies between one and the sample size. */
  lemma {:induction false} TiesRange(x: real, s: seq<real>)
    ensures 0.0 <= Ties(x, s) <= |s| as real
    ensures x in s ==> Ties(x, s) >= 1.0
    ensures Ties(x, s) == |s| as real <==> forall y | y in s :: y == x
  {
    if s != [] {
      TiesRange(x, s[1..]);
      assert s == [s[0]] + s[1..];
      assert |s| as real == |s[1..]| as real + 1.0;
      if Ties(x, s) == |s| as real {
        assert forall y | y in s :: y == s[0] || y in s[1..];
      } else if forall y | y in s :: y == x {
        assert s[0] in s && forall y | y in s[1..] :: y in s;
      }
    }
  }

  ghost predicate AllEqual(s: seq<real>) {
    forall x, y | x in s && y in s :: x == y
  }

  lemma {:induction false} SumNonnegative<T>(s: seq<T>, f: T -> real)
    requires forall x | x in s :: 0.0 <= f(x)
    ensures 0.0 <= Sum(s, f)
    ensures Sum(s, f) == 0.0 <==> forall x | x in s :: f(x) == 0.0
  {
    if s != [] {
      var rest := s[1..];
      assert s == [s[0]] + rest;
      assert s[0] in s && forall y | y in rest :: y in s;
      SumNonnegative(rest, f);
      assert forall y | y in s :: y == s[0] || y in rest;
    }
  }

  function Shortfall<T>(f: T -> real, cap: real): T -> real { x => cap - f(x) }

  function Constant<T>(cap: real): T -> real { _ => cap }

  /** A sum of terms between zero and `cap`, against the sum in which every term is `cap`. */
  lemma SumRange<T>(s: seq<T>, f: T -> real, cap: real)
    requires forall x | x in s :: 0.0 <= f(x) <= cap
    ensures 0.0 <= Sum(s, f) <= Sum(s, Constant<T>(cap))
    ensures Sum(s, f) == Sum(s, Constant<T>(cap)) <==> forall x | x in s :: f(x) == cap
  {
    var g := Shortfall(f, cap);
    SumNonnegative(s, f);
    SumNonnegative(s, g);
    SumPointwise(s, f, g, Constant<T>(cap));
  }

  lemma SquareRange(t: real, n: real)
    requires 1.0 <= t <= n
    ensures 1.0 <= t * t <= n * n
    ensures t * t == n * n ==> t == n
  {
    if t < n {
      ProductGrows(t, n);
    }
    if 1.0 < t {
      ProductGrows(1.0, t);
    }
  }

  /** On `s` the term `f` lies between zero and `cap`, and reaches `cap` just at a value all others equal. */
  ghost predicate CappedBy(s: seq<real>, f: real -> real, cap: real) {
    && (forall x | x in s :: 0.0 <= f(x) <= cap)
    && (forall x | x in s :: f(x) == cap <==> forall y | y in s :: y == x)
  }

  lemma CappedSum(s: seq<real>, f: real -> real, cap: real)
    requires s != [] && CappedBy(s, f, cap)
    ensures 0.0 <= Sum(s, f) <= Sum(s, Constant<real>(cap))
    ensures Sum(s, f) == Sum(s, Constant<real>(cap)) <==> AllEqual(s)
  {
    assert forall x | x in s :: 0.0 <= f(x) <= cap;
    SumRange(s, f, cap);
    assert s[0] in s;
    if AllEqual(s) {
      assert forall x | x in s :: f(x) == cap;
    }
  }

  lemma ExcessCapped(s: seq<real>, n: real, cap: real)
    requires n == |s| as real && cap == n * n - 1.0
    ensures CappedBy(s, ExcessIn(s), cap)
  {
    forall x | x in s
      ensures 0.0 <= ExcessIn(s)(x) <= cap
      ensures ExcessIn(s)(x) == cap <==> forall y | y in s :: y == x
    {
      TiesRange(x, s);
      SquareRange(Ties(x, s), n);
    }
  }

  lemma ExcessUnderConstant(s: seq<real>, cap: real)
    requires s != [] && CappedBy(s, ExcessIn(s), cap)
    ensures 0.0 <= TieExcess(s) <= Sum(s, Constant<real>(cap))
    ensures TieExcess(s) == Sum(s, Constant<real>(cap)) <==> AllEqual(s)
  {
    CappedSum(s, ExcessIn(s), cap);
  }

  lemma ConstantTotal(s: seq<real>, n: real, cap: real)
    requires n == |s| as real
    ensures Sum(s, Constant<real>(cap)) == n * cap
  {
    SumConstant(s, Constant<real>(cap), cap);
  }

  /**
   The sum of t^3 - t over the tie groups is at most N^3 - N, and reaches it exactly when the whole
   sample is one group.
   */
  lemma TieExcessBound(s: seq<real>, n: real, cap: real)
    requires s != [] && n == |s| as real && cap == n * n - 1.0
    ensures 0.0 <= TieExcess(s) <= n * cap
    ensures TieExcess(s) == n * cap <==> AllEqual(s)
  {
    ExcessCapped(s, n, cap);
    ExcessUnderConstant(s, cap);
    ConstantTotal(s, n, cap);
  }

  /** The variance under the square root; JavaScript divides by zero when `n1 + n2 <= 1`. */
  function Radicand(n1: nat, n2: nat, tieSum: real): real
    requires n1 + n2 > 1
  {
    var n := (n1 + n2) as real;
    (n1 as real * n2 as real / 12.0) * ((n + 1.0) - tieSum / (n * (n - 1.0)))
  }

  lemma DividedExcess(n: real, t: real)
    requires n >= 2.0 && 0.0 <= t <= n * (n * n - 1.0)
    ensures n * (n - 1.0) > 0.0
    ensures t / (n * (n - 1.0)) <= n + 1.0
    ensures t / (n * (n - 1.0)) == n + 1.0 <==> t == n * (n * n - 1.0)
  {
    var d := n * (n - 1.0);
    ScaleLess(0.0, n, n - 1.0);
    assert n * (n * n - 1.0) == d * (n + 1.0);
    var q := t / d;
    assert t == q * d;
    if q > n + 1.0 {
      ScaleLess(n + 1.0, q, d);
    } else if q < n + 1.0 {
      ScaleLess(q, n + 1.0, d);
    }
  }

  lemma ScaledSign(k: real, x: real)
    requires k > 0.0 && x >= 0.0
    ensures k * x >= 0.0
    ensures k * x == 0.0 <==> x == 0.0
  {
    if x > 0.0 {
      ScaleLess(0.0, x, k);
    }
  }

  lemma RadicandAt(n1: nat, n2: nat, t: real, n: real)
    requires n1 > 0 && n2 > 0 && n == (n1 + n2) as real
    requires 0.0 <= t <= n * (n * n - 1.0)
    ensures Radicand(n1, n2, t) >= 0.0
    ensures Radicand(n1, n2, t) == 0.0 <==> t == n * (n * n - 1.0)
  {
    DividedExcess(n, t);
    ScaleLess(0.0, n1 as real, n2 as real);
    ScaledSign(n1 as real * n2 as real / 12.0, (n + 1.0) - t / (n * (n - 1.0)));
  }

  lemma RadicandSignOf(n1: nat, n2: nat, s: seq<real>, n: real)
    requires n1 > 0 && n2 > 0 && |s| == n1 + n2 && n == |s| as real
    ensures Radicand(n1, n2, TieExcess(s)) >= 0.0
    ensures Radicand(n1, n2, TieExcess(s)) == 0.0 <==> AllEqual(s)
  {
    TieExcessBound(s, n, n * n - 1.0);
    RadicandAt(n1, n2, TieExcess(s), n);
  }

  /** The radicand is never negative, and zero exactly when all the values of two non-empty samples are equal. */
  lemma RadicandSign(a: seq<real>, b: seq<real>)
    requires a != [] && b != []
    ensures Radicand(|a|, |b|, TieExcess(a + b)) >= 0.0
    ensures Radicand(|a|, |b|, TieExcess(a + b)) == 0.0 <==> AllEqual(a + b)
  {
    RadicandSignOf(|a|, |b|, a + b, |a + b| as real);
  }

  // ----- the script's loops

  /** z with the continuity correction; a zero, undefined or negative sigma gives z = 0. */
  function ZScore(u1: real, n1: nat, n2: nat, tieSum: real, sqrt: real -> real): real {
    if n1 + n2 <= 1 then 0.0
    else
      var sigma := sqrt(Radicand(n1, n2, tieSum));
      if sigma > 0.0 then (Abs(u1 - n1 as real * n2 as real / 2.0) - 0.5) / sigma else 0.0
  }

  function CubeTerm(t: real): real { t * t * t - t }

  /** `tieSum` over recorded group sizes. */
  function TieSum(tieCounts: seq<int>): real {
    if tieCounts == [] then 0.0
    else
      TieSum(tieCounts[..|tieCounts| - 1]) + CubeTerm(tieCounts[|tieCounts| - 1] as real)
  }

  function SquareLessOne(t: real): real { t * t - 1.0 }

  lemma EqualTerms(group: seq<real>, s: seq<real>, t: real)
    requires forall x | x in group :: Ties(x, s) == t
    ensures forall x | x in group :: ExcessIn(s)(x) == SquareLessOne(t)
  {
  }

  lemma TimesSquareLessOne(t: real)
    ensures t * SquareLessOne(t) == CubeTerm(t)
  {
  }

  lemma EqualExcess(group: seq<real>, s: seq<real>, t: real)
    requires t == |group| as real
    requires forall x | x in group :: Ties(x, s) == t
    ensures Sum(group, ExcessIn(s)) == CubeTerm(t)
  {
    EqualTerms(group, s, t);
    SumConstant(group, ExcessIn(s), SquareLessOne(t));
    TimesSquareLessOne(t);
  }

  lemma GroupExcess(s: seq<real>, i: nat, j: nat)
    requires TieGroup(s, i, j)
    ensures Sum(s[..j + 1], ExcessIn(s)) == Sum(s[..i], ExcessIn(s))
                                            + CubeTerm((j - i + 1) as real)
  {
    assert s[..j + 1] == s[..i] + s[i..j + 1];
    SumAppend(s[..i], s[i..j + 1], ExcessIn(s));
    GroupRank(s, i, j);
    EqualExcess(s[i..j + 1], s, (j - i + 1) as real);
  }

  /** The tie groups of the ascending `s`: from `i`, the largest `j` the inner loop reaches closes a group. */
  lemma GroupFound(s: seq<real>, i: nat, j: nat)
    requires Ascending(s) && i <= j < |s|
    requires forall k | i <= k <= j :: s[k] == s[i]
    requires j + 1 < |s| ==> s[j + 1] != s[i]
    requires i > 0 ==> s[i - 1] != s[i]
    ensures TieGroup(s, i, j)
  {
    forall k | 0 <= k < i ensures s[k] < s[i] {
      assert s[k] <= s[i - 1] <= s[i];
    }
    forall k | j < k < |s| ensures s[k] > s[i] {
      assert s[i] <= s[j + 1] <= s[k];
    }
  }

  lemma SortedPairs(combined: seq<Pair>)
    ensures Sorting.Sorted(Sorting.SortBy(combined, ByValue), ByValue)
    ensures Ascending(Values(Sorting.SortBy(combined, ByValue)))
  {
    Sorting.SortBySorted(combined, ByValue);
  }

  /** The end of the tie group of equal values that starts at `i`. */
  method GroupEnd(combined: seq<Pair>, i: nat) returns (j: nat)
    requires Ascending(Values(combined)) && i < |combined|
    requires i > 0 ==> combined[i - 1].value != combined[i].value
    ensures TieGroup(Values(combined), i, j)
  {
    ghost var s := Values(combined);
    j := i;
    while j < |combined| - 1 && combined[j + 1].value == combined[i].value
      invariant i <= j < |combined|
      invariant forall k | i <= k <= j :: s[k] == s[i]
    {
      j := j + 1;
    }
    GroupFound(s, i, j);
  }

  /** Extends `ranks` up to position `end` with one and the same rank. */
  method Filled(ranks: seq<real>, rank: real, end: nat) returns (r: seq<real>)
    requires |ranks| <= end
    ensures |r| == end && r[..|ranks|] == ranks
    ensures forall k | |ranks| <= k < end :: r[k] == rank
  {
    r := ranks;
    for k := |ranks| to end
      invariant |r| == k && r[..|ranks|] == ranks
      invariant forall l | |ranks| <= l < k :: r[l] == rank
    {
      r := r + [rank];
    }
  }

  ghost predicate RanksOf(ranks: seq<real>, s: seq<real>) {
    |ranks| <= |s| && forall k | 0 <= k < |ranks| :: ranks[k] == Wins(s[k], s) + 0.5
  }

  ghost predicate TiesOf(tieCounts: seq<int>, s: seq<real>, i: nat) {
    && i <= |s|
    && (forall t | t in tieCounts :: t >= 2)
    && TieSum(tieCounts) == Sum(s[..i], ExcessIn(s))
  }

  lemma RanksExtended(s: seq<real>, ranks: seq<real>, extended: seq<real>, i: nat, j: nat)
    requires TieGroup(s, i, j) && |ranks| == i && RanksOf(ranks, s)
    requires |extended| == j + 1 && extended[..i] == ranks
    requires forall k | i <= k < j + 1 :: extended[k] == (i + j) as real / 2.0 + 1.0
    ensures RanksOf(extended, s)
  {
    GroupRank(s, i, j);
    forall k | 0 <= k < |extended| ensures extended[k] == Wins(s[k], s) + 0.5 {
      if k < i {
        assert extended[k] == extended[..i][k] == ranks[k];
      } else {
        assert s[k] == s[i];
      }
    }
  }

  /** A group of two or more is counted. */
  function WithGroup(tieCounts: seq<int>, i: nat, j: nat): seq<int> {
    if j > i then tieCounts + [j - i + 1] else tieCounts
  }

  lemma GroupCounted(s: seq<real>, tieCounts: seq<int>, i: nat, j: nat)
    requires TieGroup(s, i, j)
    requires TiesOf(tieCounts, s, i)
    ensures TiesOf(WithGroup(tieCounts, i, j), s, j + 1)
  {
    GroupExcess(s, i, j);
    if j > i {
      assert (tieCounts + [j - i + 1])[..|tieCounts|] == tieCounts;
    }
  }

  /** The first `i` values, whole groups all, are ranked and their groups counted. */
  ghost predicate Ranked(combined: seq<Pair>, i: nat, ranks: seq<real>, tieCounts: seq<int>) {
    && i <= |combined| && |ranks| == i
    && (0 < i < |combined| ==> combined[i - 1].value != combined[i].value)
    && RanksOf(ranks, Values(combined)) && TiesOf(tieCounts, Values(combined), i)
  }

  /** The ranks of one more group of equal values. */
  method RankGroup(combined: seq<Pair>, i: nat, ranks: seq<real>, tieCounts: seq<int>)
    returns (j: nat, ranks': seq<real>, tieCounts': seq<int>)
    requires Ascending(Values(combined)) && i < |combined| && Ranked(combined, i, ranks, tieCounts)
    ensures i <= j < |combined| && Ranked(combined, j + 1, ranks', tieCounts')
  {
    ghost var s := Values(combined);
    j := GroupEnd(combined, i);
    var avgRank := (i + j) as real / 2.0 + 1.0;
    ranks' := Filled(ranks, avgRank, j + 1);
    RanksExtended(s, ranks, ranks', i, j);
    GroupCounted(s, tieCounts, i, j);
    tieCounts' := tieCounts;
    if j > i {
      tieCounts' := tieCounts + [j - i + 1];
    }
  }

  lemma NothingRanked(combined: seq<Pair>)
    ensures Ranked(combined, 0, [], [])
  {
    assert Values(combined)[..0] == [];
  }

  /** The averaged ranks of the sorted pairs, and the sizes of the groups of two or more. */
  method AverageRanks(combined: seq<Pair>) returns (ranks: seq<real>, tieCounts: seq<int>)
    requires Ascending(Values(combined))
    ensures Ranked(combined, |combined|, ranks, tieCounts)
  {
    ranks, tieCounts := [], [];
    var i := 0;
    NothingRanked(combined);
    while i < |combined|
      invariant 0 <= i <= |combined|
      invariant Ranked(combined, i, ranks, tieCounts)
    {
      var j;
      j, ranks, tieCounts := RankGroup(combined, i, ranks, tieCounts);
      i := j + 1;
    }
  }

  /** R1: the ranks of the first sample's elements, added up in sorted order. */
  method FirstRankSum(combined: seq<Pair>, ranks: seq<real>) returns (r1: real)
    requires |ranks| == |combined| && RanksOf(ranks, Values(combined))
    ensures r1 == Sum(combined, RankTerm(Values(combined)))
  {
    ghost var s := Values(combined);
    r1 := 0.0;
    for k := 0 to |combined|
      invariant r1 == Sum(combined[..k], RankTerm(s))
    {
      assert combined[..k + 1] == combined[..k] + [combined[k]];
      SumAppend(combined[..k], [combined[k]], RankTerm(s));
      if combined[k].group == 0 {
        r1 := r1 + ranks[k];
      }
    }
    assert combined[..|combined|] == combined;
  }

  method AddTies(tieCounts: seq<int>) returns (tieSum: real)
    ensures tieSum == TieSum(tieCounts)
  {
    tieSum := 0.0;
    for i := 0 to |tieCounts|
      invariant tieSum == TieSum(tieCounts[..i])
    {
      assert tieCounts[..i + 1][..i] == tieCounts[..i];
      tieSum := tieSum + CubeTerm(tieCounts[i] as real);
    }
    assert tieCounts[..|tieCounts|] == tieCounts;
  }

  lemma TieExcessPermutation(s: seq<real>, t: seq<real>)
    requires multiset(s) == multiset(t)
    ensures TieExcess(s) == TieExcess(t)
  {
    var zero := Constant<real>(0.0);
    forall x | x in s ensures ExcessIn(s)(x) == ExcessIn(t)(x) + zero(x) {
      SumPermutation(s, t, EqualTo(x));
    }
    SumPointwise(s, ExcessIn(t), zero, ExcessIn(s));
    SumConstant(s, zero, 0.0);
    SumPermutation(s, t, ExcessIn(t));
  }

  /** U1 from the rank sum, and U2 as what is left of the pairs. */
  lemma FromRankSum(a: seq<real>, b: seq<real>, arranged: seq<Pair>, u1: real)
    requires multiset(arranged) == multiset(Combined(a, b))
    requires u1 == Sum(arranged, RankTerm(Values(arranged))) - (|a| * (|a| + 1)) as real / 2.0
    ensures u1 == Pairwise(a, b)
    ensures |a| as real * |b| as real - u1 == Pairwise(b, a)
    ensures TieExcess(Values(arranged)) == TieExcess(a + b)
  {
    RankSumIsPairwise(a, b, arranged);
    TriangleClosed(|a|);
    PairwiseComplement(a, b);
    SameValues(a, b, arranged);
    TieExcessPermutation(Values(arranged), a + b);
  }

  /** The rank sum of the first sample and the tie sum of the combined one. */
  method SumRanks(combined: seq<Pair>) returns (r1: real, tieSum: real)
    requires Ascending(Values(combined))
    ensures r1 == Sum(combined, RankTerm(Values(combined)))
    ensures tieSum == TieExcess(Values(combined))
  {
    var ranks, tieCounts := AverageRanks(combined);
    r1 := FirstRankSum(combined, ranks);
    tieSum := AddTies(tieCounts);
    assert Values(combined)[..|combined|] == Values(combined);
  }

  /** The sorted, ranked half of the test. */
  method RankSums(a: seq<real>, b: seq<real>) returns (u1: real, tieSum: real)
    ensures u1 == Pairwise(a, b) && |a| as real * |b| as real - u1 == Pairwise(b, a)
    ensures tieSum == TieExcess(a + b)
  {
    SortedPairs(Combined(a, b));
    var combined := Sorting.SortBy(Combined(a, b), ByValue);
    var r1;
    r1, tieSum := SumRanks(combined);
    u1 := r1 - (|a| * (|a| + 1)) as real / 2.0;
    FromRankSum(a, b, combined, u1);
  }

  /** The whole test. `sqrt` and `normalCdf` are the numerical parts left open. */
  method MannWhitneyU(a: seq<real>, b: seq<real>, sqrt: real -> real, normalCdf: real -> real) returns (r: Test)
    ensures r.u1 == Pairwise(a, b)
    ensures r.u2 == Pairwise(b, a)
    ensures r.z == ZScore(Pairwise(a, b), |a|, |b|, TieExcess(a + b), sqrt)
    ensures r.pValue == 2.0 * (1.0 - normalCdf(Abs(r.z)))
  {
    var u1, tieSum := RankSums(a, b);
    var u2 := |a| as real * |b| as real - u1;
    var z := ZScore(u1, |a|, |b|, tieSum, sqrt);
    r := Test(u1, u2, 2.0 * (1.0 - normalCdf(Abs(z))), z);
  }

  lemma SqrtPositive(m: Math, x: real)
    requires m.Lawful() && x >= 0.0
    ensures m.Sqrt(x) > 0.0 <==> x != 0.0
  {
    var q := m.Sqrt(x);
    assert m.SqrtLaw(x);
    if q > 0.0 {
      ProductGrows(0.0, q);
      assert x > 0.0;
    } else {
      assert q == 0.0 && q * q == 0.0;
    }
  }

  /** Without a lawful square root nothing is known of sigma; with one, z falls back to 0 exactly when it must. */
  lemma SigmaPositive(a: seq<real>, b: seq<real>, m: Math)
    requires m.Lawful() && a != [] && b != []
    ensures m.Sqrt(Radicand(|a|, |b|, TieExcess(a + b))) > 0.0 <==> !AllEqual(a + b)
  {
    RadicandSign(a, b);
    SqrtPositive(m, Radicand(|a|, |b|, TieExcess(a + b)));
  }

  lemma RadicandCleared(c: real, q: real, t: real, n: real, d: real)
    requires q * d == t
    ensures (c / 12.0) * ((n + 1.0) - q) * 12.0 * d == c * ((n + 1.0) * d - t)
  {
    var e := (n + 1.0) - q;
    assert e * d == (n + 1.0) * d - t;
    assert (c / 12.0) * e * 12.0 == c * e;
    assert (c * e) * d == c * (e * d);
  }

  /** The variance of the statistic under ties, with all denominators multiplied out. */
  ghost predicate IsVariance(v: real, n1: nat, n2: nat, tieExcess: real) {
    var n := (n1 + n2) as real;
    v * 12.0 * (n * (n - 1.0)) == (n1 as real * n2 as real) * ((n + 1.0) * (n * (n - 1.0)) - tieExcess)
  }

  lemma RadicandIsVariance(n1: nat, n2: nat, tieExcess: real)
    requires n1 + n2 > 1
    ensures IsVariance(Radicand(n1, n2, tieExcess), n1, n2, tieExcess)
  {
    var n := (n1 + n2) as real;
    var d := n * (n - 1.0);
    assert d > 0.0 by { ScaleLess(0.0, n - 1.0, n); }
    var q := tieExcess / d;
    assert q * d == tieExcess;
    RadicandCleared(n1 as real * n2 as real, q, tieExcess, n, d);
  }

  /** How far two complementary statistics are from their common mean. */
  lemma Deviation(u1: real, u2: real, pairs: real)
    requires u1 + u2 == pairs
    ensures Abs(u1 - pairs / 2.0) == Abs(u1 - u2) / 2.0
  {
  }

  lemma Quotient(x: real, sigma: real)
    requires sigma > 0.0
    ensures x / sigma * sigma == x
  {
  }

  lemma ZOf(u1: real, n1: nat, n2: nat, tieExcess: real, sqrt: real -> real, sigma: real)
    requires n1 + n2 > 1 && sigma == sqrt(Radicand(n1, n2, tieExcess))
    ensures var z := ZScore(u1, n1, n2, tieExcess, sqrt);
            if sigma > 0.0 then Scaled(z, sigma) == Abs(u1 - n1 as real * n2 as real / 2.0) - 0.5 else z == 0.0
  {
    if sigma > 0.0 {
      Quotient(Abs(u1 - n1 as real * n2 as real / 2.0) - 0.5, sigma);
    }
  }

  /**
   `sigma` is the root of the variance, and `z` half the difference of the statistics, less one half, in units
   of it.
   */
  ghost predicate IsStandardized(a: seq<real>, b: seq<real>, z: real, sigma: real) {
    && sigma > 0.0 && IsVariance(sigma * sigma, |a|, |b|, TieExcess(a + b))
    && Scaled(z, sigma) == Abs(Pairwise(a, b) - Pairwise(b, a)) / 2.0 - 0.5
  }

  lemma RootIsVariance(m: Math, v: real, n1: nat, n2: nat, tieExcess: real)
    requires m.Lawful() && v >= 0.0 && IsVariance(v, n1, n2, tieExcess)
    ensures IsVariance(m.Sqrt(v) * m.Sqrt(v), n1, n2, tieExcess)
  {
    assert m.SqrtLaw(v);
  }

  lemma SigmaSquared(a: seq<real>, b: seq<real>, m: Math, v: real)
    requires m.Lawful() && a != [] && b != [] && v == Radicand(|a|, |b|, TieExcess(a + b))
    ensures IsVariance(m.Sqrt(v) * m.Sqrt(v), |a|, |b|, TieExcess(a + b)) && (m.Sqrt(v) > 0.0 <==> !AllEqual(a + b))
  {
    RadicandSign(a, b);
    SigmaPositive(a, b, m);
    RadicandIsVariance(|a|, |b|, TieExcess(a + b));
    RootIsVariance(m, v, |a|, |b|, TieExcess(a + b));
  }

  lemma ZInUnits(u1: real, u2: real, n1: nat, n2: nat, tieExcess: real, sqrt: real -> real, sigma: real)
    requires n1 + n2 > 1 && sigma == sqrt(Radicand(n1, n2, tieExcess)) && u1 + u2 == n1 as real * n2 as real
    ensures var z := ZScore(u1, n1, n2, tieExcess, sqrt);
            if sigma > 0.0 then Scaled(z, sigma) == Abs(u1 - u2) / 2.0 - 0.5 else z == 0.0
  {
    Deviation(u1, u2, n1 as real * n2 as real);
    ZOf(u1, n1, n2, tieExcess, sqrt, sigma);
  }

  lemma StandardizedFrom(a: seq<real>, b: seq<real>, z: real, sigma: real)
    requires sigma > 0.0 && IsVariance(sigma * sigma, |a|, |b|, TieExcess(a + b))
    requires Scaled(z, sigma) == Abs(Pairwise(a, b) - Pairwise(b, a)) / 2.0 - 0.5
    ensures exists sigma' :: IsStandardized(a, b, z, sigma')
  {
    assert IsStandardized(a, b, z, sigma);
  }

  lemma ZDeviates(a: seq<real>, b: seq<real>, m: Math, v: real, z: real)
    requires a != [] && b != [] && v == Radicand(|a|, |b|, TieExcess(a + b))
    requires z == ZScore(Pairwise(a, b), |a|, |b|, TieExcess(a + b), m.sqrt)
    ensures if m.Sqrt(v) > 0.0 then Scaled(z, m.Sqrt(v)) == Abs(Pairwise(a, b) - Pairwise(b, a)) / 2.0 - 0.5
            else z == 0.0
  {
    PairwiseComplement(a, b);
    ZInUnits(Pairwise(a, b), Pairwise(b, a), |a|, |b|, TieExcess(a + b), m.sqrt, m.Sqrt(v));
  }

  /** Of two non-empty samples that are not all one value z is the standardized statistic; otherwise it is 0. */
  lemma ZStandardized(a: seq<real>, b: seq<real>, m: Math, z: real)
    requires m.Lawful() && a != [] && b != []
    requires z == ZScore(Pairwise(a, b), |a|, |b|, TieExcess(a + b), m.sqrt)
    ensures if AllEqual(a + b) then z == 0.0 else exists sigma :: IsStandardized(a, b, z, sigma)
  {
    var v := Radicand(|a|, |b|, TieExcess(a + b));
    SigmaSquared(a, b, m, v);
    ZDeviates(a, b, m, v, z);
    if !AllEqual(a + b) {
      StandardizedFrom(a, b, z, m.Sqrt(v));
    }
  }

  datatype Delta = Undefined | Delta(value: real)

  method CliffsDelta(a: seq<real>, b: seq<real>) returns (r: Delta)
    ensures r == if |a| == 0 || |b| == 0 then Undefined
                 else Delta(Dominance(a, b) / (|a| as real * |b| as real))
  {
    var dominant := 0.0;
    for i := 0 to |a|
      invariant dominant == Sum(a[..i], DominanceAgainst(b))
    {
      assert a[..i + 1] == a[..i] + [a[i]];
      SumAppend(a[..i], [a[i]], DominanceAgainst(b));
      var before := dominant;
      for j := 0 to |b|
        invariant dominant == before + Sum(b[..j], SignAgainst(a[i]))
      {
        assert b[..j + 1] == b[..j] + [b[j]];
        SumAppend(b[..j], [b[j]], SignAgainst(a[i]));
        if a[i] > b[j] {
          dominant := dominant + 1.0;
        } else if a[i] < b[j] {
          dominant := dominant - 1.0;
        }
      }
      assert b[..|b|] == b;
    }
    assert a[..|a|] == a;
    r := if |a| == 0 || |b| == 0 then Undefined else Delta(dominant / (|a| as real * |b| as real));
  }

  lemma {:induction false} RowDominance(x: real, b: seq<real>)
    ensures Sum(b, SignAgainst(x)) == 2.0 * Wins(x, b) - |b| as real
  {
    if b != [] {
      RowDominance(x, b[1..]);
    }
  }

  lemma {:induction false} DominanceTwice(a: seq<real>, b: seq<real>)
    ensures Dominance(a, b) == 2.0 * Pairwise(a, b) - |a| as real * |b| as real
  {
    if a != [] {
      DominanceTwice(a[1..], b);
      RowDominance(a[0], b);
      assert |a| as real * |b| as real == |a[1..]| as real * |b| as real + |b| as real;
    }
  }

  /** Cliff's delta is the difference of the two rank statistics over the number of pairs. */
  lemma DominanceIsDifference(a: seq<real>, b: seq<real>)
    ensures Dominance(a, b) == Pairwise(a, b) - Pairwise(b, a)
  {
    DominanceTwice(a, b);
    PairwiseComplement(a, b);
  }
}
