/**
 Sorting by a comparison, as the repository's calls to `Array.prototype.sort` do it, and the
 code-unit order it uses on strings.
 */
module Sorting {

  /** `le` is total and transitive on the elements of `s`. */
  ghost predicate TotalOn<T>(le: (T, T) -> bool, s: seq<T>) {
    && (forall x, y | x in s && y in s :: le(x, y) || le(y, x))
    && (forall x, y, z | x in s && y in s && z in s :: le(x, y) && le(y, z) ==> le(x, z))
  }

  ghost predicate Sorted<T>(s: seq<T>, le: (T, T) -> bool) {
    forall i, j | 0 <= i < j < |s| :: le(s[i], s[j])
  }

  ghost predicate Distinct<T>(s: seq<T>) {
    forall i, j | 0 <= i < j < |s| :: s[i] != s[j]
  }

  function Insert<T>(x: T, s: seq<T>, le: (T, T) -> bool): (r: seq<T>)
    ensures multiset(r) == multiset{x} + multiset(s)
  {
    if s == [] || le(x, s[0]) then [x] + s
    else
      assert s == [s[0]] + s[1..];
      [s[0]] + Insert(x, s[1..], le)
  }

  /** The stable sort of `s`: an element goes before those it compares equal to and that came after it. */
  function SortBy<T>(s: seq<T>, le: (T, T) -> bool): (r: seq<T>)
    ensures multiset(r) == multiset(s)
    ensures |r| == |s|
  {
    if s == [] then []
    else
      assert s == [s[0]] + s[1..];
      var r := Insert(s[0], SortBy(s[1..], le), le);
      assert |multiset(r)| == |multiset(s)|;
      r
  }

  lemma SameElements<T>(s: seq<T>, t: seq<T>)
    requires multiset(s) == multiset(t)
    ensures forall x :: x in s <==> x in t
    ensures |s| == |t|
  {
    forall x ensures x in s <==> x in t {
      assert x in multiset(s) <==> x in multiset(t);
    }
    assert |multiset(s)| == |multiset(t)|;
  }

  lemma PrefixGrows<T>(s: seq<T>, k: nat)
    requires k < |s|
    ensures s[..k + 1] == s[..k] + [s[k]]
    ensures s[..k + 1][..k] == s[..k]
  {
  }

  /** The first element of `s` occurs in any rearrangement `t`; taking it out leaves a rearrangement of the rest. */
  lemma TakeOut<T>(s: seq<T>, t: seq<T>) returns (i: nat)
    requires multiset(s) == multiset(t) && s != []
    ensures i < |t| && t[i] == s[0]
    ensures t == t[..i] + ([s[0]] + t[i + 1..])
    ensures multiset(t[..i] + t[i + 1..]) == multiset(s[1..])
  {
    SameElements(s, t);
    assert s[0] in t;
    i :| 0 <= i < |t| && t[i] == s[0];
    assert t == t[..i] + ([t[i]] + t[i + 1..]);
    assert s == [s[0]] + s[1..];
    assert multiset(t[..i] + t[i + 1..]) == multiset(t) - multiset{s[0]};
    assert multiset(s[1..]) == multiset(s) - multiset{s[0]};
  }

  /** Two lists are rearrangements of each other if what is left without an element of both is. */
  lemma PutBack<T>(s: seq<T>, t: seq<T>, i: nat)
    requires s != [] && i < |t| && s[0] == t[i]
    requires multiset(s[1..]) == multiset(t[..i] + t[i + 1..])
    ensures multiset(s) == multiset(t)
  {
    assert s == [s[0]] + s[1..];
    assert t == t[..i] + ([t[i]] + t[i + 1..]);
  }

  /** Mapping the elements of a rearrangement gives a rearrangement. */
  lemma {:induction false} MapPermuted<S, T>(s: seq<S>, t: seq<S>, fs: seq<T>, ft: seq<T>, f: S -> T)
    requires multiset(s) == multiset(t)
    requires |fs| == |s| && forall k | 0 <= k < |s| :: fs[k] == f(s[k])
    requires |ft| == |t| && forall k | 0 <= k < |t| :: ft[k] == f(t[k])
    ensures multiset(fs) == multiset(ft)
    decreases |s|
  {
    if s == [] {
      SameElements(s, t);
    } else {
      var i := TakeOut(s, t);
      MapPermuted(s[1..], t[..i] + t[i + 1..], fs[1..], ft[..i] + ft[i + 1..], f);
      PutBack(fs, ft, i);
    }
  }

  /** Putting a smaller element in front keeps the order. */
  lemma SortedCons<T>(x: T, s: seq<T>, le: (T, T) -> bool)
    requires Sorted(s, le) && forall y | y in s :: le(x, y)
    ensures Sorted([x] + s, le)
  {
    var r := [x] + s;
    forall i, j | 0 <= i < j < |r| ensures le(r[i], r[j]) {
      assert r[j] == s[j - 1] && s[j - 1] in s;
      if i > 0 {
        assert r[i] == s[i - 1];
      }
    }
  }

  lemma HeadIsLeast<T>(s: seq<T>, le: (T, T) -> bool)
    requires s != [] && Sorted(s, le)
    ensures forall y | y in s[1..] :: le(s[0], y)
  {
    forall y | y in s[1..] ensures le(s[0], y) {
      var k :| 0 <= k < |s[1..]| && s[1..][k] == y;
      assert s[k + 1] == y;
    }
  }

  lemma {:induction false} InsertSorted<T>(x: T, s: seq<T>, le: (T, T) -> bool)
    requires TotalOn(le, [x] + s)
    requires Sorted(s, le)
    ensures Sorted(Insert(x, s, le), le)
  {
    assert x in [x] + s && forall y | y in s :: y in [x] + s;
    if s != [] {
      HeadIsLeast(s, le);
      assert s[0] in s && s == [s[0]] + s[1..];
      if le(x, s[0]) {
        SortedCons(x, s, le);
      } else {
        assert forall y | y in [x] + s[1..] :: y in [x] + s;
        InsertSorted(x, s[1..], le);
        var r := Insert(x, s[1..], le);
        forall y | y in r ensures le(s[0], y) {
          assert y in multiset(r);
        }
        SortedCons(s[0], r, le);
      }
    }
  }

  /** The result of `SortBy` is in order whenever the comparison is a total preorder on the input. */
  lemma {:induction false} SortBySorted<T>(s: seq<T>, le: (T, T) -> bool)
    requires TotalOn(le, s)
    ensures Sorted(SortBy(s, le), le)
  {
    if s != [] {
      SortBySorted(s[1..], le);
      var t := SortBy(s[1..], le);
      SameElements(t, s[1..]);
      forall y | y in [s[0]] + t ensures y in s {
        assert y == s[0] || y in multiset(s[1..]);
        assert s == [s[0]] + s[1..];
      }
      InsertSorted(s[0], t, le);
    }
  }

  lemma SameTails<T>(s: seq<T>, t: seq<T>)
    requires multiset(s) == multiset(t) && s != [] && t != [] && s[0] == t[0]
    ensures multiset(s[1..]) == multiset(t[1..])
  {
    assert s == [s[0]] + s[1..] && t == [t[0]] + t[1..];
    assert multiset(s[1..]) == multiset(s) - multiset{s[0]};
    assert multiset(t[1..]) == multiset(t) - multiset{t[0]};
  }

  lemma SameHead<T>(s: seq<T>, t: seq<T>, le: (T, T) -> bool)
    requires multiset(s) == multiset(t) && s != [] && t != []
    requires Sorted(s, le) && Sorted(t, le)
    requires forall x, y | x in s && y in s :: le(x, y) && le(y, x) ==> x == y
    ensures s[0] == t[0]
  {
    SameElements(s, t);
    assert s[0] in t && t[0] in s;
    var i :| 0 <= i < |t| && t[i] == s[0];
    var j :| 0 <= j < |s| && s[j] == t[0];
  }

  /** With no two elements comparing equal both ways there is only one sorted arrangement. */
  lemma {:induction false} SortedUnique<T>(s: seq<T>, t: seq<T>, le: (T, T) -> bool)
    requires multiset(s) == multiset(t)
    requires Sorted(s, le) && Sorted(t, le)
    requires forall x, y | x in s && y in s :: le(x, y) && le(y, x) ==> x == y
    ensures s == t
  {
    SameElements(s, t);
    if s != [] {
      SameHead(s, t, le);
      SameTails(s, t);
      assert forall x | x in s[1..] :: x in s;
      SortedUnique(s[1..], t[1..], le);
      assert s == [s[0]] + s[1..] && t == [t[0]] + t[1..];
    }
  }

  lemma {:induction false} DistinctOnce<T>(s: seq<T>, x: T)
    requires Distinct(s)
    ensures multiset(s)[x] == if x in s then 1 else 0
  {
    if s != [] {
      assert s == [s[0]] + s[1..];
      DistinctOnce(s[1..], x);
      assert x in s <==> x == s[0] || x in s[1..];
      assert s[0] !in s[1..];
    }
  }

  lemma DistinctPermutation<T>(s: seq<T>, t: seq<T>)
    requires multiset(s) == multiset(t)
    requires Distinct(s)
    ensures Distinct(t)
  {
    forall i, j | 0 <= i < j < |t| ensures t[i] != t[j] {
      if t[i] == t[j] {
        assert t == t[..i] + [t[i]] + t[i + 1..j] + [t[j]] + t[j + 1..];
        assert multiset(t)[t[i]] >= 2;
        DistinctOnce(s, t[i]);
      }
    }
  }

  // ----- comparison functions

  /** A three-way comparison of strings that agrees with some total preorder, as `localeCompare` promises. */
  ghost predicate Collates(compare: (string, string) -> int) {
    && (forall a, b :: compare(a, b) < 0 <==> compare(b, a) > 0)
    && (forall a, b, c :: compare(a, b) <= 0 && compare(b, c) <= 0 ==> compare(a, c) <= 0)
  }

  /** Along two steps of a comparison the ends compare equal only if both steps do. */
  lemma CollateSteps(compare: (string, string) -> int, a: string, b: string, c: string)
    requires Collates(compare) && compare(a, b) <= 0 && compare(b, c) <= 0
    ensures compare(a, c) <= 0
    ensures compare(a, c) == 0 ==> compare(a, b) == 0 && compare(b, c) == 0
  {
    if compare(a, c) == 0 {
      assert compare(c, a) == 0;
      assert compare(b, a) <= 0 && compare(c, b) <= 0;
    }
  }

  // ----- strings

  /** `left < right` on strings: the first differing code unit decides, and a proper prefix is smaller. */
  predicate StringLess(left: string, right: string) {
    if right == "" then false
    else if left == "" then true
    else left[0] < right[0] || (left[0] == right[0] && StringLess(left[1..], right[1..]))
  }

  predicate StringLeq(left: string, right: string) {
    left == right || StringLess(left, right)
  }

  lemma {:induction false} StringIrreflexive(a: string)
    ensures !StringLess(a, a)
  {
    if a != "" {
      StringIrreflexive(a[1..]);
    }
  }

  lemma {:induction false} StringTrichotomy(a: string, b: string)
    ensures StringLess(a, b) || a == b || StringLess(b, a)
    ensures !(StringLess(a, b) && StringLess(b, a))
    ensures !StringLess(a, a)
  {
    if a != "" && b != "" {
      StringTrichotomy(a[1..], b[1..]);
      assert a == [a[0]] + a[1..] && b == [b[0]] + b[1..];
    }
    if a != "" {
      StringIrreflexive(a);
    }
  }

  lemma {:induction false} StringTransitive(a: string, b: string, c: string)
    requires StringLess(a, b) && StringLess(b, c)
    ensures StringLess(a, c)
  {
    if a != "" && a[0] == b[0] == c[0] {
      StringTransitive(a[1..], b[1..], c[1..]);
    }
  }

  /** The string order is a total order. */
  lemma StringLeqOrder()
    ensures forall a, b :: StringLeq(a, b) || StringLeq(b, a)
    ensures forall a, b :: StringLeq(a, b) && StringLeq(b, a) ==> a == b
    ensures forall a, b, c :: StringLeq(a, b) && StringLeq(b, c) ==> StringLeq(a, c)
  {
    forall a, b
      ensures StringLeq(a, b) || StringLeq(b, a)
      ensures StringLeq(a, b) && StringLeq(b, a) ==> a == b
    {
      StringTrichotomy(a, b);
    }
    forall a, b, c | StringLeq(a, b) && StringLeq(b, c) ensures StringLeq(a, c) {
      if a != b && b != c {
        StringTransitive(a, b, c);
      }
    }
  }
}
