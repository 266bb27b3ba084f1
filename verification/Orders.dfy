/** Total orders and the sort the repository takes from Go's `sort` package.

    `sort.Slice` and `sort.Strings` are library code.  `SortBy` stands for them: what
    callers rely on is that the result is a permutation in order, and
    `StrictlySortedUnique` shows that for distinct elements this leaves no choice, so
    every correct sorting algorithm returns the same sequence. */
module Orders {

  ghost predicate StrictOrder<T(!new)>(less: (T, T) -> bool) {
    && (forall x :: !less(x, x))
    && (forall x, y, z :: less(x, y) && less(y, z) ==> less(x, z))
  }

  /** Any two elements at different places can be compared. */
  ghost predicate Comparable<T>(s: seq<T>, less: (T, T) -> bool) {
    forall i, j :: 0 <= i < j < |s| ==> less(s[i], s[j]) || less(s[j], s[i])
  }

  ghost predicate StrictTotalOrder<T(!new)>(less: (T, T) -> bool) {
    StrictOrder(less) && forall x, y :: x != y ==> less(x, y) || less(y, x)
  }

  ghost predicate StrictlySorted<T>(s: seq<T>, less: (T, T) -> bool) {
    forall i, j :: 0 <= i < j < |s| ==> less(s[i], s[j])
  }

  ghost predicate Distinct<T>(s: seq<T>) {
    forall i, j :: 0 <= i < j < |s| ==> s[i] != s[j]
  }

  /** Puts `x` before the first element that it precedes. */
  function Insert<T>(s: seq<T>, x: T, less: (T, T) -> bool): (r: seq<T>)
    ensures multiset(r) == multiset(s) + multiset{x}
  {
    if s == [] then [x]
    else if less(x, s[0]) then [x] + s
    else
      assert s == [s[0]] + s[1..];
      [s[0]] + Insert(s[1..], x, less)
  }

  function SortBy<T>(s: seq<T>, less: (T, T) -> bool): (r: seq<T>)
    ensures multiset(r) == multiset(s)
  {
    if s == [] then [] else
      assert s == s[..|s| - 1] + [s[|s| - 1]];
      Insert(SortBy(s[..|s| - 1], less), s[|s| - 1], less)
  }

  lemma {:induction false} InsertSorted<T(!new)>(s: seq<T>, x: T, less: (T, T) -> bool)
    requires StrictOrder(less) && StrictlySorted(s, less)
    requires forall y :: y in s ==> less(x, y) || less(y, x)
    ensures StrictlySorted(Insert(s, x, less), less)
  {
    if s != [] && !less(x, s[0]) {
      InsertSorted(s[1..], x, less);
      var r := Insert(s[1..], x, less);
      forall k | 0 <= k < |r| ensures less(s[0], r[k]) {
        assert r[k] in multiset(r);
        assert r[k] == x || r[k] in s[1..];
      }
    }
  }

  lemma ComparableWithLast<T(!new)>(s: seq<T>, less: (T, T) -> bool, y: T)
    requires s != [] && Comparable(s, less) && y in s[..|s| - 1]
    ensures less(s[|s| - 1], y) || less(y, s[|s| - 1])
  {
    var i :| 0 <= i < |s| - 1 && s[i] == y;
    assert less(s[i], s[|s| - 1]) || less(s[|s| - 1], s[i]);
  }

  lemma {:induction false} SortBySorted<T(!new)>(s: seq<T>, less: (T, T) -> bool)
    requires StrictOrder(less) && Comparable(s, less)
    ensures StrictlySorted(SortBy(s, less), less)
  {
    if s != [] {
      var n := |s| - 1;
      SortBySorted(s[..n], less);
      forall y | y in SortBy(s[..n], less) ensures less(s[n], y) || less(y, s[n]) {
        assert y in multiset(SortBy(s[..n], less)) && y in multiset(s[..n]);
        ComparableWithLast(s, less, y);
      }
      InsertSorted(SortBy(s[..n], less), s[n], less);
    }
  }

  /** A strictly sorted sequence is determined by its elements. */
  lemma {:induction false} StrictlySortedUnique<T(!new)>(s: seq<T>, t: seq<T>, less: (T, T) -> bool)
    requires StrictOrder(less)
    requires StrictlySorted(s, less) && StrictlySorted(t, less)
    requires forall x :: x in s <==> x in t
    ensures s == t
  {
    assert s != [] ==> s[0] in s;
    assert t != [] ==> t[0] in t;
    if s != [] && t != [] {
      assert s[0] in t && t[0] in s;
      assert s[0] == t[0];
      forall x ensures x in s[1..] <==> x in t[1..] {
        assert x in s <==> x == s[0] || x in s[1..];
        assert x in t <==> x == t[0] || x in t[1..];
      }
      StrictlySortedUnique(s[1..], t[1..], less);
    }
  }

  // ---- the two orders the router uses ----

  predicate LexLess(a: seq<int>, b: seq<int>) {
    b != [] && (a == [] || a[0] < b[0] || (a[0] == b[0] && LexLess(a[1..], b[1..])))
  }

  /** Shorter first, then lexicographic. */
  predicate ShortlexLess(a: seq<int>, b: seq<int>) {
    |a| < |b| || (|a| == |b| && LexLess(a, b))
  }

  /** The first difference decides, and a proper prefix comes first. */
  lemma {:induction false} LexFirstDifference(a: seq<int>, b: seq<int>) returns (m: nat)
    requires LexLess(a, b)
    ensures m <= |a| && m < |b| && a[..m] == b[..m] && (m == |a| || a[m] < b[m])
  {
    if a == [] || a[0] < b[0] {
      m := 0;
    } else {
      m := LexFirstDifference(a[1..], b[1..]);
      assert a[..m + 1] == [a[0]] + a[1..][..m] && b[..m + 1] == [b[0]] + b[1..][..m];
      m := m + 1;
    }
  }

  /** In a list in shortlex order the shorter come first, and of equally long ones the one with
      the smaller number at the first difference. */
  lemma {:induction false} ShortlexFirstDifference(a: seq<int>, b: seq<int>)
    requires ShortlexLess(a, b)
    ensures |a| <= |b|
    ensures |a| == |b| ==> exists m :: 0 <= m < |a| && a[..m] == b[..m] && a[m] < b[m]
  {
    if |a| == |b| { var m := LexFirstDifference(a, b); }
  }

  lemma {:induction false} LexTransitive(a: seq<int>, b: seq<int>, c: seq<int>)
    requires LexLess(a, b) && LexLess(b, c)
    ensures LexLess(a, c)
  {
    if a != [] && a[0] == b[0] == c[0] { LexTransitive(a[1..], b[1..], c[1..]); }
  }

  lemma {:induction false} LexIrreflexive(a: seq<int>)
    ensures !LexLess(a, a)
  {
    if a != [] { LexIrreflexive(a[1..]); }
  }

  lemma {:induction false} LexTotal(a: seq<int>, b: seq<int>)
    ensures a == b || LexLess(a, b) || LexLess(b, a)
  {
    if a != [] && b != [] && a[0] == b[0] {
      LexTotal(a[1..], b[1..]);
      assert a == [a[0]] + a[1..] && b == [b[0]] + b[1..];
    }
  }

  lemma ShortlexTransitive(a: seq<int>, b: seq<int>, c: seq<int>)
    requires ShortlexLess(a, b) && ShortlexLess(b, c)
    ensures ShortlexLess(a, c)
  {
    if |a| == |b| == |c| { LexTransitive(a, b, c); }
  }

  lemma ShortlexTotal(a: seq<int>, b: seq<int>)
    ensures a == b || ShortlexLess(a, b) || ShortlexLess(b, a)
  {
    LexTotal(a, b);
  }

  lemma ShortlexIsOrder()
    ensures StrictTotalOrder(ShortlexLess)
  {
    forall x ensures !ShortlexLess(x, x) { LexIrreflexive(x); }
    forall x, y, z | ShortlexLess(x, y) && ShortlexLess(y, z) ensures ShortlexLess(x, z) {
      ShortlexTransitive(x, y, z);
    }
    forall x, y | x != y ensures ShortlexLess(x, y) || ShortlexLess(y, x) { ShortlexTotal(x, y); }
  }

  predicate ShortlexSorted(s: seq<seq<int>>) {
    forall i, j :: 0 <= i < j < |s| ==> ShortlexLess(s[i], s[j])
  }

  lemma ShortlexSortedUnique(s: seq<seq<int>>, t: seq<seq<int>>)
    requires ShortlexSorted(s) && ShortlexSorted(t)
    requires forall x :: x in s <==> x in t
    ensures s == t
  {
    ShortlexIsOrder();
    StrictlySortedUnique(s, t, ShortlexLess);
  }

  function Codes(s: string): (r: seq<int>)
    ensures |r| == |s| && forall i :: 0 <= i < |s| ==> r[i] == s[i] as int
  {
    seq(|s|, i requires 0 <= i < |s| => s[i] as int)
  }

  /** Go compares strings byte by byte; on valid UTF-8 that is code point order. */
  predicate StringLess(a: string, b: string) {
    LexLess(Codes(a), Codes(b))
  }

  /** Of two strings the first has the smaller character at the first difference, or is a proper
      prefix of the second. */
  lemma {:induction false} StringFirstDifference(a: string, b: string)
    requires StringLess(a, b)
    ensures exists m :: 0 <= m <= |a| && m < |b| && a[..m] == b[..m] && (m == |a| || a[m] < b[m])
  {
    var m := LexFirstDifference(Codes(a), Codes(b));
    assert a[..m] == b[..m] by {
      forall i | 0 <= i < m ensures a[i] == b[i] {
        assert Codes(a)[..m][i] == Codes(b)[..m][i];
        assert Codes(a)[i] == a[i] as int && Codes(b)[i] == b[i] as int;
      }
    }
    if m < |a| { assert Codes(a)[m] == a[m] as int && Codes(b)[m] == b[m] as int; }
  }

  lemma CodesInjective(a: string, b: string)
    ensures Codes(a) == Codes(b) ==> a == b
  {
    if a != b && |a| == |b| {
      var i :| 0 <= i < |a| && a[i] != b[i];
      assert Codes(a)[i] != Codes(b)[i];
    }
  }

  lemma StringIsOrder()
    ensures StrictTotalOrder(StringLess)
  {
    forall x ensures !StringLess(x, x) { LexIrreflexive(Codes(x)); }
    forall x, y, z | StringLess(x, y) && StringLess(y, z) ensures StringLess(x, z) {
      LexTransitive(Codes(x), Codes(y), Codes(z));
    }
    forall x, y | x != y ensures StringLess(x, y) || StringLess(y, x) {
      CodesInjective(x, y);
      LexTotal(Codes(x), Codes(y));
    }
  }
}
