/** Orders and sorting: Python's string order, and the sorted, duplicate-free
    key lists that `sorted()`, `groupby` and `pivot` produce. */
module Orders {
  import opened Calendar

  ghost predicate StrictTotalOrder<T(!new)>(lt: (T, T) -> bool) {
    && (forall x :: !lt(x, x))
    && (forall x, y, z :: lt(x, y) && lt(y, z) ==> lt(x, z))
    && (forall x, y :: x != y ==> lt(x, y) || lt(y, x))
  }

  predicate StrictlySorted<T>(s: seq<T>, lt: (T, T) -> bool) {
    forall i, j :: 0 <= i < j < |s| ==> lt(s[i], s[j])
  }

  predicate Distinct<T(==)>(s: seq<T>) {
    forall i, j :: 0 <= i < j < |s| ==> s[i] != s[j]
  }

  /** A strictly sorted sequence has no repeated element. */
  lemma SortedIsDistinct<T(!new)>(s: seq<T>, lt: (T, T) -> bool)
    requires StrictTotalOrder(lt) && StrictlySorted(s, lt)
    ensures Distinct(s)
  {
  }

  /** Inserts `x` into a strictly sorted sequence unless it is already there. */
  function InsertUnique<T(==,!new)>(s: seq<T>, x: T, lt: (T, T) -> bool): (r: seq<T>)
    requires StrictTotalOrder(lt) && StrictlySorted(s, lt)
    ensures StrictlySorted(r, lt)
    ensures forall y :: y in r <==> y in s || y == x
    ensures |r| == if x in s then |s| else |s| + 1
  {
    if s == [] then [x]
    else if x == s[0] then s
    else if lt(x, s[0]) then [x] + s
    else
      var rest := InsertUnique(s[1..], x, lt);
      assert lt(s[0], x);
      assert forall k :: 0 <= k < |rest| ==> lt(s[0], rest[k]) by {
        forall k | 0 <= k < |rest|
          ensures lt(s[0], rest[k])
        {
          if rest[k] != x {
            assert rest[k] in rest;
            assert rest[k] in s[1..];
            var j :| 0 <= j < |s[1..]| && s[1..][j] == rest[k];
            assert s[j + 1] == rest[k];
          }
        }
      }
      [s[0]] + rest
  }

  /** The distinct elements of `xs` in ascending order: `sorted(set(xs))`. */
  function SortUnique<T(==,!new)>(xs: seq<T>, lt: (T, T) -> bool): (r: seq<T>)
    requires StrictTotalOrder(lt)
    ensures StrictlySorted(r, lt)
    ensures forall y :: y in r <==> y in xs
    ensures |r| <= |xs|
  {
    if xs == [] then [] else InsertUnique(SortUnique(xs[1..], lt), xs[0], lt)
  }

  lemma SortedHeadIsLeast<T>(s: seq<T>, y: T, lt: (T, T) -> bool)
    requires StrictlySorted(s, lt) && y in s
    ensures y == s[0] || lt(s[0], y)
  {
    var k :| 0 <= k < |s| && s[k] == y;
    if k > 0 {
      assert lt(s[0], s[k]);
    }
  }

  /** A strictly sorted sequence is determined by its elements. */
  lemma SortedLastIsGreatest<T>(s: seq<T>, y: T, lt: (T, T) -> bool)
    requires StrictlySorted(s, lt) && y in s
    ensures y == s[|s| - 1] || lt(y, s[|s| - 1])
  {
    var k :| 0 <= k < |s| && s[k] == y;
    if k < |s| - 1 {
      assert lt(s[k], s[|s| - 1]);
    }
  }

  lemma {:induction false} SortedUnique<T(!new)>(a: seq<T>, b: seq<T>, lt: (T, T) -> bool)
    requires StrictTotalOrder(lt)
    requires StrictlySorted(a, lt) && StrictlySorted(b, lt)
    requires forall y :: y in a <==> y in b
    ensures a == b
  {
    assert |a| > 0 ==> a[0] in b;
    assert |b| > 0 ==> b[0] in a;
    if a != [] && b != [] {
      SortedHeadIsLeast(a, b[0], lt);
      SortedHeadIsLeast(b, a[0], lt);
      forall y
        ensures y in a[1..] <==> y in b[1..]
      {
        if y in a[1..] {
          var k :| 0 <= k < |a[1..]| && a[1..][k] == y;
          assert lt(a[0], a[k + 1]);
          assert y in b;
          var m :| 0 <= m < |b| && b[m] == y;
          assert m != 0;
          assert b[1..][m - 1] == y;
        }
        if y in b[1..] {
          var k :| 0 <= k < |b[1..]| && b[1..][k] == y;
          assert lt(b[0], b[k + 1]);
          assert y in a;
          var m :| 0 <= m < |a| && a[m] == y;
          assert m != 0;
          assert a[1..][m - 1] == y;
        }
      }
      SortedUnique(a[1..], b[1..], lt);
      assert a == [a[0]] + a[1..] && b == [b[0]] + b[1..];
    }
  }

  /** Python's `<` on strings: lexicographic by code point. */
  predicate StrLt(a: string, b: string) {
    if |a| == 0 then |b| > 0
    else if |b| == 0 then false
    else if a[0] != b[0] then a[0] < b[0]
    else StrLt(a[1..], b[1..])
  }

  lemma {:induction false} StrLtIrreflexive(a: string)
    ensures !StrLt(a, a)
  {
    if |a| > 0 {
      StrLtIrreflexive(a[1..]);
    }
  }

  lemma {:induction false} StrLtTransitive(a: string, b: string, c: string)
    requires StrLt(a, b) && StrLt(b, c)
    ensures StrLt(a, c)
  {
    if |a| > 0 && |b| > 0 && |c| > 0 && a[0] == b[0] && b[0] == c[0] {
      StrLtTransitive(a[1..], b[1..], c[1..]);
    }
  }

  lemma {:induction false} StrLtTotal(a: string, b: string)
    requires a != b
    ensures StrLt(a, b) || StrLt(b, a)
  {
    if |a| > 0 && |b| > 0 && a[0] == b[0] {
      assert a == [a[0]] + a[1..] && b == [b[0]] + b[1..];
      StrLtTotal(a[1..], b[1..]);
    }
  }

  lemma StrLtIsStrictTotalOrder()
    ensures StrictTotalOrder(StrLt)
  {
    forall x: string
      ensures !StrLt(x, x)
    {
      StrLtIrreflexive(x);
    }
    forall x: string, y: string, z: string | StrLt(x, y) && StrLt(y, z)
      ensures StrLt(x, z)
    {
      StrLtTransitive(x, y, z);
    }
    forall x: string, y: string | x != y
      ensures StrLt(x, y) || StrLt(y, x)
    {
      StrLtTotal(x, y);
    }
  }

  lemma MonthLtIsStrictTotalOrder()
    ensures StrictTotalOrder(MonthLt)
  {
  }

  /** `sorted(set(names))` for strings. */
  function SortStrings(xs: seq<string>): (r: seq<string>)
    ensures StrictlySorted(r, StrLt)
    ensures forall y :: y in r <==> y in xs
  {
    StrLtIsStrictTotalOrder();
    SortUnique(xs, StrLt)
  }

  /** Ascending distinct months. */
  function SortMonths(xs: seq<Month>): (r: seq<Month>)
    ensures StrictlySorted(r, MonthLt)
    ensures forall y :: y in r <==> y in xs
  {
    MonthLtIsStrictTotalOrder();
    SortUnique(xs, MonthLt)
  }

  /** `a` can be obtained from `b` by deleting elements, keeping the order. */
  predicate IsSubsequence<T(==)>(a: seq<T>, b: seq<T>) {
    if a == [] then true
    else if b == [] then false
    else if a[0] == b[0] then IsSubsequence(a[1..], b[1..])
    else IsSubsequence(a, b[1..])
  }

  lemma {:induction false} SkipHeadKeepsSubsequence<T>(a: seq<T>, b: seq<T>)
    requires b != [] && IsSubsequence(a, b[1..])
    ensures IsSubsequence(a, b)
    decreases |b|, 0
  {
    if a != [] && a[0] == b[0] {
      DropHeadKeepsSubsequence(a, b[1..]);
    }
  }

  lemma {:induction false} DropHeadKeepsSubsequence<T>(a: seq<T>, b: seq<T>)
    requires a != [] && IsSubsequence(a, b)
    ensures IsSubsequence(a[1..], b)
    decreases |b|, 1
  {
    if a[0] == b[0] {
      SkipHeadKeepsSubsequence(a[1..], b);
    } else {
      DropHeadKeepsSubsequence(a, b[1..]);
      SkipHeadKeepsSubsequence(a[1..], b);
    }
  }
}
