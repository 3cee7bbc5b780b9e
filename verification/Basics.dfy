/**
  Shared vocabulary: nothing here belongs to one report.

    - optional values, and the least and greatest of two numbers
    - filtering, and what filtering keeps
    - subsequences: reading some elements of a list in order
    - the stable sort, and that there is one ascending order
    - the order JavaScript puts on strings, by UTF-16 code units, and what it comes to
 */
module Basics {

  datatype Option<+T> = None | Some(value: T)

  function Min(a: int, b: int): int { if a <= b then a else b }

  function Max(a: int, b: int): int { if a >= b then a else b }

  // ---- Filtering ---------------------------------------------------------------------------

  function Filter<T>(keep: T -> bool, s: seq<T>): seq<T> {
    if s == [] then []
    else if keep(s[0]) then [s[0]] + Filter(keep, s[1..])
    else Filter(keep, s[1..])
  }

  lemma {:induction false} FilterMembers<T(!new)>(keep: T -> bool, s: seq<T>)
    ensures forall x :: x in Filter(keep, s) <==> x in s && keep(x)
  {
    if s != [] {
      FilterMembers(keep, s[1..]);
      assert s == [s[0]] + s[1..];
    }
  }

  lemma {:induction false} FilterTwice<T>(inner: T -> bool, outer: T -> bool, both: T -> bool, s: seq<T>)
    requires forall x :: x in s ==> (both(x) <==> inner(x) && outer(x))
    ensures Filter(outer, Filter(inner, s)) == Filter(both, s)
  {
    if s != [] {
      assert s == [s[0]] + s[1..];
      FilterTwice(inner, outer, both, s[1..]);
      if inner(s[0]) {
        assert Filter(inner, s)[1..] == Filter(inner, s[1..]);
      }
    }
  }

  lemma {:induction false} FilterSame<T>(p: T -> bool, q: T -> bool, s: seq<T>)
    requires forall x :: x in s ==> (p(x) <==> q(x))
    ensures Filter(p, s) == Filter(q, s)
  {
    if s != [] {
      assert s == [s[0]] + s[1..];
      FilterSame(p, q, s[1..]);
    }
  }

  lemma {:induction false} FilterConcat<T>(keep: T -> bool, a: seq<T>, b: seq<T>)
    ensures Filter(keep, a + b) == Filter(keep, a) + Filter(keep, b)
  {
    if a == [] {
      assert a + b == b;
    } else {
      assert (a + b)[1..] == a[1..] + b;
      FilterConcat(keep, a[1..], b);
    }
  }

  lemma {:induction false} FilterAll<T>(keep: T -> bool, s: seq<T>)
    requires forall x :: x in s ==> keep(x)
    ensures Filter(keep, s) == s
  {
    if s != [] {
      assert s == [s[0]] + s[1..];
      FilterAll(keep, s[1..]);
    }
  }

  /** `indexOf`: where `needle` first occurs. */
  function IndexOf(s: string, needle: string): (r: Option<nat>)
    ensures r.Some? ==> r.value + |needle| <= |s| && needle <= s[r.value..]
  {
    if needle <= s then Some(0)
    else if s == [] then None
    else
      var r := IndexOf(s[1..], needle);
      if r.None? then None else Some(r.value + 1)
  }

  lemma SubsetSize<T>(a: set<T>, b: set<T>)
    requires a <= b
    ensures |a| <= |b| && |b - a| == |b| - |a|
  {
    assert b == a + (b - a);
  }

  // ---- Subsequences ------------------------------------------------------------------------

  /** `c` can be read off `s` in order, skipping some elements. */
  ghost predicate Subseq<T>(c: seq<T>, s: seq<T>) {
    c == [] || (s != [] && ((c[0] == s[0] && Subseq(c[1..], s[1..])) || Subseq(c, s[1..])))
  }

  lemma {:induction false} SubseqMembers<T>(c: seq<T>, s: seq<T>)
    requires Subseq(c, s)
    ensures forall x :: x in c ==> x in s
  {
    if c != [] {
      assert c == [c[0]] + c[1..];
      assert s == [s[0]] + s[1..];
      if c[0] == s[0] && Subseq(c[1..], s[1..]) {
        SubseqMembers(c[1..], s[1..]);
      } else {
        SubseqMembers(c, s[1..]);
      }
    }
  }

  /** Dropping the head of what is read keeps it readable. */
  lemma {:induction false} SubseqTail<T>(c: seq<T>, s: seq<T>)
    requires c != [] && Subseq(c, s)
    ensures Subseq(c[1..], s)
  {
    if c[0] == s[0] && Subseq(c[1..], s[1..]) {
    } else {
      SubseqTail(c, s[1..]);
    }
  }

  /** Dropping any one element of what is read keeps it readable. */
  lemma {:induction false} SubseqDrop<T>(c: seq<T>, s: seq<T>, k: nat)
    requires k < |c| && Subseq(c, s)
    ensures Subseq(c[..k] + c[k + 1..], s)
  {
    if k == 0 {
      SubseqTail(c, s);
      assert c[..0] + c[1..] == c[1..];
    } else {
      var d := c[..k] + c[k + 1..];
      if c[0] == s[0] && Subseq(c[1..], s[1..]) {
        SubseqDrop(c[1..], s[1..], k - 1);
        assert d[1..] == c[1..][..k - 1] + c[1..][k..];
      } else {
        SubseqDrop(c, s[1..], k);
      }
    }
  }

  lemma {:induction false} SubseqTake<T>(c: seq<T>, s: seq<T>, k: nat)
    requires k <= |c| && Subseq(c, s)
    ensures Subseq(c[..k], s)
    decreases |c|
  {
    if k == |c| {
      assert c[..k] == c;
    } else {
      SubseqDrop(c, s, |c| - 1);
      var d := c[..|c| - 1];
      assert d + c[|c|..] == d;
      SubseqTake(d, s, k);
      assert d[..k] == c[..k];
    }
  }

  /** Reading from a filtered list is reading kept elements from the whole list. */
  lemma {:induction false} SubseqFilter<T>(c: seq<T>, keep: T -> bool, s: seq<T>)
    ensures Subseq(c, Filter(keep, s)) <==> Subseq(c, s) && forall x :: x in c ==> keep(x)
  {
    if s != [] {
      SubseqFilter(c, keep, s[1..]);
      if c != [] {
        assert c == [c[0]] + c[1..];
        SubseqFilter(c[1..], keep, s[1..]);
        var f := Filter(keep, s);
        if keep(s[0]) {
          assert f[1..] == Filter(keep, s[1..]);
        } else if Subseq(c, s) && (forall x :: x in c ==> keep(x)) {
          assert c[0] in c;
          assert c[0] != s[0];
        }
      }
    } else if c != [] {
      assert !Subseq(c, s);
    }
  }

  // ---- Sorting -----------------------------------------------------------------------------

  function InsertBy<T>(less: (T, T) -> bool, x: T, s: seq<T>): seq<T> {
    if s == [] || !less(s[0], x) then [x] + s else [s[0]] + InsertBy(less, x, s[1..])
  }

  /** JavaScript's stable `sort`, for a comparator given as its "comes first" test. */
  function SortBy<T>(less: (T, T) -> bool, s: seq<T>): seq<T> {
    if s == [] then [] else InsertBy(less, s[0], SortBy(less, s[1..]))
  }

  ghost predicate AscendingBy<T(!new)>(less: (T, T) -> bool, s: seq<T>) {
    s == [] || ((forall y :: y in s[1..] ==> less(s[0], y)) && AscendingBy(less, s[1..]))
  }

  /** `less` orders any two different elements of `s`, and consistently. */
  ghost predicate OrdersAll<T(!new)>(less: (T, T) -> bool, s: seq<T>) {
    && (forall x, y {:trigger less(x, y)} :: x in s && y in s && x != y ==> less(x, y) || less(y, x))
    && (forall x, y {:trigger less(x, y)} :: x in s && y in s ==> !(less(x, y) && less(y, x)))
    && (forall x, y, z {:trigger less(x, y), less(y, z)} :: x in s && y in s && z in s && less(x, y) && less(y, z) ==> less(x, z))
  }

  ghost predicate Distinct<T(!new)>(s: seq<T>) { s == [] || (s[0] !in s[1..] && Distinct(s[1..])) }

  lemma HeadTail<T(!new)>(s: seq<T>)
    requires s != []
    ensures forall y :: y in s <==> y == s[0] || y in s[1..]
  {
    assert s == [s[0]] + s[1..];
  }

  lemma {:induction false} InsertByMembers<T(!new)>(less: (T, T) -> bool, x: T, s: seq<T>)
    ensures forall y :: y in InsertBy(less, x, s) <==> y == x || y in s
    ensures |InsertBy(less, x, s)| == |s| + 1
  {
    if s != [] && less(s[0], x) {
      HeadTail(s);
      InsertByMembers(less, x, s[1..]);
    }
  }

  lemma {:induction false} SortByMembers<T(!new)>(less: (T, T) -> bool, s: seq<T>)
    ensures forall y :: y in SortBy(less, s) <==> y in s
    ensures |SortBy(less, s)| == |s|
  {
    if s != [] {
      HeadTail(s);
      SortByMembers(less, s[1..]);
      InsertByMembers(less, s[0], SortBy(less, s[1..]));
    }
  }

  lemma {:induction false} InsertByAscending<T(!new)>(less: (T, T) -> bool, all: seq<T>, x: T, s: seq<T>)
    requires AscendingBy(less, s) && OrdersAll(less, all)
    requires x in all && x !in s && forall y :: y in s ==> y in all
    ensures AscendingBy(less, InsertBy(less, x, s))
  {
    if s == [] {
    } else if less(s[0], x) {
      HeadTail(s);
      InsertByAscending(less, all, x, s[1..]);
      InsertByMembers(less, x, s[1..]);
      var t := InsertBy(less, x, s[1..]);
      assert InsertBy(less, x, s) == [s[0]] + t;
      assert ([s[0]] + t)[1..] == t;
    } else {
      HeadTail(s);
      FirstOf(less, all, x, s);
      assert ([x] + s)[1..] == s;
    }
  }

  lemma FirstOf<T(!new)>(less: (T, T) -> bool, all: seq<T>, x: T, s: seq<T>)
    requires s != [] && AscendingBy(less, s) && OrdersAll(less, all)
    requires x in all && x !in s && forall y :: y in s ==> y in all
    requires !less(s[0], x)
    ensures forall y :: y in s ==> less(x, y)
  {
    HeadTail(s);
    assert s[0] in s && less(x, s[0]);
    forall y | y in s[1..] ensures less(x, y) {
      assert less(s[0], y) && y in all;
    }
  }

  lemma {:induction false} SortByAscending<T(!new)>(less: (T, T) -> bool, all: seq<T>, s: seq<T>)
    requires OrdersAll(less, all) && Distinct(s) && forall y :: y in s ==> y in all
    ensures AscendingBy(less, SortBy(less, s))
  {
    if s != [] {
      HeadTail(s);
      SortByAscending(less, all, s[1..]);
      var t := SortBy(less, s[1..]);
      SortByMembers(less, s[1..]);
      forall y | y in t ensures y in all {
        assert y in s[1..] && y in s;
      }
      InsertByAscending(less, all, s[0], t);
    }
  }

  lemma SameHead<T(!new)>(less: (T, T) -> bool, all: seq<T>, a: seq<T>, b: seq<T>)
    requires AscendingBy(less, a) && AscendingBy(less, b) && OrdersAll(less, all)
    requires a != [] && b != [] && a[0] in b && b[0] in a && a[0] in all && b[0] in all
    ensures a[0] == b[0] && a[0] !in a[1..] && b[0] !in b[1..]
  {
    HeadTail(a);
    HeadTail(b);
    assert !less(a[0], a[0]) && !less(b[0], b[0]);
  }

  /** There is only one way to put the same elements in ascending order. */
  lemma {:induction false} AscendingUnique<T(!new)>(less: (T, T) -> bool, all: seq<T>, a: seq<T>, b: seq<T>)
    requires AscendingBy(less, a) && AscendingBy(less, b) && OrdersAll(less, all)
    requires forall x :: x in a <==> x in b
    requires forall x :: x in a ==> x in all
    ensures a == b
  {
    assert |b| > 0 ==> b[0] in b;
    if a != [] {
      assert a[0] in a;
      HeadTail(a);
      HeadTail(b);
      SameHead(less, all, a, b);
      AscendingUnique(less, all, a[1..], b[1..]);
    }
  }

  lemma {:induction false} AscendingAt<T(!new)>(less: (T, T) -> bool, s: seq<T>, i: nat, j: nat)
    requires AscendingBy(less, s) && i < j < |s|
    ensures less(s[i], s[j])
  {
    if i == 0 {
      assert s[j] == s[1..][j - 1];
    } else {
      AscendingAt(less, s[1..], i - 1, j - 1);
    }
  }

  // ---- String order ------------------------------------------------------------------------

  /** A JavaScript string, by its UTF-16 code units (Dafny's `char` has no lone surrogates). */
  type CodeUnit = u: int | 0 <= u < 0x1_0000
  type Text = seq<CodeUnit>

  /** JavaScript's `<` on strings: code unit by code unit, a proper prefix first. */
  predicate Before(a: Text, b: Text) {
    b != [] && (a == [] || a[0] < b[0] || (a[0] == b[0] && Before(a[1..], b[1..])))
  }

  /** At the first place they differ the smaller unit comes first; if they never do, the shorter does. */
  ghost predicate DiffersAt(a: Text, b: Text, n: nat) {
    n <= |a| && n < |b| && a[..n] == b[..n] && (n == |a| || a[n] < b[n])
  }

  lemma {:induction false} BeforeIs(a: Text, b: Text)
    ensures Before(a, b) <==> exists n: nat :: DiffersAt(a, b, n)
  {
    if b != [] {
      if a == [] || a[0] < b[0] {
        assert DiffersAt(a, b, 0);
      } else if a[0] == b[0] {
        BeforeIs(a[1..], b[1..]);
        if Before(a[1..], b[1..]) {
          var n: nat :| DiffersAt(a[1..], b[1..], n);
          assert a[..n + 1] == [a[0]] + a[1..][..n] && b[..n + 1] == [b[0]] + b[1..][..n];
          assert DiffersAt(a, b, n + 1);
        }
        if exists n: nat :: DiffersAt(a, b, n) {
          var n: nat :| DiffersAt(a, b, n);
          assert a[1..][..n - 1] == a[..n][1..] && b[1..][..n - 1] == b[..n][1..];
          assert DiffersAt(a[1..], b[1..], n - 1);
        }
      } else {
        forall n: nat | 0 < n <= |a| && n < |b| ensures a[..n] != b[..n] { assert a[..n][0] == a[0] && b[..n][0] == b[0]; }
      }
    }
  }

  lemma {:induction false} BeforeTotal(a: Text, b: Text)
    ensures a == b || Before(a, b) || Before(b, a)
    ensures !(Before(a, b) && Before(b, a)) && !Before(a, a)
  {
    if a != [] && b != [] {
      BeforeTotal(a[1..], b[1..]);
      BeforeTotal(a[1..], a[1..]);
      assert a == [a[0]] + a[1..] && b == [b[0]] + b[1..];
    } else if a != [] {
      BeforeTotal(a[1..], a[1..]);
    }
  }

  lemma {:induction false} BeforeTransitive(a: Text, b: Text, c: Text)
    requires Before(a, b) && Before(b, c)
    ensures Before(a, c)
  {
    if a != [] && a[0] == b[0] && b[0] == c[0] {
      BeforeTransitive(a[1..], b[1..], c[1..]);
    }
  }
}
