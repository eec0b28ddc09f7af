/** The two array combinators the source chains: `Array.prototype.sort`, which
    is stable from the 2019 edition of ECMA-262 onward, and `filter`.

    A comparator `cmp` of the source becomes `le(a, b) == (cmp(a, b) <= 0)`:
    "a may stay in front of b". `SortBy` inserts each element after every
    element it does not precede strictly, which is the unique stable order. */
module Sorting {

  /** `le` orders all values: any two are comparable, and it is transitive. */
  ghost predicate TotalPreorder<T(!new)>(le: (T, T) -> bool) {
    && (forall a, b :: le(a, b) || le(b, a))
    && (forall a, b, c :: le(a, b) && le(b, c) ==> le(a, c))
  }

  ghost predicate Sorted<T>(s: seq<T>, le: (T, T) -> bool) {
    forall i, j :: 0 <= i < j < |s| ==> le(s[i], s[j])
  }

  /** Inserts `x` after the leading elements that may stay in front of it. */
  function Insert<T>(x: T, s: seq<T>, le: (T, T) -> bool): (r: seq<T>)
    ensures |r| == |s| + 1
    ensures multiset(r) == multiset(s) + multiset{x}
  {
    if s == [] then [x]
    else if le(s[0], x) then
      assert s == [s[0]] + s[1..];
      [s[0]] + Insert(x, s[1..], le)
    else [x] + s
  }

  /** Stable insertion sort: the result of the source's `.sort(cmp)`. */
  function SortBy<T>(s: seq<T>, le: (T, T) -> bool): (r: seq<T>)
    ensures |r| == |s|
    ensures multiset(r) == multiset(s)
  {
    if s == [] then []
    else
      assert s == s[..|s| - 1] + [s[|s| - 1]];
      Insert(s[|s| - 1], SortBy(s[..|s| - 1], le), le)
  }

  /** `filter`: the elements satisfying `p`, in their original order. */
  function Filter<T>(s: seq<T>, p: T -> bool): (r: seq<T>)
    ensures |r| <= |s|
  {
    if s == [] then []
    else (if p(s[0]) then [s[0]] else []) + Filter(s[1..], p)
  }

  /** The elements of `s` tied with `y` under `le`, in their order in `s`. */
  function Ties<T>(s: seq<T>, le: (T, T) -> bool, y: T): seq<T> {
    if s == [] then []
    else (if le(s[0], y) && le(y, s[0]) then [s[0]] else []) + Ties(s[1..], le, y)
  }

  lemma SortedCons<T>(a: T, t: seq<T>, le: (T, T) -> bool)
    requires Sorted(t, le) && forall z :: z in t ==> le(a, z)
    ensures Sorted([a] + t, le)
  {
    var u := [a] + t;
    forall i, j | 0 <= i < j < |u|
      ensures le(u[i], u[j])
    {
      assert u[j] == t[j - 1];
      if i > 0 {
        assert u[i] == t[i - 1];
      }
    }
  }

  lemma {:induction false} InsertSorted<T(!new)>(x: T, s: seq<T>, le: (T, T) -> bool)
    requires TotalPreorder(le) && Sorted(s, le)
    ensures Sorted(Insert(x, s, le), le)
  {
    if s != [] {
      if le(s[0], x) {
        var r := Insert(x, s[1..], le);
        assert Sorted(s[1..], le);
        InsertSorted(x, s[1..], le);
        forall y | y in r
          ensures le(s[0], y)
        {
          assert y in multiset(r);
          if y != x {
            assert y in multiset(s[1..]);
            var k :| 0 <= k < |s[1..]| && s[1..][k] == y;
            assert s[k + 1] == y;
          }
        }
        SortedCons(s[0], r, le);
      } else {
        forall z | z in s
          ensures le(x, z)
        {
          var k :| 0 <= k < |s| && s[k] == z;
          if k > 0 {
            assert le(s[0], s[k]);
          }
        }
        SortedCons(x, s, le);
      }
    }
  }

  /** The sort's result is ordered by `le`. */
  lemma {:induction false} SortSorted<T(!new)>(s: seq<T>, le: (T, T) -> bool)
    requires TotalPreorder(le)
    ensures Sorted(SortBy(s, le), le)
  {
    if s != [] {
      SortSorted(s[..|s| - 1], le);
      InsertSorted(s[|s| - 1], SortBy(s[..|s| - 1], le), le);
    }
  }

  lemma {:induction false} TiesAppend<T>(a: seq<T>, b: seq<T>, le: (T, T) -> bool, y: T)
    ensures Ties(a + b, le, y) == Ties(a, le, y) + Ties(b, le, y)
  {
    if a != [] {
      assert (a + b)[0] == a[0];
      assert (a + b)[1..] == a[1..] + b;
      TiesAppend(a[1..], b, le, y);
    } else {
      assert a + b == b;
    }
  }

  lemma {:induction false} TiesNone<T>(s: seq<T>, le: (T, T) -> bool, y: T)
    requires forall z :: z in s ==> !le(z, y)
    ensures Ties(s, le, y) == []
  {
    if s != [] {
      TiesNone(s[1..], le, y);
    }
  }

  lemma TiesCons<T>(a: T, s: seq<T>, le: (T, T) -> bool, y: T)
    ensures Ties([a] + s, le, y) == (if le(a, y) && le(y, a) then [a] else []) + Ties(s, le, y)
  {
    assert ([a] + s)[0] == a;
    assert ([a] + s)[1..] == s;
  }

  lemma SplitLast<T>(s: seq<T>)
    requires s != []
    ensures s == s[..|s| - 1] + [s[|s| - 1]]
  {
  }

  /** In a sorted sequence whose head comes strictly after `x`, nothing is
      tied with anything tied with `x`. */
  lemma {:induction false} NoTiesAfter<T(!new)>(x: T, s: seq<T>, le: (T, T) -> bool, y: T)
    requires TotalPreorder(le) && Sorted(s, le)
    requires s != [] && !le(s[0], x) && le(x, y) && le(y, x)
    ensures Ties(s, le, y) == []
  {
    forall z | z in s
      ensures !le(z, y)
    {
      var k :| 0 <= k < |s| && s[k] == z;
      assert le(s[0], z);
    }
    TiesNone(s, le, y);
  }

  /** Inserting `x` appends it to its own tie class and leaves the others. */
  lemma {:induction false} InsertTies<T(!new)>(x: T, s: seq<T>, le: (T, T) -> bool, y: T)
    requires TotalPreorder(le) && Sorted(s, le)
    ensures Ties(Insert(x, s, le), le, y)
         == Ties(s, le, y) + (if le(x, y) && le(y, x) then [x] else [])
  {
    var own := if le(x, y) && le(y, x) then [x] else [];
    if s == [] {
      TiesCons(x, [], le, y);
      assert [x] == [x] + [];
    } else if le(s[0], x) {
      var head := if le(s[0], y) && le(y, s[0]) then [s[0]] else [];
      assert Sorted(s[1..], le);
      InsertTies(x, s[1..], le, y);
      TiesCons(s[0], Insert(x, s[1..], le), le, y);
      TiesCons(s[0], s[1..], le, y);
      assert s == [s[0]] + s[1..];
      AppendAssociative(head, Ties(s[1..], le, y), own);
    } else {
      TiesCons(x, s, le, y);
      if own != [] {
        NoTiesAfter(x, s, le, y);
      }
    }
  }

  lemma AppendAssociative<T>(a: seq<T>, b: seq<T>, c: seq<T>)
    ensures a + (b + c) == (a + b) + c
  {
  }

  /** Stability: every tie class keeps its order from the input. */
  lemma {:induction false} SortStable<T(!new)>(s: seq<T>, le: (T, T) -> bool, y: T)
    requires TotalPreorder(le)
    ensures Ties(SortBy(s, le), le, y) == Ties(s, le, y)
  {
    if s != [] {
      var init, last := s[..|s| - 1], s[|s| - 1];
      SortStable(init, le, y);
      SortSorted(init, le);
      InsertTies(last, SortBy(init, le), le, y);
      SplitLast(s);
      TiesAppend(init, [last], le, y);
      TiesCons(last, [], le, y);
      assert [last] == [last] + [];
    }
  }

  /** `filter` keeps exactly the occurrences that satisfy `p`. */
  lemma {:induction false} FilterCount<T>(s: seq<T>, p: T -> bool, x: T)
    ensures multiset(Filter(s, p))[x] == if p(x) then multiset(s)[x] else 0
  {
    if s != [] {
      FilterCount(s[1..], p, x);
      assert s == [s[0]] + s[1..];
    }
  }

  /** An element is in the result of `filter` iff it is in the input and
      satisfies `p`. */
  lemma FilterMembers<T>(s: seq<T>, p: T -> bool)
    ensures forall x :: x in Filter(s, p) <==> x in s && p(x)
  {
    forall x
      ensures x in Filter(s, p) <==> x in s && p(x)
    {
      FilterCount(s, p, x);
    }
  }

  /** `filter` distributes over concatenation. */
  lemma {:induction false} FilterAppend<T>(a: seq<T>, b: seq<T>, p: T -> bool)
    ensures Filter(a + b, p) == Filter(a, p) + Filter(b, p)
  {
    if a == [] {
      assert a + b == b;
    } else {
      var head := if p(a[0]) then [a[0]] else [];
      assert (a + b)[0] == a[0];
      assert (a + b)[1..] == a[1..] + b;
      assert Filter(a + b, p) == head + Filter(a[1..] + b, p);
      FilterAppend(a[1..], b, p);
      AppendAssociative(head, Filter(a[1..], p), Filter(b, p));
    }
  }

  /** A sequence whose every element satisfies `p` is its own filter. */
  lemma {:induction false} FilterAll<T>(s: seq<T>, p: T -> bool)
    requires forall x :: x in s ==> p(x)
    ensures Filter(s, p) == s
  {
    if s != [] {
      assert s[0] in s;
      FilterAll(s[1..], p);
    }
  }

  /** `filter` keeps the order inside every tie class: the tie class of the
      result is the filtered tie class of the input. */
  lemma {:induction false} FilterTies<T>(s: seq<T>, p: T -> bool, le: (T, T) -> bool, y: T)
    ensures Ties(Filter(s, p), le, y) == Filter(Ties(s, le, y), p)
  {
    if s != [] {
      var kept := if p(s[0]) then [s[0]] else [];
      var tied := if le(s[0], y) && le(y, s[0]) then [s[0]] else [];
      FilterTies(s[1..], p, le, y);
      TiesAppend(kept, Filter(s[1..], p), le, y);
      FilterAppend(tied, Ties(s[1..], le, y), p);
      if p(s[0]) {
        TiesCons(s[0], [], le, y);
      }
      if tied != [] {
        assert tied == [s[0]] + [];
      }
    }
  }

  /** `filter` keeps the order of a sorted sequence. */
  lemma {:induction false} FilterSorted<T>(s: seq<T>, p: T -> bool, le: (T, T) -> bool)
    requires Sorted(s, le)
    ensures Sorted(Filter(s, p), le)
  {
    if s != [] {
      FilterSorted(s[1..], p, le);
      var rest := Filter(s[1..], p);
      if p(s[0]) {
        var t := [s[0]] + rest;
        forall i, j | 0 <= i < j < |t|
          ensures le(t[i], t[j])
        {
          assert t[j] == rest[j - 1];
          if i == 0 {
            var z := rest[j - 1];
            assert multiset(rest)[z] > 0;
            FilterCount(s[1..], p, z);
            assert multiset(s[1..])[z] > 0;
            var k :| 0 <= k < |s[1..]| && s[1..][k] == rest[j - 1];
            assert s[k + 1] == rest[j - 1];
          } else {
            assert t[i] == rest[i - 1];
          }
        }
      } else {
        assert Filter(s, p) == rest;
      }
    }
  }
}
