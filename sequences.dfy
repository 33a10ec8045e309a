/** Sequence operations shared by the model: `Array.prototype.filter` and a
    stable sort under a comparator, standing in for JavaScript's
    `Array.prototype.sort` with a consistent comparator (a stable sort since
    ECMAScript 2019). The comparator `cmp(a, b) <= 0` is represented by the
    relation `le(a, b)`. The insertion sort here returns a sorted permutation
    (`Sort`) and keeps tied elements in their input order (`SortStable`). */
module Sequences {

  /** `s.filter(p)`: the elements satisfying `p`, in their original order. */
  function Filter<T(!new)>(s: seq<T>, p: T -> bool): (r: seq<T>)
    ensures |r| <= |s|
    ensures forall i :: 0 <= i < |r| ==> p(r[i])
    ensures forall x :: multiset(r)[x] == if p(x) then multiset(s)[x] else 0
  {
    if s == [] then []
    else
      assert s == [s[0]] + s[1..];
      (if p(s[0]) then [s[0]] else []) + Filter(s[1..], p)
  }

  /** The first element kept by a filter is the first element of the input
      that satisfies the predicate. */
  lemma {:induction false} FilterFirst<T(!new)>(s: seq<T>, p: T -> bool, i: nat)
    requires i < |s| && p(s[i])
    requires forall j :: 0 <= j < i ==> !p(s[j])
    ensures Filter(s, p) != [] && Filter(s, p)[0] == s[i]
  {
    if i > 0 {
      FilterFirst(s[1..], p, i - 1);
    }
  }

  /** A filter keeps an input whose every element satisfies the predicate. */
  lemma {:induction false} FilterKeepsAll<T(!new)>(s: seq<T>, p: T -> bool)
    requires forall i :: 0 <= i < |s| ==> p(s[i])
    ensures Filter(s, p) == s
  {
    if s != [] {
      FilterKeepsAll(s[1..], p);
    }
  }

  /** A filter keeps everything exactly when every element passes. */
  lemma {:induction false} FilterKeepsAllIff<T(!new)>(s: seq<T>, p: T -> bool)
    ensures |Filter(s, p)| == |s| <==> forall i :: 0 <= i < |s| ==> p(s[i])
  {
    if s != [] {
      var t := s[1..];
      FilterKeepsAllIff(t, p);
      assert |Filter(s, p)| == (if p(s[0]) then 1 else 0) + |Filter(t, p)|;
      if forall i :: 0 <= i < |s| ==> p(s[i]) {
        forall i | 0 <= i < |t|
          ensures p(t[i])
        {
          assert t[i] == s[i + 1];
        }
      } else if p(s[0]) {
        var i :| 0 <= i < |s| && !p(s[i]);
        assert t[i - 1] == s[i];
      }
    }
  }

  /** A filter keeps nothing exactly when no element passes. */
  lemma {:induction false} FilterKeepsNoneIff<T(!new)>(s: seq<T>, p: T -> bool)
    ensures |Filter(s, p)| == 0 <==> forall i :: 0 <= i < |s| ==> !p(s[i])
  {
    if s != [] {
      var t := s[1..];
      FilterKeepsNoneIff(t, p);
      assert |Filter(s, p)| == (if p(s[0]) then 1 else 0) + |Filter(t, p)|;
      if forall i :: 0 <= i < |s| ==> !p(s[i]) {
        forall i | 0 <= i < |t|
          ensures !p(t[i])
        {
          assert t[i] == s[i + 1];
        }
      } else if !p(s[0]) {
        var i :| 0 <= i < |s| && p(s[i]);
        assert t[i - 1] == s[i];
      }
    }
  }

  /** Filtering keeps the relative order of the elements it keeps. */
  lemma {:induction false} FilterKeepsOrder<T(!new)>(s: seq<T>, p: T -> bool, le: (T, T) -> bool)
    requires SortedBy(s, le)
    ensures SortedBy(Filter(s, p), le)
  {
    if s != [] {
      FilterKeepsOrder(s[1..], p, le);
      var rest := Filter(s[1..], p);
      forall j | 0 <= j < |rest| ensures le(s[0], rest[j]) {
        assert multiset(rest)[rest[j]] > 0;
        assert rest[j] in multiset(s[1..]);
        var k :| 0 <= k < |s[1..]| && s[1..][k] == rest[j];
        assert s[k + 1] == rest[j];
      }
    }
  }


  /** `le` is total and transitive, as the comparator of a consistent sort. */
  ghost predicate TotalPreorder<T(!new)>(le: (T, T) -> bool)
  {
    && (forall x, y :: le(x, y) || le(y, x))
    && (forall x, y, z :: le(x, y) && le(y, z) ==> le(x, z))
  }

  ghost predicate SortedBy<T>(s: seq<T>, le: (T, T) -> bool)
  {
    forall i, j :: 0 <= i < j < |s| ==> le(s[i], s[j])
  }

  /** Places `x`, which came before every element of `s` in the input, in
      front of the first element it may precede, so that among equivalent
      elements the input order is kept. */
  function Insert<T>(x: T, s: seq<T>, le: (T, T) -> bool): (r: seq<T>)
    ensures |r| == |s| + 1
    ensures multiset(r) == multiset(s) + multiset{x}
  {
    if s == [] || le(x, s[0]) then [x] + s
    else
      assert s == [s[0]] + s[1..];
      [s[0]] + Insert(x, s[1..], le)
  }

  lemma {:induction false} InsertSorted<T(!new)>(x: T, s: seq<T>, le: (T, T) -> bool)
    requires TotalPreorder(le)
    requires SortedBy(s, le)
    ensures SortedBy(Insert(x, s, le), le)
  {
    if s == [] || le(x, s[0]) {
    } else {
      InsertSorted(x, s[1..], le);
      var r := Insert(x, s, le);
      var t := Insert(x, s[1..], le);
      assert r == [s[0]] + t;
      forall k | 0 <= k < |t|
        ensures le(s[0], t[k])
      {
        assert t[k] in multiset(t);
        assert t[k] == x || t[k] in multiset(s[1..]);
        if t[k] != x {
          var j :| 0 <= j < |s[1..]| && s[1..][j] == t[k];
          assert s[1 + j] == t[k];
        }
      }
    }
  }

  /** The sorted, stable rearrangement of `s`. */
  function Sort<T(!new)>(s: seq<T>, le: (T, T) -> bool): (r: seq<T>)
    requires TotalPreorder(le)
    ensures multiset(r) == multiset(s)
    ensures |r| == |s|
    ensures SortedBy(r, le)
  {
    if s == [] then []
    else
      assert s == [s[0]] + s[1..];
      var t := Sort(s[1..], le);
      InsertSorted(s[0], t, le);
      Insert(s[0], t, le)
  }

  /** Inserting an element the predicate rejects leaves the filtered sequence
      as it was. */
  lemma {:induction false} FilterInsertRejected<T(!new)>(x: T, s: seq<T>, le: (T, T) -> bool, p: T -> bool)
    requires !p(x)
    ensures Filter(Insert(x, s, le), p) == Filter(s, p)
  {
    if s == [] || le(x, s[0]) {
      assert ([x] + s)[1..] == s;
    } else {
      FilterInsertRejected(x, s[1..], le, p);
      var r := Insert(x, s, le);
      assert r[0] == s[0] && r[1..] == Insert(x, s[1..], le);
    }
  }

  /** Inserting a member of a class of mutually equivalent elements puts it
      in front of the members of that class already there. */
  lemma {:induction false} FilterInsertAccepted<T(!new)>(x: T, s: seq<T>, le: (T, T) -> bool, p: T -> bool)
    requires p(x)
    requires forall y, z :: p(y) && p(z) ==> le(y, z)
    ensures Filter(Insert(x, s, le), p) == [x] + Filter(s, p)
  {
    if s == [] || le(x, s[0]) {
      assert ([x] + s)[1..] == s;
    } else {
      assert !p(s[0]);
      FilterInsertAccepted(x, s[1..], le, p);
      var r := Insert(x, s, le);
      assert r[0] == s[0] && r[1..] == Insert(x, s[1..], le);
      assert Filter(r, p) == Filter(r[1..], p);
      assert Filter(s, p) == Filter(s[1..], p);
    }
  }

  /** The sort is stable: the members of any class of mutually equivalent
      elements come out in the order they went in. */
  lemma {:induction false} SortStable<T(!new)>(s: seq<T>, le: (T, T) -> bool, p: T -> bool)
    requires TotalPreorder(le)
    requires forall y, z :: p(y) && p(z) ==> le(y, z)
    ensures Filter(Sort(s, le), p) == Filter(s, p)
  {
    if s != [] {
      var t := Sort(s[1..], le);
      SortStable(s[1..], le, p);
      if p(s[0]) {
        FilterInsertAccepted(s[0], t, le, p);
      } else {
        FilterInsertRejected(s[0], t, le, p);
      }
    }
  }

  /** Elements the comparator ties with `e` keep their input order. */
  lemma SortKeepsTiesInOrder<T(!new)>(s: seq<T>, le: (T, T) -> bool, e: T)
    requires TotalPreorder(le)
    ensures Filter(Sort(s, le), x => le(x, e) && le(e, x)) == Filter(s, x => le(x, e) && le(e, x))
  {
    SortStable(s, le, x => le(x, e) && le(e, x));
  }

  /** The first `k` elements of an ascending sequence are its `k` smallest:
      each is at most every element left out. */
  lemma SortedPrefixSmallest<T>(s: seq<T>, k: nat, le: (T, T) -> bool)
    requires SortedBy(s, le) && k <= |s|
    ensures SortedBy(s[..k], le)
    ensures multiset(s[..k]) <= multiset(s)
    ensures forall x, y :: x in multiset(s[..k]) && y in multiset(s) - multiset(s[..k]) ==> le(x, y)
  {
    assert s == s[..k] + s[k..];
    assert multiset(s) - multiset(s[..k]) == multiset(s[k..]);
    forall x, y | x in multiset(s[..k]) && y in multiset(s[k..])
      ensures le(x, y)
    {
      assert x in s[..k] && y in s[k..];
      var i :| 0 <= i < k && s[..k][i] == x;
      var j :| 0 <= j < |s| - k && s[k..][j] == y;
      assert s[i] == x && s[k + j] == y;
    }
  }

  /** Every element of a sequence stays in it after a rearrangement that keeps
      its multiset. */
  lemma SameElements<T>(a: seq<T>, b: seq<T>)
    requires multiset(a) == multiset(b)
    ensures forall x :: x in a <==> x in b
  {
    forall x
      ensures x in a <==> x in b
    {
      assert x in a <==> x in multiset(a);
      assert x in b <==> x in multiset(b);
    }
  }

  /** Removing the element at `j` removes one copy of it from the multiset. */
  lemma MultisetRemoveAt<T>(s: seq<T>, j: nat)
    requires j < |s|
    ensures multiset(s) == multiset(s[..j] + s[j + 1..]) + multiset{s[j]}
  {
    assert s == s[..j] + [s[j]] + s[j + 1..];
  }

  /** Matching the head of `a` with an equal element of `b` leaves two
      rearrangements of each other. */
  lemma PermutationPeel<T>(a: seq<T>, b: seq<T>, j: nat)
    requires multiset(a) == multiset(b)
    requires a != [] && j < |b| && b[j] == a[0]
    ensures multiset(a[1..]) == multiset(b[..j] + b[j + 1..])
  {
    MultisetRemoveAt(a, 0);
    MultisetRemoveAt(b, j);
    assert a[..0] + a[1..] == a[1..];
    var m1, m2 := multiset(a[1..]), multiset(b[..j] + b[j + 1..]);
    forall y
      ensures m1[y] == m2[y]
    {
      assert multiset(a)[y] == multiset(b)[y];
    }
  }

  /** `a <= b` on reals: the comparator `(a, b) => a - b`. */
  predicate RealLe(a: real, b: real)
  {
    a <= b
  }

  lemma RealLeIsTotalPreorder()
    ensures TotalPreorder(RealLe)
  {
  }

  /** The head of an ascending sequence is at most anything in it. */
  lemma SortedHeadLeast(a: seq<real>, x: real)
    requires SortedBy(a, RealLe) && a != []
    requires x in multiset(a)
    ensures a[0] <= x
  {
    var i :| 0 <= i < |a| && a[i] == x;
    assert i == 0 || RealLe(a[0], a[i]);
  }

  /** Two ascending sequences of reals holding the same multiset are equal:
      sorting numbers loses nothing of their order. */
  lemma {:induction false} SortedRealsUnique(a: seq<real>, b: seq<real>)
    requires SortedBy(a, RealLe) && SortedBy(b, RealLe)
    requires multiset(a) == multiset(b)
    ensures a == b
  {
    assert |a| == |multiset(a)| == |multiset(b)| == |b|;
    if a != [] {
      SortedHeadsEqual(a, b);
      SortedTail(a, RealLe);
      SortedTail(b, RealLe);
      SortedRealsUnique(a[1..], b[1..]);
    }
  }

  /** Two non-empty ascending rearrangements of each other start with the
      same value, and what follows is again a rearrangement. */
  lemma SortedHeadsEqual(a: seq<real>, b: seq<real>)
    requires SortedBy(a, RealLe) && SortedBy(b, RealLe)
    requires multiset(a) == multiset(b) && a != [] && b != []
    ensures a[0] == b[0]
    ensures multiset(a[1..]) == multiset(b[1..])
  {
    assert b[0] in multiset(b) && a[0] in multiset(a);
    SortedHeadLeast(a, b[0]);
    SortedHeadLeast(b, a[0]);
    assert a == [a[0]] + a[1..] && b == [b[0]] + b[1..];
    assert multiset(a) == multiset{a[0]} + multiset(a[1..]);
    assert multiset(b) == multiset{b[0]} + multiset(b[1..]);
    var ta, tb := multiset(a[1..]), multiset(b[1..]);
    forall y
      ensures ta[y] == tb[y]
    {
      assert multiset(a)[y] == multiset(b)[y];
    }
  }

  /** The tail of a sorted sequence is sorted. */
  lemma SortedTail<T>(a: seq<T>, le: (T, T) -> bool)
    requires SortedBy(a, le) && a != []
    ensures SortedBy(a[1..], le)
  {
    forall i, j | 0 <= i < j < |a| - 1
      ensures le(a[1..][i], a[1..][j])
    {
      assert a[1..][i] == a[i + 1] && a[1..][j] == a[j + 1];
    }
  }
}
