// Stable sorting, as Python's sorted and list.sort promise it, and filtering.
module Ordering {
  function Insert<T>(x: T, s: seq<T>, le: (T, T) -> bool): seq<T> {
    if s == [] || le(x, s[0]) then [x] + s else [s[0]] + Insert(x, s[1..], le)
  }

  function Sort<T>(xs: seq<T>, le: (T, T) -> bool): seq<T> {
    if xs == [] then [] else Insert(xs[0], Sort(xs[1..], le), le)
  }

  ghost predicate TotalPreorder<T(!new)>(le: (T, T) -> bool) {
    && (forall a, b :: le(a, b) || le(b, a))
    && (forall a, b, c :: le(a, b) && le(b, c) ==> le(a, c))
  }

  ghost predicate Sorted<T>(s: seq<T>, le: (T, T) -> bool) {
    forall i, j :: 0 <= i < j < |s| ==> le(s[i], s[j])
  }

  function Filter<T>(xs: seq<T>, p: T -> bool): seq<T> {
    if xs == [] then [] else (if p(xs[0]) then [xs[0]] else []) + Filter(xs[1..], p)
  }

  lemma {:induction false} InsertPermutes<T>(x: T, s: seq<T>, le: (T, T) -> bool)
    ensures multiset(Insert(x, s, le)) == multiset{x} + multiset(s)
    decreases |s|
  {
    if s != [] && !le(x, s[0]) {
      InsertPermutes(x, s[1..], le);
      assert s == [s[0]] + s[1..];
    }
  }

  lemma {:induction false} SortPermutes<T>(xs: seq<T>, le: (T, T) -> bool)
    ensures multiset(Sort(xs, le)) == multiset(xs)
    ensures |Sort(xs, le)| == |xs|
  {
    if xs != [] {
      SortPermutes(xs[1..], le);
      InsertPermutes(xs[0], Sort(xs[1..], le), le);
      assert xs == [xs[0]] + xs[1..];
    }
    SameSize(Sort(xs, le), xs);
  }

  lemma SortHasTheSame<T>(xs: seq<T>, le: (T, T) -> bool, x: T)
    ensures x in Sort(xs, le) <==> x in xs
  {
    SortPermutes(xs, le);
    assert x in multiset(Sort(xs, le)) <==> x in multiset(xs);
  }

  lemma SameSize<T>(a: seq<T>, b: seq<T>)
    ensures multiset(a) == multiset(b) ==> |a| == |b|
  {
    assert |multiset(a)| == |a| && |multiset(b)| == |b|;
  }

  lemma {:induction false} InsertSorts<T(!new)>(x: T, s: seq<T>, le: (T, T) -> bool)
    requires TotalPreorder(le) && Sorted(s, le)
    ensures Sorted(Insert(x, s, le), le)
    decreases |s|
  {
    if s != [] && !le(x, s[0]) {
      var rest := Insert(x, s[1..], le);
      InsertSorts(x, s[1..], le);
      InsertPermutes(x, s[1..], le);
      forall k | 0 <= k < |rest| ensures le(s[0], rest[k]) {
        assert rest[k] in multiset{x} + multiset(s[1..]);
      }
    }
  }

  lemma {:induction false} SortSorts<T(!new)>(xs: seq<T>, le: (T, T) -> bool)
    requires TotalPreorder(le)
    ensures Sorted(Sort(xs, le), le)
  {
    if xs != [] {
      SortSorts(xs[1..], le);
      InsertSorts(xs[0], Sort(xs[1..], le), le);
    }
  }

  lemma FilterCons<T>(x: T, s: seq<T>, p: T -> bool)
    ensures Filter([x] + s, p) == (if p(x) then [x] else []) + Filter(s, p)
  {
    assert ([x] + s)[1..] == s;
  }

  lemma {:induction false} InsertStable<T>(x: T, s: seq<T>, le: (T, T) -> bool, p: T -> bool)
    requires forall k :: 0 <= k < |s| ==> p(x) && p(s[k]) ==> le(x, s[k])
    ensures Filter(Insert(x, s, le), p) == (if p(x) then [x] else []) + Filter(s, p)
    decreases |s|
  {
    if s == [] || le(x, s[0]) {
      FilterCons(x, s, p);
    } else {
      InsertStable(x, s[1..], le, p);
      FilterCons(s[0], Insert(x, s[1..], le), p);
      FilterCons(s[0], s[1..], p);
      assert [s[0]] + s[1..] == s;
    }
  }

  // Elements that tie keep their order.
  lemma {:induction false} SortIsStable<T(!new)>(xs: seq<T>, le: (T, T) -> bool, p: T -> bool)
    requires forall a, b :: p(a) && p(b) ==> le(a, b)
    ensures Filter(Sort(xs, le), p) == Filter(xs, p)
  {
    if xs != [] {
      SortIsStable(xs[1..], le, p);
      InsertStable(xs[0], Sort(xs[1..], le), le, p);
    }
  }

  lemma {:induction false} InsertCounts<T>(x: T, s: seq<T>, le: (T, T) -> bool, p: T -> bool)
    ensures |Filter(Insert(x, s, le), p)| == |Filter(s, p)| + if p(x) then 1 else 0
    decreases |s|
  {
    if s == [] || le(x, s[0]) {
      FilterCons(x, s, p);
    } else {
      InsertCounts(x, s[1..], le, p);
      FilterCons(s[0], Insert(x, s[1..], le), p);
    }
  }

  lemma {:induction false} SortCounts<T>(xs: seq<T>, le: (T, T) -> bool, p: T -> bool)
    ensures |Filter(Sort(xs, le), p)| == |Filter(xs, p)|
  {
    if xs != [] {
      SortCounts(xs[1..], le, p);
      InsertCounts(xs[0], Sort(xs[1..], le), le, p);
    }
  }

  // At least as many elements satisfy p as there are positions in a range where all do.
  lemma {:induction false} FilterAtLeast<T>(s: seq<T>, p: T -> bool, a: nat, b: nat)
    requires a <= b <= |s| && forall k :: a <= k < b ==> p(s[k])
    ensures |Filter(s, p)| >= b - a
  {
    if s != [] && b > 0 {
      if a == 0 {
        FilterAtLeast(s[1..], p, 0, b - 1);
      } else {
        FilterAtLeast(s[1..], p, a - 1, b - 1);
      }
    }
  }

  lemma {:induction false} FilterHolds<T>(xs: seq<T>, p: T -> bool)
    ensures forall k :: 0 <= k < |Filter(xs, p)| ==> p(Filter(xs, p)[k])
  {
    if xs != [] { FilterHolds(xs[1..], p); }
  }

  function Not<T>(p: T -> bool): T -> bool {
    x => !p(x)
  }

  lemma {:induction false} FilterSnoc<T>(xs: seq<T>, x: T, p: T -> bool)
    ensures Filter(xs + [x], p) == Filter(xs, p) + if p(x) then [x] else []
  {
    if xs == [] {
      FilterCons(x, [], p);
      assert [] + [x] == [x] + [];
    } else {
      FilterSnoc(xs[1..], x, p);
      FilterCons(xs[0], xs[1..] + [x], p);
      FilterCons(xs[0], xs[1..], p);
      assert xs + [x] == [xs[0]] + (xs[1..] + [x]) && xs == [xs[0]] + xs[1..];
    }
  }

  lemma OneMore<T>(xs: seq<T>, n: nat)
    requires n < |xs|
    ensures xs[..n + 1] == xs[..n] + [xs[n]] && xs[..n + 1][..n] == xs[..n]
    ensures xs[..|xs|] == xs
  {
  }
}
