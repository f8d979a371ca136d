// One-pass grouping: each element joins the group built last, or opens a new one.
module Grouping {
  import opened Text

  function Push<T>(groups: seq<seq<T>>, x: T, joins: (seq<T>, T) -> bool): seq<seq<T>> {
    if groups != [] && joins(groups[|groups| - 1], x)
    then groups[..|groups| - 1] + [groups[|groups| - 1] + [x]]
    else groups + [[x]]
  }

  function Grouped<T>(xs: seq<T>, joins: (seq<T>, T) -> bool, n: nat): seq<seq<T>>
    requires n <= |xs|
    decreases n
  {
    if n == 0 then [] else Push(Grouped(xs, joins, n - 1), xs[n - 1], joins)
  }

  lemma LastIsLast<T>(xs: seq<T>, joins: (seq<T>, T) -> bool, n: nat)
    requires 0 < n <= |xs|
    ensures var groups := Grouped(xs, joins, n);
            groups != [] && groups[|groups| - 1] != [] && groups[|groups| - 1][|groups[|groups| - 1]| - 1] == xs[n - 1]
  {
  }

  // Every element of a group after its first joins what is before it there.
  ghost predicate IsGroup<T>(g: seq<T>, joins: (seq<T>, T) -> bool) {
    g != [] && forall k :: 0 < k < |g| ==> joins(g[..k], g[k])
  }

  ghost predicate Parted<T>(a: seq<T>, b: seq<T>, joins: (seq<T>, T) -> bool) {
    b != [] && !joins(a, b[0])
  }

  // The first element of a group would not have joined the whole group before.
  ghost predicate Fits<T>(groups: seq<seq<T>>, joins: (seq<T>, T) -> bool) {
    && (forall i :: 0 <= i < |groups| ==> IsGroup(groups[i], joins))
    && (forall i :: 0 < i < |groups| ==> Parted(groups[i - 1], groups[i], joins))
  }

  // The groups cut the sequence into pieces that fit.
  ghost predicate IsGrouping<T>(groups: seq<seq<T>>, xs: seq<T>, joins: (seq<T>, T) -> bool) {
    Flatten(groups) == xs && Fits(groups, joins)
  }

  lemma FitsSnoc<T>(init: seq<seq<T>>, g: seq<T>, joins: (seq<T>, T) -> bool)
    ensures Fits(init + [g], joins) <==>
            Fits(init, joins) && IsGroup(g, joins) && (init != [] ==> Parted(init[|init| - 1], g, joins))
  {
    var all := init + [g];
    if Fits(all, joins) {
      assert all[|init|] == g;
      assert init != [] ==> Parted(all[|init| - 1], all[|init|], joins);
      forall i | 0 <= i < |init| ensures IsGroup(init[i], joins) { assert all[i] == init[i]; }
      forall i | 0 < i < |init| ensures Parted(init[i - 1], init[i], joins) {
        assert all[i] == init[i] && all[i - 1] == init[i - 1];
      }
    }
  }

  lemma GroupSnoc<T>(g: seq<T>, x: T, joins: (seq<T>, T) -> bool)
    requires g != []
    ensures IsGroup(g + [x], joins) <==> IsGroup(g, joins) && joins(g, x)
  {
    var all := g + [x];
    assert all[..|g|] == g && all[|g|] == x;
    forall k | 0 < k < |g| ensures all[..k] == g[..k] && all[k] == g[k] {}
  }

  lemma PushKeepsGrouping<T>(groups: seq<seq<T>>, xs: seq<T>, x: T, joins: (seq<T>, T) -> bool)
    requires IsGrouping(groups, xs, joins)
    ensures IsGrouping(Push(groups, x, joins), xs + [x], joins)
  {
    if groups != [] && joins(groups[|groups| - 1], x) {
      var init, last := groups[..|groups| - 1], groups[|groups| - 1];
      assert groups == init + [last];
      assert Flatten(init) + (last + [x]) == Flatten(init) + last + [x];
      FlattenSnoc(init, last);
      FlattenSnoc(init, last + [x]);
      FitsSnoc(init, last, joins);
      FitsSnoc(init, last + [x], joins);
      GroupSnoc(last, x, joins);
    } else {
      FlattenSnoc(groups, [x]);
      FitsSnoc(groups, [x], joins);
    }
  }

  lemma {:induction false} GroupedIsGrouping<T>(xs: seq<T>, joins: (seq<T>, T) -> bool, n: nat)
    requires n <= |xs|
    ensures IsGrouping(Grouped(xs, joins, n), xs[..n], joins)
    decreases n
  {
    if n > 0 {
      GroupedIsGrouping(xs, joins, n - 1);
      PushKeepsGrouping(Grouped(xs, joins, n - 1), xs[..n - 1], xs[n - 1], joins);
      assert xs[..n - 1] + [xs[n - 1]] == xs[..n];
    }
  }

  // A grouping with at least one element came from pushing its last element.
  lemma LastWasPushed<T>(groups: seq<seq<T>>, xs: seq<T>, x: T, joins: (seq<T>, T) -> bool)
    returns (before: seq<seq<T>>)
    requires IsGrouping(groups, xs + [x], joins)
    ensures IsGrouping(before, xs, joins) && groups == Push(before, x, joins)
  {
    assert groups != [];
    var init, last := groups[..|groups| - 1], groups[|groups| - 1];
    assert groups == init + [last];
    FlattenSnoc(init, last);
    FitsSnoc(init, last, joins);
    var short := last[..|last| - 1];
    assert last == short + [last[|last| - 1]];
    LastOfSum(Flatten(init), short, last[|last| - 1], xs, x);
    if short == [] {
      before := init;
      assert last == [x];
    } else {
      before := init + [short];
      FlattenSnoc(init, short);
      GroupSnoc(short, x, joins);
      FitsSnoc(init, short, joins);
      assert before[..|init|] == init;
    }
  }

  lemma LastOfSum<T>(a: seq<T>, b: seq<T>, y: T, xs: seq<T>, x: T)
    requires a + (b + [y]) == xs + [x]
    ensures a + b == xs && y == x
  {
    assert (a + (b + [y]))[|a| + |b|] == y;
    assert (a + (b + [y]))[..|a| + |b|] == a + b;
    assert (xs + [x])[..|xs|] == xs;
  }

  lemma NoElements<T>(groups: seq<seq<T>>, joins: (seq<T>, T) -> bool)
    requires Fits(groups, joins)
    ensures Flatten(groups) == [] <==> groups == []
  {
    assert groups != [] ==> IsGroup(groups[0], joins);
  }

  lemma {:induction false} GroupingIsUnique<T>(groups: seq<seq<T>>, xs: seq<T>, joins: (seq<T>, T) -> bool, n: nat)
    requires n <= |xs| && IsGrouping(groups, xs[..n], joins)
    ensures groups == Grouped(xs, joins, n)
    decreases n
  {
    if n == 0 {
      NoElements(groups, joins);
    } else {
      assert xs[..n] == xs[..n - 1] + [xs[n - 1]];
      var before := LastWasPushed(groups, xs[..n - 1], xs[n - 1], joins);
      GroupingIsUnique(before, xs, joins, n - 1);
    }
  }

  // The pass makes the one grouping there is.
  lemma GroupedIff<T>(groups: seq<seq<T>>, xs: seq<T>, joins: (seq<T>, T) -> bool)
    ensures groups == Grouped(xs, joins, |xs|) <==> IsGrouping(groups, xs, joins)
  {
    assert xs[..|xs|] == xs;
    GroupedIsGrouping(xs, joins, |xs|);
    if IsGrouping(groups, xs, joins) { GroupingIsUnique(groups, xs, joins, |xs|); }
  }
}
