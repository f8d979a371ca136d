// Reciprocal rank fusion, as in app/retrieval/fusion.py, with reals for scores.
module Fusion {
  import opened Common
  import opened Ordering

  datatype Scored = Scored(id: string, score: real)

  // A dictionary keeps its keys in the order they were first put in.
  datatype Scores = Scores(order: seq<string>, of: map<string, real>) {
    ghost predicate Valid() {
      && (forall i, j :: 0 <= i < j < |order| ==> order[i] != order[j])
      && (forall id :: id in of <==> id in order)
    }
  }

  function Get(s: Scores, id: string): real {
    if id in s.of then s.of[id] else 0.0
  }

  // ----- The score of an id -----

  // What the first r places of a list give an id.
  function Given(list: seq<Scored>, r: nat, weight: real, k: nat, id: string): real
    requires r <= |list|
  {
    if r == 0 then 0.0
    else Given(list, r - 1, weight, k, id) + if list[r - 1].id == id then weight / (k + r) as real else 0.0
  }

  // The weighted reciprocal ranks of an id in the first n lists.
  function Score(lists: seq<seq<Scored>>, weights: seq<real>, k: nat, n: nat, id: string): real
    requires n <= |lists| && n <= |weights|
  {
    if n == 0 then 0.0
    else Score(lists, weights, k, n - 1, id) + Given(lists[n - 1], |lists[n - 1]|, weights[n - 1], k, id)
  }

  predicate Has(list: seq<Scored>, id: string) {
    exists r :: 0 <= r < |list| && list[r].id == id
  }

  ghost predicate InSome(lists: seq<seq<Scored>>, n: nat, id: string)
    requires n <= |lists|
  {
    exists i :: 0 <= i < n && Has(lists[i], id)
  }

  // ----- The loops -----

  function Bumped(s: Scores, id: string, gain: real): Scores {
    Scores(if id in s.of then s.order else s.order + [id], s.of[id := Get(s, id) + gain])
  }

  lemma BumpedIsValid(s: Scores, id: string, gain: real)
    requires s.Valid()
    ensures Bumped(s, id, gain).Valid()
    ensures forall x :: x in Bumped(s, id, gain).of <==> x in s.of || x == id
    ensures forall x :: Get(Bumped(s, id, gain), x) == Get(s, x) + if x == id then gain else 0.0
  {
  }

  // The ids in the order of their first place, after r places of one list, and after n lists.
  function Seen(order: seq<string>, list: seq<Scored>, r: nat): seq<string>
    requires r <= |list|
  {
    if r == 0 then order
    else
      var before := Seen(order, list, r - 1);
      if list[r - 1].id in before then before else before + [list[r - 1].id]
  }

  function AllSeen(lists: seq<seq<Scored>>, n: nat): seq<string>
    requires n <= |lists|
  {
    if n == 0 then [] else Seen(AllSeen(lists, n - 1), lists[n - 1], |lists[n - 1]|)
  }

  // What the first r places of a list have added to the scores s.
  ghost predicate AddedSoFar(t: Scores, s: Scores, list: seq<Scored>, r: nat, weight: real, k: nat)
    requires r <= |list|
  {
    && t.Valid() && t.order == Seen(s.order, list, r)
    && (forall id :: id in t.of <==> id in s.of || Has(list[..r], id))
    && (forall id :: Get(t, id) == Get(s, id) + Given(list, r, weight, k, id))
  }

  lemma AddedOneMore(t: Scores, s: Scores, list: seq<Scored>, r: nat, weight: real, k: nat)
    requires r < |list| && AddedSoFar(t, s, list, r, weight, k)
    ensures AddedSoFar(Bumped(t, list[r].id, weight / (k + (r + 1)) as real), s, list, r + 1, weight, k)
  {
    BumpedIsValid(t, list[r].id, weight / (k + (r + 1)) as real);
    HasOneMore(list, r);
  }

  method AddList(s: Scores, list: seq<Scored>, weight: real, k: nat) returns (t: Scores)
    requires s.Valid()
    ensures t.Valid() && t.order == Seen(s.order, list, |list|)
    ensures forall id :: id in t.of <==> id in s.of || Has(list, id)
    ensures forall id :: Get(t, id) == Get(s, id) + Given(list, |list|, weight, k, id)
  {
    t := s;
    for r := 0 to |list|
      invariant AddedSoFar(t, s, list, r, weight, k)
    {
      AddedOneMore(t, s, list, r, weight, k);
      t := Bumped(t, list[r].id, weight / (k + (r + 1)) as real);
    }
    assert list[..|list|] == list;
  }

  lemma HasOneMore(list: seq<Scored>, r: nat)
    requires r < |list|
    ensures forall id :: Has(list[..r + 1], id) <==> Has(list[..r], id) || list[r].id == id
  {
    var shorter, longer := list[..r], list[..r + 1];
    forall id ensures Has(longer, id) <==> Has(shorter, id) || list[r].id == id {
      assert longer[r] == list[r];
      if Has(shorter, id) {
        var q :| 0 <= q < |shorter| && shorter[q].id == id;
        assert longer[q].id == id;
      }
      if Has(longer, id) {
        var q :| 0 <= q < |longer| && longer[q].id == id;
        if q < r { assert shorter[q].id == id; }
      }
    }
  }

  function DefaultWeights(n: nat): (w: seq<real>)
    ensures |w| == n
  {
    if n == 3 then [1.0, 1.0, 0.5] else seq(n, _ => 1.0)
  }

  function WeightsFor(lists: seq<seq<Scored>>, weights: Option<seq<real>>): seq<real> {
    if weights.Some? then weights.value else DefaultWeights(|lists|)
  }

  // zip stops at the shorter of lists and weights.
  function Zipped(lists: seq<seq<Scored>>, weights: seq<real>): nat {
    if |lists| <= |weights| then |lists| else |weights|
  }

  function ByScore(): (Scored, Scored) -> bool {
    (a: Scored, b: Scored) => a.score >= b.score
  }

  function Items(s: Scores): (items: seq<Scored>)
    ensures |items| == |s.order| && forall i :: 0 <= i < |items| ==> items[i] == Scored(s.order[i], Get(s, s.order[i]))
  {
    seq(|s.order|, (i: int) requires 0 <= i < |s.order| => Scored(s.order[i], Get(s, s.order[i])))
  }

  ghost predicate DistinctIds(fused: seq<Scored>) {
    forall i, j :: 0 <= i < j < |fused| ==> fused[i].id != fused[j].id
  }

  // The fused list: each id of the lists once, with its score, best first.
  ghost predicate IsFusion(fused: seq<Scored>, lists: seq<seq<Scored>>, weights: seq<real>, k: nat) {
    && DistinctIds(fused) && Sorted(fused, ByScore())
    && var n := if |lists| <= |weights| then |lists| else |weights|;
       && (forall id :: Has(fused, id) <==> InSome(lists, n, id))
       && (forall i :: 0 <= i < |fused| ==> fused[i].score == Score(lists, weights, k, n, fused[i].id))
  }

  // The ids in the order they were first seen, with their scores.
  function Unsorted(lists: seq<seq<Scored>>, weights: seq<real>, k: nat): (items: seq<Scored>)
    ensures |items| == |AllSeen(lists, Zipped(lists, weights))|
  {
    var ids := AllSeen(lists, Zipped(lists, weights));
    seq(|ids|, (i: int) requires 0 <= i < |ids| =>
      Scored(ids[i], Score(lists, weights, k, Zipped(lists, weights), ids[i])))
  }

  method RrfFuse(lists: seq<seq<Scored>>, k: nat, weights: Option<seq<real>>) returns (fused: seq<Scored>)
    ensures weights.Some? ==> IsFusion(fused, lists, weights.value, k)
    ensures weights.None? && |lists| == 3 ==> IsFusion(fused, lists, [1.0, 1.0, 0.5], k)
    ensures weights.None? && |lists| != 3 ==> IsFusion(fused, lists, seq(|lists|, _ => 1.0), k)
    ensures fused == Sort(Unsorted(lists, WeightsFor(lists, weights), k), ByScore())
  {
    var w := WeightsFor(lists, weights);
    var scores := Scores([], map[]);
    for i := 0 to Zipped(lists, w)
      invariant ScoredUpTo(scores, lists, w, k, i)
    {
      ghost var before := scores;
      scores := AddList(scores, lists[i], w[i], k);
      ScoredOneMore(before, scores, lists, w, k, i);
    }
    fused := Sort(Items(scores), ByScore());
    SortedItems(scores);
    assert Items(scores) == Unsorted(lists, w, k);
  }

  // The scores of the first n lists.
  ghost predicate ScoredUpTo(s: Scores, lists: seq<seq<Scored>>, weights: seq<real>, k: nat, n: nat)
    requires n <= |lists| && n <= |weights|
  {
    && s.Valid() && s.order == AllSeen(lists, n)
    && (forall id :: id in s.of <==> InSome(lists, n, id))
    && (forall id :: Get(s, id) == Score(lists, weights, k, n, id))
  }

  lemma {:induction false} ScoredOneMore(s: Scores, t: Scores, lists: seq<seq<Scored>>, weights: seq<real>, k: nat,
                                         n: nat)
    requires n < |lists| && n < |weights| && ScoredUpTo(s, lists, weights, k, n)
    requires t.Valid() && t.order == Seen(s.order, lists[n], |lists[n]|)
    requires forall id :: id in t.of <==> id in s.of || Has(lists[n], id)
    requires forall id :: Get(t, id) == Get(s, id) + Given(lists[n], |lists[n]|, weights[n], k, id)
    ensures ScoredUpTo(t, lists, weights, k, n + 1)
  {
  }

  // The ids of the lists one after the other.
  function IdsOf(list: seq<Scored>, r: nat): seq<string>
    requires r <= |list|
  {
    if r == 0 then [] else IdsOf(list, r - 1) + [list[r - 1].id]
  }

  function AllIds(lists: seq<seq<Scored>>, n: nat): seq<string>
    requires n <= |lists|
  {
    if n == 0 then [] else AllIds(lists, n - 1) + IdsOf(lists[n - 1], |lists[n - 1]|)
  }

  // Each of the ids once, and the one that comes first before the other.
  ghost predicate FirstSeen(order: seq<string>, ids: seq<string>) {
    && (forall x :: x in order <==> x in ids)
    && forall i, j :: 0 <= i < j < |order| ==> SeenBefore(ids, order[i], order[j])
  }

  ghost predicate SeenBefore(ids: seq<string>, a: string, b: string) {
    exists p :: 0 <= p < |ids| && ids[p] == a && forall q :: 0 <= q <= p ==> ids[q] != b
  }

  lemma SeenOneMore(order: seq<string>, ids: seq<string>, x: string)
    requires FirstSeen(order, ids)
    ensures FirstSeen(if x in order then order else order + [x], ids + [x])
  {
    var order' := if x in order then order else order + [x];
    forall i, j | 0 <= i < j < |order'| ensures SeenBefore(ids + [x], order'[i], order'[j]) {
      if j < |order| {
        assert SeenBefore(ids, order[i], order[j]);
        StillBefore(ids, x, order[i], order[j]);
      } else {
        assert order[i] in order && x !in ids;
        BeforeLast(ids, x, order[i]);
      }
    }
  }

  lemma StillBefore(ids: seq<string>, x: string, a: string, b: string)
    requires SeenBefore(ids, a, b)
    ensures SeenBefore(ids + [x], a, b)
  {
    var p :| 0 <= p < |ids| && ids[p] == a && forall q :: 0 <= q <= p ==> ids[q] != b;
    assert (ids + [x])[p] == a;
  }

  lemma BeforeLast(ids: seq<string>, x: string, a: string)
    requires a in ids && x !in ids
    ensures SeenBefore(ids + [x], a, x)
  {
    var p :| 0 <= p < |ids| && ids[p] == a;
    var ids' := ids + [x];
    assert ids'[p] == a && forall q :: 0 <= q <= p ==> ids'[q] == ids[q];
  }

  lemma {:induction false} SeenInList(order: seq<string>, ids: seq<string>, list: seq<Scored>, r: nat)
    requires FirstSeen(order, ids) && r <= |list|
    ensures FirstSeen(Seen(order, list, r), ids + IdsOf(list, r))
    decreases r
  {
    if r == 0 {
      assert ids + [] == ids;
    } else {
      SeenInList(order, ids, list, r - 1);
      var before, x := Seen(order, list, r - 1), list[r - 1].id;
      SeenOneMore(before, ids + IdsOf(list, r - 1), x);
      Assoc(ids, IdsOf(list, r - 1), [x]);
    }
  }

  // Before they are sorted the ids stand in the order they are first seen in, list after list.
  lemma {:induction false} SeenInOrder(lists: seq<seq<Scored>>, n: nat)
    requires n <= |lists|
    ensures FirstSeen(AllSeen(lists, n), AllIds(lists, n))
    decreases n
  {
    if n > 0 {
      SeenInOrder(lists, n - 1);
      SeenInList(AllSeen(lists, n - 1), AllIds(lists, n - 1), lists[n - 1], |lists[n - 1]|);
    }
  }

  // Ids with the same score stay in the order they were first seen.
  lemma TiesKeepTheirOrder(lists: seq<seq<Scored>>, weights: seq<real>, k: nat, score: real)
    ensures var tied := (x: Scored) => x.score == score;
            Filter(Sort(Unsorted(lists, weights, k), ByScore()), tied) == Filter(Unsorted(lists, weights, k), tied)
  {
    SortIsStable(Unsorted(lists, weights, k), ByScore(), (x: Scored) => x.score == score);
  }

  lemma SortedItems(s: Scores)
    requires s.Valid()
    ensures var fused := Sort(Items(s), ByScore());
            && DistinctIds(fused) && Sorted(fused, ByScore())
            && (forall id :: Has(fused, id) <==> id in s.of)
            && (forall i :: 0 <= i < |fused| ==> fused[i].score == Get(s, fused[i].id))
  {
    var items := Items(s);
    var fused := Sort(items, ByScore());
    SortSorts(items, ByScore());
    SortedIsDistinct(items);
    forall i | 0 <= i < |fused| ensures fused[i].score == Get(s, fused[i].id) && fused[i].id in s.of {
      SortHasTheSame(items, ByScore(), fused[i]);
      var j :| 0 <= j < |items| && items[j] == fused[i];
    }
    forall id | id in s.of ensures Has(fused, id) {
      var j :| 0 <= j < |s.order| && s.order[j] == id;
      SortHasTheSame(items, ByScore(), items[j]);
      var i :| 0 <= i < |fused| && fused[i] == items[j];
    }
  }

  lemma SortedIsDistinct(items: seq<Scored>)
    requires DistinctIds(items)
    ensures DistinctIds(Sort(items, ByScore()))
  {
    var fused := Sort(items, ByScore());
    SortPermutes(items, ByScore());
    forall i, j | 0 <= i < j < |fused| ensures fused[i].id != fused[j].id {
      if fused[i].id == fused[j].id {
        SortHasTheSame(items, ByScore(), fused[i]);
        SortHasTheSame(items, ByScore(), fused[j]);
        var a :| 0 <= a < |items| && items[a] == fused[i];
        var b :| 0 <= b < |items| && items[b] == fused[j];
        assert a == b;
        Twice(fused, i, j);
        AtMostOnce(items, a);
        assert false;
      }
    }
  }

  lemma Twice<T>(s: seq<T>, i: nat, j: nat)
    requires i < j < |s| && s[i] == s[j]
    ensures multiset(s)[s[i]] >= 2
  {
    assert s == s[..j] + [s[j]] + s[j + 1..];
    assert s[..j][i] == s[i];
    assert s[i] in multiset(s[..j]);
  }

  lemma AtMostOnce(items: seq<Scored>, a: nat)
    requires DistinctIds(items) && a < |items|
    ensures multiset(items)[items[a]] == 1
  {
    assert items == items[..a] + [items[a]] + items[a + 1..];
    assert items[a] !in items[..a] && items[a] !in items[a + 1..];
  }

  // ----- Bounds -----

  function TotalWeight(weights: seq<real>, n: nat): real
    requires n <= |weights|
  {
    if n == 0 then 0.0 else TotalWeight(weights, n - 1) + weights[n - 1]
  }

  ghost predicate AllDistinct(lists: seq<seq<Scored>>) {
    forall i :: 0 <= i < |lists| ==> DistinctIds(lists[i])
  }

  // In a list without repeats an id gets the weight over its rank, or nothing.
  lemma {:induction false} GivenAtRank(list: seq<Scored>, n: nat, weight: real, k: nat, id: string, r: nat)
    requires DistinctIds(list) && n <= |list|
    requires r < |list| ==> list[r].id == id
    requires r >= |list| ==> !Has(list, id)
    ensures Given(list, n, weight, k, id) == if r < n then weight / (k + r + 1) as real else 0.0
    decreases n
  {
    if n > 0 { GivenAtRank(list, n - 1, weight, k, id, r); }
  }

  lemma RankOf(list: seq<Scored>, id: string) returns (r: nat)
    ensures r < |list| ==> list[r].id == id
    ensures r >= |list| ==> !Has(list, id)
  {
    if Has(list, id) {
      r :| r < |list| && list[r].id == id;
    } else {
      r := |list|;
    }
  }

  lemma FirstRank(list: seq<Scored>, id: string, r: nat)
    requires DistinctIds(list)
    requires r < |list| ==> list[r].id == id
    requires r >= |list| ==> !Has(list, id)
    ensures list != [] && list[0].id == id ==> r == 0
  {
  }

  lemma Reciprocals(weight: real, a: nat, b: nat)
    requires weight >= 0.0 && 0 < a <= b
    ensures weight / b as real <= weight / a as real
    ensures weight > 0.0 && a < b ==> weight / b as real < weight / a as real
    ensures weight / b as real >= 0.0
    ensures weight > 0.0 ==> weight / b as real > 0.0
  {
    var x, y := weight / a as real, weight / b as real;
    assert x * a as real == weight && y * b as real == weight;
    assert y >= 0.0;
    assert y * b as real >= y * a as real;
    assert (x - y) * a as real >= 0.0;
    if weight > 0.0 && a < b {
      assert y > 0.0;
      assert y * b as real > y * a as real;
      assert (x - y) * a as real > 0.0;
    }
  }

  // No score exceeds the total weight over k + 1, the score of an id that is first everywhere.
  lemma {:induction false} ScoresAreBounded(lists: seq<seq<Scored>>, weights: seq<real>, k: nat, n: nat, id: string)
    requires n <= |lists| && n <= |weights| && AllDistinct(lists)
    requires forall i :: 0 <= i < |weights| ==> weights[i] >= 0.0
    ensures 0.0 <= Score(lists, weights, k, n, id) <= TotalWeight(weights, n) / (k + 1) as real
    ensures (forall i :: 0 <= i < n ==> lists[i] != [] && lists[i][0].id == id) ==>
            Score(lists, weights, k, n, id) == TotalWeight(weights, n) / (k + 1) as real
    decreases n
  {
    if n > 0 {
      ScoresAreBounded(lists, weights, k, n - 1, id);
      var list := lists[n - 1];
      var r := RankOf(list, id);
      GivenAtRank(list, |list|, weights[n - 1], k, id, r);
      Reciprocals(weights[n - 1], k + 1, k + r + 1);
      AddQuotients(TotalWeight(weights, n - 1), weights[n - 1], (k + 1) as real);
      FirstRank(list, id, r);
    }
  }

  lemma AddQuotients(a: real, b: real, d: real)
    requires d > 0.0
    ensures (a + b) / d == a / d + b / d
  {
  }

  // ----- Dominance -----

  // In this list a is ahead of b, or b is missing.
  ghost predicate Ahead(list: seq<Scored>, a: string, b: string) {
    Has(list, b) ==> exists i, j :: 0 <= i < j < |list| && list[i].id == a && list[j].id == b
  }

  lemma AheadGivesMore(list: seq<Scored>, weight: real, k: nat, a: string, b: string)
    requires DistinctIds(list) && weight > 0.0 && Ahead(list, a, b)
    ensures Given(list, |list|, weight, k, b) <= Given(list, |list|, weight, k, a)
    ensures Has(list, b) ==> Given(list, |list|, weight, k, b) < Given(list, |list|, weight, k, a)
  {
    if Has(list, b) {
      var i, j :| 0 <= i < j < |list| && list[i].id == a && list[j].id == b;
      GivenAtRank(list, |list|, weight, k, a, i);
      GivenAtRank(list, |list|, weight, k, b, j);
      Reciprocals(weight, k + i + 1, k + j + 1);
    } else {
      var i := RankOf(list, a);
      GivenAtRank(list, |list|, weight, k, a, i);
      GivenAtRank(list, |list|, weight, k, b, |list|);
      Reciprocals(weight, k + i + 1, k + i + 1);
    }
  }

  lemma {:induction false} AheadScoresMore(lists: seq<seq<Scored>>, weights: seq<real>, k: nat, n: nat, a: string,
                                           b: string)
    requires n <= |lists| && n <= |weights| && AllDistinct(lists)
    requires forall i :: 0 <= i < n ==> weights[i] > 0.0 && Ahead(lists[i], a, b)
    ensures Score(lists, weights, k, n, b) <= Score(lists, weights, k, n, a)
    ensures InSome(lists, n, b) ==> Score(lists, weights, k, n, b) < Score(lists, weights, k, n, a)
    decreases n
  {
    if n > 0 {
      AheadScoresMore(lists, weights, k, n - 1, a, b);
      AheadGivesMore(lists[n - 1], weights[n - 1], k, a, b);
    }
  }

  // An id that is ahead of another in every list that has the other is ahead of it in the result.
  lemma DominanceIsKept(fused: seq<Scored>, lists: seq<seq<Scored>>, weights: seq<real>, k: nat, a: string, b: string)
    requires IsFusion(fused, lists, weights, k) && AllDistinct(lists) && Has(fused, b)
    requires forall i :: 0 <= i < Zipped(lists, weights) ==> weights[i] > 0.0 && Ahead(lists[i], a, b)
    ensures exists i, j :: 0 <= i < j < |fused| && fused[i].id == a && fused[j].id == b
  {
    var n := Zipped(lists, weights);
    AheadScoresMore(lists, weights, k, n, a, b);
    var l :| 0 <= l < n && Has(lists[l], b);
    assert Ahead(lists[l], a, b);
    assert Has(lists[l], a);
    assert InSome(lists, n, a) && InSome(lists, n, b);
    assert Has(fused, a) && Has(fused, b);
    var i :| 0 <= i < |fused| && fused[i].id == a;
    var j :| 0 <= j < |fused| && fused[j].id == b;
    BestFirst(fused);
  }

  lemma BestFirst(fused: seq<Scored>)
    requires Sorted(fused, ByScore())
    ensures forall i, j :: 0 <= i < j < |fused| ==> fused[i].score >= fused[j].score
  {
    forall i, j | 0 <= i < j < |fused| ensures fused[i].score >= fused[j].score {
      assert ByScore()(fused[i], fused[j]);
    }
  }

  // ----- The entity bonus -----

  function Matches(entities: seq<string>, query: set<string>, lower: string -> string, n: nat): nat
    requires n <= |entities|
  {
    if n == 0 then 0 else Matches(entities, query, lower, n - 1) + if lower(entities[n - 1]) in query then 1 else 0
  }

  ghost predicate IsQuerySet(query: set<string>, queryEntities: seq<string>, lower: string -> string) {
    forall x :: x in query <==> exists i :: 0 <= i < |queryEntities| && lower(queryEntities[i]) == x
  }

  // The places of a chunk's entities that match one of the query's.
  ghost function Matching(entities: seq<string>, query: set<string>, lower: string -> string): set<nat> {
    set i: nat | i < |entities| && lower(entities[i]) in query
  }

  ghost function MatchingUpTo(entities: seq<string>, query: set<string>, lower: string -> string, n: nat): set<nat>
    requires n <= |entities|
  {
    set i: nat | i < n && lower(entities[i]) in query
  }

  lemma {:induction false} MatchesCount(entities: seq<string>, query: set<string>, lower: string -> string, n: nat)
    requires n <= |entities|
    ensures Matches(entities, query, lower, n) == |MatchingUpTo(entities, query, lower, n)|
    decreases n
  {
    if n > 0 {
      MatchesCount(entities, query, lower, n - 1);
      var before, after := MatchingUpTo(entities, query, lower, n - 1), MatchingUpTo(entities, query, lower, n);
      assert after == if lower(entities[n - 1]) in query then before + {n - 1} else before;
    } else {
      assert MatchingUpTo(entities, query, lower, 0) == {};
    }
  }

  method LowerAll(queryEntities: seq<string>, lower: string -> string) returns (query: set<string>)
    ensures IsQuerySet(query, queryEntities, lower)
  {
    query := {};
    for i := 0 to |queryEntities|
      invariant IsQuerySet(query, queryEntities[..i], lower)
    {
      QueryGrows(query, queryEntities, lower, i);
      query := query + {lower(queryEntities[i])};
    }
    assert queryEntities[..|queryEntities|] == queryEntities;
  }

  method CountMatches(own: seq<string>, query: set<string>, lower: string -> string) returns (count: nat)
    ensures count == |Matching(own, query, lower)|
    ensures count > 0 <==> HasMatch(own, query, lower)
  {
    MatchesMeans(own, query, lower, |own|);
    MatchesCount(own, query, lower, |own|);
    assert MatchingUpTo(own, query, lower, |own|) == Matching(own, query, lower);
    count := 0;
    for e := 0 to |own|
      invariant count == Matches(own, query, lower, e)
    {
      if lower(own[e]) in query { count := count + 1; }
    }
  }

  ghost predicate HasMatch(own: seq<string>, query: set<string>, lower: string -> string) {
    exists i :: 0 <= i < |own| && lower(own[i]) in query
  }

  // A chunk has a bonus if and only if some entity of it is one of the query, and then one per match.
  ghost predicate Bonuses(result: map<string, real>, ids: seq<string>, entities: map<string, seq<string>>,
                          query: set<string>, lower: string -> string, bonusPerMatch: real)
  {
    forall id :: id in ids && id in entities ==>
      && (id in result <==> HasMatch(entities[id], query, lower))
      && (id in result ==> result[id] == |Matching(entities[id], query, lower)| as real * bonusPerMatch)
  }

  function Awarded(result: map<string, real>, id: string, count: nat, bonusPerMatch: real): map<string, real> {
    if count > 0 then result[id := count as real * bonusPerMatch] else result
  }

  lemma BonusesGrow(result: map<string, real>, ids: seq<string>, c: nat, count: nat, entities: map<string, seq<string>>,
                    query: set<string>, lower: string -> string, bonusPerMatch: real)
    requires c < |ids| && ids[c] in entities && Bonuses(result, ids[..c], entities, query, lower, bonusPerMatch)
    requires forall id :: id in result ==> id in ids[..c]
    requires count == |Matching(entities[ids[c]], query, lower)|
    requires count > 0 <==> HasMatch(entities[ids[c]], query, lower)
    ensures Bonuses(Awarded(result, ids[c], count, bonusPerMatch), ids[..c + 1], entities, query, lower, bonusPerMatch)
    ensures forall id :: id in Awarded(result, ids[c], count, bonusPerMatch) ==> id in ids[..c + 1]
  {
    OneMore(ids, c);
  }

  method EntityOverlapBonus(queryEntities: seq<string>, chunks: seq<string>, entities: map<string, seq<string>>,
                            bonusPerMatch: real, lower: string -> string)
    returns (result: map<string, real>, ghost query: set<string>)
    requires forall id :: id in chunks <==> id in entities
    ensures IsQuerySet(query, queryEntities, lower)
    ensures Bonuses(result, chunks, entities, query, lower, bonusPerMatch)
    ensures forall id :: id in result ==> id in entities
  {
    var queryLower := LowerAll(queryEntities, lower);
    query := queryLower;
    result := map[];
    for c := 0 to |chunks|
      invariant Bonuses(result, chunks[..c], entities, query, lower, bonusPerMatch)
      invariant forall id :: id in result ==> id in chunks[..c]
    {
      var count := CountMatches(entities[chunks[c]], queryLower, lower);
      BonusesGrow(result, chunks, c, count, entities, query, lower, bonusPerMatch);
      result := Awarded(result, chunks[c], count, bonusPerMatch);
    }
    assert chunks[..|chunks|] == chunks;
  }

  lemma {:induction false} MatchesMeans(entities: seq<string>, query: set<string>, lower: string -> string, n: nat)
    requires n <= |entities|
    ensures Matches(entities, query, lower, n) > 0 <==> exists i :: 0 <= i < n && lower(entities[i]) in query
    decreases n
  {
    if n > 0 { MatchesMeans(entities, query, lower, n - 1); }
  }

  lemma QueryGrows(query: set<string>, queryEntities: seq<string>, lower: string -> string, i: nat)
    requires i < |queryEntities| && IsQuerySet(query, queryEntities[..i], lower)
    ensures IsQuerySet(query + {lower(queryEntities[i])}, queryEntities[..i + 1], lower)
  {
    var shorter, longer := queryEntities[..i], queryEntities[..i + 1];
    assert longer[i] == queryEntities[i];
    forall x
      ensures x in query + {lower(queryEntities[i])} <==> exists j :: 0 <= j < |longer| && lower(longer[j]) == x
    {
      if x in query {
        var j :| 0 <= j < |shorter| && lower(shorter[j]) == x;
        assert lower(longer[j]) == x;
      }
      if j :| 0 <= j < |longer| && lower(longer[j]) == x {
        if j < i { assert lower(shorter[j]) == x; }
      }
    }
  }
}
