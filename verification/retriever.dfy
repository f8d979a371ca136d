// The end of HybridRetriever.retrieve in app/retrieval/retriever.py: bonus, second sort, and the cap
// on the chunks of one document.
module Retriever {
  import opened Ordering
  import opened Fusion

  function WithBonus(fused: seq<Scored>, bonuses: map<string, real>): (r: seq<Scored>)
    ensures |r| == |fused|
    ensures forall i :: 0 <= i < |r| ==>
      r[i] == Scored(fused[i].id, fused[i].score + if fused[i].id in bonuses then bonuses[fused[i].id] else 0.0)
  {
    seq(|fused|, (i: int) requires 0 <= i < |fused| =>
      Scored(fused[i].id, fused[i].score + if fused[i].id in bonuses then bonuses[fused[i].id] else 0.0))
  }

  // How many of the first n candidates are chunks of the document.
  function SameDoc(sorted: seq<Scored>, docOf: map<string, string>, doc: string, n: nat): nat
    requires n <= |sorted|
  {
    if n == 0 then 0
    else
      var id := sorted[n - 1].id;
      SameDoc(sorted, docOf, doc, n - 1) + if id in docOf && docOf[id] == doc then 1 else 0
  }

  // A candidate counts if its chunk was fetched and fewer than `cap` better ones are of its document.
  predicate Eligible(sorted: seq<Scored>, docOf: map<string, string>, cap: int, j: nat)
    requires j < |sorted|
  {
    sorted[j].id in docOf && SameDoc(sorted, docOf, docOf[sorted[j].id], j) < cap
  }

  function EligibleUpTo(sorted: seq<Scored>, docOf: map<string, string>, cap: int, n: nat): seq<Scored>
    requires n <= |sorted|
  {
    if n == 0 then []
    else EligibleUpTo(sorted, docOf, cap, n - 1) + if Eligible(sorted, docOf, cap, n - 1) then [sorted[n - 1]] else []
  }

  // The limit is looked at after an element is taken, so at least one is.
  function Places(fetchK: int): nat {
    if fetchK >= 1 then fetchK else 1
  }

  function Take<T>(s: seq<T>, n: nat): seq<T> {
    if |s| <= n then s else s[..n]
  }

  function Capped(sorted: seq<Scored>, docOf: map<string, string>, cap: int, fetchK: int): seq<Scored> {
    Take(EligibleUpTo(sorted, docOf, cap, |sorted|), Places(fetchK))
  }

  // ----- The loop -----

  ghost predicate Counted(perDoc: map<string, nat>, sorted: seq<Scored>, docOf: map<string, string>, cap: int, n: nat)
    requires n <= |sorted|
  {
    forall doc :: (if doc in perDoc then perDoc[doc] else 0) == Bounded(SameDoc(sorted, docOf, doc, n), cap)
  }

  function Bounded(n: nat, cap: int): nat {
    if cap <= 0 then 0 else if n <= cap then n else cap
  }

  function CountOf(perDoc: map<string, nat>, doc: string): nat {
    if doc in perDoc then perDoc[doc] else 0
  }

  lemma CountStep(perDoc: map<string, nat>, sorted: seq<Scored>, docOf: map<string, string>, cap: int, n: nat)
    requires n < |sorted| && Counted(perDoc, sorted, docOf, cap, n)
    ensures sorted[n].id in docOf ==>
      (Eligible(sorted, docOf, cap, n) <==> CountOf(perDoc, docOf[sorted[n].id]) < cap)
    ensures Counted(if Eligible(sorted, docOf, cap, n)
                    then perDoc[docOf[sorted[n].id] := CountOf(perDoc, docOf[sorted[n].id]) + 1] else perDoc,
                    sorted, docOf, cap, n + 1)
  {
  }

  method CapPerDocument(sorted: seq<Scored>, docOf: map<string, string>, cap: int, fetchK: int)
    returns (capped: seq<Scored>)
    ensures capped == Capped(sorted, docOf, cap, fetchK)
  {
    var perDoc: map<string, nat> := map[];
    capped := [];
    for n := 0 to |sorted|
      invariant capped == EligibleUpTo(sorted, docOf, cap, n) && |capped| < Places(fetchK)
      invariant Counted(perDoc, sorted, docOf, cap, n)
    {
      CountStep(perDoc, sorted, docOf, cap, n);
      if sorted[n].id !in docOf { continue; }
      var doc := docOf[sorted[n].id];
      if (if doc in perDoc then perDoc[doc] else 0) >= cap { continue; }
      perDoc := perDoc[doc := (if doc in perDoc then perDoc[doc] else 0) + 1];
      capped := capped + [sorted[n]];
      if |capped| >= fetchK {
        EligibleGrows(sorted, docOf, cap, n + 1, |sorted|);
        return;
      }
    }
  }

  lemma {:induction false} EligibleGrows(sorted: seq<Scored>, docOf: map<string, string>, cap: int, m: nat, n: nat)
    requires m <= n <= |sorted|
    ensures var a, b := EligibleUpTo(sorted, docOf, cap, m), EligibleUpTo(sorted, docOf, cap, n);
            |a| <= |b| && b[..|a|] == a
    decreases n
  {
    if m < n { EligibleGrows(sorted, docOf, cap, m, n - 1); }
  }

  // ----- What is returned -----

  function OfDoc(s: seq<Scored>, docOf: map<string, string>, doc: string): nat {
    SameDoc(s, docOf, doc, |s|)
  }

  lemma {:induction false} SameDocSnoc(s: seq<Scored>, x: Scored, docOf: map<string, string>, doc: string)
    ensures OfDoc(s + [x], docOf, doc) == OfDoc(s, docOf, doc) + if x.id in docOf && docOf[x.id] == doc then 1 else 0
  {
    SameDocPrefix(s, s + [x], docOf, doc, |s|);
  }

  lemma {:induction false} SameDocPrefix(a: seq<Scored>, b: seq<Scored>, docOf: map<string, string>, doc: string,
                                         n: nat)
    requires n <= |a| && n <= |b| && forall i :: 0 <= i < n ==> a[i] == b[i]
    ensures SameDoc(a, docOf, doc, n) == SameDoc(b, docOf, doc, n)
    decreases n
  {
    if n > 0 { SameDocPrefix(a, b, docOf, doc, n - 1); }
  }

  // Of every document the eligible candidates are as many as there are, but never more than the cap.
  lemma {:induction false} EligibleOfDoc(sorted: seq<Scored>, docOf: map<string, string>, cap: int, doc: string, n: nat)
    requires n <= |sorted|
    ensures OfDoc(EligibleUpTo(sorted, docOf, cap, n), docOf, doc) == Bounded(SameDoc(sorted, docOf, doc, n), cap)
    decreases n
  {
    if n > 0 {
      EligibleOfDoc(sorted, docOf, cap, doc, n - 1);
      var before := EligibleUpTo(sorted, docOf, cap, n - 1);
      if Eligible(sorted, docOf, cap, n - 1) {
        SameDocSnoc(before, sorted[n - 1], docOf, doc);
      } else {
        assert before + [] == before;
      }
    }
  }

  lemma {:induction false} TakenOfDoc(s: seq<Scored>, docOf: map<string, string>, doc: string, m: nat)
    requires m <= |s|
    ensures OfDoc(s[..m], docOf, doc) <= OfDoc(s, docOf, doc)
  {
    SameDocPrefix(s[..m], s, docOf, doc, m);
    SameDocGrows(s, docOf, doc, m, |s|);
  }

  lemma {:induction false} SameDocGrows(s: seq<Scored>, docOf: map<string, string>, doc: string, m: nat, n: nat)
    requires m <= n <= |s|
    ensures SameDoc(s, docOf, doc, m) <= SameDoc(s, docOf, doc, n)
    decreases n
  {
    if m < n { SameDocGrows(s, docOf, doc, m, n - 1); }
  }

  // At most the cap per document, and at most `fetch_k` in all, or one if that is not positive.
  lemma CapHolds(sorted: seq<Scored>, docOf: map<string, string>, cap: int, fetchK: int, doc: string)
    ensures OfDoc(Capped(sorted, docOf, cap, fetchK), docOf, doc) <= Bounded(OfDoc(sorted, docOf, doc), cap)
    ensures OfDoc(Capped(sorted, docOf, cap, fetchK), docOf, doc) <= if cap > 0 then cap else 0
    ensures |Capped(sorted, docOf, cap, fetchK)| <= if fetchK >= 1 then fetchK else 1
  {
    var all := EligibleUpTo(sorted, docOf, cap, |sorted|);
    EligibleOfDoc(sorted, docOf, cap, doc, |sorted|);
    if |all| > Places(fetchK) { TakenOfDoc(all, docOf, doc, Places(fetchK)); }
  }

  // Where candidate j of the sorted list goes: to the place that counts the eligible ones before it.
  lemma {:induction false} PlaceOf(sorted: seq<Scored>, docOf: map<string, string>, cap: int, j: nat, n: nat)
    requires j < n <= |sorted| && Eligible(sorted, docOf, cap, j)
    ensures var place := |EligibleUpTo(sorted, docOf, cap, j)|;
            place < |EligibleUpTo(sorted, docOf, cap, n)| && EligibleUpTo(sorted, docOf, cap, n)[place] == sorted[j]
    decreases n
  {
    if n > j + 1 { PlaceOf(sorted, docOf, cap, j, n - 1); }
  }

  lemma {:induction false} CameFrom(sorted: seq<Scored>, docOf: map<string, string>, cap: int, n: nat, place: nat)
    returns (j: nat)
    requires n <= |sorted| && place < |EligibleUpTo(sorted, docOf, cap, n)|
    ensures j < n && Eligible(sorted, docOf, cap, j) && place == |EligibleUpTo(sorted, docOf, cap, j)|
    ensures EligibleUpTo(sorted, docOf, cap, n)[place] == sorted[j]
    decreases n
  {
    if place < |EligibleUpTo(sorted, docOf, cap, n - 1)| {
      j := CameFrom(sorted, docOf, cap, n - 1, place);
    } else {
      j := n - 1;
    }
  }

  // Exactly who is returned: the fetched candidates with fewer than `cap` better ones of their
  // document, as long as places are left.
  lemma ReturnedIff(sorted: seq<Scored>, docOf: map<string, string>, cap: int, fetchK: int, j: nat)
    requires DistinctIds(sorted) && j < |sorted|
    ensures sorted[j] in Capped(sorted, docOf, cap, fetchK) <==>
            && sorted[j].id in docOf && SameDoc(sorted, docOf, docOf[sorted[j].id], j) < cap
            && |EligibleUpTo(sorted, docOf, cap, j)| < if fetchK >= 1 then fetchK else 1
  {
    var all := EligibleUpTo(sorted, docOf, cap, |sorted|);
    var capped := Capped(sorted, docOf, cap, fetchK);
    if Eligible(sorted, docOf, cap, j) {
      PlaceOf(sorted, docOf, cap, j, |sorted|);
      var place := |EligibleUpTo(sorted, docOf, cap, j)|;
      if place < Places(fetchK) { assert capped[place] == sorted[j]; }
    }
    if sorted[j] in capped {
      var place :| 0 <= place < |capped| && capped[place] == sorted[j];
      var i := CameFrom(sorted, docOf, cap, |sorted|, place);
      assert sorted[i].id == sorted[j].id;
      assert i == j;
    }
  }

  // The result keeps the order of the sorted list.
  lemma ResultInOrder(sorted: seq<Scored>, docOf: map<string, string>, cap: int, fetchK: int, p: nat, q: nat)
    requires p < q < |Capped(sorted, docOf, cap, fetchK)|
    ensures var capped := Capped(sorted, docOf, cap, fetchK);
            exists i, j :: 0 <= i < j < |sorted| && capped[p] == sorted[i] && capped[q] == sorted[j]
  {
    var i := CameFrom(sorted, docOf, cap, |sorted|, p);
    var j := CameFrom(sorted, docOf, cap, |sorted|, q);
    if j <= i { EligibleGrows(sorted, docOf, cap, j, i); }
  }

  // ----- The three steps together -----

  method RankAndCap(fused: seq<Scored>, docOf: map<string, string>, bonuses: map<string, real>, cap: int, fetchK: int)
    returns (capped: seq<Scored>)
    ensures capped == Capped(Sort(WithBonus(fused, bonuses), ByScore()), docOf, cap, fetchK)
  {
    var rescored: seq<Scored> := [];
    for i := 0 to |fused|
      invariant |rescored| == i && forall j :: 0 <= j < i ==> rescored[j] == WithBonus(fused, bonuses)[j]
    {
      var bonus := if fused[i].id in bonuses then bonuses[fused[i].id] else 0.0;
      rescored := rescored + [Scored(fused[i].id, fused[i].score + bonus)];
    }
    assert rescored == WithBonus(fused, bonuses);
    capped := CapPerDocument(Sort(rescored, ByScore()), docOf, cap, fetchK);
  }

  // From fused list to result: distinct ids go in, so who comes out is exactly known, best first.
  lemma RankedIsDistinct(fused: seq<Scored>, bonuses: map<string, real>)
    requires DistinctIds(fused)
    ensures var sorted := Sort(WithBonus(fused, bonuses), ByScore()); DistinctIds(sorted) && Sorted(sorted, ByScore())
  {
    SortSorts(WithBonus(fused, bonuses), ByScore());
    SortedIsDistinct(WithBonus(fused, bonuses));
  }
}
