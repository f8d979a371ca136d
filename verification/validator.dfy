// Claim validation, as in app/draft/validator.py: every claim-source pair goes to a language model
// in batches of ten; what a batch call answers is an arbitrary oracle.
module Validator {
  import opened Common
  import opened Ordering
  import opened Citations
  import opened Claims

  // The model may answer with a word outside the four it is asked for.
  datatype Status = Supported | Partial | Unsupported | Contradicted | Other(word: string)

  datatype Entry = Entry(pairIdx: int, status: Status, reason: string)

  datatype Reply = CallFailed | Unparseable | Results(entries: seq<Entry>)

  datatype Verdict = Verdict(status: Status, reason: string)

  datatype ClaimState = ClaimState(statuses: seq<Status>, reasons: seq<string>, substringMatch: bool)

  datatype ClaimValidation = ClaimValidation(claim: Claim, status: Status, reason: Option<string>, substringMatch: bool)

  const BATCH_SIZE := 10

  // ----- Merging -----

  function MergeStatuses(statuses: seq<Status>): Status {
    if statuses == [] then Unsupported
    else if Contradicted in statuses then Contradicted
    else if Unsupported in statuses then Unsupported
    else if Partial in statuses then Partial
    else Supported
  }

  function Severity(s: Status): nat {
    match s
    case Contradicted => 3
    case Unsupported => 2
    case Partial => 1
    case Supported => 0
    case Other(_) => 0
  }

  // The merged status is the worst one; a word outside the four counts as supported.
  lemma MergeIsWorst(statuses: seq<Status>)
    ensures statuses != [] ==>
      exists k :: 0 <= k < |statuses| && Severity(statuses[k]) == Severity(MergeStatuses(statuses))
    ensures forall k :: 0 <= k < |statuses| ==> Severity(statuses[k]) <= Severity(MergeStatuses(statuses))
    ensures statuses == [] ==> MergeStatuses(statuses) == Unsupported
    ensures !MergeStatuses(statuses).Other?
  {
    if statuses != [] {
      var m := MergeStatuses(statuses);
      if m == Supported {
        assert Severity(statuses[0]) == 0;
      } else {
        var k :| 0 <= k < |statuses| && statuses[k] == m;
      }
    }
  }

  // ----- What a batch reply says about one of its pairs -----

  const UNANSWERED := Verdict(Unsupported, "validator response unparseable")

  // The last entry with the index counts; a missing one, or a failed call, reads as unsupported.
  function LookupIn(entries: seq<Entry>, idx: int): Verdict {
    if entries == [] then UNANSWERED
    else if entries[|entries| - 1].pairIdx == idx then
      Verdict(entries[|entries| - 1].status, entries[|entries| - 1].reason)
    else LookupIn(entries[..|entries| - 1], idx)
  }

  function Lookup(reply: Reply, idx: int): Verdict {
    if reply.Results? then LookupIn(reply.entries, idx) else UNANSWERED
  }

  // Entry k is the last one with the index.
  ghost predicate LastFor(entries: seq<Entry>, n: int, k: nat) {
    k < |entries| && entries[k].pairIdx == n && forall j :: k < j < |entries| ==> entries[j].pairIdx != n
  }

  // What a reply says about pair n of its batch: status and reason of the last entry with that index, and
  // if there is none, or the call failed, that it is unsupported. Entries with other indices have no part in it.
  ghost predicate Says(reply: Reply, n: int, v: Verdict) {
    && (forall k: nat :: reply.Results? && LastFor(reply.entries, n, k) ==>
          v.status == reply.entries[k].status && v.reason == reply.entries[k].reason)
    && ((!reply.Results? || forall k :: 0 <= k < |reply.entries| ==> reply.entries[k].pairIdx != n) ==>
          v.status == Unsupported && v.reason == "validator response unparseable")
  }

  lemma {:induction false} LastEntry(entries: seq<Entry>, n: int) returns (k: nat)
    ensures k < |entries| ==>
      LastFor(entries, n, k) && LookupIn(entries, n) == Verdict(entries[k].status, entries[k].reason)
    ensures k >= |entries| ==>
      (forall j :: 0 <= j < |entries| ==> entries[j].pairIdx != n) && LookupIn(entries, n) == UNANSWERED
  {
    if entries == [] {
      k := 0;
    } else if entries[|entries| - 1].pairIdx == n {
      k := |entries| - 1;
    } else {
      k := LastEntry(entries[..|entries| - 1], n);
      if k == |entries| - 1 { k := |entries|; }
    }
  }

  // The lookup answers as the reply says, and nothing else does.
  lemma SaysIff(reply: Reply, n: int, v: Verdict)
    ensures Says(reply, n, v) <==> v == Lookup(reply, n)
  {
    if reply.Results? {
      var k := LastEntry(reply.entries, n);
      if k < |reply.entries| {
        forall j: nat | LastFor(reply.entries, n, j) ensures j == k {}
      }
    }
  }

  // The verdicts of the first pairs are what the replies to their batches say.
  ghost predicate AsReplied(verdict: nat -> Verdict, reply: nat -> Reply, pairs: nat) {
    forall k: nat :: k < pairs ==> Says(reply(k / 10), k % 10, verdict(k))
  }

  // Pair k of all pending pairs is number k % size of batch k / size.
  function PairVerdict(reply: nat -> Reply, size: nat, k: nat): Verdict
    requires size > 0
  {
    Lookup(reply(k / size), k % size)
  }

  // The verdicts of all pairs, and of the pairs of one reply.
  function PairVerdicts(reply: nat -> Reply, size: nat): nat -> Verdict
    requires size > 0
  {
    (k: nat) => PairVerdict(reply, size, k)
  }

  function Answers(reply: Reply): nat -> Verdict {
    (k: nat) => Lookup(reply, k)
  }

  // ----- The pairs of a section, and the states they lead to -----

  datatype Pair = Pair(claim: nat, chunkId: string)

  function KnownPairs(ids: seq<string>, chunks: map<string, string>, idx: nat): seq<Pair> {
    if ids == [] then []
    else KnownPairs(ids[..|ids| - 1], chunks, idx)
         + if ids[|ids| - 1] in chunks then [Pair(idx, ids[|ids| - 1])] else []
  }

  function PairsUpTo(claims: seq<Claim>, chunks: map<string, string>, n: nat): seq<Pair>
    requires n <= |claims|
  {
    if n == 0 then [] else PairsUpTo(claims, chunks, n - 1) + KnownPairs(claims[n - 1].citedChunkIds, chunks, n - 1)
  }

  function PendingPairs(claims: seq<Claim>, chunks: map<string, string>): seq<Pair> {
    PairsUpTo(claims, chunks, |claims|)
  }

  predicate Hit(terms: seq<string>, text: string) {
    exists k :: 0 <= k < |terms| && exists p :: 0 <= p <= |text| && MatchAt(text, terms[k], p)
  }

  function AddStatus(st: ClaimState, v: Verdict): ClaimState {
    st.(statuses := st.statuses + [v.status], reasons := st.reasons + [v.reason])
  }

  const NO_CITATION := Verdict(Unsupported, "claim has no citation")
  const NOT_RETRIEVED := Verdict(Unsupported, "chunk_id not in retrieved set")

  // Before the model is asked: unknown chunks are unsupported, known ones are looked at for terms.
  function Screened(ids: seq<string>, chunks: map<string, string>, terms: seq<string>): ClaimState {
    if ids == [] then ClaimState([], [], false)
    else
      var st := Screened(ids[..|ids| - 1], chunks, terms);
      var id := ids[|ids| - 1];
      if id !in chunks then AddStatus(st, NOT_RETRIEVED)
      else st.(substringMatch := st.substringMatch || Hit(terms, chunks[id]))
  }

  function Immediate(claim: Claim, chunks: map<string, string>, terms: string -> seq<string>): ClaimState {
    if claim.citedChunkIds == [] then AddStatus(ClaimState([], [], false), NO_CITATION)
    else Screened(claim.citedChunkIds, chunks, terms(claim.text))
  }

  // The verdicts of the first n pairs, in order, that belong to a claim.
  function VerdictsFor(pairs: seq<Pair>, verdict: nat -> Verdict, idx: nat, n: nat): seq<Verdict>
    requires n <= |pairs|
  {
    if n == 0 then []
    else VerdictsFor(pairs, verdict, idx, n - 1) + if pairs[n - 1].claim == idx then [verdict(n - 1)] else []
  }

  function AddAll(st: ClaimState, vs: seq<Verdict>): ClaimState {
    if vs == [] then st else AddStatus(AddAll(st, vs[..|vs| - 1]), vs[|vs| - 1])
  }

  // The state of claim idx after the first n pairs were judged.
  function StateAfter(claims: seq<Claim>, chunks: map<string, string>, terms: string -> seq<string>,
                      verdict: nat -> Verdict, idx: nat, n: nat): ClaimState
    requires idx < |claims| && n <= |PendingPairs(claims, chunks)|
  {
    AddAll(Immediate(claims[idx], chunks, terms), VerdictsFor(PendingPairs(claims, chunks), verdict, idx, n))
  }

  function FirstReason(statuses: seq<Status>, reasons: seq<string>, status: Status, k: nat): Option<string>
    decreases |statuses| - k
  {
    if k >= |statuses| || k >= |reasons| then None
    else if statuses[k] == status && reasons[k] != "" then Some(reasons[k])
    else FirstReason(statuses, reasons, status, k + 1)
  }

  function Concluded(claim: Claim, st: ClaimState): ClaimValidation {
    if st.statuses == [] then ClaimValidation(claim, Unsupported, Some("no validation result"), st.substringMatch)
    else
      var status := MergeStatuses(st.statuses);
      var matched := FirstReason(st.statuses, st.reasons, status, 0);
      ClaimValidation(claim, status,
        if matched.Some? then matched else if st.reasons != [] then Some(st.reasons[0]) else None, st.substringMatch)
  }

  // ----- Every pair contributes exactly one status -----

  function CountOf(pairs: seq<Pair>, idx: nat): nat {
    if pairs == [] then 0 else CountOf(pairs[..|pairs| - 1], idx) + if pairs[|pairs| - 1].claim == idx then 1 else 0
  }

  lemma {:induction false} CountConcat(p: seq<Pair>, q: seq<Pair>, idx: nat)
    ensures CountOf(p + q, idx) == CountOf(p, idx) + CountOf(q, idx)
  {
    if q == [] {
      assert p + q == p;
    } else {
      assert (p + q)[..|p + q| - 1] == p + q[..|q| - 1];
      CountConcat(p, q[..|q| - 1], idx);
    }
  }

  lemma {:induction false} ScreenedCount(ids: seq<string>, chunks: map<string, string>, terms: seq<string>,
                                         idx: nat, other: nat)
    ensures |Screened(ids, chunks, terms).statuses| + CountOf(KnownPairs(ids, chunks, idx), idx) == |ids|
    ensures |Screened(ids, chunks, terms).reasons| == |Screened(ids, chunks, terms).statuses|
    ensures other != idx ==> CountOf(KnownPairs(ids, chunks, idx), other) == 0
  {
    if ids != [] {
      var init := ids[..|ids| - 1];
      ScreenedCount(init, chunks, terms, idx, other);
      var last := if ids[|ids| - 1] in chunks then [Pair(idx, ids[|ids| - 1])] else [];
      CountConcat(KnownPairs(init, chunks, idx), last, idx);
      CountConcat(KnownPairs(init, chunks, idx), last, other);
      CountOne(last, idx, other);
    }
  }

  lemma CountOne(last: seq<Pair>, idx: nat, other: nat)
    requires |last| <= 1 && forall k :: 0 <= k < |last| ==> last[k].claim == idx
    ensures CountOf(last, idx) == |last| && (other != idx ==> CountOf(last, other) == 0)
  {
    if last != [] { assert last[..0] == []; }
  }

  lemma {:induction false} PairsCount(claims: seq<Claim>, chunks: map<string, string>, n: nat, idx: nat)
    requires n <= |claims| && idx < |claims|
    ensures CountOf(PairsUpTo(claims, chunks, n), idx) ==
            if idx < n then CountOf(KnownPairs(claims[idx].citedChunkIds, chunks, idx), idx) else 0
    decreases n
  {
    if n > 0 {
      PairsCount(claims, chunks, n - 1, idx);
      CountConcat(PairsUpTo(claims, chunks, n - 1), KnownPairs(claims[n - 1].citedChunkIds, chunks, n - 1), idx);
      ScreenedCount(claims[n - 1].citedChunkIds, chunks, [], n - 1, idx);
    }
  }

  lemma {:induction false} VerdictsCount(pairs: seq<Pair>, verdict: nat -> Verdict, idx: nat, n: nat)
    requires n <= |pairs|
    ensures |VerdictsFor(pairs, verdict, idx, n)| == CountOf(pairs[..n], idx)
    decreases n
  {
    if n > 0 {
      VerdictsCount(pairs, verdict, idx, n - 1);
      assert pairs[..n][..n - 1] == pairs[..n - 1];
    }
  }

  lemma {:induction false} AddAllCount(st: ClaimState, vs: seq<Verdict>)
    ensures |AddAll(st, vs).statuses| == |st.statuses| + |vs|
    ensures |AddAll(st, vs).reasons| == |st.reasons| + |vs|
  {
    if vs != [] { AddAllCount(st, vs[..|vs| - 1]); }
  }

  // Whatever the model answers, and whichever calls fail, a claim ends with one status, and one
  // reason, per cited source, or a single one if it cites none; so never with none.
  lemma OneStatusPerPair(claims: seq<Claim>, chunks: map<string, string>, terms: string -> seq<string>,
                         verdict: nat -> Verdict, idx: nat)
    requires idx < |claims|
    ensures var st := StateAfter(claims, chunks, terms, verdict, idx, |PendingPairs(claims, chunks)|);
            var cited := |claims[idx].citedChunkIds|;
            |st.statuses| == |st.reasons| == if cited == 0 then 1 else cited
  {
    var pairs := PendingPairs(claims, chunks);
    VerdictsCount(pairs, verdict, idx, |pairs|);
    assert pairs[..|pairs|] == pairs;
    PairsCount(claims, chunks, |claims|, idx);
    ScreenedCount(claims[idx].citedChunkIds, chunks, terms(claims[idx].text), idx, idx);
    AddAllCount(Immediate(claims[idx], chunks, terms), VerdictsFor(pairs, verdict, idx, |pairs|));
  }

  // ----- Where each status comes from -----

  function Absent(chunks: map<string, string>): string -> bool {
    (id: string) => id !in chunks
  }

  ghost predicate Contains(text: string, term: string) {
    exists p: nat :: p <= |text| && term <= text[p..]
  }

  ghost predicate HasTerm(ids: seq<string>, chunks: map<string, string>, terms: seq<string>) {
    exists i, t ::
      0 <= i < |ids| && ids[i] in chunks && 0 <= t < |terms| && Contains(chunks[ids[i]], terms[t])
  }

  lemma HitMeans(terms: seq<string>, text: string)
    ensures Hit(terms, text) <==> exists t :: 0 <= t < |terms| && Contains(text, terms[t])
  {
    if Hit(terms, text) {
      var t :| 0 <= t < |terms| && exists p :: 0 <= p <= |text| && MatchAt(text, terms[t], p);
      var p :| 0 <= p <= |text| && MatchAt(text, terms[t], p);
      assert text[p..][..|terms[t]|] == terms[t];
      assert Contains(text, terms[t]);
    }
    if t :| 0 <= t < |terms| && Contains(text, terms[t]) {
      var p: nat :| p <= |text| && terms[t] <= text[p..];
      assert text[p..][..|terms[t]|] == text[p..p + |terms[t]|];
      assert MatchAt(text, terms[t], p);
    }
  }

  lemma HasTermSnoc(init: seq<string>, id: string, chunks: map<string, string>, terms: seq<string>)
    ensures HasTerm(init + [id], chunks, terms) <==>
            HasTerm(init, chunks, terms) || (id in chunks && Hit(terms, chunks[id]))
  {
    var ids := init + [id];
    assert ids[|init|] == id;
    if id in chunks { HitMeans(terms, chunks[id]); }
    if HasTerm(init, chunks, terms) {
      var i, t :| 0 <= i < |init| && init[i] in chunks && 0 <= t < |terms| && Contains(chunks[init[i]], terms[t]);
      assert ids[i] == init[i];
    }
    if HasTerm(ids, chunks, terms) {
      var i, t :| 0 <= i < |ids| && ids[i] in chunks && 0 <= t < |terms| && Contains(chunks[ids[i]], terms[t]);
      if i < |init| { assert init[i] == ids[i]; }
    }
  }

  lemma {:induction false} ScreenedTells(ids: seq<string>, chunks: map<string, string>, terms: seq<string>)
    ensures var st := Screened(ids, chunks, terms);
            && |st.statuses| == |st.reasons| == |Filter(ids, Absent(chunks))|
            && (forall j :: 0 <= j < |st.statuses| ==>
                  st.statuses[j] == Unsupported && st.reasons[j] == "chunk_id not in retrieved set")
            && (st.substringMatch <==> HasTerm(ids, chunks, terms))
  {
    if ids != [] {
      var init, id := ids[..|ids| - 1], ids[|ids| - 1];
      assert ids == init + [id];
      ScreenedTells(init, chunks, terms);
      FilterSnoc(init, id, Absent(chunks));
      HasTermSnoc(init, id, chunks, terms);
    }
  }

  lemma {:induction false} AddAllTells(st: ClaimState, vs: seq<Verdict>)
    requires |st.statuses| == |st.reasons|
    ensures var r, n := AddAll(st, vs), |st.statuses|;
            && |r.statuses| == |r.reasons| == n + |vs| && r.substringMatch == st.substringMatch
            && (forall j :: 0 <= j < n ==> r.statuses[j] == st.statuses[j] && r.reasons[j] == st.reasons[j])
            && (forall j :: 0 <= j < |vs| ==> r.statuses[n + j] == vs[j].status && r.reasons[n + j] == vs[j].reason)
  {
    if vs != [] { AddAllTells(st, vs[..|vs| - 1]); }
  }

  lemma {:induction false} VerdictAt(pairs: seq<Pair>, verdict: nat -> Verdict, idx: nat, n: nat, k: nat)
    requires k < n <= |pairs| && pairs[k].claim == idx
    ensures CountOf(pairs[..k], idx) < |VerdictsFor(pairs, verdict, idx, n)|
    ensures VerdictsFor(pairs, verdict, idx, n)[CountOf(pairs[..k], idx)] == verdict(k)
    decreases n
  {
    VerdictsCount(pairs, verdict, idx, n - 1);
    if k < n - 1 { VerdictAt(pairs, verdict, idx, n - 1, k); }
  }

  // Where the verdicts of the model begin among the statuses of a claim.
  function FirstJudged(claim: Claim, chunks: map<string, string>): nat {
    |Filter(claim.citedChunkIds, Absent(chunks))|
  }

  // A claim without citations is unsupported. Otherwise each cited source that was not retrieved counts as
  // unsupported, and after those stands, pair by pair, exactly what was said about the claim's own pairs. The
  // claim has a substring match if and only if some retrieved source of it contains one of its terms.
  lemma StateTells(claims: seq<Claim>, chunks: map<string, string>, terms: string -> seq<string>,
                   verdict: nat -> Verdict, idx: nat)
    requires idx < |claims|
    ensures var pairs, claim := PendingPairs(claims, chunks), claims[idx];
            var st := StateAfter(claims, chunks, terms, verdict, idx, |pairs|);
            if claim.citedChunkIds == [] then
              st == ClaimState([Unsupported], ["claim has no citation"], false)
            else TellsOfClaim(st, claim, idx, chunks, terms(claim.text), pairs, verdict)
  {
    var pairs, claim := PendingPairs(claims, chunks), claims[idx];
    if claim.citedChunkIds == [] {
      NoPairs(claims, chunks, verdict, idx);
    } else {
      CitedTells(claim, idx, chunks, terms(claim.text), pairs, verdict);
    }
  }

  // The sources that were not retrieved come first, then the verdicts on the claim's own pairs, in order.
  ghost predicate TellsOfClaim(st: ClaimState, claim: Claim, idx: nat, chunks: map<string, string>, terms: seq<string>,
                               pairs: seq<Pair>, verdict: nat -> Verdict)
  {
    && (forall j :: 0 <= j < FirstJudged(claim, chunks) ==>
          JudgedAt(st, j, Verdict(Unsupported, "chunk_id not in retrieved set")))
    && (forall k :: 0 <= k < |pairs| && pairs[k].claim == idx ==>
          JudgedAt(st, FirstJudged(claim, chunks) + CountOf(pairs[..k], idx), verdict(k)))
    && (st.substringMatch <==> HasTerm(claim.citedChunkIds, chunks, terms))
  }

  lemma CitedTells(claim: Claim, idx: nat, chunks: map<string, string>, terms: seq<string>, pairs: seq<Pair>,
                   verdict: nat -> Verdict)
    ensures var vs := VerdictsFor(pairs, verdict, idx, |pairs|);
            TellsOfClaim(AddAll(Screened(claim.citedChunkIds, chunks, terms), vs), claim, idx, chunks, terms, pairs,
                         verdict)
  {
    var start, vs := Screened(claim.citedChunkIds, chunks, terms), VerdictsFor(pairs, verdict, idx, |pairs|);
    ScreenedTells(claim.citedChunkIds, chunks, terms);
    AddAllTells(start, vs);
    forall k | 0 <= k < |pairs| && pairs[k].claim == idx
      ensures JudgedAt(AddAll(start, vs), |start.statuses| + CountOf(pairs[..k], idx), verdict(k))
    {
      VerdictAt(pairs, verdict, idx, |pairs|, k);
      AddedAt(start, vs, CountOf(pairs[..k], idx));
    }
  }

  lemma AddedAt(st: ClaimState, vs: seq<Verdict>, j: nat)
    requires |st.statuses| == |st.reasons| && j < |vs|
    ensures JudgedAt(AddAll(st, vs), |st.statuses| + j, vs[j])
  {
    AddAllTells(st, vs);
  }

  // The status and the reason at a position are those of the verdict.
  predicate JudgedAt(st: ClaimState, at: nat, v: Verdict) {
    at < |st.statuses| && at < |st.reasons| && st.statuses[at] == v.status && st.reasons[at] == v.reason
  }

  lemma NoPairs(claims: seq<Claim>, chunks: map<string, string>, verdict: nat -> Verdict, idx: nat)
    requires idx < |claims| && claims[idx].citedChunkIds == []
    ensures VerdictsFor(PendingPairs(claims, chunks), verdict, idx, |PendingPairs(claims, chunks)|) == []
  {
    var pairs := PendingPairs(claims, chunks);
    VerdictsCount(pairs, verdict, idx, |pairs|);
    assert pairs[..|pairs|] == pairs;
    PairsCount(claims, chunks, |claims|, idx);
  }

  // The chunks a claim is asked about, in the order of its pairs.
  function AskedAbout(pairs: seq<Pair>, idx: nat): seq<string> {
    if pairs == [] then []
    else
      var last := pairs[|pairs| - 1];
      AskedAbout(pairs[..|pairs| - 1], idx) + if last.claim == idx then [last.chunkId] else []
  }

  lemma {:induction false} AskedConcat(p: seq<Pair>, q: seq<Pair>, idx: nat)
    ensures AskedAbout(p + q, idx) == AskedAbout(p, idx) + AskedAbout(q, idx)
  {
    if q == [] {
      assert p + q == p;
    } else {
      assert (p + q)[..|p + q| - 1] == p + q[..|q| - 1];
      AskedConcat(p, q[..|q| - 1], idx);
    }
  }

  lemma {:induction false} KnownAsked(ids: seq<string>, chunks: map<string, string>, idx: nat, other: nat)
    ensures AskedAbout(KnownPairs(ids, chunks, idx), idx) == Filter(ids, Not(Absent(chunks)))
    ensures other != idx ==> AskedAbout(KnownPairs(ids, chunks, idx), other) == []
  {
    if ids != [] {
      var init, id := ids[..|ids| - 1], ids[|ids| - 1];
      assert ids == init + [id];
      KnownAsked(init, chunks, idx, other);
      FilterSnoc(init, id, Not(Absent(chunks)));
      var last := if id in chunks then [Pair(idx, id)] else [];
      AskedConcat(KnownPairs(init, chunks, idx), last, idx);
      AskedConcat(KnownPairs(init, chunks, idx), last, other);
      assert last != [] ==> last[..0] == [];
    }
  }

  lemma {:induction false} NotAskedYet(claims: seq<Claim>, chunks: map<string, string>, n: nat, idx: nat)
    requires n <= idx < |claims|
    ensures AskedAbout(PairsUpTo(claims, chunks, n), idx) == []
    decreases n
  {
    if n > 0 {
      NotAskedYet(claims, chunks, n - 1, idx);
      AskedNext(claims, chunks, n, idx, []);
    }
  }

  lemma {:induction false} AskedUpTo(claims: seq<Claim>, chunks: map<string, string>, n: nat, idx: nat)
    requires idx < n <= |claims|
    ensures AskedAbout(PairsUpTo(claims, chunks, n), idx) == Retrieved(claims[idx], chunks)
    decreases n
  {
    if n - 1 == idx {
      NotAskedYet(claims, chunks, n - 1, idx);
      AskedNext(claims, chunks, n, idx, []);
    } else {
      AskedUpTo(claims, chunks, n - 1, idx);
      AskedNext(claims, chunks, n, idx, Retrieved(claims[idx], chunks));
    }
  }

  // The cited sources of a claim that were retrieved.
  function Retrieved(claim: Claim, chunks: map<string, string>): seq<string> {
    Filter(claim.citedChunkIds, Not(Absent(chunks)))
  }

  lemma {:induction false} AskedNext(claims: seq<Claim>, chunks: map<string, string>, n: nat, idx: nat,
                                     before: seq<string>)
    requires 0 < n <= |claims| && before == AskedAbout(PairsUpTo(claims, chunks, n - 1), idx)
    ensures idx != n - 1 ==> AskedAbout(PairsUpTo(claims, chunks, n), idx) == before
    ensures idx == n - 1 && before == [] ==>
      AskedAbout(PairsUpTo(claims, chunks, n), idx) == Retrieved(claims[n - 1], chunks)
  {
    AskedConcat(PairsUpTo(claims, chunks, n - 1), KnownPairs(claims[n - 1].citedChunkIds, chunks, n - 1), idx);
    KnownAsked(claims[n - 1].citedChunkIds, chunks, n - 1, idx);
    assert before + [] == before;
  }

  // The model is asked about exactly the retrieved sources of each claim, in the order it cites them.
  lemma AskedAboutRetrieved(claims: seq<Claim>, chunks: map<string, string>, idx: nat)
    requires idx < |claims|
    ensures AskedAbout(PendingPairs(claims, chunks), idx) == Retrieved(claims[idx], chunks)
  {
    AskedUpTo(claims, chunks, |claims|, idx);
  }

  lemma {:induction false} VerdictsAgree(pairs: seq<Pair>, v: nat -> Verdict, w: nat -> Verdict, idx: nat, n: nat)
    requires n <= |pairs| && forall k: nat :: k < n ==> v(k) == w(k)
    ensures VerdictsFor(pairs, v, idx, n) == VerdictsFor(pairs, w, idx, n)
    decreases n
  {
    if n > 0 { VerdictsAgree(pairs, v, w, idx, n - 1); }
  }

  // Batching does not matter: replies in batches of ten and one reply per pair give the same states
  // when they say the same about every pair.
  lemma BatchingIsPairwise(claims: seq<Claim>, chunks: map<string, string>, terms: string -> seq<string>,
                           batched: nat -> Reply, single: nat -> Reply, idx: nat)
    requires idx < |claims|
    requires forall k: nat :: k < |PendingPairs(claims, chunks)| ==>
      Lookup(batched(k / BATCH_SIZE), k % BATCH_SIZE) == Lookup(single(k), 0)
    ensures var n := |PendingPairs(claims, chunks)|;
            StateAfter(claims, chunks, terms, PairVerdicts(batched, BATCH_SIZE), idx, n) ==
            StateAfter(claims, chunks, terms, PairVerdicts(single, 1), idx, n)
  {
    var pairs := PendingPairs(claims, chunks);
    forall k: nat | k < |pairs| ensures PairVerdict(batched, BATCH_SIZE, k) == PairVerdict(single, 1, k) {
      assert k / 1 == k && k % 1 == 0;
    }
    VerdictsAgree(pairs, PairVerdicts(batched, BATCH_SIZE), PairVerdicts(single, 1),
        idx, |pairs|);
  }

  // ----- The loops -----

  // The first pass over one claim: what is decided at once, and which pairs are left to the model.
  method ScreenClaim(claim: Claim, idx: nat, chunks: map<string, string>, terms: string -> seq<string>)
    returns (st: ClaimState, pairs: seq<Pair>)
    ensures st == Immediate(claim, chunks, terms) && pairs == KnownPairs(claim.citedChunkIds, chunks, idx)
  {
    st, pairs := ClaimState([], [], false), [];
    if claim.citedChunkIds == [] {
      return AddStatus(st, NO_CITATION), [];
    }
    var ids := claim.citedChunkIds;
    for k := 0 to |ids|
      invariant st == Screened(ids[..k], chunks, terms(claim.text)) && pairs == KnownPairs(ids[..k], chunks, idx)
    {
      assert ids[..k + 1][..k] == ids[..k];
      if ids[k] !in chunks {
        st := AddStatus(st, NOT_RETRIEVED);
      } else {
        var highSignal := terms(claim.text);
        if Hit(highSignal, chunks[ids[k]]) {
          st := st.(substringMatch := true);
        }
        pairs := pairs + [Pair(idx, ids[k])];
      }
    }
    assert ids[..|ids|] == ids;
  }

  lemma RepliedVerdicts(batch: seq<Pair>, verdict: nat -> Verdict, reply: Reply, i: nat)
    requires forall n: nat :: n < |batch| ==> Says(reply, n, verdict(n))
    ensures VerdictsFor(batch, verdict, i, |batch|) == VerdictsFor(batch, Answers(reply), i, |batch|)
  {
    forall n: nat | n < |batch| ensures verdict(n) == Answers(reply)(n) { SaysIff(reply, n, verdict(n)); }
    VerdictsAgree(batch, verdict, Answers(reply), i, |batch|);
  }

  lemma RepliedState(claims: seq<Claim>, chunks: map<string, string>, terms: string -> seq<string>,
                     verdict: nat -> Verdict, reply: nat -> Reply, i: nat)
    requires i < |claims| && AsReplied(verdict, reply, |PendingPairs(claims, chunks)|)
    ensures var n := |PendingPairs(claims, chunks)|;
            StateAfter(claims, chunks, terms, verdict, i, n) ==
            StateAfter(claims, chunks, terms, PairVerdicts(reply, BATCH_SIZE), i, n)
  {
    var pairs := PendingPairs(claims, chunks);
    forall k: nat | k < |pairs| ensures verdict(k) == PairVerdicts(reply, BATCH_SIZE)(k) {
      SaysIff(reply(k / 10), k % 10, verdict(k));
    }
    VerdictsAgree(pairs, verdict, PairVerdicts(reply, BATCH_SIZE), i, |pairs|);
  }

  // One call: on an answer each pair gets its entry, otherwise every pair of the batch is unanswered.
  method CallLlmBatch(results: array<ClaimState>, batch: seq<Pair>, reply: Reply)
    requires forall k :: 0 <= k < |batch| ==> batch[k].claim < results.Length
    modifies results
    ensures results[..] == WithVerdicts(old(results[..]), batch, reply, |batch|)
    ensures forall verdict: nat -> Verdict, i :: 0 <= i < results.Length ==>
      (forall n: nat :: n < |batch| ==> Says(reply, n, verdict(n))) ==>
      results[i] == AddAll(old(results[i]), VerdictsFor(batch, verdict, i, |batch|))
  {
    ghost var start := results[..];
    forall verdict: nat -> Verdict, i | 0 <= i && forall n: nat :: n < |batch| ==> Says(reply, n, verdict(n))
      ensures VerdictsFor(batch, verdict, i, |batch|) == VerdictsFor(batch, Answers(reply), i, |batch|)
    {
      RepliedVerdicts(batch, verdict, reply, i);
    }
    for n := 0 to |batch|
      invariant results[..] == WithVerdicts(start, batch, reply, n)
    {
      var c := batch[n].claim;
      var answer := if reply.Results? then LookupIn(reply.entries, n) else UNANSWERED;
      results[c] := AddStatus(results[c], answer);
      GivenOneMore(start, batch, reply, n);
    }
  }

  // Each state with the verdicts of its own pairs among the first n of the batch.
  function WithVerdicts(states: seq<ClaimState>, batch: seq<Pair>, reply: Reply, n: nat): (after: seq<ClaimState>)
    requires n <= |batch|
    ensures |after| == |states|
    ensures forall i :: 0 <= i < |states| ==> after[i] == AddAll(states[i], VerdictsFor(batch, Answers(reply), i, n))
  {
    seq(|states|, (i: nat) requires i < |states| => AddAll(states[i], VerdictsFor(batch, Answers(reply), i, n)))
  }

  lemma GivenOneMore(states: seq<ClaimState>, batch: seq<Pair>, reply: Reply, n: nat)
    requires n < |batch| && batch[n].claim < |states|
    ensures var before, c := WithVerdicts(states, batch, reply, n), batch[n].claim;
            WithVerdicts(states, batch, reply, n + 1) == before[c := AddStatus(before[c], Lookup(reply, n))]
  {
    var before, c := WithVerdicts(states, batch, reply, n), batch[n].claim;
    var after := before[c := AddStatus(before[c], Lookup(reply, n))];
    forall i | 0 <= i < |states| ensures after[i] == AddAll(states[i], VerdictsFor(batch, Answers(reply), i, n + 1)) {
      JudgedPair(states[i], batch, Answers(reply), i, n);
    }
  }

  lemma JudgedPair(st: ClaimState, batch: seq<Pair>, v: nat -> Verdict, i: nat, n: nat)
    requires n < |batch|
    ensures AddAll(st, VerdictsFor(batch, v, i, n + 1)) ==
            var before := AddAll(st, VerdictsFor(batch, v, i, n));
            if batch[n].claim == i then AddStatus(before, v(n)) else before
  {
    var vs := VerdictsFor(batch, v, i, n);
    assert (vs + [v(n)])[..|vs|] == vs;
    assert vs + [] == vs;
  }

  lemma {:induction false} AddAllConcat(st: ClaimState, vs: seq<Verdict>, ws: seq<Verdict>)
    ensures AddAll(AddAll(st, vs), ws) == AddAll(st, vs + ws)
  {
    if ws == [] {
      assert vs + ws == vs;
    } else {
      AddAllConcat(st, vs, ws[..|ws| - 1]);
      assert (vs + ws)[..|vs + ws| - 1] == vs + ws[..|ws| - 1];
    }
  }

  lemma {:induction false} VerdictsSplit(pairs: seq<Pair>, v: nat -> Verdict, idx: nat, start: nat,
                                         batch: seq<Pair>, w: nat -> Verdict, n: nat)
    requires start + |batch| <= |pairs| && batch == pairs[start..start + |batch|] && n <= |batch|
    requires forall k: nat :: k < n ==> w(k) == v(start + k)
    ensures VerdictsFor(pairs, v, idx, start + n) == VerdictsFor(pairs, v, idx, start) + VerdictsFor(batch, w, idx, n)
    decreases n
  {
    if n > 0 {
      VerdictsSplit(pairs, v, idx, start, batch, w, n - 1);
      assert batch[n - 1] == pairs[start + n - 1];
    }
  }

  lemma {:induction false} BatchStep(claims: seq<Claim>, chunks: map<string, string>, terms: string -> seq<string>,
                                     reply: nat -> Reply, idx: nat, b: nat, start: nat, end: nat)
    requires idx < |claims| && start == BATCH_SIZE * b && start <= end <= start + BATCH_SIZE
    requires end <= |PendingPairs(claims, chunks)|
    ensures var v, batch := PairVerdicts(reply, BATCH_SIZE), PendingPairs(claims, chunks)[start..end];
            StateAfter(claims, chunks, terms, v, idx, end) ==
            AddAll(StateAfter(claims, chunks, terms, v, idx, start),
                   VerdictsFor(batch, Answers(reply(b)), idx, |batch|))
  {
    var pairs := PendingPairs(claims, chunks);
    BatchVerdicts(pairs, reply, idx, b, start, end);
    AddAllConcat(Immediate(claims[idx], chunks, terms),
        VerdictsFor(pairs, PairVerdicts(reply, BATCH_SIZE), idx, start),
        VerdictsFor(pairs[start..end], Answers(reply(b)), idx, end - start));
  }

  lemma {:induction false} BatchVerdicts(pairs: seq<Pair>, reply: nat -> Reply, idx: nat, b: nat, start: nat, end: nat)
    requires start == BATCH_SIZE * b && start <= end <= start + BATCH_SIZE && end <= |pairs|
    ensures var v := PairVerdicts(reply, BATCH_SIZE);
            VerdictsFor(pairs, v, idx, end) ==
            VerdictsFor(pairs, v, idx, start) + VerdictsFor(pairs[start..end], Answers(reply(b)), idx, end - start)
  {
    var v, w := PairVerdicts(reply, BATCH_SIZE), Answers(reply(b));
    forall k: nat | k < end - start ensures w(k) == v(start + k) {
      PlaceInBatch(b, k);
    }
    VerdictsSplit(pairs, v, idx, start, pairs[start..end], w, end - start);
  }

  lemma PlaceInBatch(b: nat, k: nat)
    requires k < BATCH_SIZE
    ensures (BATCH_SIZE * b + k) / BATCH_SIZE == b && (BATCH_SIZE * b + k) % BATCH_SIZE == k
  {
  }

  lemma {:induction false} PairClaims(claims: seq<Claim>, chunks: map<string, string>, n: nat)
    requires n <= |claims|
    ensures forall k :: 0 <= k < |PairsUpTo(claims, chunks, n)| ==> PairsUpTo(claims, chunks, n)[k].claim < n
    decreases n
  {
    if n > 0 {
      PairClaims(claims, chunks, n - 1);
      KnownPairsOf(claims[n - 1].citedChunkIds, chunks, n - 1);
    }
  }

  lemma {:induction false} KnownPairsOf(ids: seq<string>, chunks: map<string, string>, idx: nat)
    ensures forall k :: 0 <= k < |KnownPairs(ids, chunks, idx)| ==> KnownPairs(ids, chunks, idx)[k].claim == idx
  {
    if ids != [] { KnownPairsOf(ids[..|ids| - 1], chunks, idx); }
  }

  // Batch after batch; the last one may be short.
  method RunSemanticPass(claims: seq<Claim>, chunks: map<string, string>, terms: string -> seq<string>,
                         pending: seq<Pair>, results: array<ClaimState>, reply: nat -> Reply)
    requires pending == PendingPairs(claims, chunks) && results.Length == |claims|
    requires forall i :: 0 <= i < |claims| ==> results[i] == Immediate(claims[i], chunks, terms)
    modifies results
    ensures results[..] == StatesAfter(claims, chunks, terms, PairVerdicts(reply, BATCH_SIZE), |pending|)
  {
    PairClaims(claims, chunks, |claims|);
    NothingJudged(claims, chunks, terms, PairVerdicts(reply, BATCH_SIZE), results[..]);
    var start, b := 0, 0;
    while start < |pending|
      invariant start == if BATCH_SIZE * b <= |pending| then BATCH_SIZE * b else |pending|
      invariant results[..] == StatesAfter(claims, chunks, terms, PairVerdicts(reply, BATCH_SIZE), start)
    {
      var end := if start + BATCH_SIZE <= |pending| then start + BATCH_SIZE else |pending|;
      var batch := pending[start..end];
      CallLlmBatch(results, batch, reply(b));
      JudgedBatch(claims, chunks, terms, reply, b, start, end);
      start := end;
      b := b + 1;
    }
  }

  // The states of all claims after the first n pairs.
  function StatesAfter(claims: seq<Claim>, chunks: map<string, string>, terms: string -> seq<string>,
                       verdict: nat -> Verdict, n: nat): (states: seq<ClaimState>)
    requires n <= |PendingPairs(claims, chunks)|
    ensures |states| == |claims|
    ensures forall i :: 0 <= i < |claims| ==> states[i] == StateAfter(claims, chunks, terms, verdict, i, n)
  {
    seq(|claims|, (i: nat) requires i < |claims| => StateAfter(claims, chunks, terms, verdict, i, n))
  }

  lemma NothingJudged(claims: seq<Claim>, chunks: map<string, string>, terms: string -> seq<string>,
                      verdict: nat -> Verdict, states: seq<ClaimState>)
    requires |states| == |claims|
    requires forall i :: 0 <= i < |claims| ==> states[i] == Immediate(claims[i], chunks, terms)
    ensures states == StatesAfter(claims, chunks, terms, verdict, 0)
  {
  }

  lemma JudgedBatch(claims: seq<Claim>, chunks: map<string, string>, terms: string -> seq<string>,
                    reply: nat -> Reply, b: nat, start: nat, end: nat)
    requires start == BATCH_SIZE * b && start <= end <= start + BATCH_SIZE && end <= |PendingPairs(claims, chunks)|
    ensures var v, batch := PairVerdicts(reply, BATCH_SIZE), PendingPairs(claims, chunks)[start..end];
            StatesAfter(claims, chunks, terms, v, end) ==
            WithVerdicts(StatesAfter(claims, chunks, terms, v, start), batch, reply(b), |batch|)
  {
    forall i | 0 <= i < |claims| {
      BatchStep(claims, chunks, terms, reply, i, b, start, end);
    }
  }

  method ScreenClaims(claims: seq<Claim>, chunks: map<string, string>, terms: string -> seq<string>,
                      results: array<ClaimState>)
    returns (pending: seq<Pair>)
    requires results.Length == |claims|
    modifies results
    ensures pending == PendingPairs(claims, chunks)
    ensures forall i :: 0 <= i < |claims| ==> results[i] == Immediate(claims[i], chunks, terms)
  {
    pending := [];
    for idx := 0 to |claims|
      invariant pending == PairsUpTo(claims, chunks, idx)
      invariant forall i :: 0 <= i < idx ==> results[i] == Immediate(claims[i], chunks, terms)
    {
      var st, pairs := ScreenClaim(claims[idx], idx, chunks, terms);
      results[idx] := st;
      pending := pending + pairs;
    }
  }

  // One entry per claim, in order, concluded from the verdicts of its own pairs.
  method ValidateClaims(claims: seq<Claim>, chunks: map<string, string>, terms: string -> seq<string>,
                        reply: nat -> Reply)
    returns (perClaim: seq<ClaimValidation>)
    ensures |perClaim| == |claims|
    ensures forall i :: 0 <= i < |claims| ==>
      perClaim[i] == Concluded(claims[i],
        StateAfter(claims, chunks, terms, PairVerdicts(reply, BATCH_SIZE), i,
            |PendingPairs(claims, chunks)|))
  {
    var results := new ClaimState[|claims|](_ => ClaimState([], [], false));
    var pending := ScreenClaims(claims, chunks, terms, results);
    RunSemanticPass(claims, chunks, terms, pending, results, reply);
    perClaim := ConcludeClaims(claims, results);
  }

  method ConcludeClaims(claims: seq<Claim>, results: array<ClaimState>) returns (perClaim: seq<ClaimValidation>)
    requires results.Length == |claims|
    ensures |perClaim| == |claims|
    ensures forall i :: 0 <= i < |claims| ==> perClaim[i] == Concluded(claims[i], results[..][i])
  {
    perClaim := [];
    for idx := 0 to |claims|
      invariant |perClaim| == idx
      invariant forall i :: 0 <= i < idx ==> perClaim[i] == Concluded(claims[i], results[..][i])
    {
      perClaim := perClaim + [Concluded(claims[idx], results[idx])];
    }
  }

  method ValidateSection(sectionText: string, chunks: map<string, string>, terms: string -> seq<string>,
                         reply: nat -> Reply)
    returns (claims: seq<Claim>, perClaim: seq<ClaimValidation>)
    ensures Segmented(sectionText, claims)
    ensures |perClaim| == |claims|
    ensures forall verdict: nat -> Verdict, i :: 0 <= i < |claims| ==>
      var n := |PendingPairs(claims, chunks)|;
      AsReplied(verdict, reply, n) ==>
      perClaim[i] == Concluded(claims[i], StateAfter(claims, chunks, terms, verdict, i, n))
  {
    claims := SegmentClaims(sectionText);
    perClaim := ValidateClaims(claims, chunks, terms, reply);
    ghost var n := |PendingPairs(claims, chunks)|;
    forall verdict: nat -> Verdict, i | 0 <= i < |claims| && AsReplied(verdict, reply, n)
      ensures StateAfter(claims, chunks, terms, verdict, i, n) ==
              StateAfter(claims, chunks, terms, PairVerdicts(reply, BATCH_SIZE), i, n)
    {
      RepliedState(claims, chunks, terms, verdict, reply, i);
    }
  }

  // What a report entry says: never a word outside the four, and exactly as bad as the claim's worst
  // verdict.
  lemma ConcludedIsWorst(claims: seq<Claim>, chunks: map<string, string>, terms: string -> seq<string>,
                         verdict: nat -> Verdict, idx: nat)
    requires idx < |claims|
    ensures var st := StateAfter(claims, chunks, terms, verdict, idx, |PendingPairs(claims, chunks)|);
            var r := Concluded(claims[idx], st);
            && r.claim == claims[idx] && !r.status.Other? && r.substringMatch == st.substringMatch
            && (forall k :: 0 <= k < |st.statuses| ==> Severity(st.statuses[k]) <= Severity(r.status))
            && (exists k :: 0 <= k < |st.statuses| && Severity(st.statuses[k]) == Severity(r.status))
            && (exists k :: 0 <= k < |st.reasons| && Explains(st, r.status, k) && r.reason == Some(st.reasons[k]))
  {
    OneStatusPerPair(claims, chunks, terms, verdict, idx);
    var st := StateAfter(claims, chunks, terms, verdict, idx, |PendingPairs(claims, chunks)|);
    MergeIsWorst(st.statuses);
    var k := ReasonAt(st, MergeStatuses(st.statuses), 0);
    assert Explains(st, MergeStatuses(st.statuses), if k < |st.statuses| then k else 0);
  }

  predicate GivesReason(st: ClaimState, status: Status, k: nat) {
    k < |st.statuses| && k < |st.reasons| && st.statuses[k] == status && st.reasons[k] != ""
  }

  // The first reason that was given with the status, or the very first one if none was.
  ghost predicate Explains(st: ClaimState, status: Status, k: nat) {
    && (GivesReason(st, status, k) || (k == 0 && forall j: nat :: !GivesReason(st, status, j)))
    && forall j: nat :: j < k ==> !GivesReason(st, status, j)
  }

  lemma {:induction false} ReasonAt(st: ClaimState, status: Status, i: nat) returns (k: nat)
    requires |st.statuses| == |st.reasons| && i <= |st.statuses|
    requires forall j: nat :: j < i ==> !GivesReason(st, status, j)
    ensures k < |st.statuses| ==>
      && GivesReason(st, status, k) && (forall j: nat :: j < k ==> !GivesReason(st, status, j))
      && FirstReason(st.statuses, st.reasons, status, i) == Some(st.reasons[k])
    ensures k >= |st.statuses| ==>
      (forall j: nat :: !GivesReason(st, status, j)) && FirstReason(st.statuses, st.reasons, status, i) == None
    decreases |st.statuses| - i
  {
    if i == |st.statuses| || GivesReason(st, status, i) {
      k := i;
    } else {
      k := ReasonAt(st, status, i + 1);
    }
  }

  // ----- Writing the report back on the citations -----

  class CitationDraft {
    const chunkId: string
    var validationStatus: Option<Status>
    var validationReason: Option<string>

    constructor (chunkId: string)
      ensures this.chunkId == chunkId && validationStatus == None && validationReason == None
    {
      this.chunkId := chunkId;
      validationStatus, validationReason := None, None;
    }
  }

  predicate Cites(report: seq<ClaimValidation>, i: nat, chunkId: string) {
    i < |report| && chunkId in report[i].claim.citedChunkIds
  }

  predicate FirstCites(report: seq<ClaimValidation>, i: nat, chunkId: string) {
    Cites(report, i, chunkId) && forall j: nat :: j < i ==> !Cites(report, j, chunkId)
  }

  // The dictionary after the first n entries: chunk id to the index of the first claim citing it.
  ghost predicate Indexed(index: map<string, nat>, report: seq<ClaimValidation>, n: nat) {
    && (forall id :: id in index ==> index[id] < n && FirstCites(report, index[id], id))
    && (forall id, i: nat :: i < n && Cites(report, i, id) ==> id in index)
  }

  method IndexClaims(report: seq<ClaimValidation>) returns (index: map<string, nat>)
    ensures Indexed(index, report, |report|)
  {
    index := map[];
    for n := 0 to |report|
      invariant Indexed(index, report, n)
    {
      ghost var before := index;
      var ids := report[n].claim.citedChunkIds;
      for k := 0 to |ids|
        invariant forall id :: id in index <==> id in before || id in ids[..k]
        invariant forall id :: id in index ==> index[id] == if id in before then before[id] else n
      {
        if ids[k] !in index { index := index[ids[k] := n]; }
      }
      assert ids[..|ids|] == ids;
    }
  }

  // Each citation takes status and reason of the first claim that cites its chunk, or is unsupported.
  ghost predicate Annotated(report: seq<ClaimValidation>, c: CitationDraft)
    reads c
  {
    && (forall i: nat :: FirstCites(report, i, c.chunkId) ==>
          c.validationStatus == Some(report[i].status) && c.validationReason == report[i].reason)
    && ((forall i :: 0 <= i < |report| ==> !Cites(report, i, c.chunkId)) ==>
          c.validationStatus == Some(Unsupported) && c.validationReason == Some("chunk_id not matched to any claim"))
  }

  method Annotate(index: map<string, nat>, report: seq<ClaimValidation>, c: CitationDraft)
    requires Indexed(index, report, |report|)
    modifies c
    ensures Annotated(report, c)
  {
    if c.chunkId in index {
      c.validationStatus := Some(report[index[c.chunkId]].status);
      c.validationReason := report[index[c.chunkId]].reason;
    } else {
      c.validationStatus := Some(Unsupported);
      c.validationReason := Some("chunk_id not matched to any claim");
    }
  }

  method ApplyReportToCitations(report: seq<ClaimValidation>, citations: seq<CitationDraft>)
    modifies citations
    ensures forall c :: c in citations ==> Annotated(report, c)
  {
    var index := IndexClaims(report);
    for k := 0 to |citations|
      invariant forall j :: 0 <= j < k ==> Annotated(report, citations[j])
    {
      Annotate(index, report, citations[k]);
    }
  }
}
