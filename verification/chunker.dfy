// Sentence splitting and the overlapping paragraph splitter of app/ingest/chunker.py.
// Token counts come from an arbitrary counting function.
module Chunker {
  import opened Text

  // ----- Sentences -----

  predicate IsUpper(c: char) {
    'A' <= c <= 'Z'
  }

  // A sentence may start at q: a capital letter after white space after a full stop.
  predicate CutAt(s: string, q: nat) {
    && 0 < q < |s| && IsUpper(s[q]) && IsSpace(s[q - 1])
    && var r := BackSpace(s, 0, q);
       0 < r && s[r - 1] == '.'
  }

  // The first cut after p, or the end of the text.
  function NextCut(s: string, p: nat): (q: nat)
    requires p < |s|
    ensures p < q <= |s| && (q < |s| ==> CutAt(s, q))
    ensures forall k :: p < k < q ==> !CutAt(s, k)
    decreases |s| - p
  {
    if p + 1 == |s| || CutAt(s, p + 1) then p + 1 else NextCut(s, p + 1)
  }

  // A cut is where a capital letter follows white space that follows a full stop.
  lemma CutIff(s: string, q: nat)
    ensures CutAt(s, q) <==>
            q < |s| && 'A' <= s[q] <= 'Z' && exists r :: 0 <= r < q - 1 && s[r] == '.' && SpaceIn(s, r + 1, q)
  {
    if CutAt(s, q) {
      var r := BackSpace(s, 0, q);
      assert s[r - 1] == '.' && SpaceIn(s, r - 1 + 1, q);
    }
    if q < |s| {
      if r :| 0 <= r < q - 1 && s[r] == '.' && SpaceIn(s, r + 1, q) {
        PrintableIsNotSpace('.');
        assert IsSpace(s[q - 1]);
        var b := BackSpace(s, 0, q);
        assert b == r + 1;
      }
    }
  }

  function KeepSegment(segment: string): seq<string> {
    if Trim(segment) == "" then [] else [Trim(segment)]
  }

  // The trimmed, non-blank pieces between the cuts from p on.
  function SentencesFrom(s: string, p: nat): seq<string>
    requires p <= |s|
    decreases |s| - p
  {
    if p == |s| then []
    else KeepSegment(s[p..NextCut(s, p)]) + SentencesFrom(s, NextCut(s, p))
  }

  function SentencesOf(s: string): seq<string> {
    SentencesFrom(s, 0)
  }

  lemma KeepSegmentWords(segment: string)
    ensures WordsOfAll(KeepSegment(segment)) == Words(segment)
  {
    TrimWords(segment);
    assert WordsOfAll([Trim(segment)]) == Words(Trim(segment)) + WordsOfAll([]);
  }

  lemma WordsAtCut(s: string, p: nat, q: nat)
    requires p < q <= |s| && (q == |s| || IsSpace(s[q - 1]))
    ensures Words(s[p..]) == Words(s[p..q]) + Words(s[q..])
  {
    assert s[p..] == s[p..q] + s[q..];
    assert s[p..q][q - p - 1] == s[q - 1];
    WordsConcat(s[p..q], s[q..]);
  }

  lemma {:induction false} SentencesFromWords(s: string, p: nat)
    requires p <= |s|
    ensures WordsOfAll(SentencesFrom(s, p)) == Words(s[p..])
    decreases |s| - p
  {
    if p < |s| {
      var q := NextCut(s, p);
      SentencesFromWords(s, q);
      KeepSegmentWords(s[p..q]);
      WordsOfAllConcat(KeepSegment(s[p..q]), SentencesFrom(s, q));
      WordsAtCut(s, p, q);
    }
  }

  // Sentence splitting loses and invents no word; every sentence is trimmed and non-blank.
  lemma SentencesConserveWords(s: string)
    ensures WordsOfAll(SentencesOf(s)) == Words(s)
    ensures SentencesOf(s) == [] <==> AllSpace(s)
  {
    SentencesFromWords(s, 0);
    assert s[0..] == s;
    if SentencesOf(s) == [] { NoWordsFromMeansSpace(s, 0); }
    if AllSpace(s) { BlankHasNoSentence(s, 0); }
  }

  lemma {:induction false} BlankHasNoSentence(s: string, p: nat)
    requires p <= |s| && AllSpace(s)
    ensures SentencesFrom(s, p) == []
    decreases |s| - p
  {
    if p < |s| {
      TrimEnds(s[p..NextCut(s, p)]);
      BlankHasNoSentence(s, NextCut(s, p));
    }
  }

  // The start, the cuts in order, and the end: what the pattern's matches give.
  function CutPositions(s: string, p: nat): (ps: seq<nat>)
    requires p <= |s|
    ensures |ps| > 0 && ps[0] == p && ps[|ps| - 1] == |s|
    ensures forall k :: 0 <= k < |ps| - 1 ==> ps[k] < |s| && ps[k + 1] == NextCut(s, ps[k])
    decreases |s| - p
  {
    if p == |s| then [p] else [p] + CutPositions(s, NextCut(s, p))
  }

  // The positions are the start, every cut, and the end.
  lemma {:induction false} CutsAreAll(s: string, p: nat, q: nat)
    requires p <= |s|
    ensures q in CutPositions(s, p) <==> p <= q <= |s| && (q == p || q == |s| || CutAt(s, q))
    decreases |s| - p
  {
    if p < |s| {
      var next := NextCut(s, p);
      CutsAreAll(s, next, q);
      assert CutPositions(s, p) == [p] + CutPositions(s, next);
    }
  }

  // The sentences are the trimmed pieces between neighbouring positions, without the blank ones.
  lemma {:induction false} SentencesArePieces(s: string, p: nat)
    requires p <= |s|
    ensures SentencesFrom(s, p) == Pieces(s, CutPositions(s, p))
    decreases |s| - p
  {
    if p < |s| {
      SentencesArePieces(s, NextCut(s, p));
      PiecesCons(s, p, CutPositions(s, NextCut(s, p)));
    }
  }

  lemma {:induction false} PiecesCons(s: string, p: nat, ps: seq<nat>)
    requires ps != [] && p <= ps[0] <= |s|
    ensures Pieces(s, [p] + ps) == KeepSegment(s[p..ps[0]]) + Pieces(s, ps)
  {
    assert ([p] + ps)[1..] == ps;
  }

  function Pieces(s: string, ps: seq<nat>): seq<string> {
    if |ps| < 2 || !(ps[0] <= ps[1] <= |s|) then []
    else (if Trim(s[ps[0]..ps[1]]) == "" then [] else [Trim(s[ps[0]..ps[1]])]) + Pieces(s, ps[1..])
  }

  // One pass of the loop over consecutive positions.
  lemma SentencesStep(text: string, p: nat, q: nat, done: seq<string>)
    requires p < |text| && q == NextCut(text, p)
    ensures done + SentencesFrom(text, p) == (done + KeepSegment(text[p..q])) + SentencesFrom(text, q)
  {
  }

  method SplitAtSentences(text: string) returns (sentences: seq<string>)
    ensures sentences == SentencesOf(text)
  {
    var splitPositions := CutPositions(text, 0);
    sentences := [];
    for i := 0 to |splitPositions| - 1
      invariant splitPositions[i] <= |text|
      invariant sentences + SentencesFrom(text, splitPositions[i]) == SentencesFrom(text, 0)
    {
      var p, q := splitPositions[i], splitPositions[i + 1];
      SentencesStep(text, p, q, sentences);
      var segment := Trim(text[p..q]);
      sentences := if segment != "" then sentences + [segment] else sentences + [];
    }
  }

  // ----- Token arithmetic -----

  function Counts(ss: seq<string>, count: string -> nat): (t: seq<nat>)
    ensures |t| == |ss| && forall i :: 0 <= i < |ss| ==> t[i] == count(ss[i])
  {
    seq(|ss|, i requires 0 <= i < |ss| => count(ss[i]))
  }

  // The tokens of sentences a..b.
  function Sum(t: seq<nat>, a: nat, b: nat): nat
    requires a <= b <= |t|
    decreases b
  {
    if a == b then 0 else Sum(t, a, b - 1) + t[b - 1]
  }

  lemma {:induction false} SumSplit(t: seq<nat>, a: nat, m: nat, b: nat)
    requires a <= m <= b <= |t|
    ensures Sum(t, a, b) == Sum(t, a, m) + Sum(t, m, b)
    decreases b
  {
    if m < b { SumSplit(t, a, m, b - 1); }
  }

  // Walks back from sentence i while sentences stay within the overlap budget and none is
  // oversized; k is the position reached so far.
  function TailFrom(t: seq<nat>, lo: nat, k: nat, i: nat, max: int, overlap: int): (r: nat)
    requires lo <= k <= i <= |t|
    ensures lo <= r <= k
    decreases k
  {
    if lo < k && t[k - 1] <= max && Sum(t, k - 1, i) <= overlap
    then TailFrom(t, lo, k - 1, i, max, overlap) else k
  }

  // Where the longest admissible tail before sentence i starts.
  function TailStart(t: seq<nat>, i: nat, max: int, overlap: int): (k: nat)
    requires i <= |t|
    ensures k <= i
  {
    TailFrom(t, 0, i, i, max, overlap)
  }

  ghost predicate Admissible(t: seq<nat>, k: nat, i: nat, max: int, overlap: int)
    requires k <= i <= |t|
  {
    k == i || (Sum(t, k, i) <= overlap && forall m :: k <= m < i ==> t[m] <= max)
  }

  lemma {:induction false} TailFromIsLeast(t: seq<nat>, lo: nat, k: nat, i: nat, max: int, overlap: int)
    requires lo <= k <= i <= |t| && Admissible(t, k, i, max, overlap)
    ensures Admissible(t, TailFrom(t, lo, k, i, max, overlap), i, max, overlap)
    ensures forall j :: lo <= j <= k && Admissible(t, j, i, max, overlap) ==> TailFrom(t, lo, k, i, max, overlap) <= j
    decreases k
  {
    if lo < k && t[k - 1] <= max && Sum(t, k - 1, i) <= overlap {
      TailFromIsLeast(t, lo, k - 1, i, max, overlap);
    } else {
      forall j | lo <= j <= k && Admissible(t, j, i, max, overlap) ensures k <= j {
        if j < k { SumSplit(t, j, k - 1, i); }
      }
    }
  }

  lemma TailIsLeast(t: seq<nat>, i: nat, max: int, overlap: int)
    requires i <= |t|
    ensures Admissible(t, TailStart(t, i, max, overlap), i, max, overlap)
    ensures forall j :: 0 <= j <= i && Admissible(t, j, i, max, overlap) ==> TailStart(t, i, max, overlap) <= j
  {
    TailFromIsLeast(t, 0, i, i, max, overlap);
  }

  lemma TailMonotone(t: seq<nat>, i: nat, max: int, overlap: int)
    requires i < |t|
    ensures TailStart(t, i, max, overlap) <= TailStart(t, i + 1, max, overlap)
  {
    TailIsLeast(t, i, max, overlap);
    TailIsLeast(t, i + 1, max, overlap);
    var k := TailStart(t, i + 1, max, overlap);
    if k <= i {
      SumSplit(t, k, i, i + 1);
      assert Admissible(t, k, i, max, overlap);
    }
  }

  // ----- The loop as a state machine -----

  datatype Span = Span(lo: nat, hi: nat)

  // Sentence i is next, sentences start..i are the current chunk, out holds the finished ones.
  datatype Loop = Loop(i: nat, start: nat, out: seq<Span>)

  predicate Within(t: seq<nat>, st: Loop) {
    st.start <= st.i <= |t|
  }

  // One pass through the loop body. The kept tail is what the current chunk offers.
  function Step(t: seq<nat>, max: int, overlap: int, st: Loop): (r: Loop)
    requires Within(t, st) && st.i < |t|
    ensures Within(t, r)
  {
    if Sum(t, st.start, st.i) + t[st.i] <= max then st.(i := st.i + 1)
    else if st.start < st.i then
      Loop(st.i, KeptTail(t, st.start, st.i, overlap), st.out + [Span(st.start, st.i)])
    else
      Loop(st.i + 1, st.i + 1, st.out + [Span(st.i, st.i + 1)])
  }

  // The tail loop looks only at the overlap budget and at the current chunk.
  function KeptTail(t: seq<nat>, lo: nat, i: nat, overlap: int): (r: nat)
    requires lo <= i <= |t|
    ensures lo <= r <= i
  {
    KeptFrom(t, lo, i, i, overlap)
  }

  function KeptFrom(t: seq<nat>, lo: nat, k: nat, i: nat, overlap: int): (r: nat)
    requires lo <= k <= i <= |t|
    ensures lo <= r <= k
    decreases k
  {
    if lo < k && Sum(t, k - 1, i) <= overlap then KeptFrom(t, lo, k - 1, i, overlap) else k
  }

  function Iterate(t: seq<nat>, max: int, overlap: int, st: Loop, n: nat): (r: Loop)
    requires Within(t, st)
    ensures Within(t, r)
    decreases n
  {
    if n == 0 || st.i == |t| then st else Iterate(t, max, overlap, Step(t, max, overlap, st), n - 1)
  }

  ghost predicate Halts(t: seq<nat>, max: int, overlap: int, st: Loop)
    requires Within(t, st)
  {
    exists n: nat :: Iterate(t, max, overlap, st, n).i == |t|
  }

  // What a caller can check on the token counts alone: before every sentence but the first,
  // the tail that would be kept is empty or leaves room for the sentence.
  predicate Advances(t: seq<nat>, max: int, overlap: int) {
    forall i :: 0 < i < |t| ==> RoomAt(t, i, max, overlap)
  }

  predicate RoomAt(t: seq<nat>, i: nat, max: int, overlap: int)
    requires i < |t|
  {
    var k := TailStart(t, i, max, overlap);
    k == i || Sum(t, k, i) + t[i] <= max
  }

  // Holds in every reachable state: the current chunk fits and covers the admissible tail.
  ghost predicate Inv(t: seq<nat>, max: int, overlap: int, st: Loop) {
    && Within(t, st)
    && st.start <= TailStart(t, st.i, max, overlap)
    && (st.start < st.i ==> Sum(t, st.start, st.i) <= max)
    && forall m :: st.start <= m < st.i ==> t[m] <= max
  }

  lemma {:induction false} KeptIsTail(t: seq<nat>, lo: nat, k: nat, i: nat, max: int, overlap: int)
    requires lo <= k <= i <= |t| && lo <= TailFrom(t, 0, k, i, max, overlap)
    requires forall m :: lo <= m < i ==> t[m] <= max
    ensures KeptFrom(t, lo, k, i, overlap) == TailFrom(t, 0, k, i, max, overlap)
    decreases k
  {
    if lo < k && Sum(t, k - 1, i) <= overlap { KeptIsTail(t, lo, k - 1, i, max, overlap); }
  }

  lemma StepKeepsInv(t: seq<nat>, max: int, overlap: int, st: Loop)
    requires Inv(t, max, overlap, st) && st.i < |t|
    ensures Inv(t, max, overlap, Step(t, max, overlap, st))
    ensures st.start < st.i ==> KeptTail(t, st.start, st.i, overlap) == TailStart(t, st.i, max, overlap)
  {
    TailMonotone(t, st.i, max, overlap);
    KeptIsTail(t, st.start, st.i, st.i, max, overlap);
    var k := KeptTail(t, st.start, st.i, overlap);
    SumSplit(t, st.start, k, st.i);
    TailIsLeast(t, st.i + 1, max, overlap);
  }

  // The stuck state: with a tail that leaves no room, the body emits the tail again and
  // comes back to the same position and the same current chunk.
  lemma StuckState(t: seq<nat>, max: int, overlap: int, st: Loop)
    requires 0 < st.i < |t| && !RoomAt(t, st.i, max, overlap)
    requires st.start == TailStart(t, st.i, max, overlap) && Inv(t, max, overlap, st)
    ensures Step(t, max, overlap, st) == st.(out := st.out + [Span(st.start, st.i)])
  {
    StepKeepsInv(t, max, overlap, st);
  }

  lemma {:induction false} NeverPasses(t: seq<nat>, max: int, overlap: int, st: Loop, b: nat, n: nat)
    requires 0 < b < |t| && !RoomAt(t, b, max, overlap)
    requires Inv(t, max, overlap, st) && st.i <= b
    ensures Iterate(t, max, overlap, st, n).i <= b
    decreases n
  {
    if n > 0 && st.i < |t| {
      StepKeepsInv(t, max, overlap, st);
      if st.i == b {
        SumSplit(t, st.start, TailStart(t, b, max, overlap), b);
      }
      NeverPasses(t, max, overlap, Step(t, max, overlap, st), b, n - 1);
    }
  }

  lemma {:induction false} HaltsFrom(t: seq<nat>, max: int, overlap: int, st: Loop) returns (n: nat)
    requires Advances(t, max, overlap) && Inv(t, max, overlap, st)
    ensures Iterate(t, max, overlap, st, n).i == |t|
    decreases |t| - st.i, if st.i < |t| && Sum(t, st.start, st.i) + t[st.i] > max then 1 + st.i - st.start else 0
  {
    if st.i == |t| {
      n := 0;
    } else {
      StepKeepsInv(t, max, overlap, st);
      var next := Step(t, max, overlap, st);
      if next.i == st.i {
        assert RoomAt(t, st.i, max, overlap);
      }
      var m := HaltsFrom(t, max, overlap, next);
      n := m + 1;
    }
  }

  // The loop ends exactly on the inputs that leave room after every kept tail.
  lemma TerminatesIff(t: seq<nat>, max: int, overlap: int)
    ensures Halts(t, max, overlap, Loop(0, 0, [])) <==> Advances(t, max, overlap)
  {
    var st := Loop(0, 0, []);
    if Advances(t, max, overlap) {
      var n := HaltsFrom(t, max, overlap, st);
    } else {
      var b :| 0 < b < |t| && !RoomAt(t, b, max, overlap);
      forall n: nat ensures Iterate(t, max, overlap, st, n).i != |t| {
        NeverPasses(t, max, overlap, st, b, n);
      }
    }
  }

  // A simpler check that is enough: each sentence follows one over the overlap budget, or fits beside it.
  lemma EnoughToAdvance(t: seq<nat>, max: int, overlap: int)
    requires forall i :: 0 < i < |t| ==> t[i - 1] > overlap || t[i] <= max - overlap
    ensures Advances(t, max, overlap)
  {
    forall i | 0 < i < |t| ensures RoomAt(t, i, max, overlap) {
      TailIsLeast(t, i, max, overlap);
      var k := TailStart(t, i, max, overlap);
      if k < i { SumSplit(t, k, i - 1, i); }
    }
  }

  // With the limits the program uses, a 40-token sentence before a 790-token one never ends.
  lemma StuckExample()
    ensures !Halts([40, 790], 800, 50, Loop(0, 0, []))
  {
    var t := [40, 790];
    TerminatesIff(t, 800, 50);
    assert Sum(t, 0, 1) == Sum(t, 0, 0) + 40;
    assert TailStart(t, 1, 800, 50) == 0;
    assert !RoomAt(t, 1, 800, 50);
  }

  // ----- What the finished chunks cover -----

  // spans is the result for token counts t: it starts at the first sentence and ends with the last,
  // every chunk adds a sentence, starts at the admissible tail of the one before, fits unless it is a
  // single oversized sentence, and could not have taken one sentence more.
  ghost predicate Cover(t: seq<nat>, max: int, overlap: int, spans: seq<Span>) {
    && CoverUpTo(t, max, overlap, spans)
    && (|t| > 0 ==> spans != [] && spans[|spans| - 1].hi == |t|)
  }

  ghost predicate CoverUpTo(t: seq<nat>, max: int, overlap: int, spans: seq<Span>) {
    && (forall k :: 0 <= k < |spans| ==> GoodSpan(t, max, spans[k]))
    && (spans != [] ==> spans[0].lo == 0)
    && (forall k :: 0 < k < |spans| ==> Follows(t, max, overlap, spans[k - 1], spans[k]))
  }

  ghost predicate GoodSpan(t: seq<nat>, max: int, s: Span) {
    && s.lo < s.hi <= |t|
    && (Sum(t, s.lo, s.hi) <= max || s.hi == s.lo + 1)
    && (s.hi < |t| ==> Sum(t, s.lo, s.hi) + t[s.hi] > max)
  }

  ghost predicate Follows(t: seq<nat>, max: int, overlap: int, s: Span, next: Span) {
    && s.hi < next.hi && s.hi <= |t|
    && next.lo == TailStart(t, s.hi, max, overlap)
  }

  lemma {:induction false} SumGrows(t: seq<nat>, a: nat, m: nat, b: nat)
    requires a <= m <= b <= |t|
    ensures Sum(t, a, m) <= Sum(t, a, b)
  {
    SumSplit(t, a, m, b);
  }

  lemma SpanEndUnique(t: seq<nat>, max: int, r: Span, s: Span)
    requires GoodSpan(t, max, r) && GoodSpan(t, max, s) && r.lo == s.lo
    ensures r.hi == s.hi
  {
    if r.hi < s.hi {
      SumGrows(t, r.lo, r.hi + 1, s.hi);
    } else if s.hi < r.hi {
      SumGrows(t, r.lo, s.hi + 1, r.hi);
    }
  }

  lemma {:induction false} CoverPrefixUnique(t: seq<nat>, max: int, overlap: int, p: seq<Span>, q: seq<Span>, k: nat)
    requires CoverUpTo(t, max, overlap, p) && CoverUpTo(t, max, overlap, q) && k <= |p| && k <= |q|
    ensures forall j :: 0 <= j < k ==> p[j] == q[j]
    decreases k
  {
    if k > 0 {
      CoverPrefixUnique(t, max, overlap, p, q, k - 1);
      if k > 1 {
        assert Follows(t, max, overlap, p[k - 2], p[k - 1]) && Follows(t, max, overlap, q[k - 2], q[k - 1]);
      }
      SpanEndUnique(t, max, p[k - 1], q[k - 1]);
    }
  }

  lemma {:induction false} EndsGrow(t: seq<nat>, max: int, overlap: int, p: seq<Span>, j: nat, k: nat)
    requires CoverUpTo(t, max, overlap, p) && j < k < |p|
    ensures p[j].hi < p[k].hi
    decreases k
  {
    assert Follows(t, max, overlap, p[k - 1], p[k]);
    if j < k - 1 { EndsGrow(t, max, overlap, p, j, k - 1); }
  }

  lemma CoverNotLonger(t: seq<nat>, max: int, overlap: int, p: seq<Span>, q: seq<Span>)
    requires |t| > 0 && Cover(t, max, overlap, p) && Cover(t, max, overlap, q)
    ensures |q| <= |p|
  {
    var k := if |p| < |q| then |p| else |q|;
    CoverPrefixUnique(t, max, overlap, p, q, k);
    if |p| < |q| { EndsGrow(t, max, overlap, q, |p| - 1, |q| - 1); }
  }

  // Cover leaves no freedom: the chunks are determined by the token counts and the two limits.
  lemma CoverUnique(t: seq<nat>, max: int, overlap: int, p: seq<Span>, q: seq<Span>)
    requires |t| > 0 && Cover(t, max, overlap, p) && Cover(t, max, overlap, q)
    ensures p == q
  {
    CoverNotLonger(t, max, overlap, p, q);
    CoverNotLonger(t, max, overlap, q, p);
    CoverPrefixUnique(t, max, overlap, p, q, |p|);
  }

  function EndOf(spans: seq<Span>): nat {
    if spans == [] then 0 else spans[|spans| - 1].hi
  }

  // The sentences of each chunk that the chunk before it does not have, in order.
  function NewSentences(ss: seq<string>, spans: seq<Span>): seq<string> {
    if spans == [] then []
    else
      var before := spans[..|spans| - 1];
      NewSentences(ss, before)
      + if EndOf(before) <= EndOf(spans) <= |ss| then ss[EndOf(before)..EndOf(spans)] else []
  }

  lemma CoverInit(t: seq<nat>, max: int, overlap: int, spans: seq<Span>)
    requires CoverUpTo(t, max, overlap, spans) && spans != []
    ensures CoverUpTo(t, max, overlap, spans[..|spans| - 1])
    ensures EndOf(spans[..|spans| - 1]) < EndOf(spans) <= |t|
  {
    var p := spans[..|spans| - 1];
    forall k | 0 < k < |p| ensures Follows(t, max, overlap, p[k - 1], p[k]) {
      assert Follows(t, max, overlap, spans[k - 1], spans[k]);
    }
    assert GoodSpan(t, max, spans[|spans| - 1]);
    if p != [] { assert Follows(t, max, overlap, spans[|p| - 1], spans[|p|]); }
  }

  lemma {:induction false} NewSentencesUpTo(ss: seq<string>, t: seq<nat>, max: int, overlap: int, spans: seq<Span>)
    requires |ss| == |t| && CoverUpTo(t, max, overlap, spans)
    ensures EndOf(spans) <= |ss| && NewSentences(ss, spans) == ss[..EndOf(spans)]
    decreases |spans|
  {
    if spans != [] {
      CoverInit(t, max, overlap, spans);
      NewSentencesUpTo(ss, t, max, overlap, spans[..|spans| - 1]);
      EndsMeet(ss, EndOf(spans[..|spans| - 1]), EndOf(spans));
    }
  }

  lemma EndsMeet(ss: seq<string>, a: nat, b: nat)
    requires a <= b <= |ss|
    ensures ss[..a] + ss[a..b] == ss[..b]
  {
  }

  // Neighbouring chunks share whole sentences within the overlap budget, and each chunk adds at least one.
  lemma SharedWithinBudget(t: seq<nat>, max: int, overlap: int, spans: seq<Span>, k: nat)
    requires CoverUpTo(t, max, overlap, spans) && 0 < k < |spans|
    ensures spans[k].lo <= spans[k - 1].hi < spans[k].hi <= |t|
    ensures spans[k].lo < spans[k - 1].hi ==> Sum(t, spans[k].lo, spans[k - 1].hi) <= overlap
  {
    assert Follows(t, max, overlap, spans[k - 1], spans[k]) && GoodSpan(t, max, spans[k]);
    TailIsLeast(t, spans[k - 1].hi, max, overlap);
  }

  // Dropping every chunk's shared prefix and concatenating gives back the sentence list, so the words
  // of the paragraph.
  lemma ChunksConserveText(text: string, count: string -> nat, max: int, overlap: int, spans: seq<Span>)
    requires SentencesOf(text) != [] && Cover(Counts(SentencesOf(text), count), max, overlap, spans)
    ensures NewSentences(SentencesOf(text), spans) == SentencesOf(text)
    ensures WordsOfAll(NewSentences(SentencesOf(text), spans)) == Words(text)
  {
    var ss := SentencesOf(text);
    NewSentencesUpTo(ss, Counts(ss, count), max, overlap, spans);
    assert ss[..|ss|] == ss;
    SentencesConserveWords(text);
  }

  // ----- The splitter -----

  // Chunk k is the sentences of span k joined by blanks.
  ghost predicate Renders(ss: seq<string>, spans: seq<Span>, chunks: seq<string>) {
    && |chunks| == |spans|
    && forall k :: 0 <= k < |spans| ==>
         spans[k].lo <= spans[k].hi <= |ss| && chunks[k] == Join(ss[spans[k].lo..spans[k].hi], " ")
  }

  lemma CoverSnoc(t: seq<nat>, max: int, overlap: int, spans: seq<Span>, s: Span)
    requires CoverUpTo(t, max, overlap, spans) && GoodSpan(t, max, s)
    requires if spans == [] then s.lo == 0 else Follows(t, max, overlap, spans[|spans| - 1], s)
    ensures CoverUpTo(t, max, overlap, spans + [s])
  {
    var r := spans + [s];
    forall k | 0 < k < |r| ensures Follows(t, max, overlap, r[k - 1], r[k]) {
      if k < |spans| { assert Follows(t, max, overlap, spans[k - 1], spans[k]); }
    }
  }

  lemma {:induction false} RendersSnoc(ss: seq<string>, spans: seq<Span>, chunks: seq<string>, lo: nat, hi: nat)
    requires Renders(ss, spans, chunks) && lo <= hi <= |ss|
    ensures Renders(ss, spans + [Span(lo, hi)], chunks + [Join(ss[lo..hi], " ")])
  {
  }

  // What holds at the top of the loop.
  ghost predicate LoopInv(t: seq<nat>, max: int, overlap: int, st: Loop) {
    && Inv(t, max, overlap, st)
    && CoverUpTo(t, max, overlap, st.out)
    && if st.out == [] then st.start == 0
       else
         var h := st.out[|st.out| - 1].hi;
         h <= st.i && st.start == TailStart(t, h, max, overlap) && (h == |t| ==> st.start == |t|)
  }

  lemma EmitKeepsInv(t: seq<nat>, max: int, overlap: int, st: Loop)
    requires Advances(t, max, overlap) && LoopInv(t, max, overlap, st) && st.start < st.i < |t|
    requires Sum(t, st.start, st.i) + t[st.i] > max
    ensures LoopInv(t, max, overlap, Step(t, max, overlap, st))
    ensures Step(t, max, overlap, st).start > st.start
  {
    StepKeepsInv(t, max, overlap, st);
    assert RoomAt(t, st.i, max, overlap);
    assert st.out != [] ==> st.out[|st.out| - 1].hi < st.i;
    CoverSnoc(t, max, overlap, st.out, Span(st.start, st.i));
  }

  lemma OversizedKeepsInv(t: seq<nat>, max: int, overlap: int, st: Loop)
    requires LoopInv(t, max, overlap, st) && st.start == st.i < |t| && t[st.i] > max
    ensures LoopInv(t, max, overlap, Step(t, max, overlap, st))
  {
    StepKeepsInv(t, max, overlap, st);
    var s := Span(st.i, st.i + 1);
    assert Sum(t, st.i, st.i + 1) == Sum(t, st.i, st.i) + t[st.i];
    assert GoodSpan(t, max, s);
    TailIsLeast(t, st.i + 1, max, overlap);
    CoverSnoc(t, max, overlap, st.out, s);
  }

  lemma LoopInvStep(t: seq<nat>, max: int, overlap: int, st: Loop)
    requires Advances(t, max, overlap) && LoopInv(t, max, overlap, st) && st.i < |t|
    ensures LoopInv(t, max, overlap, Step(t, max, overlap, st))
    ensures st.start < st.i && Sum(t, st.start, st.i) + t[st.i] > max ==>
              Step(t, max, overlap, st).start > st.start
  {
    if Sum(t, st.start, st.i) + t[st.i] <= max {
      StepKeepsInv(t, max, overlap, st);
    } else if st.start < st.i {
      EmitKeepsInv(t, max, overlap, st);
    } else {
      OversizedKeepsInv(t, max, overlap, st);
    }
  }

  lemma LoopInvEnd(t: seq<nat>, max: int, overlap: int, st: Loop)
    requires LoopInv(t, max, overlap, st) && st.i == |t| > 0
    ensures Cover(t, max, overlap, Finish(t, st))
  {
    if st.start < |t| {
      CoverSnoc(t, max, overlap, st.out, Span(st.start, |t|));
    } else if st.out != [] {
      TailIsLeast(t, st.out[|st.out| - 1].hi, max, overlap);
    }
  }

  // The state after n passes.
  function After(t: seq<nat>, max: int, overlap: int, n: nat): (st: Loop)
    ensures Within(t, st)
  {
    Iterate(t, max, overlap, Loop(0, 0, []), n)
  }

  lemma {:induction false} IterateSnoc(t: seq<nat>, max: int, overlap: int, st: Loop, n: nat)
    requires Within(t, st)
    ensures var r := Iterate(t, max, overlap, st, n);
            Iterate(t, max, overlap, st, n + 1) == if r.i == |t| then r else Step(t, max, overlap, r)
    decreases n
  {
    if n > 0 && st.i < |t| { IterateSnoc(t, max, overlap, Step(t, max, overlap, st), n - 1); }
  }

  lemma {:induction false} AfterInv(t: seq<nat>, max: int, overlap: int, n: nat)
    requires Advances(t, max, overlap)
    ensures LoopInv(t, max, overlap, After(t, max, overlap, n))
    decreases n
  {
    if n > 0 {
      AfterInv(t, max, overlap, n - 1);
      IterateSnoc(t, max, overlap, Loop(0, 0, []), n - 1);
      if After(t, max, overlap, n - 1).i < |t| { LoopInvStep(t, max, overlap, After(t, max, overlap, n - 1)); }
    }
  }

  // Passes left before the index moves.
  function Pending(t: seq<nat>, max: int, st: Loop): nat
    requires Within(t, st)
  {
    if st.i < |t| && Sum(t, st.start, st.i) + t[st.i] > max then 1 + st.i - st.start else 0
  }

  lemma AfterStep(t: seq<nat>, max: int, overlap: int, n: nat)
    requires Advances(t, max, overlap) && After(t, max, overlap, n).i < |t|
    ensures var st := After(t, max, overlap, n);
            var next := After(t, max, overlap, n + 1);
            && next == Step(t, max, overlap, st)
            && (next.i == st.i ==> Pending(t, max, next) < Pending(t, max, st))
  {
    IterateSnoc(t, max, overlap, Loop(0, 0, []), n);
    AfterInv(t, max, overlap, n);
    LoopInvStep(t, max, overlap, After(t, max, overlap, n));
  }

  // The chunk still open at the end of the loop is emitted too.
  function Finish(t: seq<nat>, st: Loop): seq<Span>
    requires Within(t, st)
  {
    if st.start < |t| then st.out + [Span(st.start, |t|)] else st.out
  }

  lemma AfterCovers(t: seq<nat>, max: int, overlap: int, n: nat)
    requires Advances(t, max, overlap) && After(t, max, overlap, n).i == |t| > 0
    ensures Cover(t, max, overlap, Finish(t, After(t, max, overlap, n)))
  {
    AfterInv(t, max, overlap, n);
    LoopInvEnd(t, max, overlap, After(t, max, overlap, n));
  }

  lemma SumHead(t: seq<nat>, a: nat, b: nat)
    requires a < b <= |t|
    ensures Sum(t, a, b) == t[a] + Sum(t, a + 1, b)
  {
    SumSplit(t, a, a + 1, b);
    assert Sum(t, a, a + 1) == Sum(t, a, a) + t[a];
  }

  // The tail loop on the sentences themselves.
  function Total(ss: seq<string>, count: string -> nat): nat {
    if ss == [] then 0 else count(ss[0]) + Total(ss[1..], count)
  }

  function KeptIndex(ss: seq<string>, k: nat, overlap: int, count: string -> nat): (r: nat)
    requires k <= |ss|
    ensures r <= k
  {
    if k > 0 && Total(ss[k - 1..], count) <= overlap then KeptIndex(ss, k - 1, overlap, count) else k
  }

  method TailOf(current: seq<string>, overlap: int, count: string -> nat, ghost ss: seq<string>, ghost lo: nat,
                ghost i: nat)
    returns (kept: seq<string>, total: nat)
    requires lo <= i <= |ss| && current == ss[lo..i]
    ensures var k := KeptTail(Counts(ss, count), lo, i, overlap);
            kept == ss[k..i] && total == Sum(Counts(ss, count), k, i)
  {
    kept, total := [], 0;
    var k := |current|;
    while k > 0 && total + count(current[k - 1]) <= overlap
      invariant 0 <= k <= |current| && KeptSoFar(current, k, overlap, count, kept, total)
    {
      KeptStep(current, k, overlap, count, kept, total);
      k := k - 1;
      kept := [current[k]] + kept;
      total := total + count(current[k]);
    }
    KeptEnd(current, k, overlap, count, kept, total);
    TailOfIsKept(ss, count, lo, i, overlap, kept, total);
  }

  // The sentences from k on are kept, and their count. The quantifier keeps the solver from unfolding the
  // slice wherever this is only passed on.
  ghost predicate KeptSoFar(current: seq<string>, k: nat, overlap: int, count: string -> nat, kept: seq<string>,
                            total: nat)
    requires k <= |current|
  {
    forall tail :: tail == current[k..] ==>
      && kept == tail && total == Total(tail, count)
      && KeptIndex(current, k, overlap, count) == KeptIndex(current, |current|, overlap, count)
  }

  lemma {:induction false} KeptStep(current: seq<string>, k: nat, overlap: int, count: string -> nat,
                                    kept: seq<string>, total: nat)
    requires 0 < k <= |current| && KeptSoFar(current, k, overlap, count, kept, total)
    requires total + count(current[k - 1]) <= overlap
    ensures KeptSoFar(current, k - 1, overlap, count, [current[k - 1]] + kept, total + count(current[k - 1]))
  {
    assert total == Total(current[k..], count);
    TotalOfTail(current, k, count);
  }

  lemma {:induction false} KeptStops(current: seq<string>, k: nat, overlap: int, count: string -> nat)
    requires k <= |current|
    requires k == 0 || Total(current[k..], count) + count(current[k - 1]) > overlap
    ensures KeptIndex(current, k, overlap, count) == k
  {
    if k > 0 { TotalOfTail(current, k, count); }
  }

  // What the loop leaves: the sentences from r on.
  ghost predicate TailKept(current: seq<string>, r: nat, count: string -> nat, kept: seq<string>, total: nat)
    requires r <= |current|
  {
    forall tail :: tail == current[r..] ==> kept == tail && total == Total(tail, count)
  }

  lemma {:induction false} KeptEnd(current: seq<string>, k: nat, overlap: int, count: string -> nat,
                                   kept: seq<string>, total: nat)
    requires k <= |current| && KeptSoFar(current, k, overlap, count, kept, total)
    requires k == 0 || total + count(current[k - 1]) > overlap
    ensures TailKept(current, KeptIndex(current, |current|, overlap, count), count, kept, total)
  {
    var tail := current[k..];
    assert total == Total(tail, count) && kept == tail;
    assert KeptIndex(current, k, overlap, count) == KeptIndex(current, |current|, overlap, count);
    KeptStops(current, k, overlap, count);
  }

  lemma {:induction false} TotalOfTail(current: seq<string>, k: nat, count: string -> nat)
    requires 0 < k <= |current|
    ensures Total(current[k - 1..], count) == count(current[k - 1]) + Total(current[k..], count)
    ensures [current[k - 1]] + current[k..] == current[k - 1..]
  {
    assert current[k - 1..][1..] == current[k..];
  }

  lemma {:induction false} TotalIsSum(ss: seq<string>, count: string -> nat, a: nat, b: nat)
    requires a <= b <= |ss|
    ensures Total(ss[a..b], count) == Sum(Counts(ss, count), a, b)
    decreases b - a
  {
    if a < b {
      TotalIsSum(ss, count, a + 1, b);
      SumHead(Counts(ss, count), a, b);
      assert ss[a..b][1..] == ss[a + 1..b];
    }
  }

  lemma {:induction false} KeptIndexIsKept(ss: seq<string>, count: string -> nat, lo: nat, i: nat, k: nat, overlap: int)
    requires lo <= i <= |ss| && k <= i - lo
    ensures lo + KeptIndex(ss[lo..i], k, overlap, count) == KeptFrom(Counts(ss, count), lo, lo + k, i, overlap)
    decreases k
  {
    if k > 0 {
      assert ss[lo..i][k - 1..] == ss[lo + k - 1..i];
      TotalIsSum(ss, count, lo + k - 1, i);
      KeptIndexIsKept(ss, count, lo, i, k - 1, overlap);
    }
  }

  lemma {:induction false} TailOfIsKept(ss: seq<string>, count: string -> nat, lo: nat, i: nat, overlap: int,
                                        kept: seq<string>, total: nat)
    requires lo <= i <= |ss|
    requires TailKept(ss[lo..i], KeptIndex(ss[lo..i], i - lo, overlap, count), count, kept, total)
    ensures var k := KeptTail(Counts(ss, count), lo, i, overlap);
            kept == ss[k..i] && total == Sum(Counts(ss, count), k, i)
  {
    KeptIndexIsKept(ss, count, lo, i, i - lo, overlap);
    KeptSlice(ss, count, lo, i, KeptIndex(ss[lo..i], i - lo, overlap, count), kept, total);
  }

  lemma {:induction false} KeptSlice(ss: seq<string>, count: string -> nat, lo: nat, i: nat, r: nat,
                                     kept: seq<string>, total: nat)
    requires lo <= i <= |ss| && r <= i - lo && TailKept(ss[lo..i], r, count, kept, total)
    ensures kept == ss[lo + r..i] && total == Sum(Counts(ss, count), lo + r, i)
  {
    var tail := ss[lo..i][r..];
    assert total == Total(tail, count) && kept == tail;
    SliceTail(ss, lo, i, r);
    TotalIsSum(ss, count, lo + r, i);
  }

  lemma SliceTail<T>(s: seq<T>, a: nat, b: nat, r: nat)
    requires a <= b <= |s| && r <= b - a
    ensures s[a..b][r..] == s[a + r..b]
  {
  }

  lemma {:induction false} SliceSnoc<T>(s: seq<T>, a: nat, b: nat)
    requires a <= b < |s|
    ensures s[a..b + 1] == s[a..b] + [s[b]]
  {
  }

  // What one pass does to the state, spelled out.
  lemma {:induction false} PassEffect(t: seq<nat>, max: int, overlap: int, n: nat)
    requires Advances(t, max, overlap) && After(t, max, overlap, n).i < |t|
    ensures var st := After(t, max, overlap, n);
            var next := After(t, max, overlap, n + 1);
            var i := st.i;
            && (next.i == i ==> Pending(t, max, next) < Pending(t, max, st))
            && if Sum(t, st.start, i) + t[i] <= max then
                 next == Loop(i + 1, st.start, st.out) && Sum(t, st.start, i + 1) == Sum(t, st.start, i) + t[i]
               else if st.start < i then
                 next == Loop(i, KeptTail(t, st.start, i, overlap), st.out + [Span(st.start, i)])
               else next == Loop(i + 1, i + 1, st.out + [Span(i, i + 1)])
  {
    AfterStep(t, max, overlap, n);
  }

  // The loop over the sentences, with the chunk left open at its end.
  method PackSentences(sentences: seq<string>, maxTokens: int, overlapTokens: int, count: string -> nat)
    returns (chunks: seq<string>, ghost n: nat)
    requires Advances(Counts(sentences, count), maxTokens, overlapTokens)
    ensures After(Counts(sentences, count), maxTokens, overlapTokens, n).i == |sentences|
    ensures Renders(sentences, Finish(Counts(sentences, count),
        After(Counts(sentences, count), maxTokens, overlapTokens, n)), chunks)
  {
    chunks := [];
    var currentSentences: seq<string> := [];
    var currentTokens := 0;
    var i := 0;
    ghost var t := Counts(sentences, count);
    ghost var st := Loop(0, 0, []);
    n := 0;
    while i < |sentences|
      invariant Within(t, st) && st == After(t, maxTokens, overlapTokens, n) && i == st.i
      invariant currentSentences == sentences[st.start..i]
      invariant currentTokens == Sum(t, st.start, i)
      invariant Renders(sentences, st.out, chunks)
      decreases |t| - i, Pending(t, maxTokens, st)
    {
      var sentence := sentences[i];
      var sTokens := count(sentence);
      PassEffect(t, maxTokens, overlapTokens, n);
      if currentTokens + sTokens <= maxTokens {
        SliceSnoc(sentences, st.start, i);
        currentSentences := currentSentences + [sentence];
        currentTokens := currentTokens + sTokens;
        i := i + 1;
      } else if currentSentences != [] {
        RendersSnoc(sentences, st.out, chunks, st.start, i);
        chunks := chunks + [Join(currentSentences, " ")];
        currentSentences, currentTokens := TailOf(currentSentences, overlapTokens, count, sentences, st.start, i);
      } else {
        RendersSnoc(sentences, st.out, chunks, i, i + 1);
        SliceSnoc(sentences, i, i);
        chunks := chunks + [sentence];
        currentSentences := [];
        currentTokens := 0;
        i := i + 1;
      }
      n := n + 1;
      st := After(t, maxTokens, overlapTokens, n);
    }
    if currentSentences != [] {
      RendersSnoc(sentences, st.out, chunks, st.start, i);
      chunks := chunks + [Join(currentSentences, " ")];
    }
  }

  method SplitParagraphWithOverlap(text: string, maxTokens: int, overlapTokens: int, count: string -> nat)
    returns (chunks: seq<string>)
    requires Advances(Counts(SentencesOf(text), count), maxTokens, overlapTokens)
    ensures SentencesOf(text) == [] ==> chunks == [text]
    ensures SentencesOf(text) != [] ==>
      exists spans: seq<Span> ::
        && Cover(Counts(SentencesOf(text), count), maxTokens, overlapTokens, spans)
        && Renders(SentencesOf(text), spans, chunks)
  {
    var sentences := SplitAtSentences(text);
    if sentences == [] { return [text]; }
    ghost var n;
    chunks, n := PackSentences(sentences, maxTokens, overlapTokens, count);
    AfterCovers(Counts(sentences, count), maxTokens, overlapTokens, n);
  }
}
