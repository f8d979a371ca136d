// Post-processing of text blocks, as in app/ingest/layout.py: blank blocks go, and a paragraph of one
// word is merged into the paragraph or header before it.
module Orphans {
  import opened Text
  import opened Ordering
  import opened Layout

  class Block {
    var kind: Kind
    var text: string
    var pageStart: int
    var pageEnd: int
    var readingOrder: nat
    var x0: real
    var y0: real
    var x1: real
    var y1: real
    var spanIds: seq<string>

    function Value(): BlockData
      reads this
    {
      BlockData(kind, text, pageStart, pageEnd, readingOrder, x0, y0, x1, y1, spanIds)
    }

    constructor (d: BlockData)
      ensures Value() == d
    {
      kind, text, pageStart, pageEnd, readingOrder := d.kind, d.text, d.pageStart, d.pageEnd, d.order;
      x0, y0, x1, y1, spanIds := d.x0, d.y0, d.x1, d.y1, d.spanIds;
    }
  }

  // ----- What merging means on values -----

  predicate IsOrphan(prev: BlockData, b: BlockData) {
    b.kind == Paragraph && |Words(b.text)| == 1 && (prev.kind == Paragraph || prev.kind == Header)
  }

  function Lower(a: real, b: real): real { if a <= b then a else b }

  function Upper(a: real, b: real): real { if a >= b then a else b }

  // The top of the box stays where it was.
  function Absorbed(prev: BlockData, b: BlockData): BlockData {
    prev.(text := TrimRight(prev.text) + " " + b.text,
          pageEnd := if prev.pageEnd >= b.pageEnd then prev.pageEnd else b.pageEnd,
          x0 := Lower(prev.x0, b.x0), x1 := Upper(prev.x1, b.x1), y1 := Upper(prev.y1, b.y1),
          spanIds := prev.spanIds + b.spanIds)
  }

  function MergeNext(merged: seq<BlockData>, b: BlockData): seq<BlockData> {
    if merged != [] && IsOrphan(merged[|merged| - 1], b)
    then merged[|merged| - 1 := Absorbed(merged[|merged| - 1], b)]
    else merged + [b]
  }

  function MergedUpTo(bs: seq<BlockData>, n: nat): seq<BlockData>
    requires n <= |bs|
  {
    if n == 0 then [] else MergeNext(MergedUpTo(bs, n - 1), bs[n - 1])
  }

  function Merged(bs: seq<BlockData>): seq<BlockData> {
    MergedUpTo(bs, |bs|)
  }

  function NotBlank(): BlockData -> bool {
    (b: BlockData) => Trim(b.text) != ""
  }

  function Renumbered(bs: seq<BlockData>): (r: seq<BlockData>)
    ensures |r| == |bs| && forall i :: 0 <= i < |bs| ==> r[i] == bs[i].(order := i)
  {
    seq(|bs|, (i: int) requires 0 <= i < |bs| => bs[i].(order := i))
  }

  function PostProcessed(bs: seq<BlockData>): seq<BlockData> {
    Renumbered(Merged(Filter(bs, NotBlank())))
  }

  // ----- Words and spans are kept -----

  function WordsOf(bs: seq<BlockData>): seq<string> {
    if bs == [] then [] else WordsOf(bs[..|bs| - 1]) + Words(bs[|bs| - 1].text)
  }

  function SpanIdsOf(bs: seq<BlockData>): seq<string> {
    if bs == [] then [] else SpanIdsOf(bs[..|bs| - 1]) + bs[|bs| - 1].spanIds
  }

  lemma {:induction false} AbsorbedWords(prev: BlockData, b: BlockData)
    ensures Words(Absorbed(prev, b).text) == Words(prev.text) + Words(b.text)
  {
    TrimRightWords(prev.text);
    WordsAroundBlank(TrimRight(prev.text), b.text);
  }

  // What a block that takes in another one becomes: its text, without white space at the end, a blank, and the
  // other's text; it keeps kind, first page and place, and reaches to the later last page.
  lemma AbsorbedMeans(prev: BlockData, b: BlockData)
    ensures var r := Absorbed(prev, b);
            && r.kind == prev.kind && r.pageStart == prev.pageStart && r.order == prev.order
            && r.pageEnd >= prev.pageEnd && r.pageEnd >= b.pageEnd
            && (r.pageEnd == prev.pageEnd || r.pageEnd == b.pageEnd)
            && r.spanIds == prev.spanIds + b.spanIds
            && exists n: nat ::
                 && n <= |prev.text| && r.text == prev.text[..n] + " " + b.text
                 && SpaceIn(prev.text, n, |prev.text|) && (n > 0 ==> !IsSpace(prev.text[n - 1]))
  {
    var n := BackSpace(prev.text, 0, |prev.text|);
    assert TrimRight(prev.text) == prev.text[..n];
  }

  lemma {:induction false} MergeNextKeeps(merged: seq<BlockData>, b: BlockData)
    ensures WordsOf(MergeNext(merged, b)) == WordsOf(merged) + Words(b.text)
    ensures SpanIdsOf(MergeNext(merged, b)) == SpanIdsOf(merged) + b.spanIds
  {
    var next := MergeNext(merged, b);
    if merged != [] && IsOrphan(merged[|merged| - 1], b) {
      var prev := merged[|merged| - 1];
      AbsorbedWords(prev, b);
      assert next[..|next| - 1] == merged[..|merged| - 1];
    } else {
      assert next[..|next| - 1] == merged;
    }
  }

  lemma {:induction false} MergeKeeps(bs: seq<BlockData>, n: nat)
    requires n <= |bs|
    ensures WordsOf(MergedUpTo(bs, n)) == WordsOf(bs[..n])
    ensures SpanIdsOf(MergedUpTo(bs, n)) == SpanIdsOf(bs[..n])
    decreases n
  {
    if n > 0 {
      MergeKeeps(bs, n - 1);
      MergeNextKeeps(MergedUpTo(bs, n - 1), bs[n - 1]);
      BlocksOneMore(bs, n);
    }
  }

  lemma {:induction false} BlocksOneMore(bs: seq<BlockData>, n: nat)
    requires 0 < n <= |bs|
    ensures WordsOf(bs[..n]) == WordsOf(bs[..n - 1]) + Words(bs[n - 1].text)
    ensures SpanIdsOf(bs[..n]) == SpanIdsOf(bs[..n - 1]) + bs[n - 1].spanIds
  {
    OneMore(bs, n - 1);
  }

  // The words and the span ids of the whole list stay the same sequences.
  lemma MergingKeepsWordsAndSpans(bs: seq<BlockData>)
    ensures WordsOf(Merged(bs)) == WordsOf(bs)
    ensures SpanIdsOf(Merged(bs)) == SpanIdsOf(bs)
  {
    MergeKeeps(bs, |bs|);
    assert bs[..|bs|] == bs;
  }

  // ----- No orphan is left -----

  ghost predicate Settled(bs: seq<BlockData>) {
    forall i :: 0 < i < |bs| ==> !IsOrphan(bs[i - 1], bs[i])
  }

  ghost predicate AllHaveWords(bs: seq<BlockData>) {
    forall i :: 0 <= i < |bs| ==> |Words(bs[i].text)| > 0
  }

  lemma {:induction false} MergeNextSettles(merged: seq<BlockData>, b: BlockData)
    requires Settled(merged) && AllHaveWords(merged) && |Words(b.text)| > 0
    ensures Settled(MergeNext(merged, b)) && AllHaveWords(MergeNext(merged, b))
  {
    if merged != [] && IsOrphan(merged[|merged| - 1], b) {
      AbsorbedWords(merged[|merged| - 1], b);
    }
  }

  lemma {:induction false} MergeSettles(bs: seq<BlockData>, n: nat)
    requires AllHaveWords(bs) && n <= |bs|
    ensures Settled(MergedUpTo(bs, n)) && AllHaveWords(MergedUpTo(bs, n))
    decreases n
  {
    if n > 0 {
      MergeSettles(bs, n - 1);
      MergeNextSettles(MergedUpTo(bs, n - 1), bs[n - 1]);
    }
  }

  lemma {:induction false} SettledStays(bs: seq<BlockData>, n: nat)
    requires Settled(bs) && n <= |bs|
    ensures MergedUpTo(bs, n) == bs[..n]
    decreases n
  {
    if n > 0 {
      SettledStays(bs, n - 1);
      OneMore(bs, n - 1);
      if n > 1 { assert bs[..n - 1][n - 2] == bs[n - 2]; }
    }
  }

  // ----- Exactly when none is left -----

  predicate Leads(b: BlockData) {
    b.kind == Paragraph || b.kind == Header
  }

  predicate OneWord(b: BlockData) {
    b.kind == Paragraph && |Words(b.text)| == 1
  }

  predicate BlankParagraph(b: BlockData) {
    b.kind == Paragraph && Words(b.text) == []
  }

  // A blank paragraph behind a paragraph or header, with a word at n - 1 to merge into it.
  predicate Filled(bs: seq<BlockData>, n: nat)
    requires n <= |bs|
  {
    n >= 3 && Leads(bs[n - 3]) && BlankParagraph(bs[n - 2]) && OneWord(bs[n - 1])
  }

  // That word is the only one: no second one follows at n.
  predicate Trap(bs: seq<BlockData>, n: nat)
    requires n <= |bs|
  {
    Filled(bs, n) && (n < |bs| ==> !OneWord(bs[n]))
  }

  // Where the last block of the merged list began, and what it has taken in since.
  ghost predicate LastBegan(bs: seq<BlockData>, n: nat, at: nat) {
    && at < n <= |bs|
    && (at > 0 ==> Leads(bs[at - 1]) ==> !OneWord(bs[at]))
    && (forall k :: at < k < n ==> OneWord(bs[k]))
    && (at + 1 < n ==> Leads(bs[at]))
  }

  // What the last block of the merged list m is, seen from where it began.
  ghost predicate LastIs(bs: seq<BlockData>, n: nat, at: nat, m: seq<BlockData>) {
    && LastBegan(bs, n, at)
    && m != [] && m[|m| - 1].kind == bs[at].kind
    && |Words(m[|m| - 1].text)| == |Words(bs[at].text)| + n - at - 1
    && (|m| > 1 <==> at > 0) && (at > 0 ==> (Leads(m[|m| - 2]) <==> Leads(bs[at - 1])))
  }

  lemma {:induction false} LastTakesIn(bs: seq<BlockData>, n: nat, at: nat, m: seq<BlockData>)
    requires LastIs(bs, n, at, m) && n < |bs| && IsOrphan(m[|m| - 1], bs[n])
    ensures LastIs(bs, n + 1, at, MergeNext(m, bs[n]))
  {
    AbsorbedWords(m[|m| - 1], bs[n]);
  }

  lemma {:induction false} NewLast(bs: seq<BlockData>, n: nat, at: nat, m: seq<BlockData>)
    requires LastIs(bs, n, at, m) && n < |bs| && !IsOrphan(m[|m| - 1], bs[n])
    ensures LastIs(bs, n + 1, n, MergeNext(m, bs[n]))
  {
    LeadsOn(bs, n, at);
  }

  lemma {:induction false} LastOfMerged(bs: seq<BlockData>, n: nat) returns (at: nat)
    requires 0 < n <= |bs|
    ensures LastIs(bs, n, at, MergedUpTo(bs, n))
    decreases n
  {
    if n == 1 {
      at := 0;
      FirstIsLast(bs);
    } else {
      at := LastOfMerged(bs, n - 1);
      var m := MergedUpTo(bs, n - 1);
      if IsOrphan(m[|m| - 1], bs[n - 1]) {
        LastTakesIn(bs, n - 1, at, m);
      } else {
        NewLast(bs, n - 1, at, m);
        at := n - 1;
      }
    }
  }

  lemma {:induction false} FirstIsLast(bs: seq<BlockData>)
    requires bs != []
    ensures LastIs(bs, 1, 0, MergedUpTo(bs, 1))
  {
    assert MergedUpTo(bs, 0) == [];
  }

  // The last merged block leads exactly if the last block taken in does.
  lemma {:induction false} LeadsOn(bs: seq<BlockData>, n: nat, at: nat)
    requires LastBegan(bs, n, at)
    ensures Leads(bs[at]) <==> Leads(bs[n - 1])
  {
  }

  ghost predicate OrphanAt(m: seq<BlockData>, i: nat)
    requires i < |m|
  {
    i > 0 && IsOrphan(m[i - 1], m[i])
  }

  // The last block of the merged list is an orphan exactly if it is a filled blank paragraph.
  lemma {:induction false} LastOrphanIff(bs: seq<BlockData>, n: nat)
    requires 0 < n <= |bs|
    ensures MergedUpTo(bs, n) != []
    ensures OrphanAt(MergedUpTo(bs, n), |MergedUpTo(bs, n)| - 1) <==> Filled(bs, n)
  {
    var at := LastOfMerged(bs, n);
    if Filled(bs, n) {
      assert at == n - 2;
    }
  }

  // Before the last block, orphans are exactly the traps that are closed.
  lemma {:induction false} InnerOrphansIff(bs: seq<BlockData>, n: nat)
    requires 0 < n <= |bs|
    ensures var m := MergedUpTo(bs, n); SomeOrphan(m, |m| - 1) <==> SomeTrap(bs, n)
    decreases n
  {
    if n == 1 {
      assert MergedUpTo(bs, 1) == MergeNext(MergedUpTo(bs, 0), bs[0]);
    } else {
      InnerOrphansIff(bs, n - 1);
      TrapsNext(bs, n);
      InnerOrphansNext(bs, n);
    }
  }

  ghost predicate SomeOrphan(m: seq<BlockData>, n: int)
    requires n <= |m|
  {
    exists i: nat :: i < n && OrphanAt(m, i)
  }

  ghost predicate SomeTrap(bs: seq<BlockData>, n: nat)
    requires n <= |bs| + 1
  {
    exists k: nat :: k < n && Trap(bs, k)
  }

  lemma {:induction false} TrapsNext(bs: seq<BlockData>, n: nat)
    requires 0 < n <= |bs|
    ensures SomeTrap(bs, n) <==> SomeTrap(bs, n - 1) || Trap(bs, n - 1)
  {
    if SomeTrap(bs, n - 1) {
      var k: nat :| k < n - 1 && Trap(bs, k);
      assert k < n && Trap(bs, k);
    }
  }

  // The next block is taken in, or makes what was last an inner block.
  lemma {:induction false} InnerOrphansNext(bs: seq<BlockData>, n: nat)
    requires 1 < n <= |bs|
    requires var m := MergedUpTo(bs, n - 1); SomeOrphan(m, |m| - 1) <==> SomeTrap(bs, n - 1)
    requires SomeTrap(bs, n) <==> SomeTrap(bs, n - 1) || Trap(bs, n - 1)
    ensures var m := MergedUpTo(bs, n); SomeOrphan(m, |m| - 1) <==> SomeTrap(bs, n)
  {
    var m, b := MergedUpTo(bs, n - 1), bs[n - 1];
    TrapCloses(bs, n - 1);
    if IsOrphan(m[|m| - 1], b) {
      TakenIn(m, b);
    } else {
      Appended(m, b);
    }
  }

  // A trap is closed exactly when what is last is an orphan and the next block is not taken in.
  lemma {:induction false} TrapCloses(bs: seq<BlockData>, n: nat)
    requires 0 < n < |bs|
    ensures MergedUpTo(bs, n) != []
    ensures var m := MergedUpTo(bs, n);
            Trap(bs, n) <==> OrphanAt(m, |m| - 1) && !IsOrphan(m[|m| - 1], bs[n])
  {
    LastOrphanIff(bs, n);
    TakesInIff(bs, n);
  }

  // The next block is taken in exactly if it is one word behind a block that leads.
  lemma {:induction false} TakesInIff(bs: seq<BlockData>, n: nat)
    requires 0 < n < |bs|
    ensures var m := MergedUpTo(bs, n);
            m != [] && (IsOrphan(m[|m| - 1], bs[n]) <==> Leads(bs[n - 1]) && OneWord(bs[n]))
  {
    var at := LastOfMerged(bs, n);
    LeadsOn(bs, n, at);
  }

  lemma {:induction false} TakenIn(m: seq<BlockData>, b: BlockData)
    requires m != [] && IsOrphan(m[|m| - 1], b)
    ensures |MergeNext(m, b)| == |m| && (SomeOrphan(MergeNext(m, b), |m| - 1) <==> SomeOrphan(m, |m| - 1))
  {
    SameOrphans(m, MergeNext(m, b), |m| - 1);
  }

  lemma {:induction false} Appended(m: seq<BlockData>, b: BlockData)
    requires m != [] && !IsOrphan(m[|m| - 1], b)
    ensures |MergeNext(m, b)| == |m| + 1
    ensures SomeOrphan(MergeNext(m, b), |m|) <==> SomeOrphan(m, |m| - 1) || OrphanAt(m, |m| - 1)
  {
    SameOrphans(m, MergeNext(m, b), |m|);
    if SomeOrphan(m, |m| - 1) {
      var i: nat :| i < |m| - 1 && OrphanAt(m, i);
      assert i < |m| && OrphanAt(m, i);
    }
  }

  lemma {:induction false} SameOrphans(m: seq<BlockData>, r: seq<BlockData>, n: nat)
    requires n <= |m| && n <= |r| && forall i :: 0 <= i < n ==> m[i] == r[i]
    ensures SomeOrphan(m, n) <==> SomeOrphan(r, n)
  {
    if SomeOrphan(m, n) {
      var i: nat :| i < n && OrphanAt(m, i);
      assert OrphanAt(r, i);
    }
    if SomeOrphan(r, n) {
      var i: nat :| i < n && OrphanAt(r, i);
      assert OrphanAt(m, i);
    }
  }

  lemma SettledMeans(m: seq<BlockData>)
    ensures Settled(m) <==> forall i: nat :: i < |m| ==> !OrphanAt(m, i)
  {
    if Settled(m) {
      forall i: nat | i < |m| ensures !OrphanAt(m, i) {}
    }
    if forall i: nat :: i < |m| ==> !OrphanAt(m, i) {
      forall i | 0 < i < |m| ensures !IsOrphan(m[i - 1], m[i]) { assert !OrphanAt(m, i); }
    }
  }

  // Merging drops a block exactly if there is an orphan.
  lemma {:induction false} MergingAgain(m: seq<BlockData>, n: nat)
    requires n <= |m|
    ensures |MergedUpTo(m, n)| <= n
    ensures |MergedUpTo(m, n)| == n ==>
      MergedUpTo(m, n) == m[..n] && forall i :: 0 < i < n ==> !IsOrphan(m[i - 1], m[i])
    decreases n
  {
    if n > 0 {
      MergingAgain(m, n - 1);
      OneMore(m, n - 1);
      if n > 1 { assert m[..n - 1][n - 2] == m[n - 2]; }
    }
  }

  ghost predicate NoTrap(bs: seq<BlockData>) {
    forall k: nat :: k <= |bs| ==> !Trap(bs, k)
  }

  lemma {:induction false} SettledIffNoTrap(bs: seq<BlockData>)
    ensures Settled(Merged(bs)) <==> NoTrap(bs)
  {
    var m := Merged(bs);
    SettledMeans(m);
    if bs != [] {
      InnerOrphansIff(bs, |bs|);
      LastOrphanIff(bs, |bs|);
      if NoTrap(bs) {
        assert !Trap(bs, |bs|);
        forall i: nat | i < |m| ensures !OrphanAt(m, i) {}
      } else {
        var k: nat :| k <= |bs| && Trap(bs, k);
        if k < |bs| { assert SomeTrap(bs, |bs|); }
      }
    }
  }

  lemma UnchangedIffSettled(m: seq<BlockData>)
    ensures Merged(m) == m <==> Settled(m)
  {
    MergingAgain(m, |m|);
    assert m[..|m|] == m;
    if Settled(m) { SettledStays(m, |m|); }
  }

  // Merging leaves no orphan if and only if no blank paragraph behind a paragraph or header is followed
  // by exactly one word; and exactly then merging again changes nothing.
  lemma MergingSettlesIff(bs: seq<BlockData>)
    ensures Settled(Merged(bs)) <==> NoTrap(bs)
    ensures Merged(Merged(bs)) == Merged(bs) <==> NoTrap(bs)
  {
    SettledIffNoTrap(bs);
    UnchangedIffSettled(Merged(bs));
  }

  // Of blocks that all have words, merging leaves no orphan, and merging again changes nothing.
  lemma MergingSettles(bs: seq<BlockData>)
    requires AllHaveWords(bs)
    ensures Settled(Merged(bs)) && AllHaveWords(Merged(bs))
    ensures Merged(Merged(bs)) == Merged(bs)
  {
    MergeSettles(bs, |bs|);
    MergingSettlesIff(bs);
  }

  // Blank blocks have to go first: a word merged into a blank paragraph makes that paragraph an orphan.
  lemma BlankBlockBecomesOrphan()
    ensures var p := BlockData(Paragraph, "a", 1, 1, 0, 0.0, 0.0, 1.0, 1.0, []);
            var bs := [p.(text := "a a"), p.(text := ""), p];
            !Settled(Merged(bs)) && Merged(Merged(bs)) != Merged(bs)
  {
    var p := BlockData(Paragraph, "a", 1, 1, 0, 0.0, 0.0, 1.0, 1.0, []);
    var two, blank := p.(text := "a a"), p.(text := "");
    var bs := [two, blank, p];
    PrintableIsNotSpace('a');
    WordsOfOne("a");
    assert Words("") == [];
    WordsAroundBlank("a", "a");
    assert "a" + " " + "a" == "a a";
    assert MergedUpTo(bs, 1) == [two];
    assert MergedUpTo(bs, 2) == [two, blank];
    AbsorbedWords(blank, p);
    var q := Absorbed(blank, p);
    assert MergedUpTo(bs, 3) == [two, q];
    assert IsOrphan(two, q);
    assert MergedUpTo([two, q], 1) == [two];
    assert |MergedUpTo([two, q], 2)| == 1;
  }

  // ----- The whole post-processing -----

  lemma {:induction false} WordsSnoc(bs: seq<BlockData>, b: BlockData)
    ensures WordsOf(bs + [b]) == WordsOf(bs) + Words(b.text)
  {
    assert (bs + [b])[..|bs|] == bs;
  }

  lemma {:induction false} BlankBlocksHaveNoWords(bs: seq<BlockData>)
    ensures WordsOf(Filter(bs, NotBlank())) == WordsOf(bs)
    ensures AllHaveWords(Filter(bs, NotBlank()))
    decreases |bs|
  {
    if bs != [] {
      var init, b := bs[..|bs| - 1], bs[|bs| - 1];
      assert bs == init + [b];
      BlankBlocksHaveNoWords(init);
      FilterSnoc(init, b, NotBlank());
      BlankIffNoWords(b.text);
      if NotBlank()(b) {
        WordsSnoc(Filter(init, NotBlank()), b);
      } else {
        assert Filter(bs, NotBlank()) == Filter(init, NotBlank());
        assert WordsOf(bs) == WordsOf(init) + [];
      }
    }
  }

  lemma BlankIffNoWords(s: string)
    ensures Trim(s) == "" <==> Words(s) == []
  {
    TrimEnds(s);
    if AllSpace(s) { WordsOfSpace(s); }
    if Words(s) == [] { NoWordsFromMeansSpace(s, 0); }
  }

  lemma RenumberedKeeps(bs: seq<BlockData>, n: nat)
    requires n <= |bs|
    ensures WordsOf(Renumbered(bs)[..n]) == WordsOf(bs[..n]) && SpanIdsOf(Renumbered(bs)[..n]) == SpanIdsOf(bs[..n])
  {
    if n > 0 {
      RenumberedKeeps(bs, n - 1);
      OneMore(bs, n - 1);
      OneMore(Renumbered(bs), n - 1);
    }
  }

  lemma {:induction false} FilterAll(bs: seq<BlockData>)
    requires AllHaveWords(bs)
    ensures Filter(bs, NotBlank()) == bs
  {
    if bs != [] {
      BlankIffNoWords(bs[0].text);
      FilterAll(bs[1..]);
    }
  }

  lemma RenumberedSettles(m: seq<BlockData>)
    requires Settled(m) && AllHaveWords(m)
    ensures Settled(Renumbered(m)) && AllHaveWords(Renumbered(m))
  {
    var p := Renumbered(m);
    forall i | 0 < i < |p| ensures !IsOrphan(p[i - 1], p[i]) { assert !IsOrphan(m[i - 1], m[i]); }
  }

  lemma ProcessedStays(p: seq<BlockData>)
    requires Settled(p) && AllHaveWords(p) && forall i :: 0 <= i < |p| ==> p[i].order == i
    ensures PostProcessed(p) == p
  {
    FilterAll(p);
    SettledStays(p, |p|);
    assert p[..|p|] == p;
    assert Renumbered(p) == p;
  }

  // For any blocks at all: the words stay, the span ids of the blocks with text stay, no orphan is
  // left, the reading order is 0, 1, 2 and so on, and a second pass changes nothing.
  lemma PostProcessingSettles(bs: seq<BlockData>)
    ensures WordsOf(PostProcessed(bs)) == WordsOf(bs)
    ensures SpanIdsOf(PostProcessed(bs)) == SpanIdsOf(Filter(bs, NotBlank()))
    ensures Settled(PostProcessed(bs)) && AllHaveWords(PostProcessed(bs))
    ensures forall i :: 0 <= i < |PostProcessed(bs)| ==> PostProcessed(bs)[i].order == i
    ensures PostProcessed(PostProcessed(bs)) == PostProcessed(bs)
  {
    var kept := Filter(bs, NotBlank());
    var m := Merged(kept);
    BlankBlocksHaveNoWords(bs);
    MergingKeepsWordsAndSpans(kept);
    MergingSettles(kept);
    RenumberedKeeps(m, |m|);
    assert m[..|m|] == m && Renumbered(m)[..|m|] == Renumbered(m);
    RenumberedSettles(m);
    ProcessedStays(Renumbered(m));
  }

  // ----- The box -----

  predicate Covers(b: BlockData, c: BlockData) {
    b.x0 <= c.x0 && c.x1 <= b.x1 && b.y0 <= c.y0 && c.y1 <= b.y1
  }

  // A merged box is no hull in general: it covers the orphan exactly if that starts no higher.
  lemma MergedBoxCoversIff(prev: BlockData, b: BlockData)
    ensures Covers(Absorbed(prev, b), prev)
    ensures Covers(Absorbed(prev, b), b) <==> prev.y0 <= b.y0
  {
  }

  // ----- The loops, in place -----

  ghost predicate Distinct(blocks: seq<Block>) {
    forall i, j :: 0 <= i < j < |blocks| ==> blocks[i] != blocks[j]
  }

  ghost predicate Among(some: seq<Block>, all: seq<Block>) {
    forall i :: 0 <= i < |some| ==> some[i] in all
  }

  lemma AmongTrans(a: seq<Block>, b: seq<Block>, c: seq<Block>)
    requires Among(a, b) && Among(b, c)
    ensures Among(a, c)
  {
    forall i | 0 <= i < |a| ensures a[i] in c {
      var j :| 0 <= j < |b| && b[j] == a[i];
    }
  }

  function Values(blocks: seq<Block>): (vs: seq<BlockData>)
    reads blocks
    ensures |vs| == |blocks| && forall i :: 0 <= i < |blocks| ==> vs[i] == blocks[i].Value()
  {
    seq(|blocks|, (i: int) requires 0 <= i < |blocks| reads blocks => blocks[i].Value())
  }

  method Absorb(prev: Block, b: Block)
    requires prev != b
    modifies prev
    ensures prev.Value() == Absorbed(old(prev.Value()), b.Value())
  {
    prev.text := TrimRight(prev.text) + " " + b.text;
    prev.y1 := Upper(prev.y1, b.y1);
    prev.x0 := Lower(prev.x0, b.x0);
    prev.x1 := Upper(prev.x1, b.x1);
    prev.pageEnd := if prev.pageEnd >= b.pageEnd then prev.pageEnd else b.pageEnd;
    prev.spanIds := prev.spanIds + b.spanIds;
  }

  lemma NotAmongFirst(blocks: seq<Block>, n: nat)
    requires Distinct(blocks) && n < |blocks|
    ensures forall k :: n <= k < |blocks| ==> blocks[k] !in blocks[..n]
  {
  }

  // A block that joins the list, or is absorbed by the last of it.
  method MergeOne(result: seq<Block>, b: Block) returns (result': seq<Block>)
    requires result != [] && Distinct(result) && b !in result
    modifies result
    ensures Values(result') == MergeNext(old(Values(result)), old(b.Value()))
    ensures result' == result || result' == result + [b]
  {
    var prev := result[|result| - 1];
    if b.kind == Paragraph && |Words(b.text)| == 1 && (prev.kind == Paragraph || prev.kind == Header) {
      ghost var before := Values(result);
      Absorb(prev, b);
      assert Values(result) == before[|result| - 1 := prev.Value()];
      result' := result;
    } else {
      result' := result + [b];
    }
  }

  ghost predicate MergedSoFar(result: seq<Block>, blocks: seq<Block>, n: nat, before: seq<BlockData>)
    requires n <= |blocks| == |before|
    reads result, blocks
  {
    && result != [] && Values(result) == MergedUpTo(before, n)
    && Distinct(result) && Among(result, blocks[..n])
    && forall k :: n <= k < |blocks| ==> blocks[k].Value() == before[k]
  }

  method MergeNth(result: seq<Block>, blocks: seq<Block>, n: nat, ghost before: seq<BlockData>)
    returns (result': seq<Block>)
    requires n < |blocks| == |before| && Distinct(blocks) && MergedSoFar(result, blocks, n, before)
    modifies result
    ensures MergedSoFar(result', blocks, n + 1, before)
  {
    NotAmongFirst(blocks, n);
    JoinedOnes(result, blocks, n);
    result' := MergeOne(result, blocks[n]);
  }

  lemma JoinedOnes(result: seq<Block>, blocks: seq<Block>, n: nat)
    requires n < |blocks| && Distinct(result) && Among(result, blocks[..n]) && blocks[n] !in blocks[..n]
    ensures Distinct(result + [blocks[n]]) && Among(result + [blocks[n]], blocks[..n + 1])
    ensures Among(result, blocks[..n + 1])
    ensures forall k :: n <= k < |blocks| && blocks[k] !in blocks[..n] ==> blocks[k] !in result
  {
    OneMore(blocks, n);
  }

  lemma AmongFirst(result: seq<Block>, blocks: seq<Block>, n: nat)
    requires n <= |blocks| && Among(result, blocks[..n])
    ensures Among(result, blocks)
  {
  }

  method MergeOrphanSingles(blocks: seq<Block>) returns (result: seq<Block>)
    requires Distinct(blocks)
    modifies blocks
    ensures Values(result) == Merged(old(Values(blocks)))
    ensures Distinct(result) && Among(result, blocks)
  {
    if |blocks| < 2 {
      assert |blocks| == 1 ==> MergedUpTo(Values(blocks), 0) == [];
      return blocks;
    }
    ghost var before := Values(blocks);
    result := [blocks[0]];
    assert MergedUpTo(before, 0) == [];
    for n := 1 to |blocks|
      invariant MergedSoFar(result, blocks, n, before)
    {
      AmongFirst(result, blocks, n);
      result := MergeNth(result, blocks, n, before);
    }
    AmongFirst(result, blocks, |blocks|);
  }

  method DropBlank(blocks: seq<Block>) returns (kept: seq<Block>)
    requires Distinct(blocks)
    ensures Values(kept) == Filter(Values(blocks), NotBlank())
    ensures Distinct(kept) && Among(kept, blocks)
  {
    kept := [];
    ghost var values := Values(blocks);
    for n := 0 to |blocks|
      invariant Values(kept) == Filter(values[..n], NotBlank())
      invariant Distinct(kept) && Among(kept, blocks[..n])
    {
      NotAmongFirst(blocks, n);
      OneMore(blocks, n);
      OneMore(values, n);
      FilterSnoc(values[..n], values[n], NotBlank());
      if Trim(blocks[n].text) != "" {
        kept := kept + [blocks[n]];
      }
    }
    assert values[..|blocks|] == values;
  }

  method Renumber(blocks: seq<Block>)
    requires Distinct(blocks)
    modifies blocks
    ensures Values(blocks) == Renumbered(old(Values(blocks)))
  {
    ghost var before := Values(blocks);
    for n := 0 to |blocks|
      invariant forall k :: 0 <= k < |blocks| ==>
        blocks[k].Value() == if k < n then before[k].(order := k) else before[k]
    {
      blocks[n].readingOrder := n;
    }
  }

  method PostProcess(blocks: seq<Block>) returns (result: seq<Block>)
    requires Distinct(blocks)
    modifies blocks
    ensures Values(result) == PostProcessed(old(Values(blocks)))
    ensures Distinct(result) && Among(result, blocks)
  {
    var kept := DropBlank(blocks);
    result := MergeOrphanSingles(kept);
    AmongTrans(result, kept, blocks);
    Renumber(result);
  }
}
