// Grouping OCR spans into lines and text blocks, as in app/ingest/layout.py. Coordinates are reals.
module Layout {
  import opened Common
  import opened Text
  import opened Ordering
  import opened Grouping

  datatype RawSpan = RawSpan(id: string, page: int, text: string, x0: real, y0: real, x1: real, y1: real) {
    function XMid(): real { (x0 + x1) / 2.0 }
    function Height(): real { if y1 - y0 > 0.0 then y1 - y0 else 0.0 }
  }

  datatype Kind = Paragraph | Header | Table | List | Figure

  datatype BlockData = BlockData(kind: Kind, text: string, pageStart: int, pageEnd: int, order: nat,
                                 x0: real, y0: real, x1: real, y1: real, spanIds: seq<string>)

  const LINE_TOLERANCE := 4.0
  const PARA_GAP_RATIO := 1.5
  const HEADER_HEIGHT_RATIO := 1.35
  const MIN_HEADER_TOKENS := 12
  const COLUMN_GAP_FRACTION := 0.2

  // ----- Numbers -----

  function Map<T, U>(xs: seq<T>, f: T -> U): (r: seq<U>)
    ensures |r| == |xs| && forall k :: 0 <= k < |xs| ==> r[k] == f(xs[k])
  {
    seq(|xs|, (k: int) requires 0 <= k < |xs| => f(xs[k]))
  }

  function Least(xs: seq<real>): (m: real)
    ensures xs != [] ==> m in xs
    ensures forall k :: 0 <= k < |xs| ==> m <= xs[k]
  {
    if xs == [] then 0.0
    else if |xs| == 1 then xs[0]
    else
      var m := Least(xs[1..]);
      if xs[0] <= m then xs[0] else m
  }

  function Greatest(xs: seq<real>): (m: real)
    ensures xs != [] ==> m in xs
    ensures forall k :: 0 <= k < |xs| ==> xs[k] <= m
  {
    if xs == [] then 0.0
    else if |xs| == 1 then xs[0]
    else
      var m := Greatest(xs[1..]);
      if xs[0] >= m then xs[0] else m
  }

  function Total(xs: seq<real>): real {
    if xs == [] then 0.0 else Total(xs[..|xs| - 1]) + xs[|xs| - 1]
  }

  function Mean(xs: seq<real>): real {
    if xs == [] then 0.0 else Total(xs) / |xs| as real
  }

  lemma {:induction false} TotalAtMost(xs: seq<real>, top: real)
    requires forall k :: 0 <= k < |xs| ==> xs[k] <= top
    ensures Total(xs) <= |xs| as real * top
  {
    if xs != [] {
      TotalAtMost(xs[..|xs| - 1], top);
      assert |xs| as real * top == (|xs| - 1) as real * top + top;
    }
  }

  lemma MeanAtMost(xs: seq<real>, top: real)
    requires xs != [] && forall k :: 0 <= k < |xs| ==> xs[k] <= top
    ensures Mean(xs) <= top
  {
    TotalAtMost(xs, top);
    Divided(Total(xs), |xs| as real, top);
  }

  lemma Divided(t: real, n: real, top: real)
    requires n > 0.0 && t <= n * top
    ensures t / n <= top
  {
    assert t / n * n == t;
    var over := t / n - top;
    assert over * n == t - n * top;
  }

  function RealLe(): (real, real) -> bool { (a: real, b: real) => a <= b }

  // statistics.median.
  function Median(xs: seq<real>): real
    requires xs != []
  {
    SortPermutes(xs, RealLe());
    var s := Sort(xs, RealLe());
    if |s| % 2 == 1 then s[|s| / 2] else (s[|s| / 2 - 1] + s[|s| / 2]) / 2.0
  }

  lemma MedianBetween(xs: seq<real>)
    requires xs != []
    ensures var s := Sort(xs, RealLe());
            |s| == |xs| && s[(|s| - 1) / 2] <= Median(xs) <= s[|s| / 2]
  {
    SortPermutes(xs, RealLe());
    SortSorts(xs, RealLe());
    var s := Sort(xs, RealLe());
    var i, j := (|s| - 1) / 2, |s| / 2;
    assert i < j ==> RealLe()(s[i], s[j]);
  }

  // At least half of the values are at most the median, and at least half are at least it.
  lemma MedianHalves(xs: seq<real>)
    requires xs != []
    ensures 2 * |Filter(xs, (x: real) => x <= Median(xs))| >= |xs|
    ensures 2 * |Filter(xs, (x: real) => x >= Median(xs))| >= |xs|
  {
    var m, s := Median(xs), Sort(xs, RealLe());
    var low, high := (x: real) => x <= Median(xs), (x: real) => x >= Median(xs);
    MedianBetween(xs);
    SortSorts(xs, RealLe());
    var i, j := (|s| - 1) / 2, |s| / 2;
    forall k | 0 <= k < i + 1 ensures low(s[k]) { assert k < i ==> RealLe()(s[k], s[i]); }
    forall k | j <= k < |s| ensures high(s[k]) { assert j < k ==> RealLe()(s[j], s[k]); }
    FilterAtLeast(s, low, 0, i + 1);
    FilterAtLeast(s, high, j, |s|);
    SortCounts(xs, RealLe(), low);
    SortCounts(xs, RealLe(), high);
  }

  // ----- Lines -----

  function Tops(spans: seq<RawSpan>): seq<real> {
    Map(spans, (s: RawSpan) => s.y0)
  }

  function Near(tolerance: real): (seq<RawSpan>, RawSpan) -> bool {
    (line: seq<RawSpan>, s: RawSpan) => -tolerance <= s.y0 - Mean(Tops(line)) <= tolerance
  }

  function LinesOf(spans: seq<RawSpan>, tolerance: real): seq<seq<RawSpan>> {
    Grouped(spans, Near(tolerance), |spans|)
  }

  // The mean of the last line is compared with the next top; the first span opens the first line.
  method GroupIntoLines(spans: seq<RawSpan>, tolerance: real) returns (lines: seq<seq<RawSpan>>)
    ensures lines == LinesOf(spans, tolerance)
  {
    if spans == [] { return []; }
    lines := [[spans[0]]];
    assert Grouped(spans, Near(tolerance), 1) == Push(Grouped(spans, Near(tolerance), 0), spans[0], Near(tolerance));
    for i := 1 to |spans|
      invariant lines == Grouped(spans, Near(tolerance), i) && lines != []
    {
      var last := lines[|lines| - 1];
      var lastTop := Mean(Tops(last));
      if -tolerance <= spans[i].y0 - lastTop <= tolerance {
        lines := lines[..|lines| - 1] + [last + [spans[i]]];
      } else {
        lines := lines + [[spans[i]]];
      }
    }
  }

  ghost predicate TopDown(spans: seq<RawSpan>) {
    forall i, j :: 0 <= i < j < |spans| ==> spans[i].y0 <= spans[j].y0
  }

  lemma {:induction false} LinesAreTopDown(lines: seq<seq<RawSpan>>, i: nat)
    requires TopDown(Flatten(lines)) && i < |lines|
    ensures TopDown(lines[i])
    ensures forall j :: i < j < |lines| ==> forall a, b :: a in lines[i] && b in lines[j] ==> a.y0 <= b.y0
    decreases |lines|
  {
    var all, rest := Flatten(lines), Flatten(lines[1..]);
    assert all == lines[0] + rest;
    RestIsTopDown(lines[0], rest);
    if i > 0 {
      LinesAreTopDown(lines[1..], i - 1);
    } else {
      forall j | 0 < j < |lines| ensures forall b :: b in lines[j] ==> b in rest {
        InFlatten(lines[1..], j - 1);
        assert lines[j] == lines[1..][j - 1];
      }
    }
  }

  lemma RestIsTopDown(a: seq<RawSpan>, b: seq<RawSpan>)
    requires TopDown(a + b)
    ensures TopDown(a) && TopDown(b) && forall x, y :: x in a && y in b ==> x.y0 <= y.y0
  {
    var all := a + b;
    forall i, j | 0 <= i < j < |a| ensures a[i].y0 <= a[j].y0 { assert all[i] == a[i] && all[j] == a[j]; }
    forall i, j | 0 <= i < j < |b| ensures b[i].y0 <= b[j].y0 { assert all[|a| + i] == b[i] && all[|a| + j] == b[j]; }
    forall i, j | 0 <= i < |a| && 0 <= j < |b| ensures a[i].y0 <= b[j].y0 {
      assert all[i] == a[i] && all[|a| + j] == b[j];
    }
  }

  lemma {:induction false} InFlatten<T>(parts: seq<seq<T>>, i: nat)
    requires i < |parts|
    ensures forall x :: x in parts[i] ==> x in Flatten(parts)
  {
    if i > 0 {
      InFlatten(parts[1..], i - 1);
      assert parts[i] == parts[1..][i - 1];
    }
  }

  lemma InLine(line: seq<RawSpan>, tolerance: real, k: nat)
    requires TopDown(line) && IsGroup(line, Near(tolerance)) && 0 < k < |line|
    ensures 0.0 <= line[k].y0 - line[k - 1].y0 <= tolerance
    ensures Mean(Tops(line[..k])) <= line[k].y0 <= Mean(Tops(line[..k])) + tolerance
  {
    assert Near(tolerance)(line[..k], line[k]);
    MeanAtMost(Tops(line[..k]), line[k].y0);
    MeanAtMost(Tops(line[..k]), line[k - 1].y0);
  }

  lemma BelowLine(line: seq<RawSpan>, next: RawSpan, tolerance: real)
    requires line != [] && !Near(tolerance)(line, next) && tolerance >= 0.0
    requires forall s :: s in line ==> s.y0 <= next.y0
    ensures next.y0 > Mean(Tops(line)) + tolerance
  {
    MeanAtMost(Tops(line), next.y0);
  }

  // Of spans that come top down, the running mean never passes the last top: in a line each top is
  // within the tolerance of the one before, and the next line starts further below the mean.
  lemma {:induction false} LinesAreTight(spans: seq<RawSpan>, tolerance: real, i: nat)
    requires TopDown(spans) && tolerance >= 0.0
    requires i < |LinesOf(spans, tolerance)|
    ensures var line := LinesOf(spans, tolerance)[i];
            && line != []
            && (forall k :: 0 < k < |line| ==> 0.0 <= line[k].y0 - line[k - 1].y0 <= tolerance)
            && (forall k :: 0 < k < |line| ==>
                  Mean(Tops(line[..k])) <= line[k].y0 <= Mean(Tops(line[..k])) + tolerance)
            && (i > 0 ==> line[0].y0 > Mean(Tops(LinesOf(spans, tolerance)[i - 1])) + tolerance)
  {
    var lines := LinesOf(spans, tolerance);
    GroupedIff(lines, spans, Near(tolerance));
    LineIsTight(lines, tolerance, i);
    if i > 0 { LineStartsBelow(lines, tolerance, i); }
  }

  lemma {:induction false} LineIsTight(lines: seq<seq<RawSpan>>, tolerance: real, i: nat)
    requires TopDown(Flatten(lines)) && Fits(lines, Near(tolerance)) && i < |lines|
    ensures lines[i] != []
    ensures forall k :: 0 < k < |lines[i]| ==> 0.0 <= lines[i][k].y0 - lines[i][k - 1].y0 <= tolerance
    ensures forall k :: 0 < k < |lines[i]| ==>
      Mean(Tops(lines[i][..k])) <= lines[i][k].y0 <= Mean(Tops(lines[i][..k])) + tolerance
  {
    LinesAreTopDown(lines, i);
    var line := lines[i];
    assert IsGroup(line, Near(tolerance));
    forall k | 0 < k < |line|
      ensures 0.0 <= line[k].y0 - line[k - 1].y0 <= tolerance
      ensures Mean(Tops(line[..k])) <= line[k].y0 <= Mean(Tops(line[..k])) + tolerance
    {
      InLine(line, tolerance, k);
    }
  }

  lemma {:induction false} LineStartsBelow(lines: seq<seq<RawSpan>>, tolerance: real, i: nat)
    requires TopDown(Flatten(lines)) && Fits(lines, Near(tolerance)) && 0 < i < |lines| && tolerance >= 0.0
    ensures lines[i] != [] && lines[i][0].y0 > Mean(Tops(lines[i - 1])) + tolerance
  {
    assert Parted(lines[i - 1], lines[i], Near(tolerance));
    assert IsGroup(lines[i - 1], Near(tolerance));
    LinesAreTopDown(lines, i - 1);
    BelowLine(lines[i - 1], lines[i][0], tolerance);
  }

  // ----- Columns -----

  function Mids(spans: seq<RawSpan>): seq<real> {
    Map(spans, (s: RawSpan) => s.XMid())
  }

  function Width(mids: seq<real>): real
    requires mids != []
  {
    if mids[|mids| - 1] - mids[0] > 1.0 then mids[|mids| - 1] - mids[0] else 1.0
  }

  predicate Splits(mids: seq<real>, i: nat)
    requires 0 < i < |mids|
  {
    && mids[i] - mids[i - 1] > COLUMN_GAP_FRACTION * Width(mids)
    && mids[i - 1] - mids[0] > 0.1 * Width(mids)
    && mids[|mids| - 1] - mids[i] > 0.1 * Width(mids)
  }

  predicate IsFirstSplit(mids: seq<real>, i: nat, k: nat)
    requires 0 < i && 0 < k < |mids|
  {
    i <= k && Splits(mids, k) && forall j :: i <= j < k ==> !Splits(mids, j)
  }

  function FirstSplit(mids: seq<real>, i: nat): (r: Option<real>)
    requires 0 < i
    ensures r.Some? ==>
      exists k :: 0 < k < |mids| && IsFirstSplit(mids, i, k) && r.value == (mids[k - 1] + mids[k]) / 2.0
    ensures r.None? ==> forall j :: 0 < i <= j < |mids| ==> !Splits(mids, j)
    decreases |mids| - i
  {
    if i >= |mids| then None
    else if Splits(mids, i) then Some((mids[i - 1] + mids[i]) / 2.0)
    else FirstSplit(mids, i + 1)
  }

  function ColumnSplit(spans: seq<RawSpan>): Option<real> {
    if |spans| < 10 then None else FirstSplit(Sort(Mids(spans), RealLe()), 1)
  }

  method DetectColumnSplit(spans: seq<RawSpan>) returns (split: Option<real>)
    ensures split == ColumnSplit(spans)
  {
    if |spans| < 10 { return None; }
    var mids := Sort(Mids(spans), RealLe());
    for i := 1 to |mids|
      invariant FirstSplit(mids, 1) == FirstSplit(mids, i)
    {
      if Splits(mids, i) { return Some((mids[i - 1] + mids[i]) / 2.0); }
    }
    return None;
  }

  // Of at least ten spans, the middles in order: they split where a gap is wider than a fifth of their range
  // (counted as at least 1) and both sides reach further than a tenth of it; the first such gap counts, and the
  // split is in the middle of it.
  ghost predicate WideGap(mids: seq<real>, i: nat)
    requires 0 < i < |mids|
  {
    var range := mids[|mids| - 1] - mids[0];
    var width := if range > 1.0 then range else 1.0;
    && mids[i] - mids[i - 1] > 0.2 * width
    && mids[i - 1] - mids[0] > 0.1 * width && mids[|mids| - 1] - mids[i] > 0.1 * width
  }

  ghost function Middles(spans: seq<RawSpan>): seq<real> {
    Sort(Map(spans, (s: RawSpan) => (s.x0 + s.x1) / 2.0), RealLe())
  }

  ghost predicate FirstWideGap(mids: seq<real>, i: nat) {
    0 < i < |mids| && WideGap(mids, i) && forall j :: 0 < j < i ==> !WideGap(mids, j)
  }

  lemma SplitIff(spans: seq<RawSpan>, x: real)
    ensures ColumnSplit(spans) == Some(x) <==>
            && |spans| >= 10
            && exists i: nat ::
                 FirstWideGap(Middles(spans), i) && x == (Middles(spans)[i - 1] + Middles(spans)[i]) / 2.0
  {
    assert Mids(spans) == Map(spans, (s: RawSpan) => (s.x0 + s.x1) / 2.0);
    FirstSplitIff(Middles(spans), x);
  }

  lemma FirstSplitIff(mids: seq<real>, x: real)
    ensures FirstSplit(mids, 1) == Some(x) <==>
            exists i: nat :: FirstWideGap(mids, i) && x == (mids[i - 1] + mids[i]) / 2.0
  {
    forall i | 0 < i < |mids| ensures WideGap(mids, i) <==> Splits(mids, i) { GapIff(mids, i); }
    if FirstSplit(mids, 1).Some? {
      var k :| 0 < k < |mids| && IsFirstSplit(mids, 1, k) && FirstSplit(mids, 1).value == (mids[k - 1] + mids[k]) / 2.0;
      assert FirstWideGap(mids, k);
      forall i: nat | FirstWideGap(mids, i) ensures i == k {}
    }
  }

  lemma GapIff(mids: seq<real>, i: nat)
    requires 0 < i < |mids|
    ensures WideGap(mids, i) <==> Splits(mids, i)
  {
  }

  lemma BesideGap(mids: seq<real>, i: nat, x: real)
    requires Sorted(mids, RealLe()) && 0 < i < |mids| && x in mids
    ensures x <= mids[i - 1] || x >= mids[i]
  {
    var j :| 0 <= j < |mids| && mids[j] == x;
    assert j < i - 1 ==> RealLe()(mids[j], mids[i - 1]);
    assert j > i ==> RealLe()(mids[i], mids[j]);
  }

  lemma GapInSorted(xs: seq<real>, mids: seq<real>, i: nat)
    requires mids == Sort(xs, RealLe()) && 0 < i < |mids|
    ensures forall k :: 0 <= k < |xs| ==> xs[k] <= mids[i - 1] || xs[k] >= mids[i]
    ensures mids[i - 1] in xs && mids[i] in xs
  {
    SortSorts(xs, RealLe());
    forall k | 0 <= k < |xs| ensures xs[k] <= mids[i - 1] || xs[k] >= mids[i] {
      SortHasTheSame(xs, RealLe(), xs[k]);
      BesideGap(mids, i, xs[k]);
    }
    SortHasTheSame(xs, RealLe(), mids[i - 1]);
    SortHasTheSame(xs, RealLe(), mids[i]);
  }

  // A split leaves no midpoint within a tenth of the width of it, and has one on either side.
  lemma SplitSeparates(spans: seq<RawSpan>)
    requires ColumnSplit(spans).Some?
    ensures var x, w := ColumnSplit(spans).value, Width(Sort(Mids(spans), RealLe()));
            && w >= 1.0
            && (forall k :: 0 <= k < |spans| ==> Mids(spans)[k] < x - 0.1 * w || Mids(spans)[k] > x + 0.1 * w)
            && (exists k :: 0 <= k < |spans| && Mids(spans)[k] < x)
            && (exists k :: 0 <= k < |spans| && Mids(spans)[k] > x)
  {
    var xs := Mids(spans);
    var mids := Sort(xs, RealLe());
    var x := ColumnSplit(spans).value;
    var i :| 1 <= i < |mids| && IsFirstSplit(mids, 1, i) && x == (mids[i - 1] + mids[i]) / 2.0;
    GapInSorted(xs, mids, i);
    assert mids[i] - mids[i - 1] > 0.2 * Width(mids);
    assert mids[i - 1] < x - 0.1 * Width(mids) && mids[i] > x + 0.1 * Width(mids);
  }

  // ----- Blocks of lines -----

  datatype Line = Line(spans: seq<RawSpan>, col: nat)

  // Each line goes to the side its mean midpoint is on; without a split there is one column.
  function InColumns(lines: seq<seq<RawSpan>>, split: Option<real>): seq<Line> {
    Map(lines, (l: seq<RawSpan>) => Line(l, if split.Some? && Mean(Mids(l)) >= split.value then 1 else 0))
  }

  function TopOf(line: Line): real {
    if line.spans == [] then 0.0 else line.spans[0].y0
  }

  function ColumnLe(): (Line, Line) -> bool {
    (a: Line, b: Line) => a.col < b.col || (a.col == b.col && TopOf(a) <= TopOf(b))
  }

  function ReadingLe(): (RawSpan, RawSpan) -> bool {
    (a: RawSpan, b: RawSpan) => a.y0 < b.y0 || (a.y0 == b.y0 && a.x0 <= b.x0)
  }

  predicate SameBlock(prev: Line, curr: Line, medianHeight: real) {
    && curr.col == prev.col
    && Least(Tops(curr.spans)) - Greatest(Map(prev.spans, (s: RawSpan) => s.y1))
       <= PARA_GAP_RATIO * if medianHeight > 4.0 then medianHeight else 4.0
  }

  // A line stays in the block if and only if it is in the same column and some span of it starts no
  // further below some span of the line before than one and a half line heights.
  lemma SameBlockIff(prev: Line, curr: Line, medianHeight: real)
    requires prev.spans != [] && curr.spans != []
    ensures SameBlock(prev, curr, medianHeight) <==>
            && curr.col == prev.col
            && exists i, j :: 0 <= i < |prev.spans| && 0 <= j < |curr.spans|
                 && (curr.spans[j].y0 - prev.spans[i].y1 <= 1.5 * medianHeight
                   || curr.spans[j].y0 - prev.spans[i].y1 <= 6.0)
  {
    var tops, bottoms := Tops(curr.spans), Map(prev.spans, (s: RawSpan) => s.y1);
    if SameBlock(prev, curr, medianHeight) {
      var j :| 0 <= j < |tops| && tops[j] == Least(tops);
      var i :| 0 <= i < |bottoms| && bottoms[i] == Greatest(bottoms);
      assert curr.spans[j].y0 == tops[j] && prev.spans[i].y1 == bottoms[i];
    }
    forall i, j | 0 <= i < |prev.spans| && 0 <= j < |curr.spans|
      ensures Least(tops) - Greatest(bottoms) <= curr.spans[j].y0 - prev.spans[i].y1
    {
      assert tops[j] == curr.spans[j].y0 && bottoms[i] == prev.spans[i].y1;
    }
  }

  function Follows(medianHeight: real): (seq<Line>, Line) -> bool {
    (block: seq<Line>, line: Line) => block != [] && SameBlock(block[|block| - 1], line, medianHeight)
  }

  lemma PlaceLine(lines: seq<Line>, medianHeight: real, i: nat)
    requires 0 < i < |lines|
    ensures var blocks := Grouped(lines, Follows(medianHeight), i);
            && blocks != []
            && Grouped(lines, Follows(medianHeight), i + 1) ==
               if SameBlock(lines[i - 1], lines[i], medianHeight)
               then blocks[..|blocks| - 1] + [blocks[|blocks| - 1] + [lines[i]]]
               else blocks + [[lines[i]]]
  {
    LastIsLast(lines, Follows(medianHeight), i);
  }

  // A line stays in the block of the line before it unless the column changes or the gap is wide.
  method GroupLinesIntoBlocks(lines: seq<Line>, medianHeight: real) returns (blocks: seq<seq<Line>>)
    ensures blocks == Grouped(lines, Follows(medianHeight), |lines|)
  {
    if lines == [] { return []; }
    blocks := [[lines[0]]];
    assert Grouped(lines, Follows(medianHeight), 1) ==
        Push(Grouped(lines, Follows(medianHeight), 0), lines[0], Follows(medianHeight));
    for i := 1 to |lines|
      invariant blocks == Grouped(lines, Follows(medianHeight), i)
    {
      PlaceLine(lines, medianHeight, i);
      if SameBlock(lines[i - 1], lines[i], medianHeight) {
        blocks := blocks[..|blocks| - 1] + [blocks[|blocks| - 1] + [lines[i]]];
      } else {
        blocks := blocks + [[lines[i]]];
      }
    }
  }

  // ----- One page -----

  // A block before it is described: its page, the page's median height, and its spans line by line.
  datatype Group = Group(page: int, medianHeight: real, spans: seq<RawSpan>)

  function SpansOfLines(lines: seq<Line>): seq<RawSpan> {
    if lines == [] then [] else lines[0].spans + SpansOfLines(lines[1..])
  }

  function SpansOfGroups(groups: seq<Group>): seq<RawSpan> {
    if groups == [] then [] else groups[0].spans + SpansOfGroups(groups[1..])
  }

  function MedianHeight(spans: seq<RawSpan>): real {
    var heights := Filter(Map(spans, (s: RawSpan) => s.Height()), (h: real) => h > 1.0);
    if heights == [] then 12.0 else Median(heights)
  }

  function PageLines(sorted: seq<RawSpan>): seq<Line> {
    var lines := InColumns(LinesOf(sorted, LINE_TOLERANCE), ColumnSplit(sorted));
    if ColumnSplit(sorted).Some? then Sort(lines, ColumnLe()) else lines
  }

  function PageGroups(page: int, pageSpans: seq<RawSpan>): seq<Group> {
    var sorted := Sort(pageSpans, ReadingLe());
    var lines := PageLines(sorted);
    var h := MedianHeight(sorted);
    Map(Grouped(lines, Follows(h), |lines|), (b: seq<Line>) => Group(page, h, SpansOfLines(b)))
  }

  // Grouping a page into lines, columns and blocks loses and repeats no span.
  lemma PageConserves(page: int, pageSpans: seq<RawSpan>)
    ensures multiset(SpansOfGroups(PageGroups(page, pageSpans))) == multiset(pageSpans)
  {
    var sorted := Sort(pageSpans, ReadingLe());
    var h, lines := MedianHeight(sorted), PageLines(sorted);
    var blocks := Grouped(lines, Follows(h), |lines|);
    SortPermutes(pageSpans, ReadingLe());
    LinesConserve(sorted);
    GroupedIff(blocks, lines, Follows(h));
    FlattenedLines(blocks, page, h);
  }

  lemma LinesConserve(sorted: seq<RawSpan>)
    ensures multiset(SpansOfLines(PageLines(sorted))) == multiset(sorted)
    ensures ColumnSplit(sorted).None? ==> SpansOfLines(PageLines(sorted)) == sorted
  {
    var raw := LinesOf(sorted, LINE_TOLERANCE);
    var lines := InColumns(raw, ColumnSplit(sorted));
    GroupedIff(raw, sorted, Near(LINE_TOLERANCE));
    ColumnsKeepSpans(raw, ColumnSplit(sorted));
    if ColumnSplit(sorted).Some? { SortedLines(lines); }
  }

  lemma {:induction false} ColumnsKeepSpans(lines: seq<seq<RawSpan>>, split: Option<real>)
    ensures SpansOfLines(InColumns(lines, split)) == Flatten(lines)
  {
    if lines != [] {
      assert InColumns(lines, split)[1..] == InColumns(lines[1..], split);
      ColumnsKeepSpans(lines[1..], split);
    }
  }

  lemma {:induction false} SortedLines(lines: seq<Line>)
    ensures multiset(SpansOfLines(Sort(lines, ColumnLe()))) == multiset(SpansOfLines(lines))
  {
    if lines != [] {
      SortedLines(lines[1..]);
      InsertedLine(lines[0], Sort(lines[1..], ColumnLe()));
    }
  }

  lemma {:induction false} InsertedLine(line: Line, lines: seq<Line>)
    ensures multiset(SpansOfLines(Insert(line, lines, ColumnLe()))) ==
        multiset(line.spans) + multiset(SpansOfLines(lines))
    decreases |lines|
  {
    if lines == [] || ColumnLe()(line, lines[0]) {
      assert ([line] + lines)[1..] == lines;
    } else {
      InsertedLine(line, lines[1..]);
      assert ([lines[0]] + Insert(line, lines[1..], ColumnLe()))[1..] == Insert(line, lines[1..], ColumnLe());
    }
  }

  lemma {:induction false} FlattenedLines(blocks: seq<seq<Line>>, page: int, h: real)
    ensures SpansOfGroups(Map(blocks, (b: seq<Line>) => Group(page, h, SpansOfLines(b)))) ==
        SpansOfLines(Flatten(blocks))
  {
    if blocks != [] {
      FlattenedLines(blocks[1..], page, h);
      assert Map(blocks, (b: seq<Line>) => Group(page, h, SpansOfLines(b)))[1..]
          == Map(blocks[1..], (b: seq<Line>) => Group(page, h, SpansOfLines(b)));
      LinesConcat(blocks[0], Flatten(blocks[1..]));
    }
  }

  lemma {:induction false} LinesConcat(a: seq<Line>, b: seq<Line>)
    ensures SpansOfLines(a + b) == SpansOfLines(a) + SpansOfLines(b)
    decreases |a|
  {
    if a == [] {
      assert a + b == b;
    } else {
      assert (a + b)[1..] == a[1..] + b;
      LinesConcat(a[1..], b);
    }
  }
}
