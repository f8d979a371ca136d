// From the spans of a document to its text blocks, page after page: the loop of
// _group_spans_into_blocks in app/ingest/layout.py.
module LayoutBlocks {
  import opened Common
  import opened Text
  import opened Ordering
  import opened Grouping
  import opened Layout

  // ----- What a group becomes -----

  function Texts(spans: seq<RawSpan>): seq<string> {
    Map(spans, (s: RawSpan) => s.text)
  }

  function BlockText(g: Group): string {
    Trim(Join(Texts(g.spans), " "))
  }

  function IsTall(g: Group): bool {
    Mean(Map(g.spans, (s: RawSpan) => s.Height())) > HEADER_HEIGHT_RATIO * g.medianHeight
  }

  function BlockOf(g: Group, order: nat): BlockData {
    BlockData(if IsTall(g) && |Words(BlockText(g))| <= MIN_HEADER_TOKENS then Header else Paragraph,
              BlockText(g), g.page, g.page, order,
              Least(Map(g.spans, (s: RawSpan) => s.x0)), Least(Tops(g.spans)),
              Greatest(Map(g.spans, (s: RawSpan) => s.x1)), Greatest(Map(g.spans, (s: RawSpan) => s.y1)),
              Map(g.spans, (s: RawSpan) => s.id))
  }

  function HasText(): Group -> bool {
    (g: Group) => BlockText(g) != ""
  }

  function Describe(): (seq<BlockData>, Group) -> seq<BlockData> {
    (before: seq<BlockData>, g: Group) => if BlockText(g) != "" then before + [BlockOf(g, |before|)] else before
  }

  function Fold<A, B>(a: A, xs: seq<B>, n: nat, f: (A, B) -> A): A
    requires n <= |xs|
    decreases n
  {
    if n == 0 then a else f(Fold(a, xs, n - 1, f), xs[n - 1])
  }

  // The blocks after the first n groups were described; a group without text is dropped.
  function Described(blocks: seq<BlockData>, groups: seq<Group>, n: nat): seq<BlockData>
    requires n <= |groups|
  {
    Fold(blocks, groups, n, Describe())
  }

  // ----- Pages -----

  function OnPage(page: int): RawSpan -> bool {
    (s: RawSpan) => s.page == page
  }

  function OnPages(pages: seq<int>): RawSpan -> bool {
    (s: RawSpan) => s.page in pages
  }

  // The page numbers in the order they are first seen: the keys of the dictionary.
  function FirstSeen(spans: seq<RawSpan>, n: nat): seq<int>
    requires n <= |spans|
  {
    if n == 0 then []
    else if spans[n - 1].page in FirstSeen(spans, n - 1) then FirstSeen(spans, n - 1)
    else FirstSeen(spans, n - 1) + [spans[n - 1].page]
  }

  function IntLe(): (int, int) -> bool {
    (a: int, b: int) => a <= b
  }

  function PagesOf(spans: seq<RawSpan>): seq<int> {
    Sort(FirstSeen(spans, |spans|), IntLe())
  }

  function GroupsOf(spans: seq<RawSpan>, pages: seq<int>): seq<Group> {
    if pages == [] then []
    else
      var last := pages[|pages| - 1];
      GroupsOf(spans, pages[..|pages| - 1]) + PageGroups(last, Filter(spans, OnPage(last)))
  }

  // Every text group of a document, in reading order.
  function AllGroups(spans: seq<RawSpan>): seq<Group> {
    GroupsOf(spans, PagesOf(spans))
  }

  // ----- The loops -----

  ghost predicate ByPage(byPage: map<int, seq<RawSpan>>, spans: seq<RawSpan>) {
    forall p :: Filter(spans, OnPage(p)) == if p in byPage then byPage[p] else []
  }

  ghost predicate Keyed(byPage: map<int, seq<RawSpan>>, keys: seq<int>, spans: seq<RawSpan>) {
    keys == FirstSeen(spans, |spans|) && forall p :: p in byPage <==> p in keys
  }

  function Added(byPage: map<int, seq<RawSpan>>, s: RawSpan): map<int, seq<RawSpan>> {
    byPage[s.page := (if s.page in byPage then byPage[s.page] else []) + [s]]
  }

  lemma FirstSeenSnoc(spans: seq<RawSpan>, s: RawSpan)
    ensures var keys := FirstSeen(spans, |spans|);
            FirstSeen(spans + [s], |spans| + 1) == if s.page in keys then keys else keys + [s.page]
  {
    FirstSeenPrefix(spans, s, |spans|);
  }

  lemma {:induction false} FirstSeenPrefix(spans: seq<RawSpan>, s: RawSpan, n: nat)
    requires n <= |spans|
    ensures FirstSeen(spans + [s], n) == FirstSeen(spans, n)
  {
    if n > 0 { FirstSeenPrefix(spans, s, n - 1); }
  }

  lemma ByPageSnoc(byPage: map<int, seq<RawSpan>>, spans: seq<RawSpan>, s: RawSpan)
    requires ByPage(byPage, spans)
    ensures ByPage(Added(byPage, s), spans + [s])
  {
    forall p: int ensures Filter(spans + [s], OnPage(p)) == if p in Added(byPage, s) then Added(byPage, s)[p] else [] {
      FilterSnoc(spans, s, OnPage(p));
      assert Filter(spans, OnPage(p)) == if p in byPage then byPage[p] else [];
    }
  }

  lemma KeyedSnoc(byPage: map<int, seq<RawSpan>>, keys: seq<int>, spans: seq<RawSpan>, s: RawSpan)
    requires Keyed(byPage, keys, spans)
    ensures Keyed(Added(byPage, s), if s.page in byPage then keys else keys + [s.page], spans + [s])
  {
    FirstSeenSnoc(spans, s);
  }

  lemma SpanAdded(byPage: map<int, seq<RawSpan>>, keys: seq<int>, spans: seq<RawSpan>, n: nat)
    requires n < |spans| && ByPage(byPage, spans[..n]) && Keyed(byPage, keys, spans[..n])
    ensures ByPage(Added(byPage, spans[n]), spans[..n + 1])
    ensures var keys' := if spans[n].page in byPage then keys else keys + [spans[n].page];
            Keyed(Added(byPage, spans[n]), keys', spans[..n + 1])
  {
    OneMore(spans, n);
    ByPageSnoc(byPage, spans[..n], spans[n]);
    KeyedSnoc(byPage, keys, spans[..n], spans[n]);
  }

  method GroupByPage(spans: seq<RawSpan>) returns (byPage: map<int, seq<RawSpan>>, keys: seq<int>)
    ensures ByPage(byPage, spans) && Keyed(byPage, keys, spans)
  {
    byPage, keys := map[], [];
    for n := 0 to |spans|
      invariant ByPage(byPage, spans[..n]) && Keyed(byPage, keys, spans[..n])
    {
      SpanAdded(byPage, keys, spans, n);
      if spans[n].page !in byPage { keys := keys + [spans[n].page]; }
      byPage := Added(byPage, spans[n]);
    }
    assert spans[..|spans|] == spans;
  }

  method GroupPage(page: int, pageSpans: seq<RawSpan>) returns (groups: seq<Group>)
    ensures groups == PageGroups(page, pageSpans)
  {
    var sorted := Sort(pageSpans, ReadingLe());
    var medianHeight := MedianHeight(sorted);
    var split := DetectColumnSplit(sorted);
    var rawLines := GroupIntoLines(sorted, LINE_TOLERANCE);
    var lines := InColumns(rawLines, split);
    if split.Some? { lines := Sort(lines, ColumnLe()); }
    var textBlocks := GroupLinesIntoBlocks(lines, medianHeight);
    groups := Map(textBlocks, (b: seq<Line>) => Group(page, medianHeight, SpansOfLines(b)));
  }

  method DescribeGroups(before: seq<BlockData>, groups: seq<Group>) returns (blocks: seq<BlockData>)
    ensures blocks == Described(before, groups, |groups|)
  {
    blocks := before;
    for n := 0 to |groups|
      invariant blocks == Described(before, groups, n)
    {
      if BlockText(groups[n]) != "" {
        blocks := blocks + [BlockOf(groups[n], |blocks|)];
      }
    }
  }

  lemma {:induction false} FoldConcat<A, B>(start: A, a: seq<B>, b: seq<B>, n: nat, f: (A, B) -> A)
    requires n <= |b|
    ensures Fold(Fold(start, a, |a|, f), b, n, f) == Fold(start, a + b, |a| + n, f)
    decreases n
  {
    if n == 0 {
      FoldPrefix(start, a, b, |a|, f);
    } else {
      FoldConcat(start, a, b, n - 1, f);
      assert (a + b)[|a| + n - 1] == b[n - 1];
    }
  }

  lemma {:induction false} FoldPrefix<A, B>(start: A, a: seq<B>, b: seq<B>, n: nat, f: (A, B) -> A)
    requires n <= |a|
    ensures Fold(start, a, n, f) == Fold(start, a + b, n, f)
    decreases n
  {
    if n > 0 {
      FoldPrefix(start, a, b, n - 1, f);
      assert (a + b)[n - 1] == a[n - 1];
    }
  }

  ghost predicate PagesDone<A>(start: A, a: A, spans: seq<RawSpan>, pages: seq<int>, f: (A, Group) -> A) {
    a == Fold(start, GroupsOf(spans, pages), |GroupsOf(spans, pages)|, f)
  }

  lemma {:induction false} FoldOn<A, B>(start: A, a: A, done: seq<B>, more: seq<B>, all: seq<B>, f: (A, B) -> A)
    requires a == Fold(start, done, |done|, f) && all == done + more
    ensures Fold(a, more, |more|, f) == Fold(start, all, |all|, f)
  {
    FoldConcat(start, done, more, |more|, f);
  }

  lemma PageDone<A>(start: A, a: A, spans: seq<RawSpan>, pages: seq<int>, page: int, groups: seq<Group>,
                    f: (A, Group) -> A)
    requires PagesDone(start, a, spans, pages, f)
    requires GroupsOf(spans, pages + [page]) == GroupsOf(spans, pages) + groups
    ensures PagesDone(start, Fold(a, groups, |groups|, f), spans, pages + [page], f)
  {
    FoldOn(start, a, GroupsOf(spans, pages), groups, GroupsOf(spans, pages + [page]), f);
  }

  lemma GroupsOfSnoc(spans: seq<RawSpan>, pages: seq<int>, page: int)
    ensures GroupsOf(spans, pages + [page]) == GroupsOf(spans, pages) + PageGroups(page, Filter(spans, OnPage(page)))
  {
    assert (pages + [page])[..|pages|] == pages;
  }

  method DescribePages(spans: seq<RawSpan>, byPage: map<int, seq<RawSpan>>, pages: seq<int>)
    returns (blocks: seq<BlockData>)
    requires ByPage(byPage, spans) && forall k :: 0 <= k < |pages| ==> pages[k] in byPage
    ensures PagesDone([], blocks, spans, pages, Describe())
  {
    blocks := [];
    for k := 0 to |pages|
      invariant PagesDone([], blocks, spans, pages[..k], Describe())
    {
      var page := pages[k];
      assert byPage[page] == Filter(spans, OnPage(page));
      var groups := GroupPage(page, byPage[page]);
      GroupsOfSnoc(spans, pages[..k], page);
      PageDone([], blocks, spans, pages[..k], page, groups, Describe());
      OneMore(pages, k);
      blocks := DescribeGroups(blocks, groups);
    }
    assert pages[..|pages|] == pages;
  }

  method GroupSpansIntoBlocks(spans: seq<RawSpan>) returns (blocks: seq<BlockData>)
    ensures blocks == Described([], AllGroups(spans), |AllGroups(spans)|)
  {
    if spans == [] {
      assert PagesOf(spans) == [];
      return [];
    }
    var byPage, keys := GroupByPage(spans);
    var pages := Sort(keys, IntLe());
    forall k | 0 <= k < |pages| ensures pages[k] in byPage {
      SortHasTheSame(keys, IntLe(), pages[k]);
    }
    blocks := DescribePages(spans, byPage, pages);
  }

  // ----- No span is lost or repeated -----

  ghost predicate Once(pages: seq<int>) {
    forall p :: multiset(pages)[p] <= 1
  }

  lemma {:induction false} FirstSeenOnce(spans: seq<RawSpan>, n: nat)
    requires n <= |spans|
    ensures Once(FirstSeen(spans, n))
    ensures forall k :: 0 <= k < n ==> spans[k].page in FirstSeen(spans, n)
    decreases n
  {
    if n > 0 { FirstSeenOnce(spans, n - 1); }
  }

  lemma PagesOnce(spans: seq<RawSpan>)
    ensures Once(PagesOf(spans)) && Sorted(PagesOf(spans), IntLe())
    ensures forall k :: 0 <= k < |spans| ==> spans[k].page in PagesOf(spans)
  {
    FirstSeenOnce(spans, |spans|);
    SortPermutes(FirstSeen(spans, |spans|), IntLe());
    SortSorts(FirstSeen(spans, |spans|), IntLe());
    forall k | 0 <= k < |spans| ensures spans[k].page in PagesOf(spans) {
      SortHasTheSame(FirstSeen(spans, |spans|), IntLe(), spans[k].page);
    }
  }

  lemma {:induction false} OnePageMore(spans: seq<RawSpan>, pages: seq<int>, p: int)
    requires p !in pages
    ensures multiset(Filter(spans, OnPages(pages + [p]))) ==
            multiset(Filter(spans, OnPages(pages))) + multiset(Filter(spans, OnPage(p)))
  {
    if spans != [] {
      OnePageMore(spans[1..], pages, p);
      FilterCounts(spans, OnPages(pages + [p]));
      FilterCounts(spans, OnPages(pages));
      FilterCounts(spans, OnPage(p));
    }
  }

  lemma FilterCounts<T>(xs: seq<T>, p: T -> bool)
    requires xs != []
    ensures multiset(Filter(xs, p)) == multiset(Filter(xs[1..], p)) + if p(xs[0]) then multiset{xs[0]} else multiset{}
  {
  }

  lemma {:induction false} GroupsConcat(a: seq<Group>, b: seq<Group>)
    ensures SpansOfGroups(a + b) == SpansOfGroups(a) + SpansOfGroups(b)
  {
    if a == [] {
      assert a + b == b;
    } else {
      assert (a + b)[1..] == a[1..] + b;
      GroupsConcat(a[1..], b);
    }
  }

  lemma {:induction false} PagesConserve(spans: seq<RawSpan>, pages: seq<int>)
    requires Once(pages)
    ensures multiset(SpansOfGroups(GroupsOf(spans, pages))) == multiset(Filter(spans, OnPages(pages)))
    decreases |pages|
  {
    if pages == [] {
      NoneKept(spans);
    } else {
      var init, p := pages[..|pages| - 1], pages[|pages| - 1];
      assert pages == init + [p];
      assert multiset(pages) == multiset(init) + multiset{p};
      assert multiset(pages)[p] == multiset(init)[p] + 1;
      assert Once(init) by { forall q ensures multiset(init)[q] <= 1 { assert multiset(pages)[q] <= 1; } }
      PagesConserve(spans, init);
      PageConserves(p, Filter(spans, OnPage(p)));
      GroupsConcat(GroupsOf(spans, init), PageGroups(p, Filter(spans, OnPage(p))));
      OnePageMore(spans, init, p);
    }
  }

  lemma {:induction false} NoneKept(spans: seq<RawSpan>)
    ensures Filter(spans, OnPages([])) == []
  {
    if spans != [] { NoneKept(spans[1..]); }
  }

  lemma {:induction false} AllKept(spans: seq<RawSpan>, pages: seq<int>)
    requires forall k :: 0 <= k < |spans| ==> spans[k].page in pages
    ensures Filter(spans, OnPages(pages)) == spans
  {
    if spans != [] { AllKept(spans[1..], pages); }
  }

  // Pages, lines, columns and blocks together hold every span of the document exactly once.
  lemma EverySpanOnce(spans: seq<RawSpan>)
    ensures multiset(SpansOfGroups(AllGroups(spans))) == multiset(spans)
  {
    PagesOnce(spans);
    PagesConserve(spans, PagesOf(spans));
    AllKept(spans, PagesOf(spans));
  }

  // ----- What the blocks say of the groups -----

  ghost predicate Describes(blocks: seq<BlockData>, kept: seq<Group>) {
    |blocks| == |kept| && forall i :: 0 <= i < |kept| ==> blocks[i] == BlockOf(kept[i], i)
  }

  lemma {:induction false} DescribeOneMore(blocks: seq<BlockData>, kept: seq<Group>, g: Group)
    requires Describes(blocks, kept)
    ensures Describes(Describe()(blocks, g), kept + if HasText()(g) then [g] else [])
  {
  }

  // The blocks are the groups with text, in order, numbered from 0.
  lemma {:induction false} BlocksAreTheGroups(groups: seq<Group>, n: nat)
    requires n <= |groups|
    ensures Describes(Described([], groups, n), Filter(groups[..n], HasText()))
    decreases n
  {
    if n > 0 {
      BlocksAreTheGroups(groups, n - 1);
      DescribedNext(groups, n);
    }
  }

  // One group more: at most one block more, and it describes that group.
  lemma {:induction false} DescribedNext(groups: seq<Group>, n: nat)
    requires 0 < n <= |groups|
    requires Describes(Described([], groups, n - 1), Filter(groups[..n - 1], HasText()))
    ensures Describes(Described([], groups, n), Filter(groups[..n], HasText()))
  {
    FoldStep([], groups, n, Describe());
    KeptNext(groups, n);
    DescribeOneMore(Described([], groups, n - 1), Filter(groups[..n - 1], HasText()), groups[n - 1]);
  }

  lemma {:induction false} FoldStep<A, B>(a: A, xs: seq<B>, n: nat, f: (A, B) -> A)
    requires 0 < n <= |xs|
    ensures Fold(a, xs, n, f) == f(Fold(a, xs, n - 1, f), xs[n - 1])
  {
  }

  lemma {:induction false} KeptNext(groups: seq<Group>, n: nat)
    requires 0 < n <= |groups|
    ensures Filter(groups[..n], HasText()) ==
            Filter(groups[..n - 1], HasText()) + if HasText()(groups[n - 1]) then [groups[n - 1]] else []
  {
    OneMore(groups, n - 1);
    FilterSnoc(groups[..n - 1], groups[n - 1], HasText());
  }

  lemma FilteredSpans(groups: seq<Group>, p: Group -> bool)
    requires groups != []
    ensures SpansOfGroups(Filter(groups, p)) ==
            (if p(groups[0]) then groups[0].spans else []) + SpansOfGroups(Filter(groups[1..], p))
  {
    var rest := Filter(groups[1..], p);
    assert ([groups[0]] + rest)[1..] == rest;
    assert [] + rest == rest;
  }

  lemma {:induction false} SplitGroups(groups: seq<Group>, p: Group -> bool)
    ensures multiset(SpansOfGroups(Filter(groups, p))) + multiset(SpansOfGroups(Filter(groups, Not(p))))
         == multiset(SpansOfGroups(groups))
  {
    if groups != [] {
      SplitGroups(groups[1..], p);
      FilteredSpans(groups, p);
      FilteredSpans(groups, Not(p));
    }
  }

  // Each span of the document is in exactly one block or in exactly one dropped group without words.
  lemma SpansKeptOrBlank(spans: seq<RawSpan>)
    ensures var kept, blank := Filter(AllGroups(spans), HasText()), Filter(AllGroups(spans), Not(HasText()));
            && multiset(SpansOfGroups(kept)) + multiset(SpansOfGroups(blank)) == multiset(spans)
            && forall g :: g in blank ==> WordsOfAll(Texts(g.spans)) == []
  {
    EverySpanOnce(spans);
    SplitGroups(AllGroups(spans), HasText());
    var blank := Filter(AllGroups(spans), Not(HasText()));
    FilterHolds(AllGroups(spans), Not(HasText()));
    forall g | g in blank ensures WordsOfAll(Texts(g.spans)) == [] {
      BlockWords(g, 0);
      assert Words("") == [];
    }
  }

  // A block has the words of its spans, and its box is the exact hull of theirs.
  lemma BlockWords(g: Group, order: nat)
    ensures Words(BlockOf(g, order).text) == WordsOfAll(Texts(g.spans))
    ensures BlockOf(g, order).pageStart == BlockOf(g, order).pageEnd == g.page && BlockOf(g, order).order == order
    ensures |BlockOf(g, order).spanIds| == |g.spans|
    ensures forall k :: 0 <= k < |g.spans| ==> BlockOf(g, order).spanIds[k] == g.spans[k].id
  {
    TrimWords(Join(Texts(g.spans), " "));
    WordsOfJoin(Texts(g.spans));
  }

  predicate Within(s: RawSpan, b: BlockData) {
    b.x0 <= s.x0 && b.y0 <= s.y0 && s.x1 <= b.x1 && s.y1 <= b.y1
  }

  lemma BoxIsHull(g: Group, order: nat)
    requires g.spans != []
    ensures var b := BlockOf(g, order);
            && (forall s :: s in g.spans ==> Within(s, b))
            && (exists s :: s in g.spans && s.x0 == b.x0) && (exists s :: s in g.spans && s.y0 == b.y0)
            && (exists s :: s in g.spans && s.x1 == b.x1) && (exists s :: s in g.spans && s.y1 == b.y1)
  {
    var b := BlockOf(g, order);
    forall s | s in g.spans ensures Within(s, b) {
      var k :| 0 <= k < |g.spans| && g.spans[k] == s;
      assert Map(g.spans, (s: RawSpan) => s.x0)[k] == s.x0 && Map(g.spans, (s: RawSpan) => s.x1)[k] == s.x1;
      assert Tops(g.spans)[k] == s.y0 && Map(g.spans, (s: RawSpan) => s.y1)[k] == s.y1;
    }
    Attained(g.spans, (s: RawSpan) => s.x0, b.x0);
    Attained(g.spans, (s: RawSpan) => s.y0, b.y0);
    Attained(g.spans, (s: RawSpan) => s.x1, b.x1);
    Attained(g.spans, (s: RawSpan) => s.y1, b.y1);
  }

  lemma Attained(spans: seq<RawSpan>, f: RawSpan -> real, v: real)
    requires v in Map(spans, f)
    ensures exists s :: s in spans && f(s) == v
  {
    var k :| 0 <= k < |spans| && Map(spans, f)[k] == v;
    assert spans[k] in spans && f(spans[k]) == v;
  }

  // ----- Reading order -----

  lemma {:induction false} InGroups(groups: seq<Group>, i: nat, s: RawSpan)
    requires i < |groups| && s in groups[i].spans
    ensures s in SpansOfGroups(groups)
    decreases i
  {
    if i > 0 { InGroups(groups[1..], i - 1, s); }
  }

  lemma {:induction false} GroupsHaveSpans(page: int, pageSpans: seq<RawSpan>)
    ensures forall g :: g in PageGroups(page, pageSpans) ==> g.spans != []
  {
    var sorted := Sort(pageSpans, ReadingLe());
    var h, lines := MedianHeight(sorted), PageLines(sorted);
    var blocks := Grouped(lines, Follows(h), |lines|);
    forall i | 0 <= i < |blocks| ensures SpansOfLines(blocks[i]) != [] {
      GroupBegins(lines, Follows(h), i);
      LinesHaveSpans(sorted, blocks[i][0]);
    }
  }

  lemma {:induction false} GroupBegins<T>(xs: seq<T>, joins: (seq<T>, T) -> bool, i: nat)
    requires i < |Grouped(xs, joins, |xs|)|
    ensures var g := Grouped(xs, joins, |xs|)[i]; g != [] && g[0] in xs
  {
    var groups := Grouped(xs, joins, |xs|);
    GroupedIff(groups, xs, joins);
    assert IsGroup(groups[i], joins);
    InFlatten(groups, i);
  }

  lemma LinesHaveSpans(sorted: seq<RawSpan>, line: Line)
    requires line in PageLines(sorted)
    ensures line.spans != []
  {
    var raw := LinesOf(sorted, LINE_TOLERANCE);
    var lines := InColumns(raw, ColumnSplit(sorted));
    GroupedIff(raw, sorted, Near(LINE_TOLERANCE));
    SortHasTheSame(lines, ColumnLe(), line);
    var k :| 0 <= k < |lines| && lines[k] == line;
    assert IsGroup(raw[k], Near(LINE_TOLERANCE));
  }

  ghost predicate OnOwnPages(groups: seq<Group>, pages: seq<int>) {
    forall i :: 0 <= i < |groups| ==>
      groups[i].page in pages && groups[i].spans != [] && forall s :: s in groups[i].spans ==> s.page == groups[i].page
  }

  ghost predicate PagesAscend(groups: seq<Group>) {
    forall i, j :: 0 <= i < j < |groups| ==> groups[i].page <= groups[j].page
  }

  lemma {:induction false} OnePageOn(before: seq<Group>, here: seq<Group>, init: seq<int>, p: int)
    requires OnOwnPages(before, init) && PagesAscend(before) && OnOwnPages(here, [p])
    requires forall q :: q in init ==> q <= p
    ensures OnOwnPages(before + here, init + [p]) && PagesAscend(before + here)
  {
    forall i | 0 <= i < |here| ensures here[i].page == p { assert here[i].page in [p]; }
  }

  lemma {:induction false} GroupsInPageOrder(spans: seq<RawSpan>, pages: seq<int>)
    requires Sorted(pages, IntLe())
    ensures OnOwnPages(GroupsOf(spans, pages), pages) && PagesAscend(GroupsOf(spans, pages))
    decreases |pages|
  {
    if pages != [] {
      var init, p := pages[..|pages| - 1], pages[|pages| - 1];
      assert pages == init + [p];
      GroupsInPageOrder(spans, init);
      GroupsOfOnePage(spans, p);
      forall q | q in init ensures q <= p {
        var k :| 0 <= k < |init| && init[k] == q;
        assert IntLe()(pages[k], pages[|init|]);
      }
      GroupsOfSnoc(spans, init, p);
      OnePageOn(GroupsOf(spans, init), PageGroups(p, Filter(spans, OnPage(p))), init, p);
    }
  }

  lemma {:induction false} GroupsOfOnePage(spans: seq<RawSpan>, p: int)
    ensures OnOwnPages(PageGroups(p, Filter(spans, OnPage(p))), [p])
  {
    var pageSpans := Filter(spans, OnPage(p));
    var here := PageGroups(p, pageSpans);
    PageConserves(p, pageSpans);
    FilterHolds(spans, OnPage(p));
    GroupsHaveSpans(p, pageSpans);
    forall i, s | 0 <= i < |here| && s in here[i].spans ensures s.page == p {
      InGroups(here, i, s);
      assert s in multiset(SpansOfGroups(here));
      assert s in multiset(pageSpans);
    }
  }

  ghost predicate InOrder(blocks: seq<BlockData>) {
    && (forall i :: 0 <= i < |blocks| ==>
          blocks[i].order == i && blocks[i].pageStart == blocks[i].pageEnd && blocks[i].text != "")
    && (forall i, j :: 0 <= i < j < |blocks| ==> blocks[i].pageStart <= blocks[j].pageStart)
  }

  ghost predicate UpToPage(blocks: seq<BlockData>, page: int) {
    forall i :: 0 <= i < |blocks| ==> blocks[i].pageStart <= page
  }

  lemma {:induction false} DescribeInOrder(blocks: seq<BlockData>, g: Group)
    requires InOrder(blocks) && UpToPage(blocks, g.page)
    ensures InOrder(Describe()(blocks, g)) && UpToPage(Describe()(blocks, g), g.page)
  {
    if BlockText(g) != "" { AppendInOrder(blocks, BlockOf(g, |blocks|)); }
  }

  lemma {:induction false} AppendInOrder(blocks: seq<BlockData>, b: BlockData)
    requires InOrder(blocks) && UpToPage(blocks, b.pageStart)
    requires b.order == |blocks| && b.pageStart == b.pageEnd && b.text != ""
    ensures InOrder(blocks + [b]) && UpToPage(blocks + [b], b.pageStart)
  {
  }

  lemma {:induction false} DescribedInOrder(groups: seq<Group>, n: nat)
    requires n <= |groups| && forall i, j :: 0 <= i < j < |groups| ==> groups[i].page <= groups[j].page
    ensures InOrder(Described([], groups, n))
    ensures n > 0 ==> UpToPage(Described([], groups, n), groups[n - 1].page)
    decreases n
  {
    if n > 0 {
      DescribedInOrder(groups, n - 1);
      DescribeInOrder(Described([], groups, n - 1), groups[n - 1]);
    }
  }

  // Blocks come page by page, numbered from 0, each about spans of its own page.
  lemma BlocksInReadingOrder(spans: seq<RawSpan>)
    ensures InOrder(Described([], AllGroups(spans), |AllGroups(spans)|))
    ensures forall g :: g in AllGroups(spans) ==> g.spans != [] && forall s :: s in g.spans ==> s.page == g.page
  {
    PagesOnce(spans);
    GroupsInPageOrder(spans, PagesOf(spans));
    DescribedInOrder(AllGroups(spans), |AllGroups(spans)|);
  }

  // ----- The lines of a page -----

  // Spans come top down, and from left to right at the same height.
  lemma PageComesTopDown(pageSpans: seq<RawSpan>)
    ensures TopDown(Sort(pageSpans, ReadingLe()))
    ensures var sorted := Sort(pageSpans, ReadingLe());
            forall i, j :: 0 <= i < j < |sorted| && sorted[i].y0 == sorted[j].y0 ==> sorted[i].x0 <= sorted[j].x0
  {
    var sorted := Sort(pageSpans, ReadingLe());
    SortSorts(pageSpans, ReadingLe());
    forall i, j | 0 <= i < j < |sorted|
      ensures sorted[i].y0 <= sorted[j].y0 && (sorted[i].y0 == sorted[j].y0 ==> sorted[i].x0 <= sorted[j].x0)
    {
      assert ReadingLe()(sorted[i], sorted[j]);
    }
  }

  // The middle of a line: the mean of the middles of its spans.
  ghost function Middle(line: Line): real {
    Mean(Map(line.spans, (s: RawSpan) => (s.x0 + s.x1) / 2.0))
  }

  lemma SideOfLine(sorted: seq<RawSpan>, line: Line)
    requires line in PageLines(sorted)
    ensures line.spans != []
    ensures ColumnSplit(sorted).Some? ==> (line.col == 0 <==> Middle(line) < ColumnSplit(sorted).value) && line.col <= 1
    ensures ColumnSplit(sorted).None? ==> line.col == 0
  {
    LinesHaveSpans(sorted, line);
    ColumnOfLine(LinesOf(sorted, LINE_TOLERANCE), ColumnSplit(sorted), line);
  }

  lemma ColumnOfLine(raw: seq<seq<RawSpan>>, split: Option<real>, line: Line)
    requires line in InColumns(raw, split) || line in Sort(InColumns(raw, split), ColumnLe())
    ensures if split.Some? then (line.col == 0 <==> Middle(line) < split.value) && line.col <= 1 else line.col == 0
  {
    var lines := InColumns(raw, split);
    SortHasTheSame(lines, ColumnLe(), line);
    var k :| 0 <= k < |lines| && lines[k] == line;
    assert Mids(line.spans) == Map(line.spans, (s: RawSpan) => (s.x0 + s.x1) / 2.0);
  }

  lemma ColumnsInOrder(sorted: seq<RawSpan>, i: nat, j: nat)
    requires ColumnSplit(sorted).Some? && i < j < |PageLines(sorted)|
    ensures PageLines(sorted)[i].col <= PageLines(sorted)[j].col
    ensures PageLines(sorted)[i].col == PageLines(sorted)[j].col ==>
        TopOf(PageLines(sorted)[i]) <= TopOf(PageLines(sorted)[j])
  {
    var lines := InColumns(LinesOf(sorted, LINE_TOLERANCE), ColumnSplit(sorted));
    SortSorts(lines, ColumnLe());
    assert ColumnLe()(PageLines(sorted)[i], PageLines(sorted)[j]);
  }

  // With a column split at x every line whose middle is left of x is read before every other one, and the
  // lines of a side are read from top to bottom; without a split all lines are.
  lemma LeftIsReadFirst(pageSpans: seq<RawSpan>, i: nat, j: nat)
    requires i < |PageLines(Sort(pageSpans, ReadingLe()))| && j < |PageLines(Sort(pageSpans, ReadingLe()))|
    ensures var sorted := Sort(pageSpans, ReadingLe());
            var a, b, split := PageLines(sorted)[i], PageLines(sorted)[j], ColumnSplit(sorted);
            && a.spans != [] && b.spans != []
            && (split.Some? && Middle(a) < split.value <= Middle(b) ==> i < j)
            && (i < j && (split.Some? ==> (Middle(a) < split.value <==> Middle(b) < split.value)) ==>
                  a.spans[0].y0 <= b.spans[0].y0)
  {
    var sorted := Sort(pageSpans, ReadingLe());
    SideOfLine(sorted, PageLines(sorted)[i]);
    SideOfLine(sorted, PageLines(sorted)[j]);
    if ColumnSplit(sorted).Some? {
      if i < j { ColumnsInOrder(sorted, i, j); }
      if j < i { ColumnsInOrder(sorted, j, i); }
    } else if i < j {
      var lines := LinesOf(sorted, LINE_TOLERANCE);
      PageComesTopDown(pageSpans);
      GroupedIff(lines, sorted, Near(LINE_TOLERANCE));
      LinesAreTopDown(lines, i);
      assert lines[i][0] in lines[i] && lines[j][0] in lines[j];
    }
  }

  // No block of a page holds lines of both sides, and in a block each line follows closely on the one before.
  lemma BlockOnOneSide(sorted: seq<RawSpan>, h: real, b: nat, k: nat, l: nat)
    requires b < |Grouped(PageLines(sorted), Follows(h), |PageLines(sorted)|)|
    requires var block := Grouped(PageLines(sorted), Follows(h), |PageLines(sorted)|)[b]; k < |block| && l < |block|
    ensures var block := Grouped(PageLines(sorted), Follows(h), |PageLines(sorted)|)[b];
            && (ColumnSplit(sorted).Some? ==>
                  (Middle(block[k]) < ColumnSplit(sorted).value <==> Middle(block[l]) < ColumnSplit(sorted).value))
            && (k > 0 ==> SameBlock(block[k - 1], block[k], h))
  {
    var blocks := Grouped(PageLines(sorted), Follows(h), |PageLines(sorted)|);
    var block := blocks[b];
    GroupedIff(blocks, PageLines(sorted), Follows(h));
    InFlatten(blocks, b);
    assert IsGroup(block, Follows(h));
    assert block[k] in PageLines(sorted) && block[l] in PageLines(sorted);
    BlockInOneColumn(block, h, k);
    BlockInOneColumn(block, h, l);
    SideOfLine(sorted, block[k]);
    SideOfLine(sorted, block[l]);
    if k > 0 { ClosesUp(block, h, k); }
  }

  lemma {:induction false} ClosesUp(block: seq<Line>, h: real, k: nat)
    requires IsGroup(block, Follows(h)) && 0 < k < |block|
    ensures SameBlock(block[k - 1], block[k], h)
  {
    assert Follows(h)(block[..k], block[k]);
    assert block[..k][k - 1] == block[k - 1];
  }

  // The next block begins where a line does not follow closely.
  lemma BlocksPart(lines: seq<Line>, h: real, b: nat)
    requires 0 < b < |Grouped(lines, Follows(h), |lines|)|
    ensures var blocks := Grouped(lines, Follows(h), |lines|);
            && blocks[b] != [] && blocks[b - 1] != []
            && !SameBlock(blocks[b - 1][|blocks[b - 1]| - 1], blocks[b][0], h)
  {
    var blocks := Grouped(lines, Follows(h), |lines|);
    GroupedIff(blocks, lines, Follows(h));
    assert IsGroup(blocks[b - 1], Follows(h)) && Parted(blocks[b - 1], blocks[b], Follows(h));
  }

  // The groups of a page are judged by the median height of that page.
  lemma {:induction false} GroupsKnowTheirPage(spans: seq<RawSpan>, pages: seq<int>)
    ensures forall g :: g in GroupsOf(spans, pages) ==>
      g.medianHeight == MedianHeight(Sort(Filter(spans, OnPage(g.page)), ReadingLe()))
    decreases |pages|
  {
    if pages != [] {
      var init, p := pages[..|pages| - 1], pages[|pages| - 1];
      GroupsKnowTheirPage(spans, init);
      assert pages == init + [p];
      GroupsOfSnoc(spans, init, p);
    }
  }

  // The median height of a page is 12 if no span is taller than 1; otherwise at least half of the spans that
  // are taller than 1 are at most as tall, and at least half are at least as tall.
  lemma MedianHeightHalves(spans: seq<RawSpan>)
    ensures if TallSpans(spans) == [] then MedianHeight(spans) == 12.0
            else
              && 2 * |Filter(TallSpans(spans), (h: real) => h <= MedianHeight(spans))| >= |TallSpans(spans)|
              && 2 * |Filter(TallSpans(spans), (h: real) => h >= MedianHeight(spans))| >= |TallSpans(spans)|
  {
    var tall := TallSpans(spans);
    SameTall(spans);
    if tall != [] {
      MedianHalves(tall);
      SameFilter(tall, (h: real) => h <= Median(tall), (h: real) => h <= MedianHeight(spans));
      SameFilter(tall, (h: real) => h >= Median(tall), (h: real) => h >= MedianHeight(spans));
    }
  }

  ghost function TallSpans(spans: seq<RawSpan>): seq<real> {
    Filter(Map(spans, (s: RawSpan) => s.y1 - s.y0), (h: real) => h > 1.0)
  }

  lemma {:induction false} SameFilter<T>(xs: seq<T>, p: T -> bool, q: T -> bool)
    requires forall k :: 0 <= k < |xs| ==> p(xs[k]) == q(xs[k])
    ensures Filter(xs, p) == Filter(xs, q)
  {
    if xs != [] { SameFilter(xs[1..], p, q); }
  }

  // Clamping a height at 0 drops nothing that is taller than 1.
  lemma {:induction false} SameTall(spans: seq<RawSpan>)
    ensures Filter(Map(spans, (s: RawSpan) => s.Height()), (h: real) => h > 1.0) ==
            Filter(Map(spans, (s: RawSpan) => s.y1 - s.y0), (h: real) => h > 1.0)
  {
    if spans != [] {
      SameTall(spans[1..]);
      var a, b := Map(spans, (s: RawSpan) => s.Height()), Map(spans, (s: RawSpan) => s.y1 - s.y0);
      assert a[1..] == Map(spans[1..], (s: RawSpan) => s.Height());
      assert b[1..] == Map(spans[1..], (s: RawSpan) => s.y1 - s.y0);
    }
  }

  // The lines of a block are of one column.
  lemma {:induction false} BlockInOneColumn(block: seq<Line>, medianHeight: real, k: nat)
    requires IsGroup(block, Follows(medianHeight)) && k < |block|
    ensures block[k].col == block[0].col
    decreases k
  {
    if k > 0 {
      BlockInOneColumn(block, medianHeight, k - 1);
      ColumnStays(block, medianHeight, k);
    }
  }

  lemma {:induction false} ColumnStays(block: seq<Line>, medianHeight: real, k: nat)
    requires IsGroup(block, Follows(medianHeight)) && 0 < k < |block|
    ensures block[k].col == block[k - 1].col
  {
    assert Follows(medianHeight)(block[..k], block[k]);
    assert block[..k][k - 1] == block[k - 1];
  }

  // A header is a group of at most twelve words whose spans are together taller than 1.35 times as
  // many median heights.
  lemma HeaderIff(g: Group, order: nat)
    requires g.spans != []
    ensures BlockOf(g, order).kind == Header <==>
            && |WordsOfAll(Texts(g.spans))| <= 12
            && Total(Map(g.spans, (s: RawSpan) => if s.y1 > s.y0 then s.y1 - s.y0 else 0.0))
                 > 1.35 * g.medianHeight * |g.spans| as real
    ensures BlockOf(g, order).kind == Header || BlockOf(g, order).kind == Paragraph
  {
    assert Map(g.spans, (s: RawSpan) => s.Height()) ==
           Map(g.spans, (s: RawSpan) => if s.y1 > s.y0 then s.y1 - s.y0 else 0.0);
    assert |Words(BlockText(g))| == |WordsOfAll(Texts(g.spans))| by { BlockWords(g, order); }
    TallIff(g);
  }

  lemma TallIff(g: Group)
    requires g.spans != []
    ensures IsTall(g) <==> Total(Map(g.spans, (s: RawSpan) => s.Height())) > 1.35 * g.medianHeight * |g.spans| as real
  {
    AboveMean(Total(Map(g.spans, (s: RawSpan) => s.Height())), |g.spans| as real, 1.35 * g.medianHeight);
  }

  lemma AboveMean(total: real, n: real, bound: real)
    requires n > 0.0
    ensures total / n > bound <==> total > bound * n
  {
    var mean := total / n;
    assert mean * n == total;
    if mean > bound { assert (mean - bound) * n > 0.0; }
    if mean <= bound { assert (bound - mean) * n >= 0.0; }
  }

  // Whatever spans a page has, each top in a line is within the tolerance of the one before it, also
  // after the lines were sorted into columns.
  lemma PageLinesAreTight(pageSpans: seq<RawSpan>, line: Line, k: nat)
    requires line in PageLines(Sort(pageSpans, ReadingLe())) && 0 < k < |line.spans|
    ensures 0.0 <= line.spans[k].y0 - line.spans[k - 1].y0 <= 4.0
    ensures Mean(Tops(line.spans[..k])) <= line.spans[k].y0 <= Mean(Tops(line.spans[..k])) + 4.0
  {
    var sorted := Sort(pageSpans, ReadingLe());
    var raw := LinesOf(sorted, LINE_TOLERANCE);
    var lines := InColumns(raw, ColumnSplit(sorted));
    PageComesTopDown(pageSpans);
    SortHasTheSame(lines, ColumnLe(), line);
    var i :| 0 <= i < |lines| && lines[i] == line;
    assert line.spans == raw[i];
    LinesAreTight(sorted, LINE_TOLERANCE, i);
  }
}
