// Plain text as character sequences: white space, words, trimming and sentence
// breaks, shared by the chunker, the citation code, the generator and the layout.
module Text {

  predicate InString(c: char, s: string) {
    s != "" && (s[0] == c || InString(c, s[1..]))
  }

  // The characters of str.isspace() and of the regular-expression class \s.
  const SPACES: string :=
    "\t\n\U{000B}\U{000C}\r\U{001C}\U{001D}\U{001E}\U{001F} \U{0085}\U{00A0}\U{1680}"
    + "\U{2000}\U{2001}\U{2002}\U{2003}\U{2004}\U{2005}\U{2006}\U{2007}\U{2008}\U{2009}\U{200A}"
    + "\U{2028}\U{2029}\U{202F}\U{205F}\U{3000}"

  predicate IsSpace(c: char) {
    InString(c, SPACES)
  }

  lemma BlankIsSpace()
    ensures IsSpace(' ')
  {
    var s := SPACES;
    assert s[9] == ' ';
    InStringAt(s, 9);
  }

  lemma {:induction false} InStringMeans(c: char, s: string)
    requires InString(c, s)
    ensures exists k :: 0 <= k < |s| && s[k] == c
  {
    if s[0] != c {
      InStringMeans(c, s[1..]);
      var k :| 0 <= k < |s[1..]| && s[1..][k] == c;
      assert s[k + 1] == c;
    }
  }

  // No printable ASCII character other than the blank is white space.
  lemma PrintableIsNotSpace(c: char)
    requires '!' <= c <= '~'
    ensures !IsSpace(c)
  {
    if IsSpace(c) { InStringMeans(c, SPACES); }
  }

  lemma {:induction false} InStringAt(s: string, k: nat)
    requires k < |s|
    ensures InString(s[k], s)
  {
    if k > 0 { InStringAt(s[1..], k - 1); }
  }

  predicate AllSpace(s: string) {
    forall k :: 0 <= k < |s| ==> IsSpace(s[k])
  }

  predicate NoSpace(s: string) {
    forall k :: 0 <= k < |s| ==> !IsSpace(s[k])
  }

  predicate SpaceIn(s: string, i: nat, j: nat)
    requires j <= |s|
  {
    forall k :: i <= k < j ==> IsSpace(s[k])
  }

  // ----- Words: str.split() -----

  // The end of the run of non-space characters at p.
  function WordEnd(s: string, p: nat): (e: nat)
    requires p <= |s|
    ensures p <= e <= |s| && forall i :: p <= i < e ==> !IsSpace(s[i])
    ensures e < |s| ==> IsSpace(s[e])
    decreases |s| - p
  {
    if p == |s| || IsSpace(s[p]) then p else WordEnd(s, p + 1)
  }

  // The words of s from position p on.
  function WordsFrom(s: string, p: nat): seq<string>
    requires p <= |s|
    decreases |s| - p
  {
    if p == |s| then []
    else if IsSpace(s[p]) then WordsFrom(s, p + 1)
    else
      var e := WordEnd(s, p);
      if e == p then [] else [s[p..e]] + WordsFrom(s, e)
  }

  function Words(s: string): seq<string> {
    WordsFrom(s, 0)
  }

  lemma {:induction false} WordsFromHaveNoSpace(s: string, p: nat)
    requires p <= |s|
    ensures forall k :: 0 <= k < |WordsFrom(s, p)| ==> WordsFrom(s, p)[k] != "" && NoSpace(WordsFrom(s, p)[k])
    decreases |s| - p
  {
    if p == |s| {
    } else if IsSpace(s[p]) {
      WordsFromHaveNoSpace(s, p + 1);
    } else {
      var e := WordEnd(s, p);
      WordsFromHaveNoSpace(s, e);
      assert NoSpace(s[p..e]);
    }
  }

  lemma {:induction false} WordEndShift(x: string, y: string, p: nat)
    requires p <= |y|
    ensures WordEnd(x + y, |x| + p) == |x| + WordEnd(y, p)
    decreases |y| - p
  {
    if p < |y| && !IsSpace(y[p]) { WordEndShift(x, y, p + 1); }
  }

  lemma SliceOfTail(x: string, y: string, p: nat, e: nat)
    requires p <= e <= |y|
    ensures (x + y)[|x| + p..|x| + e] == y[p..e]
  {
  }

  lemma {:induction false} WordStep(s: string, p: nat)
    requires p < |s| && !IsSpace(s[p])
    ensures WordsFrom(s, p) == [WordAt(s, p)] + WordsFrom(s, WordEnd(s, p))
  {
  }

  // The word that begins at a position.
  function WordAt(s: string, p: nat): string
    requires p <= |s|
  {
    s[p..WordEnd(s, p)]
  }

  lemma {:induction false} WordShift(x: string, y: string, p: nat)
    requires p < |y| && !IsSpace(y[p]) && WordsFrom(x + y, |x| + WordEnd(y, p)) == WordsFrom(y, WordEnd(y, p))
    ensures WordsFrom(x + y, |x| + p) == WordsFrom(y, p)
  {
    WordHere(x, y, p);
    WordStep(x + y, |x| + p);
    WordStep(y, p);
  }

  lemma WordHere(x: string, y: string, p: nat)
    requires p < |y|
    ensures (x + y)[|x| + p] == y[p] && WordEnd(x + y, |x| + p) == |x| + WordEnd(y, p)
    ensures WordAt(x + y, |x| + p) == WordAt(y, p)
  {
    WordEndShift(x, y, p);
    SliceOfTail(x, y, p, WordEnd(y, p));
  }

  lemma {:induction false} WordsShift(x: string, y: string, p: nat)
    requires p <= |y|
    ensures WordsFrom(x + y, |x| + p) == WordsFrom(y, p)
    decreases |y| - p
  {
    if p == |y| {
      return;
    }
    assert (x + y)[|x| + p] == y[p];
    if IsSpace(y[p]) {
      WordsShift(x, y, p + 1);
    } else {
      WordsShift(x, y, WordEnd(y, p));
      WordShift(x, y, p);
    }
  }

  lemma {:induction false} WordEndPrefix(x: string, y: string, p: nat)
    requires p <= |x|
    requires y == "" || IsSpace(y[0]) || WordEnd(x, p) < |x|
    ensures WordEnd(x + y, p) == WordEnd(x, p)
    decreases |x| - p
  {
    if p < |x| && !IsSpace(x[p]) { WordEndPrefix(x, y, p + 1); }
  }

  lemma SliceOfConcat(x: string, y: string, p: nat, e: nat)
    requires p <= e <= |x|
    ensures (x + y)[p..e] == x[p..e]
  {
  }

  lemma {:induction false} WordsConcatFrom(x: string, y: string, p: nat)
    requires p <= |x|
    requires p == |x| || y == "" || IsSpace(x[|x| - 1]) || IsSpace(y[0])
    ensures WordsFrom(x + y, p) == WordsFrom(x, p) + WordsFrom(y, 0)
    decreases |x| - p
  {
    if p == |x| {
      WordsShift(x, y, 0);
    } else if IsSpace(x[p]) {
      WordsConcatFrom(x, y, p + 1);
    } else {
      var e := WordEnd(x, p);
      WordEndPrefix(x, y, p);
      WordsConcatFrom(x, y, e);
      SliceOfConcat(x, y, p, e);
      assert [x[p..e]] + (WordsFrom(x, e) + WordsFrom(y, 0)) == [x[p..e]] + WordsFrom(x, e) + WordsFrom(y, 0);
    }
  }

  // Text cut next to white space splits into the words of the two sides.
  lemma WordsConcat(x: string, y: string)
    requires x == "" || y == "" || IsSpace(x[|x| - 1]) || IsSpace(y[0])
    ensures Words(x + y) == Words(x) + Words(y)
  {
    WordsConcatFrom(x, y, 0);
  }

  lemma {:induction false} SpaceHasNoWords(s: string, p: nat)
    requires p <= |s| && AllSpace(s)
    ensures WordsFrom(s, p) == []
    decreases |s| - p
  {
    if p < |s| { SpaceHasNoWords(s, p + 1); }
  }

  lemma WordsOfSpace(s: string)
    requires AllSpace(s)
    ensures Words(s) == []
  {
    SpaceHasNoWords(s, 0);
  }

  // A non-empty text without white space is one word.
  lemma WordsOfOne(s: string)
    requires s != "" && NoSpace(s)
    ensures Words(s) == [s]
  {
    assert WordEnd(s, 0) == |s|;
    assert s[0..|s|] == s && WordsFrom(s, |s|) == [];
  }

  lemma {:induction false} NoWordsFromMeansSpace(s: string, p: nat)
    requires p <= |s| && WordsFrom(s, p) == []
    ensures SpaceIn(s, p, |s|)
    decreases |s| - p
  {
    if p < |s| { NoWordsFromMeansSpace(s, p + 1); }
  }

  // ----- Trimming: str.strip() and rstrip() -----

  // Past the white space at p.
  function SkipSpace(s: string, p: nat): (q: nat)
    requires p <= |s|
    ensures p <= q <= |s| && SpaceIn(s, p, q)
    ensures q < |s| ==> !IsSpace(s[q])
    decreases |s| - p
  {
    if p == |s| || !IsSpace(s[p]) then p else SkipSpace(s, p + 1)
  }

  // Before the white space that ends at q, not going below p.
  function BackSpace(s: string, p: nat, q: nat): (r: nat)
    requires p <= q <= |s|
    ensures p <= r <= q && SpaceIn(s, r, q)
    ensures p < r ==> !IsSpace(s[r - 1])
    decreases q
  {
    if p == q || !IsSpace(s[q - 1]) then q else BackSpace(s, p, q - 1)
  }

  function TrimStart(s: string): nat {
    SkipSpace(s, 0)
  }

  function TrimEnd(s: string): nat {
    BackSpace(s, TrimStart(s), |s|)
  }

  function Trim(s: string): string {
    s[TrimStart(s)..TrimEnd(s)]
  }

  function TrimRight(s: string): string {
    s[..BackSpace(s, 0, |s|)]
  }

  lemma TrimEnds(s: string)
    ensures TrimStart(s) <= TrimEnd(s) <= |s|
    ensures SpaceIn(s, 0, TrimStart(s)) && SpaceIn(s, TrimEnd(s), |s|)
    ensures Trim(s) == "" <==> AllSpace(s)
    ensures Trim(s) != "" ==> !IsSpace(Trim(s)[0]) && !IsSpace(Trim(s)[|Trim(s)| - 1])
  {
  }

  lemma CutSpace(s: string, i: nat, j: nat)
    requires i <= j <= |s| && SpaceIn(s, 0, i) && SpaceIn(s, j, |s|)
    ensures Words(s[i..j]) == Words(s)
  {
    var t := s[i..];
    assert Words("") == [];
    if i > 0 {
      GapWords(s, 0, i);
      assert s[..0] == "";
    } else {
      assert t == s;
    }
    if j < |s| {
      GapWords(t, j - i, |t|);
      assert t[|t|..] == "";
    } else {
      assert s[i..j] == t;
    }
    assert t[..j - i] == s[i..j];
  }

  // Trimming keeps the words.
  lemma TrimWords(s: string)
    ensures Words(Trim(s)) == Words(s)
  {
    CutSpace(s, TrimStart(s), TrimEnd(s));
  }

  lemma TrimRightWords(s: string)
    ensures Words(TrimRight(s)) == Words(s)
  {
    var r := BackSpace(s, 0, |s|);
    CutSpace(s, 0, r);
    assert s[0..r] == s[..r];
  }

  // ----- Joining -----

  function Join(parts: seq<string>, sep: string): string {
    if parts == [] then ""
    else if |parts| == 1 then parts[0]
    else parts[0] + sep + Join(parts[1..], sep)
  }

  function Flatten<T>(parts: seq<seq<T>>): seq<T> {
    if parts == [] then [] else parts[0] + Flatten(parts[1..])
  }

  lemma {:induction false} FlattenConcat<T>(p: seq<seq<T>>, q: seq<seq<T>>)
    ensures Flatten(p + q) == Flatten(p) + Flatten(q)
  {
    if p == [] {
      assert p + q == q;
    } else {
      assert (p + q)[1..] == p[1..] + q;
      FlattenConcat(p[1..], q);
    }
  }

  lemma FlattenSnoc<T>(p: seq<seq<T>>, x: seq<T>)
    ensures Flatten(p + [x]) == Flatten(p) + x
  {
    FlattenConcat(p, [x]);
    assert Flatten([x]) == x + Flatten<T>([]);
  }

  function WordsOfAll(parts: seq<string>): seq<string> {
    if parts == [] then [] else Words(parts[0]) + WordsOfAll(parts[1..])
  }

  lemma {:induction false} WordsOfAllConcat(p: seq<string>, q: seq<string>)
    ensures WordsOfAll(p + q) == WordsOfAll(p) + WordsOfAll(q)
  {
    if p == [] {
      assert p + q == q;
    } else {
      assert (p + q)[1..] == p[1..] + q;
      WordsOfAllConcat(p[1..], q);
    }
  }

  lemma WordsOfAllSnoc(p: seq<string>, s: string)
    ensures WordsOfAll(p + [s]) == WordsOfAll(p) + Words(s)
  {
    WordsOfAllConcat(p, [s]);
    assert WordsOfAll([s]) == Words(s) + WordsOfAll([]);
  }

  // Joining with a blank keeps the words of the parts.
  lemma {:induction false} WordsOfJoin(parts: seq<string>)
    ensures Words(Join(parts, " ")) == WordsOfAll(parts)
  {
    if parts == [] {
    } else if |parts| == 1 {
      assert WordsOfAll(parts) == Words(parts[0]) + WordsOfAll([]);
    } else {
      WordsOfJoin(parts[1..]);
      WordsAroundBlank(parts[0], Join(parts[1..], " "));
    }
  }

  lemma {:induction false} WordsAroundBlank(a: string, b: string)
    ensures Words(a + " " + b) == Words(a) + Words(b)
  {
    BlankIsSpace();
    assert (a + " ")[|a|] == ' ';
    WordsConcat(a + " ", b);
    WordsConcat(a, " ");
    WordsOfSpace(" ");
  }

  // ----- Sentence breaks: splitting at white space after '.', '!' or '?' -----

  predicate EndsSentence(c: char) {
    c == '.' || c == '!' || c == '?'
  }

  // A break starts at p: the character before it ends a sentence, the one at p is white space.
  predicate BreakAt(s: string, p: nat) {
    0 < p < |s| && EndsSentence(s[p - 1]) && IsSpace(s[p])
  }

  // The first break at or after position p, or the end of the text.
  function FirstBreak(s: string, p: nat): (q: nat)
    requires p <= |s|
    ensures p <= q <= |s|
    ensures q < |s| ==> BreakAt(s, q)
    ensures forall k: nat :: p <= k < q ==> !BreakAt(s, k)
    decreases |s| - p
  {
    if p == |s| || BreakAt(s, p) then p else FirstBreak(s, p + 1)
  }

  // The pieces between the breaks from position i on; never an empty list.
  function PartsFrom(s: string, i: nat): (parts: seq<string>)
    requires i <= |s|
    ensures |parts| > 0
    decreases |s| - i
  {
    var p := FirstBreak(s, i);
    if p == |s| || SkipSpace(s, p) == p then [s[i..]] else [s[i..p]] + PartsFrom(s, SkipSpace(s, p))
  }

  // re.split with the sentence pattern.
  function SentenceParts(s: string): (parts: seq<string>)
    ensures |parts| > 0
  {
    PartsFrom(s, 0)
  }

  lemma BreakIsSpace(s: string, p: nat)
    requires BreakAt(s, p)
    ensures SkipSpace(s, p) > p
  {
  }

  // A sentence ends in front of white space after a full stop, an exclamation mark or a question mark.
  ghost predicate EndsBefore(s: string, j: nat) {
    0 < j < |s| && (s[j - 1] == '.' || s[j - 1] == '!' || s[j - 1] == '?') && IsSpace(s[j])
  }

  // Part k is s[at[k]..ends[k]]; parts end where sentences do and nowhere else, and the next one begins behind
  // the white space.
  ghost predicate CutInto(s: string, i: nat, parts: seq<string>, at: seq<nat>, ends: seq<nat>) {
    && |at| == |ends| == |parts| > 0 && at[0] == i && ends[|ends| - 1] == |s|
    && (forall k :: 0 <= k < |parts| ==> PartAt(s, parts[k], at[k], ends[k]))
    && forall k :: 0 < k < |parts| ==> GapBetween(s, ends[k - 1], at[k])
  }

  ghost predicate PartAt(s: string, part: string, a: nat, b: nat) {
    a <= b <= |s| && part == s[a..b] && forall j :: a <= j < b ==> !EndsBefore(s, j)
  }

  ghost predicate GapBetween(s: string, p: nat, q: nat) {
    p < q <= |s| && EndsBefore(s, p) && SpaceIn(s, p, q) && (q == |s| || !IsSpace(s[q]))
  }

  lemma {:induction false} CutCons(s: string, i: nat, p: nat, q: nat, part: string, parts: seq<string>,
                                   at: seq<nat>, ends: seq<nat>)
    requires CutInto(s, q, parts, at, ends) && GapBetween(s, p, q) && PartAt(s, part, i, p)
    ensures CutInto(s, i, [part] + parts, [i] + at, [p] + ends)
  {
    var parts', at', ends' := [part] + parts, [i] + at, [p] + ends;
    forall k | 0 < k < |parts'| ensures GapBetween(s, ends'[k - 1], at'[k]) {
      if k > 1 { assert ends'[k - 1] == ends[k - 2] && at'[k] == at[k - 1]; }
    }
    forall k | 0 <= k < |parts'| ensures PartAt(s, parts'[k], at'[k], ends'[k]) {
      if k > 0 { assert at'[k] == at[k - 1] && ends'[k] == ends[k - 1] && parts'[k] == parts[k - 1]; }
    }
  }

  lemma {:induction false} PartsAreCut(s: string, i: nat) returns (at: seq<nat>, ends: seq<nat>)
    requires i <= |s|
    ensures CutInto(s, i, PartsFrom(s, i), at, ends)
    decreases |s| - i
  {
    var p := FirstBreak(s, i);
    forall j | i <= j < p ensures !EndsBefore(s, j) { assert !BreakAt(s, j); }
    if p == |s| {
      at, ends := [i], [p];
      assert s[i..p] == s[i..];
    } else {
      BreakIsSpace(s, p);
      at, ends := PartsAreCut(s, SkipSpace(s, p));
      CutCons(s, i, p, SkipSpace(s, p), s[i..p], PartsFrom(s, SkipSpace(s, p)), at, ends);
      at, ends := [i] + at, [p] + ends;
    }
  }

  // Splitting into sentences cuts exactly where sentences end.
  lemma SentencePartsAreCut(s: string) returns (at: seq<nat>, ends: seq<nat>)
    ensures CutInto(s, 0, SentenceParts(s), at, ends)
  {
    at, ends := PartsAreCut(s, 0);
  }

  lemma ThreeParts(s: string, p: nat, q: nat)
    requires p <= q <= |s|
    ensures s == s[..p] + (s[p..q] + s[q..])
  {
  }

  lemma WordsAroundGap(head: string, gap: string, rest: string)
    requires gap != "" && AllSpace(gap)
    ensures Words(head + (gap + rest)) == Words(head) + Words(rest)
  {
    var t := gap + rest;
    assert t[0] == gap[0];
    WordsConcat(head, t);
    WordsConcat(gap, rest);
    WordsOfSpace(gap);
  }

  // A gap of white space separates the words on its two sides.
  lemma GapWords(s: string, p: nat, q: nat)
    requires p < q <= |s| && SpaceIn(s, p, q)
    ensures Words(s) == Words(s[..p]) + Words(s[q..])
  {
    ThreeParts(s, p, q);
    assert AllSpace(s[p..q]);
    WordsAroundGap(s[..p], s[p..q], s[q..]);
  }

  lemma GapWordsAt(s: string, i: nat, p: nat, q: nat)
    requires i <= p < q <= |s| && SpaceIn(s, p, q)
    ensures Words(s[i..]) == Words(s[i..p]) + Words(s[q..])
  {
    GapWords(s[i..], p - i, q - i);
    assert s[i..][..p - i] == s[i..p] && s[i..][q - i..] == s[q..];
  }

  lemma {:induction false} PartsFromWords(s: string, i: nat)
    requires i <= |s|
    ensures WordsOfAll(PartsFrom(s, i)) == Words(s[i..])
    decreases |s| - i
  {
    var p := FirstBreak(s, i);
    if p == |s| {
      assert WordsOfAll([s[i..]]) == Words(s[i..]) + WordsOfAll([]);
    } else {
      BreakIsSpace(s, p);
      var q := SkipSpace(s, p);
      PartsFromWords(s, q);
      GapWordsAt(s, i, p, q);
      assert PartsFrom(s, i)[1..] == PartsFrom(s, q);
    }
  }

  // Splitting into sentences keeps every word.
  lemma SentencePartsWords(s: string)
    ensures WordsOfAll(SentenceParts(s)) == Words(s)
  {
    PartsFromWords(s, 0);
    assert s[0..] == s;
  }
}
