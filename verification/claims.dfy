// Cutting a section into claims: segment_claims of app/draft/citations.py.
module Claims {
  import opened Common
  import opened Text
  import opened Citations

  datatype Claim = Claim(text: string, citedChunkIds: seq<string>, start: nat, end: nat)

  // ----- A cited claim: the last sentence before its tag -----

  function Last<T>(s: seq<T>): T
    requires s != []
  {
    s[|s| - 1]
  }

  // The last sentence of the segment that a tag ends, without tags, trimmed.
  function ProseOf(segment: string): string {
    Trim(Stripped(Last(SentenceParts(segment)), {}))
  }

  function CitedClaim(s: string, cursor: nat, c: CitationSpan): Claim
    requires cursor <= c.end <= |s|
  {
    Claim(ProseOf(s[cursor..c.end]), [c.chunkId], cursor, c.end)
  }

  // A sentence may begin at p: at the front or right after the white space of a break.
  ghost predicate SentenceStart(x: string, p: nat) {
    p == 0 || exists b: nat :: BreakAt(x, b) && SkipSpace(x, b) == p
  }

  lemma LastCons<T>(x: T, s: seq<T>)
    requires s != []
    ensures Last([x] + s) == Last(s)
  {
  }

  // The last part of a split starts a sentence and has no break inside.
  lemma {:induction false} LastPart(x: string, i: nat) returns (p: nat)
    requires i <= |x| && SentenceStart(x, i)
    ensures i <= p <= |x| && Last(PartsFrom(x, i)) == x[p..] && SentenceStart(x, p)
    ensures forall b :: p < b < |x| ==> !BreakAt(x, b)
    decreases |x| - i
  {
    var b := FirstBreak(x, i);
    if b == |x| {
      p := i;
    } else {
      BreakIsSpace(x, b);
      var q := SkipSpace(x, b);
      p := LastPart(x, q);
      LastCons(x[i..b], PartsFrom(x, q));
    }
  }

  lemma TagHasNoSpace(s: string, i: nat, k: nat)
    requires TagAt(s, i) && i <= k < i + 44
    ensures !IsSpace(s[k])
  {
    if k < i + 7 {
      assert s[k] == s[i..i + 7][k - i] == OPENING[k - i];
    } else if k < i + 43 {
      assert UuidChar(s[k], k - (i + 7));
    }
    PrintableIsNotSpace(s[k]);
  }

  lemma TagInSlice(s: string, a: nat, b: nat, q: nat)
    requires a <= b <= |s|
    ensures TagAt(s[a..b], q) <==> q + 44 <= b - a && TagAt(s, a + q)
  {
    if q + 44 <= b - a {
      assert s == s[..a] + (s[a..b] + s[b..]);
      TagShift(s[..a], s[a..b] + s[b..], q);
      TagInPrefix(s[a..b], s[b..], q);
    }
  }

  // The claim's text is the trimmed stretch from the last sentence start up to the tag, with no
  // sentence break and no tag inside.
  lemma ProseIsLastSentence(s: string, cursor: nat, c: CitationSpan) returns (p: nat)
    requires cursor <= c.start && SpanOf(s, c) && forall q :: cursor <= q < c.start ==> !TagAt(s, q)
    ensures cursor <= p <= c.start && ProseOf(s[cursor..c.end]) == Trim(s[p..c.start])
    ensures SentenceStart(s[cursor..c.end], p - cursor)
    ensures forall b :: p < b < c.end ==> !BreakAt(s, b)
  {
    var x := s[cursor..c.end];
    var r := LastPart(x, 0);
    p := cursor + r;
    StartsBeforeTag(s, cursor, c, r);
    assert x[r..] == s[p..c.end];
    OnlyTheTagGoes(s, p, c);
    NoBreakFurther(s, cursor, c.end, r);
  }

  lemma StartsBeforeTag(s: string, cursor: nat, c: CitationSpan, r: nat)
    requires cursor <= c.start && SpanOf(s, c) && r <= c.end - cursor && SentenceStart(s[cursor..c.end], r)
    ensures cursor + r <= c.start
  {
    if r > 0 {
      var b: nat :| BreakAt(s[cursor..c.end], b) && SkipSpace(s[cursor..c.end], b) == r;
      SpaceEndsBeforeTag(s, cursor, c, b);
    }
  }

  lemma NoBreakFurther(s: string, cursor: nat, end: nat, r: nat)
    requires cursor + r <= end <= |s| && forall b :: r < b < end - cursor ==> !BreakAt(s[cursor..end], b)
    ensures forall b :: cursor + r < b < end ==> !BreakAt(s, b)
  {
    var x := s[cursor..end];
    forall b | cursor + r < b < end ensures !BreakAt(s, b) {
      assert x[b - cursor] == s[b] && x[b - cursor - 1] == s[b - 1];
      assert !BreakAt(x, b - cursor);
    }
  }

  lemma SpaceEndsBeforeTag(s: string, cursor: nat, c: CitationSpan, b: nat)
    requires cursor <= c.start && SpanOf(s, c) && BreakAt(s[cursor..c.end], b)
    ensures cursor + SkipSpace(s[cursor..c.end], b) <= c.start
  {
    var x := s[cursor..c.end];
    assert x[b] == s[cursor + b];
    if cursor + b >= c.start { TagHasNoSpace(s, c.start, cursor + b); }
    var r := SkipSpace(x, b);
    if cursor + r > c.start {
      assert x[c.start - cursor] == s[c.start];
      TagHasNoSpace(s, c.start, c.start);
    }
  }

  lemma OnlyTheTagGoes(s: string, p: nat, c: CitationSpan)
    requires p <= c.start && SpanOf(s, c) && forall q :: p <= q < c.start ==> !TagAt(s, q)
    ensures Stripped(s[p..c.end], {}) == s[p..c.start]
  {
    var x := s[p..c.end];
    var n := c.start - p;
    forall q | 0 <= q < n ensures !TagAt(x, q) { TagInSlice(s, p, c.end, q); }
    TagInSlice(s, p, c.end, n);
    TagAtEndGoes(x, n);
    assert x[..n] == s[p..c.start];
  }

  lemma TagAtEndGoes(x: string, n: nat)
    requires |x| == n + 44 && TagAt(x, n) && forall q :: 0 <= q < n ==> !TagAt(x, q)
    ensures Stripped(x, {}) == x[..n]
  {
    CopyPlain(x, 0, n, {});
    CopyTag(x, n, {});
    assert StrippedFrom(x, |x|, {}) == "";
    assert x[0..n] == x[..n];
  }

  // ----- Trailing claims -----

  predicate PunctOrSpace(c: char) {
    IsSpace(c) || c == '.' || c == ',' || c == ';' || c == ':' || c == '!' || c == '?'
  }

  predicate OnlyPunct(s: string) {
    s != "" && forall k :: 0 <= k < |s| ==> PunctOrSpace(s[k])
  }

  predicate Substantial(s: string) {
    s != "" && !OnlyPunct(s)
  }

  function ClaimText(part: string): seq<string> {
    if Substantial(Trim(part)) then [Trim(part)] else []
  }

  // The trimmed sentences worth a claim.
  function ClaimTexts(parts: seq<string>): seq<string> {
    if parts == [] then []
    else ClaimText(parts[0]) + ClaimTexts(parts[1..])
  }

  function TrailingTexts(rest: string): seq<string> {
    if Substantial(Trim(rest)) then ClaimTexts(SentenceParts(Trim(rest))) else []
  }

  lemma {:induction false} PunctHasNone(s: string)
    ensures Substantial(Trim(s)) <==> HasSubstance(s)
  {
    TrimEnds(s);
    var t := Trim(s);
    if HasSubstance(s) {
      var k :| 0 <= k < |s| && SubstanceAt(s, k);
      assert TrimStart(s) <= k < TrimEnd(s);
      assert t[k - TrimStart(s)] == s[k];
      PunctIff(s[k]);
    }
    if Substantial(t) {
      var k :| 0 <= k < |t| && !PunctOrSpace(t[k]);
      assert s[TrimStart(s) + k] == t[k];
      PunctIff(t[k]);
      assert SubstanceAt(s, TrimStart(s) + k);
    }
  }

  // Some character is neither white space nor punctuation.
  ghost predicate HasSubstance(s: string) {
    exists k :: 0 <= k < |s| && SubstanceAt(s, k)
  }

  ghost predicate SubstanceAt(s: string, k: nat)
    requires k < |s|
  {
    !IsSpace(s[k]) && s[k] !in ".,;:!?"
  }

  lemma PunctIff(c: char)
    ensures PunctOrSpace(c) <==> IsSpace(c) || c in ".,;:!?"
  {
    var marks := ".,;:!?";
    assert marks[0] == '.' && marks[1] == ',' && marks[2] == ';';
    assert marks[3] == ':' && marks[4] == '!' && marks[5] == '?';
  }

  ghost predicate IsClaimText(parts: seq<string>, t: string) {
    exists k :: 0 <= k < |parts| && HasSubstance(parts[k]) && t == Trim(parts[k])
  }

  // The trailing texts are the trimmed sentences of substance, in order.
  lemma {:induction false} ClaimTextsAre(parts: seq<string>)
    ensures forall k :: 0 <= k < |parts| && HasSubstance(parts[k]) ==> Trim(parts[k]) in ClaimTexts(parts)
    ensures forall t :: t in ClaimTexts(parts) ==> IsClaimText(parts, t)
    ensures |ClaimTexts(parts)| <= |parts|
  {
    if parts != [] {
      PunctHasNone(parts[0]);
      ClaimTextsAre(parts[1..]);
      forall t | t in ClaimTexts(parts) ensures IsClaimText(parts, t) {
        if t in ClaimTexts(parts[1..]) {
          var k :| 0 <= k < |parts[1..]| && HasSubstance(parts[1..][k]) && t == Trim(parts[1..][k]);
          assert parts[k + 1] == parts[1..][k];
        }
      }
      forall k | 0 <= k < |parts| && HasSubstance(parts[k]) ensures Trim(parts[k]) in ClaimTexts(parts) {
        if k > 0 { assert parts[k] == parts[1..][k - 1]; }
      }
    }
  }

  // A section leaves an uncited claim behind its last tag if and only if something of substance stands there.
  lemma TrailingIff(rest: string)
    ensures TrailingTexts(rest) != [] <==> HasSubstance(rest)
  {
    PunctHasNone(rest);
    if HasSubstance(rest) {
      var parts := SentenceParts(Trim(rest));
      var k := SubstanceStays(rest);
      ClaimTextsAre(parts);
      assert Trim(parts[k]) in ClaimTexts(parts);
    }
  }

  // Cutting and trimming only takes white space away, so some sentence has the substance.
  lemma SubstanceStays(rest: string) returns (k: nat)
    requires HasSubstance(rest)
    ensures k < |SentenceParts(Trim(rest))| && HasSubstance(SentenceParts(Trim(rest))[k])
  {
    TrimEnds(rest);
    var m :| 0 <= m < |rest| && SubstanceAt(rest, m);
    SubstanceIn(rest, TrimStart(rest), TrimEnd(rest), m);
    k := PartWithSubstance(Trim(rest), m - TrimStart(rest));
  }

  lemma PartWithSubstance(t: string, m: nat) returns (k: nat)
    requires m < |t| && SubstanceAt(t, m)
    ensures k < |SentenceParts(t)| && HasSubstance(SentenceParts(t)[k])
  {
    var at, ends := SentencePartsAreCut(t);
    k := PartOf(t, 0, SentenceParts(t), at, ends, m);
    assert PartAt(t, SentenceParts(t)[k], at[k], ends[k]);
    SubstanceIn(t, at[k], ends[k], m);
  }

  lemma SubstanceIn(s: string, a: nat, b: nat, m: nat)
    requires a <= m < b <= |s| && SubstanceAt(s, m)
    ensures SubstanceAt(s[a..b], m - a) && HasSubstance(s[a..b])
  {
    var x := s[a..b];
    assert x[m - a] == s[m];
    assert SubstanceAt(x, m - a);
  }

  lemma {:induction false} PartOf(s: string, i: nat, parts: seq<string>, at: seq<nat>, ends: seq<nat>, m: nat)
    returns (k: nat)
    requires CutInto(s, i, parts, at, ends) && i <= m < |s| && !IsSpace(s[m])
    ensures k < |parts| && at[k] <= m < ends[k]
  {
    k := 0;
    while m >= ends[k]
      invariant k < |parts| && at[k] <= m
      decreases |parts| - k
    {
      assert GapBetween(s, ends[k], at[k + 1]);
      k := k + 1;
    }
  }

  predicate MatchAt(s: string, pat: string, k: nat) {
    k + |pat| <= |s| && s[k..k + |pat|] == pat
  }

  // str.find: the first match at or after a position, or -1.
  function Find(s: string, pat: string, from: nat): (k: int)
    requires from <= |s|
    ensures k == -1 || (from <= k && MatchAt(s, pat, k))
    ensures forall j: nat :: from <= j && MatchAt(s, pat, j) ==> from <= k <= j
    decreases |s| - from
  {
    if MatchAt(s, pat, from) then from
    else if from == |s| then -1
    else Find(s, pat, from + 1)
  }

  // Uncited claims that stand in the text, one after the other, from a position on.
  ghost predicate StandInOrder(s: string, claims: seq<Claim>, from: nat) {
    && (forall k :: 0 <= k < |claims| ==>
          claims[k].citedChunkIds == [] && from <= claims[k].start < claims[k].end <= |s|
          && s[claims[k].start..claims[k].end] == claims[k].text)
    && forall k :: 0 < k < |claims| ==> claims[k - 1].end <= claims[k].start
  }

  function TextsOf(claims: seq<Claim>): (r: seq<string>)
    ensures |r| == |claims| && forall k :: 0 <= k < |claims| ==> r[k] == claims[k].text
  {
    seq(|claims|, k requires 0 <= k < |claims| => claims[k].text)
  }

  lemma StandConcat(s: string, claims: seq<Claim>, more: seq<Claim>, from: nat, offset: nat)
    requires StandInOrder(s, claims, from) && StandInOrder(s, more, offset) && from <= offset
    requires claims != [] ==> Last(claims).end <= offset
    ensures StandInOrder(s, claims + more, from)
  {
    var r := claims + more;
    forall k | 0 < k < |r| ensures r[k - 1].end <= r[k].start {
      if k > |claims| { assert r[k] == more[k - |claims|] && r[k - 1] == more[k - 1 - |claims|]; }
    }
  }

  lemma SliceOfSlice(s: string, base: nat, t: string, a: nat, b: nat)
    requires base + |t| <= |s| && t == s[base..base + |t|] && a <= b <= |t|
    ensures t[a..b] == s[base + a..base + b]
  {
    forall k | 0 <= k < b - a ensures t[a..b][k] == s[base + a..base + b][k] {
      assert t[a + k] == s[base + (a + k)];
    }
  }

  // A trimmed sentence is found no later than where it stands, so the search never fails.
  lemma FoundInTime(s: string, pos: nat, p: nat, offset: nat)
    requires offset <= pos && pos + p <= |s| && Trim(s[pos..pos + p]) != ""
    ensures var t := Trim(s[pos..pos + p]);
            var k := Find(s, t, offset);
            offset <= k && k + |t| <= pos + p && s[k..k + |t|] == t
  {
    var x := s[pos..pos + p];
    TrimEnds(x);
    var j := pos + TrimStart(x);
    SliceOfSlice(s, pos, x, TrimStart(x), TrimEnd(x));
    assert MatchAt(s, Trim(x), j);
  }

  lemma TextsConcat(claims: seq<Claim>, more: seq<Claim>, parts: seq<string>)
    requires parts != [] && TextsOf(more) == ClaimText(parts[0])
    ensures TextsOf(claims + more) + ClaimTexts(parts[1..]) == TextsOf(claims) + ClaimTexts(parts)
  {
    TextsAppend(claims, more);
    Assoc(TextsOf(claims), TextsOf(more), ClaimTexts(parts[1..]));
  }

  lemma TextsAppend(claims: seq<Claim>, more: seq<Claim>)
    ensures TextsOf(claims + more) == TextsOf(claims) + TextsOf(more)
  {
  }

  // The claim of one sentence, which stands at a..b, looked up from the offset on.
  method SentenceClaim(s: string, sentence: string, offset: nat, ghost a: nat, ghost b: nat)
    returns (made: seq<Claim>, next: nat)
    requires offset <= a <= b <= |s| && sentence == s[a..b]
    ensures TextsOf(made) == ClaimText(sentence)
    ensures offset <= next <= b && StandInOrder(s, made, offset) && (made != [] ==> Last(made).end <= next)
  {
    var sentStripped := Trim(sentence);
    if sentStripped == "" || OnlyPunct(sentStripped) { return [], offset; }
    FoundInTime(s, a, b - a, offset);
    var sentStart := Find(s, sentStripped, offset);
    var sentEnd := if sentStart != -1 then sentStart + |sentStripped| else |s|;
    made := [Claim(sentStripped, [], if sentStart != -1 then sentStart else offset, sentEnd)];
    next := sentEnd;
  }

  // The sentences stand in the text one after the other, sentence i at places[i].
  datatype Place = Place(a: nat, b: nat)

  ghost predicate Stand(s: string, sentences: seq<string>, places: seq<Place>, from: nat) {
    && |places| == |sentences|
    && (forall i :: 0 <= i < |places| ==>
          from <= places[i].a <= places[i].b <= |s| && sentences[i] == s[places[i].a..places[i].b])
    && forall i :: 0 < i < |places| ==> places[i - 1].b <= places[i].a
  }

  lemma StandCons(s: string, sentence: string, place: Place, sentences: seq<string>, places: seq<Place>, from: nat)
    requires Stand(s, sentences, places, from)
    requires place.a <= place.b <= from && place.b <= |s| && sentence == s[place.a..place.b]
    ensures Stand(s, [sentence] + sentences, [place] + places, place.a)
  {
    var all, where := [sentence] + sentences, [place] + places;
    forall i | 0 <= i < |where|
      ensures place.a <= where[i].a <= where[i].b <= |s| && all[i] == s[where[i].a..where[i].b]
    {
      if i > 0 { assert where[i] == places[i - 1] && all[i] == sentences[i - 1]; }
    }
    forall i | 0 < i < |where| ensures where[i - 1].b <= where[i].a {
      assert where[i] == places[i - 1];
      if i > 1 { assert where[i - 1] == places[i - 2]; }
    }
  }

  lemma {:induction false} PartsStand(s: string, base: nat, trailing: string, i: nat) returns (places: seq<Place>)
    requires base + |trailing| <= |s| && trailing == s[base..base + |trailing|] && i <= |trailing|
    ensures Stand(s, PartsFrom(trailing, i), places, base + i)
    decreases |trailing| - i
  {
    var p := FirstBreak(trailing, i);
    SliceOfSlice(s, base, trailing, i, p);
    if p == |trailing| {
      assert trailing[i..] == trailing[i..p];
      places := [Place(base + i, base + p)];
    } else {
      BreakIsSpace(trailing, p);
      var q := SkipSpace(trailing, p);
      var rest := PartsStand(s, base, trailing, q);
      places := [Place(base + i, base + p)] + rest;
      StandCons(s, trailing[i..p], Place(base + i, base + p), PartsFrom(trailing, q), rest, base + q);
    }
  }

  lemma TextsNext(claims: seq<Claim>, made: seq<Claim>, sentences: seq<string>, i: nat)
    requires i < |sentences| && TextsOf(made) == ClaimText(sentences[i])
    ensures TextsOf(claims + made) + ClaimTexts(sentences[i + 1..]) == TextsOf(claims) + ClaimTexts(sentences[i..])
  {
    assert sentences[i..][1..] == sentences[i + 1..];
    TextsConcat(claims, made, sentences[i..]);
  }

  // The loop over the sentences.
  method SentenceClaims(s: string, sentences: seq<string>, cursor: nat, ghost places: seq<Place>)
    returns (claims: seq<Claim>)
    requires cursor <= |s| && Stand(s, sentences, places, cursor)
    ensures TextsOf(claims) == ClaimTexts(sentences)
    ensures StandInOrder(s, claims, cursor)
  {
    claims := [];
    var offset := cursor;
    for i := 0 to |sentences|
      invariant cursor <= offset && (i < |sentences| ==> offset <= places[i].a)
      invariant ClaimsSoFar(s, sentences, i, claims, cursor, offset)
    {
      var made, next := SentenceClaim(s, sentences[i], offset, places[i].a, places[i].b);
      ClaimsNext(s, sentences, i, claims, made, cursor, offset, next);
      claims := claims + made;
      offset := next;
    }
  }

  // The claims of the first i sentences, which end by the offset.
  ghost predicate ClaimsSoFar(s: string, sentences: seq<string>, i: nat, claims: seq<Claim>, cursor: nat, offset: nat)
    requires i <= |sentences|
  {
    && TextsOf(claims) + ClaimTexts(sentences[i..]) == ClaimTexts(sentences)
    && StandInOrder(s, claims, cursor) && (claims != [] ==> Last(claims).end <= offset)
  }

  lemma {:induction false} ClaimsNext(s: string, sentences: seq<string>, i: nat, claims: seq<Claim>, made: seq<Claim>,
                                      cursor: nat, offset: nat, next: nat)
    requires i < |sentences| && cursor <= offset <= next
    requires ClaimsSoFar(s, sentences, i, claims, cursor, offset)
    requires TextsOf(made) == ClaimText(sentences[i])
    requires StandInOrder(s, made, offset) && (made != [] ==> Last(made).end <= next)
    ensures ClaimsSoFar(s, sentences, i + 1, claims + made, cursor, next)
  {
    StandConcat(s, claims, made, cursor, offset);
    TextsNext(claims, made, sentences, i);
    if made == [] { assert claims + made == claims; }
  }

  method TrailingClaims(s: string, cursor: nat) returns (claims: seq<Claim>)
    requires cursor <= |s|
    ensures TextsOf(claims) == TrailingTexts(s[cursor..])
    ensures StandInOrder(s, claims, cursor)
  {
    var trailing := Trim(s[cursor..]);
    if trailing == "" || OnlyPunct(trailing) { return []; }
    TrimEnds(s[cursor..]);
    ghost var base: nat := cursor + TrimStart(s[cursor..]);
    assert base + |trailing| <= |s| && trailing == s[base..base + |trailing|];
    ghost var places := PartsStand(s, base, trailing, 0);
    claims := SentenceClaims(s, SentenceParts(trailing), cursor, places);
  }

  // ----- The whole section -----

  function CursorAt(spans: seq<CitationSpan>, k: nat): nat
    requires k <= |spans|
  {
    if k == 0 then 0 else spans[k - 1].end
  }

  ghost predicate InText(s: string, spans: seq<CitationSpan>) {
    && (forall k :: 0 <= k < |spans| ==> spans[k].end <= |s|)
    && forall k :: 0 <= k < |spans| ==> CursorAt(spans, k) <= spans[k].end
  }

  // Claim c is the cited claim of tag k: it starts where the one before ended and ends with its tag.
  ghost predicate CitedAt(s: string, spans: seq<CitationSpan>, k: nat, c: Claim) {
    k < |spans| && CursorAt(spans, k) <= spans[k].end <= |s| && c == CitedClaim(s, CursorAt(spans, k), spans[k])
  }

  ghost predicate CitedClaims(s: string, spans: seq<CitationSpan>, claims: seq<Claim>) {
    && InText(s, spans) && |claims| <= |spans|
    && forall k :: 0 <= k < |claims| ==> CitedAt(s, spans, k, claims[k])
  }

  lemma ParsedInText(s: string)
    ensures InText(s, ParseCitations(s))
  {
    SpansFromSound(s, 0);
  }

  lemma CitedNth(s: string, spans: seq<CitationSpan>, claims: seq<Claim>, c: Claim, k: nat)
    requires CitedClaims(s, spans, claims) && CitedAt(s, spans, |claims|, c) && k <= |claims|
    ensures CitedAt(s, spans, k, (claims + [c])[k])
  {
    if k < |claims| {
      assert CitedAt(s, spans, k, claims[k]);
      assert (claims + [c])[k] == claims[k];
    }
  }

  lemma {:induction false} CitedSnoc(s: string, spans: seq<CitationSpan>, claims: seq<Claim>)
    requires CitedClaims(s, spans, claims) && |claims| < |spans|
    ensures var k := |claims|;
            CitedClaims(s, spans, claims + [CitedClaim(s, CursorAt(spans, k), spans[k])])
  {
    var c := CitedClaim(s, CursorAt(spans, |claims|), spans[|claims|]);
    forall k | 0 <= k < |claims + [c]| ensures CitedAt(s, spans, k, (claims + [c])[k]) {
      CitedNth(s, spans, claims, c, k);
    }
  }

  // What the claims of a section are: none for an empty text, one for a text without tags, otherwise
  // one cited claim per tag and the uncited ones that stand after the last tag.
  ghost predicate Segmented(s: string, claims: seq<Claim>) {
    var spans := ParseCitations(s);
    var n := |spans|;
    if s == "" then claims == []
    else if spans == [] then claims == [Claim(Trim(s), [], 0, |s|)]
    else
      && n <= |claims| && CitedClaims(s, spans, claims[..n])
      && CursorAt(spans, n) <= |s|
      && TextsOf(claims[n..]) == TrailingTexts(s[CursorAt(spans, n)..])
      && StandInOrder(s, claims[n..], CursorAt(spans, n))
  }

  method SegmentClaims(sectionText: string) returns (claims: seq<Claim>)
    ensures Segmented(sectionText, claims)
  {
    if sectionText == "" { return []; }
    var refMatches := ParseCitations(sectionText);
    ParsedInText(sectionText);
    if refMatches == [] {
      return [Claim(Trim(sectionText), [], 0, |sectionText|)];
    }
    claims := [];
    var cursor: nat := 0;
    for k := 0 to |refMatches|
      invariant cursor == CursorAt(refMatches, k)
      invariant |claims| == k && CitedClaims(sectionText, refMatches, claims)
    {
      var tagEnd := refMatches[k].end;
      var parts := SentenceParts(sectionText[cursor..tagEnd]);
      var cleanProse := Trim(Stripped(parts[|parts| - 1], {}));
      CitedSnoc(sectionText, refMatches, claims);
      claims := claims + [Claim(cleanProse, [refMatches[k].chunkId], cursor, tagEnd)];
      cursor := tagEnd;
    }
    var trailing := TrailingClaims(sectionText, cursor);
    assert (claims + trailing)[..|refMatches|] == claims && (claims + trailing)[|refMatches|..] == trailing;
    claims := claims + trailing;
  }

  // The text of a cited claim is the trimmed end of its span up to the tag: it begins where a sentence
  // may begin and has no sentence break inside.
  ghost predicate LastSentence(s: string, claim: Claim, c: CitationSpan) {
    exists p: nat ::
      && claim.start <= p <= c.start && c.start <= c.end <= |s|
      && claim.text == Trim(s[p..c.start])
      && SentenceStart(s[claim.start..c.end], p - claim.start)
      && forall b :: p < b < c.end ==> !BreakAt(s, b)
  }

  // Exactly one cited claim per tag, in order; their spans tile the text from its start to the end of
  // the last tag; and each one's text is the last sentence before its tag.
  lemma CitedClaimsTile(s: string, claims: seq<Claim>, k: nat)
    requires CitedClaims(s, ParseCitations(s), claims) && k < |claims|
    ensures var c := ParseCitations(s)[k];
            && claims[k].citedChunkIds == [c.chunkId] && claims[k].end == c.end
            && claims[k].start == (if k == 0 then 0 else claims[k - 1].end)
            && LastSentence(s, claims[k], c)
  {
    var spans := ParseCitations(s);
    var c := spans[k];
    assert SpanOf(s, c) && CursorAt(spans, k) <= c.start by { ParseFindsEveryTag(s); }
    NoTagBetween(s, k);
    var p := ProseIsLastSentence(s, CursorAt(spans, k), c);
    assert CitedAt(s, spans, k, claims[k]);
    if k > 0 { assert CitedAt(s, spans, k - 1, claims[k - 1]); }
  }

  lemma NoTagBetween(s: string, k: nat)
    requires k < |ParseCitations(s)|
    ensures forall q :: CursorAt(ParseCitations(s), k) <= q < ParseCitations(s)[k].start ==> !TagAt(s, q)
  {
    var spans := ParseCitations(s);
    ParseFindsEveryTag(s);
    forall q | CursorAt(spans, k) <= q < spans[k].start ensures !TagAt(s, q) {
      if TagAt(s, q) {
        var j :| 0 <= j < |spans| && spans[j].start == q;
        if j < k { SpansOrdered(s, j, k); } else { SpansOrdered(s, k, j); }
      }
    }
  }

  lemma {:induction false} SpansOrdered(s: string, i: nat, j: nat)
    requires i <= j < |ParseCitations(s)|
    ensures i < j ==> ParseCitations(s)[i].end <= CursorAt(ParseCitations(s), j)
    ensures i < j ==> ParseCitations(s)[i].end <= ParseCitations(s)[j].start
    decreases j - i
  {
    SpansFromSound(s, 0);
    if i + 1 < j { SpansOrdered(s, i, j - 1); }
  }
}
