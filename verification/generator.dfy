// The tail of generate_section in app/draft/generator.py: strip dangling tags, cut an overlong
// section at a sentence end, and read the citations of what is left.
module Generator {
  import opened Common
  import opened Text
  import opened Citations
  import opened Claims

  // ----- Tags lie inside words -----

  function IdsIn(s: string): seq<string> {
    Ids(Tokens(s))
  }

  function IdsInWords(ws: seq<string>): seq<string> {
    if ws == [] then [] else IdsIn(ws[0]) + IdsInWords(ws[1..])
  }

  lemma SpaceIsNoTag(s: string, p: nat)
    requires p < |s| && IsSpace(s[p])
    ensures !TagAt(s, p)
  {
    if TagAt(s, p) { TagHasNoSpace(s, p, p); }
  }

  lemma TagBeforeSpace(s: string, q: nat, e: nat)
    requires q < e <= |s| && (e == |s| || IsSpace(s[e]))
    ensures TagAt(s, q) <==> TagAt(s[..e], q)
    ensures TagAt(s, q) ==> q + 44 <= e
  {
    if TagAt(s, q) && q + 44 > e { TagHasNoSpace(s, q, e); }
    assert s == s[..e] + s[e..];
    if q + 44 <= e { TagInPrefix(s[..e], s[e..], q); }
  }

  // Cutting at white space cuts between tokens.
  lemma {:induction false} TokensCutAtSpace(s: string, q: nat, e: nat)
    requires q <= e <= |s| && (e == |s| || IsSpace(s[e]))
    ensures TokensFrom(s, q) == TokensFrom(s[..e], q) + TokensFrom(s, e)
    decreases e - q
  {
    if q < e {
      ReadBeforeSpace(s, q, e);
      TokensCutAtSpace(s, NextFrom(s, q), e);
      TokensStep(s, q);
      TokensStep(s[..e], q);
      Assoc([Read(s, q)], TokensFrom(s[..e], NextFrom(s, q)), TokensFrom(s, e));
    }
  }

  lemma ReadBeforeSpace(s: string, q: nat, e: nat)
    requires q < e <= |s| && (e == |s| || IsSpace(s[e]))
    ensures Read(s[..e], q) == Read(s, q) && NextFrom(s[..e], q) == NextFrom(s, q) <= e
  {
    TagBeforeSpace(s, q, e);
    if TagAt(s, q) { assert s[..e][q + 7..q + 43] == s[q + 7..q + 43]; }
  }

  lemma {:induction false} IdsOfWord(s: string, p: nat, e: nat)
    requires p <= e <= |s| && (e == |s| || IsSpace(s[e]))
    ensures Ids(TokensFrom(s, p)) == IdsIn(s[p..e]) + Ids(TokensFrom(s, e))
  {
    TokensCutAtSpace(s, p, e);
    assert s[..e] == s[..p] + s[p..e];
    TokensShift(s[..p], s[p..e], 0);
    IdsConcat(TokensFrom(s[..e], p), TokensFrom(s, e));
  }

  lemma {:induction false} IdsByWordsFrom(s: string, p: nat)
    requires p <= |s|
    ensures Ids(TokensFrom(s, p)) == IdsInWords(WordsFrom(s, p))
    decreases |s| - p
  {
    if p == |s| {
    } else if IsSpace(s[p]) {
      SpaceIsNoTag(s, p);
      IdsByWordsFrom(s, p + 1);
      assert TokensFrom(s, p)[1..] == TokensFrom(s, p + 1);
    } else {
      var e := WordEnd(s, p);
      IdsByWordsFrom(s, e);
      IdsOfWord(s, p, e);
      assert WordsFrom(s, p)[1..] == WordsFrom(s, e);
    }
  }

  // No word break splits a tag: the tags of a text are the tags of its words.
  lemma IdsByWords(s: string)
    ensures IdsIn(s) == IdsInWords(Words(s))
  {
    IdsByWordsFrom(s, 0);
  }

  lemma {:induction false} IdsInWordsPrefix(ws: seq<string>, n: nat)
    requires n <= |ws|
    ensures IdsInWords(ws[..n]) <= IdsInWords(ws)
  {
    if n > 0 {
      IdsInWordsPrefix(ws[1..], n - 1);
      assert ws[..n][1..] == ws[1..][..n - 1];
    }
  }

  // A text whose words are the first words of another has its first tags.
  lemma PrefixOfWordsIsPrefixOfTags(r: string, s: string)
    requires Words(r) <= Words(s)
    ensures IdsIn(r) <= IdsIn(s)
  {
    IdsByWords(r);
    IdsByWords(s);
    IdsInWordsPrefix(Words(s), |Words(r)|);
    assert Words(s)[..|Words(r)|] == Words(r);
  }

  // ----- Truncation -----

  // The first n sentences fit, one more does not.
  ghost predicate LongestFit(parts: seq<string>, maxWords: nat, n: nat) {
    && n <= |parts| && |WordsOfAll(parts[..n])| <= maxWords
    && (n < |parts| ==> |WordsOfAll(parts[..n + 1])| > maxWords)
  }

  lemma {:induction false} PartsPrefixWords(parts: seq<string>, n: nat)
    requires n <= |parts|
    ensures WordsOfAll(parts[..n]) <= WordsOfAll(parts)
  {
    LeadingWords(parts[..n], parts[n..]);
    assert parts == parts[..n] + parts[n..];
  }

  lemma {:induction false} LeadingWords(p: seq<string>, q: seq<string>)
    ensures WordsOfAll(p) <= WordsOfAll(p + q)
  {
    WordsOfAllConcat(p, q);
  }

  lemma {:induction false} PartsNextWords(parts: seq<string>, n: nat)
    requires n < |parts|
    ensures WordsOfAll(parts[..n + 1]) == WordsOfAll(parts[..n]) + Words(parts[n])
  {
    assert parts[..n + 1] == parts[..n] + [parts[n]];
    WordsOfAllSnoc(parts[..n], parts[n]);
  }

  // Only one run of leading sentences is the longest that fits.
  lemma LongestFitUnique(parts: seq<string>, maxWords: nat, n: nat, m: nat)
    requires LongestFit(parts, maxWords, n) && LongestFit(parts, maxWords, m)
    ensures n == m
  {
    var a, b := if n < m then n else m, if n < m then m else n;
    if a < b {
      assert parts[..b][..a + 1] == parts[..a + 1];
      PartsPrefixWords(parts[..b], a + 1);
    }
  }

  lemma JoinedWithBlank(result: string, sentence: string)
    ensures Words(Trim(result + " " + sentence)) == Words(result) + Words(sentence)
  {
    TrimWords(result + " " + sentence);
    BlankIsSpace();
    WordsOfSpace(" ");
    WordsConcat(result, " ");
    assert (result + " ")[|result|] == ' ';
    WordsConcat(result + " ", sentence);
  }

  lemma FirstPartHasWords(s: string)
    requires |SentenceParts(s)| > 1
    ensures Words(SentenceParts(s)[0]) != []
  {
    var x := SentenceParts(s)[0];
    var p := FirstBreak(s, 0);
    assert x == s[0..p] && EndsSentence(x[|x| - 1]);
    PrintableIsNotSpace(x[|x| - 1]);
    if Words(x) == [] { NoWordsFromMeansSpace(x, 0); }
  }

  lemma {:induction false} WordsOfWords(ws: seq<string>)
    requires forall k :: 0 <= k < |ws| ==> ws[k] != "" && NoSpace(ws[k])
    ensures WordsOfAll(ws) == ws
  {
    if ws != [] {
      WordsOfOne(ws[0]);
      WordsOfWords(ws[1..]);
      assert [ws[0]] + ws[1..] == ws;
    }
  }

  lemma {:induction false} WordsOfTarget(text: string, n: nat)
    requires n <= |Words(text)|
    ensures Words(Join(Words(text)[..n], " ")) == Words(text)[..n]
  {
    WordsFromHaveNoSpace(text, 0);
    WordsOfJoin(Words(text)[..n]);
    WordsOfWords(Words(text)[..n]);
  }

  lemma FirstOfPrefix(parts: seq<string>, n: nat)
    requires 0 < n <= |parts| && Words(parts[0]) != []
    ensures WordsOfAll(parts[..n]) != []
  {
    assert parts[..n][0] == parts[0];
  }

  // The words of an overlong text's truncation.
  ghost predicate Truncated(text: string, maxWords: nat, r: string) {
    && maxWords <= |Words(text)|
    && exists n: nat ::
         && LongestFit(SentenceParts(text), maxWords, n)
         && Words(r) == if n > 0 then WordsOfAll(SentenceParts(text)[..n]) else Words(text)[..maxWords]
  }

  lemma SomeSentenceHasWords(text: string, maxWords: nat, i: nat)
    requires |Words(text)| > maxWords && 0 < i <= |SentenceParts(text)|
    requires |WordsOfAll(SentenceParts(text)[..i])| <= maxWords
    ensures WordsOfAll(SentenceParts(text)[..i]) != []
  {
    var parts := SentenceParts(text);
    SentencePartsWords(text);
    assert parts[..|parts|] == parts;
    FirstPartHasWords(text);
    FirstOfPrefix(parts, i);
  }

  lemma TruncationEnds(text: string, maxWords: nat, i: nat, result: string)
    requires |Words(text)| > maxWords && LongestFit(SentenceParts(text), maxWords, i)
    requires Words(result) == WordsOfAll(SentenceParts(text)[..i]) && (i == 0 ==> result == "")
    ensures var r := if result != "" then result else Join(Words(text)[..maxWords], " ");
            Truncated(text, maxWords, r) && |Words(r)| <= maxWords && Words(r) <= Words(text)
  {
    SentencePartsWords(text);
    PartsPrefixWords(SentenceParts(text), i);
    WordsOfTarget(text, maxWords);
    assert Words("") == [];
    if i > 0 {
      SomeSentenceHasWords(text, maxWords, i);
    }
  }

  // A text within the limit is untouched. Otherwise the result has the words of the longest run of
  // leading sentences that fits, or, if the first sentence alone is too long, the first words.
  method TruncateAtSentence(text: string, maxWords: nat) returns (r: string)
    ensures |Words(text)| <= maxWords ==> r == text
    ensures |Words(r)| <= maxWords && Words(r) <= Words(text)
    ensures |Words(text)| > maxWords ==> Truncated(text, maxWords, r)
  {
    var words := Words(text);
    if |words| <= maxWords { return text; }
    var target := Join(words[..maxWords], " ");
    var sentences := SentenceParts(text);
    var result := "";
    var i := 0;
    assert sentences[..0] == [];
    while i < |sentences|
      invariant 0 <= i <= |sentences|
      invariant i == 0 ==> result == ""
      invariant Words(result) == WordsOfAll(sentences[..i]) && |Words(result)| <= maxWords
    {
      PartsNextWords(sentences, i);
      JoinedWithBlank(result, sentences[i]);
      var candidate := if result != "" then Trim(result + " " + sentences[i]) else sentences[i];
      if |Words(candidate)| > maxWords { break; }
      result := candidate;
      i := i + 1;
    }
    TruncationEnds(text, maxWords, i, result);
    r := if result != "" then result else target;
  }

  // ----- The section as it is stored -----

  datatype Section = Section(text: string, wordCount: nat, dangling: seq<string>, citations: seq<CitationSpan>)

  // The stored text is the stripped one, cut only when it is more than half over the limit; its
  // citations are the first ones of the stripped text, none of them split by the cut.
  method FinishSection(rawText: string, allChunkIds: set<string>, maxWords: nat) returns (section: Section)
    ensures section.dangling == Dangling(IdsIn(rawText), allChunkIds)
    ensures section.wordCount == |Words(section.text)|
    ensures section.citations == ParseCitations(section.text)
    ensures 2 * |Words(Stripped(rawText, allChunkIds))| <= 3 * maxWords ==>
        section.text == Stripped(rawText, allChunkIds)
    ensures 2 * |Words(Stripped(rawText, allChunkIds))| > 3 * maxWords ==> section.wordCount <= maxWords
    ensures Words(section.text) <= Words(Stripped(rawText, allChunkIds))
    ensures IdsIn(section.text) <= IdsIn(Stripped(rawText, allChunkIds))
  {
    var cleanedText, dangling := StripDangling(rawText, allChunkIds);
    var wordCount := |Words(cleanedText)|;
    if wordCount as real > maxWords as real * 1.5 {
      cleanedText := TruncateAtSentence(cleanedText, maxWords);
      wordCount := |Words(cleanedText)|;
    }
    PrefixOfWordsIsPrefixOfTags(cleanedText, Stripped(rawText, allChunkIds));
    section := Section(cleanedText, wordCount, dangling, ParseCitations(cleanedText));
  }

  // When nothing is glued together, every stored citation is an allowed one of the raw text, in order.
  lemma StoredCitationsAreAllowed(rawText: string, allow: set<string>, stored: string)
    requires !SpellsTag(Keep(Tokens(rawText), allow))
    requires Words(stored) <= Words(Stripped(rawText, allow))
    ensures IdsIn(stored) <= Allowed(IdsIn(rawText), allow)
  {
    StripExact(rawText, allow);
    PrefixOfWordsIsPrefixOfTags(stored, Stripped(rawText, allow));
  }
}
