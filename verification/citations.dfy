// Citation tags in generated text, as in app/draft/citations.py: a tag is "[chunk:", a lower-case
// UUID in the text form of section 4 of RFC 9562, and "]", 44 characters in all.
module Citations {
  import opened Common
  import opened Text

  // ----- Tags -----

  const OPENING := "[chunk:"

  predicate IsHex(c: char) {
    '0' <= c <= '9' || 'a' <= c <= 'f'
  }

  predicate DashPlace(k: int) {
    k == 8 || k == 13 || k == 18 || k == 23
  }

  predicate UuidChar(c: char, k: int) {
    if DashPlace(k) then c == '-' else IsHex(c)
  }

  predicate UuidAt(s: string, i: nat) {
    i + 36 <= |s| && forall k :: i <= k < i + 36 ==> UuidChar(s[k], k - i)
  }

  predicate IsUuid(id: string) {
    |id| == 36 && UuidAt(id, 0)
  }

  // "[chunk:"
  predicate OpeningAt(s: string, i: nat)
    requires i + 7 <= |s|
  {
    && s[i] == '[' && s[i + 1] == 'c' && s[i + 2] == 'h' && s[i + 3] == 'u' && s[i + 4] == 'n' && s[i + 5] == 'k'
    && s[i + 6] == ':'
  }

  predicate TagAt(s: string, i: nat) {
    i + 44 <= |s| && OpeningAt(s, i) && UuidAt(s, i + 7) && s[i + 43] == ']'
  }

  function TagText(id: string): string {
    OPENING + id + "]"
  }

  // A bracket opens a tag, and there is none inside one.
  lemma TagCharacters(s: string, i: nat)
    requires TagAt(s, i)
    ensures s[i] == '['
    ensures forall k :: i < k < i + 44 ==> s[k] != '['
  {
    forall k | i + 7 <= k < i + 43 ensures s[k] != '[' {
      assert UuidChar(s[k], k - (i + 7));
    }
  }

  lemma TagIsItsText(s: string, i: nat)
    requires TagAt(s, i)
    ensures IsUuid(s[i + 7..i + 43]) && s[i..i + 44] == TagText(s[i + 7..i + 43])
  {
    var id := s[i + 7..i + 43];
    assert forall k :: 0 <= k < 36 ==> id[k] == s[i + 7 + k] && UuidChar(s[i + 7 + k], i + 7 + k - (i + 7));
    assert s[i..i + 44] == s[i..i + 7] + id + [s[i + 43]];
  }

  predicate AllHex(s: string) {
    forall k :: 0 <= k < |s| ==> s[k] in "0123456789abcdef"
  }

  // The five groups of a UUID.
  ghost predicate Grouped(id: string, a: string, b: string, c: string, d: string, e: string) {
    && id == a + "-" + b + "-" + c + "-" + d + "-" + e
    && |a| == 8 && |b| == 4 && |c| == 4 && |d| == 4 && |e| == 12
    && AllHex(a) && AllHex(b) && AllHex(c) && AllHex(d) && AllHex(e)
  }

  lemma HexIff(c: char)
    ensures IsHex(c) <==> c in "0123456789abcdef"
  {
    var digits := "0123456789abcdef";
    if IsHex(c) {
      var k := if c <= '9' then (c - '0') as int else (c - 'a') as int + 10;
      assert digits[k] == c;
    }
  }

  lemma HexGroup(id: string, i: nat, j: nat)
    requires i <= j <= |id|
    ensures AllHex(id[i..j]) <==> forall k :: i <= k < j ==> IsHex(id[k])
  {
    forall k | i <= k < j ensures IsHex(id[k]) <==> id[i..j][k - i] in "0123456789abcdef" { HexIff(id[k]); }
  }

  // A UUID is five groups of 8, 4, 4, 4 and 12 lower-case hexadecimal digits with dashes between them.
  lemma UuidIff(id: string)
    ensures IsUuid(id) <==> exists a, b, c, d, e :: Grouped(id, a, b, c, d, e)
  {
    if |id| == 36 {
      HexGroup(id, 0, 8);
      HexGroup(id, 9, 13);
      HexGroup(id, 14, 18);
      HexGroup(id, 19, 23);
      HexGroup(id, 24, 36);
    }
    if IsUuid(id) { UuidGroups(id); }
    if a, b, c, d, e :| Grouped(id, a, b, c, d, e) { GroupsAreUuid(id, a, b, c, d, e); }
  }

  lemma UuidGroups(id: string)
    requires IsUuid(id)
    requires AllHex(id[0..8]) && AllHex(id[9..13]) && AllHex(id[14..18]) && AllHex(id[19..23]) && AllHex(id[24..36])
    ensures Grouped(id, id[0..8], id[9..13], id[14..18], id[19..23], id[24..36])
  {
    assert UuidChar(id[8], 8) && UuidChar(id[13], 13) && UuidChar(id[18], 18) && UuidChar(id[23], 23);
    assert id == id[0..8] + "-" + id[9..13] + "-" + id[14..18] + "-" + id[19..23] + "-" + id[24..36];
  }

  lemma GroupsAreUuid(id: string, a: string, b: string, c: string, d: string, e: string)
    requires Grouped(id, a, b, c, d, e)
    ensures IsUuid(id)
  {
    assert id[0..8] == a && id[9..13] == b && id[14..18] == c && id[19..23] == d && id[24..36] == e;
    assert id[8] == '-' && id[13] == '-' && id[18] == '-' && id[23] == '-';
    HexGroup(id, 0, 8);
    HexGroup(id, 9, 13);
    HexGroup(id, 14, 18);
    HexGroup(id, 19, 23);
    HexGroup(id, 24, 36);
  }

  // A tag is "[chunk:", a UUID and "]".
  lemma TagIff(s: string, i: nat)
    ensures TagAt(s, i) <==> i + 44 <= |s| && exists id :: IsUuid(id) && s[i..i + 44] == "[chunk:" + id + "]"
  {
    if TagAt(s, i) { TagIsItsText(s, i); }
    if i + 44 <= |s| {
      if id :| IsUuid(id) && s[i..i + 44] == "[chunk:" + id + "]" {
        TagTextIsTag(id, s[i + 44..]);
        assert s == s[..i] + (TagText(id) + s[i + 44..]);
        TagShift(s[..i], TagText(id) + s[i + 44..], 0);
      }
    }
  }

  // Tags never overlap.
  lemma TagsDisjoint(s: string, i: nat, j: nat)
    requires TagAt(s, i) && TagAt(s, j) && i < j
    ensures i + 44 <= j
  {
    TagCharacters(s, i);
    TagCharacters(s, j);
  }

  lemma TagTextIsTag(id: string, rest: string)
    requires IsUuid(id)
    ensures |TagText(id)| == 44 && TagAt(TagText(id) + rest, 0)
    ensures (TagText(id) + rest)[7..43] == id && (TagText(id) + rest)[44..] == rest
  {
    var s := TagText(id) + rest;
    assert s[0..7] == OPENING;
    assert s[7..43] == id;
    forall k | 7 <= k < 43 ensures UuidChar(s[k], k - 7) {
      assert s[k] == id[k - 7];
    }
  }

  lemma UuidShift(x: string, y: string, i: nat)
    ensures UuidAt(x + y, |x| + i) <==> UuidAt(y, i)
  {
    var s := x + y;
    if i + 36 <= |y| {
      assert forall k :: i <= k < i + 36 ==> y[k] == s[|x| + k];
      assert forall k :: |x| + i <= k < |x| + i + 36 ==> s[k] == y[k - |x|];
    }
  }

  lemma TagShift(x: string, y: string, i: nat)
    ensures TagAt(x + y, |x| + i) <==> TagAt(y, i)
  {
    UuidShift(x, y, i + 7);
  }

  lemma TagInPrefix(x: string, y: string, i: nat)
    requires i + 44 <= |x|
    ensures TagAt(x + y, i) <==> TagAt(x, i)
  {
    var s := x + y;
    assert forall k :: i <= k < i + 44 ==> s[k] == x[k];
  }

  // ----- Scanning: finditer -----

  datatype CitationSpan = CitationSpan(chunkId: string, start: nat, end: nat)

  function SpansFrom(s: string, i: nat): seq<CitationSpan>
    requires i <= |s|
    decreases |s| - i
  {
    if i == |s| then []
    else if TagAt(s, i) then [CitationSpan(s[i + 7..i + 43], i, i + 44)] + SpansFrom(s, i + 44)
    else SpansFrom(s, i + 1)
  }

  function ParseCitations(s: string): seq<CitationSpan> {
    SpansFrom(s, 0)
  }

  ghost predicate SpanOf(s: string, c: CitationSpan) {
    TagAt(s, c.start) && c.end == c.start + 44 && c.chunkId == s[c.start + 7..c.start + 43]
  }

  lemma {:induction false} SpansFromSound(s: string, i: nat)
    requires i <= |s|
    ensures forall k :: 0 <= k < |SpansFrom(s, i)| ==> SpanOf(s, SpansFrom(s, i)[k]) && SpansFrom(s, i)[k].start >= i
    ensures forall k :: 0 < k < |SpansFrom(s, i)| ==> SpansFrom(s, i)[k - 1].end <= SpansFrom(s, i)[k].start
    decreases |s| - i
  {
    if i == |s| {
    } else if TagAt(s, i) {
      SpansFromSound(s, i + 44);
    } else {
      SpansFromSound(s, i + 1);
    }
  }

  lemma {:induction false} SpansFromComplete(s: string, i: nat, p: nat) returns (k: nat)
    requires i <= p && TagAt(s, p)
    ensures k < |SpansFrom(s, i)| && SpansFrom(s, i)[k].start == p
    decreases |s| - i
  {
    if p == i {
      k := 0;
    } else if TagAt(s, i) {
      TagsDisjoint(s, i, p);
      var j := SpansFromComplete(s, i + 44, p);
      k := j + 1;
    } else {
      k := SpansFromComplete(s, i + 1, p);
    }
  }

  // Parsing finds the tag at every position that has one, and nothing else, in order and disjoint.
  lemma ParseFindsEveryTag(s: string)
    ensures forall p: nat :: TagAt(s, p) ==> exists k :: 0 <= k < |ParseCitations(s)| && ParseCitations(s)[k].start == p
    ensures forall k :: 0 <= k < |ParseCitations(s)| ==> SpanOf(s, ParseCitations(s)[k])
    ensures forall k :: 0 < k < |ParseCitations(s)| ==> ParseCitations(s)[k - 1].end <= ParseCitations(s)[k].start
  {
    SpansFromSound(s, 0);
    forall p: nat | TagAt(s, p) ensures exists k :: 0 <= k < |ParseCitations(s)| && ParseCitations(s)[k].start == p {
      var k := SpansFromComplete(s, 0, p);
      assert ParseCitations(s)[k].start == p;
    }
  }

  // ----- The text as a sequence of characters and tags -----

  datatype Token = Ch(c: char) | Tag(id: string)

  function TokensFrom(s: string, i: nat): seq<Token>
    requires i <= |s|
    decreases |s| - i
  {
    if i == |s| then []
    else if TagAt(s, i) then [Tag(s[i + 7..i + 43])] + TokensFrom(s, i + 44)
    else [Ch(s[i])] + TokensFrom(s, i + 1)
  }

  function Tokens(s: string): seq<Token> {
    TokensFrom(s, 0)
  }

  function Piece(t: Token): string {
    match t
    case Ch(c) => [c]
    case Tag(id) => TagText(id)
  }

  function Render(ts: seq<Token>): string {
    if ts == [] then "" else Piece(ts[0]) + Render(ts[1..])
  }

  ghost predicate Proper(ts: seq<Token>) {
    forall k :: 0 <= k < |ts| && ts[k].Tag? ==> IsUuid(ts[k].id)
  }

  function Ids(ts: seq<Token>): seq<string> {
    if ts == [] then [] else (if ts[0].Tag? then [ts[0].id] else []) + Ids(ts[1..])
  }

  lemma CutAt(s: string, i: nat, j: nat)
    requires i <= j <= |s|
    ensures s[i..] == s[i..j] + s[j..]
    ensures j == i + 1 ==> s[i..j] == [s[i]]
  {
  }

  lemma {:induction false} RenderTokensFrom(s: string, i: nat)
    requires i <= |s|
    ensures Render(TokensFrom(s, i)) == s[i..] && Proper(TokensFrom(s, i))
    decreases |s| - i
  {
    if i == |s| {
    } else if TagAt(s, i) {
      RenderTokensFrom(s, i + 44);
      TagIsItsText(s, i);
      CutAt(s, i, i + 44);
    } else {
      RenderTokensFrom(s, i + 1);
      CutAt(s, i, i + 1);
    }
  }

  // Rendering undoes the scan.
  lemma RenderTokens(s: string)
    ensures Render(Tokens(s)) == s && Proper(Tokens(s))
  {
    RenderTokensFrom(s, 0);
  }

  // The scan and the parser see the same tags.
  lemma {:induction false} IdsOfSpans(s: string, i: nat)
    requires i <= |s|
    ensures SameTags(Ids(TokensFrom(s, i)), SpansFrom(s, i))
    decreases |s| - i
  {
    if i < |s| {
      IdsOfSpans(s, NextFrom(s, i));
      TokensStep(s, i);
      IdsCons(Read(s, i), TokensFrom(s, NextFrom(s, i)));
      SpansStep(s, i);
    }
  }

  ghost predicate SameTags(ids: seq<string>, spans: seq<CitationSpan>) {
    |ids| == |spans| && forall k :: 0 <= k < |spans| ==> ids[k] == spans[k].chunkId
  }

  lemma {:induction false} SpansStep(s: string, i: nat)
    requires i < |s|
    ensures SpansFrom(s, i) ==
            if TagAt(s, i) then [CitationSpan(s[i + 7..i + 43], i, i + 44)] + SpansFrom(s, NextFrom(s, i))
            else SpansFrom(s, NextFrom(s, i))
  {
  }

  lemma {:induction false} TokensShift(x: string, y: string, i: nat)
    requires i <= |y|
    ensures TokensFrom(x + y, |x| + i) == TokensFrom(y, i)
    decreases |y| - i
  {
    if i < |y| {
      TokensShift(x, y, NextFrom(y, i));
      ReadShift(x, y, i);
      TokensStep(x + y, |x| + i);
      TokensStep(y, i);
    }
  }

  // The token at a position, and where the next one begins.
  function Read(s: string, i: nat): Token
    requires i < |s|
  {
    if TagAt(s, i) then Tag(s[i + 7..i + 43]) else Ch(s[i])
  }

  function NextFrom(s: string, i: nat): (next: nat)
    requires i < |s|
    ensures i < next <= |s|
  {
    if TagAt(s, i) then i + 44 else i + 1
  }

  lemma {:induction false} TokensStep(s: string, i: nat)
    requires i < |s|
    ensures TokensFrom(s, i) == [Read(s, i)] + TokensFrom(s, NextFrom(s, i))
  {
  }

  lemma ReadShift(x: string, y: string, i: nat)
    requires i < |y|
    ensures Read(x + y, |x| + i) == Read(y, i) && NextFrom(x + y, |x| + i) == |x| + NextFrom(y, i)
  {
    TagShift(x, y, i);
    if TagAt(y, i) { SliceOfTail(x, y, i + 7, i + 43); }
  }

  // What the scan finds after a first piece.
  lemma TokensOfPiece(t: Token, rest: string)
    requires t.Tag? ==> IsUuid(t.id)
    requires t.Ch? ==> !TagAt([t.c] + rest, 0)
    ensures Tokens(Piece(t) + rest) == [t] + Tokens(rest)
  {
    var s := Piece(t) + rest;
    if t.Tag? {
      TagTextIsTag(t.id, rest);
    }
    TokensShift(Piece(t), rest, 0);
  }

  // ----- Characters that spell a tag -----

  function Chars(s: string): (ts: seq<Token>)
    ensures |ts| == |s| && forall k :: 0 <= k < |s| ==> ts[k] == Ch(s[k])
  {
    seq(|s|, k requires 0 <= k < |s| => Ch(s[k]))
  }

  // From position k on, 44 plain characters that together read as a tag.
  ghost predicate SpelledAt(ts: seq<Token>, k: nat) {
    k + 44 <= |ts| && (forall j :: k <= j < k + 44 ==> ts[j].Ch?) && TagAt(CharsAt(ts, k), 0)
  }

  // The 44 characters of the tokens from k on.
  ghost function CharsAt(ts: seq<Token>, k: nat): (r: string)
    requires k + 44 <= |ts|
    ensures |r| == 44 && forall j :: 0 <= j < 44 ==> r[j] == if ts[k + j].Ch? then ts[k + j].c else ' '
  {
    seq(44, j requires 0 <= j < 44 => if ts[k + j].Ch? then ts[k + j].c else ' ')
  }

  ghost predicate SpellsTag(ts: seq<Token>) {
    exists k: nat :: SpelledAt(ts, k)
  }

  // If the rendered text starts with n characters other than a bracket, they are n plain tokens.
  lemma {:induction false} PlainPrefix(ts: seq<Token>, n: nat)
    requires Proper(ts) && n <= |Render(ts)| && forall j :: 0 <= j < n ==> Render(ts)[j] != '['
    ensures n <= |ts| && forall j :: 0 <= j < n ==> ts[j] == Ch(Render(ts)[j])
    ensures Render(ts)[n..] == Render(ts[n..])
    decreases n
  {
    if n == 0 {
      assert ts[0..] == ts;
    } else {
      PlainFirst(ts);
      RestIsPlain(Render(ts), Render(ts[1..]), n);
      PlainPrefix(ts[1..], n - 1);
      DropTwice(ts, n);
      DropTwice(Render(ts), n);
      PlainOneMore(ts, Render(ts), n);
    }
  }

  lemma RestIsPlain(r: string, rest: string, n: nat)
    requires 0 < n <= |r| && r[1..] == rest && forall j :: 0 <= j < n ==> r[j] != '['
    ensures n - 1 <= |rest| && forall j :: 0 <= j < n - 1 ==> rest[j] != '['
  {
    forall j | 0 <= j < n - 1 ensures rest[j] != '[' { assert rest[j] == r[j + 1]; }
  }

  lemma PlainOneMore(ts: seq<Token>, r: string, n: nat)
    requires 0 < n <= |r| && ts != [] && ts[0] == Ch(r[0])
    requires n - 1 <= |ts| - 1 && forall j :: 0 <= j < n - 1 ==> ts[1..][j] == Ch(r[1..][j])
    ensures n <= |ts| && forall j :: 0 <= j < n ==> ts[j] == Ch(r[j])
  {
    forall j | 0 <= j < n ensures ts[j] == Ch(r[j]) {
      if j > 0 { assert ts[j] == ts[1..][j - 1] && r[j] == r[1..][j - 1]; }
    }
  }

  lemma PlainFirst(ts: seq<Token>)
    requires Proper(ts) && Render(ts) != "" && Render(ts)[0] != '['
    ensures ts != [] && ts[0] == Ch(Render(ts)[0]) && Render(ts)[1..] == Render(ts[1..])
  {
    assert Render(ts) == Piece(ts[0]) + Render(ts[1..]);
    assert Piece(ts[0])[0] == Render(ts)[0];
  }

  // A tag at the front of the rendered text that is not a tag token is spelled by plain characters.
  lemma TagAtFront(ts: seq<Token>)
    requires Proper(ts) && ts != [] && ts[0].Ch? && TagAt(Render(ts), 0)
    ensures SpelledAt(ts, 0) && Render(ts)[44..] == Render(ts[44..])
  {
    PlainFront(ts);
    FrontIsItsChars(ts, Render(ts));
  }

  lemma PlainFront(ts: seq<Token>)
    requires Proper(ts) && ts != [] && ts[0].Ch? && TagAt(Render(ts), 0)
    ensures 44 <= |ts| && forall j :: 0 <= j < 44 ==> ts[j] == Ch(Render(ts)[j])
    ensures Render(ts)[44..] == Render(ts[44..])
  {
    var r, rest := Render(ts), Render(ts[1..]);
    TagCharacters(r, 0);
    PlainStep(ts);
    assert forall j :: 0 <= j < 43 ==> rest[j] == r[j + 1];
    PlainPrefix(ts[1..], 43);
    assert forall j :: 1 <= j < 44 ==> ts[j] == ts[1..][j - 1];
    DropTwice(ts, 44);
    DropTwice(r, 44);
  }

  lemma FrontIsItsChars(ts: seq<Token>, r: string)
    requires 44 <= |ts| && TagAt(r, 0) && forall j :: 0 <= j < 44 ==> ts[j] == Ch(r[j])
    ensures SpelledAt(ts, 0)
  {
    var head := CharsAt(ts, 0);
    assert head == r[..44];
    assert r == head + r[44..];
    TagInPrefix(head, r[44..], 0);
  }

  lemma SpelledReads(ts: seq<Token>)
    requires Proper(ts) && SpelledAt(ts, 0)
    ensures TagAt(Render(ts), 0)
  {
    var head := CharsAt(ts, 0);
    RenderPlain(ts, 44);
    assert Render(ts)[..44] == head;
    assert Render(ts) == head + Render(ts)[44..];
    TagInPrefix(head, Render(ts)[44..], 0);
  }

  lemma {:induction false} RenderPlain(ts: seq<Token>, n: nat)
    requires n <= |ts| && forall j :: 0 <= j < n ==> ts[j].Ch?
    ensures n <= |Render(ts)| && forall j :: 0 <= j < n ==> Render(ts)[j] == ts[j].c
    decreases n
  {
    if n > 0 {
      RenderPlain(ts[1..], n - 1);
      assert Render(ts) == [ts[0].c] + Render(ts[1..]);
      forall j | 1 <= j < n ensures Render(ts)[j] == ts[j].c {
        assert Render(ts)[j] == Render(ts[1..])[j - 1] == ts[1..][j - 1].c;
      }
    }
  }

  lemma SpelledLater(ts: seq<Token>, k: nat)
    requires 0 < k
    ensures SpelledAt(ts, k) ==> ts != [] && SpelledAt(ts[1..], k - 1)
    ensures ts != [] && SpelledAt(ts[1..], k - 1) ==> SpelledAt(ts, k)
  {
    if ts != [] && k + 44 <= |ts| {
      assert CharsAt(ts, k) == CharsAt(ts[1..], k - 1);
      assert forall j :: k <= j < k + 44 ==> ts[j] == ts[1..][j - 1];
      assert forall j :: k - 1 <= j < k - 1 + 44 ==> ts[1..][j] == ts[j + 1];
    }
  }

  lemma {:induction false} IdsSkipPlain(ts: seq<Token>, n: nat)
    requires n <= |ts| && forall j :: 0 <= j < n ==> ts[j].Ch?
    ensures Ids(ts) == Ids(ts[n..])
    decreases n
  {
    if n == 0 {
      assert ts[0..] == ts;
    } else {
      IdsSkipPlain(ts[1..], n - 1);
      assert ts[1..][n - 1..] == ts[n..];
    }
  }

  // Scanning a rendered token sequence gives it back when no plain characters spell a tag; otherwise
  // the scan sees more tags than there were.
  lemma {:induction false} ScanRendered(ts: seq<Token>)
    requires Proper(ts)
    ensures !SpellsTag(ts) ==> Tokens(Render(ts)) == ts
    ensures |Ids(Tokens(Render(ts)))| >= |Ids(ts)|
    ensures SpellsTag(ts) ==> |Ids(Tokens(Render(ts)))| > |Ids(ts)|
    decreases |ts|
  {
    if ts != [] {
      var rest := ts[1..];
      var r := Render(rest);
      if ts[0].Ch? && TagAt(Render(ts), 0) {
        TagAtFront(ts);
        ScanRendered(ts[44..]);
        ScanFront(Render(ts), Render(ts[44..]));
        IdsCons(Tag(Render(ts)[7..43]), Tokens(Render(ts[44..])));
        IdsSkipPlain(ts, 44);
      } else {
        ScanRendered(rest);
        TokensOfPiece(ts[0], r);
        assert Tokens(Render(ts))[1..] == Tokens(r);
        if SpellsTag(ts) {
          var k: nat :| SpelledAt(ts, k);
          if k == 0 { SpelledReads(ts); }
          SpelledLater(ts, k);
        }
        if SpellsTag(rest) {
          var k: nat :| SpelledAt(rest, k);
          SpelledLater(ts, k + 1);
        }
      }
    }
  }

  lemma ScanFront(s: string, rest: string)
    requires TagAt(s, 0) && s[44..] == rest
    ensures Tokens(s) == [Tag(s[7..43])] + Tokens(rest)
  {
    TokensStep(s, 0);
    assert s == s[..44] + rest;
    TokensShift(s[..44], rest, 0);
  }

  lemma ScanNeverSpells(s: string)
    ensures !SpellsTag(Tokens(s))
  {
    RenderTokens(s);
    ScanRendered(Tokens(s));
  }

  // ----- Stripping -----

  function Keep(ts: seq<Token>, allow: set<string>): seq<Token> {
    if ts == [] then []
    else (if ts[0].Tag? && ts[0].id !in allow then [] else [ts[0]]) + Keep(ts[1..], allow)
  }

  function Allowed(ids: seq<string>, allow: set<string>): seq<string> {
    if ids == [] then [] else (if ids[0] in allow then [ids[0]] else []) + Allowed(ids[1..], allow)
  }

  function Dangling(ids: seq<string>, allow: set<string>): seq<string> {
    if ids == [] then [] else (if ids[0] in allow then [] else [ids[0]]) + Dangling(ids[1..], allow)
  }

  // The text without its dangling tags.
  function Stripped(s: string, allow: set<string>): string {
    Render(Keep(Tokens(s), allow))
  }

  lemma TailOfConcat<T>(a: seq<T>, b: seq<T>)
    requires a != []
    ensures (a + b)[1..] == a[1..] + b && (a + b)[0] == a[0]
  {
  }

  lemma {:induction false} IdsConcat(a: seq<Token>, b: seq<Token>)
    ensures Ids(a + b) == Ids(a) + Ids(b)
  {
    if a == [] {
      assert a + b == b;
    } else {
      TailOfConcat(a, b);
      IdsConcat(a[1..], b);
    }
  }

  lemma IdsCons(t: Token, ts: seq<Token>)
    ensures Ids([t] + ts) == if t.Tag? then [t.id] + Ids(ts) else Ids(ts)
  {
    assert ([t] + ts)[1..] == ts;
  }

  lemma {:induction false} KeepIds(ts: seq<Token>, allow: set<string>)
    ensures Ids(Keep(ts, allow)) == Allowed(Ids(ts), allow)
  {
    if ts != [] {
      KeepIds(ts[1..], allow);
      assert ts == [ts[0]] + ts[1..];
      KeepIdsCons(ts[0], ts[1..], allow);
    }
  }

  lemma {:induction false} KeepIdsCons(t: Token, rest: seq<Token>, allow: set<string>)
    requires Ids(Keep(rest, allow)) == Allowed(Ids(rest), allow)
    ensures Ids(Keep([t] + rest, allow)) == Allowed(Ids([t] + rest), allow)
  {
    KeepCons(t, rest, allow);
    IdsCons(t, rest);
    if t.Tag? { AllowedCons(t.id, Ids(rest), allow); }
    var kept := Keep(rest, allow);
    if t.Ch? || t.id in allow { IdsCons(t, kept); } else { assert [] + kept == kept; }
  }

  lemma AllowedCons(id: string, ids: seq<string>, allow: set<string>)
    ensures Allowed([id] + ids, allow) == if id in allow then [id] + Allowed(ids, allow) else Allowed(ids, allow)
    ensures Dangling([id] + ids, allow) == if id in allow then Dangling(ids, allow) else [id] + Dangling(ids, allow)
  {
    assert ([id] + ids)[1..] == ids;
  }

  lemma {:induction false} KeepProper(ts: seq<Token>, allow: set<string>)
    requires Proper(ts)
    ensures Proper(Keep(ts, allow))
  {
    if ts != [] { KeepProper(ts[1..], allow); }
  }

  // Stripping leaves exactly the allowed citations, in order, if and only if the remaining pieces do
  // not spell a tag across a removed one.
  lemma StripExact(s: string, allow: set<string>)
    ensures Ids(Tokens(Stripped(s, allow))) == Allowed(Ids(Tokens(s)), allow) <==> !SpellsTag(Keep(Tokens(s), allow))
  {
    RenderTokens(s);
    KeepIds(Tokens(s), allow);
    KeepProper(Tokens(s), allow);
    ScanRendered(Keep(Tokens(s), allow));
  }

  // The id of the tag that is spelled at k.
  ghost function SpelledId(ts: seq<Token>, k: nat): string
    requires SpelledAt(ts, k)
  {
    seq(36, j requires 0 <= j < 36 => ts[k + 7 + j].c)
  }

  ghost predicate Spells(ts: seq<Token>, id: string) {
    exists k: nat :: SpelledAt(ts, k) && SpelledId(ts, k) == id
  }

  lemma SpelledIdLater(ts: seq<Token>, k: nat)
    requires 0 < k && SpelledAt(ts, k) && ts != [] && SpelledAt(ts[1..], k - 1)
    ensures SpelledId(ts, k) == SpelledId(ts[1..], k - 1)
  {
    assert forall m :: k + 7 <= m < k + 43 ==> ts[m] == ts[1..][m - 1];
  }

  // A tag can be spelled later exactly if the rest spells it.
  lemma SpellsLater(ts: seq<Token>, id: string)
    requires ts != []
    ensures Spells(ts, id) <==> Spells(ts[1..], id) || (SpelledAt(ts, 0) && SpelledId(ts, 0) == id)
  {
    if Spells(ts, id) {
      var k: nat :| SpelledAt(ts, k) && SpelledId(ts, k) == id;
      if k > 0 {
        SpelledLater(ts, k);
        SpelledIdLater(ts, k);
      }
    }
    if Spells(ts[1..], id) {
      var k: nat :| SpelledAt(ts[1..], k) && SpelledId(ts[1..], k) == id;
      SpelledLater(ts, k + 1);
      SpelledIdLater(ts, k + 1);
    }
  }

  // Two spelled tags cannot overlap: no tag is spelled inside another.
  lemma NoneSpelledInside(ts: seq<Token>, k: nat)
    requires Proper(ts) && SpelledAt(ts, 0) && 0 < k < 44
    ensures !SpelledAt(ts, k)
  {
    if SpelledAt(ts, k) { SpelledApart(ts, k); }
  }

  lemma {:induction false} SpelledApart(ts: seq<Token>, k: nat)
    requires Proper(ts) && SpelledAt(ts, 0) && 0 < k && SpelledAt(ts, k)
    requires forall j :: 0 <= j < k ==> ts[j].Ch?
    ensures 44 <= k
  {
    SpelledFrom(ts, k);
    SpelledReads(ts);
    SpelledReads(ts[k..]);
    RenderPlainFrom(ts, k);
    TagShift(Render(ts)[..k], Render(ts[k..]), 0);
    assert Render(ts) == Render(ts)[..k] + Render(ts[k..]);
    TagsDisjoint(Render(ts), 0, k);
  }

  lemma {:induction false} SpelledFrom(ts: seq<Token>, k: nat)
    requires SpelledAt(ts, k)
    ensures SpelledAt(ts[k..], 0) && SpelledId(ts[k..], 0) == SpelledId(ts, k)
    decreases k
  {
    if k == 0 {
      assert ts[0..] == ts;
    } else {
      SpelledLater(ts, k);
      SpelledIdLater(ts, k);
      SpelledFrom(ts[1..], k - 1);
      assert ts[1..][k - 1..] == ts[k..];
    }
  }

  lemma {:induction false} RenderPlainFrom(ts: seq<Token>, n: nat)
    requires n <= |ts| && forall j :: 0 <= j < n ==> ts[j].Ch?
    ensures n <= |Render(ts)| && Render(ts)[n..] == Render(ts[n..])
    decreases n
  {
    if n == 0 {
      assert ts[0..] == ts;
    } else {
      RenderPlainFrom(ts[1..], n - 1);
      PlainStep(ts);
      DropTwice(ts, n);
      DropTwice(Render(ts), n);
    }
  }

  lemma PlainStep(ts: seq<Token>)
    requires ts != [] && ts[0].Ch?
    ensures Render(ts) != "" && Render(ts)[0] == ts[0].c && Render(ts)[1..] == Render(ts[1..])
  {
    assert Render(ts) == [ts[0].c] + Render(ts[1..]);
  }

  lemma DropTwice<T>(s: seq<T>, n: nat)
    requires 0 < n <= |s|
    ensures s[1..][n - 1..] == s[n..]
  {
  }

  lemma {:induction false} SpellsAfter(ts: seq<Token>, n: nat, id: string)
    requires n <= |ts| && forall k: nat :: k < n ==> !SpelledAt(ts, k)
    ensures Spells(ts, id) <==> Spells(ts[n..], id)
    decreases n
  {
    if n == 0 {
      assert ts[0..] == ts;
    } else {
      SpellsLater(ts, id);
      forall k: nat | k < n - 1 ensures !SpelledAt(ts[1..], k) { SpelledLater(ts, k + 1); }
      SpellsAfter(ts[1..], n - 1, id);
      assert ts[1..][n - 1..] == ts[n..];
    }
  }

  // After a tag spelled at the front, the next one can only be spelled behind it.
  lemma SpellsBehind(ts: seq<Token>, id: string)
    requires Proper(ts) && SpelledAt(ts, 0)
    ensures Spells(ts, id) <==> id == SpelledId(ts, 0) || Spells(ts[44..], id)
  {
    SpellsLater(ts, id);
    forall k: nat | k < 43 ensures !SpelledAt(ts[1..], k) {
      NoneSpelledInside(ts, k + 1);
      SpelledLater(ts, k + 1);
    }
    SpellsAfter(ts[1..], 43, id);
    assert ts[1..][43..] == ts[44..];
  }

  // Scanning a rendered token sequence finds its own tags and the spelled ones, and no others.
  lemma {:induction false} ScanFinds(ts: seq<Token>, id: string)
    requires Proper(ts)
    ensures id in Ids(Tokens(Render(ts))) <==> id in Ids(ts) || Spells(ts, id)
    decreases |ts|
  {
    if ts == [] {
    } else if ts[0].Ch? && TagAt(Render(ts), 0) {
      TagAtFront(ts);
      ScanFinds(ts[44..], id);
      SpellsBehind(ts, id);
      IdsSkipPlain(ts, 44);
      ScanFrontId(ts);
    } else {
      ScanFinds(ts[1..], id);
      TokensOfPiece(ts[0], Render(ts[1..]));
      IdsCons(ts[0], Tokens(Render(ts[1..])));
      assert ts == [ts[0]] + ts[1..];
      IdsCons(ts[0], ts[1..]);
      SpellsLater(ts, id);
      if SpelledAt(ts, 0) { SpelledReads(ts); }
    }
  }

  lemma ScanFrontId(ts: seq<Token>)
    requires Proper(ts) && SpelledAt(ts, 0) && TagAt(Render(ts), 0) && Render(ts)[44..] == Render(ts[44..])
    ensures Ids(Tokens(Render(ts))) == [SpelledId(ts, 0)] + Ids(Tokens(Render(ts[44..])))
  {
    var r, rest := Render(ts), Render(ts[44..]);
    ScanFront(r, rest);
    IdsCons(Tag(r[7..43]), Tokens(rest));
    FrontIsSpelled(ts);
  }

  lemma FrontIsSpelled(ts: seq<Token>)
    requires SpelledAt(ts, 0)
    ensures 44 <= |Render(ts)| && Render(ts)[7..43] == SpelledId(ts, 0)
  {
    RenderPlain(ts, 44);
  }

  // Text is left alone by a strip exactly if nothing in it dangles.
  lemma StripLeavesIff(s: string, allow: set<string>)
    ensures Stripped(s, allow) == s <==> Dangling(Ids(Tokens(s)), allow) == []
  {
    RenderTokens(s);
    if Dangling(Ids(Tokens(s)), allow) == [] {
      NoDanglingKeepsAll(Tokens(s), allow);
    } else {
      DroppingShortens(Tokens(s), allow);
    }
  }

  lemma {:induction false} DroppingShortens(ts: seq<Token>, allow: set<string>)
    ensures DropsLength(ts, allow)
  {
    if ts != [] {
      DroppingShortens(ts[1..], allow);
      DropsMore(ts[0], ts[1..], allow);
      assert ts == [ts[0]] + ts[1..];
    }
  }

  ghost predicate DropsLength(ts: seq<Token>, allow: set<string>) {
    && |Render(Keep(ts, allow))| <= |Render(ts)|
    && (Dangling(Ids(ts), allow) != [] ==> |Render(Keep(ts, allow))| < |Render(ts)|)
  }

  lemma {:induction false} DropsMore(t: Token, rest: seq<Token>, allow: set<string>)
    requires DropsLength(rest, allow)
    ensures DropsLength([t] + rest, allow)
  {
    DanglesCons(t, rest, allow);
    KeepHead(t, rest, allow);
    RenderCons(t, rest);
    assert |Piece(t)| > 0;
  }

  lemma RenderCons(t: Token, rest: seq<Token>)
    ensures Render([t] + rest) == Piece(t) + Render(rest)
  {
    assert ([t] + rest)[1..] == rest;
  }

  lemma DanglesCons(t: Token, ts: seq<Token>, allow: set<string>)
    ensures Dangling(Ids([t] + ts), allow) ==
            if t.Tag? && t.id !in allow then [t.id] + Dangling(Ids(ts), allow) else Dangling(Ids(ts), allow)
  {
    IdsCons(t, ts);
    if t.Tag? { AllowedCons(t.id, Ids(ts), allow); }
  }

  // A second strip changes nothing, and nothing dangles after the first, if and only if every tag that
  // the remaining characters spell is an allowed one.
  lemma StripTwice(s: string, allow: set<string>)
    ensures Dangling(Ids(Tokens(Stripped(s, allow))), allow) == [] <==>
        forall id :: Spells(Keep(Tokens(s), allow), id) ==> id in allow
    ensures Stripped(Stripped(s, allow), allow) == Stripped(s, allow) <==>
        forall id :: Spells(Keep(Tokens(s), allow), id) ==> id in allow
  {
    var kept := Keep(Tokens(s), allow);
    var ids := Ids(Tokens(Stripped(s, allow)));
    RenderTokens(s);
    KeepIds(Tokens(s), allow);
    KeepProper(Tokens(s), allow);
    StripLeavesIff(Stripped(s, allow), allow);
    DanglingMembers(ids, allow);
    AllowedMembers(Ids(Tokens(s)), allow);
    forall id ensures id in ids <==> id in Ids(kept) || Spells(kept, id) { ScanFinds(kept, id); }
    if Dangling(ids, allow) != [] { assert Dangling(ids, allow)[0] in Dangling(ids, allow); }
  }

  lemma {:induction false} AllowedMembers(ids: seq<string>, allow: set<string>)
    ensures forall id :: id in Allowed(ids, allow) ==> id in allow
  {
    if ids != [] { AllowedMembers(ids[1..], allow); }
  }

  // It is enough that none is spelled.
  lemma NothingSpelled(s: string, allow: set<string>)
    requires !SpellsTag(Keep(Tokens(s), allow))
    ensures Stripped(Stripped(s, allow), allow) == Stripped(s, allow)
    ensures Dangling(Ids(Tokens(Stripped(s, allow))), allow) == []
  {
    StripTwice(s, allow);
  }

  // Enough for it: no bracket outside the tags.
  ghost predicate NoLooseBracket(s: string) {
    forall k :: 0 <= k < |Tokens(s)| ==> Tokens(s)[k] != Ch('[')
  }

  lemma {:induction false} KeepHasNoNewTokens(ts: seq<Token>, allow: set<string>, t: Token)
    requires t !in ts
    ensures t !in Keep(ts, allow)
  {
    if ts != [] { KeepHasNoNewTokens(ts[1..], allow, t); }
  }

  lemma SpelledStartsWithBracket(ts: seq<Token>, k: nat)
    requires SpelledAt(ts, k)
    ensures ts[k] == Ch('[')
  {
    TagCharacters(CharsAt(ts, k), 0);
    assert ts[k + 0] == Ch('[');
  }

  lemma NoBracketSpellsNothing(ts: seq<Token>)
    requires Ch('[') !in ts
    ensures !SpellsTag(ts)
  {
    forall k: nat ensures !SpelledAt(ts, k) {
      if SpelledAt(ts, k) { SpelledStartsWithBracket(ts, k); }
    }
  }

  lemma NoBracketStripsExactly(s: string, allow: set<string>)
    requires NoLooseBracket(s)
    ensures Ids(Tokens(Stripped(s, allow))) == Allowed(Ids(Tokens(s)), allow)
    ensures Stripped(Stripped(s, allow), allow) == Stripped(s, allow)
  {
    var kept := Keep(Tokens(s), allow);
    KeepHasNoNewTokens(Tokens(s), allow, Ch('['));
    NoBracketSpellsNothing(kept);
    StripExact(s, allow);
    StripTwice(s, allow);
  }

  // A tag alone goes or stays.
  lemma StripOfTag(b: string, allow: set<string>)
    requires IsUuid(b)
    ensures Stripped(TagText(b), allow) == if b in allow then TagText(b) else ""
  {
    TokensOfPiece(Tag(b), "");
    assert TagText(b) + "" == TagText(b) && Tokens("") == [];
    KeepCons(Tag(b), [], allow);
    assert [Tag(b)] + [] == [Tag(b)];
    assert Render([Tag(b)]) == TagText(b) + Render([]);
  }

  // Without the condition stripping can make a citation that was not there: the text reads
  // "[chunk:", then a dangling tag, then a UUID and "]". Only the dangling tag is parsed; the
  // stripped text is one whole tag, and a second strip takes it away too unless it is
  // allowed.
  lemma StrippingCanMakeATag(a: string, b: string, allow: set<string>)
    requires IsUuid(a) && IsUuid(b) && a !in allow
    ensures var s := OPENING + TagText(a) + b + "]";
            && Ids(Tokens(s)) == [a] && Stripped(s, allow) == TagText(b) && Ids(Tokens(Stripped(s, allow))) == [b]
            && Stripped(Stripped(s, allow), allow) == if b in allow then TagText(b) else ""
  {
    SplitTagScans(a, b + "]");
    KeepThree(OPENING, a, b + "]", allow);
    assert OPENING + TagText(a) + (b + "]") == OPENING + TagText(a) + b + "]";
    assert OPENING + (b + "]") == TagText(b);
    StripOfTag(b, allow);
    TagAlone(b);
  }

  // Text in which a tag stands between the opening and the rest of another one: only the tag is seen.
  lemma SplitTagScans(a: string, y: string)
    requires IsUuid(a) && |y| == 37
    ensures var ts := Chars(OPENING) + [Tag(a)] + Chars(y);
            Tokens(OPENING + TagText(a) + y) == ts && Ids(ts) == [a]
  {
    var ts := Chars(OPENING) + [Tag(a)] + Chars(y);
    RenderThree(OPENING, a, y);
    TagInTheMiddle(ts, a);
    ScanRendered(ts);
    IdsOfThree(OPENING, a, y);
  }

  lemma TagAlone(b: string)
    requires IsUuid(b)
    ensures Tokens(TagText(b)) == [Tag(b)] && Ids([Tag(b)]) == [b]
  {
    TokensOfPiece(Tag(b), "");
    assert TagText(b) + "" == TagText(b) && Tokens("") == [];
    assert Ids([Tag(b)]) == [b] + Ids([]);
  }

  lemma TagInTheMiddle(ts: seq<Token>, a: string)
    requires |ts| == 45 && ts[7] == Tag(a)
    ensures !SpellsTag(ts)
  {
    forall k: nat ensures !SpelledAt(ts, k) {
      assert k + 44 <= |ts| ==> k <= 7 < k + 44;
    }
  }

  lemma IdsOfThree(x: string, id: string, y: string)
    ensures Ids(Chars(x) + [Tag(id)] + Chars(y)) == [id]
  {
    IdsConcat(Chars(x) + [Tag(id)], Chars(y));
    IdsConcat(Chars(x), [Tag(id)]);
    IdsSkipPlain(Chars(x), |x|);
    IdsSkipPlain(Chars(y), |y|);
    assert Ids([Tag(id)]) == [id] + Ids([]);
  }

  lemma {:induction false} RenderChars(s: string)
    ensures Render(Chars(s)) == s && Proper(Chars(s))
  {
    if s != "" {
      RenderChars(s[1..]);
      assert Chars(s)[1..] == Chars(s[1..]);
    }
  }

  lemma {:induction false} RenderConcat(a: seq<Token>, b: seq<Token>)
    ensures Render(a + b) == Render(a) + Render(b)
  {
    if a == [] {
      assert a + b == b;
    } else {
      assert (a + b)[1..] == a[1..] + b;
      RenderConcat(a[1..], b);
    }
  }

  lemma RenderThree(x: string, id: string, y: string)
    requires IsUuid(id)
    ensures Render(Chars(x) + [Tag(id)] + Chars(y)) == x + TagText(id) + y
    ensures Proper(Chars(x) + [Tag(id)] + Chars(y))
  {
    RenderConcat(Chars(x) + [Tag(id)], Chars(y));
    RenderConcat(Chars(x), [Tag(id)]);
    RenderChars(x);
    RenderChars(y);
    assert Render([Tag(id)]) == TagText(id) + Render([]);
  }

  lemma KeepCons(t: Token, ts: seq<Token>, allow: set<string>)
    ensures Keep([t] + ts, allow) == (if t.Ch? || t.id in allow then [t] else []) + Keep(ts, allow)
  {
    assert ([t] + ts)[1..] == ts;
  }

  lemma {:induction false} KeepConcat(a: seq<Token>, b: seq<Token>, allow: set<string>)
    ensures Keep(a + b, allow) == Keep(a, allow) + Keep(b, allow)
  {
    if a == [] {
      assert a + b == b;
    } else {
      KeepConcat(a[1..], b, allow);
      assert a + b == [a[0]] + (a[1..] + b) && a == [a[0]] + a[1..];
      KeepCons(a[0], a[1..] + b, allow);
      KeepCons(a[0], a[1..], allow);
    }
  }

  lemma {:induction false} KeepPlain(ts: seq<Token>, allow: set<string>)
    requires forall k :: 0 <= k < |ts| ==> ts[k].Ch?
    ensures Keep(ts, allow) == ts
  {
    if ts != [] { KeepPlain(ts[1..], allow); }
  }

  lemma KeepThree(x: string, id: string, y: string, allow: set<string>)
    requires id !in allow
    ensures Keep(Chars(x) + [Tag(id)] + Chars(y), allow) == Chars(x) + Chars(y)
    ensures Render(Chars(x) + Chars(y)) == x + y
  {
    KeepAround(Chars(x), Tag(id), Chars(y), allow);
    RenderConcat(Chars(x), Chars(y));
    RenderChars(x);
    RenderChars(y);
  }

  lemma KeepAround(a: seq<Token>, t: Token, b: seq<Token>, allow: set<string>)
    requires t.Tag? && t.id !in allow
    requires (forall k :: 0 <= k < |a| ==> a[k].Ch?) && forall k :: 0 <= k < |b| ==> b[k].Ch?
    ensures Keep(a + [t] + b, allow) == a + b
  {
    KeepConcat(a + [t], b, allow);
    KeepConcat(a, [t], allow);
    KeepPlain(a, allow);
    KeepPlain(b, allow);
    KeepOne(t, allow);
    assert a + [] == a;
  }

  lemma KeepOne(t: Token, allow: set<string>)
    requires t.Tag? && t.id !in allow
    ensures Keep([t], allow) == []
  {
    assert Keep([t], allow) == [] + Keep([t][1..], allow);
  }

  // ----- The two loops of strip_dangling -----

  lemma {:induction false} NoDanglingKeepsAll(ts: seq<Token>, allow: set<string>)
    requires Dangling(Ids(ts), allow) == []
    ensures Keep(ts, allow) == ts
  {
    if ts != [] {
      if ts[0].Tag? { assert Ids(ts)[1..] == Ids(ts[1..]); }
      else { assert Ids(ts) == Ids(ts[1..]); }
      NoDanglingKeepsAll(ts[1..], allow);
      assert [ts[0]] + ts[1..] == ts;
    }
  }

  lemma {:induction false} DanglingMembers(ids: seq<string>, allow: set<string>)
    ensures forall id :: id in Dangling(ids, allow) <==> id in ids && id !in allow
  {
    if ids != [] { DanglingMembers(ids[1..], allow); }
  }

  // What is left of the text from position i on.
  function StrippedFrom(s: string, i: nat, allow: set<string>): string
    requires i <= |s|
  {
    Render(Keep(TokensFrom(s, i), allow))
  }

  lemma KeepHead(t: Token, rest: seq<Token>, allow: set<string>)
    ensures Render(Keep([t] + rest, allow)) ==
            (if t.Tag? && t.id !in allow then "" else Piece(t)) + Render(Keep(rest, allow))
  {
    var k := Keep(rest, allow);
    assert ([t] + rest)[1..] == rest;
    if t.Ch? || t.id in allow {
      assert ([t] + k)[1..] == k;
    } else {
      assert Keep([t] + rest, allow) == k;
    }
  }

  lemma CopyOne(s: string, i: nat, allow: set<string>)
    requires i < |s| && !TagAt(s, i)
    ensures StrippedFrom(s, i, allow) == [s[i]] + StrippedFrom(s, i + 1, allow)
  {
    KeepHead(Ch(s[i]), TokensFrom(s, i + 1), allow);
  }

  // Up to the next match the text is copied unchanged.
  lemma {:induction false} CopyPlain(s: string, i: nat, p: nat, allow: set<string>)
    requires i <= p <= |s| && forall q :: i <= q < p ==> !TagAt(s, q)
    ensures StrippedFrom(s, i, allow) == s[i..p] + StrippedFrom(s, p, allow)
    decreases p - i
  {
    if i < p {
      CopyPlain(s, i + 1, p, allow);
      CopyOne(s, i, allow);
      OneBefore(s, i, p, StrippedFrom(s, p, allow));
    }
  }

  lemma OneBefore(s: string, i: nat, p: nat, rest: string)
    requires i < p <= |s|
    ensures [s[i]] + (s[i + 1..p] + rest) == s[i..p] + rest
  {
    assert s[i..p] == [s[i]] + s[i + 1..p];
    Assoc([s[i]], s[i + 1..p], rest);
  }

  lemma CopyTag(s: string, p: nat, allow: set<string>)
    requires TagAt(s, p)
    ensures StrippedFrom(s, p, allow) ==
            (if s[p + 7..p + 43] in allow then s[p..p + 44] else "") + StrippedFrom(s, p + 44, allow)
  {
    TagIsItsText(s, p);
    KeepHead(Tag(s[p + 7..p + 43]), TokensFrom(s, p + 44), allow);
  }

  // One match: the text before it is copied, the tag only if its chunk is allowed.
  lemma CopyStep(s: string, i: nat, c: CitationSpan, allow: set<string>, done: string)
    requires i <= c.start && SpanOf(s, c) && forall q :: i <= q < c.start ==> !TagAt(s, q)
    ensures done + StrippedFrom(s, i, allow) ==
            (done + s[i..c.start] + if c.chunkId in allow then s[c.start..c.end] else "")
            + StrippedFrom(s, c.end, allow)
  {
    CopyPlain(s, i, c.start, allow);
    CopyTag(s, c.start, allow);
    var tag := if c.chunkId in allow then s[c.start..c.end] else "";
    var rest := StrippedFrom(s, c.end, allow);
    Assoc(done, s[i..c.start], tag + rest);
    Assoc(done + s[i..c.start], tag, rest);
  }

  // Where the scan from i finds its first match, and how it goes on.
  lemma {:induction false} FirstSpan(s: string, i: nat)
    requires i <= |s|
    ensures SpansFrom(s, i) == [] ==> forall q :: i <= q < |s| ==> !TagAt(s, q)
    ensures SpansFrom(s, i) != [] ==>
      var c := SpansFrom(s, i)[0];
      && i <= c.start && SpanOf(s, c) && SpansFrom(s, i)[1..] == SpansFrom(s, c.end)
      && forall q :: i <= q < c.start ==> !TagAt(s, q)
    decreases |s| - i
  {
    if i < |s| && !TagAt(s, i) { FirstSpan(s, i + 1); }
  }

  // ----- What a strip leaves, character by character -----

  ghost predicate InDangling(s: string, k: nat, allow: set<string>) {
    exists p: nat :: p <= k < p + 44 && TagAt(s, p) && s[p + 7..p + 43] !in allow
  }

  // The characters from i on that stand in no dangling tag.
  ghost function Outside(s: string, i: nat, allow: set<string>): string
    requires i <= |s|
    decreases |s| - i
  {
    if i == |s| then "" else (if InDangling(s, i, allow) then "" else [s[i]]) + Outside(s, i + 1, allow)
  }

  lemma {:induction false} OutsideRun(s: string, i: nat, j: nat, allow: set<string>, inside: bool)
    requires i <= j <= |s| && forall k :: i <= k < j ==> InDangling(s, k, allow) == inside
    ensures Outside(s, i, allow) == (if inside then "" else s[i..j]) + Outside(s, j, allow)
    decreases j - i
  {
    if i < j {
      OutsideRun(s, i + 1, j, allow, inside);
      OutsideStep(s, i, allow);
      if !inside { OneBefore(s, i, j, Outside(s, j, allow)); }
    }
  }

  lemma OutsideStep(s: string, i: nat, allow: set<string>)
    requires i < |s|
    ensures Outside(s, i, allow) ==
            if InDangling(s, i, allow) then Outside(s, i + 1, allow) else [s[i]] + Outside(s, i + 1, allow)
  {
  }

  // No tag reaches across position i.
  ghost predicate Between(s: string, i: nat) {
    forall p: nat :: p < i && TagAt(s, p) ==> p + 44 <= i
  }

  lemma OwnTagOnly(s: string, i: nat, k: nat, allow: set<string>)
    requires TagAt(s, i) && i <= k < i + 44
    ensures InDangling(s, k, allow) <==> s[i + 7..i + 43] !in allow
  {
    forall p: nat | p <= k < p + 44 && TagAt(s, p) ensures p == i {
      if p < i { TagsDisjoint(s, p, i); }
      if i < p { TagsDisjoint(s, i, p); }
    }
  }

  lemma {:induction false} StripIsOutside(s: string, i: nat, allow: set<string>)
    requires i <= |s| && Between(s, i)
    ensures StrippedFrom(s, i, allow) == Outside(s, i, allow)
    decreases |s| - i
  {
    if i == |s| {
    } else if TagAt(s, i) {
      BetweenAfter(s, i);
      StripIsOutside(s, i + 44, allow);
      CopyTag(s, i, allow);
      OutsideTag(s, i, allow);
    } else {
      StripIsOutside(s, i + 1, allow);
      CopyOne(s, i, allow);
      assert !InDangling(s, i, allow);
    }
  }

  lemma BetweenAfter(s: string, i: nat)
    requires TagAt(s, i)
    ensures Between(s, i + 44)
  {
    forall p: nat | p < i + 44 && TagAt(s, p) ensures p + 44 <= i + 44 {
      if i < p { TagsDisjoint(s, i, p); }
    }
  }

  lemma {:induction false} OutsideTag(s: string, i: nat, allow: set<string>)
    requires TagAt(s, i)
    ensures Outside(s, i, allow) ==
            (if s[i + 7..i + 43] in allow then s[i..i + 44] else "") + Outside(s, i + 44, allow)
  {
    forall k | i <= k < i + 44 ensures InDangling(s, k, allow) == (s[i + 7..i + 43] !in allow) {
      OwnTagOnly(s, i, k, allow);
    }
    OutsideRun(s, i, i + 44, allow, s[i + 7..i + 43] !in allow);
  }

  // What is left of a text is exactly its characters that stand in no dangling tag, in order.
  lemma StripKeepsTheRest(s: string, allow: set<string>)
    ensures Stripped(s, allow) == Outside(s, 0, allow)
  {
    StripIsOutside(s, 0, allow);
  }

  function Dangles(s: string, allow: set<string>): nat -> bool {
    (p: nat) => TagAt(s, p) && s[p + 7..p + 43] !in allow
  }

  // The positions from i on where something holds, in order.
  ghost predicate Lists(at: seq<nat>, i: nat, holds: nat -> bool) {
    && (forall k :: 0 <= k < |at| ==> i <= at[k] && holds(at[k]))
    && (forall k, l :: 0 <= k < l < |at| ==> at[k] < at[l])
    && forall p: nat :: i <= p && holds(p) ==> p in at
  }

  lemma {:induction false} ListsNext(at: seq<nat>, i: nat, next: nat, holds: nat -> bool)
    requires i < next && Lists(at, next, holds) && forall p: nat :: i < p < next ==> !holds(p)
    ensures Lists(if holds(i) then [i] + at else at, i, holds)
  {
    if holds(i) {
      Ascending(i, at);
      forall p: nat | i <= p && holds(p) ensures p in [i] + at { InCons(i, at, p); }
    }
  }

  lemma InCons(i: nat, at: seq<nat>, p: nat)
    ensures p in [i] + at <==> p == i || p in at
  {
  }

  lemma Ascending(i: nat, at: seq<nat>)
    requires (forall k :: 0 <= k < |at| ==> i < at[k]) && forall k, l :: 0 <= k < l < |at| ==> at[k] < at[l]
    ensures forall k, l :: 0 <= k < l < |[i] + at| ==> ([i] + at)[k] < ([i] + at)[l]
    ensures forall k :: 0 <= k < |[i] + at| ==> ([i] + at)[k] == if k == 0 then i else at[k - 1]
  {
  }

  // The ids of the tags at these positions.
  ghost predicate Names(s: string, dangling: seq<string>, at: seq<nat>) {
    |at| == |dangling| && forall k :: 0 <= k < |at| ==> at[k] + 44 <= |s| && dangling[k] == s[at[k] + 7..at[k] + 43]
  }

  // The positions are those of the dangling tags from i on, and these are their ids.
  ghost predicate ListedFrom(s: string, i: nat, allow: set<string>, dangling: seq<string>, at: seq<nat>) {
    Lists(at, i, Dangles(s, allow)) && Names(s, dangling, at)
  }

  lemma {:induction false} DanglingFrom(s: string, i: nat, allow: set<string>) returns (at: seq<nat>)
    requires i <= |s|
    ensures ListedFrom(s, i, allow, Dangling(Ids(TokensFrom(s, i)), allow), at)
    decreases |s| - i
  {
    if i == |s| {
      at := [];
    } else {
      var next := NextFrom(s, i);
      var rest := DanglingFrom(s, next, allow);
      DanglingStep(s, i, allow);
      NoneSkipped(s, i, allow);
      at := if Dangles(s, allow)(i) then [i] + rest else rest;
      ListedNext(s, i, next, allow, Dangling(Ids(TokensFrom(s, next)), allow), rest);
    }
  }

  lemma DanglingStep(s: string, i: nat, allow: set<string>)
    requires i < |s|
    ensures var rest := Dangling(Ids(TokensFrom(s, NextFrom(s, i))), allow);
            Dangling(Ids(TokensFrom(s, i)), allow) == if Dangles(s, allow)(i) then [s[i + 7..i + 43]] + rest else rest
  {
    TokensStep(s, i);
    DanglesCons(Read(s, i), TokensFrom(s, NextFrom(s, i)), allow);
  }

  lemma {:induction false} ListedNext(s: string, i: nat, next: nat, allow: set<string>, dangling: seq<string>,
                                      at: seq<nat>)
    requires i < next && ListedFrom(s, next, allow, dangling, at)
    requires forall p: nat :: i < p < next ==> !Dangles(s, allow)(p)
    ensures if Dangles(s, allow)(i) then ListedFrom(s, i, allow, [s[i + 7..i + 43]] + dangling, [i] + at)
            else ListedFrom(s, i, allow, dangling, at)
  {
    ListsNext(at, i, next, Dangles(s, allow));
    if Dangles(s, allow)(i) { NamesCons(s, i, dangling, at); }
  }

  lemma NamesCons(s: string, i: nat, dangling: seq<string>, at: seq<nat>)
    requires Names(s, dangling, at) && i + 44 <= |s|
    ensures Names(s, [s[i + 7..i + 43]] + dangling, [i] + at)
  {
  }

  lemma NoneSkipped(s: string, i: nat, allow: set<string>)
    requires i < |s|
    ensures forall p: nat :: i < p < NextFrom(s, i) ==> !Dangles(s, allow)(p)
  {
    forall p: nat | i < p < NextFrom(s, i) ensures !TagAt(s, p) {
      if TagAt(s, p) && TagAt(s, i) { TagsDisjoint(s, i, p); }
    }
  }

  // The dangling ids are those of the dangling tags, each as often as it stands there, in order.
  lemma DanglingIsListed(s: string, allow: set<string>) returns (at: seq<nat>)
    ensures ListedFrom(s, 0, allow, Dangling(Ids(Tokens(s)), allow), at)
  {
    at := DanglingFrom(s, 0, allow);
  }

  // The ids not in the allowlist, in order of appearance.
  method CollectDangling(spans: seq<CitationSpan>, ghost ids: seq<string>, allowlist: set<string>)
    returns (dangling: seq<string>)
    requires |ids| == |spans| && forall k :: 0 <= k < |spans| ==> ids[k] == spans[k].chunkId
    ensures dangling == Dangling(ids, allowlist)
  {
    dangling := [];
    for k := 0 to |spans|
      invariant dangling + Dangling(ids[k..], allowlist) == Dangling(ids, allowlist)
    {
      assert ids[k..][1..] == ids[k + 1..];
      if spans[k].chunkId !in allowlist {
        dangling := dangling + [spans[k].chunkId];
      }
    }
  }

  method StripDangling(text: string, allowlist: set<string>) returns (cleaned: string, dangling: seq<string>)
    ensures cleaned == Stripped(text, allowlist)
    ensures dangling == Dangling(Ids(Tokens(text)), allowlist)
  {
    var spans := ParseCitations(text);
    ghost var ids := Ids(Tokens(text));
    IdsOfSpans(text, 0);
    dangling := CollectDangling(spans, ids, allowlist);
    if dangling == [] {
      NoDanglingKeepsAll(Tokens(text), allowlist);
      RenderTokens(text);
      return text, [];
    }
    DanglingMembers(ids, allowlist);
    cleaned := "";
    var cursor: nat := 0;
    for k := 0 to |spans|
      invariant cursor <= |text| && spans[k..] == SpansFrom(text, cursor)
      invariant cleaned + StrippedFrom(text, cursor, allowlist) == Stripped(text, allowlist)
    {
      FirstSpan(text, cursor);
      var c := spans[k];
      assert spans[k..][0] == c && spans[k..][1..] == spans[k + 1..];
      CopyStep(text, cursor, c, allowlist, cleaned);
      assert ids[k] == c.chunkId;
      cleaned := cleaned + text[cursor..c.start] + if c.chunkId in dangling then "" else text[c.start..c.end];
      cursor := c.end;
    }
    FirstSpan(text, cursor);
    CopyPlain(text, cursor, |text|, allowlist);
    cleaned := cleaned + text[cursor..];
  }
}
