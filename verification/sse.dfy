// Framing of server-sent events, as in app/api/sse.py, and the interpretation of an event stream by
// sections 9.2.5 and 9.2.6 of the HTML Living Standard.
module Sse {
  import opened Common
  import opened Text

  datatype Frame = Frame(num: Option<nat>, event: Option<string>, data: string)

  // ----- Line breaks -----

  // Python's splitlines knows more line breaks than an event stream does.
  predicate IsPyBreak(c: char) {
    || c == '\n' || c == '\r' || c == '\U{0B}' || c == '\U{0C}' || c == '\U{1C}' || c == '\U{1D}' || c == '\U{1E}'
    || c == '\U{85}' || c == '\U{2028}' || c == '\U{2029}'
  }

  predicate IsStreamBreak(c: char) {
    c == '\n' || c == '\r'
  }

  predicate OneLine(s: string) {
    forall k :: 0 <= k < |s| ==> !IsStreamBreak(s[k])
  }

  predicate Plain(s: string) {
    forall k :: 0 <= k < |s| ==> !IsPyBreak(s[k]) || s[k] == '\n'
  }

  // The first line break at or after i, or the end.
  function LineEnd(s: string, i: nat, isBreak: char -> bool): (e: nat)
    requires i <= |s|
    ensures i <= e <= |s|
    ensures forall k :: i <= k < e ==> !isBreak(s[k])
    ensures e < |s| ==> isBreak(s[e])
    decreases |s| - i
  {
    if i == |s| || isBreak(s[i]) then i else LineEnd(s, i + 1, isBreak)
  }

  // A carriage return and the newline after it are one break.
  function AfterBreak(s: string, e: nat): (next: nat)
    requires e < |s|
    ensures e < next <= |s|
  {
    if s[e] == '\r' && e + 1 < |s| && s[e + 1] == '\n' then e + 2 else e + 1
  }

  // ----- Formatting -----

  // str.splitlines: a last line is kept only if it is not empty.
  function SplitLinesFrom(s: string, i: nat): seq<string>
    requires i <= |s|
    decreases |s| - i
  {
    if i == |s| then []
    else
      var e := LineEnd(s, i, IsPyBreak);
      [s[i..e]] + if e == |s| then [] else SplitLinesFrom(s, AfterBreak(s, e))
  }

  function DataLines(data: string): seq<string> {
    var lines := SplitLinesFrom(data, 0);
    if lines == [] then [""] else lines
  }

  function Digits(n: nat): (d: string) {
    if n < 10 then [DigitChar(n)] else Digits(n / 10) + [DigitChar(n % 10)]
  }

  function DigitChar(d: nat): (c: char)
    requires d < 10
    ensures IsDigit(c) && DigitOf(c) == d
  {
    '0' + d as char
  }

  predicate IsDigit(c: char) {
    '0' <= c <= '9'
  }

  function DigitOf(c: char): nat
    requires IsDigit(c)
  {
    (c - '0') as nat
  }

  function Prefixed(prefix: string, lines: seq<string>): (r: seq<string>)
    ensures |r| == |lines| && forall k :: 0 <= k < |r| ==> r[k] == prefix + lines[k]
  {
    if lines == [] then [] else [prefix + lines[0]] + Prefixed(prefix, lines[1..])
  }

  predicate IsKeepalive(f: Frame) {
    f.event == None && f.num == None && f.data == ""
  }

  function HeadLines(f: Frame): seq<string> {
    (if f.num.Some? then ["id: " + Digits(f.num.value)] else [])
    + (if f.event.Some? then ["event: " + f.event.value] else [])
  }

  function FrameLines(f: Frame): seq<string> {
    HeadLines(f) + Prefixed("data: ", DataLines(f.data))
  }

  function Formatted(f: Frame): string {
    if IsKeepalive(f) then ": keepalive\n\n" else Join(FrameLines(f) + ["", ""], "\n")
  }

  // Only a frame with nothing in it is a keepalive; any other one begins with a field.
  lemma KeepaliveIff(f: Frame)
    ensures Formatted(f) == ": keepalive\n\n" <==> f.event.None? && f.num.None? && f.data == ""
  {
    if f.event.Some? || f.num.Some? || f.data != "" {
      var lines := FrameLines(f) + ["", ""];
      assert lines[0] == FrameLines(f)[0];
      assert Formatted(f)[0] == lines[0][0];
      assert ": keepalive\n\n"[0] == ':';
    }
  }

  method DataFields(dataLines: seq<string>) returns (lines: seq<string>)
    ensures lines == Prefixed("data: ", dataLines)
  {
    lines := [];
    for k := 0 to |dataLines|
      invariant |lines| == k && forall j :: 0 <= j < k ==> lines[j] == "data: " + dataLines[j]
    {
      lines := lines + ["data: " + dataLines[k]];
    }
  }

  method Format(f: Frame) returns (text: string)
    ensures text == Formatted(f)
  {
    if IsKeepalive(f) {
      return ": keepalive\n\n";
    }
    var lines: seq<string> := [];
    if f.num.Some? { lines := lines + ["id: " + Digits(f.num.value)]; }
    if f.event.Some? { lines := lines + ["event: " + f.event.value]; }
    var data := DataFields(DataLines(f.data));
    assert lines == HeadLines(f);
    text := Join(lines + data + ["", ""], "\n");
  }

  // ----- Interpreting a stream -----

  datatype Message = Message(kind: string, data: string, lastEventId: string)

  // The buffers of section 9.2.6, and what was dispatched so far.
  datatype Client = Client(data: string, kind: string, idBuffer: string, lastEventId: string, messages: seq<Message>)

  // A connection is opened with the last event id of the client and an empty buffer for the next one;
  // some clients put the id they have into that buffer instead.
  function Opened(id: string, keeps: bool): Client {
    Client("", "", if keeps then id else "", id, [])
  }

  const FRESH := Opened("", false)

  const BOM: char := '\U{FEFF}'

  // The lines that end in a line break; what follows the last break is never a whole event.
  function StreamLinesFrom(s: string, i: nat): seq<string>
    requires i <= |s|
    decreases |s| - i
  {
    var e := LineEnd(s, i, IsStreamBreak);
    if e == |s| then [] else [s[i..e]] + StreamLinesFrom(s, AfterBreak(s, e))
  }

  function StreamLines(s: string): seq<string> {
    if s != "" && s[0] == BOM then StreamLinesFrom(s, 1) else StreamLinesFrom(s, 0)
  }

  function Colon(line: string, i: nat): (c: nat)
    requires i <= |line|
    ensures i <= c <= |line|
    ensures forall k :: i <= k < c ==> line[k] != ':'
    ensures c < |line| ==> line[c] == ':'
    decreases |line| - i
  {
    if i == |line| || line[i] == ':' then i else Colon(line, i + 1)
  }

  function FieldOf(line: string): string {
    line[..Colon(line, 0)]
  }

  function ValueOf(line: string): string {
    var c := Colon(line, 0);
    if c == |line| then ""
    else if c + 1 < |line| && line[c + 1] == ' ' then line[c + 2..]
    else line[c + 1..]
  }

  function Dispatch(c: Client): Client {
    if c.data == "" then c.(kind := "", lastEventId := c.idBuffer)
    else Client("", "", c.idBuffer, c.idBuffer,
                c.messages + [Message(if c.kind == "" then "message" else c.kind,
                                      if c.data[|c.data| - 1] == '\n' then c.data[..|c.data| - 1] else c.data,
                                      c.idBuffer)])
  }

  function Feed(c: Client, line: string): Client {
    if line == "" then Dispatch(c)
    else if line[0] == ':' then c
    else
      var field, value := FieldOf(line), ValueOf(line);
      if field == "event" then c.(kind := value)
      else if field == "data" then c.(data := c.data + value + "\n")
      else if field == "id" && '\0' !in value then c.(idBuffer := value)
      else c
  }

  function FeedAll(c: Client, lines: seq<string>): Client
    decreases |lines|
  {
    if lines == [] then c else FeedAll(Feed(c, lines[0]), lines[1..])
  }

  function Hear(c: Client, text: string): Client {
    FeedAll(c, StreamLines(text))
  }

  function Interpret(text: string): Client {
    Hear(FRESH, text)
  }

  lemma {:induction false} FeedAllConcat(c: Client, a: seq<string>, b: seq<string>)
    ensures FeedAll(c, a + b) == FeedAll(FeedAll(c, a), b)
    decreases |a|
  {
    if a == [] {
      assert a + b == b;
    } else {
      assert (a + b)[1..] == a[1..] + b;
      FeedAllConcat(Feed(c, a[0]), a[1..], b);
    }
  }

  // ----- Lines out, lines in -----

  function Unlines(lines: seq<string>): string {
    if lines == [] then "" else lines[0] + "\n" + Unlines(lines[1..])
  }

  lemma {:induction false} UnlinesConcat(a: seq<string>, b: seq<string>)
    ensures Unlines(a + b) == Unlines(a) + Unlines(b)
  {
    if a == [] {
      assert a + b == b;
    } else {
      assert (a + b)[1..] == a[1..] + b;
      UnlinesConcat(a[1..], b);
      Assoc(a[0] + "\n", Unlines(a[1..]), Unlines(b));
    }
  }

  lemma {:induction false} JoinIsUnlines(lines: seq<string>)
    ensures Join(lines + ["", ""], "\n") == Unlines(lines + [""])
  {
    if lines == [] {
      assert lines + ["", ""] == ["", ""] && lines + [""] == [""];
      assert ["", ""][1..] == [""];
      assert Unlines([""]) == "" + "\n" + Unlines([""][1..]);
    } else {
      assert (lines + ["", ""])[1..] == lines[1..] + ["", ""];
      assert (lines + [""])[1..] == lines[1..] + [""];
      JoinIsUnlines(lines[1..]);
    }
  }

  lemma LineStands(s: string, i: nat, line: string, rest: string)
    requires i <= |s| && s[i..] == line + "\n" + rest
    ensures i + |line| < |s| && s[i..i + |line|] == line
    ensures s[i + |line|] == '\n' && s[i + |line| + 1..] == rest
  {
    var tail := s[i..];
    assert |tail| == |line| + 1 + |rest|;
    assert s[i..i + |line|] == tail[..|line|];
    assert s[i + |line|] == tail[|line|];
    assert s[i + |line| + 1..] == tail[|line| + 1..];
  }

  lemma {:induction false} LineEndsHere(s: string, i: nat, line: string)
    requires OneLine(line) && i + |line| < |s| && s[i..i + |line|] == line && s[i + |line|] == '\n'
    ensures ScansTo(s, i, [line], i + |line| + 1)
  {
    forall k | i <= k < i + |line| ensures !IsStreamBreak(s[k]) {
      assert s[k] == s[i..i + |line|][k - i];
    }
    assert LineEnd(s, i, IsStreamBreak) == i + |line|;
  }

  predicate AllOneLine(lines: seq<string>) {
    lines == [] || (OneLine(lines[0]) && AllOneLine(lines[1..]))
  }

  lemma {:induction false} AllOneLineMeans(lines: seq<string>)
    ensures AllOneLine(lines) <==> forall k :: 0 <= k < |lines| ==> OneLine(lines[k])
  {
    if lines != [] { AllOneLineMeans(lines[1..]); }
  }

  // ----- One frame -----

  function Block(f: Frame): seq<string> {
    if IsKeepalive(f) then [": keepalive", ""] else FrameLines(f) + [""]
  }

  lemma FormattedIsBlock(f: Frame)
    ensures Formatted(f) == Unlines(Block(f))
  {
    if IsKeepalive(f) {
      assert Unlines([": keepalive", ""]) == ": keepalive" + "\n" + Unlines([""]);
      assert Unlines([""]) == "" + "\n" + Unlines([]);
    } else {
      JoinIsUnlines(FrameLines(f));
    }
  }

  lemma {:induction false} DigitsAreDigits(n: nat)
    ensures Digits(n) != "" && forall k :: 0 <= k < |Digits(n)| ==> IsDigit(Digits(n)[k])
  {
    if n >= 10 { DigitsAreDigits(n / 10); }
  }

  lemma {:induction false} SplitLinesAreOneLine(s: string, i: nat)
    requires i <= |s|
    ensures forall k :: 0 <= k < |SplitLinesFrom(s, i)| ==>
      forall j :: 0 <= j < |SplitLinesFrom(s, i)[k]| ==> !IsPyBreak(SplitLinesFrom(s, i)[k][j])
    decreases |s| - i
  {
    if i < |s| {
      var e := LineEnd(s, i, IsPyBreak);
      if e < |s| { SplitLinesAreOneLine(s, AfterBreak(s, e)); }
    }
  }

  lemma FieldLine(field: string, value: string)
    requires field in {"id", "event", "data"}
    ensures FieldOf(field + ": " + value) == field && ValueOf(field + ": " + value) == value
  {
    var line := field + ": " + value;
    assert line[|field|] == ':' && line[|field| + 1] == ' ';
    assert Colon(line, 0) == |field|;
    assert line[..|field|] == field && line[|field| + 2..] == value;
  }

  lemma {:induction false} BlockIsOneLiners(f: Frame)
    requires f.event.Some? ==> OneLine(f.event.value)
    ensures forall k :: 0 <= k < |Block(f)| ==> OneLine(Block(f)[k])
  {
    if !IsKeepalive(f) {
      HeadIsOneLiners(f);
      SplitLinesAreOneLine(f.data, 0);
      DataIsOneLiners(DataLines(f.data));
      var head, data := HeadLines(f), Prefixed("data: ", DataLines(f.data));
      forall k | 0 <= k < |Block(f)| ensures OneLine(Block(f)[k]) {
        if k < |head| { assert Block(f)[k] == head[k]; }
        else if k < |head| + |data| { assert Block(f)[k] == data[k - |head|]; }
      }
    }
  }

  lemma HeadIsOneLiners(f: Frame)
    requires f.event.Some? ==> OneLine(f.event.value)
    ensures forall k :: 0 <= k < |HeadLines(f)| ==> OneLine(HeadLines(f)[k])
  {
    if f.num.Some? {
      DigitsAreDigits(f.num.value);
      assert OneLine("id: " + Digits(f.num.value));
    }
    if f.event.Some? { assert OneLine("event: " + f.event.value); }
  }

  lemma DataIsOneLiners(lines: seq<string>)
    requires forall k :: 0 <= k < |lines| ==> forall j :: 0 <= j < |lines[k]| ==> !IsPyBreak(lines[k][j])
    ensures forall k :: 0 <= k < |lines| ==> OneLine(Prefixed("data: ", lines)[k])
  {
  }

  // What a client hears of the data: its lines, joined by newlines.
  function Heard(data: string): string {
    Join(DataLines(data), "\n")
  }

  function KindOf(f: Frame): string {
    if f.event.Some? then f.event.value else "message"
  }

  predicate Idle(c: Client) {
    c.data == "" && c.kind == ""
  }

  lemma {:induction false} FeedData(c: Client, lines: seq<string>)
    requires lines != []
    ensures FeedAll(c, Prefixed("data: ", lines)) == c.(data := c.data + Join(lines, "\n") + "\n")
    decreases |lines|
  {
    FieldLine("data", lines[0]);
    var fields := Prefixed("data: ", lines);
    assert fields[0] == "data" + ": " + lines[0];
    var c' := Feed(c, fields[0]);
    assert c' == c.(data := c.data + lines[0] + "\n");
    assert fields[1..] == Prefixed("data: ", lines[1..]);
    if |lines| > 1 {
      FeedData(c', lines[1..]);
      Assoc(c.data, lines[0] + "\n", Join(lines[1..], "\n"));
      Assoc(c.data, lines[0], "\n");
    }
  }

  lemma FeedHead(c: Client, f: Frame)
    ensures FeedAll(c, HeadLines(f)) ==
            c.(idBuffer := if f.num.Some? then Digits(f.num.value) else c.idBuffer,
               kind := if f.event.Some? then f.event.value else c.kind)
  {
    var ids := if f.num.Some? then ["id: " + Digits(f.num.value)] else [];
    var events := if f.event.Some? then ["event: " + f.event.value] else [];
    FeedAllConcat(c, ids, events);
    if f.num.Some? {
      DigitsAreDigits(f.num.value);
      FieldLine("id", Digits(f.num.value));
      assert ids[0] == "id" + ": " + Digits(f.num.value);
    }
    if f.event.Some? {
      FieldLine("event", f.event.value);
      assert events[0] == "event" + ": " + f.event.value;
    }
  }

  function IdAfter(f: Frame, id: string): string {
    if f.num.Some? then Digits(f.num.value) else id
  }

  // One frame makes a client dispatch one message, whatever the data is. A keepalive makes none, but its
  // blank line too sets the last event id to the buffer.
  lemma FeedFrame(c: Client, f: Frame)
    requires Idle(c)
    ensures FeedAll(c, Block(f)) ==
            var id := IdAfter(f, c.idBuffer);
            if IsKeepalive(f) then c.(lastEventId := c.idBuffer)
            else Client("", "", id, id,
                        c.messages + [Message(if KindOf(f) == "" then "message" else KindOf(f), Heard(f.data), id)])
  {
    if IsKeepalive(f) {
      assert FeedAll(c, [": keepalive", ""]) == FeedAll(Feed(c, ": keepalive"), [""]);
      assert FeedAll(c, [""]) == FeedAll(Feed(c, ""), []);
    } else {
      FeedAllConcat(c, FrameLines(f), [""]);
      FeedAllConcat(c, HeadLines(f), Prefixed("data: ", DataLines(f.data)));
      FeedHead(c, f);
      var c1 := FeedAll(c, HeadLines(f));
      FeedData(c1, DataLines(f.data));
      var c2 := FeedAll(c1, Prefixed("data: ", DataLines(f.data)));
      assert c2.data == "" + Heard(f.data) + "\n";
      assert c2.data[..|c2.data| - 1] == Heard(f.data);
      assert FeedAll(c2, [""]) == FeedAll(Feed(c2, ""), []);
    }
  }

  // ----- A whole stream -----

  function StreamText(frames: seq<Frame>): string {
    if frames == [] then "" else Formatted(frames[0]) + StreamText(frames[1..])
  }

  function Blocks(frames: seq<Frame>): seq<string> {
    if frames == [] then [] else Block(frames[0]) + Blocks(frames[1..])
  }

  lemma {:induction false} StreamIsBlocks(frames: seq<Frame>)
    ensures StreamText(frames) == Unlines(Blocks(frames))
  {
    if frames != [] {
      StreamIsBlocks(frames[1..]);
      FormattedIsBlock(frames[0]);
      UnlinesConcat(Block(frames[0]), Blocks(frames[1..]));
    }
  }

  predicate NamesFit(frames: seq<Frame>) {
    forall k :: 0 <= k < |frames| ==> frames[k].event.Some? ==> OneLine(frames[k].event.value)
  }

  lemma {:induction false} BlocksAreOneLiners(frames: seq<Frame>)
    requires NamesFit(frames)
    ensures forall k :: 0 <= k < |Blocks(frames)| ==> OneLine(Blocks(frames)[k])
  {
    if frames != [] {
      BlockIsOneLiners(frames[0]);
      BlocksAreOneLiners(frames[1..]);
    }
  }

  lemma NoBom(frames: seq<Frame>)
    ensures StreamText(frames) != "" ==> StreamText(frames)[0] != BOM
  {
    if frames != [] {
      FormattedIsBlock(frames[0]);
      if !IsKeepalive(frames[0]) {
        var lines := FrameLines(frames[0]) + [""];
        assert lines[0] == FrameLines(frames[0])[0];
        assert |lines[0]| > 0 && lines[0][0] != BOM;
        assert Unlines(lines)[0] == lines[0][0];
      }
    }
  }

  // What should arrive, and what does arrive: names and data as sent, or as heard.
  function Sent(frames: seq<Frame>, id: string): seq<Message> {
    if frames == [] then []
    else if IsKeepalive(frames[0]) then Sent(frames[1..], id)
    else
      var next := IdAfter(frames[0], id);
      [Message(KindOf(frames[0]), frames[0].data, next)] + Sent(frames[1..], next)
  }

  function Arriving(frames: seq<Frame>, id: string): seq<Message> {
    if frames == [] then []
    else if IsKeepalive(frames[0]) then Arriving(frames[1..], id)
    else
      var next := IdAfter(frames[0], id);
      [Message(if KindOf(frames[0]) == "" then "message" else KindOf(frames[0]), Heard(frames[0].data), next)]
      + Arriving(frames[1..], next)
  }

  function LastId(frames: seq<Frame>, id: string): string {
    if frames == [] then id else LastId(frames[1..], IdAfter(frames[0], id))
  }

  lemma {:induction false} FeedFrames(c: Client, frames: seq<Frame>)
    requires Idle(c)
    ensures Idle(FeedAll(c, Blocks(frames)))
    ensures FeedAll(c, Blocks(frames)).messages == c.messages + Arriving(frames, c.idBuffer)
    ensures FeedAll(c, Blocks(frames)).lastEventId == if frames == [] then c.lastEventId else LastId(frames, c.idBuffer)
    decreases |frames|
  {
    if frames == [] {
      assert c.messages + [] == c.messages;
    } else {
      FeedAllConcat(c, Block(frames[0]), Blocks(frames[1..]));
      FeedFrame(c, frames[0]);
      var c' := FeedAll(c, Block(frames[0]));
      FeedFrames(c', frames[1..]);
      if !IsKeepalive(frames[0]) {
        Assoc(c.messages, [c'.messages[|c.messages|]], Arriving(frames[1..], c'.idBuffer));
      }
    }
  }

  // ----- A stream that is cut off -----

  // How many frames are whole in the first n characters of the stream.
  function WholeFrames(frames: seq<Frame>, n: nat): (w: nat)
    ensures w <= |frames|
  {
    if frames == [] || n < |Formatted(frames[0])| then 0 else 1 + WholeFrames(frames[1..], n - |Formatted(frames[0])|)
  }

  lemma OneFrameMore(frames: seq<Frame>, n: nat, part: string)
    requires frames != [] && |Formatted(frames[0])| <= n <= |StreamText(frames)|
    requires var m := n - |Formatted(frames[0])|;
             StreamText(frames[1..])[..m] == StreamText(frames[1..][..WholeFrames(frames[1..], m)]) + part
    ensures StreamText(frames)[..n] == StreamText(frames[..WholeFrames(frames, n)]) + part
  {
    var m := n - |Formatted(frames[0])|;
    var w := WholeFrames(frames[1..], m);
    TakeFrames(frames, w);
    PrefixOfTwo(Formatted(frames[0]), StreamText(frames[1..]), m);
    Assoc(Formatted(frames[0]), StreamText(frames[1..][..w]), part);
  }

  lemma TakeFrames(frames: seq<Frame>, w: nat)
    requires w < |frames|
    ensures StreamText(frames[..w + 1]) == Formatted(frames[0]) + StreamText(frames[1..][..w])
  {
    assert frames[..w + 1][1..] == frames[1..][..w];
  }

  lemma PrefixOfTwo(a: string, b: string, m: nat)
    requires m <= |b|
    ensures (a + b)[..|a| + m] == a + b[..m]
  {
  }

  // The first characters are the whole frames, and the beginning of the next one.
  lemma {:induction false} CutParts(frames: seq<Frame>, n: nat) returns (part: string, rest: string)
    requires n <= |StreamText(frames)|
    ensures var w := WholeFrames(frames, n);
            && StreamText(frames)[..n] == StreamText(frames[..w]) + part
            && (w == |frames| ==> part == "")
            && (w < |frames| ==> part + rest == Formatted(frames[w]) && rest != "")
    decreases |frames|
  {
    if frames == [] {
      part, rest := "", "";
    } else {
      var f := Formatted(frames[0]);
      if n < |f| {
        part, rest := f[..n], f[n..];
        assert frames[..0] == [];
      } else {
        part, rest := CutParts(frames[1..], n - |f|);
        OneFrameMore(frames, n, part);
      }
    }
  }

  lemma UnlinesHead(lines: seq<string>, tail: string)
    requires lines != []
    ensures Unlines(lines) + tail == lines[0] + "\n" + (Unlines(lines[1..]) + tail)
  {
    Assoc(lines[0] + "\n", Unlines(lines[1..]), tail);
  }

  // The line at i, and where the scan goes on.
  lemma {:induction false} NextLine(s: string, i: nat, line: string, rest: string) returns (next: nat)
    requires i <= |s| && OneLine(line) && s[i..] == line + "\n" + rest
    ensures next == i + |line| + 1 <= |s| && s[next..] == rest
    ensures ScansTo(s, i, [line], next)
  {
    next := i + |line| + 1;
    LineStands(s, i, line, rest);
    LineEndsHere(s, i, line);
  }

  // From i the scan finds the lines and is then at j.
  ghost predicate ScansTo(s: string, i: nat, lines: seq<string>, j: nat) {
    i <= j <= |s| && StreamLinesFrom(s, i) == lines + StreamLinesFrom(s, j)
  }

  lemma ScansOn(s: string, i: nat, a: seq<string>, j: nat, b: seq<string>, k: nat, all: seq<string>)
    requires ScansTo(s, i, a, j) && ScansTo(s, j, b, k) && all == a + b
    ensures ScansTo(s, i, all, k)
  {
    Assoc(a, b, StreamLinesFrom(s, k));
  }

  lemma ScansNothing(s: string, i: nat)
    requires i <= |s|
    ensures ScansTo(s, i, [], i)
  {
    assert [] + StreamLinesFrom(s, i) == StreamLinesFrom(s, i);
  }

  lemma {:induction false} LinesThen(s: string, i: nat, lines: seq<string>, tail: string) returns (end: nat)
    requires i <= |s| && s[i..] == Unlines(lines) + tail && AllOneLine(lines)
    ensures ScansTo(s, i, lines, end) && s[end..] == tail
    decreases |lines|
  {
    if lines == [] {
      assert "" + tail == tail;
      end := i;
      ScansNothing(s, i);
    } else {
      UnlinesHead(lines, tail);
      var next := NextLine(s, i, lines[0], Unlines(lines[1..]) + tail);
      end := LinesThen(s, next, lines[1..], tail);
      ScansOn(s, i, [lines[0]], next, lines[1..], end, lines);
    }
  }

  // Of a block that is cut off, only lines before its last one arrive.
  lemma {:induction false} LinesOfPart(s: string, i: nat, lines: seq<string>, rest: string) returns (k: nat)
    requires i <= |s| && s[i..] + rest == Unlines(lines) && rest != "" && AllOneLine(lines)
    ensures k < |lines| && ScansTo(s, i, lines[..k], |s|)
    decreases |lines|
  {
    if |s| - i > |lines[0]| {
      PartHasLine(s[i..], rest, lines[0], Unlines(lines[1..]));
      var next := NextLine(s, i, lines[0], s[i..][|lines[0]| + 1..]);
      var before := LinesOfPart(s, next, lines[1..], rest);
      k := before + 1;
      FirstLines(lines, k);
      ScansOn(s, i, [lines[0]], next, lines[1..][..before], |s|, lines[..k]);
    } else {
      k := 0;
      PartHasNoBreak(s, i, rest, lines[0], Unlines(lines[1..]));
    }
  }

  lemma FirstLines(lines: seq<string>, k: nat)
    requires 0 < k <= |lines|
    ensures lines[..k] == [lines[0]] + lines[1..][..k - 1]
  {
  }

  lemma PartHasLine(part: string, rest: string, l: string, more: string)
    requires part + rest == l + "\n" + more && |part| > |l|
    ensures part == l + "\n" + part[|l| + 1..] && part[|l| + 1..] + rest == more
  {
    assert part[..|l| + 1] == (part + rest)[..|l| + 1] == l + "\n";
    assert (part + rest)[|l| + 1..] == more;
  }

  lemma PartHasNoBreak(s: string, i: nat, rest: string, l: string, more: string)
    requires i <= |s| && s[i..] + rest == l + "\n" + more && |s| - i <= |l| && OneLine(l)
    ensures ScansTo(s, i, [], |s|)
  {
    forall k | i <= k < |s| ensures !IsStreamBreak(s[k]) {
      assert s[k] == (s[i..] + rest)[k - i] == l[k - i];
    }
    assert LineEnd(s, i, IsStreamBreak) == |s|;
  }

  // Lines that are not blank dispatch nothing.
  lemma {:induction false} NothingDispatched(c: Client, lines: seq<string>)
    requires forall k :: 0 <= k < |lines| ==> lines[k] != ""
    ensures FeedAll(c, lines).messages == c.messages && FeedAll(c, lines).lastEventId == c.lastEventId
    decreases |lines|
  {
    if lines != [] { NothingDispatched(Feed(c, lines[0]), lines[1..]); }
  }

  lemma OnlyLastIsBlank(f: Frame)
    ensures Block(f) != [] && forall k :: 0 <= k < |Block(f)| - 1 ==> Block(f)[k] != ""
  {
    if !IsKeepalive(f) {
      assert forall k :: 0 <= k < |Block(f)| - 1 ==> Block(f)[k] == FrameLines(f)[k];
    }
  }

  lemma CutNoBom(frames: seq<Frame>, n: nat)
    requires n <= |StreamText(frames)|
    ensures StreamLines(StreamText(frames)[..n]) == StreamLinesFrom(StreamText(frames)[..n], 0)
  {
    NoBom(frames);
    if n > 0 { assert StreamText(frames)[..n][0] == StreamText(frames)[0]; }
  }

  // A client hears exactly the whole frames, wherever the stream is cut, inside a frame too.
  lemma HearsWholeFrames(c: Client, frames: seq<Frame>, n: nat)
    requires Idle(c) && NamesFit(frames) && n <= |StreamText(frames)|
    ensures var w := WholeFrames(frames, n);
            var d := Hear(c, StreamText(frames)[..n]);
            && d.messages == c.messages + Arriving(frames[..w], c.idBuffer)
            && d.lastEventId == if w == 0 then c.lastEventId else LastId(frames[..w], c.idBuffer)
  {
    var w := WholeFrames(frames, n);
    var text := StreamText(frames)[..n];
    var whole := Blocks(frames[..w]);
    var part, rest := CutParts(frames, n);
    StreamIsBlocks(frames[..w]);
    BlocksAreOneLiners(frames[..w]);
    AllOneLineMeans(whole);
    CutNoBom(frames, n);
    assert text[0..] == text;
    var at := LinesThen(text, 0, whole, part);
    FeedAllConcat(c, whole, StreamLinesFrom(text, at));
    FeedFrames(c, frames[..w]);
    CutBlock(FeedAll(c, whole), frames, w, text, at, part, rest);
  }

  lemma CutBlock(d: Client, frames: seq<Frame>, w: nat, text: string, at: nat, part: string, rest: string)
    requires NamesFit(frames) && w <= |frames| && at <= |text| && text[at..] == part
    requires w == |frames| ==> part == ""
    requires w < |frames| ==> part + rest == Formatted(frames[w]) && rest != ""
    ensures var e := FeedAll(d, StreamLinesFrom(text, at)); e.messages == d.messages && e.lastEventId == d.lastEventId
  {
    if w < |frames| {
      FormattedIsBlock(frames[w]);
      BlockIsOneLiners(frames[w]);
      AllOneLineMeans(Block(frames[w]));
      OnlyLastIsBlank(frames[w]);
      var k := LinesOfPart(text, at, Block(frames[w]), rest);
      assert Block(frames[w])[..k] + [] == Block(frames[w])[..k];
      NothingDispatched(d, Block(frames[w])[..k]);
    } else {
      assert at == |text|;
    }
  }

  lemma {:induction false} AllWhole(frames: seq<Frame>)
    ensures WholeFrames(frames, |StreamText(frames)|) == |frames|
  {
    if frames != [] { AllWhole(frames[1..]); }
  }

  // With event names of one line, a client hears every frame in order, whatever the data; and its
  // last event id is the last one sent.
  lemma EveryFrameArrives(frames: seq<Frame>)
    requires NamesFit(frames)
    ensures Interpret(StreamText(frames)).messages == Arriving(frames, "")
    ensures Interpret(StreamText(frames)).lastEventId == LastId(frames, "")
  {
    var n := |StreamText(frames)|;
    AllWhole(frames);
    HearsWholeFrames(FRESH, frames, n);
    assert StreamText(frames)[..n] == StreamText(frames) && frames[..|frames|] == frames;
    assert [] + Arriving(frames, "") == Arriving(frames, "");
  }

  // ----- When data arrives as it was sent -----

  predicate EndsIn(s: string, c: char) {
    s != "" && s[|s| - 1] == c
  }

  lemma JoinCons(x: string, rest: seq<string>)
    requires rest != []
    ensures Join([x] + rest, "\n") == x + "\n" + Join(rest, "\n")
  {
    assert ([x] + rest)[1..] == rest;
  }

  predicate JoinsTo(lines: seq<string>, text: string) {
    lines != [] && Join(lines, "\n") == text
  }

  // The lines from i on, joined by newlines, are the text from there. The quantifier keeps the solver
  // from unfolding both sides wherever this is only passed on.
  ghost predicate HeardFrom(s: string, i: nat)
    requires i <= |s|
  {
    forall lines, text :: lines == SplitLinesFrom(s, i) && text == s[i..] ==> JoinsTo(lines, text)
  }

  lemma JoinsOneMore(s: string, i: nat, e: nat, lines: seq<string>, rest: seq<string>)
    requires i <= e < |s| && s[e] == '\n' && lines == [s[i..e]] + rest && JoinsTo(rest, s[e + 1..])
    ensures JoinsTo(lines, s[i..])
  {
    JoinCons(s[i..e], rest);
    SplitAtNewline(s, i, e);
  }

  lemma {:induction false} NextHeard(s: string, i: nat, e: nat)
    requires i <= e < |s| && e == LineEnd(s, i, IsPyBreak) && s[e] == '\n' && HeardFrom(s, e + 1)
    ensures HeardFrom(s, i)
  {
    NextPiece(s, i, e);
    JoinsOneMore(s, i, e, SplitLinesFrom(s, i), SplitLinesFrom(s, e + 1));
  }

  lemma {:induction false} LastPiece(s: string, i: nat)
    requires i < |s| == LineEnd(s, i, IsPyBreak)
    ensures HeardFrom(s, i)
  {
    var line := s[i..|s|];
    assert line == s[i..];
    assert [line] + [] == [line];
  }

  lemma {:induction false} NextPiece(s: string, i: nat, e: nat)
    requires i <= e < |s| && e == LineEnd(s, i, IsPyBreak) && s[e] == '\n'
    ensures SplitLinesFrom(s, i) == [s[i..e]] + SplitLinesFrom(s, e + 1)
  {
    assert AfterBreak(s, e) == e + 1;
  }

  lemma BreakFrom(s: string, i: nat) returns (e: nat)
    requires i < |s| && Plain(s) && !EndsIn(s, '\n')
    ensures i <= e == LineEnd(s, i, IsPyBreak) <= |s|
    ensures e < |s| ==> s[e] == '\n' && e + 1 < |s|
  {
    e := LineEnd(s, i, IsPyBreak);
  }

  lemma SplitAtNewline(s: string, i: nat, e: nat)
    requires i <= e < |s| && s[e] == '\n'
    ensures s[i..e] + "\n" + s[e + 1..] == s[i..]
  {
  }

  // Any line break of Python separates two lines of data, and a carriage return with a newline is one break.
  lemma OneBreakTwoLines(a: string, b: string, br: string)
    requires (forall k :: 0 <= k < |a| ==> !IsPyBreak(a[k])) && (forall k :: 0 <= k < |b| ==> !IsPyBreak(b[k]))
    requires b != ""
    requires br == "\r\n" ||
             (|br| == 1 && br[0] in "\n\r\U{0B}\U{0C}\U{1C}\U{1D}\U{1E}\U{85}\U{2028}\U{2029}")
    ensures DataLines(a + br + b) == [a, b]
  {
    var s, e, next := a + br + b, |a|, |a| + |br|;
    assert s[..e] == a && s[next..] == b && s[e] == br[0];
    BreaksAt(s, 0, e);
    assert s[next] == b[0];
    assert AfterBreak(s, e) == next;
    forall k | next <= k < |s| ensures !IsPyBreak(s[k]) { assert s[k] == b[k - next]; }
    NoBreakFrom(s, next);
    assert SplitLinesFrom(s, 0) == [s[0..e]] + SplitLinesFrom(s, next);
  }

  lemma BreaksAt(s: string, i: nat, e: nat)
    requires i <= e < |s| && IsPyBreak(s[e]) && forall k :: i <= k < e ==> !IsPyBreak(s[k])
    ensures LineEnd(s, i, IsPyBreak) == e
  {
  }

  lemma NoBreakFrom(s: string, i: nat)
    requires i < |s| && forall k :: i <= k < |s| ==> !IsPyBreak(s[k])
    ensures SplitLinesFrom(s, i) == [s[i..]]
  {
    assert LineEnd(s, i, IsPyBreak) == |s|;
    assert s[i..|s|] == s[i..];
    assert [s[i..]] + [] == [s[i..]];
  }

  lemma {:induction false} PlainIsHeard(s: string, i: nat)
    requires i < |s| && Plain(s) && !EndsIn(s, '\n')
    ensures HeardFrom(s, i)
    decreases |s| - i
  {
    var e := BreakFrom(s, i);
    if e < |s| {
      PlainIsHeard(s, e + 1);
      NextHeard(s, i, e);
    } else {
      LastPiece(s, i);
    }
  }

  lemma {:induction false} TrailingBreakIsLost(s: string, i: nat)
    requires i <= |s|
    ensures |Join(SplitLinesFrom(s, i), "\n")| <= |s| - i - if i < |s| && IsPyBreak(s[|s| - 1]) then 1 else 0
    decreases |s| - i
  {
    if i < |s| {
      var e := LineEnd(s, i, IsPyBreak);
      if e < |s| {
        var next := AfterBreak(s, e);
        TrailingBreakIsLost(s, next);
        assert ([s[i..e]] + SplitLinesFrom(s, next))[1..] == SplitLinesFrom(s, next);
      }
    }
  }

  lemma {:induction false} JoinIsPlain(lines: seq<string>)
    requires forall k :: 0 <= k < |lines| ==> forall j :: 0 <= j < |lines[k]| ==> !IsPyBreak(lines[k][j])
    ensures Plain(Join(lines, "\n"))
  {
    if |lines| > 1 { JoinIsPlain(lines[1..]); }
  }

  lemma HeardAsSentIff(data: string)
    ensures Heard(data) == data <==> Plain(data) && !EndsIn(data, '\n')
  {
    if Plain(data) && !EndsIn(data, '\n') && data != "" {
      PlainIsHeard(data, 0);
      assert JoinsTo(SplitLinesFrom(data, 0), data[0..]);
      assert data[0..] == data;
    }
    if Heard(data) == data {
      SplitLinesAreOneLine(data, 0);
      JoinIsPlain(DataLines(data));
      TrailingBreakIsLost(data, 0);
    }
  }

  // ----- The round trip, exactly when it holds -----

  predicate Faithful(f: Frame) {
    && (f.event.Some? ==> f.event.value != "" && OneLine(f.event.value))
    && Plain(f.data) && !EndsIn(f.data, '\n')
  }

  predicate KindsFit(c: Client) {
    OneLine(c.kind) && forall k :: 0 <= k < |c.messages| ==> c.messages[k].kind != "" && OneLine(c.messages[k].kind)
  }

  lemma {:induction false} StreamLinesAreOneLine(s: string, i: nat)
    requires i <= |s|
    ensures forall k :: 0 <= k < |StreamLinesFrom(s, i)| ==> OneLine(StreamLinesFrom(s, i)[k])
    decreases |s| - i
  {
    var e := LineEnd(s, i, IsStreamBreak);
    if e < |s| {
      StreamLinesAreOneLine(s, AfterBreak(s, e));
      assert OneLine(s[i..e]);
    }
  }

  lemma {:induction false} HeardKindsFit(c: Client, lines: seq<string>)
    requires KindsFit(c) && forall k :: 0 <= k < |lines| ==> OneLine(lines[k])
    ensures KindsFit(FeedAll(c, lines))
    decreases |lines|
  {
    if lines != [] {
      HeardKindsFit(Feed(c, lines[0]), lines[1..]);
    }
  }

  lemma {:induction false} SentNames(frames: seq<Frame>, id: string)
    requires forall k :: 0 <= k < |Sent(frames, id)| ==>
      Sent(frames, id)[k].kind != "" && OneLine(Sent(frames, id)[k].kind)
    ensures forall k :: 0 <= k < |frames| ==> frames[k].event.Some? ==>
      frames[k].event.value != "" && OneLine(frames[k].event.value)
    decreases |frames|
  {
    if frames != [] {
      var next := IdAfter(frames[0], id);
      if IsKeepalive(frames[0]) {
        assert Sent(frames, id) == Sent(frames[1..], id);
        SentNames(frames[1..], id);
      } else {
        var all := Sent(frames, id);
        assert all[0].kind == KindOf(frames[0]);
        assert all[1..] == Sent(frames[1..], next);
        SentNames(frames[1..], next);
      }
    }
  }

  lemma {:induction false} ArrivingIsSent(frames: seq<Frame>, id: string)
    requires forall k :: 0 <= k < |frames| ==> frames[k].event.Some? ==> frames[k].event.value != ""
    ensures Arriving(frames, id) == Sent(frames, id) <==>
            forall k :: 0 <= k < |frames| ==> Heard(frames[k].data) == frames[k].data
    decreases |frames|
  {
    if frames != [] {
      var f := frames[0];
      var next := IdAfter(f, id);
      ArrivingIsSent(frames[1..], next);
      if IsKeepalive(f) {
        assert Heard("") == "";
        assert next == id;
      } else {
        var a, s := Arriving(frames, id), Sent(frames, id);
        assert a[1..] == Arriving(frames[1..], next) && s[1..] == Sent(frames[1..], next);
        assert a[0].data == Heard(f.data) && s[0].data == f.data;
      }
      assert forall k :: 1 <= k < |frames| ==> frames[k] == frames[1..][k - 1];
      assert forall k :: 0 <= k < |frames[1..]| ==> frames[1..][k] == frames[k + 1];
    }
  }

  // A stream gives back the names, data and ids that were framed, keepalives aside, if and only if
  // every name is a non-empty single line, and all data has newlines only and none at its end.
  lemma RoundTripIff(frames: seq<Frame>)
    ensures Interpret(StreamText(frames)).messages == Sent(frames, "") <==>
            forall k :: 0 <= k < |frames| ==> Faithful(frames[k])
  {
    var text := StreamText(frames);
    forall k | 0 <= k < |frames|
      ensures Heard(frames[k].data) == frames[k].data <==> Plain(frames[k].data) && !EndsIn(frames[k].data, '\n')
    {
      HeardAsSentIff(frames[k].data);
    }
    if Interpret(text).messages == Sent(frames, "") {
      StreamLinesAreOneLine(text, 0);
      NoBom(frames);
      HeardKindsFit(FRESH, StreamLines(text));
      SentNames(frames, "");
      EveryFrameArrives(frames);
      ArrivingIsSent(frames, "");
    }
    if forall k :: 0 <= k < |frames| ==> Faithful(frames[k]) {
      EveryFrameArrives(frames);
      ArrivingIsSent(frames, "");
    }
  }

  // ----- The last event id -----

  // Decimal digits, with single underscores between them.
  function ParseNat(s: string): Option<nat> {
    if s == "" || !IsDigit(s[|s| - 1]) then None
    else
      var d, init := DigitOf(s[|s| - 1]), s[..|s| - 1];
      if init == "" then Some(d)
      else
        var high := ParseNat(if init[|init| - 1] == '_' then init[..|init| - 1] else init);
        if high.Some? then Some(10 * high.value + d) else None
  }

  // int(value): surrounding blanks and a sign are allowed.
  function ParseInt(value: string): Option<int> {
    var t := Trim(value);
    if t == "" then None
    else
      var n := ParseNat(if t[0] == '+' || t[0] == '-' then t[1..] else t);
      if n.None? then None else if t[0] == '-' then var k: int := n.value; Some(-k) else Some(n.value)
  }

  function ParseLastEventId(value: Option<string>): nat {
    if value.None? || value.value == "" then 0
    else
      var n := ParseInt(value.value);
      if n.Some? && n.value > 0 then n.value else 0
  }

  lemma {:induction false} ParseDigits(n: nat)
    ensures ParseNat(Digits(n)) == Some(n)
  {
    DigitsAreDigits(n);
    if n >= 10 {
      ParseDigits(n / 10);
      var high := Digits(n / 10);
      DigitsAreDigits(n / 10);
      assert IsDigit(high[|high| - 1]);
      DigitIsNoSpace(high[|high| - 1]);
      var d := Digits(n);
      assert d == high + [DigitChar(n % 10)];
      assert d[..|d| - 1] == high;
      OneMore(d, high);
    }
  }

  lemma OneMore(s: string, high: string)
    requires s != "" && s[..|s| - 1] == high && IsDigit(s[|s| - 1])
    requires high != "" && high[|high| - 1] != '_'
    ensures ParseNat(s) ==
            var h := ParseNat(high);
            if h.Some? then Some(10 * h.value + DigitOf(s[|s| - 1])) else None
  {
  }

  // Behind a plus the number counts too; behind a minus, and without a last digit, the stream starts from 0.
  lemma LastEventIdSigned(n: nat, value: string)
    ensures ParseLastEventId(Some("+" + Digits(n))) == n
    ensures ParseLastEventId(Some("-" + Digits(n))) == 0
    ensures value != "" && !IsSpace(value[0]) && !IsSpace(value[|value| - 1]) && !IsDigit(value[|value| - 1]) ==>
            ParseLastEventId(Some(value)) == 0
    ensures ParseLastEventId(None) == 0
  {
    Signed("+", n);
    Signed("-", n);
    if value != "" && !IsSpace(value[0]) && !IsSpace(value[|value| - 1]) && !IsDigit(value[|value| - 1]) {
      TrimKeeps(value);
    }
  }

  lemma Signed(sign: string, n: nat)
    requires sign == "+" || sign == "-"
    ensures ParseInt(sign + Digits(n)) == Some(if sign == "-" then -(n as int) else n as int)
  {
    var t := sign + Digits(n);
    ParseDigits(n);
    DigitsAreDigits(n);
    assert t[1..] == Digits(n) && t[0] == sign[0] && t[|t| - 1] == Digits(n)[|Digits(n)| - 1];
    PrintableIsNotSpace(t[0]);
    DigitIsNoSpace(t[|t| - 1]);
    TrimKeeps(t);
  }

  // The id line of a frame comes back as the number it was made of.
  lemma LastEventIdRoundTrip(n: nat)
    ensures ParseLastEventId(Some(Digits(n))) == n
  {
    var d := Digits(n);
    ParseDigits(n);
    DigitsAreDigits(n);
    assert IsDigit(d[0]) && IsDigit(d[|d| - 1]);
    DigitIsNoSpace(d[0]);
    DigitIsNoSpace(d[|d| - 1]);
    TrimKeeps(d);
    assert ParseInt(d) == Some(n);
  }

  lemma DigitIsNoSpace(c: char)
    requires IsDigit(c)
    ensures !IsSpace(c) && c != '+' && c != '-' && c != '_'
  {
    PrintableIsNotSpace(c);
  }

  lemma TrimKeeps(s: string)
    requires s != "" && !IsSpace(s[0]) && !IsSpace(s[|s| - 1])
    ensures Trim(s) == s
  {
  }
}
