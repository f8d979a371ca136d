// The event stream of a document, as in app/api/sse.py:55-118: a replay from the client's last event
// id, then polls of the event table, while transactions go on committing.
module Stream {
  import opened Common
  import opened Events
  import Sse

  const LIMIT := 1000

  // What one turn of the polling loop meets: the query fails, or reads the state at a position of the
  // run; and afterwards a keepalive may be due.
  datatype Poll = Poll(read: Reading, keepaliveDue: bool)

  datatype Reading = Failed | At(i: nat)

  ghost predicate Within(polls: seq<Poll>, from: nat, n: nat) {
    forall k :: 0 <= k < |polls| ==> polls[k].read.At? ==> from <= polls[k].read.i < n
  }

  // ----- Slices of the log -----

  ghost function FinalLog(run: seq<System>, doc: DocId): seq<Row>
    requires IsRun(run)
  {
    RunKeepsInv(run, |run| - 1);
    LogOf(run[|run| - 1].db, doc)
  }

  ghost function CountAt(run: seq<System>, doc: DocId, i: nat): nat
    requires IsRun(run) && i < |run|
  {
    Count(run[i].db, doc)
  }

  function Slice<T>(log: seq<T>, a: nat, b: nat): seq<T> {
    if a <= b <= |log| then log[a..b] else []
  }

  function Min(a: nat, b: nat): nat { if a <= b then a else b }

  function Max(a: nat, b: nat): nat { if a >= b then a else b }

  // Where the cursor is after a read that saw n events.
  function Advanced(cursor: nat, n: nat): nat {
    Max(cursor, Min(cursor + LIMIT, n))
  }

  // A page read anywhere in the run is the next slice of the final log.
  lemma PageIsSlice(run: seq<System>, doc: DocId, i: nat, cursor: nat, rows: seq<Row>)
    requires IsRun(run) && i < |run|
    requires IsPage(run[i].db, doc, cursor, LIMIT, rows)
    ensures var next := Advanced(cursor, CountAt(run, doc, i));
            && (next > cursor ==> next <= |FinalLog(run, doc)|)
            && rows == Slice(FinalLog(run, doc), cursor, next)
            && |rows| == next - cursor
  {
    RunKeepsInv(run, i);
    LogsGrow(run, i, |run| - 1, doc);
    ReplayIsTheQuery(run[i].db, doc, cursor, LIMIT, rows);
    SliceOfPrefix(LogOf(run[i].db, doc), FinalLog(run, doc), cursor, Advanced(cursor, CountAt(run, doc, i)));
  }

  lemma SliceOfPrefix<T>(a: seq<T>, b: seq<T>, i: nat, j: nat)
    requires IsPrefix(a, b)
    ensures i <= j <= |a| ==> a[i..j] == b[i..j]
  {
  }

  lemma SlicesMeet<T>(log: seq<T>, a: nat, b: nat, c: nat)
    requires a <= b <= c && (a < c ==> c <= |log|)
    ensures Slice(log, a, b) + Slice(log, b, c) == Slice(log, a, c)
  {
  }

  // ----- The loop -----

  // json.dumps of number, kind and payload is left to a parameter.
  function FrameOf(row: Row, json: Row -> string): Sse.Frame {
    Sse.Frame(Some(row.num), Some(row.body.kind), json(row))
  }

  const KEEPALIVE := Sse.Frame(None, None, "")

  function FramesOf(rows: seq<Row>, json: Row -> string): seq<Sse.Frame> {
    if rows == [] then [] else FramesOf(rows[..|rows| - 1], json) + [FrameOf(rows[|rows| - 1], json)]
  }

  function WithoutKeepalives(frames: seq<Sse.Frame>): seq<Sse.Frame> {
    if frames == [] then []
    else
      var last := frames[|frames| - 1];
      WithoutKeepalives(frames[..|frames| - 1]) + if Sse.IsKeepalive(last) then [] else [last]
  }

  lemma FramesSnoc(rows: seq<Row>, row: Row, json: Row -> string)
    ensures FramesOf(rows + [row], json) == FramesOf(rows, json) + [FrameOf(row, json)]
  {
    assert (rows + [row])[..|rows|] == rows;
  }

  lemma KeepSnoc(frames: seq<Sse.Frame>, f: Sse.Frame)
    ensures WithoutKeepalives(frames + [f]) == WithoutKeepalives(frames) + if Sse.IsKeepalive(f) then [] else [f]
  {
    assert (frames + [f])[..|frames|] == frames;
  }

  // The rows of one page, framed; the cursor follows each row.
  method SendRows(frames: seq<Sse.Frame>, ghost sent: seq<Row>, rows: seq<Row>, cursor: nat, json: Row -> string)
    returns (frames': seq<Sse.Frame>, cursor': nat)
    requires WithoutKeepalives(frames) == FramesOf(sent, json)
    ensures WithoutKeepalives(frames') == FramesOf(sent + rows, json)
    ensures cursor' == if rows == [] then cursor else rows[|rows| - 1].num
  {
    frames', cursor' := frames, cursor;
    assert sent + rows[..0] == sent;
    for k := 0 to |rows|
      invariant WithoutKeepalives(frames') == FramesOf(sent + rows[..k], json)
      invariant cursor' == if k == 0 then cursor else rows[k - 1].num
    {
      cursor' := rows[k].num;
      var frame := FrameOf(rows[k], json);
      SendOneMore(frames', sent, rows, k, json);
      frames' := frames' + [frame];
    }
    assert rows[..|rows|] == rows;
  }

  lemma {:induction false} SendOneMore(frames: seq<Sse.Frame>, sent: seq<Row>, rows: seq<Row>, k: nat,
                                       json: Row -> string)
    requires k < |rows| && WithoutKeepalives(frames) == FramesOf(sent + rows[..k], json)
    ensures WithoutKeepalives(frames + [FrameOf(rows[k], json)]) == FramesOf(sent + rows[..k + 1], json)
  {
    KeepSnoc(frames, FrameOf(rows[k], json));
    FramesSnoc(sent + rows[..k], rows[k], json);
    assert sent + rows[..k] + [rows[k]] == sent + rows[..k + 1];
  }

  ghost function AfterPoll(run: seq<System>, doc: DocId, cursor: nat, poll: Poll): nat
    requires IsRun(run)
  {
    if poll.read.At? && poll.read.i < |run| then Advanced(cursor, CountAt(run, doc, poll.read.i)) else cursor
  }

  // The cursor after the first k polls, from what each of them saw.
  ghost function CursorAfter(run: seq<System>, doc: DocId, start: nat, first: nat, polls: seq<Poll>, k: nat): nat
    requires IsRun(run) && first < |run| && k <= |polls|
    decreases k
  {
    if k == 0 then Advanced(start, CountAt(run, doc, first))
    else AfterPoll(run, doc, CursorAfter(run, doc, start, first, polls, k - 1), polls[k - 1])
  }

  ghost predicate SentUpTo(run: seq<System>, doc: DocId, start: nat, cursor: nat, frames: seq<Sse.Frame>,
                           json: Row -> string)
    requires IsRun(run)
  {
    SentFrom(FinalLog(run, doc), start, cursor, frames, json)
  }

  // Keepalives aside, the frames are the log between the two cursors.
  ghost predicate SentFrom(log: seq<Row>, start: nat, cursor: nat, frames: seq<Sse.Frame>, json: Row -> string) {
    && start <= cursor && (start < cursor ==> cursor <= |log|)
    && WithoutKeepalives(frames) == FramesOf(Slice(log, start, cursor), json)
  }

  // A page leads from one cursor to the next.
  lemma PageAdvances(run: seq<System>, doc: DocId, i: nat, start: nat, cursor: nat, rows: seq<Row>)
    requires IsRun(run) && i < |run| && IsPage(run[i].db, doc, cursor, LIMIT, rows)
    requires start <= cursor && (start < cursor ==> cursor <= |FinalLog(run, doc)|)
    ensures var next := Advanced(cursor, CountAt(run, doc, i));
            && next == (if rows == [] then cursor else rows[|rows| - 1].num)
            && start <= next && (start < next ==> next <= |FinalLog(run, doc)|)
            && Slice(FinalLog(run, doc), start, cursor) + rows == Slice(FinalLog(run, doc), start, next)
  {
    var log, next := FinalLog(run, doc), Advanced(cursor, CountAt(run, doc, i));
    PageIsSlice(run, doc, i, cursor, rows);
    if next == cursor {
      assert rows == [];
    } else {
      LastOfSlice(run, doc, cursor, next);
    }
    SlicesMeet(log, start, cursor, next);
  }

  lemma LastOfSlice(run: seq<System>, doc: DocId, a: nat, b: nat)
    requires IsRun(run) && a < b <= |FinalLog(run, doc)|
    ensures |Slice(FinalLog(run, doc), a, b)| == b - a
    ensures Slice(FinalLog(run, doc), a, b)[b - a - 1].num == b
  {
    RunKeepsInv(run, |run| - 1);
  }

  // What the database answers at a position of the run to a query above a cursor.
  ghost predicate Answers(query: (nat, nat) -> seq<Row>, run: seq<System>, doc: DocId) {
    forall i: nat, after: nat :: i < |run| ==> IsPage(run[i].db, doc, after, LIMIT, query(i, after))
  }

  // One read: what is sent stays exactly the final log between where the stream began and the cursor.
  method ReadAndSend(ghost run: seq<System>, ghost doc: DocId, query: (nat, nat) -> seq<Row>, i: nat,
                     ghost start: nat, cursor: nat, frames: seq<Sse.Frame>, json: Row -> string)
    returns (frames': seq<Sse.Frame>, cursor': nat)
    requires IsRun(run) && i < |run| && Answers(query, run, doc) && SentUpTo(run, doc, start, cursor, frames, json)
    ensures cursor' == Advanced(cursor, CountAt(run, doc, i))
    ensures SentUpTo(run, doc, start, cursor', frames', json)
  {
    var rows := query(i, cursor);
    PageAdvances(run, doc, i, start, cursor, rows);
    frames', cursor' := SendRows(frames, Slice(FinalLog(run, doc), start, cursor), rows, cursor, json);
  }

  lemma StartIsSent(run: seq<System>, doc: DocId, start: nat, json: Row -> string)
    requires IsRun(run)
    ensures SentUpTo(run, doc, start, start, [], json)
  {
    assert Slice(FinalLog(run, doc), start, start) == [];
  }

  // One turn of the loop: a failed query sends nothing, and a keepalive changes nothing.
  method PollOnce(ghost run: seq<System>, ghost doc: DocId, query: (nat, nat) -> seq<Row>, poll: Poll,
                  ghost start: nat, cursor: nat, frames: seq<Sse.Frame>, json: Row -> string)
    returns (frames': seq<Sse.Frame>, cursor': nat)
    requires IsRun(run) && (poll.read.At? ==> poll.read.i < |run|)
    requires Answers(query, run, doc) && SentUpTo(run, doc, start, cursor, frames, json)
    ensures cursor' == AfterPoll(run, doc, cursor, poll)
    ensures SentUpTo(run, doc, start, cursor', frames', json)
  {
    frames', cursor' := frames, cursor;
    if poll.read.At? {
      frames', cursor' := ReadAndSend(run, doc, query, poll.read.i, start, cursor, frames, json);
    }
    if poll.keepaliveDue {
      KeepSnoc(frames', KEEPALIVE);
      frames' := frames' + [KEEPALIVE];
    }
  }

  // The frames of a stream that goes through the given polls before it is cut off: keepalives aside,
  // each event after the client's last id once and in order, however many polls failed and whatever
  // was committed in between.
  method StreamDocumentEvents(ghost run: seq<System>, ghost doc: DocId, query: (nat, nat) -> seq<Row>,
                              lastEventId: nat, first: nat, polls: seq<Poll>, json: Row -> string)
    returns (frames: seq<Sse.Frame>, cursor: nat)
    requires IsRun(run) && first < |run| && Within(polls, first, |run|) && Answers(query, run, doc)
    ensures cursor == CursorAfter(run, doc, lastEventId, first, polls, |polls|)
    ensures SentUpTo(run, doc, lastEventId, cursor, frames, json)
  {
    StartIsSent(run, doc, lastEventId, json);
    frames, cursor := ReadAndSend(run, doc, query, first, lastEventId, lastEventId, [], json);
    for k := 0 to |polls|
      invariant cursor == CursorAfter(run, doc, lastEventId, first, polls, k)
      invariant SentUpTo(run, doc, lastEventId, cursor, frames, json)
    {
      frames, cursor := PollOnce(run, doc, query, polls[k], lastEventId, cursor, frames, json);
    }
  }

  // ----- Catching up -----

  function Reads(polls: seq<Poll>, k: nat): nat
    requires k <= |polls|
  {
    if k == 0 then 1 else Reads(polls, k - 1) + if polls[k - 1].read.At? then 1 else 0
  }

  // A backlog is worked off a page per successful read; failed polls cost nothing but time.
  lemma {:induction false} CatchesUp(run: seq<System>, doc: DocId, start: nat, first: nat, polls: seq<Poll>, k: nat,
                                     i: nat)
    requires IsRun(run) && i <= first < |run| && Within(polls, i, |run|) && k <= |polls|
    ensures CursorAfter(run, doc, start, first, polls, k) >= Min(CountAt(run, doc, i), start + 1000 * Reads(polls, k))
    decreases k
  {
    if k == 0 {
      CountsGrow(run, doc, i, first);
    } else {
      CatchesUp(run, doc, start, first, polls, k - 1, i);
      if polls[k - 1].read.At? { CountsGrow(run, doc, i, polls[k - 1].read.i); }
    }
  }

  lemma CountsGrow(run: seq<System>, doc: DocId, i: nat, j: nat)
    requires IsRun(run) && i <= j < |run|
    ensures CountAt(run, doc, i) <= CountAt(run, doc, j)
  {
    LogsGrow(run, i, j, doc);
  }

  // ----- What the client ends up with -----

  // Kinds are single words, and JSON text escapes its control characters.
  ghost predicate Framable(log: seq<Row>, json: Row -> string) {
    forall k :: 0 <= k < |log| ==> Sse.Faithful(FrameOf(log[k], json))
  }

  function MessagesOf(rows: seq<Row>, json: Row -> string): seq<Sse.Message> {
    if rows == [] then []
    else MessagesOf(rows[..|rows| - 1], json) + [MessageOf(rows[|rows| - 1], json)]
  }

  function MessageOf(row: Row, json: Row -> string): Sse.Message {
    Sse.Message(row.body.kind, json(row), Sse.Digits(row.num))
  }

  lemma {:induction false} SentSnoc(frames: seq<Sse.Frame>, f: Sse.Frame, id: string)
    ensures Sse.LastId(frames + [f], id) == Sse.IdAfter(f, Sse.LastId(frames, id))
    ensures Sse.Sent(frames + [f], id) == Sse.Sent(frames, id) +
            if Sse.IsKeepalive(f) then []
            else [Sse.Message(Sse.KindOf(f), f.data, Sse.IdAfter(f, Sse.LastId(frames, id)))]
    decreases |frames|
  {
    if frames == [] {
      assert [] + [f] == [f] && [f][1..] == [];
    } else {
      assert (frames + [f])[1..] == frames[1..] + [f];
      SentSnoc(frames[1..], f, Sse.IdAfter(frames[0], id));
    }
  }

  // Keepalives carry neither a message nor an id.
  lemma {:induction false} KeepalivesDoNotCount(frames: seq<Sse.Frame>, id: string)
    ensures Sse.Sent(frames, id) == Sse.Sent(WithoutKeepalives(frames), id)
    ensures Sse.LastId(frames, id) == Sse.LastId(WithoutKeepalives(frames), id)
    decreases |frames|
  {
    if frames != [] {
      var init, f := frames[..|frames| - 1], frames[|frames| - 1];
      assert frames == init + [f];
      KeepalivesDoNotCount(init, id);
      SentSnoc(init, f, id);
      KeepSnoc(init, f);
      if Sse.IsKeepalive(f) {
        assert WithoutKeepalives(frames) == WithoutKeepalives(init);
        assert Sse.Sent(frames, id) == Sse.Sent(init, id);
      } else {
        SentSnoc(WithoutKeepalives(init), f, id);
      }
    }
  }

  lemma {:induction false} RowsAreSent(rows: seq<Row>, json: Row -> string, id: string)
    ensures Sse.Sent(FramesOf(rows, json), id) == MessagesOf(rows, json)
    ensures Sse.LastId(FramesOf(rows, json), id) == if rows == [] then id else Sse.Digits(rows[|rows| - 1].num)
  {
    if rows != [] {
      RowsAreSent(rows[..|rows| - 1], json, id);
      SentSnoc(FramesOf(rows[..|rows| - 1], json), FrameOf(rows[|rows| - 1], json), id);
    }
  }

  lemma {:induction false} FramesAreFaithful(frames: seq<Sse.Frame>, rows: seq<Row>, json: Row -> string)
    requires WithoutKeepalives(frames) == FramesOf(rows, json) && Framable(rows, json)
    ensures forall k :: 0 <= k < |frames| ==> Sse.Faithful(frames[k])
    decreases |frames|
  {
    if frames != [] {
      var init, f := frames[..|frames| - 1], frames[|frames| - 1];
      if Sse.IsKeepalive(f) {
        FramesAreFaithful(init, rows, json);
      } else {
        assert rows != [];
        LastOf(WithoutKeepalives(init), f, FramesOf(rows[..|rows| - 1], json), FrameOf(rows[|rows| - 1], json));
        assert Framable(rows[..|rows| - 1], json);
        FramesAreFaithful(init, rows[..|rows| - 1], json);
      }
      forall k | 0 <= k < |frames| ensures Sse.Faithful(frames[k]) {
        if k < |init| { assert frames[k] == init[k]; }
      }
    }
  }

  lemma LastOf<T>(a: seq<T>, x: T, b: seq<T>, y: T)
    requires a + [x] == b + [y]
    ensures a == b && x == y
  {
    assert (a + [x])[|a|] == x && (b + [y])[|b|] == y;
    assert (a + [x])[..|a|] == a && (b + [y])[..|b|] == b;
  }

  // ----- One connection -----

  // Where the server starts for a client that sends this id; without one it starts from 0.
  function StartOf(id: string): nat {
    Sse.ParseLastEventId(Some(id))
  }

  // The frames that arrive whole when the connection is cut after n characters.
  function Arrived(frames: seq<Sse.Frame>, n: nat): seq<Sse.Frame> {
    frames[..Sse.WholeFrames(frames, n)]
  }

  // The frames that arrived carry the first rows of those that were sent.
  lemma {:induction false} KeptPrefix(frames: seq<Sse.Frame>, w: nat)
    requires w <= |frames|
    ensures IsPrefix(WithoutKeepalives(frames[..w]), WithoutKeepalives(frames))
    decreases |frames| - w
  {
    if w < |frames| {
      KeptPrefix(frames, w + 1);
      assert frames[..w + 1] == frames[..w] + [frames[w]];
      KeepSnoc(frames[..w], frames[w]);
      PrefixTrans(WithoutKeepalives(frames[..w]), WithoutKeepalives(frames[..w + 1]), WithoutKeepalives(frames));
    } else {
      assert frames[..w] == frames;
    }
  }

  lemma {:induction false} FramesOfPrefix(rows: seq<Row>, json: Row -> string, h: nat)
    requires h <= |rows|
    ensures |FramesOf(rows, json)| == |rows| && FramesOf(rows, json)[..h] == FramesOf(rows[..h], json)
  {
    if h == |rows| {
      FramesOfLength(rows, json);
      assert rows[..h] == rows;
    } else {
      FramesOfPrefix(rows[..|rows| - 1], json, h);
      assert rows[..|rows| - 1][..h] == rows[..h];
    }
  }

  lemma {:induction false} FramesOfLength(rows: seq<Row>, json: Row -> string)
    ensures |FramesOf(rows, json)| == |rows|
  {
    if rows != [] { FramesOfLength(rows[..|rows| - 1], json); }
  }

  // The frames other than keepalives are those of the rows. The quantifier keeps the solver from unfolding
  // either side wherever this is only passed on.
  ghost predicate Carry(frames: seq<Sse.Frame>, rows: seq<Row>, json: Row -> string) {
    forall r :: r == rows ==> WithoutKeepalives(frames) == FramesOf(r, json)
  }

  lemma {:induction false} ArrivedRows(frames: seq<Sse.Frame>, n: nat, rows: seq<Row>, json: Row -> string)
    returns (h: nat)
    requires Carry(frames, rows, json)
    ensures h <= |rows| && Carry(Arrived(frames, n), rows[..h], json)
    ensures n == |Sse.StreamText(frames)| ==> h == |rows|
    ensures h == 0 <==> WithoutKeepalives(Arrived(frames, n)) == []
  {
    var w := Sse.WholeFrames(frames, n);
    KeptPrefix(frames, w);
    assert WithoutKeepalives(frames) == FramesOf(rows, json);
    FramesOfLength(rows, json);
    h := |WithoutKeepalives(Arrived(frames, n))|;
    FramesOfPrefix(rows, json, h);
    if n == |Sse.StreamText(frames)| {
      Sse.AllWhole(frames);
      assert Arrived(frames, n) == frames;
    }
  }

  // The client still has an id to resume from if it heard an event, or no frame at all, or was opened with
  // the id in its buffer; or if it had none that counts.
  predicate IdSurvives(id: string, keeps: bool, frames: seq<Sse.Frame>, n: nat) {
    WithoutKeepalives(Arrived(frames, n)) != [] || Arrived(frames, n) == [] || keeps || StartOf(id) == 0
  }

  // What a client makes of faithful frames, some of them keepalives.
  lemma {:induction false} HearsRows(id: string, keeps: bool, frames: seq<Sse.Frame>, n: nat, rows: seq<Row>,
                                     json: Row -> string)
    requires WithoutKeepalives(Arrived(frames, n)) == FramesOf(rows, json) && Framable(rows, json)
    requires n <= |Sse.StreamText(frames)| && forall k :: 0 <= k < |frames| ==> Sse.Faithful(frames[k])
    ensures var c := Sse.Hear(Sse.Opened(id, keeps), Sse.StreamText(frames)[..n]);
            && c.messages == MessagesOf(rows, json)
            && c.lastEventId == if Arrived(frames, n) == [] then id
                                else if rows == [] then (if keeps then id else "")
                                else Sse.Digits(rows[|rows| - 1].num)
  {
    var buffer := if keeps then id else "";
    var some := Arrived(frames, n);
    Sse.HearsWholeFrames(Sse.Opened(id, keeps), frames, n);
    ArrivingRows(some, rows, json, buffer);
    assert [] + MessagesOf(rows, json) == MessagesOf(rows, json);
  }

  lemma FaithfulIsHeard(frames: seq<Sse.Frame>)
    requires forall k :: 0 <= k < |frames| ==> Sse.Faithful(frames[k])
    ensures forall k :: 0 <= k < |frames| ==> Sse.Heard(frames[k].data) == frames[k].data
  {
    forall k | 0 <= k < |frames| ensures Sse.Heard(frames[k].data) == frames[k].data {
      Sse.HeardAsSentIff(frames[k].data);
    }
  }

  lemma {:induction false} ArrivingRows(frames: seq<Sse.Frame>, rows: seq<Row>, json: Row -> string, buffer: string)
    requires WithoutKeepalives(frames) == FramesOf(rows, json)
    requires forall k :: 0 <= k < |frames| ==> Sse.Faithful(frames[k])
    ensures Sse.Arriving(frames, buffer) == MessagesOf(rows, json)
    ensures Sse.LastId(frames, buffer) == if rows == [] then buffer else Sse.Digits(rows[|rows| - 1].num)
  {
    FaithfulIsHeard(frames);
    Sse.ArrivingIsSent(frames, buffer);
    KeepalivesDoNotCount(frames, buffer);
    RowsAreSent(rows, json, buffer);
  }

  ghost predicate Numbered(log: seq<Row>) {
    forall k :: 0 <= k < |log| ==> log[k].num == k + 1
  }

  lemma FinalLogIsNumbered(run: seq<System>, doc: DocId)
    requires IsRun(run)
    ensures Numbered(FinalLog(run, doc))
  {
    RunKeepsInv(run, |run| - 1);
  }

  lemma {:induction false} SentRows(log: seq<Row>, start: nat, cursor: nat, frames: seq<Sse.Frame>, n: nat,
                                    json: Row -> string)
    returns (heard: nat)
    requires SentFrom(log, start, cursor, frames, json)
    ensures start <= heard <= cursor && (start < heard ==> heard <= |log|)
    ensures n == |Sse.StreamText(frames)| ==> heard == cursor
    ensures Carry(Arrived(frames, n), Slice(log, start, heard), json)
    ensures heard > start <==> WithoutKeepalives(Arrived(frames, n)) != []
  {
    SliceLength(log, start, cursor);
    var rows := Slice(log, start, cursor);
    var h := ArrivedRows(frames, n, rows, json);
    heard := start + h;
    SlicePrefix(log, start, cursor, rows, h);
  }

  lemma SliceLength(log: seq<Row>, a: nat, b: nat)
    requires a <= b && (a < b ==> b <= |log|)
    ensures |Slice(log, a, b)| == b - a
  {
  }

  lemma {:induction false} SliceFits(log: seq<Row>, a: nat, b: nat, json: Row -> string)
    requires Numbered(log) && Framable(log, json) && a <= b && (a < b ==> b <= |log|)
    ensures |Slice(log, a, b)| == b - a && Framable(Slice(log, a, b), json)
    ensures a < b ==> Slice(log, a, b)[b - a - 1].num == b
  {
  }

  // From commit to client and back. A client connects with its last id, and is cut off after any number of
  // characters. What it heard is exactly the log from there up to some event; and the id it has then leads
  // the server to go on behind that event if and only if the id survives, and from 0 otherwise.
  lemma {:induction false} ConnectionHears(log: seq<Row>, id: string, keeps: bool, cursor: nat,
                                           frames: seq<Sse.Frame>, n: nat, json: Row -> string)
    returns (heard: nat)
    requires Numbered(log) && Framable(log, json)
    requires SentFrom(log, StartOf(id), cursor, frames, json) && n <= |Sse.StreamText(frames)|
    ensures StartOf(id) <= heard <= cursor && (StartOf(id) < heard ==> heard <= |log|)
    ensures n == |Sse.StreamText(frames)| ==> heard == cursor
    ensures var c := Sse.Hear(Sse.Opened(id, keeps), Sse.StreamText(frames)[..n]);
            && c.messages == MessagesOf(Slice(log, StartOf(id), heard), json)
            && (StartOf(c.lastEventId) == heard <==> IdSurvives(id, keeps, frames, n))
            && (!IdSurvives(id, keeps, frames, n) ==> StartOf(c.lastEventId) == 0)
  {
    heard := SentRows(log, StartOf(id), cursor, frames, n, json);
    SliceFits(log, StartOf(id), cursor, json);
    FramesAreFaithful(frames, Slice(log, StartOf(id), cursor), json);
    SliceFits(log, StartOf(id), heard, json);
    HearsRows(id, keeps, frames, n, Slice(log, StartOf(id), heard), json);
    if heard > StartOf(id) { Sse.LastEventIdRoundTrip(heard); }
  }

  lemma {:induction false} SlicePrefix<T>(log: seq<T>, a: nat, b: nat, rows: seq<T>, h: nat)
    requires a <= b && (a < b ==> b <= |log|) && rows == Slice(log, a, b) && h <= |rows|
    ensures rows[..h] == Slice(log, a, a + h)
  {
  }

  // ----- Any number of connections -----

  // What one connection sent, where the server's cursor was then, and after how many characters it was cut.
  datatype Visit = Visit(frames: seq<Sse.Frame>, cursor: nat, cut: nat)

  function Received(v: Visit): string {
    var text := Sse.StreamText(v.frames);
    if v.cut <= |text| then text[..v.cut] else text
  }

  function ClientOf(v: Visit, id: string, keeps: bool): Sse.Client {
    Sse.Hear(Sse.Opened(id, keeps), Received(v))
  }

  // The ids a client has before and after its connections; it begins without one.
  ghost predicate IdsOf(visits: seq<Visit>, ids: seq<string>, keeps: bool) {
    && |ids| == |visits| + 1 && ids[0] == ""
    && forall j :: 0 <= j < |visits| ==> ids[j + 1] == ClientOf(visits[j], ids[j], keeps).lastEventId
  }

  // Everything it was told in the first k of them.
  function Told(visits: seq<Visit>, ids: seq<string>, k: nat, keeps: bool): seq<Sse.Message>
    requires k <= |visits| < |ids|
  {
    if k == 0 then [] else Told(visits, ids, k - 1, keeps) + ClientOf(visits[k - 1], ids[k - 1], keeps).messages
  }

  // Each connection is answered by a stream that starts behind the id the client then has, and is cut
  // somewhere.
  ghost predicate Answered(log: seq<Row>, v: Visit, id: string, json: Row -> string) {
    v.cut <= |Sse.StreamText(v.frames)| && SentFrom(log, StartOf(id), v.cursor, v.frames, json)
  }

  lemma {:induction false} MessagesConcat(a: seq<Row>, b: seq<Row>, json: Row -> string)
    ensures MessagesOf(a + b, json) == MessagesOf(a, json) + MessagesOf(b, json)
    decreases |b|
  {
    if b == [] {
      assert a + b == a;
    } else {
      assert (a + b)[..|a + b| - 1] == a + b[..|b| - 1];
      MessagesConcat(a, b[..|b| - 1], json);
    }
  }

  // What was told is the log up to the client's id.
  ghost predicate ToldTheLog(log: seq<Row>, told: seq<Sse.Message>, id: string, json: Row -> string) {
    StartOf(id) <= |log| && told == MessagesOf(log[..StartOf(id)], json)
  }

  lemma {:induction false} OneVisitMore(log: seq<Row>, v: Visit, id: string, keeps: bool, told: seq<Sse.Message>,
                                        json: Row -> string)
    requires Numbered(log) && Framable(log, json) && Answered(log, v, id, json)
    requires IdSurvives(id, keeps, v.frames, v.cut) && ToldTheLog(log, told, id, json)
    ensures ToldTheLog(log, told + ClientOf(v, id, keeps).messages, ClientOf(v, id, keeps).lastEventId, json)
  {
    var heard := ConnectionHears(log, id, keeps, v.cursor, v.frames, v.cut, json);
    JoinSlice(log, StartOf(id), heard, json);
  }

  lemma JoinSlice(log: seq<Row>, a: nat, b: nat, json: Row -> string)
    requires a <= |log| && a <= b && (a < b ==> b <= |log|)
    ensures MessagesOf(log[..a], json) + MessagesOf(Slice(log, a, b), json) == MessagesOf(log[..b], json)
  {
    MessagesConcat(log[..a], Slice(log, a, b), json);
    assert log[..a] + Slice(log, a, b) == log[..b];
  }

  // Visit j starts behind the id before it, and leaves an id to go on from.
  ghost predicate Resumes(log: seq<Row>, visits: seq<Visit>, ids: seq<string>, j: nat, keeps: bool, json: Row -> string)
    requires j < |visits| < |ids|
  {
    Answered(log, visits[j], ids[j], json) && IdSurvives(ids[j], keeps, visits[j].frames, visits[j].cut)
  }

  lemma {:induction false} SessionHearsTheLog(log: seq<Row>, visits: seq<Visit>, ids: seq<string>, k: nat,
                                              keeps: bool, json: Row -> string)
    requires Numbered(log) && Framable(log, json) && IdsOf(visits, ids, keeps) && k <= |visits|
    requires forall j :: 0 <= j < k ==> Resumes(log, visits, ids, j, keeps, json)
    ensures ToldTheLog(log, Told(visits, ids, k, keeps), ids[k], json)
    decreases k
  {
    if k > 0 {
      SessionHearsTheLog(log, visits, ids, k - 1, keeps, json);
      assert Resumes(log, visits, ids, k - 1, keeps, json);
      OneVisitMore(log, visits[k - 1], ids[k - 1], keeps, Told(visits, ids, k - 1, keeps), json);
    }
  }

  // Visit j starts behind the id before it.
  ghost predicate AllAnswered(log: seq<Row>, visits: seq<Visit>, ids: seq<string>, json: Row -> string)
    requires |visits| <= |ids|
  {
    forall j :: 0 <= j < |visits| ==> Answered(log, visits[j], ids[j], json)
  }

  lemma {:induction false} OneMessageEach(rows: seq<Row>, json: Row -> string)
    ensures |MessagesOf(rows, json)| == |rows|
  {
    if rows != [] { OneMessageEach(rows[..|rows| - 1], json); }
  }

  // A visit never takes the id further than what it told; and less far if the id does not survive.
  lemma {:induction false} VisitLeads(log: seq<Row>, v: Visit, id: string, keeps: bool, json: Row -> string)
    requires Numbered(log) && Framable(log, json) && Answered(log, v, id, json)
    ensures var c := ClientOf(v, id, keeps);
            && StartOf(c.lastEventId) <= StartOf(id) + |c.messages|
            && (!IdSurvives(id, keeps, v.frames, v.cut) ==> StartOf(c.lastEventId) < StartOf(id) + |c.messages|)
  {
    var heard := ConnectionHears(log, id, keeps, v.cursor, v.frames, v.cut, json);
    OneMessageEach(Slice(log, StartOf(id), heard), json);
    SliceFits(log, StartOf(id), heard, json);
  }

  ghost predicate SurvivesAll(visits: seq<Visit>, ids: seq<string>, k: nat, keeps: bool)
    requires k <= |visits| <= |ids|
  {
    forall j :: 0 <= j < k ==> IdSurvives(ids[j], keeps, visits[j].frames, visits[j].cut)
  }

  // The client is told at least as many events as its id counts, and more from the first loss on.
  lemma {:induction false} ToldAtLeast(log: seq<Row>, visits: seq<Visit>, ids: seq<string>, k: nat, keeps: bool,
                                       json: Row -> string)
    requires Numbered(log) && Framable(log, json) && IdsOf(visits, ids, keeps) && k <= |visits|
    requires AllAnswered(log, visits, ids, json)
    ensures TellsEnough(visits, ids, k, keeps)
    decreases k
  {
    if k > 0 {
      ToldAtLeast(log, visits, ids, k - 1, keeps, json);
      TellsMore(log, visits, ids, k, keeps, json);
      EnoughOneMore(visits, ids, k, keeps);
    }
  }

  // After k visits the client was told at least as many events as its id counts, and more if it lost one.
  ghost predicate TellsEnough(visits: seq<Visit>, ids: seq<string>, k: nat, keeps: bool)
    requires k <= |visits| < |ids|
  {
    && StartOf(ids[k]) <= |Told(visits, ids, k, keeps)|
    && (!SurvivesAll(visits, ids, k, keeps) ==> StartOf(ids[k]) < |Told(visits, ids, k, keeps)|)
  }

  // Visit k - 1 takes the id no further than what it told, and less far if the id does not survive it.
  ghost predicate TellsItsPart(visits: seq<Visit>, ids: seq<string>, k: nat, keeps: bool)
    requires 0 < k <= |visits| < |ids|
  {
    var more := |Told(visits, ids, k, keeps)| - |Told(visits, ids, k - 1, keeps)|;
    && StartOf(ids[k]) <= StartOf(ids[k - 1]) + more
    && (!IdSurvives(ids[k - 1], keeps, visits[k - 1].frames, visits[k - 1].cut) ==>
          StartOf(ids[k]) < StartOf(ids[k - 1]) + more)
  }

  lemma {:induction false} EnoughOneMore(visits: seq<Visit>, ids: seq<string>, k: nat, keeps: bool)
    requires 0 < k <= |visits| < |ids|
    requires TellsEnough(visits, ids, k - 1, keeps) && TellsItsPart(visits, ids, k, keeps)
    ensures TellsEnough(visits, ids, k, keeps)
  {
    SurvivesOneMore(visits, ids, k, keeps);
  }

  lemma {:induction false} TellsMore(log: seq<Row>, visits: seq<Visit>, ids: seq<string>, k: nat, keeps: bool,
                                     json: Row -> string)
    requires Numbered(log) && Framable(log, json) && IdsOf(visits, ids, keeps) && 0 < k <= |visits|
    requires AllAnswered(log, visits, ids, json)
    ensures TellsItsPart(visits, ids, k, keeps)
  {
    var v, id := visits[k - 1], ids[k - 1];
    assert Answered(log, v, id, json);
    NextId(visits, ids, k, keeps);
    VisitLeads(log, v, id, keeps, json);
  }

  lemma NextId(visits: seq<Visit>, ids: seq<string>, k: nat, keeps: bool)
    requires IdsOf(visits, ids, keeps) && 0 < k <= |visits|
    ensures ids[k] == ClientOf(visits[k - 1], ids[k - 1], keeps).lastEventId
  {
    assert ids[k - 1 + 1] == ClientOf(visits[k - 1], ids[k - 1], keeps).lastEventId;
  }

  lemma SurvivesOneMore(visits: seq<Visit>, ids: seq<string>, k: nat, keeps: bool)
    requires 0 < k <= |visits| <= |ids|
    ensures SurvivesAll(visits, ids, k, keeps) <==>
            && SurvivesAll(visits, ids, k - 1, keeps)
            && IdSurvives(ids[k - 1], keeps, visits[k - 1].frames, visits[k - 1].cut)
  {
  }

  lemma ToldLogIsCounted(log: seq<Row>, told: seq<Sse.Message>, id: string, json: Row -> string)
    requires ToldTheLog(log, told, id, json)
    ensures |told| == StartOf(id)
  {
    OneMessageEach(log[..StartOf(id)], json);
  }

  // Over any number of connections, each cut anywhere, while transactions go on committing: everything the
  // client was told is the log up to its id, each event once and in order, if and only if the id survived
  // each of them. A client that is opened with its id in the buffer never loses it.
  lemma ResumeLeavesNoGap(run: seq<System>, doc: DocId, visits: seq<Visit>, ids: seq<string>, keeps: bool,
                          json: Row -> string)
    requires IsRun(run) && Framable(FinalLog(run, doc), json) && IdsOf(visits, ids, keeps)
    requires forall j :: 0 <= j < |visits| ==>
      && visits[j].cut <= |Sse.StreamText(visits[j].frames)|
      && SentUpTo(run, doc, StartOf(ids[j]), visits[j].cursor, visits[j].frames, json)
    ensures ToldTheLog(FinalLog(run, doc), Told(visits, ids, |visits|, keeps), ids[|visits|], json) <==>
            SurvivesAll(visits, ids, |visits|, keeps)
  {
    var log := FinalLog(run, doc);
    FinalLogIsNumbered(run, doc);
    forall j | 0 <= j < |visits| ensures Answered(log, visits[j], ids[j], json) {
      assert SentUpTo(run, doc, StartOf(ids[j]), visits[j].cursor, visits[j].frames, json);
    }
    SessionIff(log, visits, ids, keeps, json);
  }

  lemma SessionIff(log: seq<Row>, visits: seq<Visit>, ids: seq<string>, keeps: bool, json: Row -> string)
    requires Numbered(log) && Framable(log, json) && IdsOf(visits, ids, keeps) && AllAnswered(log, visits, ids, json)
    ensures ToldTheLog(log, Told(visits, ids, |visits|, keeps), ids[|visits|], json) <==>
            SurvivesAll(visits, ids, |visits|, keeps)
  {
    var told, id := Told(visits, ids, |visits|, keeps), ids[|visits|];
    if SurvivesAll(visits, ids, |visits|, keeps) {
      forall j | 0 <= j < |visits| ensures Resumes(log, visits, ids, j, keeps, json) {
        assert Answered(log, visits[j], ids[j], json);
      }
      SessionHearsTheLog(log, visits, ids, |visits|, keeps, json);
    }
    ToldAtLeast(log, visits, ids, |visits|, keeps, json);
    if ToldTheLog(log, told, id, json) { ToldLogIsCounted(log, told, id, json); }
  }
}
