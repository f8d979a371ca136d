// The document event log, as in app/ingest/events.py: a counter per document, incremented under the
// row lock of the document, and a table of event rows written in the same transaction.
module Events {
  import opened Common

  type DocId = string

  datatype Body = Body(kind: string, payload: string)

  datatype Row = Row(num: nat, body: Body)

  // The primary key of the event table.
  datatype Key = Key(doc: DocId, num: nat)

  // What is committed: last_event_seq per document, and the event rows.
  datatype Db = Db(last: map<DocId, nat>, events: map<Key, Body>)

  // What an open transaction has written. A document it has updated is locked until it ends.
  datatype Txn = Txn(last: map<DocId, nat>, inserted: map<Key, Body>)

  datatype System = System(db: Db, open: map<nat, Txn>)

  datatype Step =
    | Create(doc: DocId)
    | Begin(t: nat)
    | Emit(t: nat, doc: DocId, body: Body)
    | Commit(t: nat)
    | Rollback(t: nat)

  datatype Outcome = Emitted(num: nat) | NotFound | KeyClash

  // ----- The steps -----

  ghost predicate LockedByOther(s: System, t: nat, doc: DocId) {
    exists u :: u in s.open && u != t && doc in s.open[u].last
  }

  // A step that would have to wait for a lock is not enabled.
  ghost predicate Enabled(s: System, step: Step) {
    match step
    case Create(doc) => doc !in s.db.last
    case Begin(t) => t !in s.open
    case Emit(t, doc, _) => t in s.open && !LockedByOther(s, t, doc)
    case Commit(t) => t in s.open
    case Rollback(t) => t in s.open
  }

  // UPDATE ... RETURNING, then INSERT: the counter is the transaction's own value, or the committed one.
  function EmitIn(db: Db, txn: Txn, doc: DocId, body: Body): (Txn, Outcome) {
    if doc !in db.last then (txn, NotFound)
    else
      var num := (if doc in txn.last then txn.last[doc] else db.last[doc]) + 1;
      if Key(doc, num) in db.events || Key(doc, num) in txn.inserted then (txn, KeyClash)
      else (Txn(txn.last[doc := num], txn.inserted[Key(doc, num) := body]), Emitted(num))
  }

  function Merged(db: Db, txn: Txn): Db {
    Db(db.last + txn.last, db.events + txn.inserted)
  }

  ghost function After(s: System, step: Step): System
    requires Enabled(s, step)
  {
    match step
    case Create(doc) => s.(db := s.db.(last := s.db.last[doc := 0]))
    case Begin(t) => s.(open := s.open[t := Txn(map[], map[])])
    case Emit(t, doc, body) => s.(open := s.open[t := EmitIn(s.db, s.open[t], doc, body).0])
    case Commit(t) => System(Merged(s.db, s.open[t]), s.open - {t})
    case Rollback(t) => s.(open := s.open - {t})
  }

  ghost predicate Next(s: System, s': System) {
    exists step :: Enabled(s, step) && s' == After(s, step)
  }

  ghost predicate IsRun(run: seq<System>) {
    && run != [] && run[0] == System(Db(map[], map[]), map[])
    && forall i :: 0 <= i < |run| - 1 ==> Next(run[i], run[i + 1])
  }

  // ----- What every run keeps -----

  // The committed sequence numbers of a document are exactly 1..last_event_seq.
  ghost predicate Contiguous(db: Db) {
    forall doc, n :: Key(doc, n) in db.events <==> doc in db.last && 1 <= n <= db.last[doc]
  }

  ghost predicate Continues(db: Db, txn: Txn) {
    && (forall doc :: doc in txn.last ==> doc in db.last && db.last[doc] < txn.last[doc])
    && (forall doc, n :: Key(doc, n) in txn.inserted <==> doc in txn.last && db.last[doc] < n <= txn.last[doc])
  }

  ghost predicate Inv(s: System) {
    && Contiguous(s.db)
    && (forall t :: t in s.open ==> Continues(s.db, s.open[t]))
    && (forall t, u, doc :: t in s.open && u in s.open && doc in s.open[t].last && doc in s.open[u].last ==> t == u)
  }

  lemma EmitContinues(db: Db, txn: Txn, doc: DocId, body: Body)
    requires Contiguous(db) && Continues(db, txn)
    ensures Continues(db, EmitIn(db, txn, doc, body).0)
    ensures EmitIn(db, txn, doc, body).1 ==
            if doc in db.last then Emitted(EmitIn(db, txn, doc, body).0.last[doc]) else NotFound
  {
  }

  lemma StepKeepsInv(s: System, step: Step)
    requires Inv(s) && Enabled(s, step)
    ensures Inv(After(s, step))
  {
    match step
    case Create(doc) => CreateKeepsInv(s, doc);
    case Begin(_) =>
    case Rollback(_) =>
    case Emit(t, doc, body) => EmitKeepsInv(s, t, doc, body);
    case Commit(t) => CommitContinues(s, t);
  }

  lemma CreateKeepsInv(s: System, doc: DocId)
    requires Inv(s) && Enabled(s, Create(doc))
    ensures Inv(After(s, Create(doc)))
  {
    forall t | t in s.open ensures Continues(After(s, Create(doc)).db, s.open[t]) {
      assert doc !in s.open[t].last;
    }
  }

  lemma EmitKeepsInv(s: System, t: nat, doc: DocId, body: Body)
    requires Inv(s) && Enabled(s, Emit(t, doc, body))
    ensures Inv(After(s, Emit(t, doc, body)))
  {
    EmitContinues(s.db, s.open[t], doc, body);
  }

  lemma CommitContinues(s: System, t: nat)
    requires Inv(s) && t in s.open
    ensures Contiguous(Merged(s.db, s.open[t]))
    ensures forall u :: u in s.open && u != t ==> Continues(Merged(s.db, s.open[t]), s.open[u])
  {
  }

  lemma {:induction false} RunKeepsInv(run: seq<System>, i: nat)
    requires IsRun(run) && i < |run|
    ensures Inv(run[i])
    decreases i
  {
    if i > 0 {
      RunKeepsInv(run, i - 1);
      assert Next(run[i - 1], run[i - 1 + 1]);
      var step :| Enabled(run[i - 1], step) && run[i] == After(run[i - 1], step);
      StepKeepsInv(run[i - 1], step);
    }
  }

  // In every reachable state the committed numbers of every document are 1..last_event_seq, and an
  // emit that runs there returns the next number of its transaction: an insert never hits a number taken.
  lemma SequencesAreContiguous(run: seq<System>, i: nat, t: nat, doc: DocId, body: Body)
    requires IsRun(run) && i < |run|
    ensures Contiguous(run[i].db)
    ensures Enabled(run[i], Emit(t, doc, body)) ==>
      !EmitIn(run[i].db, run[i].open[t], doc, body).1.KeyClash?
      && (doc !in run[i].db.last <==> EmitIn(run[i].db, run[i].open[t], doc, body).1 == NotFound)
  {
    RunKeepsInv(run, i);
    if Enabled(run[i], Emit(t, doc, body)) {
      EmitContinues(run[i].db, run[i].open[t], doc, body);
    }
  }

  // ----- What readers see -----

  ghost function Count(db: Db, doc: DocId): nat {
    if doc in db.last then db.last[doc] else 0
  }

  // The events of a document in the order of their numbers.
  ghost function LogOf(db: Db, doc: DocId): (log: seq<Row>)
    requires Contiguous(db)
    ensures |log| == Count(db, doc)
    ensures forall k :: 0 <= k < |log| ==>
      log[k].num == k + 1 && Key(doc, k + 1) in db.events && log[k].body == db.events[Key(doc, k + 1)]
  {
    seq(Count(db, doc), (k: nat) requires k < Count(db, doc) =>
      assert Key(doc, k + 1) in db.events;
      Row(k + 1, db.events[Key(doc, k + 1)]))
  }

  // The events a transaction will add to a document.
  ghost function Pending(db: Db, txn: Txn, doc: DocId): (log: seq<Row>)
    requires Continues(db, txn)
    ensures |log| == if doc in txn.last then txn.last[doc] - db.last[doc] else 0
  {
    if doc !in txn.last then []
    else
      var n: nat := txn.last[doc] - db.last[doc];
      seq(n, (k: nat) requires k < n =>
        assert Key(doc, db.last[doc] + 1 + k) in txn.inserted;
        Row(db.last[doc] + 1 + k, txn.inserted[Key(doc, db.last[doc] + 1 + k)]))
  }

  // An emit adds exactly its event, under the next number, to what its transaction will commit.
  lemma EmitAppends(db: Db, txn: Txn, doc: DocId, body: Body, other: DocId)
    requires Contiguous(db) && Continues(db, txn) && doc in db.last
    ensures var (txn', outcome) := EmitIn(db, txn, doc, body);
            && Continues(db, txn')
            && outcome == Emitted(db.last[doc] + |Pending(db, txn, doc)| + 1)
            && Pending(db, txn', doc) == Pending(db, txn, doc) + [Row(outcome.num, body)]
            && (other != doc ==> Pending(db, txn', other) == Pending(db, txn, other))
  {
    EmitContinues(db, txn, doc, body);
    PendingOfEmit(db, txn, EmitIn(db, txn, doc, body).0, doc, body);
    if other != doc { PendingOfOther(db, txn, EmitIn(db, txn, doc, body).0, doc, other); }
  }

  lemma PendingOfEmit(db: Db, txn: Txn, txn': Txn, doc: DocId, body: Body)
    requires Contiguous(db) && Continues(db, txn) && Continues(db, txn') && doc in db.last
    requires txn' == EmitIn(db, txn, doc, body).0
    ensures Pending(db, txn', doc) == Pending(db, txn, doc) + [Row(txn'.last[doc], body)]
  {
    var before, after := Pending(db, txn, doc), Pending(db, txn', doc);
    assert |after| == |before| + 1;
    forall k | 0 <= k < |after| ensures after[k] == (before + [Row(txn'.last[doc], body)])[k] {
      if k < |before| {
        assert Key(doc, db.last[doc] + 1 + k) in txn.inserted;
      }
    }
  }

  lemma PendingOfOther(db: Db, txn: Txn, txn': Txn, doc: DocId, other: DocId)
    requires Contiguous(db) && Continues(db, txn) && Continues(db, txn') && other != doc
    requires (other in txn'.last <==> other in txn.last) && (other in txn.last ==> txn'.last[other] == txn.last[other])
    requires forall n :: Key(other, n) in txn.inserted ==>
      Key(other, n) in txn'.inserted && txn'.inserted[Key(other, n)] == txn.inserted[Key(other, n)]
    ensures Pending(db, txn', other) == Pending(db, txn, other)
  {
    var before, after := Pending(db, txn, other), Pending(db, txn', other);
    forall k | 0 <= k < |before| ensures after[k] == before[k] {
      assert Key(other, db.last[other] + 1 + k) in txn.inserted;
    }
  }

  // A commit appends what its transaction emitted; nothing else changes what readers see.
  lemma CommitAppends(s: System, step: Step, doc: DocId)
    requires Inv(s) && Enabled(s, step)
    ensures Contiguous(After(s, step).db)
    ensures LogOf(After(s, step).db, doc) ==
            LogOf(s.db, doc) + if step.Commit? then Pending(s.db, s.open[step.t], doc) else []
  {
    StepKeepsInv(s, step);
    if step.Commit? {
      MergeAppends(s.db, s.open[step.t], doc);
    } else {
      assert LogOf(After(s, step).db, doc) == LogOf(s.db, doc);
    }
  }

  lemma MergeAppends(db: Db, txn: Txn, doc: DocId)
    requires Contiguous(db) && Continues(db, txn) && Contiguous(Merged(db, txn))
    ensures LogOf(Merged(db, txn), doc) == LogOf(db, doc) + Pending(db, txn, doc)
  {
    var before, added, after := LogOf(db, doc), Pending(db, txn, doc), LogOf(Merged(db, txn), doc);
    assert |after| == |before| + |added|;
    forall k | 0 <= k < |after| ensures after[k] == (before + added)[k] {
      assert Key(doc, k + 1) in Merged(db, txn).events;
      if k < |before| { assert Key(doc, k + 1) in db.events && Key(doc, k + 1) !in txn.inserted; }
    }
  }

  lemma NextAppends(s: System, s': System, doc: DocId)
    requires Inv(s) && Next(s, s')
    ensures Contiguous(s'.db) && IsPrefix(LogOf(s.db, doc), LogOf(s'.db, doc))
  {
    var step :| Enabled(s, step) && s' == After(s, step);
    CommitAppends(s, step, doc);
  }

  // Readers never see a number before the ones below it: what is visible only grows at its end.
  lemma {:induction false} LogsGrow(run: seq<System>, i: nat, j: nat, doc: DocId)
    requires IsRun(run) && i <= j < |run|
    ensures Contiguous(run[i].db) && Contiguous(run[j].db)
    ensures IsPrefix(LogOf(run[i].db, doc), LogOf(run[j].db, doc))
    decreases j
  {
    RunKeepsInv(run, i);
    RunKeepsInv(run, j);
    if i < j {
      LogsGrow(run, i, j - 1, doc);
      RunKeepsInv(run, j - 1);
      assert Next(run[j - 1], run[j - 1 + 1]);
      NextAppends(run[j - 1], run[j], doc);
      PrefixTrans(LogOf(run[i].db, doc), LogOf(run[j - 1].db, doc), LogOf(run[j].db, doc));
    }
  }

  // ----- Replay -----

  ghost predicate Above(db: Db, doc: DocId, after: nat, row: Row) {
    row.num > after && Key(doc, row.num) in db.events && db.events[Key(doc, row.num)] == row.body
  }

  // SELECT ... WHERE seq > after ORDER BY seq LIMIT limit: rows above `after`, ascending, at most
  // `limit`, and a row left out has the page full before it.
  ghost predicate IsPage(db: Db, doc: DocId, after: nat, limit: nat, rows: seq<Row>) {
    && |rows| <= limit
    && (forall i :: 0 <= i < |rows| ==> Above(db, doc, after, rows[i]))
    && (forall i, j :: 0 <= i < j < |rows| ==> rows[i].num < rows[j].num)
    && (forall row :: Above(db, doc, after, row) && row !in rows ==>
          |rows| == limit && forall i :: 0 <= i < |rows| ==> rows[i].num < row.num)
  }

  ghost function Replay(db: Db, doc: DocId, after: nat, limit: nat): seq<Row>
    requires Contiguous(db)
  {
    var log := LogOf(db, doc);
    if after >= |log| then [] else if |log| - after <= limit then log[after..] else log[after..after + limit]
  }

  // On contiguous numbers the query answers with the next slice of the log, and with nothing else.
  lemma ReplayIsTheQuery(db: Db, doc: DocId, after: nat, limit: nat, rows: seq<Row>)
    requires Contiguous(db)
    ensures IsPage(db, doc, after, limit, rows) <==> rows == Replay(db, doc, after, limit)
  {
    var page := Replay(db, doc, after, limit);
    if IsPage(db, doc, after, limit, rows) {
      PageNumbers(db, doc, after, limit, rows, |rows|);
      PageIsFull(db, doc, after, limit, rows);
      assert |rows| == |page|;
      forall i | 0 <= i < |rows| ensures rows[i] == page[i] {
        assert page[i] == LogOf(db, doc)[after + i];
        assert Above(db, doc, after, rows[i]);
      }
    }
    if rows == page {
      forall row | Above(db, doc, after, row) && row !in rows
        ensures |rows| == limit && forall i :: 0 <= i < |rows| ==> rows[i].num < row.num
      {
        PageHas(db, doc, after, limit, row);
      }
    }
  }

  lemma PageHas(db: Db, doc: DocId, after: nat, limit: nat, row: Row)
    requires Contiguous(db) && Above(db, doc, after, row)
    ensures row.num <= Count(db, doc)
    ensures row.num <= after + |Replay(db, doc, after, limit)| ==> row in Replay(db, doc, after, limit)
  {
    assert Key(doc, row.num) in db.events;
    var page, log := Replay(db, doc, after, limit), LogOf(db, doc);
    assert log[row.num - 1] == row;
    if row.num <= after + |page| {
      assert page[row.num - 1 - after] == log[row.num - 1];
    }
  }

  lemma {:induction false} PageNumbers(db: Db, doc: DocId, after: nat, limit: nat, rows: seq<Row>, n: nat)
    requires Contiguous(db) && IsPage(db, doc, after, limit, rows) && n <= |rows|
    ensures forall i :: 0 <= i < n ==> rows[i].num == after + 1 + i
    decreases n
  {
    if n > 0 {
      PageNumbers(db, doc, after, limit, rows, n - 1);
      var at: nat := after + n;
      assert Above(db, doc, after, rows[n - 1]);
      if n > 1 { assert rows[n - 2].num < rows[n - 1].num; }
      if at < rows[n - 1].num {
        assert Above(db, doc, after, rows[n - 1]);
        assert Key(doc, rows[n - 1].num) in db.events;
        assert Key(doc, at) in db.events;
        var missing := Row(at, db.events[Key(doc, at)]);
        assert Above(db, doc, after, missing);
        assert false;
      }
    }
  }

  lemma PageIsFull(db: Db, doc: DocId, after: nat, limit: nat, rows: seq<Row>)
    requires Contiguous(db) && IsPage(db, doc, after, limit, rows)
    requires forall i :: 0 <= i < |rows| ==> rows[i].num == after + 1 + i
    ensures |rows| == |Replay(db, doc, after, limit)|
  {
    var next: nat := after + 1 + |rows|;
    if rows != [] { assert Above(db, doc, after, rows[|rows| - 1]); }
    if next <= Count(db, doc) && |rows| < limit {
      assert Key(doc, next) in db.events;
      var missing := Row(next, db.events[Key(doc, next)]);
      assert Above(db, doc, after, missing);
      assert false;
    }
  }
}
