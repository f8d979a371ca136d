// Edits and re-embed jobs in any interleaving. A job, as in app/jobs/handlers/reembed_chunks.py, reads
// the texts of its chunks first and writes vectors later, in batches that are committed one by one.
module ReembedRuns {
  import opened Common
  import opened Text
  import opened BlockEdits

  // An execution of a job: the texts it read, and the chunks it has written.
  datatype Flight = Flight(job: nat, texts: map<string, string>, written: set<string>)

  datatype System = System(s: State, flights: map<nat, Flight>)

  datatype Act = EditBlock(doc: string, block: string, text: string, job: nat)
               | Read(ticket: nat, named: nat)
               | Write(ticket: nat, ids: set<string>)
               | Finish(ticket: nat)
               | Stop(ticket: nat)

  function TextsOf(s: State, ids: set<string>): map<string, string> {
    map c | c in s.chunks && c in ids :: s.chunks[c].text
  }

  // The vectors of the texts that were read, whatever the texts are now.
  function Overwritten(chunks: map<string, ChunkRow>, texts: map<string, string>, ids: set<string>,
                       embed: Embedder): map<string, ChunkRow> {
    map c | c in chunks ::
      if c in ids && c in texts then chunks[c].(embedding := Some(embed(texts[c]))) else chunks[c]
  }

  ghost predicate Edits(x: System, act: Act) {
    act.EditBlock? && EditOutcome(x.s, act.doc, act.block, act.text).Edited?
  }

  ghost predicate EditsChunk(x: System, act: Act, c: string) {
    Edits(x, act) && c in Affected(x.s.chunks, act.doc, act.block)
  }

  // A new job has an id of its own. A job may be executed more than once, also at the same time.
  ghost predicate Enabled(x: System, act: Act) {
    match act
    case EditBlock(_, _, _, job) => job !in x.s.jobs && forall t :: t in x.flights ==> x.flights[t].job != job
    case Read(t, job) => t !in x.flights && job in x.s.jobs
    case Write(t, ids) => t in x.flights && ids <= x.flights[t].texts.Keys
    case Finish(t) => t in x.flights && x.flights[t].written == x.flights[t].texts.Keys
    case Stop(t) => t in x.flights
  }

  // A refused edit changes nothing. The worker completes the job of an execution that wrote everything;
  // one that stops, by a failure or a crash, leaves its job.
  ghost function After(x: System, act: Act, embed: Embedder): System
    requires Enabled(x, act)
  {
    match act
    case EditBlock(doc, block, text, job) => if Edits(x, act) then x.(s := AfterEdit(x.s, doc, block, text, job)) else x
    case Read(t, job) => x.(flights := x.flights[t := Flight(job, TextsOf(x.s, x.s.jobs[job]), {})])
    case Write(t, ids) =>
      System(x.s.(chunks := Overwritten(x.s.chunks, x.flights[t].texts, ids, embed)),
             x.flights[t := x.flights[t].(written := x.flights[t].written + ids)])
    case Finish(t) => System(x.s.(jobs := x.s.jobs - {x.flights[t].job}), x.flights - {t})
    case Stop(t) => x.(flights := x.flights - {t})
  }

  ghost predicate IsRunOf(run: seq<System>, acts: seq<Act>, embed: Embedder) {
    && |run| == |acts| + 1 && FullyEmbedded(run[0].s, embed) && run[0].flights == map[]
    && forall k :: 0 <= k < |acts| ==> Enabled(run[k], acts[k]) && run[k + 1] == After(run[k], acts[k], embed)
  }

  // ----- What holds in any interleaving -----

  // An embedding that is missing is named by a job no execution of which has written it.
  ghost predicate Named(x: System, c: string) {
    exists job :: job in x.s.jobs && c in x.s.jobs[job] && Unwritten(x, job, c)
  }

  ghost predicate Unwritten(x: System, job: nat, c: string) {
    forall t :: t in x.flights && x.flights[t].job == job ==> c in x.flights[t].texts && c !in x.flights[t].written
  }

  ghost predicate Sound(x: System) {
    && Cascaded(x.s) && OwnBlocks(x.s)
    && (forall t :: t in x.flights ==> x.flights[t].texts.Keys <= x.s.chunks.Keys)
    && (forall c :: c in x.s.chunks && x.s.chunks[c].embedding.None? ==> Named(x, c))
  }

  lemma EditIsSound(x: System, act: Act, embed: Embedder)
    requires Sound(x) && Enabled(x, act) && act.EditBlock?
    ensures Sound(After(x, act, embed))
  {
    if Edits(x, act) {
      var y := After(x, act, embed);
      EditCascades(x.s, act.doc, act.block, act.text, act.job);
      forall c | c in y.s.chunks && y.s.chunks[c].embedding.None? ensures Named(y, c) {
        EditNames(x, act, c, embed);
      }
    }
  }

  lemma EditNames(x: System, act: Act, c: string, embed: Embedder)
    requires Sound(x) && Enabled(x, act) && Edits(x, act) && c in x.s.chunks
    requires After(x, act, embed).s.chunks[c].embedding.None?
    ensures Named(After(x, act, embed), c)
  {
    var y := After(x, act, embed);
    if EditsChunk(x, act, c) {
      assert c in y.s.jobs[act.job] && Unwritten(y, act.job, c);
    } else {
      var job :| job in x.s.jobs && c in x.s.jobs[job] && Unwritten(x, job, c);
      assert Unwritten(y, job, c);
    }
  }

  lemma WriteIsSound(x: System, t: nat, ids: set<string>, embed: Embedder)
    requires Sound(x) && Enabled(x, Write(t, ids))
    ensures Sound(After(x, Write(t, ids), embed))
  {
    var y := After(x, Write(t, ids), embed);
    forall c | c in y.s.chunks && y.s.chunks[c].embedding.None? ensures Named(y, c) {
      var job :| job in x.s.jobs && c in x.s.jobs[job] && Unwritten(x, job, c);
      assert Unwritten(y, job, c);
    }
  }

  lemma ReadIsSound(x: System, t: nat, job: nat, embed: Embedder)
    requires Sound(x) && Enabled(x, Read(t, job))
    ensures Sound(After(x, Read(t, job), embed))
  {
    var y := After(x, Read(t, job), embed);
    forall c | c in y.s.chunks && y.s.chunks[c].embedding.None? ensures Named(y, c) {
      var j :| j in x.s.jobs && c in x.s.jobs[j] && Unwritten(x, j, c);
      assert Unwritten(y, j, c);
    }
  }

  lemma EndIsSound(x: System, act: Act, embed: Embedder)
    requires Sound(x) && Enabled(x, act) && (act.Finish? || act.Stop?)
    ensures Sound(After(x, act, embed))
  {
    var y := After(x, act, embed);
    forall c | c in y.s.chunks && y.s.chunks[c].embedding.None? ensures Named(y, c) {
      var j :| j in x.s.jobs && c in x.s.jobs[j] && Unwritten(x, j, c);
      assert Unwritten(y, j, c);
    }
  }

  // Whatever the interleaving: a missing embedding is named by a job not yet completed, a touched chunk is
  // what its blocks say now, and its citations are stale.
  lemma {:induction false} RunIsSound(run: seq<System>, acts: seq<Act>, n: nat, embed: Embedder)
    requires IsRunOf(run, acts, embed) && n < |run|
    ensures Sound(run[n]) && TouchedRead(run[n].s)
    decreases n
  {
    if n > 0 {
      RunIsSound(run, acts, n - 1, embed);
      var x := run[n - 1];
      match acts[n - 1]
      case EditBlock(_, _, _, _) => EditIsSound(x, acts[n - 1], embed);
      case Read(t, job) => ReadIsSound(x, t, job, embed);
      case Write(t, ids) => WriteIsSound(x, t, ids, embed);
      case Finish(_) => EndIsSound(x, acts[n - 1], embed);
      case Stop(_) => EndIsSound(x, acts[n - 1], embed);
    }
    CascadedReads(run[n].s);
  }

  // ----- When an embedding is current -----

  // The last write of a chunk among the first n acts, or -1.
  function LastWrite(acts: seq<Act>, c: string, n: nat): (w: int)
    requires n <= |acts|
    ensures -1 <= w < n
    ensures w >= 0 ==> acts[w].Write? && c in acts[w].ids
    decreases n
  {
    if n == 0 then -1
    else if acts[n - 1].Write? && c in acts[n - 1].ids then n - 1
    else LastWrite(acts, c, n - 1)
  }

  // At act w the chunk's text is no longer the one the writing execution read.
  ghost predicate Late(run: seq<System>, acts: seq<Act>, w: nat, c: string)
    requires w < |acts| < |run|
  {
    && acts[w].Write? && c in acts[w].ids && acts[w].ticket in run[w].flights && c in run[w].s.chunks
    && c in run[w].flights[acts[w].ticket].texts
    && run[w].flights[acts[w].ticket].texts[c] != run[w].s.chunks[c].text
  }

  ghost predicate Separates(embed: Embedder) {
    forall a, b :: embed(a) == embed(b) ==> a == b
  }

  // What the last write put there, and that nothing has changed the text since.
  ghost predicate AsWritten(run: seq<System>, acts: seq<Act>, n: nat, c: string, embed: Embedder)
    requires n <= |acts| < |run| && c in run[n].s.chunks && run[n].s.chunks[c].embedding.Some?
  {
    var w := LastWrite(acts, c, n);
    var row := run[n].s.chunks[c];
    if w < 0 then row.embedding == Some(embed(row.text))
    else
      && c in run[w].s.chunks && run[w].s.chunks[c].text == row.text
      && acts[w].ticket in run[w].flights && c in run[w].flights[acts[w].ticket].texts
      && row.embedding == Some(embed(run[w].flights[acts[w].ticket].texts[c]))
  }

  lemma {:induction false} EmbeddingAsWritten(run: seq<System>, acts: seq<Act>, n: nat, c: string, embed: Embedder)
    requires IsRunOf(run, acts, embed) && n < |run| && c in run[n].s.chunks && run[n].s.chunks[c].embedding.Some?
    ensures AsWritten(run, acts, n, c, embed)
    decreases n
  {
    if n > 0 {
      RunIsSound(run, acts, n - 1, embed);
      var x, act := run[n - 1], acts[n - 1];
      assert c in x.s.chunks;
      if !(act.Write? && c in act.ids) {
        assert !EditsChunk(x, act, c);
        assert x.s.chunks[c] == run[n].s.chunks[c];
        EmbeddingAsWritten(run, acts, n - 1, c, embed);
      }
    }
  }

  // An embedding that is there is that of the chunk's text if its last write was not late, or there was
  // none; and only then, as far as the embedder tells the two texts apart.
  lemma EndsCurrentIff(run: seq<System>, acts: seq<Act>, n: nat, c: string, embed: Embedder)
    requires IsRunOf(run, acts, embed) && n < |run| && c in run[n].s.chunks && run[n].s.chunks[c].embedding.Some?
    ensures var w := LastWrite(acts, c, n);
            && (w < 0 || !Late(run, acts, w, c) ==> Current(run[n].s, c, embed))
            && (Separates(embed) ==> (Current(run[n].s, c, embed) <==> w < 0 || !Late(run, acts, w, c)))
  {
    EmbeddingAsWritten(run, acts, n, c, embed);
  }

  ghost predicate AllCurrent(s: State, embed: Embedder) {
    forall c :: c in s.chunks ==> Current(s, c, embed)
  }

  // Along a whole run, embeddings are current in every state if and only if no write is late: the check
  // of a chunk's text against the one that was read, made at each write, is all that is missing.
  lemma AlwaysCurrentIff(run: seq<System>, acts: seq<Act>, embed: Embedder)
    requires IsRunOf(run, acts, embed) && Separates(embed)
    ensures (forall n :: 0 <= n < |run| ==> AllCurrent(run[n].s, embed)) <==>
            (forall w: nat, c :: w < |acts| ==> !Late(run, acts, w, c))
  {
    if forall w: nat, c :: w < |acts| ==> !Late(run, acts, w, c) {
      forall n | 0 <= n < |run| ensures AllCurrent(run[n].s, embed) {
        forall c | c in run[n].s.chunks ensures Current(run[n].s, c, embed) {
          if run[n].s.chunks[c].embedding.Some? { EndsCurrentIff(run, acts, n, c, embed); }
        }
      }
    }
    if forall n :: 0 <= n < |run| ==> AllCurrent(run[n].s, embed) {
      forall w: nat, c | w < |acts| ensures !Late(run, acts, w, c) {
        assert AllCurrent(run[w + 1].s, embed);
        if Late(run, acts, w, c) { LateIsNotCurrent(run, acts, w, c, embed); }
      }
    }
  }

  lemma LateIsNotCurrent(run: seq<System>, acts: seq<Act>, w: nat, c: string, embed: Embedder)
    requires IsRunOf(run, acts, embed) && Separates(embed) && w < |acts| && Late(run, acts, w, c)
    ensures c in run[w + 1].s.chunks && !Current(run[w + 1].s, c, embed)
  {
    assert run[w + 1] == After(run[w], acts[w], embed);
  }

  // ----- What makes a write late -----

  // The read that started an execution: the last one of that ticket among the first n acts, or -1.
  function ReadAt(acts: seq<Act>, t: nat, n: nat): (r: int)
    requires n <= |acts|
    ensures -1 <= r < n
    decreases n
  {
    if n == 0 then -1
    else if acts[n - 1].Read? && acts[n - 1].ticket == t then n - 1
    else ReadAt(acts, t, n - 1)
  }

  lemma {:induction false} FlightRemembers(run: seq<System>, acts: seq<Act>, n: nat, t: nat, embed: Embedder)
    requires IsRunOf(run, acts, embed) && n < |run| && t in run[n].flights
    ensures var r := ReadAt(acts, t, n);
            && r >= 0
            && forall c :: c in run[n].flights[t].texts ==>
                 c in run[r].s.chunks && run[n].flights[t].texts[c] == run[r].s.chunks[c].text
    decreases n
  {
    if n > 0 && !(acts[n - 1].Read? && acts[n - 1].ticket == t) {
      assert t in run[n - 1].flights && run[n].flights[t].texts == run[n - 1].flights[t].texts;
      FlightRemembers(run, acts, n - 1, t, embed);
    }
  }

  lemma {:induction false} TextStays(run: seq<System>, acts: seq<Act>, r: nat, n: nat, c: string, embed: Embedder)
    requires IsRunOf(run, acts, embed) && r <= n < |run| && c in run[r].s.chunks
    requires forall j :: r <= j < n ==> !EditsChunk(run[j], acts[j], c)
    ensures c in run[n].s.chunks && run[n].s.chunks[c].text == run[r].s.chunks[c].text
    decreases n
  {
    if r < n {
      TextStays(run, acts, r, n - 1, c, embed);
      assert !EditsChunk(run[n - 1], acts[n - 1], c);
    }
  }

  // A write is late exactly if the chunk's text at the read and at the write differ; so only an edit of
  // the chunk between the two can make it so.
  lemma LateMeansEdited(run: seq<System>, acts: seq<Act>, w: nat, c: string, embed: Embedder)
    requires IsRunOf(run, acts, embed) && w < |acts| && acts[w].Write? && c in acts[w].ids
    ensures var r := ReadAt(acts, acts[w].ticket, w);
            && r >= 0 && c in run[r].s.chunks && c in run[w].s.chunks
            && (Late(run, acts, w, c) <==> run[r].s.chunks[c].text != run[w].s.chunks[c].text)
            && (Late(run, acts, w, c) ==> exists j :: r <= j < w && EditsChunk(run[j], acts[j], c))
  {
    RunIsSound(run, acts, w, embed);
    assert Enabled(run[w], acts[w]);
    FlightRemembers(run, acts, w, acts[w].ticket, embed);
    var r := ReadAt(acts, acts[w].ticket, w);
    if forall j :: r <= j < w ==> !EditsChunk(run[j], acts[j], c) {
      TextStays(run, acts, r, w, c, embed);
    }
  }

  // So with no job left every chunk has an embedding, and it is current unless an edit of the chunk came
  // between the read and the write of the execution that wrote it last.
  lemma QuietIsCurrent(run: seq<System>, acts: seq<Act>, n: nat, c: string, embed: Embedder)
    requires IsRunOf(run, acts, embed) && n < |run| && run[n].s.jobs == map[] && c in run[n].s.chunks
    ensures run[n].s.chunks[c].embedding.Some?
    ensures Current(run[n].s, c, embed) ||
            var w := LastWrite(acts, c, n);
            w >= 0 && exists j :: 0 <= ReadAt(acts, acts[w].ticket, w) <= j < w && EditsChunk(run[j], acts[j], c)
  {
    RunIsSound(run, acts, n, embed);
    EndsCurrentIff(run, acts, n, c, embed);
    var w := LastWrite(acts, c, n);
    if w >= 0 { LateMeansEdited(run, acts, w, c, embed); }
  }

  // ----- A stale vector with no job left -----

  // The state as far as one chunk goes: its text and embedding, the jobs and the executions.
  ghost predicate Looks(x: System, c: string, doc: string, block: string, blockText: string, text: string,
                        v: Option<Vec>,
                        jobs: map<nat, set<string>>, flights: map<nat, Flight>)
  {
    && doc in x.s.docs && x.s.docs[doc] == Ready && block in x.s.blocks && x.s.blocks[block] == BlockRow(doc, blockText)
    && c in x.s.chunks && Affected(x.s.chunks, doc, block) == {c}
    && x.s.chunks[c].text == text && x.s.chunks[c].embedding == v
    && x.s.jobs == jobs && x.flights == flights
  }

  ghost predicate Takes(x: System, act: Act, y: System, embed: Embedder) {
    Enabled(x, act) && y == After(x, act, embed)
  }

  lemma EditLooks(x: System, c: string, doc: string, block: string, was: string, text: string, v: Option<Vec>,
                  jobs: map<nat, set<string>>, flights: map<nat, Flight>, becomes: string, job: nat, embed: Embedder)
    returns (y: System)
    requires Looks(x, c, doc, block, was, text, v, jobs, flights)
    requires becomes != was && becomes != "" && Trim(becomes) != "" && Enabled(x, EditBlock(doc, block, becomes, job))
    ensures Takes(x, EditBlock(doc, block, becomes, job), y, embed)
    ensures var rebuilt := Rebuilt(x.s.blocks[block := BlockRow(doc, becomes)], x.s.chunks[c].blockIds);
            Looks(y, c, doc, block, becomes, rebuilt, None, jobs[job := {c}], flights)
    ensures y.s.blocks == x.s.blocks[block := BlockRow(doc, becomes)]
        && y.s.chunks[c].blockIds == x.s.chunks[c].blockIds
  {
    var act := EditBlock(doc, block, becomes, job);
    assert Edits(x, act);
    y := After(x, act, embed);
    assert x.s.blocks[block].(text := becomes) == BlockRow(doc, becomes);
    assert Affected(y.s.chunks, doc, block) == Affected(x.s.chunks, doc, block);
  }

  lemma ReadLooks(x: System, c: string, doc: string, block: string, blockText: string, text: string, v: Option<Vec>,
                  jobs: map<nat, set<string>>, flights: map<nat, Flight>, t: nat, job: nat, embed: Embedder)
    returns (y: System)
    requires Looks(x, c, doc, block, blockText, text, v, jobs, flights) && job in jobs && jobs[job] == {c}
        && t !in flights
    ensures Takes(x, Read(t, job), y, embed) && y.s == x.s
    ensures Looks(y, c, doc, block, blockText, text, v, jobs, flights[t := Flight(job, map[c := text], {})])
  {
    assert TextsOf(x.s, {c}) == map[c := text];
    y := After(x, Read(t, job), embed);
  }

  lemma WriteLooks(x: System, c: string, doc: string, block: string, blockText: string, text: string, v: Option<Vec>,
                   jobs: map<nat, set<string>>, flights: map<nat, Flight>, t: nat, read: string, embed: Embedder)
    returns (y: System)
    requires Looks(x, c, doc, block, blockText, text, v, jobs, flights)
    requires t in flights && flights[t].texts == map[c := read] && flights[t].written == {}
    ensures Takes(x, Write(t, {c}), y, embed)
    ensures Looks(y, c, doc, block, blockText, text, Some(embed(read)), jobs, flights[t := flights[t].(written := {c})])
  {
    y := After(x, Write(t, {c}), embed);
    assert x.flights[t].written + {c} == {c};
    assert Affected(y.s.chunks, doc, block) == Affected(x.s.chunks, doc, block);
  }

  lemma FinishLooks(x: System, c: string, doc: string, block: string, blockText: string, text: string, v: Option<Vec>,
                    jobs: map<nat, set<string>>, flights: map<nat, Flight>, t: nat, embed: Embedder) returns (y: System)
    requires Looks(x, c, doc, block, blockText, text, v, jobs, flights)
    requires t in flights && flights[t].written == flights[t].texts.Keys
    ensures Takes(x, Finish(t), y, embed)
    ensures Looks(y, c, doc, block, blockText, text, v, jobs - {flights[t].job}, flights - {t})
  {
    y := After(x, Finish(t), embed);
  }

  lemma TwoActs(x: System, a: Act, y: System, b: Act, z: System, embed: Embedder) returns (run: seq<System>)
    requires Takes(x, a, y, embed) && Takes(y, b, z, embed)
    ensures Path(run, [a, b], x, embed) && run == [x, y, z]
  {
    run := [x, y, z];
  }

  // An execution reads what an edit has just made of the chunk.
  lemma EditAndRead(x: System, c: string, doc: string, block: string, was: string, text: string, v: Option<Vec>,
                    jobs: map<nat, set<string>>, flights: map<nat, Flight>, becomes: string, job: nat, t: nat,
                    embed: Embedder)
    returns (run: seq<System>, last: System)
    requires Looks(x, c, doc, block, was, text, v, jobs, flights) && t !in flights
    requires becomes != was && becomes != "" && Trim(becomes) != "" && Enabled(x, EditBlock(doc, block, becomes, job))
    ensures Path(run, [EditBlock(doc, block, becomes, job), Read(t, job)], x, embed) && run[|run| - 1] == last
    ensures var rebuilt := Rebuilt(x.s.blocks[block := BlockRow(doc, becomes)], x.s.chunks[c].blockIds);
            Looks(last, c, doc, block, becomes, rebuilt, None, jobs[job := {c}],
                flights[t := Flight(job, map[c := rebuilt], {})])
    ensures last.s.blocks == x.s.blocks[block := BlockRow(doc, becomes)]
        && last.s.chunks[c].blockIds == x.s.chunks[c].blockIds
  {
    var rebuilt := Rebuilt(x.s.blocks[block := BlockRow(doc, becomes)], x.s.chunks[c].blockIds);
    var y := EditLooks(x, c, doc, block, was, text, v, jobs, flights, becomes, job, embed);
    last := ReadLooks(y, c, doc, block, becomes, rebuilt, None, jobs[job := {c}], flights, t, job, embed);
    run := TwoActs(x, EditBlock(doc, block, becomes, job), y, Read(t, job), last, embed);
  }

  // An execution writes its one chunk and completes its job.
  lemma WriteAndFinish(x: System, c: string, doc: string, block: string, blockText: string, text: string,
                       v: Option<Vec>,
                       jobs: map<nat, set<string>>, flights: map<nat, Flight>, t: nat, read: string, embed: Embedder)
    returns (run: seq<System>)
    requires Looks(x, c, doc, block, blockText, text, v, jobs, flights)
    requires t in flights && flights[t].texts == map[c := read] && flights[t].written == {}
    ensures Path(run, [Write(t, {c}), Finish(t)], x, embed) && |run| == 3
    ensures Looks(run[2], c, doc, block, blockText, text, Some(embed(read)), jobs - {flights[t].job}, flights - {t})
  {
    var y := WriteLooks(x, c, doc, block, blockText, text, v, jobs, flights, t, read, embed);
    var written := flights[t := flights[t].(written := {c})];
    var z := FinishLooks(y, c, doc, block, blockText, text, Some(embed(read)), jobs, written, t, embed);
    assert written - {t} == flights - {t};
    run := TwoActs(x, Write(t, {c}), y, Finish(t), z, embed);
  }

  ghost predicate Path(run: seq<System>, acts: seq<Act>, from: System, embed: Embedder) {
    && |run| == |acts| + 1 && run[0] == from
    && forall k :: 0 <= k < |acts| ==> Enabled(run[k], acts[k]) && run[k + 1] == After(run[k], acts[k], embed)
  }

  lemma PathsJoin(a: seq<System>, acts: seq<Act>, b: seq<System>, more: seq<Act>, from: System, embed: Embedder)
    returns (run: seq<System>)
    requires Path(a, acts, from, embed) && Path(b, more, a[|a| - 1], embed)
    ensures Path(run, acts + more, from, embed) && run[|run| - 1] == b[|b| - 1]
  {
    run := a + b[1..];
    var all := acts + more;
    forall k | 0 <= k < |all| ensures Enabled(run[k], all[k]) && run[k + 1] == After(run[k], all[k], embed) {
      if k < |acts| {
        assert run[k] == a[k] && run[k + 1] == a[k + 1] && all[k] == acts[k];
      } else {
        var j := k - |acts|;
        assert run[k] == b[j] && run[k + 1] == b[j + 1] && all[k] == more[j];
      }
    }
  }

  function EditsOf(doc: string, block: string, first: string, second: string): seq<Act> {
    [EditBlock(doc, block, first, 1), Read(0, 1)] + [EditBlock(doc, block, second, 2), Read(1, 2)]
  }

  function WritesOf(c: string): seq<Act> {
    [Write(1, {c}), Finish(1)] + [Write(0, {c}), Finish(0)]
  }

  lemma StartLooks(s: State, c: string, doc: string, block: string, text: string)
    requires s.jobs == map[] && Affected(s.chunks, doc, block) == {c} && EditOutcome(s, doc, block, text).Edited?
    ensures Looks(System(s, map[]), c, doc, block, s.blocks[block].text, s.chunks[c].text, s.chunks[c].embedding,
        map[], map[])
    ensures text != s.blocks[block].text && text != "" && Trim(text) != ""
  {
    assert c in Affected(s.chunks, doc, block);
  }

  // Both jobs have read the chunk, the first one before the second edit.
  lemma BothHaveRead(s: State, c: string, doc: string, block: string, first: string, second: string, embed: Embedder)
    returns (run: seq<System>, text1: string, text2: string)
    requires s.jobs == map[] && Affected(s.chunks, doc, block) == {c}
    requires EditOutcome(s, doc, block, first).Edited? && second != first && second != "" && Trim(second) != ""
    ensures Path(run, EditsOf(doc, block, first, second), System(s, map[]), embed)
    ensures text1 == Rebuilt(s.blocks[block := BlockRow(doc, first)], s.chunks[c].blockIds)
    ensures text2 == Rebuilt(s.blocks[block := BlockRow(doc, second)], s.chunks[c].blockIds)
    ensures Looks(run[|run| - 1], c, doc, block, second, text2, None, map[1 := {c}, 2 := {c}],
                  map[0 := Flight(1, map[c := text1], {}), 1 := Flight(2, map[c := text2], {})])
  {
    var x := System(s, map[]);
    text1 := Rebuilt(s.blocks[block := BlockRow(doc, first)], s.chunks[c].blockIds);
    text2 := Rebuilt(s.blocks[block := BlockRow(doc, second)], s.chunks[c].blockIds);
    StartLooks(s, c, doc, block, first);
    var a, mid := EditAndRead(x, c, doc, block, s.blocks[block].text, s.chunks[c].text, s.chunks[c].embedding,
        map[], map[], first, 1, 0, embed);
    assert s.blocks[block := BlockRow(doc, first)][block := BlockRow(doc, second)] ==
        s.blocks[block := BlockRow(doc, second)];
    var b, end := EditAndRead(mid, c, doc, block, first, text1, None, map[1 := {c}],
        map[0 := Flight(1, map[c := text1], {})], second, 2, 1, embed);
    run := PathsJoin(a, [EditBlock(doc, block, first, 1), Read(0, 1)], b,
        [EditBlock(doc, block, second, 2), Read(1, 2)], x, embed);
  }

  // The second job writes and is done, then the first.
  lemma BothWrite(x: System, c: string, doc: string, block: string, second: string, text1: string, text2: string,
                  embed: Embedder)
    returns (run: seq<System>)
    requires Looks(x, c, doc, block, second, text2, None, map[1 := {c}, 2 := {c}],
                   map[0 := Flight(1, map[c := text1], {}), 1 := Flight(2, map[c := text2], {})])
    ensures Path(run, WritesOf(c), x, embed)
    ensures Looks(run[|run| - 1], c, doc, block, second, text2, Some(embed(text1)), map[], map[])
  {
    var f0, f1 := Flight(1, map[c := text1], {}), Flight(2, map[c := text2], {});
    var a := WriteAndFinish(x, c, doc, block, second, text2, None, map[1 := {c}, 2 := {c}], map[0 := f0, 1 := f1],
        1, text2, embed);
    assert map[1 := {c}, 2 := {c}] - {2} == map[1 := {c}] && map[0 := f0, 1 := f1] - {1} == map[0 := f0];
    var b := WriteAndFinish(a[2], c, doc, block, second, text2, Some(embed(text2)), map[1 := {c}], map[0 := f0],
        0, text1, embed);
    assert map[1 := {c}] - {1} == map[] && map[0 := f0] - {0} == map[];
    run := PathsJoin(a, [Write(1, {c}), Finish(1)], b, [Write(0, {c}), Finish(0)], x, embed);
  }

  // From any fully embedded state: job 1 reads the chunk after the first edit; the second edit comes, and
  // its own job reads, writes and is completed; then job 1 writes what it read and is completed. No job
  // is left, and the chunk keeps the vector of a text it no longer has.
  lemma LateWriteIsStale(s: State, c: string, doc: string, block: string, first: string, second: string,
                         embed: Embedder)
    returns (run: seq<System>)
    requires FullyEmbedded(s, embed) && s.jobs == map[] && Affected(s.chunks, doc, block) == {c}
    requires EditOutcome(s, doc, block, first).Edited? && second != first && second != "" && Trim(second) != ""
    ensures IsRunOf(run, EditsOf(doc, block, first, second) + WritesOf(c), embed) && run[0].s == s
    ensures var last := run[|run| - 1];
            var ids := s.chunks[c].blockIds;
            && last.s.jobs == map[] && last.flights == map[] && c in last.s.chunks
            && last.s.chunks[c].text == Rebuilt(s.blocks[block := BlockRow(doc, second)], ids)
            && last.s.chunks[c].embedding == Some(embed(Rebuilt(s.blocks[block := BlockRow(doc, first)], ids)))
  {
    var a, text1, text2 := BothHaveRead(s, c, doc, block, first, second, embed);
    var b := BothWrite(a[|a| - 1], c, doc, block, second, text1, text2, embed);
    run := PathsJoin(a, EditsOf(doc, block, first, second), b, WritesOf(c), System(s, map[]), embed);
  }
}
