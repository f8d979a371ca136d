// Editing a block of a document and embedding its chunks again, as in app/ingest/block_edits.py and
// app/jobs/handlers/reembed_chunks.py. A transaction is one step.
module BlockEdits {
  import opened Common
  import opened Text

  type Vec = seq<real>

  type Embedder = string -> Vec

  datatype DocStatus = Ready | NotReady(status: string)

  datatype BlockRow = BlockRow(doc: string, text: string)

  datatype ChunkRow = ChunkRow(doc: string, blockIds: seq<string>, text: string, embedding: Option<Vec>)

  datatype CitationRow = CitationRow(chunkId: string, status: string)

  // The tables, and the re-embed jobs that are not completed with the chunks they name. `touched` are
  // the chunks some edit has rebuilt.
  datatype State = State(docs: map<string, DocStatus>, blocks: map<string, BlockRow>, chunks: map<string, ChunkRow>,
                         citations: map<string, CitationRow>, jobs: map<nat, set<string>>, touched: set<string>)

  datatype EditResult = TextEmpty | DocumentNotFound | DocumentNotReady | BlockNotFound | NoChange
                      | Edited(affected: nat, stale: nat)

  const BATCH_SIZE := 32

  const STALE := "stale"

  // ----- An edit -----

  function BlockTexts(blocks: map<string, BlockRow>, ids: seq<string>): (texts: seq<string>)
    ensures |texts| == |ids|
    ensures forall i :: 0 <= i < |ids| ==> texts[i] == if ids[i] in blocks then blocks[ids[i]].text else ""
  {
    seq(|ids|, (i: int) requires 0 <= i < |ids| => if ids[i] in blocks then blocks[ids[i]].text else "")
  }

  // A deleted block counts as an empty one.
  function Rebuilt(blocks: map<string, BlockRow>, ids: seq<string>): string {
    Trim(Join(BlockTexts(blocks, ids), "\n"))
  }

  function Affected(chunks: map<string, ChunkRow>, doc: string, block: string): set<string> {
    set c | c in chunks && chunks[c].doc == doc && block in chunks[c].blockIds
  }

  function WithChunks(chunks: map<string, ChunkRow>, ids: set<string>, blocks: map<string, BlockRow>)
    : map<string, ChunkRow>
  {
    map c | c in chunks ::
      if c in ids then chunks[c].(text := Rebuilt(blocks, chunks[c].blockIds), embedding := None) else chunks[c]
  }

  function Staled(citations: map<string, CitationRow>, ids: set<string>): map<string, CitationRow> {
    map k | k in citations :: if citations[k].chunkId in ids then citations[k].(status := STALE) else citations[k]
  }

  function CitationsOf(citations: map<string, CitationRow>, ids: set<string>): set<string> {
    set k | k in citations && citations[k].chunkId in ids
  }

  function EditOutcome(s: State, doc: string, block: string, text: string): EditResult {
    if text == "" || Trim(text) == "" then TextEmpty
    else if doc !in s.docs then DocumentNotFound
    else if s.docs[doc] != Ready then DocumentNotReady
    else if block !in s.blocks || s.blocks[block].doc != doc then BlockNotFound
    else if s.blocks[block].text == text then NoChange
    else
      var ids := Affected(s.chunks, doc, block);
      Edited(|ids|, |CitationsOf(s.citations, ids)|)
  }

  function AfterEdit(s: State, doc: string, block: string, text: string, job: nat): State
    requires block in s.blocks
  {
    var blocks := s.blocks[block := s.blocks[block].(text := text)];
    var ids := Affected(s.chunks, doc, block);
    State(s.docs, blocks, WithChunks(s.chunks, ids, blocks), Staled(s.citations, ids),
          if ids == {} then s.jobs else s.jobs[job := ids], s.touched + ids)
  }

  // ----- A re-embed job -----

  function Embedded(chunks: map<string, ChunkRow>, ids: set<string>, embed: Embedder): map<string, ChunkRow> {
    map c | c in chunks :: if c in ids then chunks[c].(embedding := Some(embed(chunks[c].text))) else chunks[c]
  }

  function AfterReembed(s: State, job: nat, written: set<string>, done: bool, embed: Embedder): State {
    s.(chunks := Embedded(s.chunks, written, embed), jobs := if done then s.jobs - {job} else s.jobs)
  }

  // ----- What is kept -----

  ghost predicate Pending(s: State, c: string) {
    exists job :: job in s.jobs && c in s.jobs[job]
  }

  // An embedding that is there is that of the chunk's text.
  ghost predicate Current(s: State, c: string, embed: Embedder)
    requires c in s.chunks
  {
    s.chunks[c].embedding.Some? ==> s.chunks[c].embedding.value == embed(s.chunks[c].text)
  }

  // A touched chunk is what its blocks say now, and its citations are stale.
  ghost predicate Cascaded(s: State) {
    && (forall c :: c in s.touched && c in s.chunks ==> s.chunks[c].text == Rebuilt(s.blocks, s.chunks[c].blockIds))
    && (forall k :: k in s.citations && s.citations[k].chunkId in s.touched ==> s.citations[k].status == STALE)
  }

  ghost predicate Inv(s: State, embed: Embedder) {
    && (forall c :: c in s.chunks ==> Current(s, c, embed))
    && (forall c :: c in s.chunks && s.chunks[c].embedding.None? ==> Pending(s, c))
    && Cascaded(s)
  }

  // Chunks are made of blocks of their own document.
  ghost predicate OwnBlocks(s: State) {
    forall c, b :: c in s.chunks && b in s.chunks[c].blockIds && b in s.blocks ==> s.blocks[b].doc == s.chunks[c].doc
  }

  // ----- What a rebuilt chunk says -----

  // The current texts of a chunk's blocks in declared order; a deleted block has none.
  ghost function CurrentTexts(blocks: map<string, BlockRow>, ids: seq<string>): seq<string> {
    if ids == [] then []
    else [if ids[0] in blocks then blocks[ids[0]].text else ""] + CurrentTexts(blocks, ids[1..])
  }

  // The parts one after the other, each but the last ended by a line break.
  ghost predicate LineByLine(whole: string, parts: seq<string>) {
    if parts == [] then whole == ""
    else if |parts| == 1 then whole == parts[0]
    else
      && |parts[0]| < |whole| && parts[0] <= whole && whole[|parts[0]|] == '\n'
      && LineByLine(whole[|parts[0]| + 1..], parts[1..])
  }

  // The text is that of the parts line by line, without the white space around it, and has all their words.
  ghost predicate ReadsAs(text: string, parts: seq<string>) {
    && (exists left, right :: AllSpace(left) && AllSpace(right) && LineByLine(left + text + right, parts))
    && (text != "" ==> !IsSpace(text[0]) && !IsSpace(text[|text| - 1]))
    && Words(text) == WordsOfAll(parts)
  }

  lemma NewlineIsSpace()
    ensures IsSpace('\n')
  {
    var s := SPACES;
    assert s[1] == '\n';
    InStringAt(s, 1);
  }

  lemma WordsAroundNewline(a: string, b: string)
    ensures Words(a + "\n" + b) == Words(a) + Words(b)
  {
    NewlineIsSpace();
    assert a + "\n" + b == a + ("\n" + b);
    WordsAroundGap(a, "\n", b);
  }

  lemma {:induction false} JoinedLines(parts: seq<string>)
    ensures LineByLine(Join(parts, "\n"), parts) && Words(Join(parts, "\n")) == WordsOfAll(parts)
  {
    if parts == [] {
    } else if |parts| == 1 {
      assert WordsOfAll(parts) == Words(parts[0]) + WordsOfAll([]);
    } else {
      var rest := Join(parts[1..], "\n");
      JoinedLines(parts[1..]);
      WordsAroundNewline(parts[0], rest);
      var whole := parts[0] + "\n" + rest;
      assert whole[..|parts[0]|] == parts[0] && whole[|parts[0]| + 1..] == rest;
    }
  }

  lemma TrimReads(whole: string, parts: seq<string>)
    requires LineByLine(whole, parts) && Words(whole) == WordsOfAll(parts)
    ensures ReadsAs(Trim(whole), parts)
  {
    TrimWords(whole);
    TrimEnds(whole);
    AroundTrim(whole, TrimStart(whole), TrimEnd(whole));
  }

  lemma AroundTrim(whole: string, i: nat, j: nat)
    requires i <= j <= |whole| && SpaceIn(whole, 0, i) && SpaceIn(whole, j, |whole|)
    ensures exists left, right :: AllSpace(left) && AllSpace(right) && left + whole[i..j] + right == whole
  {
    var left, right := whole[..i], whole[j..];
    assert AllSpace(left) && AllSpace(right);
    assert left + whole[i..j] + right == whole;
  }

  lemma {:induction false} SameTexts(blocks: map<string, BlockRow>, ids: seq<string>)
    ensures BlockTexts(blocks, ids) == CurrentTexts(blocks, ids)
  {
    if ids != [] {
      SameTexts(blocks, ids[1..]);
      assert BlockTexts(blocks, ids)[1..] == BlockTexts(blocks, ids[1..]);
    }
  }

  // A rebuilt chunk has the words of all its blocks, in declared order, line by line.
  lemma RebuiltReads(blocks: map<string, BlockRow>, ids: seq<string>)
    ensures ReadsAs(Rebuilt(blocks, ids), CurrentTexts(blocks, ids))
  {
    SameTexts(blocks, ids);
    JoinedLines(BlockTexts(blocks, ids));
    TrimReads(Join(BlockTexts(blocks, ids), "\n"), BlockTexts(blocks, ids));
  }

  // Every chunk that some edit has touched reads as its blocks do now.
  ghost predicate TouchedRead(s: State) {
    forall c :: c in s.touched && c in s.chunks ==>
      ReadsAs(s.chunks[c].text, CurrentTexts(s.blocks, s.chunks[c].blockIds))
  }

  lemma CascadedReads(s: State)
    requires Cascaded(s)
    ensures TouchedRead(s)
  {
    forall c | c in s.touched && c in s.chunks
      ensures ReadsAs(s.chunks[c].text, CurrentTexts(s.blocks, s.chunks[c].blockIds))
    {
      RebuiltReads(s.blocks, s.chunks[c].blockIds);
    }
  }

  lemma RebuiltSame(blocks: map<string, BlockRow>, block: string, row: BlockRow, ids: seq<string>)
    requires block !in ids
    ensures Rebuilt(blocks[block := row], ids) == Rebuilt(blocks, ids)
  {
    assert BlockTexts(blocks[block := row], ids) == BlockTexts(blocks, ids);
  }

  lemma EditKeepsInv(s: State, doc: string, block: string, text: string, job: nat, embed: Embedder)
    requires Inv(s, embed) && OwnBlocks(s) && job !in s.jobs && EditOutcome(s, doc, block, text).Edited?
    ensures Inv(AfterEdit(s, doc, block, text, job), embed) && OwnBlocks(AfterEdit(s, doc, block, text, job))
  {
    var t := AfterEdit(s, doc, block, text, job);
    var ids := Affected(s.chunks, doc, block);
    EditCascades(s, doc, block, text, job);
    forall c | c in t.chunks ensures Current(t, c, embed) { assert Current(s, c, embed); }
    forall c | c in t.chunks && t.chunks[c].embedding.None? ensures Pending(t, c) {
      if c in ids {
        assert c in t.jobs[job];
      } else {
        var j :| j in s.jobs && c in s.jobs[j];
        assert c in t.jobs[j];
      }
    }
  }

  lemma EditCascades(s: State, doc: string, block: string, text: string, job: nat)
    requires Cascaded(s) && OwnBlocks(s) && EditOutcome(s, doc, block, text).Edited?
    ensures Cascaded(AfterEdit(s, doc, block, text, job)) && OwnBlocks(AfterEdit(s, doc, block, text, job))
  {
    var t := AfterEdit(s, doc, block, text, job);
    var ids := Affected(s.chunks, doc, block);
    forall c | c in t.touched && c in t.chunks ensures t.chunks[c].text == Rebuilt(t.blocks, t.chunks[c].blockIds) {
      if c !in ids {
        assert block !in s.chunks[c].blockIds;
        RebuiltSame(s.blocks, block, t.blocks[block], s.chunks[c].blockIds);
      }
    }
  }

  // A job may fail half way: what it wrote is right, and it is still there for the rest.
  lemma ReembedKeepsInv(s: State, job: nat, written: set<string>, done: bool, embed: Embedder)
    requires Inv(s, embed) && OwnBlocks(s) && job in s.jobs
    requires done ==> forall c :: c in s.jobs[job] && c in s.chunks ==> c in written
    ensures Inv(AfterReembed(s, job, written, done, embed), embed)
        && OwnBlocks(AfterReembed(s, job, written, done, embed))
  {
    var t := AfterReembed(s, job, written, done, embed);
    forall c | c in t.chunks ensures Current(t, c, embed) { assert Current(s, c, embed); }
    forall c | c in t.chunks && t.chunks[c].embedding.None? ensures Pending(t, c) {
      var j :| j in s.jobs && c in s.jobs[j];
      assert j in t.jobs && c in t.jobs[j];
    }
  }

  // ----- Runs -----

  datatype Step = Edit(doc: string, block: string, text: string, job: nat)
                | Reembed(job: nat, written: set<string>, done: bool)

  ghost predicate Next(s: State, step: Step, s': State, embed: Embedder) {
    match step
    case Edit(doc, block, text, job) =>
      if EditOutcome(s, doc, block, text).Edited?
      then job !in s.jobs && s' == AfterEdit(s, doc, block, text, job)
      else s' == s
    case Reembed(job, written, done) =>
      && job in s.jobs && s' == AfterReembed(s, job, written, done, embed)
      && (done ==> forall c :: c in s.jobs[job] && c in s.chunks ==> c in written)
  }

  ghost predicate FullyEmbedded(s: State, embed: Embedder) {
    && s.touched == {} && OwnBlocks(s)
    && forall c :: c in s.chunks ==> s.chunks[c].embedding == Some(embed(s.chunks[c].text))
  }

  ghost predicate IsRun(run: seq<State>, steps: seq<Step>, embed: Embedder) {
    && |run| == |steps| + 1 && FullyEmbedded(run[0], embed)
    && forall i :: 0 <= i < |steps| ==> Next(run[i], steps[i], run[i + 1], embed)
  }

  lemma StepKeepsInv(s: State, step: Step, s': State, embed: Embedder)
    requires Inv(s, embed) && OwnBlocks(s) && Next(s, step, s', embed)
    ensures Inv(s', embed) && OwnBlocks(s')
  {
    match step
    case Edit(doc, block, text, job) =>
      if EditOutcome(s, doc, block, text).Edited? { EditKeepsInv(s, doc, block, text, job, embed); }
    case Reembed(job, written, done) => ReembedKeepsInv(s, job, written, done, embed);
  }

  // From a fully embedded state on, through any edits and any complete or failed jobs: an embedding
  // that is there is that of the current text, one that is not is named by a job not yet completed, a
  // touched chunk is what its blocks say now, and its citations are stale.
  lemma {:induction false} CascadeHolds(run: seq<State>, steps: seq<Step>, i: nat, embed: Embedder)
    requires IsRun(run, steps, embed) && i < |run|
    ensures Inv(run[i], embed) && OwnBlocks(run[i]) && TouchedRead(run[i])
    decreases i
  {
    if i > 0 {
      CascadeHolds(run, steps, i - 1, embed);
      assert Next(run[i - 1], steps[i - 1], run[i - 1 + 1], embed);
      StepKeepsInv(run[i - 1], steps[i - 1], run[i], embed);
    }
    CascadedReads(run[i]);
  }

  // With no job left, every chunk of such a state has the embedding of its text.
  lemma QuietIsFullyEmbedded(s: State, embed: Embedder)
    requires Inv(s, embed) && s.jobs == map[]
    ensures forall c :: c in s.chunks ==> s.chunks[c].embedding == Some(embed(s.chunks[c].text))
  {
    forall c | c in s.chunks ensures s.chunks[c].embedding == Some(embed(s.chunks[c].text)) {
      assert Current(s, c, embed);
    }
  }

  // ----- Where the code falls short -----

  // Chunks cut from one long block all become the whole block when it is edited.
  lemma SplitChunksCollapse(s: State, doc: string, block: string, text: string, job: nat, c: string, d: string)
    requires block in s.blocks && c in Affected(s.chunks, doc, block) && d in Affected(s.chunks, doc, block)
    requires s.chunks[c].blockIds == s.chunks[d].blockIds == [block]
    ensures var t := AfterEdit(s, doc, block, text, job);
            t.chunks[c].text == t.chunks[d].text == Trim(text)
  {
    var t := AfterEdit(s, doc, block, text, job);
    assert BlockTexts(t.blocks, [block]) == [text];
  }

  // ----- The operations -----

  // An edit is made if and only if the text has words in it, the document is ready, the block is one of its
  // own and says something else; it reports how many chunks it touched.
  lemma EditedIff(s: State, doc: string, block: string, text: string)
    ensures EditOutcome(s, doc, block, text).Edited? <==>
            && Words(text) != [] && doc in s.docs && s.docs[doc] == Ready
            && block in s.blocks && s.blocks[block].doc == doc && s.blocks[block].text != text
    ensures EditOutcome(s, doc, block, text).Edited? ==>
            EditOutcome(s, doc, block, text).affected == |set c | c in s.chunks && HasBlock(s.chunks[c], doc, block)|
  {
    TrimEnds(text);
    if AllSpace(text) { WordsOfSpace(text); }
    if Words(text) == [] { NoWordsFromMeansSpace(text, 0); }
    assert Affected(s.chunks, doc, block) == set c | c in s.chunks && HasBlock(s.chunks[c], doc, block);
  }

  datatype Reply = EmbedFailed | Vectors(count: nat)

  ghost function Elements(rows: seq<string>): set<string> {
    set c | c in rows
  }

  ghost predicate HasBlock(row: ChunkRow, doc: string, block: string) {
    row.doc == doc && block in row.blockIds
  }

  // After an edit the block has the new text; the chunks of the document that have it read as their blocks do
  // now and have no embedding, their citations are stale, and the new job names exactly them; all else is as it was.
  ghost predicate EditedStore(s: State, t: State, doc: string, block: string, text: string, job: nat) {
    && block in s.blocks && t.docs == s.docs && t.blocks == s.blocks[block := BlockRow(s.blocks[block].doc, text)]
    && t.chunks.Keys == s.chunks.Keys && t.citations.Keys == s.citations.Keys
    && (forall c :: c in s.chunks ==>
          if HasBlock(s.chunks[c], doc, block) then
            && t.chunks[c].doc == doc && t.chunks[c].blockIds == s.chunks[c].blockIds
            && ReadsAs(t.chunks[c].text, CurrentTexts(t.blocks, s.chunks[c].blockIds)) && t.chunks[c].embedding == None
            && job in t.jobs && c in t.jobs[job]
          else t.chunks[c] == s.chunks[c] && (job in t.jobs ==> job !in s.jobs ==> c !in t.jobs[job]))
    && (forall k :: k in s.citations ==>
          var c := s.citations[k].chunkId;
          t.citations[k] == if c in s.chunks && HasBlock(s.chunks[c], doc, block)
                            then CitationRow(c, "stale") else s.citations[k])
    && (forall j :: j in s.jobs && j != job ==> j in t.jobs && t.jobs[j] == s.jobs[j])
    && t.jobs.Keys <= s.jobs.Keys + {job}
  }

  lemma AfterEditMeans(s: State, doc: string, block: string, text: string, job: nat)
    requires block in s.blocks
    ensures EditedStore(s, AfterEdit(s, doc, block, text, job), doc, block, text, job)
  {
    var t := AfterEdit(s, doc, block, text, job);
    forall c | c in s.chunks && HasBlock(s.chunks[c], doc, block)
      ensures c in Affected(s.chunks, doc, block)
      ensures ReadsAs(t.chunks[c].text, CurrentTexts(t.blocks, s.chunks[c].blockIds))
    {
      RebuiltReads(t.blocks, s.chunks[c].blockIds);
    }
  }

  // Batch b of n rows is answered with as many vectors as it has rows.
  ghost predicate Answered(reply: nat -> Reply, b: nat, n: nat) {
    32 * b < n ==> reply(b) == Vectors(if n - 32 * b < 32 then n - 32 * b else 32)
  }

  ghost predicate AnsweredUpTo(reply: nat -> Reply, b: nat, n: nat) {
    forall i: nat :: i < b ==> Answered(reply, i, n)
  }

  lemma AnsweredNext(reply: nat -> Reply, b: nat, n: nat, start: nat, end: nat)
    requires AnsweredUpTo(reply, b, n) && start == 32 * b < n && end == if start + 32 <= n then start + 32 else n
    ensures reply(b) == Vectors(end - start) <==> AnsweredUpTo(reply, b + 1, n)
    ensures AllAnswered(reply, n) ==> reply(b) == Vectors(end - start)
    ensures end == n && AnsweredUpTo(reply, b + 1, n) ==> AllAnswered(reply, n)
  {
    assert Answered(reply, b, n) <==> reply(b) == Vectors(end - start);
  }

  ghost predicate AllAnswered(reply: nat -> Reply, n: nat) {
    forall b: nat :: Answered(reply, b, n)
  }

  ghost function Existing(ids: set<string>, chunks: map<string, ChunkRow>): set<string> {
    set c | c in ids && c in chunks
  }

  lemma OneMoreExists(ids: set<string>, left: set<string>, c: string, chunks: map<string, ChunkRow>)
    requires c in left && left <= ids
    ensures |Existing(ids - (left - {c}), chunks)| == |Existing(ids - left, chunks)| + if c in chunks then 1 else 0
  {
    var seen, more := Existing(ids - left, chunks), Existing(ids - (left - {c}), chunks);
    assert more == if c in chunks then seen + {c} else seen;
  }

  ghost predicate TextsAre(rows: seq<string>, texts: seq<string>, chunks: map<string, ChunkRow>) {
    |texts| == |rows| && forall i :: 0 <= i < |rows| ==> rows[i] in chunks && texts[i] == chunks[rows[i]].text
  }

  lemma BatchTexts(rows: seq<string>, texts: seq<string>, chunks: map<string, ChunkRow>, start: nat, end: nat)
    requires TextsAre(rows, texts, chunks) && start <= end <= |rows|
    ensures TextsAre(rows[start..end], texts[start..end], chunks)
  {
  }

  lemma OneMoreElement(rows: seq<string>, i: nat)
    requires i < |rows|
    ensures Elements(rows[..i + 1]) == Elements(rows[..i]) + {rows[i]}
  {
    assert rows[..i + 1] == rows[..i] + [rows[i]];
  }

  lemma MoreElements(rows: seq<string>, i: nat, j: nat)
    requires i <= j <= |rows|
    ensures Elements(rows[..j]) == Elements(rows[..i]) + Elements(rows[i..j])
    ensures Elements(rows[..j]) <= Elements(rows)
  {
    assert rows[..j] == rows[..i] + rows[i..j];
  }

  class Store {
    const embed: Embedder
    var docs: map<string, DocStatus>
    var blocks: map<string, BlockRow>
    var chunks: map<string, ChunkRow>
    var citations: map<string, CitationRow>
    var jobs: map<nat, set<string>>
    ghost var touched: set<string>

    constructor (embed: Embedder, docs: map<string, DocStatus>, blocks: map<string, BlockRow>,
                 chunks: map<string, ChunkRow>, citations: map<string, CitationRow>)
      ensures this.embed == embed && Value() == State(docs, blocks, chunks, citations, map[], {})
    {
      this.embed := embed;
      this.docs, this.blocks, this.chunks, this.citations := docs, blocks, chunks, citations;
      this.jobs := map[];
      this.touched := {};
    }

    ghost function Value(): State
      reads this
    {
      State(docs, blocks, chunks, citations, jobs, touched)
    }

    // One chunk after the other is rebuilt from the current texts of its blocks.
    method RebuildChunks(ids: set<string>)
      requires ids <= chunks.Keys
      modifies this`chunks
      ensures chunks == WithChunks(old(chunks), ids, blocks)
    {
      var left := ids;
      while left != {}
        invariant left <= ids
        invariant chunks == WithChunks(old(chunks), ids - left, blocks)
        decreases left
      {
        var c :| c in left;
        var row := chunks[c];
        var text := Trim(Join(BlockTexts(blocks, row.blockIds), "\n"));
        chunks := chunks[c := row.(text := text, embedding := None)];
        left := left - {c};
      }
      assert ids - {} == ids;
    }

    // A refused edit changes nothing; an accepted one is the whole cascade, with one job for all chunks.
    method EditBlockText(documentId: string, blockId: string, newText: string, job: nat) returns (r: EditResult)
      requires job !in jobs
      modifies this
      ensures r == EditOutcome(old(Value()), documentId, blockId, newText)
      ensures !r.Edited? ==> Value() == old(Value())
      ensures r.Edited? ==>
        blockId in old(blocks) && Value() == AfterEdit(old(Value()), documentId, blockId, newText, job)
    {
      if newText == "" || Trim(newText) == "" { return TextEmpty; }
      if documentId !in docs { return DocumentNotFound; }
      if docs[documentId] != Ready { return DocumentNotReady; }
      if blockId !in blocks || blocks[blockId].doc != documentId { return BlockNotFound; }
      if blocks[blockId].text == newText { return NoChange; }
      r := Cascade(documentId, blockId, newText, job);
    }

    method Cascade(documentId: string, blockId: string, newText: string, job: nat) returns (r: EditResult)
      requires blockId in blocks
      modifies this
      ensures Value() == AfterEdit(old(Value()), documentId, blockId, newText, job)
      ensures var ids := Affected(old(chunks), documentId, blockId);
              r == Edited(|ids|, |CitationsOf(old(citations), ids)|)
    {
      blocks := blocks[blockId := blocks[blockId].(text := newText)];
      var affected := Affected(chunks, documentId, blockId);
      RebuildChunks(affected);
      var stale := CitationsOf(citations, affected);
      if affected != {} {
        citations := Staled(citations, affected);
        jobs := jobs[job := affected];
      } else {
        assert Staled(citations, {}) == citations;
      }
      touched := touched + affected;
      return Edited(|affected|, |stale|);
    }

    // The vectors of one batch, written row by row; a short or long answer fails after its rows.
    method WriteBatch(rows: seq<string>, texts: seq<string>, reply: Reply, ghost before: map<string, ChunkRow>,
                      ghost done: set<string>)
      returns (ok: bool, ghost written: set<string>)
      requires TextsAre(rows, texts, before)
      requires chunks == Embedded(before, done, embed)
      modifies this`chunks
      ensures chunks == Embedded(before, written, embed)
      ensures done <= written <= done + Elements(rows)
      ensures ok ==> written == done + Elements(rows)
      ensures ok <==> reply == Vectors(|rows|)
    {
      written := done;
      if reply.EmbedFailed? { return false, written; }
      var n := if reply.count <= |rows| then reply.count else |rows|;
      assert Elements(rows[..0]) == {};
      for i := 0 to n
        invariant written == done + Elements(rows[..i])
        invariant chunks == Embedded(before, written, embed)
      {
        OneMoreElement(rows, i);
        chunks := chunks[rows[i] := chunks[rows[i]].(embedding := Some(embed(texts[i])))];
        written := written + {rows[i]};
      }
      MoreElements(rows, n, |rows|);
      assert rows[..|rows|] == rows;
      ok := reply.count == |rows|;
    }

    // The rows are read once, then written in batches of 32, each of them committed, until one fails.
    method HandleReembedChunks(chunkIds: set<string>, reply: nat -> Reply)
      returns (ok: bool, ghost written: set<string>)
      modifies this`chunks
      ensures chunks == Embedded(old(chunks), written, embed)
      ensures written <= chunkIds
      ensures ok ==> forall c :: c in chunkIds && c in chunks ==> c in written
      ensures ok <==> AllAnswered(reply, |Existing(chunkIds, old(chunks))|)
    {
      var rows := RowsOf(chunkIds);
      var texts := seq(|rows|,
          (i: int) requires 0 <= i < |rows| reads this requires rows[i] in chunks => chunks[rows[i]].text);
      ghost var before := chunks;
      assert TextsAre(rows, texts, before);
      written := {};
      var start, b := 0, 0;
      while start < |rows|
        invariant start <= |rows|
        invariant chunks == Embedded(before, written, embed)
        invariant written == Elements(rows[..start])
        invariant start < |rows| ==> start == 32 * b
        invariant start == |rows| ==> |rows| <= 32 * b
        invariant AnsweredUpTo(reply, b, |rows|)
      {
        var end := if start + BATCH_SIZE <= |rows| then start + BATCH_SIZE else |rows|;
        MoreElements(rows, start, end);
        MoreElements(rows, end, |rows|);
        AnsweredNext(reply, b, |rows|, start, end);
        BatchTexts(rows, texts, before, start, end);
        var fine;
        fine, written := WriteBatch(rows[start..end], texts[start..end], reply(b), before, written);
        if !fine { return false, written; }
        start, b := end, b + 1;
      }
      ok := true;
    }

    method RowsOf(ids: set<string>) returns (rows: seq<string>)
      ensures forall c :: c in rows <==> c in ids && c in chunks
      ensures |rows| == |Existing(ids, chunks)|
    {
      rows := [];
      var left := ids;
      while left != {}
        invariant left <= ids
        invariant |rows| == |Existing(ids - left, chunks)|
        invariant forall c :: c in rows <==> c in ids - left && c in chunks
        decreases left
      {
        var c :| c in left;
        OneMoreExists(ids, left, c, chunks);
        if c in chunks { rows := rows + [c]; }
        left := left - {c};
      }
      assert ids - {} == ids;
    }

    // The worker completes the job only if the handler did not fail.
    method RunReembedJob(job: nat, reply: nat -> Reply) returns (ok: bool, ghost written: set<string>)
      requires job in jobs
      modifies this
      ensures Value() == AfterReembed(old(Value()), job, written, ok, embed)
      ensures Next(old(Value()), Reembed(job, written, ok), Value(), embed)
    {
      ok, written := HandleReembedChunks(jobs[job], reply);
      if ok { jobs := jobs - {job}; }
    }
  }
}
