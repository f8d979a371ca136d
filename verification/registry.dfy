// Versioned draft templates, as in app/draft/templates/registry.py: a table of immutable rows and a
// cache of templates in front of it.
module Registry {
  import opened Common
  import opened Text

  datatype Result<+T> = Ok(value: T) | TemplateNotFound

  // The fields a fingerprint is made of; how it is made is a parameter of the registry.
  datatype Content = Content(systemPrompt: string, rules: seq<string>, extraction: seq<string>, sections: seq<string>,
                             queries: map<string, string>)

  datatype Template = Template(id: string, displayName: string, description: string, validators: seq<string>,
                               content: Content, version: nat)

  datatype Key = Key(id: string, version: nat)

  datatype Row = Row(body: Template, systemPrompt: Option<string>, rules: seq<string>, fingerprint: string)

  type Rows = map<Key, Row>

  type Cache = map<Key, Template>

  type Digest = Content -> string

  // ----- From a row to a template -----

  // The columns override the stored body; an empty rule column overrides nothing.
  function Parsed(version: nat, row: Row): Template {
    var c := row.body.content;
    var prompted := if row.systemPrompt.Some? then c.(systemPrompt := row.systemPrompt.value) else c;
    var ruled := if row.rules != [] then prompted.(rules := row.rules) else prompted;
    row.body.(content := ruled, version := version)
  }

  // What a row means: the columns for the prompt and the rules count where they say something, all else is
  // as the body has it.
  lemma ParsedMeans(version: nat, row: Row)
    ensures var t := Parsed(version, row);
            && t.version == version && t.id == row.body.id && t.displayName == row.body.displayName
            && t.description == row.body.description && t.validators == row.body.validators
            && t.content.extraction == row.body.content.extraction && t.content.sections == row.body.content.sections
            && t.content.queries == row.body.content.queries
            && (row.systemPrompt.Some? ==> t.content.systemPrompt == row.systemPrompt.value)
            && (row.systemPrompt.None? ==> t.content.systemPrompt == row.body.content.systemPrompt)
            && t.content.rules == if |row.rules| > 0 then row.rules else row.body.content.rules
  {
  }

  function RowOf(body: Template, rules: seq<string>, digest: Digest): Row {
    Row(body, Some(body.content.systemPrompt), rules, digest(body.content.(rules := rules)))
  }

  // ----- Invariants -----

  ghost predicate IsLatest(rows: Rows, id: string, v: nat) {
    (v > 0 ==> Key(id, v) in rows) && forall u: nat :: Key(id, u) in rows ==> 1 <= u <= v
  }

  // Versions of a template are 1..n.
  ghost predicate Contiguous(rows: Rows) {
    forall k :: k in rows ==> k.version > 0 && forall v: nat :: 0 < v < k.version ==> Key(k.id, v) in rows
  }

  // Every row parses to a template of its own key with the fingerprint it stores.
  ghost predicate RowsFit(rows: Rows, digest: Digest) {
    forall k :: k in rows ==>
      Parsed(k.version, rows[k]).id == k.id && digest(Parsed(k.version, rows[k]).content) == rows[k].fingerprint
  }

  ghost predicate CacheFits(cache: Cache, rows: Rows, digest: Digest) {
    forall k :: k in cache ==>
      k in rows && cache[k].id == k.id && cache[k].version == k.version
          && digest(cache[k].content) == rows[k].fingerprint
  }

  ghost predicate Inv(rows: Rows, cache: Cache, digest: Digest) {
    Contiguous(rows) && RowsFit(rows, digest) && CacheFits(cache, rows, digest)
  }

  // Entries are only ever added.
  ghost predicate Extends<V(!new)>(rows: map<Key, V>, rows': map<Key, V>) {
    forall k :: k in rows ==> k in rows' && rows'[k] == rows[k]
  }

  // So another process that adds rows does no harm to this one's cache.
  lemma CacheSurvives(cache: Cache, rows: Rows, rows': Rows, digest: Digest)
    requires CacheFits(cache, rows, digest) && Extends(rows, rows')
    ensures CacheFits(cache, rows', digest)
  {
  }

  lemma LatestIsUnique(rows: Rows, id: string, v: nat, w: nat)
    requires IsLatest(rows, id, v) && IsLatest(rows, id, w)
    ensures v == w
  {
  }

  lemma LatestOnly(rows: Rows, t: Template, n: nat, digest: Digest)
    requires IsLatest(rows, t.id, n)
    ensures UpToDate(rows, t, digest) <==> n > 0 && rows[Key(t.id, n)].fingerprint == digest(t.content)
  {
    forall m: nat | IsLatest(rows, t.id, m) ensures m == n { LatestIsUnique(rows, t.id, m, n); }
  }

  // Adding version n + 1 after latest version n, with the template it parses to in the cache.
  lemma AddedRow(rows: Rows, cache: Cache, digest: Digest, t: Template, rules: seq<string>, n: nat)
    requires Inv(rows, cache, digest) && IsLatest(rows, t.id, n)
    requires rules == t.content.rules || rules != []
    ensures var k, row := Key(t.id, n + 1), RowOf(t, rules, digest);
            var made := t.(content := t.content.(rules := rules), version := n + 1);
            && k !in rows && Parsed(n + 1, row) == made
            && Extends(rows, rows[k := row]) && IsLatest(rows[k := row], t.id, n + 1)
            && Inv(rows[k := row], cache[k := made], digest)
  {
    var k, row := Key(t.id, n + 1), RowOf(t, rules, digest);
    assert k !in rows;
    forall v: nat | 0 < v < n + 1 ensures Key(t.id, v) in rows {
      if v < n { assert Key(t.id, n) in rows; }
    }
    assert Contiguous(rows[k := row]);
  }

  // ----- Rules -----

  ghost predicate Known(rules: seq<string>, r: string) {
    exists i :: 0 <= i < |rules| && Trim(rules[i]) == Trim(r)
  }

  ghost function Deduped(rules: seq<string>, added: seq<string>): seq<string> {
    if added == [] then []
    else Deduped(rules, added[..|added| - 1]) + if Known(rules, added[|added| - 1]) then [] else [added[|added| - 1]]
  }

  lemma {:induction false} DedupedMeans(rules: seq<string>, added: seq<string>)
    ensures forall i, j :: 0 <= i < |Deduped(rules, added)| && 0 <= j < |rules| ==>
      Trim(Deduped(rules, added)[i]) != Trim(rules[j])
    ensures forall i :: 0 <= i < |Deduped(rules, added)| ==> Deduped(rules, added)[i] in added
    ensures forall i :: 0 <= i < |added| ==>
      added[i] in Deduped(rules, added) || exists j :: 0 <= j < |rules| && Trim(added[i]) == Trim(rules[j])
    ensures Deduped(rules, added) == [] <==> forall i :: 0 <= i < |added| ==> Known(rules, added[i])
  {
    if added != [] {
      DedupedMeans(rules, added[..|added| - 1]);
      var last := added[|added| - 1];
      assert added == added[..|added| - 1] + [last];
    }
  }

  lemma KnownMember(rules: seq<string>, r: string)
    ensures r in rules ==> Known(rules, r)
  {
    if r in rules {
      var i :| 0 <= i < |rules| && rules[i] == r;
      assert Trim(rules[i]) == Trim(r);
    }
  }

  // Appending the same rules again adds nothing.
  lemma AppendingTwice(rules: seq<string>, added: seq<string>)
    ensures Deduped(rules + Deduped(rules, added), added) == []
  {
    var merged := rules + Deduped(rules, added);
    DedupedMeans(rules, added);
    DedupedMeans(merged, added);
    forall i | 0 <= i < |added| ensures Known(merged, added[i]) {
      KnownMember(merged, added[i]);
      if Known(rules, added[i]) {
        var j :| 0 <= j < |rules| && Trim(rules[j]) == Trim(added[i]);
        assert merged[j] == rules[j];
      }
    }
  }

  method DedupeRules(rules: seq<string>, added: seq<string>) returns (deduped: seq<string>)
    ensures deduped == Deduped(rules, added)
  {
    var existing: set<string> := {};
    for i := 0 to |rules|
      invariant forall x :: x in existing <==> exists j :: 0 <= j < i && Trim(rules[j]) == x
    {
      existing := existing + {Trim(rules[i])};
    }
    deduped := [];
    for n := 0 to |added|
      invariant deduped == Deduped(rules, added[..n])
    {
      assert added[..n + 1][..n] == added[..n];
      assert Trim(added[n]) in existing <==> Known(rules, added[n]);
      if Trim(added[n]) !in existing { deduped := deduped + [added[n]]; }
    }
    assert added[..|added|] == added;
  }

  // ----- The table and the registry -----

  class Database {
    var rows: Rows

    constructor ()
      ensures rows == map[]
    {
      rows := map[];
    }

    // SELECT version ... ORDER BY version DESC LIMIT 1; 0 if there is none.
    method LatestVersion(id: string) returns (v: nat)
      requires Contiguous(rows)
      ensures IsLatest(rows, id, v)
    {
      v := 0;
      var left := rows.Keys;
      while left != {}
        invariant left <= rows.Keys
        invariant v > 0 ==> Key(id, v) in rows
        invariant forall k :: k in rows.Keys - left && k.id == id ==> k.version <= v
        decreases left
      {
        var k :| k in left;
        if k.id == id && k.version > v { v := k.version; }
        left := left - {k};
      }
      assert forall u: nat :: Key(id, u) in rows ==> Key(id, u) in rows.Keys - left;
    }
  }

  class TemplateRegistry {
    const digest: Digest
    var templates: seq<Template>
    var cache: Cache

    constructor (digest: Digest, templates: seq<Template>)
      ensures this.digest == digest && this.templates == templates && cache == map[]
    {
      this.digest := digest;
      this.templates := templates;
      cache := map[];
    }

    ghost predicate Valid(db: Database)
      reads this, db
    {
      Inv(db.rows, cache, digest)
    }

    method GetLatest(id: string, db: Database) returns (r: Result<Template>)
      requires Valid(db)
      modifies this`cache
      ensures Valid(db) && Serves(r, id, db.rows, old(cache), digest)
      ensures cache == if r.Ok? then old(cache)[Key(id, r.value.version) := r.value] else old(cache)
    {
      var v := db.LatestVersion(id);
      if v == 0 { return TemplateNotFound; }
      var key := Key(id, v);
      if key in cache { return Ok(cache[key]); }
      var template := Parsed(v, db.rows[key]);
      cache := cache[key := template];
      return Ok(template);
    }

    // What is cached is returned without a look at the table.
    method GetByVersion(id: string, version: nat, db: Database) returns (r: Result<Template>)
      requires Valid(db)
      modifies this`cache
      ensures Valid(db) && (r.TemplateNotFound? <==> Key(id, version) !in db.rows)
      ensures r.Ok? ==> r.value.id == id && r.value.version == version
      ensures r.Ok? ==> digest(r.value.content) == db.rows[Key(id, version)].fingerprint
      ensures cache == if r.Ok? then old(cache)[Key(id, version) := r.value] else old(cache)
    {
      var key := Key(id, version);
      if key in cache { return Ok(cache[key]); }
      if key !in db.rows { return TemplateNotFound; }
      var template := Parsed(version, db.rows[key]);
      cache := cache[key := template];
      return Ok(template);
    }

    // One template of a sync: its latest row is kept if the fingerprints agree, else a row is added.
    method SyncTemplate(t: Template, db: Database)
      requires Valid(db)
      modifies this`cache, db`rows
      ensures Valid(db) && SyncedOne(old(db.rows), db.rows, old(cache), cache, t, digest)
    {
      var fingerprint := digest(t.content);
      var v := db.LatestVersion(t.id);
      ghost var rows := db.rows;
      LatestOnly(rows, t, v, digest);
      if v > 0 && db.rows[Key(t.id, v)].fingerprint == fingerprint {
        var key := Key(t.id, v);
        if key !in cache { cache := cache[key := t.(version := v)]; }
        assert Held(rows, cache, t.id);
        return;
      }
      var key := Key(t.id, v + 1);
      AddedRow(db.rows, cache, digest, t, t.content.rules, v);
      db.rows := db.rows[key := RowOf(t, t.content.rules, digest)];
      cache := cache[key := t.(version := v + 1)];
      assert t.content == t.content.(rules := t.content.rules);
      assert IsLatest(db.rows, t.id, v + 1) && key in cache;
    }

    // The first n templates are synced, starting from the given rows.
    ghost predicate Synced(db: Database, rows: Rows, n: nat)
      requires n <= |templates|
      reads this, db
    {
      Valid(db) && DistinctTemplates(templates) && SyncedUpTo(rows, db.rows, cache, templates, n, digest)
    }

    method SyncNth(n: nat, db: Database, ghost rows: Rows)
      requires n < |templates| && Synced(db, rows, n)
      modifies this`cache, db`rows
      ensures Synced(db, rows, n + 1)
    {
      ghost var rows1, cache1 := db.rows, cache;
      SyncTemplate(templates[n], db);
      SyncStep(rows, rows1, db.rows, cache1, cache, templates, n, digest);
    }

    // After a sync every template of this registry is the latest version of its id, and in the cache;
    // a sync where that was so adds nothing. So a second sync in a row never adds a version.
    method SyncToDb(db: Database)
      requires Valid(db) && DistinctTemplates(templates)
      modifies this`cache, db`rows
      ensures Valid(db) && SyncedUpTo(old(db.rows), db.rows, cache, templates, |templates|, digest)
    {
      ghost var rows := db.rows;
      NothingSynced(rows, cache, templates, digest);
      for n := 0 to |templates|
        invariant Synced(db, rows, n)
      {
        SyncNth(n, db, rows);
      }
    }

    // The insert and the cache update of append_rules: older entries of the template go.
    method InsertVersion(t: Template, merged: seq<string>, db: Database) returns (versioned: Template)
      requires Valid(db) && IsLatest(db.rows, t.id, t.version) && merged != []
      modifies this`cache, db`rows
      ensures Valid(db) && Extends(old(db.rows), db.rows)
      ensures db.rows == old(db.rows)[Key(t.id, t.version + 1) := RowOf(t, merged, digest)]
      ensures versioned == WithRules(t, merged) && versioned == Parsed(t.version + 1, db.rows[Key(t.id, t.version + 1)])
      ensures cache == Without(old(cache), t.id)[Key(t.id, t.version + 1) := versioned]
    {
      AddedRow(db.rows, cache, digest, t, merged, t.version);
      db.rows := db.rows[Key(t.id, t.version + 1) := RowOf(t, merged, digest)];
      versioned := WithRules(t, merged);
      cache := Without(cache, t.id)[Key(t.id, t.version + 1) := versioned];
    }

    // One more version with the rules that are not known yet, or none if all are. What is returned is
    // what the new row parses to, and its rules continue those of the version before.
    method AppendRules(id: string, newRules: seq<string>, db: Database)
      returns (r: Result<Template>, ghost current: Result<Template>)
      requires Valid(db)
      modifies this`cache, db`rows
      ensures Valid(db) && Extends(old(db.rows), db.rows)
      ensures Serves(current, id, old(db.rows), old(cache), digest)
      ensures current.TemplateNotFound? ==> r.TemplateNotFound? && db.rows == old(db.rows)
      ensures current.Ok? ==> Appends(current.value, newRules, r, old(db.rows), db.rows, cache, digest)
      ensures current.Ok? && db.rows != old(db.rows) ==>
        && (forall k :: k in cache && k.id == id ==> k.version == current.value.version + 1)
        && (forall k: Key :: k.id != id ==>
              (k in cache <==> k in old(cache)) && (k in cache ==> cache[k] == old(cache)[k]))
    {
      var got := GetLatest(id, db);
      current := got;
      if got.TemplateNotFound? { return TemplateNotFound, current; }
      var t := got.value;
      var deduped := DedupeRules(t.content.rules, newRules);
      if deduped == [] { return Ok(t), current; }
      var versioned := InsertVersion(t, t.content.rules + deduped, db);
      return Ok(versioned), current;
    }
  }

  // ----- Sync -----

  ghost predicate UpToDate(rows: Rows, t: Template, digest: Digest) {
    exists n: nat :: n > 0 && IsLatest(rows, t.id, n) && rows[Key(t.id, n)].fingerprint == digest(t.content)
  }

  ghost predicate Held(rows: Rows, cache: Cache, id: string) {
    exists n: nat :: IsLatest(rows, id, n) && Key(id, n) in cache
  }

  ghost predicate NewRowOk(rows: Rows, rows': Rows, templates: seq<Template>, k: Key, digest: Digest)
    requires k in rows'
  {
    && k.version > 0 && IsLatest(rows, k.id, k.version - 1)
    && exists i ::
         && 0 <= i < |templates| && templates[i].id == k.id
         && rows'[k] == RowOf(templates[i], templates[i].content.rules, digest)
  }

  // Whatever a sync adds is the next version of one of its templates, with the rules that one has.
  ghost predicate NewRowsFrom(rows: Rows, rows': Rows, templates: seq<Template>, digest: Digest) {
    forall k :: k in rows' && k !in rows ==> NewRowOk(rows, rows', templates, k, digest)
  }

  ghost predicate DistinctTemplates(templates: seq<Template>) {
    forall i, j :: 0 <= i < j < |templates| ==> templates[i].id != templates[j].id
  }

  // The rows of the other templates stay as they are.
  ghost predicate OnlyOf(rows: Rows, rows': Rows, id: string) {
    Extends(rows, rows') && forall k :: k in rows' && k.id != id ==> k in rows
  }

  // What holds after the first n templates were synced.
  ghost predicate SyncedUpTo(rows: Rows, rows': Rows, cache: Cache, templates: seq<Template>, n: nat, digest: Digest)
    requires n <= |templates|
  {
    && Extends(rows, rows') && NewRowsFrom(rows, rows', templates[..n], digest)
    && (forall i :: 0 <= i < n ==> UpToDate(rows', templates[i], digest) && Held(rows', cache, templates[i].id))
    && ((forall i :: 0 <= i < n ==> UpToDate(rows, templates[i], digest)) ==> rows' == rows)
  }

  lemma NothingSynced(rows: Rows, cache: Cache, templates: seq<Template>, digest: Digest)
    ensures SyncedUpTo(rows, rows, cache, templates, 0, digest)
  {
  }

  ghost predicate SyncedOne(rows: Rows, rows': Rows, cache: Cache, cache': Cache, t: Template, digest: Digest) {
    && Extends(cache, cache')
    && UpToDate(rows', t, digest) && Held(rows', cache', t.id) && OnlyOf(rows, rows', t.id)
    && (UpToDate(rows, t, digest) ==> rows' == rows)
    && forall k :: k in rows' && k !in rows ==>
         k.id == t.id && k.version > 0 && IsLatest(rows, t.id, k.version - 1)
             && rows'[k] == RowOf(t, t.content.rules, digest)
  }

  lemma SyncStep(rows: Rows, rows1: Rows, rows2: Rows, cache1: Cache, cache2: Cache, templates: seq<Template>,
                 n: nat, digest: Digest)
    requires n < |templates| && DistinctTemplates(templates)
    requires SyncedUpTo(rows, rows1, cache1, templates, n, digest)
    requires SyncedOne(rows1, rows2, cache1, cache2, templates[n], digest)
    ensures SyncedUpTo(rows, rows2, cache2, templates, n + 1, digest)
  {
    var t := templates[n];
    assert templates[..n + 1][n] == t;
    SameLatest(rows1, rows2, t.id);
    NewRowsStep(rows, rows1, rows2, cache1, cache2, templates, n, digest);
    forall i | 0 <= i < n ensures UpToDate(rows2, templates[i], digest) && Held(rows2, cache2, templates[i].id) {
      KeptByOthers(rows1, rows2, cache1, cache2, templates[i], t.id, digest);
    }
  }

  lemma SameLatest(rows1: Rows, rows2: Rows, id: string)
    requires OnlyOf(rows1, rows2, id)
    ensures forall other, v: nat :: other != id && IsLatest(rows1, other, v) ==> IsLatest(rows2, other, v)
  {
  }

  lemma KeptByOthers(rows1: Rows, rows2: Rows, cache1: Cache, cache2: Cache, t: Template, id: string, digest: Digest)
    requires OnlyOf(rows1, rows2, id) && Extends(cache1, cache2) && t.id != id
    requires UpToDate(rows1, t, digest) && Held(rows1, cache1, t.id)
    ensures UpToDate(rows2, t, digest) && Held(rows2, cache2, t.id)
  {
    SameLatest(rows1, rows2, id);
    var n: nat :| n > 0 && IsLatest(rows1, t.id, n) && rows1[Key(t.id, n)].fingerprint == digest(t.content);
    assert IsLatest(rows2, t.id, n);
    var m: nat :| IsLatest(rows1, t.id, m) && Key(t.id, m) in cache1;
    assert IsLatest(rows2, t.id, m);
  }

  lemma NoneYet(rows: Rows, rows1: Rows, templates: seq<Template>, n: nat, digest: Digest)
    requires n < |templates| && DistinctTemplates(templates) && NewRowsFrom(rows, rows1, templates[..n], digest)
    ensures forall k :: k in rows1 && k.id == templates[n].id ==> k in rows
  {
    forall k | k in rows1 && k !in rows ensures k.id != templates[n].id {
      assert NewRowOk(rows, rows1, templates[..n], k, digest);
      var fewer := templates[..n];
      var i :| 0 <= i < |fewer| && fewer[i].id == k.id && rows1[k] == RowOf(fewer[i], fewer[i].content.rules, digest);
      assert templates[i] == fewer[i];
    }
  }

  lemma OldRowOk(rows: Rows, rows1: Rows, rows2: Rows, templates: seq<Template>, n: nat, k: Key, digest: Digest)
    requires n < |templates| && k in rows1 && k in rows2 && rows2[k] == rows1[k]
    requires NewRowOk(rows, rows1, templates[..n], k, digest)
    ensures NewRowOk(rows, rows2, templates[..n + 1], k, digest)
  {
    var fewer, more := templates[..n], templates[..n + 1];
    var i :| 0 <= i < |fewer| && fewer[i].id == k.id && rows1[k] == RowOf(fewer[i], fewer[i].content.rules, digest);
    assert more[i] == fewer[i];
  }

  lemma NewRowsStep(rows: Rows, rows1: Rows, rows2: Rows, cache1: Cache, cache2: Cache, templates: seq<Template>,
                    n: nat, digest: Digest)
    requires n < |templates| && DistinctTemplates(templates)
    requires Extends(rows, rows1) && NewRowsFrom(rows, rows1, templates[..n], digest)
    requires SyncedOne(rows1, rows2, cache1, cache2, templates[n], digest)
    ensures Extends(rows, rows2) && NewRowsFrom(rows, rows2, templates[..n + 1], digest)
    ensures UpToDate(rows, templates[n], digest) && rows1 == rows ==> rows2 == rows
  {
    var more := templates[..n + 1];
    NoneYet(rows, rows1, templates, n, digest);
    forall k | k in rows2 && k !in rows ensures NewRowOk(rows, rows2, more, k, digest) {
      if k in rows1 {
        OldRowOk(rows, rows1, rows2, templates, n, k, digest);
      } else {
        assert more[n] == templates[n];
      }
    }
  }

  function Without(cache: Cache, id: string): Cache {
    map k | k in cache && k.id != id :: cache[k]
  }

  function WithRules(t: Template, rules: seq<string>): Template {
    t.(content := t.content.(rules := rules), version := t.version + 1)
  }

  // A lookup answers with the latest version: the cached template, or what the row parses to.
  ghost predicate Serves(r: Result<Template>, id: string, rows: Rows, cache: Cache, digest: Digest) {
    match r
    case TemplateNotFound => IsLatest(rows, id, 0)
    case Ok(t) =>
      var k := Key(id, t.version);
      && t.id == id && k in rows && IsLatest(rows, id, t.version)
      && digest(t.content) == rows[k].fingerprint
      && t == if k in cache then cache[k] else Parsed(t.version, rows[k])
  }

  ghost predicate Appends(current: Template, newRules: seq<string>, r: Result<Template>, rows: Rows, rows': Rows,
                          cache: Cache, digest: Digest) {
    var added := Deduped(current.content.rules, newRules);
    var k := Key(current.id, current.version + 1);
    if added == [] then
      rows' == rows && r == Ok(current)
    else
      && rows' == rows[k := RowOf(current, current.content.rules + added, digest)]
      && r == Ok(WithRules(current, current.content.rules + added))
      && r == Ok(Parsed(k.version, rows'[k]))
      && k in cache && cache[k] == r.value
  }

  // ----- Runs of appends -----

  ghost function RulesAt(rows: Rows, id: string, v: nat): seq<string> {
    if Key(id, v) in rows then Parsed(v, rows[Key(id, v)]).content.rules else []
  }

  // The fingerprint normalises each rule; two spellings that normalise alike are one to it.
  function Normal(rules: seq<string>, norm: string -> string): (r: seq<string>)
    ensures |r| == |rules| && forall i :: 0 <= i < |r| ==> r[i] == norm(rules[i])
  {
    seq(|rules|, (i: int) requires 0 <= i < |rules| => norm(rules[i]))
  }

  // Rules that differ after normalising have different fingerprints.
  ghost predicate Separates(digest: Digest, norm: string -> string) {
    forall a, b :: digest(a) == digest(b) ==> Normal(a.rules, norm) == Normal(b.rules, norm)
  }

  // Some process, with a cache that fits the table, appends rules to some template.
  ghost predicate AppendStep(rows: Rows, rows': Rows, digest: Digest) {
    exists id, cache, current, newRules, r, cache' ::
      && Inv(rows, cache, digest) && Serves(Ok(current), id, rows, cache, digest)
      && Appends(current, newRules, r, rows, rows', cache', digest)
  }

  ghost function NormalAt(rows: Rows, id: string, v: nat, norm: string -> string): seq<string> {
    Normal(RulesAt(rows, id, v), norm)
  }

  ghost predicate RulesGrow(rows: Rows, id: string, base: nat, norm: string -> string) {
    forall v: nat :: base <= v && 0 < v && Key(id, v + 1) in rows ==>
      IsPrefix(NormalAt(rows, id, v, norm), NormalAt(rows, id, v + 1, norm))
  }

  lemma AppendGrows(rows: Rows, rows': Rows, id: string, base: nat, digest: Digest, norm: string -> string)
    requires AppendStep(rows, rows', digest) && Separates(digest, norm) && RulesGrow(rows, id, base, norm)
    ensures RulesGrow(rows', id, base, norm)
  {
    var tid, cache, current, newRules, r, cache' :|
      && Inv(rows, cache, digest) && Serves(Ok(current), tid, rows, cache, digest)
      && Appends(current, newRules, r, rows, rows', cache', digest);
    AppendedGrows(rows, rows', id, base, digest, norm, tid, cache, current, newRules);
  }

  lemma AppendedGrows(rows: Rows, rows': Rows, id: string, base: nat, digest: Digest, norm: string -> string,
                      tid: string, cache: Cache, current: Template, newRules: seq<string>)
    requires Separates(digest, norm) && RulesGrow(rows, id, base, norm)
    requires Inv(rows, cache, digest) && Serves(Ok(current), tid, rows, cache, digest)
    requires var added := Deduped(current.content.rules, newRules);
             rows' == if added == [] then rows
                      else rows[Key(current.id, current.version + 1) :=
                             RowOf(current, current.content.rules + added, digest)]
    ensures RulesGrow(rows', id, base, norm)
  {
    var added := Deduped(current.content.rules, newRules);
    if added != [] {
      var row := RowOf(current, current.content.rules + added, digest);
      NewRulesFollow(rows, cache, current, added, digest, norm);
      GrownBy(rows, rows', row, tid, current.version, id, base, norm);
    }
  }

  // The row an append adds has the rules of the latest one, and some more.
  lemma NewRulesFollow(rows: Rows, cache: Cache, current: Template, added: seq<string>, digest: Digest,
                       norm: string -> string)
    requires Inv(rows, cache, digest) && Serves(Ok(current), current.id, rows, cache, digest)
        && Separates(digest, norm) && added != []
    ensures var k := Key(current.id, current.version + 1);
            var rows' := rows[k := RowOf(current, current.content.rules + added, digest)];
            IsPrefix(NormalAt(rows, current.id, current.version, norm),
                NormalAt(rows', current.id, current.version + 1, norm))
  {
    var n, latest := current.version, rows[Key(current.id, current.version)];
    AddedRow(rows, cache, digest, current, current.content.rules + added, n);
    assert digest(current.content) == digest(Parsed(n, latest).content);
    assert NormalAt(rows, current.id, n, norm) == Normal(current.content.rules, norm);
  }

  lemma GrownBy(rows: Rows, rows': Rows, row: Row, tid: string, n: nat, id: string, base: nat, norm: string -> string)
    requires RulesGrow(rows, id, base, norm) && IsLatest(rows, tid, n) && n > 0
    requires rows' == rows[Key(tid, n + 1) := row]
    requires IsPrefix(NormalAt(rows, tid, n, norm), NormalAt(rows', tid, n + 1, norm))
    ensures RulesGrow(rows', id, base, norm)
  {
    forall v: nat | base <= v && 0 < v && Key(id, v + 1) in rows'
      ensures IsPrefix(NormalAt(rows', id, v, norm), NormalAt(rows', id, v + 1, norm))
    {
      if Key(id, v + 1) == Key(tid, n + 1) {
        assert RulesAt(rows', id, v) == RulesAt(rows, tid, n);
        assert NormalAt(rows', id, v, norm) == NormalAt(rows, tid, n, norm);
      } else {
        assert Key(id, v + 1) in rows;
        assert Key(id, v) != Key(tid, n + 1);
        assert RulesAt(rows', id, v) == RulesAt(rows, id, v) && RulesAt(rows', id, v + 1) == RulesAt(rows, id, v + 1);
        assert IsPrefix(NormalAt(rows, id, v, norm), NormalAt(rows, id, v + 1, norm));
        assert NormalAt(rows', id, v, norm) == NormalAt(rows, id, v, norm);
        assert NormalAt(rows', id, v + 1, norm) == NormalAt(rows, id, v + 1, norm);
      }
    }
  }

  ghost predicate AppendRun(run: seq<Rows>, digest: Digest) {
    run != [] && forall i :: 0 <= i < |run| - 1 ==> AppendStep(run[i], run[i + 1], digest)
  }

  lemma {:induction false} RunGrows(run: seq<Rows>, i: nat, id: string, base: nat, digest: Digest,
                                    norm: string -> string)
    requires AppendRun(run, digest) && i < |run| && Separates(digest, norm) && RulesGrow(run[0], id, base, norm)
    ensures RulesGrow(run[i], id, base, norm)
    decreases i
  {
    if i > 0 {
      RunGrows(run, i - 1, id, base, digest, norm);
      assert AppendStep(run[i - 1], run[i - 1 + 1], digest);
      AppendGrows(run[i - 1], run[i], id, base, digest, norm);
    }
  }

  lemma AppendsKeepRows(rows: Rows, rows': Rows, cache: Cache, current: Template, added: seq<string>, digest: Digest)
    requires Inv(rows, cache, digest) && IsLatest(rows, current.id, current.version) && added != []
    requires var k := Key(current.id, current.version + 1);
             rows' == rows[k := RowOf(current, current.content.rules + added, digest)]
    ensures Contiguous(rows') && RowsFit(rows', digest) && Extends(rows, rows')
  {
    AddedRow(rows, cache, digest, current, current.content.rules + added, current.version);
  }

  lemma AppendContiguous(rows: Rows, rows': Rows, digest: Digest)
    requires AppendStep(rows, rows', digest)
    ensures Contiguous(rows') && RowsFit(rows', digest) && Extends(rows, rows')
  {
    var tid, cache, current, newRules, r, cache' :|
      && Inv(rows, cache, digest) && Serves(Ok(current), tid, rows, cache, digest)
      && Appends(current, newRules, r, rows, rows', cache', digest);
    var added := Deduped(current.content.rules, newRules);
    if added != [] { AppendsKeepRows(rows, rows', cache, current, added, digest); }
  }

  lemma RunContiguous(run: seq<Rows>, i: nat, digest: Digest)
    requires AppendRun(run, digest) && i < |run| && Contiguous(run[0])
    ensures Contiguous(run[i])
  {
    if i > 0 {
      assert AppendStep(run[i - 1], run[i - 1 + 1], digest);
      AppendContiguous(run[i - 1], run[i], digest);
    }
  }

  lemma {:induction false} GrowsFar(rows: Rows, id: string, base: nat, u: nat, v: nat, norm: string -> string)
    requires Contiguous(rows) && RulesGrow(rows, id, base, norm) && base <= u <= v && 0 < u && Key(id, v) in rows
    ensures IsPrefix(NormalAt(rows, id, u, norm), NormalAt(rows, id, v, norm))
    decreases v
  {
    if u < v {
      assert Key(id, v - 1) in rows;
      GrowsFar(rows, id, base, u, v - 1, norm);
      assert Key(id, v - 1 + 1) in rows;
      PrefixTrans(NormalAt(rows, id, u, norm), NormalAt(rows, id, v - 1, norm), NormalAt(rows, id, v, norm));
    }
  }

  // Between syncs, whichever processes append, the rules of a version, normalised as the fingerprint
  // does, are a prefix of the rules of every later one.
  lemma RulesArePrefixes(run: seq<Rows>, i: nat, id: string, base: nat, u: nat, v: nat, digest: Digest,
                         norm: string -> string)
    requires AppendRun(run, digest) && i < |run| && Separates(digest, norm)
    requires Contiguous(run[0]) && IsLatest(run[0], id, base)
    requires base <= u <= v && 0 < u && Key(id, v) in run[i]
    ensures IsPrefix(NormalAt(run[i], id, u, norm), NormalAt(run[i], id, v, norm))
  {
    RunGrows(run, i, id, base, digest, norm);
    RunContiguous(run, i, digest);
    GrowsFar(run[i], id, base, u, v, norm);
  }

  lemma {:induction false} ExtendsFar(run: seq<Rows>, i: nat, j: nat)
    requires i <= j < |run| && forall k :: 0 < k < |run| ==> Extends(run[k - 1], run[k])
    ensures Extends(run[i], run[j])
    decreases j
  {
    if i < j {
      ExtendsFar(run, i, j - 1);
      ExtendsOn(run[i], run[j - 1], run[j]);
    }
  }

  lemma ExtendsOn(a: Rows, b: Rows, c: Rows)
    requires Extends(a, b) && Extends(b, c)
    ensures Extends(a, c)
  {
  }

  // A cache that fits the table at some time fits it at every later one, whichever processes append.
  lemma CacheOutlivesAppends(cache: Cache, run: seq<Rows>, i: nat, j: nat, digest: Digest)
    requires AppendRun(run, digest) && i <= j < |run| && CacheFits(cache, run[i], digest)
    ensures CacheFits(cache, run[j], digest)
  {
    forall k | 0 < k < |run| ensures Extends(run[k - 1], run[k]) { RunExtends(run, k, digest); }
    ExtendsFar(run, i, j);
    CacheSurvives(cache, run[i], run[j], digest);
  }

  lemma RunExtends(run: seq<Rows>, j: nat, digest: Digest)
    requires AppendRun(run, digest) && 0 < j < |run|
    ensures Extends(run[j - 1], run[j])
  {
    assert AppendStep(run[j - 1], run[j - 1 + 1], digest);
    AppendContiguous(run[j - 1], run[j], digest);
  }

  // The cache is filled before the caller commits. If the caller rolls back instead, the cache fits
  // the table only if nothing had been added.
  lemma RollbackFitsIff(current: Template, newRules: seq<string>, r: Result<Template>, rows: Rows, rows': Rows,
                        cache: Cache, digest: Digest)
    requires IsLatest(rows, current.id, current.version) && CacheFits(cache, rows', digest)
    requires Appends(current, newRules, r, rows, rows', cache, digest)
    ensures CacheFits(cache, rows, digest) <==> Deduped(current.content.rules, newRules) == []
  {
  }
}
