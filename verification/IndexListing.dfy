/** What the four queries read: the stored documents, in stored order, as records with their origin. */
module IndexListing {
  import opened Text
  import opened Seqs
  import opened JsonTree
  import opened IndexRecords
  import opened IndexMeaning
  import opened IndexQueries
  import opened IndexSearch

  // ----- one document

  /** Document `raw` of a snapshot is record `r`, and of the entity asked for; a blank entity means any. */
  ghost predicate Becomes(c: Codec, s: Snapshot, raw: Json, entity: string, r: Record) {
    && raw.Obj? && RecordIs(c, Merged(raw.fields), r.(origin := NoOrigin))
    && r.origin == HostIndex(s.plugin, s.instance, s.index) && (entity == "" || r.entity == entity)
  }

  lemma FirstFilledUnique(c: Codec, m: map<string, Json>, keys: seq<string>, v: string, w: string)
    requires FirstFilled(c, m, keys, v) && FirstFilled(c, m, keys, w)
    ensures v == w
  {
    if i, j :| FilledAt(c, m, keys, v, i) && FilledAt(c, m, keys, w, j) {
      assert i == j;
    }
  }

  lemma RecordIsUnique(c: Codec, m: map<string, Json>, r: Record, q: Record)
    requires RecordIs(c, m, r) && RecordIs(c, m, q)
    ensures r == q
  {
    FirstFilledUnique(c, m, ID_KEYS, r.id, q.id);
    FirstFilledUnique(c, m, ["entity"], r.entity, q.entity);
    FirstFilledUnique(c, m, TITLE_KEYS, r.title, q.title);
    FirstFilledUnique(c, m, URL_KEYS, r.url, q.url);
    assert r.links == q.links;
    assert r.fields == q.fields;
  }

  /** A document gives exactly the record it is. */
  lemma CandidateBecomes(c: Codec, s: Snapshot, raw: Json, entity: string, r: Record)
    ensures Candidate(c, s, raw, entity) == Some(r) <==> Becomes(c, s, raw, entity, r)
  {
    DocumentBecomesRecord(c, raw);
    EnrichOnlyAddsOrigin(c, s, raw);
    var n := NormalizeRecord(c, raw);
    if Becomes(c, s, raw, entity, r) {
      var m, bare := Merged(raw.fields), r.(origin := NoOrigin);
      if FirstFilled(c, m, ID_KEYS, "") { FirstFilledUnique(c, m, ID_KEYS, r.id, ""); }
      RecordIsUnique(c, m, n.value, bare);
    }
  }

  // ----- the list

  lemma {:induction false} FlatSame(table: seq<seq<Option<Record>>>, more: seq<seq<Option<Record>>>, n: nat)
    requires n <= |table| && table <= more
    ensures Flat(table, n) == Flat(more, n)
  {
    if n > 0 { FlatSame(table, more, n - 1); }
  }

  lemma TableNext(c: Codec, snapshots: seq<Snapshot>, s: Snapshot, entity: string)
    ensures Table(c, snapshots + [s], entity) == Table(c, snapshots, entity) + [Candidates(c, s, s.records, entity)]
  {
    assert (snapshots + [s])[..|snapshots|] == snapshots;
  }

  lemma FlatOne(row: seq<Option<Record>>)
    ensures Flat([row], 1) == Somes(row, |row|)
  {
    assert [row][0] == row && Flat([row], 0) == [];
  }

  lemma ListedOne(c: Codec, s: Snapshot, entity: string)
    ensures var row := Candidates(c, s, s.records, entity); Listed(c, [s], entity) == Somes(row, |row|)
  {
    var row := Candidates(c, s, s.records, entity);
    TableNext(c, [], s, entity);
    assert [] + [s] == [s] && [] + [row] == [row];
    FlatOne(row);
  }

  /** One more snapshot adds its records behind the others. */
  lemma ListedNext(c: Codec, snapshots: seq<Snapshot>, s: Snapshot, entity: string)
    ensures Listed(c, [], entity) == []
    ensures Listed(c, snapshots + [s], entity) == Listed(c, snapshots, entity) + Listed(c, [s], entity)
  {
    var table, row := Table(c, snapshots, entity), Candidates(c, s, s.records, entity);
    TableNext(c, snapshots, s, entity);
    ListedOne(c, s, entity);
    FlatSame(table, table + [row], |snapshots|);
  }

  lemma {:induction false} SomesSame(options: seq<Option<Record>>, more: seq<Option<Record>>, n: nat)
    requires n <= |options| && options <= more
    ensures Somes(options, n) == Somes(more, n)
  {
    if n > 0 { SomesSame(options, more, n - 1); }
  }

  lemma {:induction false} CandidatesOf(c: Codec, s: Snapshot, t: Snapshot, raws: seq<Json>, entity: string)
    requires s.plugin == t.plugin && s.instance == t.instance && s.index == t.index
    ensures Candidates(c, s, raws, entity) == Candidates(c, t, raws, entity)
  {
    if raws != [] { CandidatesOf(c, s, t, raws[..|raws| - 1], entity); }
  }

  /** One more document adds the record it is, or nothing when it is none of that entity. */
  lemma ListedDocument(c: Codec, s: Snapshot, raw: Json, entity: string, r: Record)
    ensures var before, after := Listed(c, [s], entity), Listed(c, [s.(records := s.records + [raw])], entity);
            && (Becomes(c, s, raw, entity, r) ==> after == before + [r])
            && ((forall q :: !Becomes(c, s, raw, entity, q)) ==> after == before)
  {
    var t := s.(records := s.records + [raw]);
    var row := Candidates(c, s, s.records, entity);
    assert t.records[..|s.records|] == s.records;
    CandidatesOf(c, s, t, s.records, entity);
    ListedOne(c, s, entity);
    ListedOne(c, t, entity);
    var next := Candidate(c, t, raw, entity);
    assert Candidates(c, t, t.records, entity) == row + [next];
    SomesSame(row, row + [next], |row|);
    assert next == Candidate(c, s, raw, entity);
    CandidateBecomes(c, s, raw, entity, r);
    if next.Some? { CandidateBecomes(c, s, raw, entity, next.value); }
  }

  // ----- what list and batch-get make of it

  /** The list without a query: the first records, as many as asked for or there are, unscored, in stored order. */
  lemma ListIsBeginning(records: seq<Record>, limit: int, k: nat)
    ensures var out := Plain(Limited(records, limit));
            && |out| == (if 0 < limit < |records| then limit else |records|)
            && (k < |out| ==> out[k] == Hit(records[k], 0, []))
  {}

  /** Batch-get takes the identifiers one after the other: what it finds and misses comes in the order asked. */
  lemma {:induction false} BatchAppends(ids: seq<string>, more: seq<string>, records: seq<Record>)
    ensures Found(ids + more, records) == Found(ids, records) + Found(more, records)
    ensures Missing(ids + more, records) == Missing(ids, records) + Missing(more, records)
  {
    if more == [] {
      assert ids + more == ids;
    } else {
      assert (ids + more)[..|ids + more| - 1] == ids + more[..|more| - 1];
      BatchAppends(ids, more[..|more| - 1], records);
    }
  }
}
