/** The four index queries, each against the plain list of candidate records. */
module IndexQueries {
  import opened Text
  import opened Seqs
  import opened Sorting
  import opened JsonTree
  import opened IndexRecords
  import opened IndexScore
  import opened IndexMatch

  // ----- tables of options, flattened

  function AsSeq(r: Option<Record>): seq<Record> { if r.Some? then [r.value] else [] }

  /** The values among the first `n` options. */
  function Somes(options: seq<Option<Record>>, n: nat): seq<Record>
    requires n <= |options|
  {
    if n == 0 then [] else Somes(options, n - 1) + AsSeq(options[n - 1])
  }

  /** The values in the first `n` rows. */
  function Flat(table: seq<seq<Option<Record>>>, n: nat): seq<Record>
    requires n <= |table|
  {
    if n == 0 then [] else Flat(table, n - 1) + Somes(table[n - 1], |table[n - 1]|)
  }

  /** The values before column `j` of row `i`: what a scan has seen by then. */
  function Seen(table: seq<seq<Option<Record>>>, i: nat, j: nat): seq<Record>
    requires i < |table| && j <= |table[i]|
  {
    Flat(table, i) + Somes(table[i], j)
  }

  lemma PrefixGrows<T>(s: seq<T>, t: seq<T>, more: seq<T>)
    requires s <= t
    ensures s <= t + more
  {}

  lemma {:induction false} SomesPrefix(options: seq<Option<Record>>, n: nat, m: nat)
    requires n <= m <= |options|
    ensures Somes(options, n) <= Somes(options, m)
  {
    if n < m {
      SomesPrefix(options, n, m - 1);
      PrefixGrows(Somes(options, n), Somes(options, m - 1), AsSeq(options[m - 1]));
    }
  }

  lemma {:induction false} FlatPrefix(table: seq<seq<Option<Record>>>, n: nat, m: nat)
    requires n <= m <= |table|
    ensures Flat(table, n) <= Flat(table, m)
  {
    if n < m {
      FlatPrefix(table, n, m - 1);
      PrefixGrows(Flat(table, n), Flat(table, m - 1), Somes(table[m - 1], |table[m - 1]|));
    }
  }

  /** What a scan has seen is the beginning of the whole. */
  lemma SeenIsPrefix(table: seq<seq<Option<Record>>>, i: nat, j: nat)
    requires i < |table| && j <= |table[i]|
    ensures Seen(table, i, j) <= Flat(table, |table|)
  {
    SomesPrefix(table[i], j, |table[i]|);
    FlatPrefix(table, i + 1, |table|);
  }

  lemma SeenStart(table: seq<seq<Option<Record>>>, i: nat)
    requires i < |table|
    ensures Seen(table, i, 0) == Flat(table, i) && Seen(table, i, |table[i]|) == Flat(table, i + 1)
  {}

  lemma SeenNext(table: seq<seq<Option<Record>>>, i: nat, j: nat)
    requires i < |table| && j < |table[i]|
    ensures Seen(table, i, j + 1)
            == if table[i][j].Some? then Seen(table, i, j) + [table[i][j].value] else Seen(table, i, j)
  {}

  lemma Associate<T>(x: seq<T>, y: seq<T>, z: seq<T>)
    ensures x + (y + z) == x + y + z
  {}

  lemma {:induction false} SomesAll(options: seq<Option<Record>>, n: nat, p: Record -> bool)
    requires n <= |options| && forall j :: 0 <= j < |options| && options[j].Some? ==> p(options[j].value)
    ensures forall r :: r in Somes(options, n) ==> p(r)
  {
    if n > 0 { SomesAll(options, n - 1, p); }
  }

  lemma {:induction false} FlatAll(table: seq<seq<Option<Record>>>, n: nat, p: Record -> bool)
    requires n <= |table|
    requires forall i, j :: 0 <= i < |table| && 0 <= j < |table[i]| && table[i][j].Some? ==> p(table[i][j].value)
    ensures forall r :: r in Flat(table, n) ==> p(r)
  {
    if n > 0 {
      FlatAll(table, n - 1, p);
      SomesAll(table[n - 1], |table[n - 1]|, p);
    }
  }

  // ----- the plain list

  function Candidates(c: Codec, s: Snapshot, raws: seq<Json>, entity: string): (t: seq<Option<Record>>)
    ensures |t| == |raws|
  {
    if raws == [] then []
    else Candidates(c, s, raws[..|raws| - 1], entity) + [Candidate(c, s, raws[|raws| - 1], entity)]
  }

  function Table(c: Codec, snapshots: seq<Snapshot>, entity: string): (t: seq<seq<Option<Record>>>)
    ensures |t| == |snapshots|
    ensures forall i :: 0 <= i < |t| ==> |t[i]| == |snapshots[i].records|
  {
    if snapshots == [] then []
    else
      var last := snapshots[|snapshots| - 1];
      Table(c, snapshots[..|snapshots| - 1], entity) + [Candidates(c, last, last.records, entity)]
  }

  lemma {:induction false} CandidateAt(c: Codec, s: Snapshot, raws: seq<Json>, entity: string, j: nat)
    requires j < |raws|
    ensures Candidates(c, s, raws, entity)[j] == Candidate(c, s, raws[j], entity)
  {
    if j < |raws| - 1 { CandidateAt(c, s, raws[..|raws| - 1], entity, j); }
  }

  lemma {:induction false} TableAt(c: Codec, snapshots: seq<Snapshot>, entity: string, i: nat, j: nat)
    requires i < |snapshots| && j < |snapshots[i].records|
    ensures Table(c, snapshots, entity)[i][j] == Candidate(c, snapshots[i], snapshots[i].records[j], entity)
  {
    if i < |snapshots| - 1 {
      TableAt(c, snapshots[..|snapshots| - 1], entity, i, j);
    } else {
      CandidateAt(c, snapshots[i], snapshots[i].records, entity, j);
    }
  }

  /** Every stored record of the entity, in stored order; a blank entity means any. */
  function Listed(c: Codec, snapshots: seq<Snapshot>, entity: string): seq<Record> {
    Flat(Table(c, snapshots, entity), |snapshots|)
  }

  /** One document of a scan: normalize, enrich, filter by entity. */
  method Admit(c: Codec, snapshots: seq<Snapshot>, ghost table: seq<seq<Option<Record>>>, i: nat, j: nat,
               entity: string)
    returns (admitted: Option<Record>)
    requires table == Table(c, snapshots, entity) && i < |snapshots| && j < |snapshots[i].records|
    ensures admitted == table[i][j]
    ensures Seen(table, i, j + 1) == if admitted.Some? then Seen(table, i, j) + [admitted.value] else Seen(table, i, j)
  {
    SeenNext(table, i, j);
    TableAt(c, snapshots, entity, i, j);
    var record := NormalizeRecord(c, snapshots[i].records[j]);
    if record.None? { return None; }
    var enriched := Enrich(c, snapshots[i], record.value);
    if entity != "" && enriched.entity != entity { return None; }
    admitted := Some(enriched);
  }

  // ----- the entity filter

  function OfEntity(records: seq<Record>, entity: string): seq<Record> {
    if records == [] then []
    else OfEntity(records[..|records| - 1], entity)
         + if records[|records| - 1].entity == entity then [records[|records| - 1]] else []
  }

  lemma {:induction false} OfEntityAppend(s: seq<Record>, t: seq<Record>, entity: string)
    ensures OfEntity(s + t, entity) == OfEntity(s, entity) + OfEntity(t, entity)
  {
    if t == [] {
      assert s + t == s;
    } else {
      assert (s + t)[..|s + t| - 1] == s + t[..|t| - 1];
      OfEntityAppend(s, t[..|t| - 1], entity);
    }
  }

  function Keep(r: Option<Record>, entity: string): Option<Record> {
    if r.Some? && r.value.entity == entity then r else None
  }

  ghost predicate Kept(kept: seq<Option<Record>>, options: seq<Option<Record>>, entity: string) {
    |kept| == |options| && forall j :: 0 <= j < |options| ==> kept[j] == Keep(options[j], entity)
  }

  lemma KeptOne(r: Option<Record>, entity: string)
    ensures OfEntity(AsSeq(r), entity) == AsSeq(Keep(r, entity))
  {}

  lemma {:induction false} SomesKept(kept: seq<Option<Record>>, options: seq<Option<Record>>, entity: string, n: nat)
    requires Kept(kept, options, entity) && n <= |options|
    ensures Somes(kept, n) == OfEntity(Somes(options, n), entity)
  {
    if n > 0 {
      SomesKept(kept, options, entity, n - 1);
      OfEntityAppend(Somes(options, n - 1), AsSeq(options[n - 1]), entity);
      KeptOne(options[n - 1], entity);
    }
  }

  lemma {:induction false} FlatKept(kept: seq<seq<Option<Record>>>, table: seq<seq<Option<Record>>>, entity: string,
                                    n: nat)
    requires |kept| == |table| && (forall i :: 0 <= i < |table| ==> Kept(kept[i], table[i], entity)) && n <= |table|
    ensures Flat(kept, n) == OfEntity(Flat(table, n), entity)
  {
    if n > 0 {
      FlatKept(kept, table, entity, n - 1);
      SomesKept(kept[n - 1], table[n - 1], entity, |table[n - 1]|);
      OfEntityAppend(Flat(table, n - 1), Somes(table[n - 1], |table[n - 1]|), entity);
    }
  }

  /** Asking for an entity is filtering the whole list by it. */
  lemma EntityFilter(c: Codec, snapshots: seq<Snapshot>, entity: string)
    requires entity != ""
    ensures Listed(c, snapshots, entity) == OfEntity(Listed(c, snapshots, ""), entity)
  {
    var kept, table := Table(c, snapshots, entity), Table(c, snapshots, "");
    forall i | 0 <= i < |snapshots| ensures Kept(kept[i], table[i], entity) {
      forall j | 0 <= j < |table[i]| ensures kept[i][j] == Keep(table[i][j], entity) {
        TableAt(c, snapshots, entity, i, j);
        TableAt(c, snapshots, "", i, j);
      }
    }
    FlatKept(kept, table, entity, |snapshots|);
  }

  // ----- get and batch-get

  function First(records: seq<Record>, id: string): Option<Record> {
    if records == [] then None
    else if records[0].id == id then Some(records[0])
    else First(records[1..], id)
  }

  function Last(records: seq<Record>, id: string): Option<Record> {
    if records == [] then None
    else if records[|records| - 1].id == id then Some(records[|records| - 1])
    else Last(records[..|records| - 1], id)
  }

  lemma {:induction false} FirstOfAppend(s: seq<Record>, t: seq<Record>, id: string)
    ensures First(s + t, id) == if First(s, id).Some? then First(s, id) else First(t, id)
  {
    if s == [] {
      assert s + t == t;
    } else {
      assert (s + t)[1..] == s[1..] + t;
      FirstOfAppend(s[1..], t, id);
    }
  }

  lemma FirstOfPrefix(s: seq<Record>, all: seq<Record>, id: string)
    requires s <= all && First(s, id).Some?
    ensures First(all, id) == First(s, id)
  {}

  lemma FirstOfNew(s: seq<Record>, r: Record, id: string)
    requires First(s, id).None?
    ensures First(s + [r], id) == if r.id == id then Some(r) else None
  {
    FirstOfAppend(s, [r], id);
    assert [r][1..] == [];
  }

  lemma IdSurvives(c: Codec, s: Snapshot, raw: Json, entity: string)
    ensures var r, e := NormalizeRecord(c, raw), Candidate(c, s, raw, entity);
            e.Some? ==> r.Some? && e.value.id == r.value.id && e.value.entity == r.value.entity && e.value.id != ""
  {}

  /** One document of the get scan: the identifier is compared before the record is enriched and filtered. */
  method MatchNext(c: Codec, snapshots: seq<Snapshot>, ghost table: seq<seq<Option<Record>>>, i: nat, j: nat,
                   id: string, entity: string) returns (here: Option<Record>)
    requires table == Table(c, snapshots, entity) && i < |snapshots| && j < |snapshots[i].records|
    requires First(Seen(table, i, j), id).None?
    ensures here == First(Seen(table, i, j + 1), id)
  {
    var snapshot, raw := snapshots[i], snapshots[i].records[j];
    SeenNext(table, i, j);
    TableAt(c, snapshots, entity, i, j);
    IdSurvives(c, snapshot, raw, entity);
    if table[i][j].Some? { FirstOfNew(Seen(table, i, j), table[i][j].value, id); }
    var record := NormalizeRecord(c, raw);
    if record.None? || record.value.id != id { return None; }
    var enriched := Enrich(c, snapshot, record.value);
    if entity != "" && enriched.entity != entity { return None; }
    here := Some(enriched);
  }

  /** The scan of one snapshot. */
  method GetFromSnapshot(c: Codec, snapshots: seq<Snapshot>, ghost table: seq<seq<Option<Record>>>, i: nat,
                         id: string, entity: string)
    returns (found: Option<Record>)
    requires table == Table(c, snapshots, entity) && i < |snapshots| && First(Flat(table, i), id).None?
    ensures if found.Some? then found == First(Flat(table, |table|), id) else First(Flat(table, i + 1), id).None?
  {
    SeenStart(table, i);
    for j := 0 to |snapshots[i].records|
      invariant First(Seen(table, i, j), id).None?
    {
      found := MatchNext(c, snapshots, table, i, j, id, entity);
      if found.Some? {
        SeenIsPrefix(table, i, j + 1);
        FirstOfPrefix(Seen(table, i, j + 1), Flat(table, |table|), id);
        return;
      }
    }
    found := None;
  }

  method GetListed(c: Codec, snapshots: seq<Snapshot>, ghost table: seq<seq<Option<Record>>>, id: string,
                   entity: string)
    returns (found: Option<Record>)
    requires table == Table(c, snapshots, entity)
    ensures found == First(Flat(table, |table|), id)
  {
    for i := 0 to |snapshots|
      invariant First(Flat(table, i), id).None?
    {
      found := GetFromSnapshot(c, snapshots, table, i, id, entity);
      if found.Some? { return; }
    }
    found := None;
  }

  method GetIndexRecord(c: Codec, snapshots: seq<Snapshot>, givenId: string, givenEntity: string)
    returns (found: Option<Record>)
    ensures found == First(Listed(c, snapshots, TrimSpace(givenEntity)), TrimSpace(givenId))
  {
    var id, entity := TrimSpace(givenId), TrimSpace(givenEntity);
    found := GetListed(c, snapshots, Table(c, snapshots, entity), id, entity);
  }

  /** The records found, and the identifiers that were not, both in the order asked. */
  function Found(ids: seq<string>, records: seq<Record>): seq<Record> {
    if ids == [] then []
    else Found(ids[..|ids| - 1], records) + AsSeq(Last(records, TrimSpace(ids[|ids| - 1])))
  }

  function Missing(ids: seq<string>, records: seq<Record>): seq<string> {
    if ids == [] then []
    else
      var id := TrimSpace(ids[|ids| - 1]);
      Missing(ids[..|ids| - 1], records) + if id != "" && Last(records, id).None? then [id] else []
  }

  lemma NoBlankIds(c: Codec, snapshots: seq<Snapshot>, entity: string)
    ensures forall r :: r in Listed(c, snapshots, entity) ==> r.id != ""
  {
    var table: seq<seq<Option<Record>>> := Table(c, snapshots, entity);
    var p: Record -> bool := (r: Record) => r.id != "";
    forall i: nat, j: nat | i < |table| && j < |table[i]| && table[i][j].Some? ensures p(table[i][j].value) {
      TableAt(c, snapshots, entity, i, j);
      IdSurvives(c, snapshots[i], snapshots[i].records[j], entity);
    }
    FlatAll(table, |table|, p);
  }

  lemma {:induction false} LastMember(records: seq<Record>, id: string)
    ensures Last(records, id).Some? <==> exists r :: r in records && r.id == id
    ensures Last(records, id).Some? ==> Last(records, id).value in records && Last(records, id).value.id == id
  {
    if records != [] {
      var rest, last := records[..|records| - 1], records[|records| - 1];
      LastMember(rest, id);
      assert records == rest + [last];
    }
  }

  lemma {:induction false} FirstMember(records: seq<Record>, id: string)
    ensures First(records, id).Some? <==> exists r :: r in records && r.id == id
    ensures First(records, id).Some? ==> First(records, id).value in records && First(records, id).value.id == id
  {
    if records != [] {
      FirstMember(records[1..], id);
      assert records == [records[0]] + records[1..];
    }
  }

  ghost predicate Indexes(byID: map<string, Record>, records: seq<Record>) {
    forall id :: (id in byID <==> Last(records, id).Some?) && (id in byID ==> Last(records, id) == Some(byID[id]))
  }

  lemma IndexOneMore(byID: map<string, Record>, records: seq<Record>, r: Record)
    requires Indexes(byID, records)
    ensures Indexes(byID[r.id := r], records + [r])
  {}

  method IndexById(c: Codec, snapshots: seq<Snapshot>, entity: string) returns (byID: map<string, Record>)
    ensures Indexes(byID, Listed(c, snapshots, entity))
  {
    byID := map[];
    ghost var table := Table(c, snapshots, entity);
    for i := 0 to |snapshots|
      invariant Indexes(byID, Flat(table, i))
    {
      SeenStart(table, i);
      for j := 0 to |snapshots[i].records|
        invariant Indexes(byID, Seen(table, i, j))
      {
        var record := Admit(c, snapshots, table, i, j, entity);
        if record.Some? {
          IndexOneMore(byID, Seen(table, i, j), record.value);
          byID := byID[record.value.id := record.value];
        }
      }
    }
  }

  method RouteIds(byID: map<string, Record>, ghost listed: seq<Record>, ids: seq<string>)
    returns (records: seq<Record>, missing: seq<string>)
    requires Indexes(byID, listed) && forall r :: r in listed ==> r.id != ""
    ensures records == Found(ids, listed) && missing == Missing(ids, listed)
  {
    LastMember(listed, "");
    records, missing := [], [];
    for i := 0 to |ids|
      invariant records == Found(ids[..i], listed) && missing == Missing(ids[..i], listed)
    {
      assert ids[..i + 1][..i] == ids[..i];
      var id := TrimSpace(ids[i]);
      if id != "" {
        if id in byID {
          records := records + [byID[id]];
        } else {
          missing := missing + [id];
        }
      }
    }
    assert ids[..|ids|] == ids;
  }

  method BatchGetIndexRecords(c: Codec, snapshots: seq<Snapshot>, ids: seq<string>, givenEntity: string)
    returns (records: seq<Record>, missing: seq<string>)
    ensures records == Found(ids, Listed(c, snapshots, TrimSpace(givenEntity)))
    ensures missing == Missing(ids, Listed(c, snapshots, TrimSpace(givenEntity)))
  {
    var entity := TrimSpace(givenEntity);
    var byID := IndexById(c, snapshots, entity);
    NoBlankIds(c, snapshots, entity);
    records, missing := RouteIds(byID, Listed(c, snapshots, entity), ids);
  }
}
