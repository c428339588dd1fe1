/** Search and list over the plain list, and how the four index queries agree. */
module IndexSearch {
  import opened Text
  import opened Seqs
  import opened Sorting
  import opened JsonTree
  import opened IndexRecords
  import opened IndexScore
  import opened IndexMatch
  import opened IndexQueries

  datatype Hit = Hit(record: Record, score: nat, matched: seq<string>)

  /** Best score first, then by entity and identifier. */
  predicate Ranked(x: Hit, y: Hit) {
    if x.score != y.score then x.score > y.score
    else if x.record.entity != y.record.entity then Before(x.record.entity, y.record.entity)
    else Before(x.record.id, y.record.id)
  }

  ghost function HitOf(c: Codec, r: Record, query: string): seq<Hit> {
    if query == "" || Score(c, r, query) > 0 then [Hit(r, Score(c, r, query), [])] else []
  }

  /** The records a query matches, with their scores. */
  ghost function HitsOf(c: Codec, records: seq<Record>, query: string): seq<Hit> {
    if records == [] then []
    else HitsOf(c, records[..|records| - 1], query) + HitOf(c, records[|records| - 1], query)
  }

  const DEFAULT_LIMIT := 20

  function Cut(limit: int): nat { if limit <= 0 then DEFAULT_LIMIT else limit }

  /** Search said plainly: filter, sort stably, cut. */
  ghost function Searched(c: Codec, records: seq<Record>, query: string, limit: int): seq<Hit> {
    Prefix(StableSort(HitsOf(c, records, query), Ranked), Cut(limit))
  }

  /** Hits without the list of matched fields. */
  function Bare(hits: seq<Hit>): seq<Hit> {
    seq(|hits|, i requires 0 <= i < |hits| => hits[i].(matched := []))
  }

  /** The matched fields of a hit are the ones the query reports, in some order, none twice. */
  ghost predicate Explained(c: Codec, h: Hit, query: string) {
    && h.score == Score(c, h.record, query) && Tidy(h.matched)
    && forall f :: f in h.matched <==> Reported(c, h.record, query, f)
  }

  // ----- sorting does not look at matched fields

  lemma {:induction false} BareInsert(x: Hit, s: seq<Hit>)
    ensures Bare(Insert(x, s, Ranked)) == Insert(x.(matched := []), Bare(s), Ranked)
  {
    if s == [] || !Ranked(s[0], x) {
      assert Bare([x] + s) == [x.(matched := [])] + Bare(s);
    } else {
      BareInsert(x, s[1..]);
      assert Bare(s)[1..] == Bare(s[1..]);
      assert Bare([s[0]] + Insert(x, s[1..], Ranked)) == [s[0].(matched := [])] + Bare(Insert(x, s[1..], Ranked));
    }
  }

  lemma {:induction false} BareSort(s: seq<Hit>)
    ensures Bare(StableSort(s, Ranked)) == StableSort(Bare(s), Ranked)
  {
    if s != [] {
      BareSort(s[1..]);
      BareInsert(s[0], StableSort(s[1..], Ranked));
      assert Bare(s)[1..] == Bare(s[1..]);
    }
  }

  lemma BareTop(s: seq<Hit>, n: int)
    ensures Bare(Prefix(StableSort(s, Ranked), n)) == Prefix(StableSort(Bare(s), Ranked), n)
  {
    BareSort(s);
  }

  lemma TopMembers(s: seq<Hit>, n: int)
    ensures forall h :: h in Prefix(StableSort(s, Ranked), n) ==> h in s
  {
    SortPermutes(s, Ranked);
    forall h | h in Prefix(StableSort(s, Ranked), n) ensures h in s {
      assert h in multiset(StableSort(s, Ranked));
    }
  }

  // ----- the methods

  lemma HitsNext(c: Codec, records: seq<Record>, r: Record, query: string)
    ensures HitsOf(c, records + [r], query) == HitsOf(c, records, query) + HitOf(c, r, query)
  {}

  ghost predicate Collected(c: Codec, hits: seq<Hit>, records: seq<Record>, query: string) {
    Bare(hits) == HitsOf(c, records, query) && forall h :: h in hits ==> Explained(c, h, query)
  }

  lemma NoneCollected(c: Codec, query: string)
    ensures Collected(c, [], [], query)
  {}

  /** One record of the scan. */
  method AddHit(c: Codec, hits: seq<Hit>, ghost seen: seq<Record>, record: Record, query: string)
    returns (out: seq<Hit>)
    requires Collected(c, hits, seen, query)
    ensures Collected(c, out, seen + [record], query)
  {
    var score, fields := ScoreRecord(c, record, query);
    HitsNext(c, seen, record, query);
    out := hits;
    if query == "" || score > 0 {
      out := hits + [Hit(record, score, fields)];
      assert Bare(out) == Bare(hits) + [Hit(record, score, [])];
    }
  }

  /** The scan of one snapshot. */
  method CollectSnapshot(c: Codec, hits: seq<Hit>, snapshots: seq<Snapshot>, ghost table: seq<seq<Option<Record>>>,
                         i: nat, query: string, entity: string)
    returns (out: seq<Hit>)
    requires table == Table(c, snapshots, entity) && i < |snapshots| && Collected(c, hits, Flat(table, i), query)
    ensures Collected(c, out, Flat(table, i + 1), query)
  {
    out := hits;
    ghost var seen := Flat(table, i);
    SeenStart(table, i);
    for j := 0 to |snapshots[i].records|
      invariant seen == Seen(table, i, j) && Collected(c, out, seen, query)
    {
      var record := Admit(c, snapshots, table, i, j, entity);
      if record.Some? {
        out := AddHit(c, out, seen, record.value, query);
        seen := seen + [record.value];
      }
    }
  }

  method CollectHits(c: Codec, snapshots: seq<Snapshot>, query: string, entity: string) returns (out: seq<Hit>)
    ensures Collected(c, out, Listed(c, snapshots, entity), query)
  {
    out := [];
    ghost var table := Table(c, snapshots, entity);
    NoneCollected(c, query);
    assert Flat(table, 0) == [];
    for i := 0 to |snapshots|
      invariant Collected(c, out, Flat(table, i), query)
    {
      out := CollectSnapshot(c, out, snapshots, table, i, query, entity);
    }
  }

  method SearchIndexRecords(c: Codec, snapshots: seq<Snapshot>, givenQuery: string, givenEntity: string,
                            givenLimit: int)
    returns (out: seq<Hit>)
    ensures var listed := Listed(c, snapshots, TrimSpace(givenEntity));
            Bare(out) == Searched(c, listed, ToLower(TrimSpace(givenQuery)), givenLimit)
    ensures forall h :: h in out ==> Explained(c, h, ToLower(TrimSpace(givenQuery)))
  {
    var query, entity := ToLower(TrimSpace(givenQuery)), TrimSpace(givenEntity);
    var limit := if givenLimit <= 0 then DEFAULT_LIMIT else givenLimit;
    var hits := CollectHits(c, snapshots, query, entity);
    BareTop(hits, limit);
    TopMembers(hits, limit);
    out := StableSort(hits, Ranked);
    if |out| > limit {
      out := out[..limit];
    }
    assert out == Prefix(StableSort(hits, Ranked), limit);
  }

  function Plain(records: seq<Record>): seq<Hit> {
    seq(|records|, i requires 0 <= i < |records| => Hit(records[i], 0, []))
  }

  /** All of the list, or the first `limit` records. */
  function Limited(records: seq<Record>, limit: int): seq<Record> {
    if limit > 0 then Prefix(records, limit) else records
  }

  lemma CutAt(seen: seq<Record>, all: seq<Record>, limit: nat)
    requires seen <= all && |seen| == limit > 0
    ensures Limited(all, limit) == seen
  {}

  /** The scan of one snapshot, which stops as soon as there is enough. */
  method ListSnapshot(c: Codec, listed: seq<Record>, snapshots: seq<Snapshot>, ghost table: seq<seq<Option<Record>>>,
                      i: nat, entity: string, limit: int)
    returns (out: seq<Record>, full: bool)
    requires table == Table(c, snapshots, entity) && i < |snapshots| && listed == Flat(table, i)
    requires limit > 0 ==> |listed| < limit
    ensures full ==> |out| == limit > 0 && out <= Flat(table, |table|)
    ensures !full ==> out == Flat(table, i + 1) && (limit > 0 ==> |out| < limit)
  {
    out, full := listed, false;
    SeenStart(table, i);
    for j := 0 to |snapshots[i].records|
      invariant !full && out == Seen(table, i, j) && (limit > 0 ==> |out| < limit)
    {
      var record := Admit(c, snapshots, table, i, j, entity);
      if record.Some? {
        out := out + [record.value];
        if limit > 0 && |out| >= limit {
          SeenIsPrefix(table, i, j + 1);
          return out, true;
        }
      }
    }
  }

  /** The list without a query. */
  method ListAll(c: Codec, snapshots: seq<Snapshot>, entity: string, limit: int) returns (out: seq<Record>)
    ensures out == Limited(Listed(c, snapshots, entity), limit)
  {
    out := [];
    ghost var table := Table(c, snapshots, entity);
    for i := 0 to |snapshots|
      invariant out == Flat(table, i) && (limit > 0 ==> |out| < limit)
    {
      var full: bool;
      out, full := ListSnapshot(c, out, snapshots, table, i, entity, limit);
      if full {
        CutAt(out, Listed(c, snapshots, entity), limit);
        return;
      }
    }
  }

  method ListIndexRecords(c: Codec, snapshots: seq<Snapshot>, givenQuery: string, text: string, givenEntity: string,
                          limit: int)
    returns (out: seq<Hit>)
    ensures var query := if TrimSpace(givenQuery) == "" then TrimSpace(text) else TrimSpace(givenQuery);
            var listed := Listed(c, snapshots, TrimSpace(givenEntity));
            if query == "" then out == Plain(Limited(listed, limit))
            else
              && Bare(out) == Searched(c, listed, ToLower(query), limit)
              && forall h :: h in out ==> Explained(c, h, ToLower(query))
  {
    var query := TrimSpace(givenQuery);
    if query == "" { query := TrimSpace(text); }
    if query != "" {
      TrimSpaceIdempotent(givenQuery);
      TrimSpaceIdempotent(text);
      out := SearchIndexRecords(c, snapshots, query, givenEntity, limit);
      return;
    }
    var records := ListAll(c, snapshots, TrimSpace(givenEntity), limit);
    out := Plain(records);
  }

  // ----- search gives the best

  lemma RankedTransitive(x: Hit, y: Hit, z: Hit)
    requires Ranked(x, y) && Ranked(y, z)
    ensures Ranked(x, z)
  {
    if x.score == y.score == z.score {
      BeforeTotal(x.record.entity, y.record.entity);
      BeforeTotal(y.record.entity, z.record.entity);
      if x.record.entity == y.record.entity == z.record.entity {
        BeforeTransitive(x.record.id, y.record.id, z.record.id);
      } else if x.record.entity != y.record.entity && y.record.entity != z.record.entity {
        BeforeTransitive(x.record.entity, y.record.entity, z.record.entity);
        BeforeTotal(x.record.entity, z.record.entity);
      }
    }
  }

  lemma RankedTotal(x: Hit, y: Hit)
    ensures Ranked(x, y) || Ranked(y, x)
            || (x.score == y.score && x.record.entity == y.record.entity && x.record.id == y.record.id)
  {
    BeforeTotal(x.record.entity, y.record.entity);
    BeforeTotal(x.record.id, y.record.id);
  }

  lemma RankedBetween(x: Hit, y: Hit, z: Hit)
    requires Ranked(x, z)
    ensures Ranked(x, y) || Ranked(y, z)
  {
    RankedTotal(x, y);
    if Ranked(y, x) { RankedTransitive(y, x, z); }
  }

  lemma RankedIsStrictWeak()
    ensures StrictWeak(Ranked)
  {
    forall x: Hit, y: Hit ensures !Ranked(x, x) && !(Ranked(x, y) && Ranked(y, x)) {
      BeforeTotal(x.record.entity, y.record.entity);
      BeforeTotal(x.record.id, y.record.id);
      BeforeTotal(x.record.id, x.record.id);
    }
    forall x: Hit, y: Hit, z: Hit | Ranked(x, y) && Ranked(y, z) ensures Ranked(x, z) { RankedTransitive(x, y, z); }
    forall x: Hit, y: Hit, z: Hit | Ranked(x, z) ensures Ranked(x, y) || Ranked(y, z) { RankedBetween(x, y, z); }
  }

  lemma {:induction false} HitMember(c: Codec, records: seq<Record>, query: string, h: Hit)
    ensures h in HitsOf(c, records, query) <==> h.record in records && HitOf(c, h.record, query) == [h]
  {
    if records != [] {
      var rest, last := records[..|records| - 1], records[|records| - 1];
      HitMember(c, rest, query, h);
      assert records == rest + [last];
    }
  }

  lemma TopKeepsTies(hits: seq<Hit>, n: int, x: Hit)
    ensures Ties(Prefix(StableSort(hits, Ranked), n), x, Ranked) <= Ties(hits, x, Ranked)
  {
    RankedIsStrictWeak();
    SortPermutes(hits, Ranked);
    SortIsStable(hits, x, Ranked);
    var sorted := StableSort(hits, Ranked);
    var m := if n <= 0 then 0 else if n < |sorted| then n else |sorted|;
    assert Prefix(sorted, n) == sorted[..m];
    TiesOfPrefix(sorted, m, x, Ranked);
  }

  lemma OmittedIsBehind(sorted: seq<Hit>, n: nat, h: Hit)
    requires Sorted(sorted, Ranked) && h in sorted && h !in Prefix(sorted, n)
    ensures |Prefix(sorted, n)| == n && forall t :: t in Prefix(sorted, n) ==> !Ranked(h, t)
  {}

  lemma TopIsBest(hits: seq<Hit>, n: nat)
    ensures var top := Prefix(StableSort(hits, Ranked), n);
            && Sorted(top, Ranked) && (forall h :: h in top ==> h in hits)
            && (forall h :: h in hits && h !in top ==> |top| == n && forall t :: t in top ==> !Ranked(h, t))
  {
    var sorted, top := StableSort(hits, Ranked), Prefix(StableSort(hits, Ranked), n);
    RankedIsStrictWeak();
    SortSorts(hits, Ranked);
    SortPermutes(hits, Ranked);
    TopMembers(hits, n);
    forall h | h in hits && h !in top ensures |top| == n && forall t :: t in top ==> !Ranked(h, t) {
      assert h in multiset(hits);
      assert h in sorted;
      OmittedIsBehind(sorted, n, h);
    }
  }

  /** The results are the best matches: sorted, each a listed record with its own score; where a match is
      left out the results are full, and it outranks none of them; and of matches that the ranking cannot tell apart
      the first listed ones are there, in the order of the list. */
  lemma SearchIsBest(c: Codec, records: seq<Record>, query: string, limit: int)
    ensures var top := Searched(c, records, query, limit);
            && Sorted(top, Ranked)
            && (forall h :: h in top ==> h.record in records && HitOf(c, h.record, query) == [h])
            && (forall h: Hit :: h.record in records && HitOf(c, h.record, query) == [h] && h !in top ==>
                  |top| == Cut(limit) && forall t :: t in top ==> !Ranked(h, t))
            && forall h :: Ties(top, h, Ranked) <= Ties(HitsOf(c, records, query), h, Ranked)
  {
    var hits := HitsOf(c, records, query);
    forall h: Hit ensures h in hits <==> h.record in records && HitOf(c, h.record, query) == [h] {
      HitMember(c, records, query, h);
    }
    TopIsBest(hits, Cut(limit));
    forall h ensures Ties(Searched(c, records, query, limit), h, Ranked) <= Ties(hits, h, Ranked) {
      TopKeepsTies(hits, Cut(limit), h);
    }
  }

  // ----- get, batch-get and list agree

  /** Get finds the first record of the unlimited list with that identifier, or there is none. */
  lemma {:induction false} GetIsFirstListed(records: seq<Record>, id: string) returns (i: nat)
    ensures i <= |records| && forall j :: 0 <= j < i ==> records[j].id != id
    ensures First(Limited(records, 0), id) == if i < |records| then Some(records[i]) else None
    ensures i < |records| ==> records[i].id == id
  {
    if records == [] || records[0].id == id {
      i := 0;
    } else {
      var k := GetIsFirstListed(records[1..], id);
      i := k + 1;
      forall j | 0 <= j < i ensures records[j].id != id {
        if j > 0 { assert records[j] == records[1..][j - 1]; }
      }
    }
  }

  lemma {:induction false} LastAt(records: seq<Record>, id: string, k: nat) returns (i: nat)
    requires k < |records| && records[k].id == id
    ensures k <= i < |records| && Last(records, id) == Some(records[i]) && records[i].id == id
  {
    if records[|records| - 1].id == id {
      i := |records| - 1;
    } else {
      i := LastAt(records[..|records| - 1], id, k);
    }
  }

  function CountIf(ids: seq<string>): nat {
    if ids == [] then 0 else CountIf(ids[..|ids| - 1]) + if TrimSpace(ids[|ids| - 1]) != "" then 1 else 0
  }

  /** Batch-get sends each non-blank identifier to exactly one side: found ones give a record with that
      identifier, the others are missing, and nothing else is returned. */
  lemma {:induction false} BatchRoutes(ids: seq<string>, records: seq<Record>)
    requires forall r :: r in records ==> r.id != ""
    ensures |Found(ids, records)| + |Missing(ids, records)| == CountIf(ids)
    ensures forall r :: r in Found(ids, records) ==> r in records && exists x :: x in ids && TrimSpace(x) == r.id
    ensures forall id :: id in Missing(ids, records) <==>
              id != "" && (exists x :: x in ids && TrimSpace(x) == id) && forall r :: r in records ==> r.id != id
  {
    if ids != [] {
      var rest, last := ids[..|ids| - 1], ids[|ids| - 1];
      BatchRoutes(rest, records);
      assert ids == rest + [last];
      LastMember(records, TrimSpace(last));
    }
  }

  ghost predicate UniqueIds(records: seq<Record>) {
    forall i, j :: 0 <= i < j < |records| ==> records[i].id != records[j].id
  }

  lemma {:induction false} UniqueSame(records: seq<Record>, id: string)
    requires UniqueIds(records)
    ensures First(records, id) == Last(records, id)
  {
    FirstMember(records, id);
    LastMember(records, id);
  }

  ghost predicate AllDiffer(records: seq<Record>) { forall i, j :: 0 <= i < j < |records| ==> records[i] != records[j] }

  lemma RepeatedIdDiffers(records: seq<Record>, i: nat, j: nat)
    requires AllDiffer(records) && i < j < |records| && records[i].id == records[j].id
    ensures First(records, records[i].id) != Last(records, records[i].id)
  {
    var k := GetIsFirstListed(records, records[i].id);
    var l := LastAt(records, records[i].id, j);
    assert k <= i < l;
  }

  ghost predicate FirstsAreLasts(records: seq<Record>) { forall id :: First(records, id) == Last(records, id) }

  /** Over records that are all different, the first record of every identifier is the last one exactly
      when no identifier is stored twice. */
  lemma FirstIsLastExactlyWhenUnique(records: seq<Record>)
    requires AllDiffer(records)
    ensures FirstsAreLasts(records) <==> UniqueIds(records)
  {
    if UniqueIds(records) {
      forall id ensures First(records, id) == Last(records, id) { UniqueSame(records, id); }
    } else {
      var i, j :| 0 <= i < j < |records| && records[i].id == records[j].id;
      RepeatedIdDiffers(records, i, j);
      assert First(records, records[i].id) != Last(records, records[i].id);
    }
  }

  /** What asking get for each identifier in turn returns. */
  function Gets(ids: seq<string>, records: seq<Record>): seq<Record> {
    if ids == [] then [] else Gets(ids[..|ids| - 1], records) + AsSeq(First(records, TrimSpace(ids[|ids| - 1])))
  }

  /** With unique identifiers a batch is the gets, one after the other. */
  lemma {:induction false} BatchIsGets(ids: seq<string>, records: seq<Record>)
    requires UniqueIds(records)
    ensures Found(ids, records) == Gets(ids, records)
  {
    if ids != [] {
      BatchIsGets(ids[..|ids| - 1], records);
      UniqueSame(records, TrimSpace(ids[|ids| - 1]));
    }
  }

  /** A batch of one identifier is the get of it exactly when its first record is its last. */
  lemma BatchOfOne(id: string, records: seq<Record>)
    ensures Found([id], records) == Gets([id], records)
            <==> First(records, TrimSpace(id)) == Last(records, TrimSpace(id))
  {
    assert [id][..0] == [];
    assert Found([id], records) == AsSeq(Last(records, TrimSpace(id)));
    assert Gets([id], records) == AsSeq(First(records, TrimSpace(id)));
  }

  function Titled(title: string): Record { Record("e", "1", title, "", map[], map[], NoOrigin) }

  /** It happens: of two records with one identifier get takes the first and batch-get the last. */
  lemma RepeatedIdDisagrees()
    ensures var records := [Titled("one"), Titled("two")];
            AllDiffer(records) && Gets(["1"], records) == [records[0]] && Found(["1"], records) == [records[1]]
  {
    assert ["1"][..0] == [];
    TrimmedFixed("1");
  }

  // ----- every listed record can be got

  lemma CandidateIdTrimmed(c: Codec, s: Snapshot, raw: Json, entity: string)
    requires forall t :: Trimmed(c.whole(t))
    ensures var e := Candidate(c, s, raw, entity); e.Some? ==> Trimmed(e.value.id)
  {
    IdSurvives(c, s, raw, entity);
    if raw.Obj? { FirstStringTrimmed(c, Merged(raw.fields), ID_KEYS); }
  }

  lemma TrimmedIds(c: Codec, snapshots: seq<Snapshot>, entity: string)
    requires forall t :: Trimmed(c.whole(t))
    ensures forall r :: r in Listed(c, snapshots, entity) ==> Trimmed(r.id)
  {
    var table: seq<seq<Option<Record>>> := Table(c, snapshots, entity);
    var p: Record -> bool := (r: Record) => Trimmed(r.id);
    forall i: nat, j: nat | i < |table| && j < |table[i]| && table[i][j].Some? ensures p(table[i][j].value) {
      TableAt(c, snapshots, entity, i, j);
      CandidateIdTrimmed(c, snapshots[i], snapshots[i].records[j], entity);
    }
    FlatAll(table, |table|, p);
  }

  /** Getting a listed record's own identifier, under the filter it was listed with, finds a record with it. */
  lemma ListedCanBeGot(c: Codec, snapshots: seq<Snapshot>, entity: string, r: Record)
    requires r in Listed(c, snapshots, entity) && forall t :: Trimmed(c.whole(t))
    ensures var found := First(Listed(c, snapshots, entity), TrimSpace(r.id)); found.Some? && found.value.id == r.id
  {
    TrimmedIds(c, snapshots, entity);
    TrimmedFixed(r.id);
    FirstMember(Listed(c, snapshots, entity), r.id);
  }
}
