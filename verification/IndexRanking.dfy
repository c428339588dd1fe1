/** What a search returns first, and why a record was found, said by values and numbers. */
module IndexRanking {
  import opened Text
  import opened TextLaws
  import opened Seqs
  import opened Sorting
  import opened JsonTree
  import opened IndexRecords
  import opened IndexScore
  import opened IndexMatch
  import opened IndexMeaning
  import opened IndexSearch

  // ----- order

  /** The better score first, then the smaller entity, then the smaller identifier. */
  predicate InOrder(x: Hit, y: Hit) {
    || x.score > y.score
    || (x.score == y.score && (|| Before(x.record.entity, y.record.entity)
                               || (x.record.entity == y.record.entity
                                   && (x.record.id == y.record.id || Before(x.record.id, y.record.id)))))
  }

  lemma NotRankedIsInOrder(x: Hit, y: Hit)
    requires !Ranked(y, x)
    ensures InOrder(x, y)
  {
    BeforeTotal(x.record.entity, y.record.entity);
    BeforeTotal(x.record.id, y.record.id);
  }

  ghost predicate MatchesQuery(c: Codec, r: Record, query: string) { query == "" || Score(c, r, query) > 0 }

  lemma MatchIsHit(c: Codec, r: Record, query: string, h: Hit)
    ensures HitOf(c, r, query) == [h] <==> MatchesQuery(c, r, query) && h == Hit(r, Score(c, r, query), [])
  {}

  /** 1 for a record that the query matches. */
  ghost function Counts(c: Codec, query: string): Record -> nat { r => if MatchesQuery(c, r, query) then 1 else 0 }

  lemma HitOfCounts(c: Codec, r: Record, query: string)
    ensures |HitOf(c, r, query)| == Counts(c, query)(r)
  {}

  function CountBy(records: seq<Record>, w: Record -> nat): nat {
    if records == [] then 0 else CountBy(records[..|records| - 1], w) + w(records[|records| - 1])
  }

  lemma {:induction false} CountBySums(records: seq<Record>, w: Record -> nat)
    ensures CountBy(records, w) == Sum(records, w)
  {
    if records != [] {
      var rest, last := records[..|records| - 1], records[|records| - 1];
      CountBySums(rest, w);
      SumAppend(rest, [last], w);
      assert Sum([last], w) == w(last) + Sum([], w);
      assert records == rest + [last];
    }
  }

  lemma {:induction false} HitCount(c: Codec, records: seq<Record>, query: string)
    ensures |HitsOf(c, records, query)| == CountBy(records, Counts(c, query))
  {
    if records != [] {
      HitCount(c, records[..|records| - 1], query);
      HitOfCounts(c, records[|records| - 1], query);
    }
  }

  ghost predicate LeftOut(c: Codec, records: seq<Record>, query: string, top: seq<Hit>, r: Record) {
    r in records && MatchesQuery(c, r, query) && Hit(r, Score(c, r, query), []) !in top
  }

  /** A search returns as many of the matching records as asked for (20 unless told otherwise) or as there are, each
      with its score, in order; and none that is left out scores better than one that is returned. */
  lemma SearchInOrder(c: Codec, records: seq<Record>, query: string, limit: int)
    ensures var top, most := Searched(c, records, query, limit), if limit <= 0 then 20 else limit;
            var matching := Sum(records, Counts(c, query));
            && |top| == (if matching < most then matching else most)
            && (forall i, j :: 0 <= i < j < |top| ==> InOrder(top[i], top[j]))
            && (forall h :: h in top ==>
                  h.record in records && MatchesQuery(c, h.record, query) && h.score == Score(c, h.record, query))
            && forall r, t :: LeftOut(c, records, query, top, r) && t in top ==> Score(c, r, query) <= t.score
  {
    var top := Searched(c, records, query, limit);
    SearchIsBest(c, records, query, limit);
    SortPermutes(HitsOf(c, records, query), Ranked);
    HitCount(c, records, query);
    CountBySums(records, Counts(c, query));
    forall i, j | 0 <= i < j < |top| ensures InOrder(top[i], top[j]) { NotRankedIsInOrder(top[i], top[j]); }
    forall h | h in top
      ensures h.record in records && MatchesQuery(c, h.record, query) && h.score == Score(c, h.record, query)
    {
      MatchIsHit(c, h.record, query, h);
    }
    forall r, t | LeftOut(c, records, query, top, r) && t in top
      ensures Score(c, r, query) <= t.score
    {
      MatchIsHit(c, r, query, Hit(r, Score(c, r, query), []));
      assert !Ranked(Hit(r, Score(c, r, query), []), t);
    }
  }

  predicate IdIs(r: Record, query: string) { ToLower(TrimSpace(r.id)) == query }

  /** The records whose identifier is the query come first: whatever is returned before one of them has that
      identifier too, and one is left out only if all that is returned has it. */
  lemma ExactIdComesFirst(c: Codec, records: seq<Record>, query: string, limit: int)
    requires query != ""
    ensures var top := Searched(c, records, query, limit);
            && (forall i, j :: 0 <= i < j < |top| && IdIs(top[j].record, query) ==> IdIs(top[i].record, query))
            && forall r :: r in records && IdIs(r, query) && Hit(r, 1000, []) !in top ==>
                 forall t :: t in top ==> IdIs(t.record, query)
  {
    var top := Searched(c, records, query, limit);
    SearchInOrder(c, records, query, limit);
    forall h: Hit ensures Score(c, h.record, query) == 1000 <==> IdIs(h.record, query) {
      FullScoreExactlyForId(c, h.record, query);
    }
    forall i, j | 0 <= i < j < |top| && IdIs(top[j].record, query) ensures IdIs(top[i].record, query) {
      assert InOrder(top[i], top[j]) && top[i] in top && top[j] in top;
      FullScoreExactlyForId(c, top[i].record, query);
      FullScoreExactlyForId(c, top[j].record, query);
    }
    forall r, t | r in records && IdIs(r, query) && Hit(r, 1000, []) !in top && t in top
      ensures IdIs(t.record, query)
    {
      FullScoreExactlyForId(c, r, query);
      FullScoreExactlyForId(c, t.record, query);
      assert LeftOut(c, records, query, top, r);
    }
  }

  // ----- matched fields

  /** The value has the query in it. */
  ghost predicate Holds(value: string, query: string) { Inside(ToLower(TrimSpace(value)), query) }

  lemma MatchesHolds(e: Entry, query: string)
    requires query != ""
    ensures Matches(e, query) <==> Holds(e.value, query)
  {
    ContainsMeansInside(ToLower(TrimSpace(e.value)), query);
    assert ToLower(TrimSpace(e.value))[0..] == ToLower(TrimSpace(e.value));
  }

  ghost predicate OwnFieldHolds(r: Record, query: string, f: string) {
    || (f == "id" && Holds(r.id, query)) || (f == "title" && Holds(r.title, query))
    || (f == "entity" && Holds(r.entity, query))
  }

  ghost predicate LinkHolds(r: Record, query: string, f: string) {
    exists k :: k in r.links && f == TrimSpace("links." + k) && Holds(r.links[k], query)
  }

  ghost predicate FieldHolds(c: Codec, r: Record, query: string, f: string) {
    exists k :: k in RECORD_KEYS && f == TrimSpace("record." + k) && Holds(AnyString(c, r.fields, k), query)
  }

  lemma OwnFieldsAre(r: Record, query: string, f: string)
    requires query != ""
    ensures FieldIn(OwnEntries(r), query, f) <==> OwnFieldHolds(r, query, f)
  {
    var own := OwnEntries(r);
    assert own[0] in own && own[1] in own && own[2] in own;
    MatchesHolds(own[0], query);
    MatchesHolds(own[1], query);
    MatchesHolds(own[2], query);
    TrimmedFixed("id");
    TrimmedFixed("title");
    TrimmedFixed("entity");
  }

  lemma LinksAreHeld(r: Record, query: string, f: string)
    requires query != ""
    ensures FieldInLinks(r, r.links.Keys, query, f) <==> LinkHolds(r, query, f)
  {
    forall k | k in r.links ensures Matches(LinkEntry(r, k), query) <==> Holds(r.links[k], query) {
      MatchesHolds(LinkEntry(r, k), query);
    }
  }

  lemma RecordFieldsAre(c: Codec, r: Record, query: string, f: string)
    requires query != ""
    ensures FieldIn(RecordEntries(c, r), query, f) <==> FieldHolds(c, r, query, f)
  {
    var entries := RecordEntries(c, r);
    if FieldIn(entries, query, f) {
      var e :| e in entries && Matches(e, query) && f == Label(e.field);
      var i :| 0 <= i < |entries| && entries[i] == e;
      MatchesHolds(e, query);
      assert RECORD_KEYS[i] in RECORD_KEYS && f == TrimSpace("record." + RECORD_KEYS[i]);
    }
    if FieldHolds(c, r, query, f) {
      var k :| k in RECORD_KEYS && f == TrimSpace("record." + k) && Holds(AnyString(c, r.fields, k), query);
      var i :| 0 <= i < |RECORD_KEYS| && RECORD_KEYS[i] == k;
      MatchesHolds(entries[i], query);
      assert entries[i] in entries;
    }
  }

  /** The fields reported for a query that some field grants something: exactly those whose value has it. */
  lemma MatchedFieldsHold(c: Codec, r: Record, query: string, f: string)
    requires query != "" && Direct(c, r, query) > 0
    ensures Reported(c, r, query, f) <==>
            || OwnFieldHolds(r, query, f) || LinkHolds(r, query, f) || FieldHolds(c, r, query, f)
            || (f == "record" && Inside(ToLower(c.marshal(r.fields)), query))
  {
    OwnFieldsAre(r, query, f);
    LinksAreHeld(r, query, f);
    RecordFieldsAre(c, r, query, f);
    ContainsMeansInside(ToLower(c.marshal(r.fields)), query);
  }
}
