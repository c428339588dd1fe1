/** The scoring loops: the score as computed, and the list of fields that matched. The links of a record
    are visited in whatever order the map yields; neither the score nor the set of fields depends on it. */
module IndexMatch {
  import opened Text
  import opened JsonTree
  import opened IndexRecords
  import opened IndexScore

  function Label(field: string): string { TrimSpace(field) }

  // ----- which fields match

  ghost predicate FieldIn(entries: seq<Entry>, query: string, f: string) {
    exists e :: e in entries && Matches(e, query) && f == Label(e.field)
  }

  ghost predicate FieldInLinks(r: Record, keys: set<string>, query: string, f: string) {
    exists k :: k in keys && k in r.links && Matches(LinkEntry(r, k), query) && f == Label("links." + k)
  }

  ghost predicate DirectField(c: Codec, r: Record, query: string, f: string) {
    || FieldIn(OwnEntries(r), query, f) || FieldInLinks(r, r.links.Keys, query, f)
    || FieldIn(RecordEntries(c, r), query, f) || (TextMatches(c, r, query) && f == "record")
  }

  /** A field that is reported for a query: one that matches directly or, where nothing does, one that is
      reported for a term of it. */
  ghost predicate Reported(c: Codec, r: Record, query: string, f: string)
    decreases |Words(query)|, 1
  {
    query != ""
    && if Direct(c, r, query) == 0 && !LooksLikeURL(query) then
         TokenScore(c, r, query) > 0 && ReportedBy(c, r, SearchTerms(query), |Words(query)|, f)
       else DirectField(c, r, query, f)
  }

  ghost predicate ReportedBy(c: Codec, r: Record, terms: seq<string>, weight: nat, f: string)
    decreases weight, 0
  {
    exists t :: t in terms && |Words(t)| < weight && Reported(c, r, t, f)
  }

  // ----- collecting them

  /** Labels, none blank and none repeated. */
  ghost predicate Tidy(fields: seq<string>) {
    (forall i, j :: 0 <= i < j < |fields| ==> fields[i] != fields[j])
    && forall f :: f in fields ==> f != "" && Label(f) == f
  }

  function AppendField(fields: seq<string>, field: string): (out: seq<string>)
    requires Tidy(fields)
    ensures Tidy(out)
    ensures forall f :: f in out <==> f in fields || (f == Label(field) && f != "")
  {
    TrimSpaceIdempotent(field);
    if Label(field) == "" || Label(field) in fields then fields else fields + [Label(field)]
  }

  method AppendMatchedFields(fields: seq<string>, candidates: seq<string>) returns (out: seq<string>)
    requires Tidy(fields) && Tidy(candidates)
    ensures Tidy(out) && forall f :: f in out <==> f in fields || f in candidates
  {
    out := fields;
    for i := 0 to |candidates|
      invariant Tidy(out) && forall f :: f in out <==> f in fields || f in candidates[..i]
    {
      assert candidates[..i + 1] == candidates[..i] + [candidates[i]];
      out := AppendField(out, candidates[i]);
    }
    assert candidates[..|candidates|] == candidates;
  }

  lemma {:induction false} LabelKeepsHead(s: string)
    requires s != "" && !IsSpace(s[0])
    ensures TrimRight(s) != "" && TrimSpace(s) == TrimRight(s)
  {
    if IsSpace(s[|s| - 1]) {
      LabelKeepsHead(s[..|s| - 1]);
    }
  }

  /** One comparison of the source's `add`. */
  method Add(score: nat, fields: seq<string>, e: Entry, query: string) returns (best: nat, out: seq<string>)
    requires Tidy(fields) && query != "" && e.exact > 0 && e.start > 0 && e.part > 0
    requires e.field != "" && !IsSpace(e.field[0])
    ensures best == Max(score, Points(e, query)) && (Matches(e, query) <==> Points(e, query) > 0)
    ensures Tidy(out)
    ensures forall f :: f in out <==> f in fields || (Matches(e, query) && f == Label(e.field))
  {
    LabelKeepsHead(e.field);
    best, out := score, fields;
    var value := ToLower(TrimSpace(e.value));
    if value == "" {
    } else if value == query {
      best, out := Max(score, e.exact), AppendField(fields, e.field);
    } else if query <= value {
      best, out := Max(score, e.start), AppendField(fields, e.field);
    } else if Contains(value, query) {
      best, out := Max(score, e.part), AppendField(fields, e.field);
    }
  }

  ghost predicate Scoring(entries: seq<Entry>) {
    forall e :: e in entries ==> e.exact > 0 && e.start > 0 && e.part > 0 && e.field != "" && !IsSpace(e.field[0])
  }

  method AddAll(score: nat, fields: seq<string>, entries: seq<Entry>, query: string)
    returns (best: nat, out: seq<string>)
    requires Tidy(fields) && query != "" && Scoring(entries)
    ensures best == Max(score, Best(entries, query)) && Tidy(out)
    ensures forall f :: f in out <==> f in fields || FieldIn(entries, query, f)
  {
    best, out := score, fields;
    for i := 0 to |entries|
      invariant best == Max(score, Best(entries[..i], query)) && Tidy(out)
      invariant forall f :: f in out <==> f in fields || FieldIn(entries[..i], query, f)
    {
      assert entries[..i + 1] == entries[..i] + [entries[i]];
      assert entries[..i + 1][..i] == entries[..i];
      best, out := Add(best, out, entries[i], query);
    }
    assert entries[..|entries|] == entries;
  }

  /** The best among some links. */
  ghost function BestAmong(r: Record, keys: set<string>, query: string): nat
    requires keys <= r.links.Keys
  {
    if exists k :: k in keys && Points(LinkEntry(r, k), query) == 450 then 450
    else if exists k :: k in keys && Points(LinkEntry(r, k), query) == 350 then 350
    else if exists k :: k in keys && Points(LinkEntry(r, k), query) == 250 then 250
    else 0
  }

  lemma BestWithOneMore(r: Record, keys: set<string>, k: string, query: string)
    requires keys <= r.links.Keys && k in r.links
    ensures BestAmong(r, keys + {k}, query) == Max(BestAmong(r, keys, query), Points(LinkEntry(r, k), query))
  {}

  method AddLinks(score: nat, fields: seq<string>, r: Record, query: string) returns (best: nat, out: seq<string>)
    requires Tidy(fields) && query != ""
    ensures best == Max(score, BestLink(r, query)) && Tidy(out)
    ensures forall f :: f in out <==> f in fields || FieldInLinks(r, r.links.Keys, query, f)
  {
    best, out := score, fields;
    var todo := r.links.Keys;
    ghost var done := {};
    while todo != {}
      invariant done + todo == r.links.Keys && Tidy(out)
      invariant best == Max(score, BestAmong(r, done, query))
      invariant forall f :: f in out <==> f in fields || FieldInLinks(r, done, query, f)
      decreases todo
    {
      var k :| k in todo;
      todo := todo - {k};
      BestWithOneMore(r, done, k, query);
      best, out := Add(best, out, LinkEntry(r, k), query);
      done := done + {k};
    }
    assert done == r.links.Keys;
  }

  lemma EntriesScore(c: Codec, r: Record)
    ensures Scoring(OwnEntries(r)) && Scoring(RecordEntries(c, r))
  {}

  method ScoreDirect(c: Codec, r: Record, query: string) returns (score: nat, fields: seq<string>)
    requires query != ""
    ensures score == Direct(c, r, query) && Tidy(fields)
    ensures forall f :: f in fields <==> DirectField(c, r, query, f)
  {
    EntriesScore(c, r);
    var own, record := OwnEntries(r), RecordEntries(c, r);
    score, fields := AddAll(0, [], own, query);
    score, fields := AddLinks(score, fields, r, query);
    score, fields := AddAll(score, fields, record, query);
    if Contains(ToLower(c.marshal(r.fields)), query) {
      score := Max(score, 100);
      TrimmedFixed("record");
      fields := AppendField(fields, "record");
    }
  }

  // ----- the mutual recursion

  lemma {:induction false} NoFieldsAtZero(entries: seq<Entry>, query: string, f: string)
    requires query != "" && Scoring(entries) && Best(entries, query) == 0
    ensures !FieldIn(entries, query, f)
  {
    if entries != [] {
      var rest, last := entries[..|entries| - 1], entries[|entries| - 1];
      NoFieldsAtZero(rest, query, f);
      assert Points(last, query) == 0 && !Matches(last, query);
      assert entries == rest + [last];
    }
  }

  lemma NoLinksAtZero(r: Record, query: string, f: string)
    requires query != "" && BestLink(r, query) == 0
    ensures !FieldInLinks(r, r.links.Keys, query, f)
  {}

  /** Where the direct score is zero no field matches directly. */
  lemma NoDirectFields(c: Codec, r: Record, query: string, f: string)
    requires query != "" && Direct(c, r, query) == 0
    ensures !DirectField(c, r, query, f)
  {
    EntriesScore(c, r);
    NoFieldsAtZero(OwnEntries(r), query, f);
    NoLinksAtZero(r, query, f);
    NoFieldsAtZero(RecordEntries(c, r), query, f);
  }

  lemma HasMember(fields: seq<string>)
    requires fields != []
    ensures exists f :: f in fields
  {
    assert fields[0] in fields;
  }

  method ScoreRecord(c: Codec, r: Record, query: string) returns (score: nat, fields: seq<string>)
    ensures score == Score(c, r, query) && Tidy(fields)
    ensures forall f :: f in fields <==> Reported(c, r, query, f)
    decreases |Words(query)|, 2
  {
    if query == "" { return 1, []; }
    score, fields := ScoreDirect(c, r, query);
    if score == 0 {
      forall f ensures f !in fields && !DirectField(c, r, query, f) { NoDirectFields(c, r, query, f); }
      if fields != [] { HasMember(fields); }
      if !LooksLikeURL(query) {
        var termScore, termFields := ScoreTerms(c, r, query);
        if termScore > 0 {
          score := termScore;
          fields := AppendMatchedFields(fields, termFields);
        }
      }
    }
  }

  lemma {:induction false} MissStays(c: Codec, r: Record, terms: seq<string>, weight: nat, n: nat)
    requires Light(terms, weight) && n <= |terms| && TermTotal(c, r, terms[..n], weight).None?
    ensures TermTotal(c, r, terms, weight).None?
    decreases |terms|
  {
    if n < |terms| {
      assert terms[..|terms| - 1][..n] == terms[..n];
      MissStays(c, r, terms[..|terms| - 1], weight, n);
    } else {
      assert terms[..n] == terms;
    }
  }

  lemma ReportedByOneMore(c: Codec, r: Record, terms: seq<string>, t: string, weight: nat, f: string)
    requires |Words(t)| < weight
    ensures ReportedBy(c, r, terms + [t], weight, f) <==> ReportedBy(c, r, terms, weight, f) || Reported(c, r, t, f)
  {}

  lemma TotalOneMore(c: Codec, r: Record, terms: seq<string>, weight: nat, i: nat)
    requires Light(terms, weight) && i < |terms|
    ensures var before, s := TermTotal(c, r, terms[..i], weight), Score(c, r, terms[i]);
            TermTotal(c, r, terms[..i + 1], weight) == if before.None? || s == 0 then None else Some(before.value + s)
  {
    assert terms[..i + 1][..i] == terms[..i];
  }

  lemma ReportedOneMore(c: Codec, r: Record, terms: seq<string>, weight: nat, i: nat, f: string)
    requires i < |terms| && |Words(terms[i])| < weight
    ensures ReportedBy(c, r, terms[..i + 1], weight, f)
            <==> ReportedBy(c, r, terms[..i], weight, f) || Reported(c, r, terms[i], f)
  {
    assert terms[..i + 1] == terms[..i] + [terms[i]];
    ReportedByOneMore(c, r, terms[..i], terms[i], weight, f);
  }

  method ScoreTerms(c: Codec, r: Record, query: string) returns (score: nat, fields: seq<string>)
    ensures score == TokenScore(c, r, query) && Tidy(fields)
    ensures score > 0 ==> forall f :: f in fields <==> ReportedBy(c, r, SearchTerms(query), |Words(query)|, f)
    decreases |Words(query)|, 1
  {
    var terms := CollectTerms(query);
    if |terms| < 2 { return 0, []; }
    TermsAreLight(query);
    var total: Option<nat>;
    total, fields := SumTerms(c, r, terms, |Words(query)|);
    score := Mean(total, |terms|);
  }

  /** The fields that a list of terms reports. */
  ghost predicate Lists(c: Codec, r: Record, terms: seq<string>, weight: nat, fields: seq<string>) {
    forall f :: f in fields <==> ReportedBy(c, r, terms, weight, f)
  }

  /** What the first terms of a list come to. */
  ghost predicate SumsTo(c: Codec, r: Record, terms: seq<string>, weight: nat, total: Option<nat>,
                         fields: seq<string>) {
    && Light(terms, weight) && Tidy(fields) && total == TermTotal(c, r, terms, weight)
    && (total.Some? ==> Lists(c, r, terms, weight, fields))
  }

  lemma LightPrefix(terms: seq<string>, weight: nat, n: nat)
    requires Light(terms, weight) && n <= |terms|
    ensures Light(terms[..n], weight)
  {
    forall t | t in terms[..n] ensures |Words(t)| < weight && t != "" {
      assert t in terms;
    }
  }

  lemma NextLists(c: Codec, r: Record, terms: seq<string>, weight: nat, i: nat, fields: seq<string>,
                  fs: seq<string>, more: seq<string>)
    requires i < |terms| && |Words(terms[i])| < weight && Lists(c, r, terms[..i], weight, fields)
    requires forall f :: f in fs <==> Reported(c, r, terms[i], f)
    requires forall f :: f in more <==> f in fields || f in fs
    ensures Lists(c, r, terms[..i + 1], weight, more)
  {
    forall f ensures f in more <==> ReportedBy(c, r, terms[..i + 1], weight, f) {
      ReportedOneMore(c, r, terms, weight, i, f);
    }
  }

  lemma NextSum(c: Codec, r: Record, terms: seq<string>, weight: nat, i: nat, sum: nat, s: nat, more: seq<string>)
    requires Light(terms, weight) && i < |terms| && TermTotal(c, r, terms[..i], weight) == Some(sum)
    requires s == Score(c, r, terms[i]) && s > 0 && Tidy(more) && Lists(c, r, terms[..i + 1], weight, more)
    ensures SumsTo(c, r, terms[..i + 1], weight, Some(sum + s), more)
  {
    TotalOneMore(c, r, terms, weight, i);
    LightPrefix(terms, weight, i + 1);
  }

  /** One term of the loop. */
  method AddTerm(c: Codec, r: Record, terms: seq<string>, ghost weight: nat, i: nat, sum: nat, fields: seq<string>)
    returns (total: Option<nat>, more: seq<string>)
    requires Light(terms, weight) && i < |terms| && SumsTo(c, r, terms[..i], weight, Some(sum), fields)
    ensures SumsTo(c, r, terms[..i + 1], weight, total, more)
    decreases weight, 0, 0
  {
    var s, fs := ScoreRecord(c, r, terms[i]);
    if s == 0 {
      TotalOneMore(c, r, terms, weight, i);
      LightPrefix(terms, weight, i + 1);
      return None, [];
    }
    more := AppendMatchedFields(fields, fs);
    NextLists(c, r, terms, weight, i, fields, fs, more);
    NextSum(c, r, terms, weight, i, sum, s, more);
    total := Some(sum + s);
  }

  /** The loop over the terms; a term that misses ends it. */
  method SumTerms(c: Codec, r: Record, terms: seq<string>, ghost weight: nat)
    returns (total: Option<nat>, fields: seq<string>)
    requires Light(terms, weight)
    ensures SumsTo(c, r, terms, weight, total, fields)
    decreases weight, 0, 1
  {
    total, fields := Some(0), [];
    for i := 0 to |terms|
      invariant total.Some? && SumsTo(c, r, terms[..i], weight, total, fields)
    {
      total, fields := AddTerm(c, r, terms, weight, i, total.value, fields);
      if total.None? {
        MissStays(c, r, terms, weight, i + 1);
        return None, [];
      }
    }
    assert terms[..|terms|] == terms;
  }

  // ----- a score has its reason

  lemma {:induction false} BestHasField(entries: seq<Entry>, query: string)
    requires Best(entries, query) > 0
    ensures exists f :: FieldIn(entries, query, f)
  {
    var rest, last := entries[..|entries| - 1], entries[|entries| - 1];
    assert entries == rest + [last];
    if Best(rest, query) > 0 {
      BestHasField(rest, query);
      var f :| FieldIn(rest, query, f);
      assert FieldIn(entries, query, f);
    } else {
      assert Matches(last, query);
      assert FieldIn(entries, query, Label(last.field));
    }
  }

  lemma DirectHasField(c: Codec, r: Record, query: string)
    requires Direct(c, r, query) > 0
    ensures exists f :: DirectField(c, r, query, f)
  {
    if Best(OwnEntries(r), query) > 0 {
      BestHasField(OwnEntries(r), query);
      var f :| FieldIn(OwnEntries(r), query, f);
      assert DirectField(c, r, query, f);
    } else if Best(RecordEntries(c, r), query) > 0 {
      BestHasField(RecordEntries(c, r), query);
      var f :| FieldIn(RecordEntries(c, r), query, f);
      assert DirectField(c, r, query, f);
    } else if BestLink(r, query) > 0 {
      var k :| k in r.links && Points(LinkEntry(r, k), query) > 0;
      assert FieldInLinks(r, r.links.Keys, query, Label("links." + k));
      assert DirectField(c, r, query, Label("links." + k));
    } else {
      assert DirectField(c, r, query, "record");
    }
  }

  lemma {:induction false} EveryTermScores(c: Codec, r: Record, terms: seq<string>, weight: nat)
    requires Light(terms, weight) && TermTotal(c, r, terms, weight).Some?
    ensures forall t :: t in terms ==> Score(c, r, t) > 0
    decreases |terms|
  {
    if terms != [] {
      EveryTermScores(c, r, terms[..|terms| - 1], weight);
      assert terms == terms[..|terms| - 1] + [terms[|terms| - 1]];
    }
  }

  /** A record for which a field is reported scores. */
  lemma ReportedScores(c: Codec, r: Record, query: string, f: string)
    ensures Reported(c, r, query, f) ==> Score(c, r, query) > 0
  {
    if query != "" && Direct(c, r, query) == 0 && LooksLikeURL(query) {
      NoDirectFields(c, r, query, f);
    }
  }

  lemma TokenScored(c: Codec, r: Record, query: string)
    requires TokenScore(c, r, query) > 0
    ensures var terms := SearchTerms(query);
            |terms| >= 2 && Light(terms, |Words(query)|) && TermTotal(c, r, terms, |Words(query)|).Some?
  {
    if |SearchTerms(query)| >= 2 { TermsAreLight(query); }
  }

  /** A record that scores has a field to report. */
  lemma {:induction false} ScoredReports(c: Codec, r: Record, query: string) returns (f: string)
    requires query != "" && Score(c, r, query) > 0
    ensures Reported(c, r, query, f)
    decreases |Words(query)|, 1
  {
    if Direct(c, r, query) > 0 {
      DirectHasField(c, r, query);
      f :| DirectField(c, r, query, f);
    } else {
      TokenScored(c, r, query);
      f := SomeTermReported(c, r, SearchTerms(query), |Words(query)|);
    }
  }

  lemma {:induction false} SomeTermReported(c: Codec, r: Record, terms: seq<string>, weight: nat) returns (f: string)
    requires Light(terms, weight) && terms != [] && TermTotal(c, r, terms, weight).Some?
    ensures ReportedBy(c, r, terms, weight, f)
    decreases weight, 0
  {
    EveryTermScores(c, r, terms, weight);
    var t := terms[0];
    assert t in terms;
    f := ScoredReports(c, r, t);
  }
}
