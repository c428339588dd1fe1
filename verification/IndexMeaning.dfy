/** What a stored document becomes and what a record scores, said by keys, values and a table of grades. */
module IndexMeaning {
  import opened Text
  import opened TextLaws
  import opened Seqs
  import opened JsonTree
  import opened IndexRecords
  import opened IndexScore

  // ----- documents

  /** The text under a key: a string's without the blanks around it, a number's whole part; nothing else has one. */
  lemma TextUnderKey(c: Codec, m: map<string, Json>, key: string, v: string)
    ensures v != "" ==>
              (AnyString(c, m, key) == v <==>
                 key in m && ((exists s :: m[key] == Str(s) && TrimSpace(s) == v)
                              || exists t :: m[key] == Num(t) && c.whole(t) == v))
  {}

  ghost predicate FilledAt(c: Codec, m: map<string, Json>, keys: seq<string>, v: string, i: int) {
    && 0 <= i < |keys| && AnyString(c, m, keys[i]) == v != ""
    && forall j :: 0 <= j < i ==> AnyString(c, m, keys[j]) == ""
  }

  /** `v` is the first of the keys' texts that is not blank, or blank when all are. */
  ghost predicate FirstFilled(c: Codec, m: map<string, Json>, keys: seq<string>, v: string) {
    || (v == "" && forall i :: 0 <= i < |keys| ==> AnyString(c, m, keys[i]) == "")
    || exists i :: FilledAt(c, m, keys, v, i)
  }

  lemma {:induction false} FirstStringIsFirst(c: Codec, m: map<string, Json>, keys: seq<string>)
    ensures FirstFilled(c, m, keys, FirstString(c, m, keys))
  {
    if keys != [] {
      var v := FirstString(c, m, keys[1..]);
      FirstStringIsFirst(c, m, keys[1..]);
      if AnyString(c, m, keys[0]) != "" {
        assert FilledAt(c, m, keys, FirstString(c, m, keys), 0);
      } else if v != "" {
        var i :| FilledAt(c, m, keys[1..], v, i);
        assert FilledAt(c, m, keys, v, i + 1);
      } else {
        forall i | 0 <= i < |keys| ensures AnyString(c, m, keys[i]) == "" {
          if i > 0 { assert keys[i] == keys[1..][i - 1]; }
        }
      }
    }
  }

  /** The document's own field, else the one of its nested "record" object. */
  ghost predicate FieldOf(m: map<string, Json>, k: string, v: Json) {
    if k in m then v == m[k]
    else "record" in m && m["record"].Obj? && k in m["record"].fields && v == m["record"].fields[k]
  }

  lemma MergedHasFields(m: map<string, Json>, k: string, v: Json)
    ensures k in Merged(m) && Merged(m)[k] == v <==> FieldOf(m, k, v)
  {}

  /** The links: every one that has a text, and the record's own address as "self" unless a link says otherwise. */
  ghost predicate LinksAre(c: Codec, m: map<string, Json>, url: string, links: map<string, string>) {
    var given := if "links" in m && m["links"].Obj? then m["links"].fields else map[];
    && (forall k :: k in links <==> AnyString(c, given, k) != "" || (k == "self" && url != ""))
    && forall k :: k in links ==> links[k] == if AnyString(c, given, k) != "" then AnyString(c, given, k) else url
  }

  ghost predicate FieldsAre(m: map<string, Json>, fields: map<string, Json>) {
    && (forall k :: k in fields <==> k in m && k !in {"entity", "id", "title", "url", "links", "origin", "score",
                                                     "matched_fields", "source"})
    && forall k :: k in fields ==> fields[k] == m[k]
  }

  ghost predicate RecordIs(c: Codec, m: map<string, Json>, r: Record) {
    && FirstFilled(c, m, ["id", "key", "ref", "path_with_namespace", "web_url", "project_id"], r.id) && r.id != ""
    && FirstFilled(c, m, ["entity"], r.entity)
    && FirstFilled(c, m, ["title", "name", "name_with_namespace"], r.title)
    && FirstFilled(c, m, ["url", "web_url", "html_url"], r.url)
    && LinksAre(c, m, r.url, r.links) && FieldsAre(m, r.fields) && r.origin == NoOrigin
  }

  lemma LinksOfAre(c: Codec, m: map<string, Json>, url: string)
    ensures LinksAre(c, m, url, LinksOf(c, url, m))
  {}

  lemma CleanAre(m: map<string, Json>)
    ensures FieldsAre(m, Clean(m))
  {}

  /** A document is a record exactly when it is an object with an identifier under one of the keys; its identifier,
      title, address, links and other fields are what its own fields, or else its nested record's, say. */
  lemma DocumentBecomesRecord(c: Codec, raw: Json)
    ensures NormalizeRecord(c, raw).Some? <==>
            raw.Obj? && !FirstFilled(c, Merged(raw.fields),
                                     ["id", "key", "ref", "path_with_namespace", "web_url", "project_id"], "")
    ensures NormalizeRecord(c, raw).Some? ==> RecordIs(c, Merged(raw.fields), NormalizeRecord(c, raw).value)
  {
    if raw.Obj? {
      var m := Merged(raw.fields);
      FirstStringIsFirst(c, m, ID_KEYS);
      FirstStringIsFirst(c, m, ["entity"]);
      FirstStringIsFirst(c, m, TITLE_KEYS);
      FirstStringIsFirst(c, m, URL_KEYS);
      LinksOfAre(c, m, FirstString(c, m, URL_KEYS));
      CleanAre(m);
      assert LinksOf(c, FirstString(c, m, URL_KEYS), m) + map[] == LinksOf(c, FirstString(c, m, URL_KEYS), m);
    }
  }

  // ----- grades

  /** The points a value grants a query: equal to it, beginning with it, or having it somewhere. */
  ghost predicate Grades(value: string, query: string, equal: nat, start: nat, part: nat, points: int) {
    var v := ToLower(TrimSpace(value));
    (v == query && points == equal) || (query <= v && points == start) || (Inside(v, query) && points == part)
  }

  ghost predicate LinkGrants(r: Record, query: string, points: int) {
    exists k :: k in r.links && Grades(r.links[k], query, 450, 350, 250, points)
  }

  ghost predicate FieldGrants(c: Codec, r: Record, query: string, points: int) {
    exists k :: k in RECORD_KEYS && Grades(AnyString(c, r.fields, k), query, 900, 750, 550, points)
  }

  /** What the fields of a record grant. */
  ghost predicate Grants(c: Codec, r: Record, query: string, points: int) {
    || Grades(r.id, query, 1000, 850, 650, points)
    || Grades(r.title, query, 950, 800, 600, points)
    || Grades(r.entity, query, 500, 400, 300, points)
    || LinkGrants(r, query, points)
    || FieldGrants(c, r, query, points)
    || (Inside(ToLower(c.marshal(r.fields)), query) && points == 100)
  }

  lemma PointsAreBestGrade(e: Entry, query: string)
    requires query != "" && e.exact > e.start > e.part > 0
    ensures forall p :: Grades(e.value, query, e.exact, e.start, e.part, p) ==> p <= Points(e, query)
    ensures Points(e, query) > 0 ==> Grades(e.value, query, e.exact, e.start, e.part, Points(e, query))
  {
    ContainsMeansInside(ToLower(TrimSpace(e.value)), query);
  }

  lemma {:induction false} BestIsBest(entries: seq<Entry>, query: string)
    ensures forall e :: e in entries ==> Points(e, query) <= Best(entries, query)
    ensures Best(entries, query) > 0 ==> exists e :: e in entries && Points(e, query) == Best(entries, query)
  {
    if entries != [] {
      var rest, last := entries[..|entries| - 1], entries[|entries| - 1];
      BestIsBest(rest, query);
      assert entries == rest + [last];
      if Best(rest, query) >= Points(last, query) && Best(rest, query) > 0 {
        var e :| e in rest && Points(e, query) == Best(rest, query);
        assert e in entries;
      }
    }
  }

  lemma OwnGrants(c: Codec, r: Record, query: string)
    requires query != ""
    ensures var b := Best(OwnEntries(r), query);
            && (forall p :: Grades(r.id, query, 1000, 850, 650, p) ==> p <= b)
            && (forall p :: Grades(r.title, query, 950, 800, 600, p) ==> p <= b)
            && (forall p :: Grades(r.entity, query, 500, 400, 300, p) ==> p <= b)
            && (b > 0 ==> Grants(c, r, query, b))
  {
    var own := OwnEntries(r);
    BestIsBest(own, query);
    assert own[0] in own && own[1] in own && own[2] in own;
    PointsAreBestGrade(own[0], query);
    PointsAreBestGrade(own[1], query);
    PointsAreBestGrade(own[2], query);
  }

  lemma LinksGrant(r: Record, query: string)
    requires query != ""
    ensures forall p :: LinkGrants(r, query, p) ==> p <= BestLink(r, query)
    ensures BestLink(r, query) > 0 ==> LinkGrants(r, query, BestLink(r, query))
  {
    forall k | k in r.links
      ensures forall p :: Grades(r.links[k], query, 450, 350, 250, p) ==> p <= Points(LinkEntry(r, k), query)
      ensures Points(LinkEntry(r, k), query) > 0 ==>
                Grades(r.links[k], query, 450, 350, 250, Points(LinkEntry(r, k), query))
    {
      PointsAreBestGrade(LinkEntry(r, k), query);
    }
    forall p | LinkGrants(r, query, p) ensures p <= BestLink(r, query) {
      var k :| k in r.links && Grades(r.links[k], query, 450, 350, 250, p);
      assert Points(LinkEntry(r, k), query) in {250, 350, 450};
    }
  }

  lemma FieldGrantIsBelow(c: Codec, r: Record, query: string, k: string, p: int)
    requires query != "" && k in RECORD_KEYS && Grades(AnyString(c, r.fields, k), query, 900, 750, 550, p)
    ensures p <= Best(RecordEntries(c, r), query)
  {
    var entries := RecordEntries(c, r);
    var i :| 0 <= i < |RECORD_KEYS| && RECORD_KEYS[i] == k;
    BestIsBest(entries, query);
    assert entries[i] == RecordEntry(c, r, k) && entries[i] in entries;
    PointsAreBestGrade(RecordEntry(c, r, k), query);
  }

  lemma BestFieldGrants(c: Codec, r: Record, query: string)
    requires query != "" && Best(RecordEntries(c, r), query) > 0
    ensures FieldGrants(c, r, query, Best(RecordEntries(c, r), query))
  {
    var entries := RecordEntries(c, r);
    BestIsBest(entries, query);
    var e :| e in entries && Points(e, query) == Best(entries, query);
    var i :| 0 <= i < |entries| && entries[i] == e;
    PointsAreBestGrade(RecordEntry(c, r, RECORD_KEYS[i]), query);
    assert RECORD_KEYS[i] in RECORD_KEYS;
  }

  lemma FieldsGrant(c: Codec, r: Record, query: string)
    requires query != ""
    ensures forall p :: FieldGrants(c, r, query, p) ==> p <= Best(RecordEntries(c, r), query)
    ensures var b := Best(RecordEntries(c, r), query); b > 0 ==> FieldGrants(c, r, query, b)
  {
    forall p | FieldGrants(c, r, query, p) ensures p <= Best(RecordEntries(c, r), query) {
      var k :| k in RECORD_KEYS && Grades(AnyString(c, r.fields, k), query, 900, 750, 550, p);
      FieldGrantIsBelow(c, r, query, k, p);
    }
    if Best(RecordEntries(c, r), query) > 0 { BestFieldGrants(c, r, query); }
  }

  /** The direct score is the best grade that any field grants. */
  lemma DirectIsBestGrade(c: Codec, r: Record, query: string)
    requires query != ""
    ensures forall p :: Grants(c, r, query, p) ==> p <= Direct(c, r, query)
    ensures Direct(c, r, query) > 0 ==> Grants(c, r, query, Direct(c, r, query))
  {
    OwnGrants(c, r, query);
    LinksGrant(r, query);
    FieldsGrant(c, r, query);
    ContainsMeansInside(ToLower(c.marshal(r.fields)), query);
  }

  // ----- terms

  ghost predicate Cut(s: string) { forall i :: 0 <= i < |s| ==> InCutset(s[i]) }

  /** `t` is the word without the punctuation around it. */
  ghost predicate Strips(word: string, t: string) {
    && (exists l: string, r: string :: word == l + t + r && Cut(l) && Cut(r))
    && (t == "" || (!InCutset(t[0]) && !InCutset(t[|t| - 1])))
  }

  lemma CutMore(s: string, c: char)
    requires Cut(s) && InCutset(c)
    ensures Cut(s + [c]) && Cut([c] + s)
  {}

  lemma {:induction false} CutLeftCuts(s: string) returns (l: string)
    ensures s == l + CutLeft(s) && Cut(l) && (CutLeft(s) == "" || !InCutset(CutLeft(s)[0]))
  {
    l := "";
    if s != [] && InCutset(s[0]) {
      var rest := CutLeftCuts(s[1..]);
      CutMore(rest, s[0]);
      l := [s[0]] + rest;
    }
  }

  lemma {:induction false} CutRightCuts(s: string) returns (r: string)
    ensures s == CutRight(s) + r && Cut(r)
  {
    r := "";
    if s != [] {
      var init, last := s[..|s| - 1], s[|s| - 1];
      assert s == init + [last];
      if InCutset(last) {
        var rest := CutRightCuts(init);
        CutMore(rest, last);
        r := rest + [last];
      }
    }
  }

  ghost predicate EndsOpen(s: string) { s == "" || !InCutset(s[|s| - 1]) }

  lemma {:induction false} CutRightEnds(s: string)
    ensures EndsOpen(CutRight(s))
  {
    if s != [] && InCutset(s[|s| - 1]) { CutRightEnds(s[..|s| - 1]); }
  }

  lemma HeadStays(s: string, t: string, r: string)
    requires s == t + r && t != "" && !InCutset(s[0])
    ensures !InCutset(t[0])
  {
    assert s[0] == t[0];
  }

  lemma TokenStrips(word: string)
    ensures Strips(word, CutRight(CutLeft(word)))
  {
    var inner, t := CutLeft(word), CutRight(CutLeft(word));
    var l := CutLeftCuts(word);
    var r := CutRightCuts(inner);
    CutRightEnds(inner);
    assert word == l + t + r;
    if t != "" { HeadStays(inner, t, r); }
  }

  ghost predicate TokenOf(w: string, t: string) { t == CutRight(CutLeft(w)) && |t| >= 2 && !Stopword(t) }

  lemma {:induction false} TermMember(words: seq<string>, t: string)
    ensures t in TermsOf(words) <==> exists w :: w in words && TokenOf(w, t)
  {
    if words != [] {
      var rest, last := words[..|words| - 1], words[|words| - 1];
      TermMember(rest, t);
      assert words == rest + [last];
      assert last in words;
      assert t in TermsOf(words) <==> t in TermsOf(rest) || TokenOf(last, t);
    }
  }

  lemma {:induction false} CutLeftStops(l: string, x: string)
    requires Cut(l) && x != "" && !InCutset(x[0])
    ensures CutLeft(l + x) == x
  {
    if l == [] {
      assert l + x == x;
    } else {
      assert (l + x)[0] == l[0] && (l + x)[1..] == l[1..] + x;
      CutLeftStops(l[1..], x);
    }
  }

  lemma {:induction false} CutRightStops(t: string, r: string)
    requires Cut(r) && t != "" && !InCutset(t[|t| - 1])
    ensures CutRight(t + r) == t
  {
    var s := t + r;
    if r == [] {
      assert s == t;
    } else {
      assert s[|s| - 1] == r[|r| - 1] && s[..|s| - 1] == t + r[..|r| - 1];
      CutRightStops(t, r[..|r| - 1]);
    }
  }

  lemma StrippedIsToken(word: string, t: string)
    requires Strips(word, t) && t != ""
    ensures CutRight(CutLeft(word)) == t
  {
    var l: string, r: string :| word == l + t + r && Cut(l) && Cut(r);
    assert word == l + (t + r) && (t + r)[0] == t[0];
    CutLeftStops(l, t + r);
    CutRightStops(t, r);
  }

  /** The terms are the words of the query without the punctuation around them, as far as they have two characters
      and are no stop words. */
  lemma TermsAreStrippedWords(query: string, t: string)
    ensures t in SearchTerms(query) <==> |t| >= 2 && !Stopword(t) && exists w :: w in Words(query) && Strips(w, t)
  {
    TermMember(Words(query), t);
    if t in SearchTerms(query) {
      var w :| w in Words(query) && TokenOf(w, t);
      TokenStrips(w);
    }
    if |t| >= 2 && !Stopword(t) && exists w :: w in Words(query) && Strips(w, t) {
      var w :| w in Words(query) && Strips(w, t);
      StrippedIsToken(w, t);
      assert TokenOf(w, t);
    }
  }

  // ----- scores

  ghost function TermScore(c: Codec, r: Record): string -> nat { t => Score(c, r, t) }

  ghost predicate AllPositive(terms: seq<string>, w: string -> nat) { forall t :: t in terms ==> w(t) > 0 }

  /** The scores summed up, unless one is zero. */
  ghost function SumOrNone(terms: seq<string>, w: string -> nat): Option<nat> {
    if AllPositive(terms, w) then Some(Sum(terms, w)) else None
  }

  lemma SumOrNoneMore(rest: seq<string>, last: string, w: string -> nat)
    ensures var before := SumOrNone(rest, w);
            SumOrNone(rest + [last], w) == if before.None? || w(last) == 0 then None else Some(before.value + w(last))
  {
    var terms := rest + [last];
    assert terms[|rest|] == last;
    SumAppend(rest, [last], w);
    assert Sum([last], w) == w(last) + Sum([], w);
    if AllPositive(terms, w) {
      assert last in terms;
      forall t | t in rest ensures w(t) > 0 { assert t in terms; }
    }
  }

  function TotalBy(terms: seq<string>, w: string -> nat): Option<nat> {
    if terms == [] then Some(0)
    else
      var before, last := TotalBy(terms[..|terms| - 1], w), w(terms[|terms| - 1]);
      if before.None? || last == 0 then None else Some(before.value + last)
  }

  lemma {:induction false} TotalBySums(terms: seq<string>, w: string -> nat)
    ensures TotalBy(terms, w) == SumOrNone(terms, w)
    decreases |terms|
  {
    if terms != [] {
      TotalBySums(terms[..|terms| - 1], w);
      SumOrNoneMore(terms[..|terms| - 1], terms[|terms| - 1], w);
      assert terms == terms[..|terms| - 1] + [terms[|terms| - 1]];
    }
  }

  lemma {:induction false} TermTotalIsBy(c: Codec, r: Record, terms: seq<string>, weight: nat)
    requires Light(terms, weight)
    ensures TermTotal(c, r, terms, weight) == TotalBy(terms, TermScore(c, r))
    decreases |terms|
  {
    if terms != [] { TermTotalIsBy(c, r, terms[..|terms| - 1], weight); }
  }

  lemma TotalIsSum(c: Codec, r: Record, terms: seq<string>, weight: nat)
    requires Light(terms, weight)
    ensures TermTotal(c, r, terms, weight) == SumOrNone(terms, TermScore(c, r))
  {
    TermTotalIsBy(c, r, terms, weight);
    TotalBySums(terms, TermScore(c, r));
  }

  lemma FloorOf(total: nat, n: nat)
    requires n > 0
    ensures (total / n) * n <= total < (total / n + 1) * n
  {}

  /** `s` is the mean over the terms, rounded down. */
  ghost predicate IsMean(s: nat, sum: nat, n: nat) { s * n <= sum < (s + 1) * n }

  lemma TokenScoreIsMean(c: Codec, r: Record, query: string)
    ensures var s, terms := TokenScore(c, r, query), SearchTerms(query);
            if |terms| >= 2 && AllPositive(terms, TermScore(c, r)) then
              IsMean(s, Sum(terms, TermScore(c, r)), |terms|)
            else s == 0
  {
    var terms := SearchTerms(query);
    if |terms| >= 2 {
      TermsAreLight(query);
      TotalIsSum(c, r, terms, |Words(query)|);
      FloorOf(Sum(terms, TermScore(c, r)), |terms|);
    }
  }

  ghost predicate Ungranted(c: Codec, r: Record, query: string) { forall p :: !Grants(c, r, query, p) }

  lemma UngrantedIsZero(c: Codec, r: Record, query: string)
    requires query != "" && Ungranted(c, r, query)
    ensures Direct(c, r, query) == 0
  {
    DirectIsBestGrade(c, r, query);
  }

  lemma FallsBack(c: Codec, r: Record, query: string)
    requires query != "" && Direct(c, r, query) == 0
    ensures Score(c, r, query) == if Inside(TrimSpace(query), "://") then 0 else TokenScore(c, r, query)
  {
    ContainsMeansInside(TrimSpace(query), "://");
  }

  /** A query that no field grants anything scores the floor of the mean over its terms, if each of two terms or more
      scores by itself; otherwise, and where the query is an address, it scores nothing. */
  lemma UngrantedScore(c: Codec, r: Record, query: string)
    requires query != "" && Ungranted(c, r, query)
    ensures var s, terms := Score(c, r, query), SearchTerms(query);
            if !Inside(TrimSpace(query), "://") && |terms| >= 2 && AllPositive(terms, TermScore(c, r))
            then IsMean(s, Sum(terms, TermScore(c, r)), |terms|)
            else s == 0
  {
    UngrantedIsZero(c, r, query);
    FallsBack(c, r, query);
    TokenScoreIsMean(c, r, query);
  }

  lemma TermIsGranted(c: Codec, r: Record, query: string, t: string)
    requires t in SearchTerms(query)
    ensures Score(c, r, t) == Direct(c, r, t)
  {
    TermIsOneWord(query, t);
  }

  lemma OnlyIdGrants1000(c: Codec, r: Record, query: string)
    requires query != "" && Direct(c, r, query) >= 1000
    ensures ToLower(TrimSpace(r.id)) == query
  {
    DirectIsBestGrade(c, r, query);
  }

  lemma {:induction false} FullSum(c: Codec, r: Record, terms: seq<string>, i: nat)
    requires i < |terms| && forall t :: t in terms ==> Score(c, r, t) <= 1000
    ensures Sum(terms, TermScore(c, r)) <= 1000 * |terms|
    ensures Sum(terms, TermScore(c, r)) == 1000 * |terms| ==> Score(c, r, terms[i]) == 1000
  {
    var w := TermScore(c, r);
    if |terms| == 1 {
      assert Sum(terms, w) == w(terms[0]) + Sum(terms[1..], w);
    } else {
      assert Sum(terms, w) == w(terms[0]) + Sum(terms[1..], w);
      assert terms[0] in terms;
      FullSum(c, r, terms[1..], if i == 0 then 0 else i - 1);
    }
  }

  lemma FullTermIsId(c: Codec, r: Record, query: string, t: string)
    requires t in SearchTerms(query) && Score(c, r, t) == 1000
    ensures ToLower(TrimSpace(r.id)) == t
  {
    TermIsGranted(c, r, query, t);
    TermIsOneWord(query, t);
    OnlyIdGrants1000(c, r, t);
  }

  lemma TermAtMost1000(c: Codec, r: Record, query: string, t: string)
    requires t in SearchTerms(query)
    ensures Score(c, r, t) <= 1000
  {
    TermIsOneWord(query, t);
    ScoreInRange(c, r, t);
  }

  lemma SumBelow(c: Codec, r: Record, query: string)
    requires |SearchTerms(query)| >= 2
    ensures Sum(SearchTerms(query), TermScore(c, r)) < 1000 * |SearchTerms(query)|
  {
    var terms := SearchTerms(query);
    forall t | t in terms ensures Score(c, r, t) <= 1000 { TermAtMost1000(c, r, query, t); }
    FullSum(c, r, terms, 0);
    FullSum(c, r, terms, 1);
    assert terms[0] in terms && terms[1] in terms && terms[0] != terms[1];
    if Score(c, r, terms[0]) == 1000 && Score(c, r, terms[1]) == 1000 {
      FullTermIsId(c, r, query, terms[0]);
      FullTermIsId(c, r, query, terms[1]);
    }
  }

  lemma Scaled(a: nat, b: nat, n: nat)
    ensures a <= b ==> a * n <= b * n
  {}

  lemma MeanLess(s: nat, sum: nat, n: nat)
    requires IsMean(s, sum, n) && sum < 1000 * n
    ensures s < 1000
  {
    Scaled(1000, s, n);
  }

  lemma MeanBelow1000(c: Codec, r: Record, query: string)
    requires query != "" && Direct(c, r, query) == 0
    ensures Score(c, r, query) < 1000
  {
    FallsBack(c, r, query);
    TokenScoreIsMean(c, r, query);
    var terms := SearchTerms(query);
    if |terms| >= 2 {
      SumBelow(c, r, query);
      if AllPositive(terms, TermScore(c, r)) {
        MeanLess(TokenScore(c, r, query), Sum(terms, TermScore(c, r)), |terms|);
      }
    }
  }

  /** A record scores 1000, the most there is, exactly when its identifier is the query. */
  lemma FullScoreExactlyForId(c: Codec, r: Record, query: string)
    requires query != ""
    ensures Score(c, r, query) <= 1000
    ensures Score(c, r, query) == 1000 <==> ToLower(TrimSpace(r.id)) == query
  {
    ScoreInRange(c, r, query);
    DirectIsBestGrade(c, r, query);
    if ToLower(TrimSpace(r.id)) == query {
      assert Grants(c, r, query, 1000);
    } else if Direct(c, r, query) > 0 {
      if Score(c, r, query) == 1000 { OnlyIdGrants1000(c, r, query); }
    } else {
      MeanBelow1000(c, r, query);
    }
  }
}
