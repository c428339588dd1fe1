/** Scoring a record against a query: direct field matches first, then word by word. */
module IndexScore {
  import opened Text
  import opened JsonTree
  import opened IndexRecords

  // ----- the words of a query

  predicate InCutset(c: char) { c in " \t\n\r\"'()[]{}<>.,;:#!" }

  function CutLeft(s: string): string { if s != [] && InCutset(s[0]) then CutLeft(s[1..]) else s }

  function CutRight(s: string): string { if s != [] && InCutset(s[|s| - 1]) then CutRight(s[..|s| - 1]) else s }

  const STOPWORDS := {"look", "lookup", "find", "open", "see", "the", "for", "from", "this", "that", "please",
                      "at", "in", "to", "and", "with"}

  predicate Stopword(token: string) { ToLower(TrimSpace(token)) in STOPWORDS }

  function Words(query: string): seq<string> { Fields(ToLower(TrimSpace(query))) }

  function TermsOf(words: seq<string>): (r: seq<string>)
    ensures forall i, j :: 0 <= i < j < |r| ==> r[i] != r[j]
    ensures |r| <= |words|
  {
    if words == [] then []
    else
      var r := TermsOf(words[..|words| - 1]);
      var token := CutRight(CutLeft(words[|words| - 1]));
      if |token| < 2 || Stopword(token) || token in r then r else r + [token]
  }

  function SearchTerms(query: string): seq<string> { TermsOf(Words(query)) }

  method CollectTerms(query: string) returns (terms: seq<string>)
    ensures terms == SearchTerms(query)
  {
    var words := Words(query);
    var seen: set<string> := {};
    terms := [];
    for i := 0 to |words|
      invariant terms == TermsOf(words[..i])
      invariant forall t :: t in seen <==> t in terms
    {
      assert words[..i + 1][..i] == words[..i];
      var token := CutRight(CutLeft(words[i]));
      if |token| >= 2 && !Stopword(token) && token !in seen {
        seen := seen + {token};
        terms := terms + [token];
      }
    }
    assert words[..|words|] == words;
  }

  // ----- a term is one word, so scoring by terms ends

  ghost predicate Avoids(s: string, sep: char -> bool) { forall i :: 0 <= i < |s| ==> !sep(s[i]) }

  ghost predicate AllAvoid(words: seq<string>, sep: char -> bool) { forall w :: w in words ==> Avoids(w, sep) }

  lemma {:induction false} FieldsAvoid(s: string, sep: char -> bool, run: string)
    requires Avoids(run, sep)
    ensures AllAvoid(FieldsFrom(s, sep, run), sep)
    decreases |s|
  {
    if s != [] {
      if sep(s[0]) {
        FieldsAvoid(s[1..], sep, []);
      } else {
        FieldsAvoid(s[1..], sep, run + [s[0]]);
      }
    }
  }

  lemma {:induction false} OneField(s: string, sep: char -> bool, run: string)
    requires Avoids(s, sep)
    ensures |FieldsFrom(s, sep, run)| <= 1
    decreases |s|
  {
    if s != [] {
      OneField(s[1..], sep, run + [s[0]]);
    }
  }

  lemma {:induction false} CutAvoids(s: string)
    ensures Avoids(s, IsSpace) ==> Avoids(CutLeft(s), IsSpace) && Avoids(CutRight(s), IsSpace)
    decreases |s|
  {
    if s != [] {
      CutAvoids(s[1..]);
      CutAvoids(s[..|s| - 1]);
    }
  }

  lemma LowerAvoids(s: string)
    requires Avoids(s, IsSpace)
    ensures Avoids(ToLower(s), IsSpace)
  {}

  lemma TrimAvoids(s: string)
    requires Avoids(s, IsSpace)
    ensures TrimSpace(s) == s
  {}

  lemma {:induction false} TermsAvoid(words: seq<string>, t: string)
    requires AllAvoid(words, IsSpace) && t in TermsOf(words)
    ensures Avoids(t, IsSpace) && |t| >= 2
  {
    var rest, last := words[..|words| - 1], words[|words| - 1];
    if t in TermsOf(rest) {
      TermsAvoid(rest, t);
    } else {
      CutAvoids(last);
      CutAvoids(CutLeft(last));
    }
  }

  /** A term of any query is a single word. */
  lemma TermIsOneWord(query: string, t: string)
    requires t in SearchTerms(query)
    ensures |Words(t)| <= 1 && |t| >= 2
  {
    FieldsAvoid(ToLower(TrimSpace(query)), IsSpace, []);
    TermsAvoid(Words(query), t);
    TrimAvoids(t);
    LowerAvoids(t);
    OneField(ToLower(t), IsSpace, []);
  }

  /** Terms with fewer words than `weight`, none of them blank. */
  ghost predicate Light(terms: seq<string>, weight: nat) {
    forall t :: t in terms ==> |Words(t)| < weight && t != ""
  }

  /** What makes the mutual recursion end: two terms or more come from two words or more, and have one each. */
  lemma TermsAreLight(query: string)
    requires |SearchTerms(query)| >= 2
    ensures Light(SearchTerms(query), |Words(query)|)
  {
    forall t | t in SearchTerms(query) ensures |Words(t)| <= 1 && |t| >= 2 {
      TermIsOneWord(query, t);
    }
  }

  // ----- direct matches

  /** One comparison: a field's value and the points of an exact, prefix and substring match. */
  datatype Entry = Entry(field: string, value: string, exact: nat, start: nat, part: nat)

  function Points(e: Entry, query: string): nat {
    var value := ToLower(TrimSpace(e.value));
    if value == "" then 0
    else if value == query then e.exact
    else if query <= value then e.start
    else if Contains(value, query) then e.part
    else 0
  }

  predicate Matches(e: Entry, query: string) {
    var value := ToLower(TrimSpace(e.value));
    value != "" && (query <= value || Contains(value, query))
  }

  function OwnEntries(r: Record): seq<Entry> {
    [Entry("id", r.id, 1000, 850, 650), Entry("title", r.title, 950, 800, 600),
     Entry("entity", r.entity, 500, 400, 300)]
  }

  function LinkEntry(r: Record, key: string): Entry
    requires key in r.links
  {
    Entry("links." + key, r.links[key], 450, 350, 250)
  }

  const RECORD_KEYS := ["username", "name", "display_name", "real_name", "name_with_namespace", "path_with_namespace",
                       "full_name", "full_path", "reference", "author_username", "web_url", "email", "state",
                       "user_id", "channel_id"]

  function RecordEntry(c: Codec, r: Record, key: string): Entry {
    Entry("record." + key, AnyString(c, r.fields, key), 900, 750, 550)
  }

  function Max(a: nat, b: nat): nat { if a >= b then a else b }

  function Best(entries: seq<Entry>, query: string): nat {
    if entries == [] then 0 else Max(Best(entries[..|entries| - 1], query), Points(entries[|entries| - 1], query))
  }

  function RecordEntries(c: Codec, r: Record): seq<Entry> {
    seq(|RECORD_KEYS|, i requires 0 <= i < |RECORD_KEYS| => RecordEntry(c, r, RECORD_KEYS[i]))
  }

  /** The best link, said without an order: the links of a record are an unordered map. */
  ghost function BestLink(r: Record, query: string): nat {
    if exists k :: k in r.links && Points(LinkEntry(r, k), query) == 450 then 450
    else if exists k :: k in r.links && Points(LinkEntry(r, k), query) == 350 then 350
    else if exists k :: k in r.links && Points(LinkEntry(r, k), query) == 250 then 250
    else 0
  }

  predicate TextMatches(c: Codec, r: Record, query: string) { Contains(ToLower(c.marshal(r.fields)), query) }

  /** The score of the direct comparisons. */
  ghost function Direct(c: Codec, r: Record, query: string): nat {
    Max(Max(Best(OwnEntries(r), query), BestLink(r, query)),
        Max(Best(RecordEntries(c, r), query), if TextMatches(c, r, query) then 100 else 0))
  }

  predicate LooksLikeURL(query: string) { Contains(TrimSpace(query), "://") }

  // ----- the score

  function Mean(total: Option<nat>, n: nat): nat
    requires n > 0
  {
    if total.None? then 0 else total.value / n
  }

  ghost function Score(c: Codec, r: Record, query: string): nat
    decreases |Words(query)|, 2, 0
  {
    if query == "" then 1
    else if Direct(c, r, query) == 0 && !LooksLikeURL(query) then TokenScore(c, r, query)
    else Direct(c, r, query)
  }

  /** The floor of the mean over the terms; nothing for fewer than two terms or when one misses. */
  ghost function TokenScore(c: Codec, r: Record, query: string): nat
    decreases |Words(query)|, 1, 0
  {
    var terms := SearchTerms(query);
    if |terms| < 2 then 0
    else
      TermsAreLight(query);
      Mean(TermTotal(c, r, terms, |Words(query)|), |terms|)
  }

  /** The scores of the terms summed up, unless one is zero. */
  ghost function TermTotal(c: Codec, r: Record, terms: seq<string>, weight: nat): Option<nat>
    requires Light(terms, weight)
    decreases weight, 0, |terms|
  {
    if terms == [] then Some(0)
    else
      var before := TermTotal(c, r, terms[..|terms| - 1], weight);
      var last := Score(c, r, terms[|terms| - 1]);
      if before.None? || last == 0 then None else Some(before.value + last)
  }

  // ----- bounds

  ghost predicate InRange(score: nat) { score == 0 || 100 <= score <= 1000 }

  lemma {:induction false} BestInRange(entries: seq<Entry>, query: string)
    requires forall e :: e in entries ==> 100 <= e.part <= 1000 && 100 <= e.start <= 1000 && 100 <= e.exact <= 1000
    ensures InRange(Best(entries, query))
  {
    if entries != [] {
      BestInRange(entries[..|entries| - 1], query);
    }
  }

  lemma DirectInRange(c: Codec, r: Record, query: string)
    ensures InRange(Direct(c, r, query))
  {
    BestInRange(OwnEntries(r), query);
    BestInRange(RecordEntries(c, r), query);
  }

  lemma MeanInRange(total: nat, n: nat)
    requires n > 0 && 100 * n <= total <= 1000 * n
    ensures 100 <= total / n <= 1000
  {}

  /** For a query that is not blank the score is 0 or from 100 to 1000. */
  lemma {:induction false} ScoreInRange(c: Codec, r: Record, query: string)
    requires query != ""
    ensures InRange(Score(c, r, query))
    decreases |Words(query)|, 2, 0
  {
    DirectInRange(c, r, query);
    if Direct(c, r, query) == 0 && !LooksLikeURL(query) {
      var terms := SearchTerms(query);
      if |terms| >= 2 {
        TermsAreLight(query);
        TotalInRange(c, r, terms, |Words(query)|);
        var total := TermTotal(c, r, terms, |Words(query)|);
        if total.Some? { MeanInRange(total.value, |terms|); }
      }
    }
  }

  lemma {:induction false} TotalInRange(c: Codec, r: Record, terms: seq<string>, weight: nat)
    requires Light(terms, weight)
    ensures var total := TermTotal(c, r, terms, weight); total.Some? ==> 100 * |terms| <= total.value <= 1000 * |terms|
    decreases weight, 0, |terms|
  {
    if terms != [] {
      ScoreInRange(c, r, terms[|terms| - 1]);
      TotalInRange(c, r, terms[..|terms| - 1], weight);
    }
  }
}
