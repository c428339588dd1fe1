/** Index records: what a stored JSON document becomes before it is searched, listed or returned. */
module IndexRecords {
  import opened Text
  import opened JsonTree

  /** The parts of JSON text the index depends on: the text of an object, and a number's integer part. */
  datatype Codec = Codec(marshal: map<string, Json> -> string, whole: string -> string)

  datatype Origin = NoOrigin | HostIndex(plugin: string, instance: string, index: string)

  datatype Record = Record(entity: string, id: string, title: string, url: string, links: map<string, string>,
                           fields: map<string, Json>, origin: Origin)

  datatype Snapshot = Snapshot(plugin: string, instance: string, index: string, records: seq<Json>)

  function AnyString(c: Codec, m: map<string, Json>, key: string): string {
    if key !in m then ""
    else
      match m[key]
      case Str(s) => TrimSpace(s)
      case Num(t) => c.whole(t)
      case _ => ""
  }

  function FirstString(c: Codec, m: map<string, Json>, keys: seq<string>): string {
    if keys == [] then ""
    else if AnyString(c, m, keys[0]) != "" then AnyString(c, m, keys[0])
    else FirstString(c, m, keys[1..])
  }

  /** A nested "record" object spread below the document's own fields. */
  function Merged(m: map<string, Json>): map<string, Json> {
    if "record" in m && m["record"].Obj? then m["record"].fields + m else m
  }

  const STANDARD_KEYS := {"entity", "id", "title", "url", "links", "origin", "score", "matched_fields", "source"}

  function Clean(m: map<string, Json>): map<string, Json> { m - STANDARD_KEYS }

  function LinkTexts(c: Codec, m: map<string, Json>): map<string, string> {
    map k | k in m && AnyString(c, m, k) != "" :: AnyString(c, m, k)
  }

  function LinksOf(c: Codec, url: string, m: map<string, Json>): map<string, string> {
    (if url != "" then map["self" := url] else map[])
    + (if "links" in m && m["links"].Obj? then LinkTexts(c, m["links"].fields) else map[])
  }

  const ID_KEYS := ["id", "key", "ref", "path_with_namespace", "web_url", "project_id"]
  const TITLE_KEYS := ["title", "name", "name_with_namespace"]
  const URL_KEYS := ["url", "web_url", "html_url"]

  function ApplyStandard(c: Codec, r: Record, m: map<string, Json>): Record {
    var title := if r.title == "" then FirstString(c, m, TITLE_KEYS) else r.title;
    var url := if r.url == "" then FirstString(c, m, URL_KEYS) else r.url;
    r.(title := title, url := url, links := LinksOf(c, url, m) + r.links)
  }

  /** The record of a document that has an identifier. */
  function NormalizeRecord(c: Codec, raw: Json): Option<Record> {
    if !raw.Obj? then None
    else
      var m := Merged(raw.fields);
      var id := FirstString(c, m, ID_KEYS);
      if id == "" then None
      else
        var bare := Record(FirstString(c, m, ["entity"]), id, "", "", map[], map[], NoOrigin);
        Some(ApplyStandard(c, bare, m).(fields := Clean(m)))
  }

  /** Fills what is missing once more from the cleaned fields, and notes where the record comes from. */
  function Enrich(c: Codec, s: Snapshot, r: Record): Record {
    var filled := if r.title == "" || r.url == "" || r.links == map[] then ApplyStandard(c, r, r.fields) else r;
    filled.(fields := Clean(r.fields), origin := HostIndex(s.plugin, s.instance, s.index))
  }

  /** The candidate a stored document gives under an entity filter. */
  function Candidate(c: Codec, s: Snapshot, raw: Json, entity: string): Option<Record> {
    var r := NormalizeRecord(c, raw);
    if r.None? then None
    else
      var e := Enrich(c, s, r.value);
      if entity != "" && e.entity != entity then None else Some(e)
  }

  // ----- enriching finds nothing that normalizing had not found

  lemma {:induction false} NothingInClean(c: Codec, m: map<string, Json>, keys: seq<string>)
    requires FirstString(c, m, keys) == ""
    ensures FirstString(c, Clean(m), keys) == ""
  {
    if keys != [] {
      NothingInClean(c, m, keys[1..]);
      assert keys[0] in Clean(m) ==> Clean(m)[keys[0]] == m[keys[0]];
    }
  }

  /** Complete as far as `m` goes: what is still missing is not in `m`, and the links have the url. */
  predicate Complete(c: Codec, r: Record, m: map<string, Json>) {
    && (r.title == "" ==> FirstString(c, m, TITLE_KEYS) == "")
    && (r.url == "" ==> FirstString(c, m, URL_KEYS) == "")
    && (r.url != "" ==> "self" in r.links)
  }

  lemma CompleteFixed(c: Codec, r: Record, m: map<string, Json>)
    requires Complete(c, r, m)
    ensures ApplyStandard(c, r, Clean(m)) == r
  {
    if r.title == "" { NothingInClean(c, m, TITLE_KEYS); }
    if r.url == "" { NothingInClean(c, m, URL_KEYS); }
    assert "links" !in Clean(m);
    assert LinksOf(c, r.url, Clean(m)) + r.links == r.links;
  }

  /** The second pass only adds the origin: the record itself is already complete. */
  lemma EnrichOnlyAddsOrigin(c: Codec, s: Snapshot, raw: Json)
    ensures var r := NormalizeRecord(c, raw);
            r.Some? ==> Enrich(c, s, r.value) == r.value.(origin := HostIndex(s.plugin, s.instance, s.index))
  {
    var n := NormalizeRecord(c, raw);
    if n.Some? {
      var r, m := n.value, Merged(raw.fields);
      assert Clean(r.fields) == r.fields == Clean(m);
      assert Complete(c, r, m);
      CompleteFixed(c, r, m);
    }
  }

  /** A record's identifier is not blank and has no blanks around it. */
  lemma {:induction false} FirstStringTrimmed(c: Codec, m: map<string, Json>, keys: seq<string>)
    requires forall t :: Trimmed(c.whole(t))
    ensures Trimmed(FirstString(c, m, keys))
  {
    if keys != [] {
      FirstStringTrimmed(c, m, keys[1..]);
      if keys[0] in m && m[keys[0]].Str? { TrimSpaceTrimmed(m[keys[0]].s); }
    }
  }
}
