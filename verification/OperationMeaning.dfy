/** What normalizing keeps of a declaration and its schema, which defaults apply, and who wins in a merge, said of
    the declarations before and after. */
module OperationMeaning {
  import opened Text
  import opened Sorting
  import opened JsonTree
  import opened SchemaTree
  import opened OperationSpec
  import opened OperationSpecProofs

  // ----- schemas

  /** `out` is a schema that says what `v` says: every key but `$schema` with what it says there, every list in its
      order, except that a `required` list may be rearranged, and every other value as it is. */
  ghost predicate SaysTheSame(v: Json, out: Json)
    decreases v, 1
  {
    match v
    case Obj(m) =>
      && out.Obj? && out.fields.Keys == m.Keys - {"$schema"}
      && forall k :: k in out.fields ==>
           if k == "required" && m[k].Arr? then out.fields[k].Arr? && Rearranged(m[k].items, out.fields[k].items)
           else SaysTheSame(m[k], out.fields[k])
    case Arr(items) => out.Arr? && EachTheSame(items, out.items)
    case _ => out == v
  }

  ghost predicate EachTheSame(items: seq<Json>, out: seq<Json>)
    decreases items, 0
  {
    |out| == |items| && forall i :: 0 <= i < |items| ==> SaysTheSame(items[i], out[i])
  }

  ghost predicate Rearranged(items: seq<Json>, out: seq<Json>)
    decreases items, 1
  {
    exists each: seq<Json> :: EachTheSame(items, each) && multiset(each) == multiset(out)
  }

  lemma SortRearranges(items: seq<Json>, each: seq<Json>)
    requires EachTheSame(items, each)
    ensures Rearranged(items, StableSort(each, TextBefore))
  {
    SortPermutes(each, TextBefore);
  }

  /** Normalizing a schema keeps all it says. */
  lemma {:induction false} NormalizeKeepsAll(v: Json)
    ensures SaysTheSame(v, NormalizeSchema(v))
    decreases v
  {
    match v {
      case Obj(m) =>
        var n := map k | k in m && k != "$schema" :: NormalizeSchema(m[k]);
        var out := NormalizeSchema(v).fields;
        assert out == SortRequired(n);
        forall k | k in out
          ensures if k == "required" && m[k].Arr? then out[k].Arr? && Rearranged(m[k].items, out[k].items)
                  else SaysTheSame(m[k], out[k])
        {
          NormalizeKeepsAll(m[k]);
          if k == "required" && m[k].Arr? {
            SortRearranges(m[k].items, n[k].items);
          }
        }
      case Arr(items) =>
        forall i | 0 <= i < |items| ensures SaysTheSame(items[i], NormalizeSchema(items[i])) {
          NormalizeKeepsAll(items[i]);
        }
      case _ => {}
    }
  }

  /** The object schema an input stands for; none when it is something else, which passes unchanged. */
  function Described(i: Input): Option<map<string, Json>> {
    match i
    case Absent => Some(map["type" := Str("object"), "properties" := Obj(map[])])
    case Invalid(_) => None
    case Doc(Null) => Some(map[])
    case Doc(Obj(m)) => if "type" in m && m["type"].Str? && m["type"].s !in {"", "object"} then None else Some(m)
    case _ => None
  }

  /** The properties a schema declares; anything but an object declares none. */
  function Declared(m: map<string, Json>): map<string, Json> {
    if "properties" in m && m["properties"].Obj? then m["properties"].fields else map[]
  }

  /** `w` is `m` as an object schema with a property for the endpoint reference, the author's if there is one. */
  ghost predicate Referring(m: map<string, Json>, w: map<string, Json>) {
    && w.Keys == m.Keys + {"type", "properties"}
    && (forall k :: k in m && k !in {"type", "properties"} ==> w[k] == m[k])
    && w["type"] == Str("object") && w["properties"].Obj?
    && var declared, p := Declared(m), w["properties"].fields;
       && p.Keys == declared.Keys + {"endpoint_ref"} && (forall k :: k in declared ==> p[k] == declared[k])
       && ("endpoint_ref" !in declared ==>
             p["endpoint_ref"].Obj? && "type" in p["endpoint_ref"].fields
             && p["endpoint_ref"].fields["type"] == Str("string"))
  }

  lemma EndpointRefRefers(m: map<string, Json>)
    ensures Referring(m, WithEndpointRef(m))
  {}

  lemma InputIsDescribed(i: Input)
    ensures NormalizeInput(i) == match Described(i)
                                 case Some(m) => Doc(NormalizeSchema(Obj(WithEndpointRef(m))))
                                 case None => i
  {
    assert map["properties" := Obj(map[]), "type" := Str("object")]
        == map["type" := Str("object"), "properties" := Obj(map[])];
  }

  /** An object input keeps everything it says and declares, and gets the endpoint reference; any other stays. */
  lemma InputKeepsAll(i: Input)
    ensures var n := NormalizeInput(i);
            if Described(i).None? then n == i
            else n.Doc? && exists w :: Referring(Described(i).value, w) && SaysTheSame(Obj(w), n.v)
  {
    InputIsDescribed(i);
    if Described(i).Some? {
      var w := WithEndpointRef(Described(i).value);
      EndpointRefRefers(Described(i).value);
      NormalizeKeepsAll(Obj(w));
      assert SaysTheSame(Obj(w), NormalizeInput(i).v);
    }
  }

  /** So every declared property is there with what it says, `$schema` excepted. */
  lemma DeclaredPropertySurvives(i: Input, name: string)
    requires Described(i).Some? && name in Declared(Described(i).value)
    requires name != "$schema" && (name == "required" ==> !Declared(Described(i).value)[name].Arr?)
    ensures var n := NormalizeInput(i);
            && n.Doc? && n.v.Obj? && name in Declared(n.v.fields)
            && SaysTheSame(Declared(Described(i).value)[name], Declared(n.v.fields)[name])
  {
    InputKeepsAll(i);
    var n := NormalizeInput(i);
    var w :| Referring(Described(i).value, w) && SaysTheSame(Obj(w), n.v);
    assert SaysTheSame(w["properties"], n.v.fields["properties"]);
  }

  // ----- lists

  /** `x` comes in the list, and `y` not before it. */
  ghost predicate FirstBefore<T(!new)>(s: seq<T>, x: T, y: T) {
    exists p :: 0 <= p < |s| && s[p] == x && y !in s[..p]
  }

  /** The values of `given` that are not blank, each once, in the order in which they first come. */
  ghost predicate Tidied<T(!new)>(given: seq<T>, blank: T, r: seq<T>) {
    && (forall x :: x in r <==> x in given && x != blank) && Distinct(r)
    && forall i, j :: 0 <= i < j < |r| ==> FirstBefore(given, r[i], r[j])
  }

  lemma FirstBeforeLater<T(!new)>(s: seq<T>, t: seq<T>, x: T, y: T)
    requires FirstBefore(s, x, y)
    ensures FirstBefore(s + t, x, y)
  {
    var p :| 0 <= p < |s| && s[p] == x && y !in s[..p];
    assert (s + t)[p] == x && (s + t)[..p] == s[..p];
  }

  lemma FirstBeforeNew<T(!new)>(s: seq<T>, x: T, y: T)
    requires x in s && y !in s
    ensures FirstBefore(s + [y], x, y)
  {
    var p :| 0 <= p < |s| && s[p] == x;
    assert (s + [y])[p] == x && (s + [y])[..p] == s[..p];
  }

  lemma {:induction false} UniqueTidies<T(!new)>(given: seq<T>, blank: T)
    ensures Tidied(given, blank, Unique(given, blank))
  {
    if given != [] {
      var rest, last := given[..|given| - 1], given[|given| - 1];
      var before, r := Unique(rest, blank), Unique(given, blank);
      UniqueTidies(rest, blank);
      assert given == rest + [last];
      forall i, j | 0 <= i < j < |r| ensures FirstBefore(given, r[i], r[j]) {
        if j < |before| {
          FirstBeforeLater(rest, [last], r[i], r[j]);
        } else {
          assert r[i] == before[i] && before[i] in before && r[j] == last;
          FirstBeforeNew(rest, r[i], r[j]);
        }
      }
    }
  }

  // ----- the whole declaration

  /** The effects that are named; read or write when none is, by whether the operation is read-only. */
  ghost predicate EffectsOf(s: Spec, effects: seq<Effect>) {
    if exists e :: e in s.effects && e != BLANK_EFFECT then Tidied(s.effects, BLANK_EFFECT, effects)
    else effects == [if s.readOnly then Read else Write]
  }

  /** The author's renderings, tidied; for a compact operation without any, all of them. */
  ghost predicate RenderOf(s: Spec, render: Option<Render>) {
    match s.render
    case Some(r) => render.Some? && render.value.preferred == r.preferred && Tidied(r.formats, "", render.value.formats)
    case None => render == if s.compact then Some(Render("compact", ["text", "compact", "json", "yaml"])) else None
  }

  /** Every field of the normal form, by what the declaration says there and what holds where it says nothing. */
  ghost predicate Normalized(s: Spec, n: Spec) {
    && n.readOnly == s.readOnly && n.compact == s.compact
    && n.risk == (if s.risk != "" then s.risk else if s.readOnly then "low" else "medium")
    && n.idempotency == (if s.idempotency != "" then s.idempotency else if s.readOnly then "idempotent" else "unknown")
    && EffectsOf(s, n.effects) && RenderOf(s, n.render)
    && Tidied(s.authScopes, "", n.authScopes) && Tidied(s.secretPurposes, "", n.secretPurposes)
    && Exact(n.access, s.access, n.effects, n.secretPurposes)
  }

  lemma FirstIsIn<T>(s: seq<T>)
    ensures s != [] ==> s[0] in s
  {}

  lemma EffectsDefault(s: Spec)
    ensures EffectsOf(s, Normalize(s).effects)
  {
    var u := Unique(s.effects, BLANK_EFFECT);
    UniqueTidies(s.effects, BLANK_EFFECT);
    if e :| e in s.effects && e != BLANK_EFFECT {
      assert e in u;
    } else {
      FirstIsIn(u);
    }
  }

  lemma RenderDefault(s: Spec)
    ensures RenderOf(s, Normalize(s).render)
  {
    UniqueFixed(["text", "compact", "json", "yaml"], "");
    if s.render.Some? { UniqueTidies(s.render.value.formats, ""); }
  }

  /** Which defaults apply: read or write, low or medium risk, idempotent or unknown, by whether the operation is
      declared read-only; what is declared stays. */
  lemma DefaultsApply(s: Spec)
    ensures Normalized(s, Normalize(s))
  {
    UniqueTidies(s.authScopes, "");
    UniqueTidies(s.secretPurposes, "");
    EffectsDefault(s);
    RenderDefault(s);
    AccessIsExact(s);
  }

  /** `s` has in each field what the author says there, and what is generated only where the author says nothing. */
  predicate AuthorFirst(author: Spec, generated: Spec, s: Spec) {
    && s.input == (if author.input != Absent then author.input else generated.input)
    && s.effects == (if author.effects != [] then author.effects else generated.effects)
    && s.access == (if author.access != [] then author.access else generated.access)
    && s.authScopes == (if author.authScopes != [] then author.authScopes else generated.authScopes)
    && s.secretPurposes == (if author.secretPurposes != [] then author.secretPurposes else generated.secretPurposes)
    && s.risk == (if author.risk != "" then author.risk else generated.risk)
    && s.idempotency == (if author.idempotency != "" then author.idempotency else generated.idempotency)
    && s.render == (if author.render.Some? then author.render else generated.render)
    && (s.readOnly <==> author.readOnly || generated.readOnly)
    && (s.compact <==> author.compact || generated.compact)
  }

  /** In a merge the author wins field by field, and the defaults apply to what neither says. */
  lemma AuthorWins(author: Spec, generated: Spec)
    ensures exists s :: AuthorFirst(author, generated, s) && Normalized(s, Merge(author, generated))
                        && Merge(author, generated).input == NormalizeInput(s.input)
  {
    var s := Filled(author, generated);
    DefaultsApply(s);
    assert AuthorFirst(author, generated, s);
  }

  /** A merge with a declaration that says nothing is normalizing. */
  lemma MergeWithNothing(author: Spec)
    ensures Merge(author, WithScopes([])) == Normalize(author) == Merge(WithScopes([]), author)
  {
    assert Filled(author, WithScopes([])) == author && Filled(WithScopes([]), author) == author;
  }
}
