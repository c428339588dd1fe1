/** Normal form of a JSON schema: no `$schema` key anywhere, every `required` list sorted. */
module SchemaTree {
  import opened Text
  import opened Seqs
  import opened Sorting
  import opened JsonTree

  function TextOf(v: Json): string { if v.Str? then v.s else "" }

  predicate TextBefore(v: Json, w: Json) { Before(TextOf(v), TextOf(w)) }

  function SortRequired(m: map<string, Json>): map<string, Json> {
    if "required" in m && m["required"].Arr? then m["required" := Arr(StableSort(m["required"].items, TextBefore))]
    else m
  }

  function NormalizeSchema(v: Json): Json {
    match v
    case Obj(m) => Obj(SortRequired(map k | k in m && k != "$schema" :: NormalizeSchema(m[k])))
    case Arr(items) => Arr(seq(|items|, i requires 0 <= i < |items| => NormalizeSchema(items[i])))
    case _ => v
  }

  ghost predicate Normal(v: Json) {
    match v
    case Obj(m) =>
      && "$schema" !in m && (forall k :: k in m ==> Normal(m[k]))
      && ("required" in m && m["required"].Arr? ==> Sorted(m["required"].items, TextBefore))
    case Arr(items) => forall i :: 0 <= i < |items| ==> Normal(items[i])
    case _ => true
  }

  lemma Between(x: string, y: string, z: string)
    requires Before(x, z)
    ensures Before(x, y) || Before(y, z)
  {}

  lemma TextBeforeIsStrictWeak()
    ensures StrictWeak(TextBefore)
  {
    forall x: Json, y: Json ensures !TextBefore(x, x) && !(TextBefore(x, y) && TextBefore(y, x)) {
      BeforeTotal(TextOf(x), TextOf(y));
      BeforeTotal(TextOf(x), TextOf(x));
    }
    forall x: Json, y: Json, z: Json | TextBefore(x, y) && TextBefore(y, z) ensures TextBefore(x, z) {
      BeforeTransitive(TextOf(x), TextOf(y), TextOf(z));
    }
    forall x: Json, y: Json, z: Json | TextBefore(x, z) ensures TextBefore(x, y) || TextBefore(y, z) {
      Between(TextOf(x), TextOf(y), TextOf(z));
    }
  }

  lemma SortRequiredNormal(m: map<string, Json>)
    requires "$schema" !in m && forall k :: k in m ==> Normal(m[k])
    ensures Normal(Obj(SortRequired(m)))
  {
    if "required" in m && m["required"].Arr? {
      var items := m["required"].items;
      var sorted := StableSort(items, TextBefore);
      TextBeforeIsStrictWeak();
      SortSorts(items, TextBefore);
      SortPermutes(items, TextBefore);
      assert Normal(m["required"]);
      forall i | 0 <= i < |sorted| ensures Normal(sorted[i]) {
        assert sorted[i] in multiset(items);
      }
      assert Normal(Arr(sorted));
    }
  }

  /** Every normalized schema is in normal form. */
  lemma {:induction false} NormalizeGivesNormal(v: Json)
    ensures Normal(NormalizeSchema(v))
  {
    match v {
      case Obj(m) =>
        var n := map k | k in m && k != "$schema" :: NormalizeSchema(m[k]);
        forall k | k in n ensures Normal(n[k]) { NormalizeGivesNormal(m[k]); }
        SortRequiredNormal(n);
      case Arr(items) =>
        forall i | 0 <= i < |items| ensures Normal(NormalizeSchema(items[i])) { NormalizeGivesNormal(items[i]); }
      case _ => {}
    }
  }

  lemma {:induction false} SortKeepsSorted(s: seq<Json>)
    requires Sorted(s, TextBefore)
    ensures StableSort(s, TextBefore) == s
  {
    if s != [] {
      SortKeepsSorted(s[1..]);
    }
  }

  lemma {:induction false} NormalIsFixed(v: Json)
    requires Normal(v)
    ensures NormalizeSchema(v) == v
  {
    match v {
      case Obj(m) =>
        var n := map k | k in m && k != "$schema" :: NormalizeSchema(m[k]);
        forall k | k in m ensures NormalizeSchema(m[k]) == m[k] { NormalIsFixed(m[k]); }
        assert n == m;
        if "required" in m && m["required"].Arr? { SortKeepsSorted(m["required"].items); }
        assert SortRequired(m) == m;
      case Arr(items) =>
        forall i | 0 <= i < |items| ensures NormalizeSchema(items[i]) == items[i] { NormalIsFixed(items[i]); }
        assert NormalizeSchema(v).items == items;
      case _ => {}
    }
  }

  lemma NormalizeSchemaIsIdempotent(v: Json)
    ensures NormalizeSchema(NormalizeSchema(v)) == NormalizeSchema(v)
  {
    NormalizeGivesNormal(v);
    NormalIsFixed(NormalizeSchema(v));
  }

  lemma SameTails(m: multiset<Json>, n: multiset<Json>, x: Json)
    requires multiset{x} + m == multiset{x} + n
    ensures m == n
  {
    assert m == (multiset{x} + m) - multiset{x} && n == (multiset{x} + n) - multiset{x};
  }

  /** The sort in the source is not stable. For a list of strings that cannot show: every sorted
      arrangement of it is this one. */
  lemma {:induction false} RequiredSortIsUnique(s: seq<Json>, t: seq<Json>)
    requires multiset(s) == multiset(t) && Sorted(s, TextBefore) && Sorted(t, TextBefore)
    requires forall v :: v in s ==> v.Str?
    ensures s == t
  {
    assert |s| == |multiset(s)| == |multiset(t)| == |t|;
    if s != [] {
      assert s[0] in multiset(t) && t[0] in multiset(s);
      BeforeTotal(TextOf(s[0]), TextOf(t[0]));
      HeadTail(s);
      HeadTail(t);
      SameTails(multiset(s[1..]), multiset(t[1..]), s[0]);
      RequiredSortIsUnique(s[1..], t[1..]);
      assert s == [s[0]] + s[1..] && t == [t[0]] + t[1..];
    }
  }
}
