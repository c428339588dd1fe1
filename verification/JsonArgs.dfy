/** The `--arg key=value` loop: every argument is read, coerced by the operation's schema and set. */
module JsonArgs {
  import opened Text
  import opened Seqs
  import opened JsonTree
  import opened JsonInput

  // ----- the schema's say in what a value means

  datatype Field = Field(declared: Json, properties: map<string, Field>)

  /** The field a dotted path declares, through nested properties. */
  function FieldForPath(properties: map<string, Field>, path: seq<string>): Option<Field>
    requires path != []
    decreases |path|
  {
    if path[0] !in properties then None
    else if |path| == 1 then Some(properties[path[0]])
    else FieldForPath(properties[path[0]].properties, path[1..])
  }

  method WalkSchema(schema: Option<map<string, Field>>, path: seq<string>) returns (found: Option<Field>)
    ensures found == if schema.None? || path == [] then None else FieldForPath(schema.value, path)
  {
    if schema.None? || path == [] { return None; }
    var properties, i := schema.value, 0;
    found := None;
    while i < |path|
      invariant i <= |path|
      invariant i < |path| ==> FieldForPath(properties, path[i..]) == FieldForPath(schema.value, path)
      invariant i == |path| ==> found.Some? && found == FieldForPath(schema.value, path)
    {
      if path[i] !in properties { return None; }
      found := Some(properties[path[i]]);
      assert path[i..][1..] == path[i + 1..];
      if i < |path| - 1 { properties := found.value.properties; }
      i := i + 1;
    }
  }

  function NonNullTexts(items: seq<Json>): seq<string> {
    if items == [] then []
    else
      (if items[0].Str? && TrimSpace(items[0].s) != "null" then [TrimSpace(items[0].s)] else [])
      + NonNullTexts(items[1..])
  }

  /** The one scalar type a field declares, or "" when it declares none or several. */
  function DeclaredType(field: Field): string {
    match field.declared
    case Str(s) => TrimSpace(s)
    case Arr(items) => if |NonNullTexts(items)| == 1 then NonNullTexts(items)[0] else ""
    case _ => ""
  }

  /** `parse` reads JSON text; text that is not JSON stays text. */
  function ParseValue(raw: string, parse: string -> Option<Json>): Json {
    if raw != "" && parse(raw).Some? then parse(raw).value else Str(raw)
  }

  predicate DeclaredText(schema: Option<map<string, Field>>, path: seq<string>) {
    && path != [] && schema.Some?
    && var field := FieldForPath(schema.value, path); field.Some? && DeclaredType(field.value) == "string"
  }

  function Coerce(raw: string, schema: Option<map<string, Field>>, path: seq<string>,
                  parse: string -> Option<Json>): Json {
    if DeclaredText(schema, path) then
      var quoted := TrimSpace(raw);
      if "\"" <= quoted && parse(quoted).Some? && parse(quoted).value.Str? then parse(quoted).value else Str(raw)
    else ParseValue(raw, parse)
  }

  // ----- the loop

  type Path = p: seq<string> | p != [] witness [""]

  /** A value for a path. */
  datatype Setting = Setting(path: Path, value: Json)

  datatype Arg = Assigns(setting: Setting) | NoEquals | NoKey

  function ReadArg(arg: string, schema: Option<map<string, Field>>, parse: string -> Option<Json>): Arg {
    var h := Cut(arg, '=');
    if !h.found then NoEquals
    else if TrimSpace(h.before) == "" then NoKey
    else
      var path := Split(TrimSpace(h.before), '.');
      Assigns(Setting(path, Coerce(h.after, schema, path, parse)))
  }

  /** What the invocation gets, or what the user is told. Writing into the absent map that a base of
      JSON `null` decodes to is a runtime panic. */
  datatype Outcome = BaseUntouched | Built(o: Fields) | BaseNotObject | NotKeyValue(arg: string)
    | EmptyKey(arg: string) | NilMapWrite

  type Settings = seq<Setting>

  function SetAll(o: Fields, settings: Settings): Fields
    decreases |settings|
  {
    if settings == [] then o
    else SetAll(Set(o, settings[0].path, settings[0].value), settings[1..])
  }

  lemma {:induction false} SetAllNext(o: Fields, settings: Settings, more: Settings)
    ensures SetAll(o, settings + more) == SetAll(SetAll(o, settings), more)
    decreases |settings|
  {
    if settings == [] {
      assert settings + more == more;
    } else {
      assert (settings + more)[1..] == settings[1..] + more;
      SetAllNext(Set(o, settings[0].path, settings[0].value), settings[1..], more);
    }
  }

  lemma SetAllOneMore(o: Fields, settings: Settings, a: Setting)
    ensures SetAll(o, settings + [a]) == Set(SetAll(o, settings), a.path, a.value)
  {
    SetAllNext(o, settings, [a]);
    assert [a][1..] == [];
  }

  /** The settings of the arguments before the first malformed one. */
  ghost predicate ReadsAs(args: seq<string>, settings: Settings, read: string -> Arg) {
    |settings| <= |args| && forall i :: 0 <= i < |settings| ==> read(args[i]) == Assigns(settings[i])
  }

  /** Why the loop ends at an argument. */
  function Complaint(arg: string, read: Arg): Outcome {
    match read
    case NoEquals => NotKeyValue(arg)
    case NoKey => EmptyKey(arg)
    case Assigns(_) => NilMapWrite
  }

  /** The loop from a start object; no start object is the absent map. */
  method FoldArgs(start: Option<Fields>, args: seq<string>, read: string -> Arg)
    returns (out: Outcome, ghost settings: Settings)
    requires args != []
    ensures ReadsAs(args, settings, read) && !out.BaseUntouched? && !out.BaseNotObject?
    ensures start.None? ==> settings == []
    ensures |settings| == |args| ==> start.Some? && out == Built(SetAll(start.value, settings))
    ensures |settings| < |args| ==>
              var stop := read(args[|settings|]);
              out == Complaint(args[|settings|], stop) && (stop.Assigns? ==> start.None?)
  {
    settings := [];
    var obj: Fields := if start.Some? then start.value else map[];
    var i := 0;
    while i < |args|
      invariant |settings| == i <= |args| && ReadsAs(args, settings, read)
      invariant start.Some? ==> obj == SetAll(start.value, settings)
      invariant start.None? ==> i == 0
    {
      var arg := read(args[i]);
      if !arg.Assigns? || start.None? { return Complaint(args[i], arg), settings; }
      var a := arg.setting;
      SetAllOneMore(start.value, settings, a);
      obj := Set(obj, a.path, a.value);
      settings := settings + [a];
      i := i + 1;
    }
    return Built(obj), settings;
  }

  /** The whole assembly: without arguments the base is passed on whatever it is; with arguments it must be
      an object, and the first malformed argument is the one reported. */
  method BuildInput(base: Option<Json>, args: seq<string>, schema: Option<map<string, Field>>,
                    parse: string -> Option<Json>)
    returns (out: Outcome, ghost settings: Settings)
    ensures ReadsAs(args, settings, arg => ReadArg(arg, schema, parse))
    ensures args == [] <==> out == BaseUntouched
    ensures out == BaseNotObject <==> args != [] && base.Some? && !base.value.Obj? && !base.value.Null?
    ensures out.Built? ==>
              && |settings| == |args| && (base.Some? ==> base.value.Obj?)
              && out.o == SetAll(if base.Some? then base.value.fields else map[], settings)
    ensures out == NilMapWrite <==> base == Some(Null) && args != [] && ReadArg(args[0], schema, parse).Assigns?
    ensures (out.NotKeyValue? || out.EmptyKey?) ==>
              && |settings| < |args| && out.arg == args[|settings|]
              && ReadArg(out.arg, schema, parse) == if out.NotKeyValue? then NoEquals else NoKey
  {
    settings := [];
    if args == [] { return BaseUntouched, settings; }
    if base.Some? && !base.value.Obj? && !base.value.Null? { return BaseNotObject, settings; }
    var start := if base.None? then Some(map[]) else if base.value.Obj? then Some(base.value.fields) else None;
    out, settings := FoldArgs(start, args, arg => ReadArg(arg, schema, parse));
  }

  /** A plain argument is well-formed, so that a base of `null` and this argument make the loop panic. */
  lemma PlainArgAssigns(schema: Option<map<string, Field>>, parse: string -> Option<Json>)
    ensures ReadArg("a=b", schema, parse).Assigns?
  {
    assert Cut("a=b", '=') == Halves("a", "b", true);
    TrimmedFixed("a");
  }

  // ----- what the loop builds

  lemma {:induction false} LaterSpare(o: Fields, p: seq<string>, later: Settings)
    requires p != [] && ThroughObjects(o, p)
    requires forall j :: 0 <= j < |later| ==> Diverge(p, later[j].path)
    ensures Extract(Obj(SetAll(o, later)), p) == Extract(Obj(o), p)
    decreases |later|
  {
    if later != [] {
      SetSpares(o, p, later[0].path, later[0].value);
      LaterSpare(Set(o, later[0].path, later[0].value), p, later[1..]);
    }
  }

  /** An argument's value is found at its path unless a later argument's path continues it or is continued by it. */
  lemma ArgIsFound(o: Fields, settings: Settings, i: nat)
    requires i < |settings|
    requires forall j :: i < j < |settings| ==> Diverge(settings[i].path, settings[j].path)
    ensures Extract(Obj(SetAll(o, settings)), settings[i].path) == Some(settings[i].value)
  {
    var earlier, later := SetAll(o, settings[..i]), settings[i + 1..];
    var p, v := settings[i].path, settings[i].value;
    assert settings == settings[..i] + ([settings[i]] + later);
    SetAllNext(o, settings[..i], [settings[i]] + later);
    assert ([settings[i]] + later)[1..] == later;
    SetGoesThroughObjects(earlier, p, v);
    LaterSpare(Set(earlier, p, v), p, later);
    assert p + [] == p;
    SetThenGet(earlier, p, v, []);
  }

  /** A declared string that is not quoted reaches the operation as the text that was typed. */
  lemma DeclaredTextSurvives(o: Fields, args: seq<string>, settings: Settings, i: nat,
                             schema: Option<map<string, Field>>, parse: string -> Option<Json>)
    requires i < |settings| == |args|
    requires forall j :: 0 <= j < |args| ==> Assigns(settings[j]) == ReadArg(args[j], schema, parse)
    requires forall j :: i < j < |settings| ==> Diverge(settings[i].path, settings[j].path)
    requires DeclaredText(schema, settings[i].path) && !("\"" <= TrimSpace(Cut(args[i], '=').after))
    ensures Extract(Obj(SetAll(o, settings)), settings[i].path) == Some(Str(Cut(args[i], '=').after))
  {
    ArgIsFound(o, settings, i);
  }

  // ----- the order of arguments

  ghost predicate AllDiverge(settings: Settings) {
    forall i, j :: 0 <= i < j < |settings| ==> Diverge(settings[i].path, settings[j].path)
  }

  lemma {:induction false} MoveToFront(o: Fields, settings: Settings, k: nat)
    requires k < |settings| && forall i :: 0 <= i < k ==> Diverge(settings[i].path, settings[k].path)
    ensures SetAll(o, settings)
            == SetAll(Set(o, settings[k].path, settings[k].value), settings[..k] + settings[k + 1..])
    decreases k
  {
    var rest: Settings := settings[..k] + settings[k + 1..];
    if k == 0 {
      assert rest == settings[1..];
    } else {
      var a, b := settings[0], settings[k];
      MoveToFront(Set(o, a.path, a.value), settings[1..], k - 1);
      assert rest[1..] == settings[1..][..k - 1] + settings[1..][k..];
      SetsCommute(o, a.path, a.value, b.path, b.value);
    }
  }

  lemma {:induction false} PermutedDiverge(s: Settings, t: Settings)
    requires multiset(s) == multiset(t) && AllDiverge(s)
    ensures AllDiverge(t)
    decreases |s|
  {
    if s == [] {
      assert |t| == |multiset(t)| == |multiset(s)| == 0;
    } else {
      var k := SameHead(s, t);
      var rest: Settings := t[..k] + t[k + 1..];
      PermutedDiverge(s[1..], rest);
      forall i | 0 <= i < |rest| ensures Diverge(s[0].path, rest[i].path) {
        assert rest[i] in multiset(rest);
        assert rest[i] in s[1..];
      }
      forall i, j | 0 <= i < j < |t| ensures Diverge(t[i].path, t[j].path) {
        var i', j' := if i > k then i - 1 else i, if j > k then j - 1 else j;
        assert i != k ==> rest[i'] == t[i];
        assert j != k ==> rest[j'] == t[j];
      }
    }
  }

  /** Arguments with pairwise diverging paths build the same object in every order. */
  lemma {:induction false} ArgOrderIrrelevant(o: Fields, s: Settings, t: Settings)
    requires multiset(s) == multiset(t) && AllDiverge(s)
    ensures SetAll(o, s) == SetAll(o, t)
    decreases |s|
  {
    if s == [] {
      assert |t| == |multiset(t)| == |multiset(s)| == 0;
    } else {
      var k := SameHead(s, t);
      var rest: Settings := t[..k] + t[k + 1..];
      var tail: Settings := s[1..];
      PermutedDiverge(s, t);
      assert AllDiverge(tail);
      ArgOrderIrrelevant(Set(o, s[0].path, s[0].value), tail, rest);
      MoveToFront(o, t, k);
    }
  }
}
