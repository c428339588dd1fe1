/** What an `--arg key=value` means, said of its text and of the schema. */
module JsonArgLaws {
  import opened Text
  import opened TextLaws
  import opened JsonTree
  import opened JsonInput
  import opened JsonLookup
  import opened JsonArgs

  // ----- the schema's say

  /** Field `i` is the property that the path names there, of the schema or of the field before. */
  predicate Link(properties: map<string, Field>, path: seq<string>, fields: seq<Field>, i: int) {
    && 0 <= i < |path| == |fields|
    && var there := if i == 0 then properties else fields[i - 1].properties;
       path[i] in there && there[path[i]] == fields[i]
  }

  /** `fields` are the fields along a path. */
  ghost predicate Chain(properties: map<string, Field>, path: seq<string>, fields: seq<Field>) {
    |fields| == |path| && forall i :: 0 <= i < |path| ==> Link(properties, path, fields, i)
  }

  lemma ChainTail(properties: map<string, Field>, path: seq<string>, fields: seq<Field>)
    requires path != [] && |fields| == |path| && Link(properties, path, fields, 0)
    ensures Chain(properties, path, fields) <==> Chain(fields[0].properties, path[1..], fields[1..])
  {
    forall i | 0 <= i < |path| - 1
      ensures Link(properties, path, fields, i + 1) <==> Link(fields[0].properties, path[1..], fields[1..], i)
    {
      assert path[1..][i] == path[i + 1] && fields[1..][i] == fields[i + 1];
    }
    if Chain(fields[0].properties, path[1..], fields[1..]) {
      forall i | 0 <= i < |path| ensures Link(properties, path, fields, i) {
        if i > 0 { assert Link(fields[0].properties, path[1..], fields[1..], i - 1); }
      }
    }
  }

  lemma {:induction false} FoundIsChain(properties: map<string, Field>, path: seq<string>) returns (fields: seq<Field>)
    requires path != [] && FieldForPath(properties, path).Some?
    ensures Chain(properties, path, fields) && fields != []
            && FieldForPath(properties, path) == Some(fields[|fields| - 1])
    decreases |path|
  {
    var first := properties[path[0]];
    if |path| == 1 {
      fields := [first];
    } else {
      var rest := FoundIsChain(first.properties, path[1..]);
      fields := [first] + rest;
      assert fields[1..] == rest;
      ChainTail(properties, path, fields);
    }
  }

  lemma {:induction false} ChainIsFound(properties: map<string, Field>, path: seq<string>, fields: seq<Field>)
    requires path != [] && Chain(properties, path, fields)
    ensures FieldForPath(properties, path) == Some(fields[|fields| - 1])
    decreases |path|
  {
    assert Link(properties, path, fields, 0);
    if |path| > 1 {
      ChainTail(properties, path, fields);
      ChainIsFound(fields[0].properties, path[1..], fields[1..]);
    }
  }

  /** The field of a dotted path is the last of the chain of properties that the path names. */
  lemma FieldIsNested(properties: map<string, Field>, path: seq<string>, field: Field)
    requires path != []
    ensures FieldForPath(properties, path) == Some(field) <==>
            exists fields :: Chain(properties, path, fields) && fields != [] && fields[|fields| - 1] == field
  {
    if FieldForPath(properties, path).Some? {
      var fields := FoundIsChain(properties, path);
    }
    forall fields | Chain(properties, path, fields) && fields != []
      ensures FieldForPath(properties, path) == Some(fields[|fields| - 1])
    {
      ChainIsFound(properties, path, fields);
    }
  }

  /** The text at `i` is `t`, and every other text in the list is "null". */
  predicate OnlyText(items: seq<Json>, i: int, t: string) {
    && 0 <= i < |items| && items[i].Str? && TrimSpace(items[i].s) == t && t != "null"
    && forall j :: 0 <= j < |items| && j != i && items[j].Str? ==> TrimSpace(items[j].s) == "null"
  }

  lemma {:induction false} NoTexts(items: seq<Json>)
    ensures NonNullTexts(items) == [] <==>
            forall j :: 0 <= j < |items| && items[j].Str? ==> TrimSpace(items[j].s) == "null"
  {
    if items != [] {
      NoTexts(items[1..]);
      if NonNullTexts(items) == [] {
        forall j | 0 <= j < |items| && items[j].Str? ensures TrimSpace(items[j].s) == "null" {
          assert j > 0 ==> items[j] == items[1..][j - 1];
        }
      }
    }
  }

  /** Behind a first item without a say, the only text is one place further on. */
  lemma OnlyTextLater(items: seq<Json>, i: int, t: string)
    requires items != [] && !(items[0].Str? && TrimSpace(items[0].s) != "null")
    ensures OnlyText(items[1..], i, t) <==> 0 <= i && OnlyText(items, i + 1, t)
  {
    assert forall j :: 0 <= j < |items| - 1 ==> items[1..][j] == items[j + 1];
    if OnlyText(items[1..], i, t) {
      forall j | 0 <= j < |items| && j != i + 1 && items[j].Str? ensures TrimSpace(items[j].s) == "null" {
        if j > 0 { assert items[1..][j - 1] == items[j]; }
      }
    }
  }

  lemma OnlyTextFirst(items: seq<Json>, i: int, t: string)
    requires items != [] && items[0].Str? && TrimSpace(items[0].s) != "null"
    ensures OnlyText(items, i, t) <==>
            i == 0 && TrimSpace(items[0].s) == t && NonNullTexts(items[1..]) == []
  {
    NoTexts(items[1..]);
    assert forall j :: 0 <= j < |items| - 1 ==> items[1..][j] == items[j + 1];
    if i == 0 && NonNullTexts(items[1..]) == [] {
      forall j | 0 <= j < |items| && j != 0 && items[j].Str? ensures TrimSpace(items[j].s) == "null" {
        assert items[1..][j - 1] == items[j];
      }
    }
  }

  lemma {:induction false} OneText(items: seq<Json>, t: string)
    ensures NonNullTexts(items) == [t] <==> exists i :: OnlyText(items, i, t)
  {
    if items != [] {
      var rest := NonNullTexts(items[1..]);
      if items[0].Str? && TrimSpace(items[0].s) != "null" {
        forall i ensures OnlyText(items, i, t) <==> i == 0 && TrimSpace(items[0].s) == t && rest == [] {
          OnlyTextFirst(items, i, t);
        }
        var texts := [TrimSpace(items[0].s)] + rest;
        assert texts == [t] <==> texts[0] == t && texts[1..] == [];
        assert OnlyText(items, 0, t) <==> TrimSpace(items[0].s) == t && rest == [];
      } else {
        OneText(items[1..], t);
        forall i ensures OnlyText(items[1..], i, t) <==> 0 <= i && OnlyText(items, i + 1, t) {
          OnlyTextLater(items, i, t);
        }
        if i :| OnlyText(items, i, t) {
          assert i > 0 && OnlyText(items[1..], i - 1, t);
        }
      }
    }
  }

  /** A field is declared a string: its type is "string", or a list whose only text but "null" is "string". */
  ghost predicate IsString(field: Field) {
    match field.declared
    case Str(s) => TrimSpace(s) == "string"
    case Arr(items) => exists i :: OnlyText(items, i, "string")
    case _ => false
  }

  lemma DeclaredTypeIsString(field: Field)
    ensures DeclaredType(field) == "string" <==> IsString(field)
  {
    if field.declared.Arr? {
      OneText(field.declared.items, "string");
      var texts := NonNullTexts(field.declared.items);
      assert |texts| == 1 ==> texts == [texts[0]];
    }
  }

  // ----- one argument

  /** What the text behind the '=' becomes: for a declared string the text itself, or what a JSON string in it says;
      otherwise what it says as JSON, and the text itself where it says nothing. */
  predicate Means(text: string, declared: bool, parse: string -> Option<Json>, v: Json) {
    if declared then
      var quoted := TrimSpace(text);
      if quoted != "" && quoted[0] == '"' && parse(quoted).Some? && parse(quoted).value.Str? then
        Some(v) == parse(quoted)
      else v == Str(text)
    else if text != "" && parse(text).Some? then Some(v) == parse(text)
    else v == Str(text)
  }

  ghost predicate StringAt(schema: Option<map<string, Field>>, path: seq<string>) {
    schema.Some? && exists fields :: Chain(schema.value, path, fields) && fields != [] && IsString(fields[|fields| - 1])
  }

  lemma DeclaredTextIsStringAt(schema: Option<map<string, Field>>, path: seq<string>)
    requires path != []
    ensures DeclaredText(schema, path) <==> StringAt(schema, path)
  {
    if schema.Some? {
      if DeclaredText(schema, path) {
        var fields := FoundIsChain(schema.value, path);
        DeclaredTypeIsString(fields[|fields| - 1]);
      }
      forall fields | Chain(schema.value, path, fields) && fields != [] && IsString(fields[|fields| - 1])
        ensures DeclaredText(schema, path)
      {
        ChainIsFound(schema.value, path, fields);
        DeclaredTypeIsString(fields[|fields| - 1]);
      }
    }
  }

  /** An argument "key=text": the key, trimmed, is the dotted path, up to the first '='. */
  lemma ArgAssigns(key: string, text: string, path: seq<string>, schema: Option<map<string, Field>>,
                   parse: string -> Option<Json>, v: Json)
    requires '=' !in key && path != [] && (forall i :: 0 <= i < |path| ==> '.' !in path[i])
    requires TrimSpace(key) == Join(path, '.') != "" && Means(text, StringAt(schema, path), parse, v)
    ensures ReadArg(key + "=" + text, schema, parse) == Assigns(Setting(path, v))
  {
    CutAtFirst(key, text, '=');
    SplitOfJoin(path, '.');
    DeclaredTextIsStringAt(schema, path);
  }

  /** An argument is refused exactly when it has no '=', or nothing but blanks before it. */
  lemma ArgIsRefused(key: string, text: string, schema: Option<map<string, Field>>, parse: string -> Option<Json>)
    requires '=' !in key
    ensures ReadArg(key, schema, parse) == NoEquals
    ensures ReadArg(key + "=" + text, schema, parse) == NoKey <==> TrimSpace(key) == ""
    ensures ReadArg(key + "=" + text, schema, parse) != NoEquals
  {
    CutAtFirst(key, text, '=');
  }

  /** What an argument's text means arrives at its path, unless a later argument's path continues it or is continued
      by it: a value that parses as the parsed one, where the schema does not declare a string. */
  lemma MeaningArrives(o: Fields, args: seq<string>, settings: Settings, i: nat, key: string, text: string,
                       schema: Option<map<string, Field>>, parse: string -> Option<Json>)
    requires i < |settings| == |args|
    requires forall j :: 0 <= j < |args| ==> Assigns(settings[j]) == ReadArg(args[j], schema, parse)
    requires forall j :: i < j < |settings| ==> Diverge(settings[i].path, settings[j].path)
    requires '=' !in key && args[i] == key + "=" + text
    ensures var p := settings[i].path;
            && Join(p, '.') == TrimSpace(key)
            && Extract(Obj(SetAll(o, settings)), p).Some?
            && Means(text, StringAt(schema, p), parse, Extract(Obj(SetAll(o, settings)), p).value)
  {
    CutAtFirst(key, text, '=');
    JoinOfSplit(TrimSpace(key), '.');
    DeclaredTextIsStringAt(schema, settings[i].path);
    ArgIsFound(o, settings, i);
  }
}
