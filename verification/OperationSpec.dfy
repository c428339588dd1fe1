/** The normal form every operation declaration is brought to before it is published or compared. */
module OperationSpec {
  import opened Text
  import opened JsonTree
  import opened SchemaTree

  datatype Access = NoAccess | Auth | Secret | Network | Process | Browser | Filesystem | LocalSystem
    | OtherAccess(name: string)

  datatype Effect = Read | Write | UsesNetwork | UsesProcess | UsesBrowser | UsesFilesystem | UsesLocalSystem
    | OtherEffect(name: string)

  const BLANK_ACCESS := OtherAccess("")
  const BLANK_EFFECT := OtherEffect("")

  datatype Render = Render(preferred: string, formats: seq<string>)

  /** An input schema: none, bytes that are not JSON, or a JSON document. */
  datatype Input = Absent | Invalid(text: string) | Doc(v: Json)

  datatype Spec = Spec(input: Input, effects: seq<Effect>, access: seq<Access>, authScopes: seq<string>,
                       secretPurposes: seq<string>, readOnly: bool, risk: string, idempotency: string,
                       compact: bool, render: Option<Render>)

  // ----- lists without blanks or repeats

  /** The values that are not blank, each at its first place. */
  function Unique<T(==, !new)>(values: seq<T>, blank: T): (r: seq<T>)
    ensures forall x :: x in r <==> x in values && x != blank
    ensures forall i, j :: 0 <= i < j < |r| ==> r[i] != r[j]
  {
    if values == [] then []
    else
      var r := Unique(values[..|values| - 1], blank);
      var last := values[|values| - 1];
      assert values == values[..|values| - 1] + [last];
      if last == blank || last in r then r else r + [last]
  }

  method UniqueValues<T(==, !new)>(values: seq<T>, blank: T) returns (out: seq<T>)
    ensures out == Unique(values, blank)
  {
    var seen: set<T> := {};
    out := [];
    for i := 0 to |values|
      invariant out == Unique(values[..i], blank)
      invariant forall x :: x in seen <==> x in out
    {
      assert values[..i + 1][..i] == values[..i];
      if values[i] != blank && values[i] !in seen {
        seen := seen + {values[i]};
        out := out + [values[i]];
      }
    }
    assert values[..|values|] == values;
  }

  lemma {:induction false} UniqueFixed<T(!new)>(values: seq<T>, blank: T)
    requires blank !in values && forall i, j :: 0 <= i < j < |values| ==> values[i] != values[j]
    ensures Unique(values, blank) == values
  {
    if values != [] {
      var rest := values[..|values| - 1];
      UniqueFixed(rest, blank);
      assert values == rest + [values[|values| - 1]];
    }
  }

  // ----- access

  function Ensure(values: seq<Access>, a: Access): seq<Access> { if a in values then values else values + [a] }

  method EnsureAccess(values: seq<Access>, candidate: Access) returns (out: seq<Access>)
    ensures out == Ensure(values, candidate)
  {
    for i := 0 to |values|
      invariant candidate !in values[..i]
    {
      if values[i] == candidate { return values; }
    }
    assert values[..|values|] == values;
    out := values + [candidate];
  }

  function Without(values: seq<Access>, a: Access): (r: seq<Access>)
    ensures forall x :: x in r <==> x in values && x != a
  {
    if values == [] then []
    else
      var last := values[|values| - 1];
      assert values == values[..|values| - 1] + [last];
      Without(values[..|values| - 1], a) + if last == a then [] else [last]
  }

  /** The source filters into the slice it reads. */
  method RemoveAccess(values: array<Access>, candidate: Access) returns (n: nat)
    modifies values
    ensures n <= values.Length && values[..n] == Without(old(values[..]), candidate)
  {
    ghost var was := values[..];
    n := 0;
    for i := 0 to values.Length
      invariant n <= i
      invariant values[..n] == Without(was[..i], candidate)
      invariant values[i..] == was[i..]
    {
      assert was[..i + 1][..i] == was[..i];
      assert values[i] == values[i..][0] == was[i];
      assert values[i + 1..] == values[i..][1..];
      if values[i] != candidate {
        values[n] := values[i];
        n := n + 1;
      }
    }
    assert was[..values.Length] == was;
  }

  function Implied(e: Effect): Option<Access> {
    match e
    case UsesNetwork => Some(Network)
    case UsesProcess => Some(Process)
    case UsesBrowser => Some(Browser)
    case UsesFilesystem => Some(Filesystem)
    case UsesLocalSystem => Some(LocalSystem)
    case _ => None
  }

  function EnsureImplied(access: seq<Access>, effects: seq<Effect>): seq<Access> {
    if effects == [] then access
    else
      var a := EnsureImplied(access, effects[..|effects| - 1]);
      var implied := Implied(effects[|effects| - 1]);
      if implied.Some? then Ensure(a, implied.value) else a
  }

  function EnsureSecrets(access: seq<Access>, purposes: seq<string>): seq<Access> {
    if purposes == [] then access else Ensure(Ensure(access, Secret), Auth)
  }

  function SettleNone(access: seq<Access>): seq<Access> {
    if access == [] then [NoAccess] else if |access| > 1 then Without(access, NoAccess) else access
  }

  /** The access list for what is named, implied and secret. */
  function Settled(access: seq<Access>, effects: seq<Effect>, purposes: seq<string>): seq<Access> {
    SettleNone(EnsureSecrets(EnsureImplied(Unique(access, BLANK_ACCESS), effects), purposes))
  }

  // ----- the input schema

  const ENDPOINT_REF := Obj(map["type" := Str("string"),
                               "description" :=
                                  Str("Registered endpoint ref resolved by the host before invoking the operation.")])

  /** A schema of an object input, or of one that does not say: those get the endpoint reference. */
  predicate ObjectInput(v: Json) {
    v.Null? || (v.Obj? && ("type" in v.fields && v.fields["type"].Str? ==> v.fields["type"].s in {"", "object"}))
  }

  function WithEndpointRef(m: map<string, Json>): map<string, Json> {
    var properties := if "properties" in m && m["properties"].Obj? then m["properties"].fields else map[];
    m["type" := Str("object")]
     ["properties" :=
        Obj(if "endpoint_ref" in properties then properties else properties["endpoint_ref" := ENDPOINT_REF])]
  }

  function NormalizeInput(i: Input): Input {
    var given := if i.Absent? then Doc(Obj(map["properties" := Obj(map[]), "type" := Str("object")])) else i;
    if given.Doc? && ObjectInput(given.v) then
      Doc(NormalizeSchema(Obj(WithEndpointRef(if given.v.Null? then map[] else given.v.fields))))
    else given
  }

  // ----- the whole declaration

  function DefaultRender(s: Spec): Option<Render> {
    if s.render.None? && s.compact then Some(Render("compact", ["text", "compact", "json", "yaml"])) else s.render
  }

  /** The declaration with every default filled in and every list settled. */
  function Normalize(s: Spec): Spec {
    var effects := Unique(s.effects, BLANK_EFFECT);
    var purposes := Unique(s.secretPurposes, "");
    var given := if effects == [] then [if s.readOnly then Read else Write] else effects;
    var render := DefaultRender(s);
    Spec(NormalizeInput(s.input), given,
         Settled(s.access, given, purposes),
         Unique(s.authScopes, ""), purposes, s.readOnly,
         if s.risk == "" then (if s.readOnly then "low" else "medium") else s.risk,
         if s.idempotency == "" then (if s.readOnly then "idempotent" else "unknown") else s.idempotency,
         s.compact,
         if render.Some? then Some(render.value.(formats := Unique(render.value.formats, ""))) else None)
  }

  method SettleAccess(given: seq<Access>, effects: seq<Effect>, secretPurposes: seq<string>)
    returns (access: seq<Access>)
    ensures access == SettleNone(EnsureSecrets(EnsureImplied(given, effects), secretPurposes))
  {
    access := given;
    for i := 0 to |effects|
      invariant access == EnsureImplied(given, effects[..i])
    {
      assert effects[..i + 1][..i] == effects[..i];
      match effects[i] {
        case UsesNetwork => access := EnsureAccess(access, Network);
        case UsesProcess => access := EnsureAccess(access, Process);
        case UsesBrowser => access := EnsureAccess(access, Browser);
        case UsesFilesystem => access := EnsureAccess(access, Filesystem);
        case UsesLocalSystem => access := EnsureAccess(access, LocalSystem);
        case _ => {}
      }
    }
    assert effects[..|effects|] == effects;
    if |secretPurposes| > 0 {
      access := EnsureAccess(access, Secret);
      access := EnsureAccess(access, Auth);
    }
    if |access| == 0 {
      access := [NoAccess];
    } else if |access| > 1 {
      var slice := new Access[|access|](i requires 0 <= i < |access| => access[i]);
      assert slice[..] == access;
      var n := RemoveAccess(slice, NoAccess);
      access := slice[..n];
    }
  }

  method NormalizeOperationSpec(given: Spec) returns (spec: Spec)
    ensures spec == Normalize(given)
  {
    spec := given.(input := NormalizeInput(given.input));
    var effects := UniqueValues(spec.effects, BLANK_EFFECT);
    var access := UniqueValues(spec.access, BLANK_ACCESS);
    var authScopes := UniqueValues(spec.authScopes, "");
    var secretPurposes := UniqueValues(spec.secretPurposes, "");
    spec := spec.(authScopes := authScopes, secretPurposes := secretPurposes);
    if |effects| == 0 {
      effects := if spec.readOnly then [Read] else [Write];
    }
    spec := spec.(effects := effects);
    if spec.risk == "" { spec := spec.(risk := if spec.readOnly then "low" else "medium"); }
    if spec.idempotency == "" { spec := spec.(idempotency := if spec.readOnly then "idempotent" else "unknown"); }
    access := SettleAccess(access, effects, secretPurposes);
    spec := spec.(access := access);
    if spec.render.None? && spec.compact {
      spec := spec.(render := Some(Render("compact", ["text", "compact", "json", "yaml"])));
    }
    if spec.render.Some? {
      var formats := UniqueValues(spec.render.value.formats, "");
      spec := spec.(render := Some(spec.render.value.(formats := formats)));
    }
  }
}
