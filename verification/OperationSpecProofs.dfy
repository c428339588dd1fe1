/** What the normal form of an operation declaration guarantees. */
module OperationSpecProofs {
  import opened Text
  import opened Sorting
  import opened JsonTree
  import opened SchemaTree
  import opened OperationSpec

  ghost predicate Distinct<T>(s: seq<T>) { forall i, j :: 0 <= i < j < |s| ==> s[i] != s[j] }

  // ----- access

  /** Which effect needs which access. */
  predicate Needs(e: Effect, a: Access) {
    (e, a) in {(UsesNetwork, Network), (UsesProcess, Process), (UsesBrowser, Browser), (UsesFilesystem, Filesystem),
               (UsesLocalSystem, LocalSystem)}
  }

  ghost predicate SomeNeeds(effects: seq<Effect>, a: Access) { exists e :: e in effects && Needs(e, a) }

  lemma ImpliedIsNeeded(e: Effect, a: Access)
    ensures Implied(e) == Some(a) <==> Needs(e, a)
  {}

  lemma {:induction false} EnsureImpliedMembers(access: seq<Access>, effects: seq<Effect>)
    requires Distinct(access)
    ensures Distinct(EnsureImplied(access, effects))
    ensures forall a :: a in EnsureImplied(access, effects) <==> a in access || SomeNeeds(effects, a)
    decreases |effects|
  {
    if effects != [] {
      var last := effects[|effects| - 1];
      EnsureImpliedMembers(access, effects[..|effects| - 1]);
      assert effects == effects[..|effects| - 1] + [last];
      forall a ensures SomeNeeds(effects, a) <==> SomeNeeds(effects[..|effects| - 1], a) || Implied(last) == Some(a) {
        ImpliedIsNeeded(last, a);
      }
    }
  }

  lemma {:induction false} EnsureImpliedFixed(access: seq<Access>, effects: seq<Effect>)
    requires forall e :: e in effects && Implied(e).Some? ==> Implied(e).value in access
    ensures EnsureImplied(access, effects) == access
    decreases |effects|
  {
    if effects != [] {
      EnsureImpliedFixed(access, effects[..|effects| - 1]);
    }
  }

  lemma {:induction false} WithoutKeepsDistinct(s: seq<Access>, a: Access)
    requires Distinct(s)
    ensures Distinct(Without(s, a))
    ensures a !in s ==> Without(s, a) == s
  {
    if s != [] {
      var rest, last := s[..|s| - 1], s[|s| - 1];
      var r := Without(rest, a);
      WithoutKeepsDistinct(rest, a);
      assert s == rest + [last];
      forall i | 0 <= i < |r| ensures r[i] != last {
        assert r[i] in rest;
      }
    }
  }

  /** What declared lists call for: an access that is named, one that an effect needs, or, when there
      are secret purposes, secret and auth access. */
  ghost predicate Calls(access: seq<Access>, effects: seq<Effect>, purposes: seq<string>, a: Access) {
    || (a in access && a != BLANK_ACCESS)
    || SomeNeeds(effects, a)
    || (purposes != [] && (a == Secret || a == Auth))
  }

  lemma EnsureMembers(s: seq<Access>, a: Access)
    requires Distinct(s)
    ensures Distinct(Ensure(s, a)) && forall x :: x in Ensure(s, a) <==> x == a || x in s
  {}

  lemma GatheredMembers(access: seq<Access>, effects: seq<Effect>, purposes: seq<string>)
    ensures var g := EnsureSecrets(EnsureImplied(Unique(access, BLANK_ACCESS), effects), purposes);
            Distinct(g) && forall a :: a in g <==> Calls(access, effects, purposes, a)
  {
    var u := Unique(access, BLANK_ACCESS);
    EnsureImpliedMembers(u, effects);
    EnsureMembers(EnsureImplied(u, effects), Secret);
    EnsureMembers(Ensure(EnsureImplied(u, effects), Secret), Auth);
  }

  lemma SettleNoneMembers(access: seq<Access>)
    requires Distinct(access)
    ensures var r := SettleNone(access);
            && r != [] && Distinct(r) && (NoAccess in r ==> r == [NoAccess])
            && (forall a :: a != NoAccess ==> (a in r <==> a in access))
            && (NoAccess in r <==> forall a :: a in access ==> a == NoAccess)
  {
    WithoutKeepsDistinct(access, NoAccess);
    if |access| > 1 {
      var other := if access[0] != NoAccess then access[0] else access[1];
      assert other in access && other != NoAccess;
      assert other in Without(access, NoAccess);
    } else if |access| == 1 {
      assert access == [access[0]];
      assert SettleNone(access) == access;
      assert access[0] in access;
    }
  }

  ghost predicate Exact(r: seq<Access>, access: seq<Access>, effects: seq<Effect>, purposes: seq<string>) {
    && r != [] && Distinct(r) && (NoAccess in r ==> r == [NoAccess])
    && (forall a :: a != NoAccess ==> (a in r <==> Calls(access, effects, purposes, a)))
    && (NoAccess in r <==> forall a :: Calls(access, effects, purposes, a) ==> a == NoAccess)
  }

  lemma SettledIsExact(access: seq<Access>, effects: seq<Effect>, purposes: seq<string>)
    ensures Exact(Settled(access, effects, purposes), access, effects, purposes)
  {
    GatheredMembers(access, effects, purposes);
    SettleNoneMembers(EnsureSecrets(EnsureImplied(Unique(access, BLANK_ACCESS), effects), purposes));
  }

  /** The access list is never empty and repeats nothing; it holds exactly what the declaration calls for,
      except that "none" stands only alone, exactly when nothing else is called for. */
  lemma AccessIsExact(s: Spec)
    ensures var n := Normalize(s); Exact(n.access, s.access, n.effects, n.secretPurposes)
  {
    var n := Normalize(s);
    SettledIsExact(s.access, n.effects, n.secretPurposes);
  }

  // ----- the input schema

  lemma EndpointRefIn(m: map<string, Json>)
    requires "endpoint_ref" in m
    ensures "endpoint_ref" in NormalizeSchema(Obj(m)).fields
  {}

  lemma EndpointRefSurvives(m: map<string, Json>)
    ensures var n := NormalizeSchema(Obj(WithEndpointRef(m)));
            && n.Obj? && "type" in n.fields && n.fields["type"] == Str("object")
            && "properties" in n.fields && n.fields["properties"].Obj?
            && "endpoint_ref" in n.fields["properties"].fields
  {
    var w := WithEndpointRef(m);
    assert w["type"] == Str("object") && w["properties"].Obj? && "endpoint_ref" in w["properties"].fields;
    assert NormalizeSchema(w["type"]) == Str("object");
    var n := map k | k in w && k != "$schema" :: NormalizeSchema(w[k]);
    assert n["properties"].Obj?;
    assert SortRequired(n)["type"] == n["type"] && SortRequired(n)["properties"] == n["properties"];
    EndpointRefIn(w["properties"].fields);
  }

  /** An input that is not an object schema passes unchanged; any other becomes an object schema in normal
      form, with no `$schema` key at any depth, that has the endpoint reference. */
  lemma InputIsNormal(i: Input)
    ensures var n := NormalizeInput(i);
            if i.Absent? || (i.Doc? && ObjectInput(i.v)) then
              && n.Doc? && n.v.Obj? && Normal(n.v)
              && "type" in n.v.fields && n.v.fields["type"] == Str("object")
              && "properties" in n.v.fields && n.v.fields["properties"].Obj?
              && "endpoint_ref" in n.v.fields["properties"].fields
            else n == i
  {
    var given := if i.Absent? then Doc(Obj(map["properties" := Obj(map[]), "type" := Str("object")])) else i;
    if given.Doc? && ObjectInput(given.v) {
      var m := if given.v.Null? then map[] else given.v.fields;
      EndpointRefSurvives(m);
      NormalizeGivesNormal(Obj(WithEndpointRef(m)));
    }
  }

  lemma NormalizeInputIsIdempotent(i: Input)
    ensures NormalizeInput(NormalizeInput(i)) == NormalizeInput(i)
  {
    InputIsNormal(i);
    var n := NormalizeInput(i);
    if i.Absent? || (i.Doc? && ObjectInput(i.v)) {
      assert ObjectInput(n.v);
      assert WithEndpointRef(n.v.fields) == n.v.fields;
      NormalIsFixed(n.v);
    }
  }

  // ----- twice is once

  lemma NormalizeListsFixed(s: Spec)
    ensures var n := Normalize(s);
            && Unique(n.effects, BLANK_EFFECT) == n.effects && n.effects != []
            && Unique(n.authScopes, "") == n.authScopes && Unique(n.secretPurposes, "") == n.secretPurposes
  {
    var n := Normalize(s);
    UniqueFixed(n.effects, BLANK_EFFECT);
    UniqueFixed(n.authScopes, "");
    UniqueFixed(n.secretPurposes, "");
  }

  /** Lists that hold all they call for, and "none" only alone, are left as they are. */
  lemma SettledFixed(access: seq<Access>, effects: seq<Effect>, purposes: seq<string>)
    requires Distinct(access) && BLANK_ACCESS !in access && access != []
    requires NoAccess in access ==> access == [NoAccess]
    requires forall e :: e in effects && Implied(e).Some? ==> Implied(e).value in access
    requires purposes != [] ==> Secret in access && Auth in access
    ensures Settled(access, effects, purposes) == access
  {
    UniqueFixed(access, BLANK_ACCESS);
    EnsureImpliedFixed(access, effects);
    WithoutKeepsDistinct(access, NoAccess);
  }

  lemma ExactHasImplied(r: seq<Access>, access: seq<Access>, effects: seq<Effect>, purposes: seq<string>, e: Effect)
    requires Exact(r, access, effects, purposes) && e in effects && Implied(e).Some?
    ensures Implied(e).value in r
  {
    ImpliedIsNeeded(e, Implied(e).value);
    assert Calls(access, effects, purposes, Implied(e).value);
  }

  lemma ExactHasRest(r: seq<Access>, access: seq<Access>, effects: seq<Effect>, purposes: seq<string>)
    requires Exact(r, access, effects, purposes)
    ensures BLANK_ACCESS !in r && (purposes != [] ==> Secret in r && Auth in r)
  {
    assert !Calls(access, effects, purposes, BLANK_ACCESS);
    if purposes != [] {
      assert Calls(access, effects, purposes, Secret) && Calls(access, effects, purposes, Auth);
    }
  }

  lemma SettledTwice(access: seq<Access>, effects: seq<Effect>, purposes: seq<string>)
    ensures var r := Settled(access, effects, purposes); Settled(r, effects, purposes) == r
  {
    var r := Settled(access, effects, purposes);
    SettledIsExact(access, effects, purposes);
    forall e | e in effects && Implied(e).Some? ensures Implied(e).value in r {
      ExactHasImplied(r, access, effects, purposes, e);
    }
    ExactHasRest(r, access, effects, purposes);
    SettledFixed(r, effects, purposes);
  }

  lemma AccessFixed(s: Spec)
    ensures var n := Normalize(s); Settled(n.access, n.effects, n.secretPurposes) == n.access
  {
    var n := Normalize(s);
    SettledTwice(s.access, n.effects, n.secretPurposes);
  }

  lemma RenderFixed(s: Spec)
    ensures var n := Normalize(s);
            && DefaultRender(n) == n.render
            && (n.render.Some? ==> Unique(n.render.value.formats, "") == n.render.value.formats)
  {
    var n := Normalize(s);
    if n.render.Some? {
      UniqueFixed(n.render.value.formats, "");
    }
  }

  /** Normalizing a normalized declaration changes nothing. */
  lemma NormalizeIsIdempotent(s: Spec)
    ensures Normalize(Normalize(s)) == Normalize(s)
  {
    NormalizeListsFixed(s);
    AccessFixed(s);
    RenderFixed(s);
    NormalizeInputIsIdempotent(s.input);
  }

  // ----- merging a generated declaration into the author's

  function OrElse<T>(given: seq<T>, otherwise: seq<T>): seq<T> { if given == [] then otherwise else given }

  /** What the author left open, taken from the generated declaration. */
  function Filled(author: Spec, generated: Spec): Spec {
    Spec(if author.input.Absent? then generated.input else author.input,
         OrElse(author.effects, generated.effects), OrElse(author.access, generated.access),
         OrElse(author.authScopes, generated.authScopes), OrElse(author.secretPurposes, generated.secretPurposes),
         author.readOnly || generated.readOnly,
         if author.risk == "" then generated.risk else author.risk,
         if author.idempotency == "" then generated.idempotency else author.idempotency,
         author.compact || generated.compact,
         if author.render.None? then generated.render else author.render)
  }

  function Merge(author: Spec, generated: Spec): Spec { Normalize(Filled(author, generated)) }

  /** A list of blanks only, where the other list has something to say: filling it in is put off until
      normalizing has emptied it. */
  predicate LateFill(given: seq<string>, generated: seq<string>) {
    given != [] && (forall x :: x in given ==> x == "") && exists x :: x in generated && x != ""
  }

  lemma RefillsUnlessLate(given: seq<string>, generated: seq<string>)
    ensures var once := Unique(OrElse(given, generated), "");
            Unique(OrElse(once, generated), "") == once <==> !LateFill(given, generated)
  {
    var once := Unique(OrElse(given, generated), "");
    UniqueFixed(once, "");
    if given != [] && once != [] {
      assert once[0] in given && once[0] != "";
    } else if once == [] && Unique(generated, "") != [] {
      assert Unique(generated, "")[0] in generated && Unique(generated, "")[0] != "";
      forall x | x in given ensures x == "" {
        assert x != "" ==> x in once;
      }
      assert given != [];
    }
  }

  /** A second merge can only change the scopes and purposes: every other field is settled by the first. */
  lemma RemergeSettled(s: Spec, scopes: seq<string>, purposes: seq<string>)
    ensures var n := Normalize(s);
            Unique(scopes, "") == n.authScopes && Unique(purposes, "") == n.secretPurposes ==>
              Normalize(n.(authScopes := scopes, secretPurposes := purposes)) == n
    ensures var m := Normalize(Normalize(s).(authScopes := scopes, secretPurposes := purposes));
            m.authScopes == Unique(scopes, "") && m.secretPurposes == Unique(purposes, "")
  {
    var n := Normalize(s);
    NormalizeIsIdempotent(s);
    NormalizeListsFixed(s);
    AccessFixed(s);
  }

  lemma RefilledIs(author: Spec, generated: Spec)
    ensures var n := Merge(author, generated);
            Filled(n, generated) == n.(authScopes := OrElse(n.authScopes, generated.authScopes),
                                       secretPurposes := OrElse(n.secretPurposes, generated.secretPurposes))
  {
    var f := Filled(author, generated);
    InputIsNormal(f.input);
    NormalizeListsFixed(f);
    AccessIsExact(f);
  }

  /** Merging the same generated declaration again changes nothing, unless the author's scopes or secret
      purposes were a list of blanks where the generated ones are not. */
  lemma MergeTwice(author: Spec, generated: Spec)
    ensures Merge(Merge(author, generated), generated) == Merge(author, generated)
            <==> !LateFill(author.authScopes, generated.authScopes)
                 && !LateFill(author.secretPurposes, generated.secretPurposes)
  {
    var f := Filled(author, generated);
    var n := Normalize(f);
    var scopes := OrElse(n.authScopes, generated.authScopes);
    var purposes := OrElse(n.secretPurposes, generated.secretPurposes);
    RefillsUnlessLate(author.authScopes, generated.authScopes);
    RefillsUnlessLate(author.secretPurposes, generated.secretPurposes);
    RefilledIs(author, generated);
    RemergeSettled(f, scopes, purposes);
  }

  /** A declaration that leaves everything open but its authorization scopes. */
  function WithScopes(scopes: seq<string>): Spec {
    Spec(Absent, [], [], scopes, [], false, "", "", false, None)
  }

  /** It happens: the author's scopes are one blank, the generated ones are not; the second merge adds them. */
  lemma MergeTwiceCanDiffer()
    ensures var author, generated := WithScopes([""]), WithScopes(["s"]);
            Merge(Merge(author, generated), generated) != Merge(author, generated)
  {
    var author, generated := WithScopes([""]), WithScopes(["s"]);
    assert "s" in generated.authScopes;
    MergeTwice(author, generated);
  }
}
