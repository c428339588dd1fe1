/** JSON values as trees: lookup by path, redaction, and what they do to each other. */
module JsonTree {
  import opened Text

  /** Numbers keep their text; nothing here computes with them. */
  datatype Json = Null | Bool(b: bool) | Num(text: string) | Str(s: string) | Arr(items: seq<Json>)
    | Obj(fields: map<string, Json>)

  // ----- paths

  function Split(s: string, sep: char): (r: seq<string>)
    ensures r != []
  {
    if s == [] then [""]
    else if s[0] == sep then [""] + Split(s[1..], sep)
    else
      var r := Split(s[1..], sep);
      [[s[0]] + r[0]] + r[1..]
  }

  predicate IsDigit(c: char) { '0' <= c <= '9' }

  function Digits(s: string, n: nat): Option<nat> {
    if s == [] then Some(n)
    else if IsDigit(s[0]) then
      var d: nat := (s[0] - '0') as int;
      Digits(s[1..], 10 * n + d)
    else None
  }

  /** A decimal integer with an optional sign. */
  function Atoi(s: string): Option<int> {
    if s == [] then None
    else
      var body := if s[0] == '+' || s[0] == '-' then s[1..] else s;
      match Digits(body, 0)
      case None => None
      case Some(n) =>
        var value: int := if s[0] == '-' then 0 - n else n;
        if body == [] then None else Some(value)
  }

  /** The value at a path of segments: a key in an object; in an array an index, or "*" for every element. */
  function Extract(v: Json, segments: seq<string>): Option<Json>
    decreases |segments|, 1, 0
  {
    if segments == [] then Some(v)
    else
      match v
      case Obj(m) => if segments[0] in m then Extract(m[segments[0]], segments[1..]) else None
      case Arr(items) =>
        if segments[0] == "*" then Some(Arr(Project(items, segments[1..])))
        else
          var i := Atoi(segments[0]);
          if i.None? || i.value < 0 || i.value >= |items| then None else Extract(items[i.value], segments[1..])
      case _ => None
  }

  /** The remaining path in every element, leaving out the elements where it misses. */
  function Project(items: seq<Json>, segments: seq<string>): seq<Json>
    decreases |segments|, 2, |items|
  {
    if items == [] then []
    else
      var hit := Extract(items[0], segments);
      (if hit.Some? then [hit.value] else []) + Project(items[1..], segments)
  }

  // ----- redaction

  const SECRET_FRAGMENTS := ["password", "passwd", "secret", "token", "credential", "api_key", "apikey",
                            "access_key", "private_key", "client_secret", "authorization"]

  predicate IsSecretKey(key: string) {
    exists i :: 0 <= i < |SECRET_FRAGMENTS| && Contains(ToLower(key), SECRET_FRAGMENTS[i])
  }

  const MASK := Str("[redacted]")

  function Redact(v: Json): Json {
    match v
    case Obj(m) => Obj(map k | k in m :: if IsSecretKey(k) then MASK else Redact(m[k]))
    case Arr(items) => Arr(seq(|items|, i requires 0 <= i < |items| => Redact(items[i])))
    case _ => v
  }

  function RedactHit(hit: Option<Json>): Option<Json> { if hit.Some? then Some(Redact(hit.value)) else None }

  predicate Open(segments: seq<string>) { forall i :: 0 <= i < |segments| ==> !IsSecretKey(segments[i]) }

  /** Looking up in the redacted tree is redacting what the lookup finds, hit or miss, through keys,
      indexes and projections, on every path that names no secret. */
  lemma {:induction false} RedactCommutes(v: Json, segments: seq<string>)
    requires Open(segments)
    ensures Extract(Redact(v), segments) == RedactHit(Extract(v, segments))
    decreases |segments|, 1, 0
  {
    if segments != [] {
      match v {
        case Obj(m) =>
          if segments[0] in m { RedactCommutes(m[segments[0]], segments[1..]); }
        case Arr(items) =>
          if segments[0] == "*" {
            RedactCommutesEach(items, segments[1..]);
          } else {
            var i := Atoi(segments[0]);
            if i.Some? && 0 <= i.value < |items| { RedactCommutes(items[i.value], segments[1..]); }
          }
        case _ => {}
      }
    }
  }

  lemma RedactFirst(x: Json, rest: seq<Json>)
    ensures Redact(Arr([x] + rest)) == Arr([Redact(x)] + Redact(Arr(rest)).items)
  {
    var r := Redact(Arr([x] + rest)).items;
    assert r == [Redact(x)] + Redact(Arr(rest)).items;
  }

  lemma {:induction false} RedactCommutesEach(items: seq<Json>, segments: seq<string>)
    requires Open(segments)
    ensures Arr(Project(Redact(Arr(items)).items, segments)) == Redact(Arr(Project(items, segments)))
    decreases |segments|, 2, |items|
  {
    if items != [] {
      var x, rest := items[0], items[1..];
      RedactCommutes(x, segments);
      RedactCommutesEach(rest, segments);
      assert items == [x] + rest;
      RedactFirst(x, rest);
      var redacted := Redact(Arr(rest)).items;
      assert ([Redact(x)] + redacted)[1..] == redacted;
      var hit := Extract(x, segments);
      if hit.Some? { RedactFirst(hit.value, Project(rest, segments)); }
    }
  }

  // ----- exactly which paths commute

  /** Objects nested along the path, with `leaf` at its end. */
  function Nest(segments: seq<string>, leaf: Json): Json {
    if segments == [] then leaf else Obj(map[segments[0] := Nest(segments[1..], leaf)])
  }

  lemma {:induction false} NestExtracts(segments: seq<string>, leaf: Json)
    ensures Extract(Nest(segments, leaf), segments) == Some(leaf)
  {
    if segments != [] {
      NestExtracts(segments[1..], leaf);
    }
  }

  /** On a path that names a secret, redaction first loses what the lookup would have found. */
  lemma {:induction false} SecretSegmentBlocks(segments: seq<string>)
    requires !Open(segments)
    ensures Extract(Redact(Nest(segments, Null)), segments) != Some(Null)
  {
    if !IsSecretKey(segments[0]) {
      SecretSegmentBlocks(segments[1..]);
    }
  }

  /** Redaction and lookup commute on every tree exactly when no segment of the path names a secret. */
  lemma CommutesExactlyWhenOpen(segments: seq<string>)
    ensures (forall v :: Extract(Redact(v), segments) == RedactHit(Extract(v, segments))) <==> Open(segments)
  {
    if Open(segments) {
      forall v ensures Extract(Redact(v), segments) == RedactHit(Extract(v, segments)) {
        RedactCommutes(v, segments);
      }
    } else {
      var v := Nest(segments, Null);
      NestExtracts(segments, Null);
      SecretSegmentBlocks(segments);
      assert Extract(Redact(v), segments) != RedactHit(Extract(v, segments));
    }
  }

  // ----- what redaction hides, and that it hides nothing else

  /** Every secret-named key, at whatever depth, holds the mask. */
  ghost predicate Masked(v: Json) {
    match v
    case Obj(m) => forall k :: k in m ==> if IsSecretKey(k) then m[k] == MASK else Masked(m[k])
    case Arr(items) => forall i :: 0 <= i < |items| ==> Masked(items[i])
    case _ => true
  }

  lemma {:induction false} RedactMasks(v: Json)
    ensures Masked(Redact(v))
  {
    match v {
      case Obj(m) =>
        forall k | k in m && !IsSecretKey(k) ensures Masked(Redact(m[k])) { RedactMasks(m[k]); }
      case Arr(items) =>
        forall i | 0 <= i < |items| ensures Masked(Redact(items[i])) { RedactMasks(items[i]); }
      case _ => {}
    }
  }

  /** Only a tree with something to hide changes. */
  lemma {:induction false} MaskedIsFixed(v: Json)
    requires Masked(v)
    ensures Redact(v) == v
  {
    match v {
      case Obj(m) =>
        forall k | k in m && !IsSecretKey(k) ensures Redact(m[k]) == m[k] { MaskedIsFixed(m[k]); }
        assert Redact(v).fields == m;
      case Arr(items) =>
        forall i | 0 <= i < |items| ensures Redact(items[i]) == items[i] { MaskedIsFixed(items[i]); }
        assert Redact(v).items == items;
      case _ => {}
    }
  }

  lemma {:induction false} RedactIsIdempotent(v: Json)
    ensures Redact(Redact(v)) == Redact(v)
  {
    RedactMasks(v);
    MaskedIsFixed(Redact(v));
  }

  /** Two trees that differ in the values of secret-named keys only. */
  ghost predicate SameButSecrets(v: Json, w: Json) {
    match v
    case Obj(m) =>
      w.Obj? && m.Keys == w.fields.Keys && forall k :: k in m && !IsSecretKey(k) ==> SameButSecrets(m[k], w.fields[k])
    case Arr(items) =>
      w.Arr? && |items| == |w.items| && forall i :: 0 <= i < |items| ==> SameButSecrets(items[i], w.items[i])
    case _ => v == w
  }

  lemma ShownObjects(m: map<string, Json>, n: map<string, Json>)
    ensures Redact(Obj(m)) == Redact(Obj(n))
            <==> m.Keys == n.Keys && forall k :: k in m && k in n && !IsSecretKey(k) ==> Redact(m[k]) == Redact(n[k])
  {
    var r, q := Redact(Obj(m)).fields, Redact(Obj(n)).fields;
    assert r.Keys == m.Keys && q.Keys == n.Keys;
    assert Redact(Obj(m)) == Redact(Obj(n)) <==> r == q;
    assert r == q ==> m.Keys == n.Keys;
    forall k | k in m && k in n && r == q && !IsSecretKey(k) ensures Redact(m[k]) == Redact(n[k]) {
      assert r[k] == q[k];
    }
    if m.Keys == n.Keys && forall k :: k in m && k in n && !IsSecretKey(k) ==> Redact(m[k]) == Redact(n[k]) {
      assert forall k :: k in r ==> r[k] == q[k];
      assert r == q;
    }
  }

  lemma ShownArrays(s: seq<Json>, t: seq<Json>)
    requires |s| == |t|
    ensures Redact(Arr(s)) == Redact(Arr(t)) <==> forall i :: 0 <= i < |s| ==> Redact(s[i]) == Redact(t[i])
  {
    var r, q := Redact(Arr(s)).items, Redact(Arr(t)).items;
    forall i | 0 <= i < |s| && r == q ensures Redact(s[i]) == Redact(t[i]) {
      assert r[i] == q[i];
    }
    if forall i :: 0 <= i < |s| ==> Redact(s[i]) == Redact(t[i]) {
      assert forall i :: 0 <= i < |r| ==> r[i] == q[i];
      assert r == q;
    }
  }

  /** The display shows exactly what does not sit under a secret: two trees are shown alike if and only if
      they differ in secret values only. */
  lemma {:induction false} ShownAlikeExactlyWhenSame(v: Json, w: Json)
    ensures Redact(v) == Redact(w) <==> SameButSecrets(v, w)
  {
    if v.Obj? && w.Obj? {
      var m, n := v.fields, w.fields;
      forall k | k in m && k in n ensures Redact(m[k]) == Redact(n[k]) <==> SameButSecrets(m[k], n[k]) {
        ShownAlikeExactlyWhenSame(m[k], n[k]);
      }
      ShownObjects(m, n);
    } else if v.Arr? && w.Arr? {
      var s, t := v.items, w.items;
      assert Redact(v) == Redact(w) ==> |Redact(v).items| == |Redact(w).items|;
      if |s| == |t| {
        forall i | 0 <= i < |s| ensures Redact(s[i]) == Redact(t[i]) <==> SameButSecrets(s[i], t[i]) {
          ShownAlikeExactlyWhenSame(s[i], t[i]);
        }
        ShownArrays(s, t);
      }
    }
  }
}
