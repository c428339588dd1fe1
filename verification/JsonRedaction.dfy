/** What redaction leaves, said without it. */
module JsonRedaction {
  import opened Text
  import opened TextLaws
  import opened JsonTree

  /** A key names a secret when one of the fragments stands somewhere in it, in whatever case. */
  ghost predicate NamesSecret(key: string) {
    exists i :: 0 <= i < |SECRET_FRAGMENTS| && Inside(ToLower(key), SECRET_FRAGMENTS[i])
  }

  lemma SecretKeysNameSecrets(key: string)
    ensures IsSecretKey(key) <==> NamesSecret(key)
  {
    forall i | 0 <= i < |SECRET_FRAGMENTS|
      ensures Contains(ToLower(key), SECRET_FRAGMENTS[i]) <==> Inside(ToLower(key), SECRET_FRAGMENTS[i])
    {
      ContainsMeansInside(ToLower(key), SECRET_FRAGMENTS[i]);
    }
  }

  /** `out` is `v` with the mask for whatever stands under a secret's name, and every other value as it is. */
  ghost predicate Masked(v: Json, out: Json)
    decreases v
  {
    match v
    case Obj(m) =>
      && out.Obj? && out.fields.Keys == m.Keys
      && forall k :: k in m ==>
           if NamesSecret(k) then out.fields[k] == Str("[redacted]") else Masked(m[k], out.fields[k])
    case Arr(items) =>
      out.Arr? && |out.items| == |items| && forall i :: 0 <= i < |items| ==> Masked(items[i], out.items[i])
    case _ => out == v
  }

  lemma {:induction false} RedactIsMasked(v: Json)
    ensures Masked(v, Redact(v))
  {
    match v {
      case Obj(m) =>
        forall k | k in m
          ensures if NamesSecret(k) then Redact(v).fields[k] == Str("[redacted]") else Masked(m[k], Redact(v).fields[k])
        {
          SecretKeysNameSecrets(k);
          RedactIsMasked(m[k]);
        }
      case Arr(items) =>
        forall i | 0 <= i < |items| ensures Masked(items[i], Redact(v).items[i]) { RedactIsMasked(items[i]); }
      case _ => {}
    }
  }

  lemma {:induction false} OneMasking(v: Json, x: Json, y: Json)
    requires Masked(v, x) && Masked(v, y)
    ensures x == y
    decreases v
  {
    match v {
      case Obj(m) =>
        forall k | k in m ensures x.fields[k] == y.fields[k] {
          if !NamesSecret(k) { OneMasking(m[k], x.fields[k], y.fields[k]); }
        }
        assert x.fields == y.fields;
      case Arr(items) =>
        forall i | 0 <= i < |items| ensures x.items[i] == y.items[i] { OneMasking(items[i], x.items[i], y.items[i]); }
        assert x.items == y.items;
      case _ => {}
    }
  }

  /** Redaction masks exactly what stands under a secret's name and keeps everything else. */
  lemma RedactMasksExactly(v: Json, out: Json)
    ensures Redact(v) == out <==> Masked(v, out)
  {
    RedactIsMasked(v);
    if Masked(v, out) { OneMasking(v, out, Redact(v)); }
  }
}
