/** Assembling an operation's input: dotted `--arg` keys set nested fields of a JSON object. */
module JsonInput {
  import opened Text
  import opened Seqs
  import opened JsonTree

  type Fields = map<string, Json>

  function Child(o: Fields, key: string): Fields {
    if key in o && o[key].Obj? then o[key].fields else map[]
  }

  /** Sets the leaf at `path`; on the way a missing or non-object value becomes a new object. */
  function Set(o: Fields, path: seq<string>, v: Json): Fields
    requires path != []
    decreases |path|
  {
    if |path| == 1 then o[path[0] := v] else o[path[0] := Obj(Set(Child(o, path[0]), path[1..], v))]
  }

  /** Neither path continues the other. */
  predicate Diverge(p: seq<string>, q: seq<string>) { !(p <= q) && !(q <= p) }

  /** Every node above the end of `p` is an object. */
  predicate ThroughObjects(o: Fields, p: seq<string>)
    requires p != []
    decreases |p|
  {
    |p| == 1 || (p[0] in o && o[p[0]].Obj? && ThroughObjects(o[p[0]].fields, p[1..]))
  }

  lemma DivergeBelow(p: seq<string>, q: seq<string>)
    requires Diverge(p, q)
    ensures p != [] && q != [] && (p[0] == q[0] ==> Diverge(p[1..], q[1..]))
  {}

  /** Every node on what `p` and `q` share is an object. */
  predicate SharedObjects(o: Fields, p: seq<string>, q: seq<string>)
    requires Diverge(p, q)
    decreases |p|
  {
    p[0] != q[0]
    || (DivergeBelow(p, q); p[0] in o && o[p[0]].Obj? && SharedObjects(o[p[0]].fields, p[1..], q[1..]))
  }

  // ----- reading what was set

  /** At the path and below it the new value is found. */
  lemma {:induction false} SetThenGet(o: Fields, p: seq<string>, v: Json, rest: seq<string>)
    requires p != []
    ensures Extract(Obj(Set(o, p, v)), p + rest) == Extract(v, rest)
    decreases |p|
  {
    assert (p + rest)[1..] == p[1..] + rest;
    if |p| == 1 {
      assert p[1..] + rest == rest;
    } else {
      SetThenGet(Child(o, p[0]), p[1..], v, rest);
    }
  }

  /** The object at `q`, empty where there is none. */
  function Below(o: Fields, q: seq<string>): Fields
    decreases |q|
  {
    if q == [] then o else Below(Child(o, q[0]), q[1..])
  }

  /** Above the path stands an object that has the value at the rest of the path. */
  lemma {:induction false} SetThenGetAbove(o: Fields, q: seq<string>, rest: seq<string>, v: Json)
    requires rest != []
    ensures Extract(Obj(Set(o, q + rest, v)), q) == Some(Obj(Set(Below(o, q), rest, v)))
    decreases |q|
  {
    if q == [] {
      assert q + rest == rest;
    } else {
      assert (q + rest)[1..] == q[1..] + rest;
      SetThenGetAbove(Child(o, q[0]), q[1..], rest, v);
    }
  }

  lemma {:induction false} SetOnEmptyMisses(p: seq<string>, v: Json, q: seq<string>)
    requires Diverge(p, q)
    ensures Extract(Obj(Set(map[], p, v)), q) == None
  {
    DivergeBelow(p, q);
    if p[0] == q[0] {
      SetOnEmptyMisses(p[1..], v, q[1..]);
    }
  }

  /** On any diverging path the lookup stays the same exactly when the shared part goes through objects,
      or there was nothing to find. */
  lemma {:induction false} SetElsewhere(o: Fields, p: seq<string>, v: Json, q: seq<string>)
    requires Diverge(p, q)
    ensures SharedObjects(o, p, q) ==> Extract(Obj(Set(o, p, v)), q) == Extract(Obj(o), q)
    ensures !SharedObjects(o, p, q) ==> Extract(Obj(Set(o, p, v)), q) == None
    ensures Extract(Obj(Set(o, p, v)), q) == Extract(Obj(o), q)
            <==> SharedObjects(o, p, q) || Extract(Obj(o), q) == None
    decreases |p|
  {
    DivergeBelow(p, q);
    if p[0] == q[0] {
      if p[0] in o && o[p[0]].Obj? {
        SetElsewhere(o[p[0]].fields, p[1..], v, q[1..]);
      } else {
        SetOnEmptyMisses(p[1..], v, q[1..]);
      }
    }
  }

  lemma ProjectsItself(v: Json)
    ensures Project([v], []) == [v]
  {
    var items := [v];
    assert items[1..] == [] && Extract(items[0], []) == Some(v);
    assert Project(items, []) == [v] + Project(items[1..], []);
  }

  /** It happens: a set below an array makes an object of it, and what was found in the array is gone. */
  lemma SetCanHideElsewhere(v: Json)
    ensures var o: Fields := map["a" := Arr([Null])];
            && Diverge(["a", "b"], ["a", "*"])
            && Extract(Obj(o), ["a", "*"]) == Some(Arr([Null]))
            && Extract(Obj(Set(o, ["a", "b"], v)), ["a", "*"]) == None
  {
    var o: Fields, p, q := map["a" := Arr([Null])], ["a", "b"], ["a", "*"];
    assert p[1] == "b" && q[1] == "*" && "b" != "*" by { assert "b"[0] != "*"[0]; }
    assert q[1..] == ["*"] && q[1..][1..] == [];
    ProjectsItself(Null);
    assert Extract(o["a"], q[1..]) == Some(Arr(Project([Null], q[1..][1..])));
    SetElsewhere(o, p, v, q);
  }

  // ----- setting twice

  lemma {:induction false} SetAgain(o: Fields, p: seq<string>, v: Json, w: Json)
    requires p != []
    ensures Set(Set(o, p, v), p, w) == Set(o, p, w)
    decreases |p|
  {
    if |p| > 1 {
      SetAgain(Child(o, p[0]), p[1..], v, w);
    }
  }

  /** Setting changes nothing exactly when the value is already there, below objects all the way. */
  lemma {:induction false} SetIsIdleExactlyWhenThere(o: Fields, p: seq<string>, v: Json)
    requires p != []
    ensures Set(o, p, v) == o <==> ThroughObjects(o, p) && Extract(Obj(o), p) == Some(v)
    decreases |p|
  {
    var k := p[0];
    assert Set(o, p, v) == o <==> k in o && o[k] == Set(o, p, v)[k];
    if |p| == 1 {
      assert Extract(Obj(o), p) == if k in o then Some(o[k]) else None;
    } else {
      SetIsIdleExactlyWhenThere(Child(o, k), p[1..], v);
    }
  }

  lemma SetsApart(o: Fields, p: seq<string>, v: Json, q: seq<string>, w: Json)
    requires p != [] && q != [] && p[0] != q[0]
    ensures Set(Set(o, p, v), q, w) == Set(Set(o, q, w), p, v)
  {}

  lemma SetsUnderOneKey(o: Fields, k: string, p: seq<string>, v: Json, q: seq<string>, w: Json)
    requires p != [] && q != []
    ensures Set(Set(o, [k] + p, v), [k] + q, w) == o[k := Obj(Set(Set(Child(o, k), p, v), q, w))]
  {}

  lemma {:induction false} SetsCommute(o: Fields, p: seq<string>, v: Json, q: seq<string>, w: Json)
    requires Diverge(p, q)
    ensures Set(Set(o, p, v), q, w) == Set(Set(o, q, w), p, v)
    decreases |p|
  {
    DivergeBelow(p, q);
    var k := p[0];
    if k == q[0] {
      SetsCommute(Child(o, k), p[1..], v, q[1..], w);
      assert p == [k] + p[1..] && q == [k] + q[1..];
      assert p[1..] != [] && q[1..] != [];
      SetsUnderOneKey(o, k, p[1..], v, q[1..], w);
      SetsUnderOneKey(o, k, q[1..], w, p[1..], v);
    } else {
      SetsApart(o, p, v, q, w);
    }
  }

  lemma {:induction false} SetGoesThroughObjects(o: Fields, p: seq<string>, v: Json)
    requires p != []
    ensures ThroughObjects(Set(o, p, v), p)
    decreases |p|
  {
    if |p| > 1 {
      SetGoesThroughObjects(Child(o, p[0]), p[1..], v);
    }
  }

  /** A path through objects keeps its value, and stays one, when a diverging path is set. */
  lemma {:induction false} SetSpares(o: Fields, p: seq<string>, q: seq<string>, w: Json)
    requires Diverge(p, q) && ThroughObjects(o, p)
    ensures ThroughObjects(Set(o, q, w), p) && Extract(Obj(Set(o, q, w)), p) == Extract(Obj(o), p)
    decreases |p|
  {
    DivergeBelow(p, q);
    if p[0] == q[0] {
      SetSpares(o[p[0]].fields, p[1..], q[1..], w);
    }
  }

  /** Making the empty object first, where a set would have to, does not change what the set makes. */
  lemma {:induction false} SetThroughEmpty(o: Fields, p: seq<string>, k: string, rest: seq<string>, v: Json)
    requires rest != [] && !(k in Below(o, p) && Below(o, p)[k].Obj?)
    ensures Set(Set(o, p + [k], Obj(map[])), p + [k] + rest, v) == Set(o, p + [k] + rest, v)
    decreases |p|
  {
    if p == [] {
      assert p + [k] == [k] && ([k] + rest)[1..] == rest;
    } else {
      var h, q := p[0], p[1..];
      assert (p + [k])[1..] == q + [k] && (p + [k] + rest)[1..] == q + [k] + rest;
      SetThroughEmpty(Child(o, h), q, k, rest, v);
    }
  }
}
