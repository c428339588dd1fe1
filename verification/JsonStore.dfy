/** Nested maps as the program holds them while it assembles an input: map objects that refer to each other,
    in a store that is written in place. */
module JsonStore {
  import opened Text
  import opened JsonTree
  import opened JsonInput

  /** A map entry: a reference to a map object, or anything else. */
  datatype Value = Plain(json: Json) | Ref(id: nat)

  type Nodes = map<nat, map<string, Value>>

  // ----- the tree below a map object

  /** Every reference below `id` leads to an object, at most `d` references deep. */
  ghost predicate Rooted(m: Nodes, id: nat, d: nat)
    decreases d
  {
    id in m && forall k :: k in m[id] ==>
      if m[id][k].Ref? then d > 0 && Rooted(m, m[id][k].id, d - 1) else !m[id][k].json.Obj?
  }

  /** The objects at and below `id`. */
  ghost function Reach(m: Nodes, id: nat, d: nat): set<nat>
    requires Rooted(m, id, d)
    decreases d
  {
    {id} + set n | n in m && exists k :: k in m[id] && m[id][k].Ref? && n in Reach(m, m[id][k].id, d - 1)
  }

  /** No object hangs in two places. */
  ghost predicate Unshared(m: Nodes, id: nat, d: nat)
    requires Rooted(m, id, d)
    decreases d
  {
    && (forall k :: k in m[id] && m[id][k].Ref? ==>
          id !in Reach(m, m[id][k].id, d - 1) && Unshared(m, m[id][k].id, d - 1))
    && (forall k, l :: k in m[id] && l in m[id] && k != l && m[id][k].Ref? && m[id][l].Ref? ==>
          Reach(m, m[id][k].id, d - 1) !! Reach(m, m[id][l].id, d - 1))
  }

  ghost predicate IsTree(m: Nodes, id: nat, d: nat) { Rooted(m, id, d) && Unshared(m, id, d) }

  /** The JSON object a map object stands for. */
  ghost function FieldsAt(m: Nodes, id: nat, d: nat): Fields
    requires Rooted(m, id, d)
    decreases d
  {
    map k | k in m[id] :: if m[id][k].Ref? then Obj(FieldsAt(m, m[id][k].id, d - 1)) else m[id][k].json
  }

  /** Following the keys of `p` from `id` leads to `to`. */
  ghost predicate Leads(m: Nodes, id: nat, p: seq<string>, to: nat)
    decreases |p|
  {
    if p == [] then id == to
    else id in m && p[0] in m[id] && m[id][p[0]].Ref? && Leads(m, m[id][p[0]].id, p[1..], to)
  }

  /** The same objects, and what they stand for, in two stores. */
  ghost predicate Same(m: Nodes, n: Nodes, id: nat, d: nat, e: nat) {
    && Rooted(m, id, d) && Rooted(n, id, e)
    && Reach(n, id, e) == Reach(m, id, d) && FieldsAt(n, id, e) == FieldsAt(m, id, d)
    && (Unshared(m, id, d) ==> Unshared(n, id, e))
  }

  ghost predicate Agree(m: Nodes, n: Nodes, ids: set<nat>) {
    forall x :: x in ids ==> x in m && x in n && m[x] == n[x]
  }

  lemma {:induction false} ReachStored(m: Nodes, id: nat, d: nat)
    requires Rooted(m, id, d)
    ensures Reach(m, id, d) <= m.Keys
  {}

  lemma ReachBelow(m: Nodes, id: nat, d: nat, k: string)
    requires Rooted(m, id, d) && k in m[id] && m[id][k].Ref?
    ensures Reach(m, m[id][k].id, d - 1) <= Reach(m, id, d)
  {
    ReachStored(m, m[id][k].id, d - 1);
  }

  ghost predicate SameBelow(m: Nodes, n: Nodes, id: nat, d: nat) {
    id in m && forall k :: k in m[id] && m[id][k].Ref? ==> d > 0 && Same(m, n, m[id][k].id, d - 1, d - 1)
  }

  /** Two stores that hold the same object at `id`, and what is below it alike. */
  ghost predicate SameAt(m: Nodes, n: Nodes, id: nat, d: nat) {
    Rooted(m, id, d) && id in n && n[id] == m[id] && SameBelow(m, n, id, d)
  }

  lemma SameAtRooted(m: Nodes, n: Nodes, id: nat, d: nat)
    requires SameAt(m, n, id, d)
    ensures Rooted(n, id, d)
  {}

  lemma ReachGoesOver(m: Nodes, n: Nodes, id: nat, d: nat, x: nat)
    requires SameAt(m, n, id, d) && Rooted(n, id, d) && x in Reach(m, id, d)
    ensures x in Reach(n, id, d)
  {
    if x != id {
      var k :| k in m[id] && m[id][k].Ref? && x in Reach(m, m[id][k].id, d - 1);
      ReachBelow(n, id, d, k);
    }
  }

  lemma SameAtReach(m: Nodes, n: Nodes, id: nat, d: nat)
    requires SameAt(m, n, id, d) && Rooted(n, id, d)
    ensures Reach(n, id, d) == Reach(m, id, d)
  {
    ReachStored(m, id, d);
    ReachStored(n, id, d);
    forall x | x in Reach(m, id, d) ensures x in Reach(n, id, d) { ReachGoesOver(m, n, id, d, x); }
    forall x | x in Reach(n, id, d) ensures x in Reach(m, id, d) {
      if x != id {
        var k :| k in n[id] && n[id][k].Ref? && x in Reach(n, n[id][k].id, d - 1);
        ReachBelow(m, id, d, k);
      }
    }
  }

  lemma SameAtFields(m: Nodes, n: Nodes, id: nat, d: nat)
    requires SameAt(m, n, id, d) && Rooted(n, id, d)
    ensures FieldsAt(n, id, d) == FieldsAt(m, id, d)
  {}

  lemma SameAtUnshared(m: Nodes, n: Nodes, id: nat, d: nat)
    requires SameAt(m, n, id, d) && Rooted(n, id, d) && Unshared(m, id, d)
    ensures Unshared(n, id, d)
  {}

  lemma FramedRoot(m: Nodes, n: Nodes, id: nat, d: nat)
    requires SameAt(m, n, id, d)
    ensures Same(m, n, id, d, d)
  {
    SameAtRooted(m, n, id, d);
    SameAtReach(m, n, id, d);
    SameAtFields(m, n, id, d);
    if Unshared(m, id, d) { SameAtUnshared(m, n, id, d); }
  }

  lemma {:induction false} Framed(m: Nodes, n: Nodes, id: nat, d: nat)
    requires Rooted(m, id, d) && Agree(m, n, Reach(m, id, d))
    ensures Same(m, n, id, d, d)
    decreases d
  {
    assert id in Reach(m, id, d);
    forall k | k in m[id] && m[id][k].Ref? ensures Same(m, n, m[id][k].id, d - 1, d - 1) {
      ReachBelow(m, id, d, k);
      Framed(m, n, m[id][k].id, d - 1);
    }
    FramedRoot(m, n, id, d);
  }

  lemma {:induction false} Deeper(m: Nodes, id: nat, d: nat, e: nat)
    requires Rooted(m, id, d) && d <= e
    ensures Same(m, m, id, d, e)
    decreases d
  {
    forall k | k in m[id] && m[id][k].Ref? ensures Same(m, m, m[id][k].id, d - 1, e - 1) {
      Deeper(m, m[id][k].id, d - 1, e - 1);
    }
    assert Rooted(m, id, e);
    assert Reach(m, id, e) == Reach(m, id, d);
    assert FieldsAt(m, id, e) == FieldsAt(m, id, d);
  }

  // ----- writing one entry

  function Write(m: Nodes, id: nat, k: string, v: Value): Nodes
    requires id in m
  {
    m[id := m[id][k := v]]
  }

  /** A value that is a tree of its own. */
  ghost predicate Whole(m: Nodes, v: Value, d: nat) {
    if v.Ref? then IsTree(m, v.id, d) else !v.json.Obj?
  }

  /** The objects a value brings along. */
  ghost function Foot(m: Nodes, v: Value, d: nat): set<nat>
    requires Whole(m, v, d)
  {
    if v.Ref? then Reach(m, v.id, d) else {}
  }

  ghost function JsonOf(m: Nodes, v: Value, d: nat): Json
    requires Whole(m, v, d)
  {
    if v.Ref? then Obj(FieldsAt(m, v.id, d)) else v.json
  }

  /** The objects below an entry, if any. */
  ghost function Old(m: Nodes, id: nat, d: nat, k: string): set<nat>
    requires Rooted(m, id, d)
  {
    if k in m[id] && m[id][k].Ref? then Reach(m, m[id][k].id, d - 1) else {}
  }

  /** A map object whose entry at `key` has become `w`, all other entries being what they were. */
  ghost predicate Renewed(m: Nodes, n: Nodes, id: nat, d: nat, e: nat, key: string, w: Value, extra: set<nat>) {
    && IsTree(m, id, d) && e > 0 && id in n && n[id] == m[id][key := w] && extra !! Reach(m, id, d)
    && (forall l :: l in m[id] && l != key && m[id][l].Ref? ==> d > 0 && Same(m, n, m[id][l].id, d - 1, e - 1))
    && Whole(n, w, e - 1) && Foot(n, w, e - 1) <= Old(m, id, d, key) + extra
  }

  lemma RenewedRooted(m: Nodes, n: Nodes, id: nat, d: nat, e: nat, key: string, w: Value, extra: set<nat>)
    requires Renewed(m, n, id, d, e, key, w, extra)
    ensures Rooted(n, id, e) && FieldsAt(n, id, e) == FieldsAt(m, id, d)[key := JsonOf(n, w, e - 1)]
  {
    assert Rooted(n, id, e);
    assert FieldsAt(n, id, e) == FieldsAt(m, id, d)[key := JsonOf(n, w, e - 1)];
  }

  lemma RenewedReach(m: Nodes, n: Nodes, id: nat, d: nat, e: nat, key: string, w: Value, extra: set<nat>)
    requires Renewed(m, n, id, d, e, key, w, extra) && Rooted(n, id, e)
    ensures Reach(n, id, e) <= Reach(m, id, d) + extra
  {
    forall x | x in Reach(n, id, e) ensures x in Reach(m, id, d) + extra {
      if x != id {
        var k :| k in n[id] && n[id][k].Ref? && x in Reach(n, n[id][k].id, e - 1);
        if k == key {
          if x !in extra { ReachBelow(m, id, d, key); }
        } else {
          ReachBelow(m, id, d, k);
        }
      }
    }
  }

  lemma OwnId(m: Nodes, id: nat, d: nat)
    requires Rooted(m, id, d)
    ensures id in Reach(m, id, d) && id in m
  {}

  lemma RenewedChild(m: Nodes, n: Nodes, id: nat, d: nat, e: nat, key: string, w: Value, extra: set<nat>, k: string)
    requires Renewed(m, n, id, d, e, key, w, extra) && Rooted(n, id, e) && k in n[id] && n[id][k].Ref?
    ensures id !in Reach(n, n[id][k].id, e - 1) && Unshared(n, n[id][k].id, e - 1)
  {
    OwnId(m, id, d);
  }

  lemma RenewedApart(m: Nodes, n: Nodes, id: nat, d: nat, e: nat, key: string, w: Value, extra: set<nat>,
                     k: string, l: string)
    requires Renewed(m, n, id, d, e, key, w, extra) && Rooted(n, id, e)
    requires k in n[id] && l in n[id] && k != l && l != key && n[id][k].Ref? && n[id][l].Ref?
    ensures Reach(n, n[id][k].id, e - 1) !! Reach(n, n[id][l].id, e - 1)
  {
    ReachBelow(m, id, d, l);
  }

  lemma RenewedUnshared(m: Nodes, n: Nodes, id: nat, d: nat, e: nat, key: string, w: Value, extra: set<nat>)
    requires Renewed(m, n, id, d, e, key, w, extra) && Rooted(n, id, e)
    ensures Unshared(n, id, e)
  {
    forall k | k in n[id] && n[id][k].Ref?
      ensures id !in Reach(n, n[id][k].id, e - 1) && Unshared(n, n[id][k].id, e - 1)
    {
      RenewedChild(m, n, id, d, e, key, w, extra, k);
    }
    forall k, l | k in n[id] && l in n[id] && k != l && n[id][k].Ref? && n[id][l].Ref?
      ensures Reach(n, n[id][k].id, e - 1) !! Reach(n, n[id][l].id, e - 1)
    {
      if l != key {
        RenewedApart(m, n, id, d, e, key, w, extra, k, l);
      } else {
        RenewedApart(m, n, id, d, e, key, w, extra, l, k);
      }
    }
  }

  lemma Chained(m: Nodes, n: Nodes, id: nat, d: nat, e: nat)
    requires Same(m, n, id, d, d) && Same(n, n, id, d, e)
    ensures Same(m, n, id, d, e)
  {}

  /** A tree without the written object stays what it was. */
  lemma WriteElsewhere(m: Nodes, at: nat, key: string, v: Value, id: nat, d: nat, e: nat)
    requires at in m && Rooted(m, id, d) && at !in Reach(m, id, d) && d <= e
    ensures Same(m, Write(m, at, key, v), id, d, e)
  {
    var n := Write(m, at, key, v);
    ReachStored(m, id, d);
    Framed(m, n, id, d);
    Deeper(n, id, d, e);
    Chained(m, n, id, d, e);
  }

  lemma RootApart(m: Nodes, id: nat, d: nat, l: string)
    requires IsTree(m, id, d) && l in m[id] && m[id][l].Ref?
    ensures d > 0 && id in m && id !in Reach(m, m[id][l].id, d - 1)
  {}

  /** A value whose objects are not written stays what it was. */
  lemma WholeKept(m: Nodes, at: nat, key: string, w: Value, v: Value, d: nat, e: nat)
    requires at in m && Whole(m, v, d) && at !in Foot(m, v, d) && d <= e
    ensures var n := Write(m, at, key, w);
            Whole(n, v, e) && Foot(n, v, e) == Foot(m, v, d) && JsonOf(n, v, e) == JsonOf(m, v, d)
  {
    if v.Ref? { WriteElsewhere(m, at, key, w, v.id, d, e); }
  }

  lemma OthersKept(m: Nodes, id: nat, d: nat, key: string, v: Value, e: nat, l: string)
    requires IsTree(m, id, d) && l in m[id] && m[id][l].Ref? && d <= e
    ensures d > 0 && id in m && Same(m, Write(m, id, key, v), m[id][l].id, d - 1, e)
  {
    RootApart(m, id, d, l);
    WriteElsewhere(m, id, key, v, m[id][l].id, d - 1, e);
  }

  /** Writing into the root itself. */
  lemma WriteHere(m: Nodes, id: nat, d: nat, key: string, v: Value, dv: nat, e: nat)
    requires IsTree(m, id, d) && Whole(m, v, dv) && Foot(m, v, dv) !! Reach(m, id, d) && e == d + dv
    ensures Renewed(m, Write(m, id, key, v), id, d, e + 1, key, v, Foot(m, v, dv))
    ensures JsonOf(Write(m, id, key, v), v, e) == JsonOf(m, v, dv)
  {
    OwnId(m, id, d);
    forall l | l in m[id] && l != key && m[id][l].Ref?
      ensures d > 0 && Same(m, Write(m, id, key, v), m[id][l].id, d - 1, e)
    {
      OthersKept(m, id, d, key, v, e, l);
    }
    WholeKept(m, id, key, v, v, dv, e);
  }

  /** What a write makes of a tree. */
  ghost predicate Written(m: Nodes, n: Nodes, id: nat, d: nat, e: nat, p: seq<string>, j: Json, extra: set<nat>)
    requires Rooted(m, id, d) && p != []
  {
    && IsTree(n, id, e) && FieldsAt(n, id, e) == Set(FieldsAt(m, id, d), p, j)
    && Reach(n, id, e) <= Reach(m, id, d) + extra
  }

  lemma LeadsInside(m: Nodes, id: nat, d: nat, p: seq<string>, to: nat)
    requires Rooted(m, id, d) && Leads(m, id, p, to)
    ensures to in Reach(m, id, d) && to in m
    decreases |p|
  {
    OwnId(m, id, d);
    if p != [] {
      LeadsInside(m, m[id][p[0]].id, d - 1, p[1..], to);
      ReachBelow(m, id, d, p[0]);
    }
  }

  lemma ElsewhereInTree(m: Nodes, id: nat, d: nat, k: string, l: string, at: nat)
    requires IsTree(m, id, d) && k in m[id] && l in m[id] && k != l && m[id][k].Ref? && m[id][l].Ref?
    requires at in Reach(m, m[id][k].id, d - 1)
    ensures d > 0 && at !in Reach(m, m[id][l].id, d - 1) && at != id
  {}

  lemma BelowOther(m: Nodes, id: nat, d: nat, k: string, at: nat, key: string, v: Value, e: nat, l: string)
    requires IsTree(m, id, d) && k in m[id] && m[id][k].Ref? && d < e
    requires at in m && at in Reach(m, m[id][k].id, d - 1)
    requires l in m[id] && l != k && m[id][l].Ref?
    ensures d > 0 && Same(m, Write(m, at, key, v), m[id][l].id, d - 1, e - 1)
  {
    ElsewhereInTree(m, id, d, k, l, at);
    WriteElsewhere(m, at, key, v, m[id][l].id, d - 1, e - 1);
  }

  /** A child that has become another tree renews its own entry and no other. */
  lemma ChildRenewed(m: Nodes, n: Nodes, id: nat, d: nat, e: nat, k: string, w: Value, extra: set<nat>)
    requires IsTree(m, id, d) && k in m[id] && w == m[id][k] && w.Ref? && extra !! Reach(m, id, d) && 0 < d < e
    requires id in n && n[id] == m[id] && IsTree(n, w.id, e - 1)
    requires Reach(n, w.id, e - 1) <= Reach(m, w.id, d - 1) + extra
    requires forall l :: l in m[id] && l != k && m[id][l].Ref? ==> Same(m, n, m[id][l].id, d - 1, e - 1)
    ensures Renewed(m, n, id, d, e, k, w, extra)
  {
    assert m[id][k := w] == m[id];
  }

  /** A write below a child renews that child's entry and no other. */
  lemma WriteBelow(m: Nodes, id: nat, d: nat, k: string, at: nat, key: string, v: Value, e: nat, extra: set<nat>)
    requires IsTree(m, id, d) && k in m[id] && m[id][k].Ref? && extra !! Reach(m, id, d) && d < e
    requires at in m && at in Reach(m, m[id][k].id, d - 1)
    requires IsTree(Write(m, at, key, v), m[id][k].id, e - 1)
    requires Reach(Write(m, at, key, v), m[id][k].id, e - 1) <= Reach(m, m[id][k].id, d - 1) + extra
    ensures Renewed(m, Write(m, at, key, v), id, d, e, k, m[id][k], extra)
  {
    RootApart(m, id, d, k);
    var n, w := Write(m, at, key, v), m[id][k];
    forall l | l in m[id] && l != k && m[id][l].Ref? ensures Same(m, n, m[id][l].id, d - 1, e - 1) {
      BelowOther(m, id, d, k, at, key, v, e, l);
    }
    ChildRenewed(m, n, id, d, e, k, w, extra);
  }

  lemma SetInField(o: Fields, k: string, c: Fields, rest: seq<string>, j: Json)
    requires k in o && o[k] == Obj(c) && rest != []
    ensures Set(o, [k] + rest, j) == o[k := Obj(Set(c, rest, j))]
  {
    assert ([k] + rest)[1..] == rest;
  }

  lemma RenewedAll(m: Nodes, n: Nodes, id: nat, d: nat, e: nat, key: string, w: Value, extra: set<nat>)
    requires Renewed(m, n, id, d, e, key, w, extra)
    ensures IsTree(n, id, e) && FieldsAt(n, id, e) == FieldsAt(m, id, d)[key := JsonOf(n, w, e - 1)]
    ensures Reach(n, id, e) <= Reach(m, id, d) + extra
  {
    RenewedRooted(m, n, id, d, e, key, w, extra);
    RenewedReach(m, n, id, d, e, key, w, extra);
    RenewedUnshared(m, n, id, d, e, key, w, extra);
  }

  lemma WriteSetsHere(m: Nodes, id: nat, d: nat, key: string, v: Value, dv: nat)
    requires IsTree(m, id, d) && Whole(m, v, dv) && Foot(m, v, dv) !! Reach(m, id, d)
    ensures id in m && Written(m, Write(m, id, key, v), id, d, d + dv + 1, [key], JsonOf(m, v, dv), Foot(m, v, dv))
  {
    WriteHere(m, id, d, key, v, dv, d + dv);
    RenewedAll(m, Write(m, id, key, v), id, d, d + dv + 1, key, v, Foot(m, v, dv));
  }

  lemma WriteSetsBelow(m: Nodes, id: nat, d: nat, k: string, rest: seq<string>, at: nat, key: string, v: Value, e: nat,
                       j: Json, extra: set<nat>)
    requires IsTree(m, id, d) && k in m[id] && m[id][k].Ref? && extra !! Reach(m, id, d) && rest != [] && d < e
    requires at in m && at in Reach(m, m[id][k].id, d - 1)
    requires Written(m, Write(m, at, key, v), m[id][k].id, d - 1, e - 1, rest, j, extra)
    ensures Written(m, Write(m, at, key, v), id, d, e, [k] + rest, j, extra)
  {
    WriteBelow(m, id, d, k, at, key, v, e, extra);
    RenewedAll(m, Write(m, at, key, v), id, d, e, k, m[id][k], extra);
    SetInField(FieldsAt(m, id, d), k, FieldsAt(m, m[id][k].id, d - 1), rest, j);
  }

  lemma ChildApart(m: Nodes, id: nat, d: nat, k: string, foot: set<nat>)
    requires IsTree(m, id, d) && k in m[id] && m[id][k].Ref? && foot !! Reach(m, id, d)
    ensures d > 0 && IsTree(m, m[id][k].id, d - 1) && foot !! Reach(m, m[id][k].id, d - 1)
  {
    ReachBelow(m, id, d, k);
  }

  lemma LeadsToChild(m: Nodes, id: nat, d: nat, p: seq<string>, at: nat, foot: set<nat>)
    requires IsTree(m, id, d) && p != [] && Leads(m, id, p, at) && foot !! Reach(m, id, d)
    ensures p[0] in m[id] && m[id][p[0]].Ref? && d > 0 && IsTree(m, m[id][p[0]].id, d - 1)
    ensures foot !! Reach(m, m[id][p[0]].id, d - 1) && Leads(m, m[id][p[0]].id, p[1..], at)
    ensures at in m && at in Reach(m, m[id][p[0]].id, d - 1)
  {
    ChildApart(m, id, d, p[0], foot);
    LeadsInside(m, m[id][p[0]].id, d - 1, p[1..], at);
  }

  lemma WriteSetsAtRoot(m: Nodes, id: nat, d: nat, p: seq<string>, at: nat, key: string, v: Value, dv: nat, e: nat)
    requires IsTree(m, id, d) && p == [] && at == id && e == d + dv + 1
    requires Whole(m, v, dv) && Foot(m, v, dv) !! Reach(m, id, d)
    ensures at in m && Written(m, Write(m, at, key, v), id, d, e, p + [key], JsonOf(m, v, dv), Foot(m, v, dv))
  {
    assert p + [key] == [key];
    WriteSetsHere(m, id, d, key, v, dv);
  }

  /** Where the write sets below the child, it sets below the whole. */
  lemma WriteSetsStep(m: Nodes, id: nat, d: nat, p: seq<string>, at: nat, key: string, v: Value, e: nat, j: Json,
                      foot: set<nat>)
    requires IsTree(m, id, d) && p != [] && Leads(m, id, p, at) && foot !! Reach(m, id, d) && d < e
    requires at in m && Rooted(m, m[id][p[0]].id, d - 1)
    requires Written(m, Write(m, at, key, v), m[id][p[0]].id, d - 1, e - 1, p[1..] + [key], j, foot)
    ensures Written(m, Write(m, at, key, v), id, d, e, p + [key], j, foot)
  {
    LeadsToChild(m, id, d, p, at, foot);
    assert p + [key] == [p[0]] + (p[1..] + [key]);
    WriteSetsBelow(m, id, d, p[0], p[1..] + [key], at, key, v, e, j, foot);
  }

  /** Writing an entry of the object that a path leads to is setting at the path and the key. */
  lemma {:induction false} WriteSets(m: Nodes, id: nat, d: nat, p: seq<string>, at: nat, key: string, v: Value,
                                     dv: nat, e: nat)
    requires IsTree(m, id, d) && Leads(m, id, p, at) && e == d + dv + 1
    requires Whole(m, v, dv) && Foot(m, v, dv) !! Reach(m, id, d)
    ensures at in m && Written(m, Write(m, at, key, v), id, d, e, p + [key], JsonOf(m, v, dv), Foot(m, v, dv))
    decreases |p|
  {
    if p == [] {
      WriteSetsAtRoot(m, id, d, p, at, key, v, dv, e);
    } else {
      LeadsToChild(m, id, d, p, at, Foot(m, v, dv));
      WriteSets(m, m[id][p[0]].id, d - 1, p[1..], at, key, v, dv, e - 1);
      WriteSetsStep(m, id, d, p, at, key, v, e, JsonOf(m, v, dv), Foot(m, v, dv));
    }
  }

  // ----- walking

  lemma {:induction false} LeadsBelow(m: Nodes, id: nat, d: nat, p: seq<string>, to: nat)
    requires Rooted(m, id, d) && Leads(m, id, p, to)
    ensures |p| <= d && Rooted(m, to, d - |p|) && Below(FieldsAt(m, id, d), p) == FieldsAt(m, to, d - |p|)
    decreases |p|
  {
    if p != [] {
      LeadsBelow(m, m[id][p[0]].id, d - 1, p[1..], to);
    }
  }

  lemma {:induction false} LeadsOn(m: Nodes, id: nat, p: seq<string>, at: nat, key: string)
    requires Leads(m, id, p, at) && at in m && key in m[at] && m[at][key].Ref?
    ensures Leads(m, id, p + [key], m[at][key].id)
    decreases |p|
  {
    if p == [] {
      assert p + [key] == [key] && [key][1..] == [];
    } else {
      assert (p + [key])[1..] == p[1..] + [key];
      LeadsOn(m, m[id][p[0]].id, p[1..], at, key);
    }
  }

  /** The way to the written object stays. */
  lemma {:induction false} LeadsKept(m: Nodes, id: nat, d: nat, p: seq<string>, at: nat, key: string, v: Value)
    requires IsTree(m, id, d) && Leads(m, id, p, at)
    ensures at in m && Leads(Write(m, at, key, v), id, p, at)
    decreases |p|
  {
    LeadsInside(m, id, d, p, at);
    if p != [] {
      LeadsInside(m, m[id][p[0]].id, d - 1, p[1..], at);
      LeadsKept(m, m[id][p[0]].id, d - 1, p[1..], at, key, v);
    }
  }

  /** A new map object disturbs no tree. */
  lemma AddMap(m: Nodes, child: nat, id: nat, d: nat)
    requires Rooted(m, id, d) && child !in m
    ensures Same(m, m[child := map[]], id, d, d) && child !in Reach(m, id, d)
  {
    ReachStored(m, id, d);
    Framed(m, m[child := map[]], id, d);
  }

  lemma {:induction false} AddMapLeads(m: Nodes, child: nat, id: nat, p: seq<string>, at: nat)
    requires Leads(m, id, p, at) && child !in m
    ensures Leads(m[child := map[]], id, p, at)
    decreases |p|
  {
    if p != [] { AddMapLeads(m, child, m[id][p[0]].id, p[1..], at); }
  }

  lemma EmptyMap(m: Nodes, child: nat)
    requires child in m && m[child] == map[]
    ensures IsTree(m, child, 0) && Reach(m, child, 0) == {child} && FieldsAt(m, child, 0) == map[]
  {}

  /** Where the walk stands: at the object the path so far leads to, in a tree that the whole set will make
      the same of, with the value still apart. */
  ghost predicate Walking(m: Nodes, root: nat, e: nat, path: seq<string>, i: nat, obj: nat, v: Value, dv: nat,
                          j: Json, to: Fields)
    requires path != []
  {
    && i < |path| && IsTree(m, root, e) && Leads(m, root, path[..i], obj)
    && Whole(m, v, dv) && JsonOf(m, v, dv) == j && Foot(m, v, dv) !! Reach(m, root, e)
    && Set(FieldsAt(m, root, e), path, j) == to
  }

  lemma WalkStarts(m: Nodes, root: nat, d: nat, path: seq<string>, v: Value, dv: nat)
    requires path != [] && IsTree(m, root, d) && Whole(m, v, dv) && Foot(m, v, dv) !! Reach(m, root, d)
    ensures var j := JsonOf(m, v, dv);
            Walking(m, root, d, path, 0, root, v, dv, j, Set(FieldsAt(m, root, d), path, j))
  {}

  lemma StepDown(m: Nodes, root: nat, e: nat, path: seq<string>, i: nat, obj: nat, v: Value, dv: nat, j: Json,
                 to: Fields)
    requires path != [] && Walking(m, root, e, path, i, obj, v, dv, j, to) && i + 1 < |path|
    requires obj in m && path[i] in m[obj] && m[obj][path[i]].Ref?
    ensures Walking(m, root, e, path, i + 1, m[obj][path[i]].id, v, dv, j, to)
  {
    LeadsOn(m, root, path[..i], obj, path[i]);
    assert path[..i + 1] == path[..i] + [path[i]];
  }

  /** A new map object does not disturb the walk. */
  lemma StepAside(m: Nodes, root: nat, e: nat, path: seq<string>, i: nat, obj: nat, v: Value, dv: nat, j: Json,
                  to: Fields, child: nat)
    requires path != [] && Walking(m, root, e, path, i, obj, v, dv, j, to) && child !in m
    ensures Walking(m[child := map[]], root, e, path, i, obj, v, dv, j, to)
    ensures child !in Reach(m[child := map[]], root, e) && child !in Foot(m[child := map[]], v, dv)
  {
    AddMap(m, child, root, e);
    AddMapLeads(m, child, root, path[..i], obj);
    if v.Ref? { AddMap(m, child, v.id, dv); }
  }

  /** Hanging an empty map where the walk finds none keeps what the whole set will make. */
  lemma HangEmpty(m: Nodes, root: nat, e: nat, path: seq<string>, i: nat, obj: nat, v: Value, dv: nat, j: Json,
                  to: Fields, child: nat)
    requires path != [] && Walking(m, root, e, path, i, obj, v, dv, j, to) && i + 1 < |path|
    requires child in m && m[child] == map[] && child !in Reach(m, root, e)
    requires obj in m && !(path[i] in m[obj] && m[obj][path[i]].Ref?)
    ensures var n := Write(m, obj, path[i], Ref(child));
            && IsTree(n, root, e + 1) && Reach(n, root, e + 1) <= Reach(m, root, e) + {child}
            && Set(FieldsAt(n, root, e + 1), path, j) == to
  {
    var key, p := path[i], path[..i];
    EmptyMap(m, child);
    WriteSets(m, root, e, p, obj, key, Ref(child), 0, e + 1);
    LeadsBelow(m, root, e, p, obj);
    assert path == p + [key] + path[i + 1..];
    SetThroughEmpty(FieldsAt(m, root, e), p, key, path[i + 1..], j);
  }

  /** Making a map where the walk finds none, and stepping into it. */
  lemma StepInto(m: Nodes, root: nat, e: nat, path: seq<string>, i: nat, obj: nat, v: Value, dv: nat, j: Json,
                 to: Fields, child: nat)
    requires path != [] && Walking(m, root, e, path, i, obj, v, dv, j, to) && i + 1 < |path|
    requires child in m && m[child] == map[] && child !in Reach(m, root, e) && child !in Foot(m, v, dv)
    requires obj in m && !(path[i] in m[obj] && m[obj][path[i]].Ref?)
    ensures Walking(Write(m, obj, path[i], Ref(child)), root, e + 1, path, i + 1, child, v, dv, j, to)
  {
    var n := Write(m, obj, path[i], Ref(child));
    HangEmpty(m, root, e, path, i, obj, v, dv, j, to, child);
    LeadsInside(m, root, e, path[..i], obj);
    LeadsKept(m, root, e, path[..i], obj, path[i], Ref(child));
    LeadsOn(n, root, path[..i], obj, path[i]);
    assert path[..i + 1] == path[..i] + [path[i]];
    WholeKept(m, obj, path[i], Ref(child), v, dv, dv);
  }

  /** At the end of the walk one write makes what the whole set makes. */
  lemma LastWrite(m: Nodes, root: nat, e: nat, path: seq<string>, obj: nat, v: Value, dv: nat, j: Json, to: Fields)
    requires path != [] && Walking(m, root, e, path, |path| - 1, obj, v, dv, j, to) && obj in m
    ensures var n := Write(m, obj, path[|path| - 1], v);
            IsTree(n, root, e + dv + 1) && FieldsAt(n, root, e + dv + 1) == to
  {
    var i := |path| - 1;
    assert path == path[..i] + [path[i]];
    WriteSets(m, root, e, path[..i], obj, path[i], v, dv, e + dv + 1);
  }

  /** The map objects of a running program. */
  class Store {
    var nodes: Nodes
    var next: nat

    ghost predicate Valid()
      reads this
    {
      forall id :: id in nodes ==> id < next
    }

    /** One step of the walk: into the map under the next key, made anew where there is none. */
    method StepTo(root: nat, path: seq<string>, i: nat, obj: nat, ghost e: nat, ghost v: Value, ghost dv: nat,
                  ghost j: Json, ghost to: Fields) returns (child: nat, ghost deeper: nat)
      requires Valid() && path != [] && Walking(nodes, root, e, path, i, obj, v, dv, j, to) && i + 1 < |path|
      modifies this
      ensures Valid() && Walking(nodes, root, deeper, path, i + 1, child, v, dv, j, to)
    {
      var key := path[i];
      LeadsInside(nodes, root, e, path[..i], obj);
      if key in nodes[obj] && nodes[obj][key].Ref? {
        StepDown(nodes, root, e, path, i, obj, v, dv, j, to);
        return nodes[obj][key].id, e;
      }
      child := NewMap();
      StepAside(old(nodes), root, e, path, i, obj, v, dv, j, to, child);
      StepInto(nodes, root, e, path, i, obj, v, dv, j, to, child);
      nodes := Write(nodes, obj, key, Ref(child));
      deeper := e + 1;
    }

    method NewMap() returns (id: nat)
      requires Valid()
      modifies this
      ensures Valid() && id !in old(nodes) && nodes == old(nodes)[id := map[]]
    {
      id := next;
      next := next + 1;
      nodes := nodes[id := map[]];
    }

    /** The end of the walk. */
    method SetLeaf(root: nat, path: seq<string>, obj: nat, ghost e: nat, v: Value, ghost dv: nat, ghost j: Json,
                   ghost to: Fields) returns (ghost deeper: nat)
      requires Valid() && path != [] && Walking(nodes, root, e, path, |path| - 1, obj, v, dv, j, to)
      modifies this
      ensures Valid() && IsTree(nodes, root, deeper) && FieldsAt(nodes, root, deeper) == to
    {
      LeadsInside(nodes, root, e, path[..|path| - 1], obj);
      LastWrite(nodes, root, e, path, obj, v, dv, j, to);
      nodes := Write(nodes, obj, path[|path| - 1], v);
      deeper := e + dv + 1;
    }

    /** Walks and makes nested maps along the path and sets the leaf: what the root stands for becomes what
        the set makes of it. */
    method SetNestedValue(root: nat, path: seq<string>, v: Value, ghost d: nat, ghost dv: nat) returns (ghost e: nat)
      requires Valid() && path != [] && IsTree(nodes, root, d)
      requires Whole(nodes, v, dv) && Foot(nodes, v, dv) !! Reach(nodes, root, d)
      modifies this
      ensures Valid() && IsTree(nodes, root, e)
      ensures FieldsAt(nodes, root, e) == Set(old(FieldsAt(nodes, root, d)), path, old(JsonOf(nodes, v, dv)))
    {
      var obj, i := root, 0;
      e := d;
      ghost var j, to := JsonOf(nodes, v, dv), Set(FieldsAt(nodes, root, d), path, JsonOf(nodes, v, dv));
      WalkStarts(nodes, root, d, path, v, dv);
      while i < |path| - 1
        invariant Valid() && Walking(nodes, root, e, path, i, obj, v, dv, j, to)
      {
        obj, e := StepTo(root, path, i, obj, e, v, dv, j, to);
        i := i + 1;
      }
      e := SetLeaf(root, path, obj, e, v, dv, j, to);
    }
  }
}
