/** Decoded JSON as the program holds it: maps and arrays are objects that are changed in place. */
module JsonHeap {
  import opened Text
  import opened JsonTree

  datatype Key = Name(s: string) | At(i: nat)

  datatype Value = Scalar(json: Json) | Ref(node: Node)

  function RedactedAt(isList: bool, k: Key, j: Json): Json {
    if !isList && k.Name? && IsSecretKey(k.s) then MASK else Redact(j)
  }

  /** The entries when all but `todo` have been dealt with. */
  function Redacting(isList: bool, was: map<Key, Json>, todo: set<Key>): map<Key, Json> {
    map k | k in was :: if k in todo then was[k] else RedactedAt(isList, k, was[k])
  }

  lemma RedactingNext(isList: bool, was: map<Key, Json>, todo: set<Key>, k: Key)
    requires k in todo && k in was
    ensures Redacting(isList, was, todo)[k] == was[k]
    ensures Redacting(isList, was, todo - {k}) == Redacting(isList, was, todo)[k := RedactedAt(isList, k, was[k])]
  {}

  lemma SameMaps(m: map<Key, Json>, n: map<Key, Json>)
    requires m.Keys == n.Keys && forall k :: k in m ==> m[k] == n[k]
    ensures m == n
  {}

  /** The JSON value of a list or map with these entries. */
  function Assemble(isList: bool, m: map<Key, Json>): Json {
    if isList then Arr(seq(|m|, i requires 0 <= i < |m| => if At(i) in m then m[At(i)] else Null))
    else Obj(map k | k in m && k.Name? :: k.s := m[k])
  }

  lemma RedactedFields(was: map<Key, Json>)
    requires forall k :: k in was ==> k.Name?
    ensures Assemble(false, Redacting(false, was, {})) == Redact(Assemble(false, was))
  {}

  lemma RedactedAssembles(isList: bool, was: map<Key, Json>)
    requires forall k :: k in was ==> if isList then k.At? && k.i < |was| else k.Name?
    requires isList ==> forall i: nat :: i < |was| ==> At(i) in was
    ensures Assemble(isList, Redacting(isList, was, {})) == Redact(Assemble(isList, was))
  {
    var now := Redacting(isList, was, {});
    assert now.Keys == was.Keys;
    if isList {
      assert |now| == |was|;
      assert Assemble(true, now).items == Redact(Assemble(true, was)).items;
    } else {
      RedactedFields(was);
    }
  }

  /** A decoded map or array; nothing below it is shared. */
  class Node {
    const isList: bool
    var entries: map<Key, Value>
    ghost var Repr: set<Node>

    constructor (isList: bool)
      ensures this.isList == isList && entries == map[] && Repr == {this}
    {
      this.isList := isList;
      entries := map[];
      Repr := {this};
    }

    /** What hangs below is valid and kept apart. */
    ghost predicate Valid()
      reads this, Repr
      decreases Repr, 0
    {
      && this in Repr
      && Shaped()
      && (forall k :: k in entries && entries[k].Ref? ==>
            && entries[k].node in Repr && entries[k].node.Repr <= Repr - {this} && entries[k].node.Valid())
      && (forall k, l :: k in entries && l in entries && k != l && entries[k].Ref? && entries[l].Ref? ==>
            entries[k].node.Repr !! entries[l].node.Repr)
    }

    predicate Shaped()
      reads this
    {
      && (forall k :: k in entries ==> if isList then k.At? && k.i < |entries| else k.Name?)
      && (isList ==> forall i: nat :: i < |entries| ==> At(i) in entries)
      && (forall k :: k in entries && entries[k].Scalar? ==> !entries[k].json.Obj? && !entries[k].json.Arr?)
    }

    /** The JSON value at an entry. */
    ghost function Below(k: Key): Json
      requires Valid() && k in entries
      reads this, Repr
      decreases Repr, 1
    {
      match entries[k]
      case Scalar(j) => j
      case Ref(c) => c.Tree()
    }

    ghost function Belows(): (m: map<Key, Json>)
      requires Valid()
      reads this, Repr
      ensures m.Keys == entries.Keys && forall k :: k in m ==> m[k] == Below(k)
      decreases Repr, 2
    {
      map k | k in entries :: Below(k)
    }

    /** The JSON value of the whole. */
    ghost function Tree(): Json
      requires Valid()
      reads this, Repr
      decreases Repr, 3
    {
      Assemble(isList, Belows())
    }

    /** Where the objects below are untouched, so are their values. */
    twostate lemma Untouched(k: Key)
      requires old(Valid()) && Valid() && k in old(entries) && k in entries && entries[k] == old(entries[k])
      requires entries[k].Ref? ==> unchanged(old(entries[k].node.Repr))
      ensures Below(k) == old(Below(k))
    {}

    /** Where one entry has been masked and nothing else has changed, the node is as valid as it was. */
    twostate lemma Masked(k: Key)
      requires old(Valid()) && k in old(entries) && entries == old(entries)[k := Scalar(MASK)]
      requires Repr == old(Repr) && unchanged(Repr - {this})
      ensures Valid()
    {
      assert entries.Keys == old(entries).Keys;
      forall l | l in entries && l != k && entries[l].Ref?
        ensures entries[l].node.Valid() && entries[l].node.Repr == old(entries[l].node.Repr)
      {
        assert old(entries[l].node.Valid());
      }
    }

    /** Masks a map entry, whatever hung there. */
    method MaskEntry(k: Key)
      requires Valid() && k in entries
      modifies this`entries
      ensures Valid() && Belows() == old(Belows())[k := MASK]
    {
      ghost var was := Belows();
      entries := entries[k := Scalar(MASK)];
      Masked(k);
      forall l | l in entries && l != k ensures Below(l) == was[l] {
        Untouched(l);
      }
      SameMaps(Belows(), was[k := MASK]);
    }

    /** Where one child has changed, and kept to itself, the node is as valid as it was. */
    twostate predicate OnlyChild(k: Key)
      reads this, Repr
    {
      && old(Valid()) && unchanged(this) && k in entries && entries[k].Ref?
      && entries[k].node.Repr == old(entries[k].node.Repr) && unchanged(Repr - old(entries[k].node.Repr))
    }

    twostate lemma ChildChanged(k: Key)
      requires OnlyChild(k) && entries[k].node in Repr && entries[k].node.Repr <= Repr && entries[k].node.Valid()
      ensures Valid()
    {
      forall l | l in entries && l != k && entries[l].Ref?
        ensures entries[l].node.Valid() && entries[l].node.Repr == old(entries[l].node.Repr)
      {
        ghost var c := entries[l].node;
        assert old(c.Repr) !! old(entries[k].node.Repr);
        assert old(c.Valid());
      }
    }

    twostate lemma ChildReplaced(k: Key)
      requires OnlyChild(k) && Valid()
      ensures Belows() == old(Belows())[k := Below(k)]
    {
      forall l | l in entries && l != k ensures Below(l) == old(Below(l)) {
        Untouched(l);
      }
      SameMaps(Belows(), old(Belows())[k := Below(k)]);
    }

    method RedactEntry(k: Key)
      requires Valid() && k in entries && entries[k].Ref?
      modifies entries[k].node.Repr
      ensures Valid() && Repr == old(Repr)
      ensures Belows() == old(Belows())[k := Redact(old(Below(k)))]
      decreases Repr, 0
    {
      entries[k].node.RedactSecrets();
      ChildChanged(k);
      ChildReplaced(k);
    }

    /** One round of the loop. */
    method RedactKey(k: Key)
      requires Valid() && k in entries
      modifies Repr
      ensures Valid() && Repr == old(Repr)
      ensures Belows() == old(Belows())[k := RedactedAt(isList, k, old(Belows())[k])]
      decreases Repr, 1
    {
      ghost var was := Belows();
      if !isList && IsSecretKey(k.s) {
        MaskEntry(k);
      } else if entries[k].Ref? {
        RedactEntry(k);
      } else {
        SameMaps(Belows(), was[k := RedactedAt(isList, k, was[k])]);
      }
    }

    /** Overwrites every secret-named map entry and walks into everything else. */
    method RedactSecrets()
      requires Valid()
      modifies Repr
      ensures Valid() && Repr == old(Repr)
      ensures Tree() == Redact(old(Tree()))
      decreases Repr, 2
    {
      var todo := entries.Keys;
      ghost var was := Belows();
      RedactedAssembles(isList, was);
      SameMaps(was, Redacting(isList, was, todo));
      while todo != {}
        invariant Valid() && Repr == old(Repr) && todo <= was.Keys
        invariant Belows() == Redacting(isList, was, todo)
        decreases todo
      {
        var k :| k in todo;
        RedactingNext(isList, was, todo, k);
        todo := todo - {k};
        RedactKey(k);
      }
    }
  }
}
