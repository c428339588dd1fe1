/** What a load shows under a key, when the migration may take the legacy keys in any order. */
module StoreLoads {
  import opened Text
  import opened StoreState
  import opened StoreMigration

  /** Every load, whatever order the map yields, shows the record `p` under `k`. */
  ghost predicate Shows(st: State, k: string, p: Plugin) {
    forall loaded :: Loads(st, loaded) ==> k in loaded.plugins && loaded.plugins[k] == p
  }

  /** The migration may move the record under `m` to the bare key `k`. */
  predicate MovesTo(st: State, m: string, k: string) { Movable(st, m) && Cut(m, '@').before == k }

  function MovedTo(st: State, m: string): Plugin
    requires m in st.plugins
  {
    MovedPlugin(st.plugins[m], Cut(m, '@').before, Cut(m, '@').after)
  }

  /** The first key of `order` that the migration may move to `k`. */
  function FirstTo(st: State, order: seq<string>, k: string): (first: Option<string>)
    ensures first.Some? ==> first.value in order && MovesTo(st, first.value, k)
    ensures first.None? ==> forall m :: m in order ==> !MovesTo(st, m, k)
  {
    if order == [] then None else if MovesTo(st, order[0], k) then Some(order[0]) else FirstTo(st, order[1..], k)
  }

  lemma {:induction false} SameFirstTo(st: State, other: State, order: seq<string>, k: string)
    requires forall m :: MovesTo(st, m, k) <==> MovesTo(other, m, k)
    ensures FirstTo(st, order, k) == FirstTo(other, order, k)
  {
    if order != [] {
      SameFirstTo(st, other, order[1..], k);
    }
  }

  /** A move to another key leaves the candidates for `k` as they were. */
  lemma MoveOneSparesRivals(st: State, key: string, k: string, m: string)
    requires k !in st.plugins && !MovesTo(st, key, k)
    ensures k !in MoveOne(st, key).plugins && (MovesTo(st, m, k) <==> MovesTo(MoveOne(st, key), m, k))
    ensures MovesTo(st, m, k) ==> m in MoveOne(st, key).plugins && MoveOne(st, key).plugins[m] == st.plugins[m]
  {
    MoveOneShape(st, key);
  }

  /** A free key gets the record of the first candidate that comes up, and stays free when none does. */
  lemma {:induction false} AlongTo(st: State, order: seq<string>, k: string)
    requires k !in st.plugins
    ensures var to, first := MoveAlong(st, order).plugins, FirstTo(st, order, k);
            if first.None? then k !in to else k in to && to[k] == MovedTo(st, first.value)
    decreases |order|
  {
    if order != [] {
      var next := MoveOne(st, order[0]);
      if MovesTo(st, order[0], k) {
        MoveOneShape(st, order[0]);
        assert !Movable(next, k);
        UnmovableStays(next, order[1..], k);
      } else {
        forall m ensures MovesTo(st, m, k) <==> MovesTo(next, m, k) { MoveOneSparesRivals(st, order[0], k, m); }
        SameFirstTo(st, next, order[1..], k);
        AlongTo(next, order[1..], k);
        var first := FirstTo(st, order[1..], k);
        if first.Some? { MoveOneSparesRivals(st, order[0], k, first.value); }
      }
    }
  }

  lemma {:induction false} SomeOrder(keys: set<string>) returns (order: seq<string>)
    ensures Covers(order, keys)
  {
    order := [];
    if keys != {} {
      var k :| k in keys;
      var rest := SomeOrder(keys - {k});
      order := [k] + rest;
    }
  }

  /** There is a load that looks at `key` first. */
  lemma LoadFrom(st: State, key: string) returns (order: seq<string>, loaded: State)
    ensures Loads(st, loaded) && loaded == MoveAlong(st, [key] + order) == MoveAlong(MoveOne(st, key), order)
  {
    order := SomeOrder(st.plugins.Keys);
    loaded := MoveAlong(st, [key] + order);
    assert ([key] + order)[1..] == order;
    assert Covers([key] + order, st.plugins.Keys);
  }

  lemma LoadSpares(stored: State, loaded: State, k: string)
    requires Loads(stored, loaded) && k in stored.plugins && !Movable(stored, k)
    ensures k in loaded.plugins && loaded.plugins[k] == stored.plugins[k] && !Movable(loaded, k)
  {
    var order :| Covers(order, stored.plugins.Keys) && loaded == MoveAlong(stored, order);
    UnmovableStays(stored, order, k);
  }

  /** A free key that every candidate fills alike. */
  ghost predicate FilledAlike(st: State, k: string, p: Plugin) {
    && k !in st.plugins && (exists m :: MovesTo(st, m, k))
    && forall m :: MovesTo(st, m, k) ==> MovedTo(st, m) == p
  }

  lemma FilledAlikeShows(st: State, k: string, p: Plugin)
    requires FilledAlike(st, k, p)
    ensures Shows(st, k, p)
  {
    forall loaded | Loads(st, loaded) ensures k in loaded.plugins && loaded.plugins[k] == p {
      var order :| Covers(order, st.plugins.Keys) && loaded == MoveAlong(st, order);
      var m :| MovesTo(st, m, k);
      assert m in order;
      AlongTo(st, order, k);
    }
  }

  lemma ShowsOnlyOne(st: State, k: string, p: Plugin, m: string)
    requires Shows(st, k, p) && MovesTo(st, m, k)
    ensures MovedTo(st, m) == p
  {
    var order, loaded := LoadFrom(st, m);
    AlongTo(st, [m] + order, k);
  }

  /** A key that may move away is not shown by the load that moves it first. */
  lemma MovableIsNotShown(st: State, k: string, p: Plugin)
    requires Movable(st, k)
    ensures !Shows(st, k, p)
  {
    var order, loaded := LoadFrom(st, k);
    MoveOneShape(st, k);
    AlongTo(MoveOne(st, k), order, k);
  }

  /** Whatever order the map yields, a load shows one and the same record under a key exactly when it is stored
      there and cannot move, or the key is free and all legacy records that compete for it would fill it alike. */
  lemma ShowsExactlyWhenSettledOrAlike(st: State, k: string, p: Plugin)
    ensures Shows(st, k, p) <==>
            (k in st.plugins && !Movable(st, k) && st.plugins[k] == p) || FilledAlike(st, k, p)
  {
    var order, loaded := LoadFrom(st, k);
    if k in st.plugins && !Movable(st, k) {
      forall l | Loads(st, l) ensures k in l.plugins && l.plugins[k] == st.plugins[k] { LoadSpares(st, l, k); }
    } else if k in st.plugins {
      MovableIsNotShown(st, k, p);
    } else if FilledAlike(st, k, p) {
      FilledAlikeShows(st, k, p);
    } else if Shows(st, k, p) {
      AlongTo(st, [k] + order, k);
      forall m | MovesTo(st, m, k) ensures MovedTo(st, m) == p { ShowsOnlyOne(st, k, p, m); }
    }
  }

  function Legacy(version: string): Plugin {
    Plugin(Ref("a", version, ""), MARKETPLACE, true, "", "", "", map[], None, "", "", "", "")
  }

  /** A sound store with two legacy versions of one plugin. */
  function TwoVersions(): State { State(map["a@1" := Legacy("1"), "a@2" := Legacy("2")], map[]) }

  lemma TwoVersionsCompete()
    ensures var st := TwoVersions();
            && MovesTo(st, "a@1", "a") && MovedTo(st, "a@1").installedVersion == "1"
            && MovesTo(st, "a@2", "a") && MovedTo(st, "a@2").installedVersion == "2"
  {
    assert Cut("a@1", '@') == Halves("a", "1", true) && Cut("a@2", '@') == Halves("a", "2", true);
    TrimmedFixed("1");
    TrimmedFixed("2");
  }

  lemma TwoVersionsIsSound()
    ensures Integrity(TwoVersions())
  {
    assert "a" + "@" + "1" == "a@1" && "a" + "@" + "2" == "a@2";
  }

  /** It happens that the order shows: with two legacy versions the one looked at first takes the bare name. */
  lemma OrderCanShow(p: Plugin)
    ensures Integrity(TwoVersions()) && !Shows(TwoVersions(), "a", p)
  {
    TwoVersionsIsSound();
    TwoVersionsCompete();
    if Shows(TwoVersions(), "a", p) {
      ShowsOnlyOne(TwoVersions(), "a", p, "a@1");
      ShowsOnlyOne(TwoVersions(), "a", p, "a@2");
    }
  }
}
