/** The migration every load performs: legacy "name@version" marketplace records move to the bare name,
    together with their instances. The source mutates both maps while ranging over them, in whatever
    order the maps yield; here the order is arbitrary. */
module StoreMigration {
  import opened Text
  import opened StoreState

  /** A versioned marketplace key whose bare key is free. */
  predicate Movable(st: State, key: string) {
    && key in st.plugins
    && var h := Cut(key, '@');
       h.found && TrimSpace(h.before) != "" && st.plugins[key].source == MARKETPLACE && h.before !in st.plugins
  }

  ghost predicate Settled(st: State) { forall k :: k in st.plugins ==> !Movable(st, k) }

  function MovedPlugin(p: Plugin, name: string, version: string): Plugin {
    p.(installedVersion := if p.installedVersion == "" then TrimSpace(version) else p.installedVersion,
       ref := p.ref.(version := "", name := name))
  }

  function MovedInstance(i: Instance, name: string): Instance {
    i.(plugin := i.plugin.(version := "", name := name))
  }

  /** The key an instance of `key` gets when its plugin becomes `name`. */
  function TargetKey(k: string, key: string, name: string): string
    requires key <= k
  {
    name + k[|key|..]
  }

  predicate MovesAlong(instances: map<string, Instance>, k: string, key: string, name: string) {
    k in instances && key + "#" <= k && TargetKey(k, key, name) !in instances
  }

  function Movers(instances: map<string, Instance>, key: string, name: string): set<string> {
    set k | k in instances && MovesAlong(instances, k, key, name)
  }

  function Targets(movers: set<string>, key: string, name: string): set<string>
    requires forall k :: k in movers ==> key <= k
  {
    set k | k in movers :: TargetKey(k, key, name)
  }

  function MoveSome(instances: map<string, Instance>, movers: set<string>, key: string,
                    name: string): map<string, Instance>
    requires movers <= instances.Keys && forall k :: k in movers ==> key <= k
  {
    map t | t in (instances.Keys - movers) + Targets(movers, key, name) ::
      if t in Targets(movers, key, name) then
        assert exists k :: k in movers && t == TargetKey(k, key, name);
        assert forall k :: k in movers && t == TargetKey(k, key, name) ==> k == key + t[|name|..];
        MovedInstance(instances[key + t[|name|..]], name)
      else instances[t]
  }

  /** All instances of `key` whose new key is free, re-keyed; every other instance as it was. */
  function MoveInstances(instances: map<string, Instance>, key: string, name: string): map<string, Instance> {
    MoveSome(instances, Movers(instances, key, name), key, name)
  }

  function MoveOne(st: State, key: string): State {
    if Movable(st, key) then
      var h := Cut(key, '@');
      State((st.plugins - {key})[h.before := MovedPlugin(st.plugins[key], h.before, h.after)],
            MoveInstances(st.instances, key, h.before))
    else st
  }

  /** The migration when the plugin map yields `order`; a key that is gone by then is not yielded. */
  function MoveAlong(st: State, order: seq<string>): State
    decreases |order|
  {
    if order == [] then st else MoveAlong(MoveOne(st, order[0]), order[1..])
  }

  ghost predicate Covers(order: seq<string>, keys: set<string>) { forall k :: k in keys ==> k in order }

  /** `loaded` is what some iteration order makes of `stored`. */
  ghost predicate Loads(stored: State, loaded: State) {
    exists order :: Covers(order, stored.plugins.Keys) && loaded == MoveAlong(stored, order)
  }

  // ----- one move

  lemma MoveOneShape(st: State, key: string)
    ensures var name := Cut(key, '@').before;
            Movable(st, key) ==>
              Bare(name) && name != key && name !in st.plugins && !Bare(key) && key == name + "@" + Cut(key, '@').after
  {}

  lemma {:induction false} InjectiveImage(movers: set<string>, key: string, name: string)
    requires forall k :: k in movers ==> key <= k
    ensures |Targets(movers, key, name)| == |movers|
  {
    if movers == {} {
      assert Targets(movers, key, name) == {};
    } else {
      var k :| k in movers;
      var t := TargetKey(k, key, name);
      InjectiveImage(movers - {k}, key, name);
      forall m | m in movers && TargetKey(m, key, name) == t ensures m == k {
        assert m == key + t[|name|..] && k == key + t[|name|..];
      }
      assert Targets(movers, key, name) == Targets(movers - {k}, key, name) + {t};
      assert t !in Targets(movers - {k}, key, name);
    }
  }

  lemma ExchangeSize<T>(s: set<T>, gone: set<T>, come: set<T>)
    requires gone <= s && come !! s && |gone| == |come|
    ensures |s - gone + come| == |s|
  {}

  /** The key of an instance once the instances of `key` have moved. */
  function NewKey(instances: map<string, Instance>, k: string, key: string, name: string): string {
    if MovesAlong(instances, k, key, name) then TargetKey(k, key, name) else k
  }

  /** Each instance is kept, with its name and auth, under its own key or its target key. */
  lemma EachInstanceKept(instances: map<string, Instance>, key: string, name: string, k: string)
    requires k in instances
    ensures var out, to := MoveInstances(instances, key, name), NewKey(instances, k, key, name);
            && to in out && out[to].name == instances[k].name && out[to].auth == instances[k].auth
            && (to == k ==> out[to] == instances[k])
  {
    var to := NewKey(instances, k, key, name);
    if MovesAlong(instances, k, key, name) {
      assert k in Movers(instances, key, name) && k == key + to[|name|..];
      assert to in Targets(Movers(instances, key, name), key, name);
    }
  }

  /** Re-keying loses and invents no instance. */
  lemma MoveInstancesConserves(instances: map<string, Instance>, key: string, name: string)
    ensures var out := MoveInstances(instances, key, name);
            && |out| == |instances|
            && forall k :: k in instances ==>
                 var to := NewKey(instances, k, key, name);
                 to in out && out[to].name == instances[k].name && out[to].auth == instances[k].auth
    ensures forall t :: t in MoveInstances(instances, key, name) ==>
              exists k :: k in instances && t == NewKey(instances, k, key, name)
  {
    var movers := Movers(instances, key, name);
    var targets := Targets(movers, key, name);
    InjectiveImage(movers, key, name);
    assert targets !! instances.Keys;
    ExchangeSize(instances.Keys, movers, targets);
    assert MoveInstances(instances, key, name).Keys == instances.Keys - movers + targets;
    forall k | k in instances
      ensures var out, to := MoveInstances(instances, key, name), NewKey(instances, k, key, name);
              to in out && out[to].name == instances[k].name && out[to].auth == instances[k].auth
    {
      EachInstanceKept(instances, key, name, k);
    }
    forall t | t in MoveInstances(instances, key, name)
      ensures exists k :: k in instances && t == NewKey(instances, k, key, name)
    {
      var k := if t in targets then (var m :| m in movers && t == TargetKey(m, key, name); m) else t;
      assert k in instances && t == NewKey(instances, k, key, name);
    }
  }

  lemma MoveOneConserves(st: State, key: string)
    ensures |MoveOne(st, key).plugins| == |st.plugins| && |MoveOne(st, key).instances| == |st.instances|
  {
    if Movable(st, key) {
      MoveInstancesConserves(st.instances, key, Cut(key, '@').before);
      assert MoveOne(st, key).plugins.Keys == (st.plugins.Keys - {key}) + {Cut(key, '@').before};
    }
  }

  /** A move touches two plugin keys: the versioned one goes, the free bare one comes. */
  lemma MoveOneElsewhere(st: State, key: string, k: string)
    requires k in st.plugins && (k != key || !Movable(st, key))
    ensures k in MoveOne(st, key).plugins && MoveOne(st, key).plugins[k] == st.plugins[k]
  {}

  lemma InstanceOfMoved(st: State, key: string, name: string, k: string)
    requires Integrity(st) && key in st.plugins && MovesAlong(st.instances, k, key, name)
    ensures var i := MovedInstance(st.instances[k], name);
            TargetKey(k, key, name) == i.plugin.Key() + "#" + i.name && i.plugin.Key() == name
  {
    var i := st.instances[k];
    assert k == key + "#" + k[|key| + 1..];
    JoinInjective(key, k[|key| + 1..], i.plugin.Key(), i.name);
  }

  /** When the bare key is free, no instance can already sit under it: each instance of the moved plugin moves. */
  lemma NoneStranded(st: State, key: string, name: string, k: string)
    requires Integrity(st) && key in st.plugins && name !in st.plugins && '#' !in name
    requires k in st.instances && st.instances[k].plugin.Key() == key
    ensures k in Movers(st.instances, key, name)
  {
    var t := TargetKey(k, key, name);
    var n := st.instances[k].name;
    assert t == name + "#" + n;
    if t in st.instances {
      var j := st.instances[t];
      JoinInjective(name, n, j.plugin.Key(), j.name);
    }
  }

  lemma MoveOneKeepsIntegrity(st: State, key: string)
    requires Integrity(st)
    ensures Integrity(MoveOne(st, key))
  {
    if Movable(st, key) {
      var name, to := Cut(key, '@').before, MoveOne(st, key);
      var movers := Movers(st.instances, key, name);
      forall k | k in to.instances
        ensures k == to.instances[k].plugin.Key() + "#" + to.instances[k].name
                && to.instances[k].plugin.Key() in to.plugins
      {
        if k in Targets(movers, key, name) {
          var from :| from in movers && k == TargetKey(from, key, name);
          assert from == key + k[|name|..];
          InstanceOfMoved(st, key, name, from);
        } else {
          assert to.instances[k] == st.instances[k];
          if st.instances[k].plugin.Key() == key {
            NoneStranded(st, key, name, k);
          }
        }
      }
    }
  }

  lemma MoveOneKeepsVersions(st: State, key: string)
    requires Versions(st)
    ensures Versions(MoveOne(st, key))
  {
    TrimSpaceTrimmed(Cut(key, '@').after);
  }

  // ----- the whole migration, for every order

  lemma {:induction false} MoveAlongConserves(st: State, order: seq<string>)
    ensures |MoveAlong(st, order).plugins| == |st.plugins| && |MoveAlong(st, order).instances| == |st.instances|
    decreases |order|
  {
    if order != [] {
      MoveOneConserves(st, order[0]);
      MoveAlongConserves(MoveOne(st, order[0]), order[1..]);
    }
  }

  lemma {:induction false} MoveAlongKeepsIntegrity(st: State, order: seq<string>)
    requires Integrity(st)
    ensures Integrity(MoveAlong(st, order))
    decreases |order|
  {
    if order != [] {
      MoveOneKeepsIntegrity(st, order[0]);
      MoveAlongKeepsIntegrity(MoveOne(st, order[0]), order[1..]);
    }
  }

  lemma {:induction false} MoveAlongKeepsVersions(st: State, order: seq<string>)
    requires Versions(st)
    ensures Versions(MoveAlong(st, order))
    decreases |order|
  {
    if order != [] {
      MoveOneKeepsVersions(st, order[0]);
      MoveAlongKeepsVersions(MoveOne(st, order[0]), order[1..]);
    }
  }

  /** A record that cannot move at the start never moves nor changes. */
  lemma {:induction false} UnmovableStays(st: State, order: seq<string>, k: string)
    requires k in st.plugins && !Movable(st, k)
    ensures var to := MoveAlong(st, order); k in to.plugins && to.plugins[k] == st.plugins[k] && !Movable(to, k)
    decreases |order|
  {
    if order != [] {
      MoveOneElsewhere(st, order[0], k);
      var h := Cut(k, '@');
      if h.before in st.plugins {
        if Movable(st, order[0]) { MoveOneShape(st, order[0]); }
        MoveOneElsewhere(st, order[0], h.before);
      }
      UnmovableStays(MoveOne(st, order[0]), order[1..], k);
    }
  }

  lemma MoveOneSettles(st: State, key: string, k: string)
    requires Movable(MoveOne(st, key), k)
    ensures Movable(st, k) && k != key
  {}

  /** A key the migration visits, or never needed to, cannot move any more. */
  lemma {:induction false} VisitedIsSettled(st: State, order: seq<string>, k: string)
    requires Movable(st, k) ==> k in order
    ensures !Movable(MoveAlong(st, order), k)
    decreases |order|
  {
    if order != [] {
      if Movable(MoveOne(st, order[0]), k) {
        MoveOneSettles(st, order[0], k);
      }
      VisitedIsSettled(MoveOne(st, order[0]), order[1..], k);
    }
  }

  lemma {:induction false} SettledIsFixed(st: State, order: seq<string>)
    requires Settled(st)
    ensures MoveAlong(st, order) == st
  {
    if order != [] {
      SettledIsFixed(st, order[1..]);
    }
  }

  /** For every iteration order: the counts of plugins and instances stay, records whose key is bare stay
      as they are, and no versioned marketplace key is left whose bare key is free. */
  lemma LoadMigrates(stored: State, loaded: State)
    requires Loads(stored, loaded)
    ensures |loaded.plugins| == |stored.plugins| && |loaded.instances| == |stored.instances|
    ensures forall k :: k in stored.plugins && Bare(k) ==> k in loaded.plugins && loaded.plugins[k] == stored.plugins[k]
    ensures Settled(loaded)
  {
    var order :| Covers(order, stored.plugins.Keys) && loaded == MoveAlong(stored, order);
    MoveAlongConserves(stored, order);
    forall k | k in stored.plugins && Bare(k) ensures k in loaded.plugins && loaded.plugins[k] == stored.plugins[k] {
      UnmovableStays(stored, order, k);
    }
    forall k | k in loaded.plugins ensures !Movable(loaded, k) {
      VisitedIsSettled(stored, order, k);
    }
  }

  /** A second load changes nothing more, whatever its order. */
  lemma LoadIsIdempotent(stored: State, loaded: State, again: State)
    requires Loads(stored, loaded) && Loads(loaded, again)
    ensures again == loaded
  {
    LoadMigrates(stored, loaded);
    var order :| Covers(order, loaded.plugins.Keys) && again == MoveAlong(loaded, order);
    SettledIsFixed(loaded, order);
  }

  /** From a sound store the migration strands no instance and leaves the store sound. */
  lemma LoadKeepsSound(stored: State, loaded: State)
    requires Loads(stored, loaded)
    ensures Integrity(stored) ==> Integrity(loaded)
    ensures Versions(stored) ==> Versions(loaded)
  {
    var order :| Covers(order, stored.plugins.Keys) && loaded == MoveAlong(stored, order);
    if Integrity(stored) { MoveAlongKeepsIntegrity(stored, order); }
    if Versions(stored) { MoveAlongKeepsVersions(stored, order); }
  }
}
