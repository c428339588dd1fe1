/** What becomes of each record over a whole load, whatever order the maps yield: nothing is lost, and what moves
    keeps everything but its key. */
module StoreConservation {
  import opened Text
  import opened StoreState
  import opened StoreMigration

  /** `key` is "name@version". */
  predicate Versioned(key: string, name: string, version: string) { '@' !in name && key == name + "@" + version }

  lemma VersionedIsCut(key: string, name: string, version: string)
    ensures Versioned(key, name, version) <==> Cut(key, '@') == Halves(name, version, true)
  {
    if Versioned(key, name, version) {
      IndexAfter(name, version, '@');
    }
  }

  /** `q` is `p` under its bare name: the version goes from the reference to the installed version, unless one is
      recorded there, and everything else stays, the pin among it. */
  predicate MovedLike(p: Plugin, q: Plugin, name: string, version: string) {
    && q.ref == Ref(name, "", p.ref.channel)
    && q.installedVersion == (if p.installedVersion != "" then p.installedVersion else TrimSpace(version))
    && q.pinned == p.pinned && q.enabled == p.enabled && q.source == p.source && q.previousVersion == p.previousVersion
    && q.runtime == p.runtime && q.labels == p.labels && q.config == p.config && q.manifest == p.manifest
    && q.manifestRef == p.manifestRef && q.operations == p.operations
  }

  /** Record `p` of key `k` is in the store: under its key, as it was, or moved to the bare name. */
  ghost predicate Kept(p: Plugin, k: string, to: State) {
    || (k in to.plugins && to.plugins[k] == p)
    || exists name, version :: Versioned(k, name, version) && p.source == "marketplace"
         && name in to.plugins && MovedLike(p, to.plugins[name], name, version)
  }

  lemma MoveOneMoves(st: State, key: string)
    requires Movable(st, key)
    ensures var h, to := Cut(key, '@'), MoveOne(st, key);
            && Versioned(key, h.before, h.after) && h.before !in st.plugins && h.before in to.plugins
            && MovedLike(st.plugins[key], to.plugins[h.before], h.before, h.after) && key !in to.plugins
  {
    MoveOneShape(st, key);
  }

  lemma {:induction false} AlongKeepsRecord(st: State, order: seq<string>, k: string)
    requires k in st.plugins
    ensures Kept(st.plugins[k], k, MoveAlong(st, order))
    decreases |order|
  {
    if order != [] {
      var next := MoveOne(st, order[0]);
      if order[0] == k && Movable(st, k) {
        MoveOneMoves(st, k);
        var h := Cut(k, '@');
        UnmovableStays(next, order[1..], h.before);
      } else {
        MoveOneElsewhere(st, order[0], k);
        AlongKeepsRecord(next, order[1..], k);
      }
    }
  }

  /** A load loses no record: each one is there under its own key as it was, or, if it came from the marketplace
      under "name@version", under its bare name with nothing changed but the version. */
  lemma LoadKeepsEachRecord(stored: State, loaded: State, k: string)
    requires Loads(stored, loaded) && k in stored.plugins
    ensures Kept(stored.plugins[k], k, loaded)
  {
    var order :| Covers(order, stored.plugins.Keys) && loaded == MoveAlong(stored, order);
    AlongKeepsRecord(stored, order, k);
  }

  /** After a load no marketplace record is left under "name@version" beside a free bare name. */
  lemma NoLegacyKeyIsLeft(stored: State, loaded: State, k: string, name: string, version: string)
    requires Loads(stored, loaded) && k in loaded.plugins && loaded.plugins[k].source == "marketplace"
    requires Versioned(k, name, version) && TrimSpace(name) != ""
    ensures name in loaded.plugins
  {
    LoadMigrates(stored, loaded);
    VersionedIsCut(k, name, version);
  }

  // ----- instances

  /** Instance `i` of plugin `was` is in the store under the key its plugin has there, with its name and auth. */
  ghost predicate Follows(i: Instance, was: string, to: State) {
    var now := if was in to.plugins then was else Cut(was, '@').before;
    var k := now + "#" + i.name;
    && now in to.plugins && k in to.instances
    && to.instances[k].name == i.name && to.instances[k].auth == i.auth && to.instances[k].plugin.Key() == now
    && to.instances[k].plugin.channel == i.plugin.channel
  }

  lemma MoverLands(instances: map<string, Instance>, key: string, name: string, k: string)
    requires k in Movers(instances, key, name)
    ensures var t := TargetKey(k, key, name);
            t in MoveInstances(instances, key, name)
            && MoveInstances(instances, key, name)[t] == MovedInstance(instances[k], name)
  {
    var t := TargetKey(k, key, name);
    assert k == key + t[|name|..];
    assert t in Targets(Movers(instances, key, name), key, name);
  }

  lemma MoveOneCarries(st: State, key: string, k: string)
    requires Integrity(st) && Movable(st, key) && k in st.instances && st.instances[k].plugin.Key() == key
    ensures var i, name, to := st.instances[k], Cut(key, '@').before, MoveOne(st, key);
            var t := name + "#" + i.name;
            t in to.instances && to.instances[t] == i.(plugin := Ref(name, "", i.plugin.channel))
  {
    var i, name := st.instances[k], Cut(key, '@').before;
    var t := name + "#" + i.name;
    MoveOneShape(st, key);
    NoneStranded(st, key, name, k);
    assert k == key + "#" + i.name && t == TargetKey(k, key, name);
    MoverLands(st.instances, key, name, k);
  }

  lemma OthersDoNotMove(st: State, key: string, name: string, k: string)
    requires Integrity(st) && key in st.plugins && k in st.instances && st.instances[k].plugin.Key() != key
    ensures !MovesAlong(st.instances, k, key, name)
  {
    var i := st.instances[k];
    if MovesAlong(st.instances, k, key, name) {
      assert k == key + "#" + k[|key| + 1..];
      JoinInjective(key, k[|key| + 1..], i.plugin.Key(), i.name);
    }
  }

  lemma MoveOneSpares(st: State, key: string, k: string)
    requires Integrity(st) && k in st.instances && (!Movable(st, key) || st.instances[k].plugin.Key() != key)
    ensures k in MoveOne(st, key).instances && MoveOne(st, key).instances[k] == st.instances[k]
  {
    if Movable(st, key) {
      var name := Cut(key, '@').before;
      OthersDoNotMove(st, key, name, k);
      EachInstanceKept(st.instances, key, name, k);
    }
  }

  /** A versioned key that is gone does not come back. */
  lemma {:induction false} StaysAway(st: State, order: seq<string>, key: string)
    requires !Bare(key) && key !in st.plugins
    ensures key !in MoveAlong(st, order).plugins
    decreases |order|
  {
    if order != [] {
      if Movable(st, order[0]) { MoveOneShape(st, order[0]); }
      StaysAway(MoveOne(st, order[0]), order[1..], key);
    }
  }

  lemma {:induction false} AlongCarries(st: State, order: seq<string>, k: string)
    requires Integrity(st) && k in st.instances
    ensures Follows(st.instances[k], st.instances[k].plugin.Key(), MoveAlong(st, order))
    decreases |order|
  {
    if order != [] {
      var i, next := st.instances[k], MoveOne(st, order[0]);
      var was := i.plugin.Key();
      MoveOneKeepsIntegrity(st, order[0]);
      if Movable(st, order[0]) && was == order[0] {
        var name := Cut(was, '@').before;
        MoveOneCarries(st, was, k);
        MoveOneMoves(st, was);
        AlongCarries(next, order[1..], name + "#" + i.name);
        UnmovableStays(next, order[1..], name);
        StaysAway(next, order[1..], was);
      } else {
        MoveOneSpares(st, order[0], k);
        AlongCarries(next, order[1..], k);
      }
    }
  }

  /** From a sound store every instance goes where its plugin goes, with its name and auth. */
  lemma LoadCarriesInstances(stored: State, loaded: State, k: string)
    requires Loads(stored, loaded) && Integrity(stored) && k in stored.instances
    ensures Follows(stored.instances[k], stored.instances[k].plugin.Key(), loaded)
  {
    var order :| Covers(order, stored.plugins.Keys) && loaded == MoveAlong(stored, order);
    AlongCarries(stored, order, k);
  }
}
