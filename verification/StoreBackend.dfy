/** The backend: each operation reads the state file, migrating it, changes the loaded maps in place and
    writes them back. Every method is proved against the operation's function. */
module StoreBackend {
  import opened Text
  import opened Sorting
  import opened StoreState
  import opened StoreMigration
  import opened StoreLoads
  import opened StoreOps
  import opened StoreProofs
  import opened StorePins

  // ----- the migration loops

  lemma {:induction false} MoveAlongNext(st: State, order: seq<string>, key: string)
    ensures MoveAlong(st, order + [key]) == MoveOne(MoveAlong(st, order), key)
    decreases |order|
  {
    if order == [] {
      assert [key][1..] == [];
      assert MoveAlong(st, [] + [key]) == MoveAlong(MoveOne(st, key), []);
    } else {
      assert (order + [key])[1..] == order[1..] + [key];
      MoveAlongNext(MoveOne(st, order[0]), order[1..], key);
    }
  }

  /** Moving one more instance: its own key goes, its target comes. */
  lemma MoveSomeNext(instances: map<string, Instance>, moved: set<string>, key: string, name: string, k: string)
    requires moved <= Movers(instances, key, name) && k in Movers(instances, key, name) && k !in moved
    ensures var out := MoveSome(instances, moved, key, name);
            var target := TargetKey(k, key, name);
            && k in out && out[k] == instances[k] && target !in out
            && MoveSome(instances, moved + {k}, key, name) == (out - {k})[target := MovedInstance(instances[k], name)]
  {
    var out, target := MoveSome(instances, moved, key, name), TargetKey(k, key, name);
    assert k == key + target[|name|..];
    assert Targets(moved + {k}, key, name) == Targets(moved, key, name) + {target};
    forall m | m in moved ensures TargetKey(m, key, name) != target && TargetKey(m, key, name) != k {
      assert m == key + TargetKey(m, key, name)[|name|..];
    }
  }

  /** A target key is never the key of an instance that still has to be looked at. */
  lemma TargetIsNew(instances: map<string, Instance>, moved: set<string>, key: string, name: string, k: string)
    requires moved <= Movers(instances, key, name) && k in instances && k !in moved && key + "#" <= k
    requires |name| < |key| && key == name + "@" + key[|name| + 1..] && '@' !in name
    ensures k in MoveSome(instances, moved, key, name)
    ensures TargetKey(k, key, name) in MoveSome(instances, moved, key, name) <==> TargetKey(k, key, name) in instances
  {
    var t := TargetKey(k, key, name);
    assert k == key + t[|name|..];
    forall m | m in moved ensures TargetKey(m, key, name) != t && m != t {
      assert m == key + TargetKey(m, key, name)[|name|..];
      assert m[|name|] == '@' && t[|name|] == '#';
    }
  }

  method RekeyInstances(instances: map<string, Instance>, key: string, name: string)
    returns (out: map<string, Instance>)
    requires |name| < |key| && key == name + "@" + key[|name| + 1..] && '@' !in name
    ensures out == MoveInstances(instances, key, name)
  {
    out := instances;
    var todo := instances.Keys;
    ghost var moved := {};
    while todo != {}
      invariant todo <= instances.Keys && moved <= Movers(instances, key, name) && moved !! todo
      invariant forall k :: k in instances && k !in todo ==> (k in moved <==> k in Movers(instances, key, name))
      invariant out == MoveSome(instances, moved, key, name)
      decreases todo
    {
      var k :| k in todo;
      todo := todo - {k};
      if key + "#" <= k {
        TargetIsNew(instances, moved, key, name, k);
        var target := name + k[|key|..];
        if target !in out {
          MoveSomeNext(instances, moved, key, name, k);
          out := (out - {k})[target := MovedInstance(out[k], name)];
          moved := moved + {k};
        }
      }
    }
    assert moved == Movers(instances, key, name);
  }

  /** One round of the migration loop. */
  method MigrateKey(stored: State, key: string) returns (st: State)
    ensures st == MoveOne(stored, key)
  {
    st := stored;
    if key in st.plugins {
      var plugin, h := st.plugins[key], Cut(key, '@');
      if h.found && TrimSpace(h.before) != "" && plugin.source == MARKETPLACE && h.before !in st.plugins {
        MoveOneShape(st, key);
        if plugin.installedVersion == "" {
          plugin := plugin.(installedVersion := TrimSpace(h.after));
        }
        plugin := plugin.(ref := plugin.ref.(version := "", name := h.before));
        var plugins := st.plugins[h.before := plugin] - {key};
        var instances := RekeyInstances(st.instances, key, h.before);
        assert plugins == (st.plugins - {key})[h.before := plugin];
        st := State(plugins, instances);
      }
    }
  }

  method MigrateVersionedKeys(stored: State) returns (st: State)
    ensures Loads(stored, st)
  {
    st := stored;
    var todo := stored.plugins.Keys;
    ghost var order := [];
    while todo != {}
      invariant st == MoveAlong(stored, order)
      invariant forall k :: k in stored.plugins && k !in todo ==> k in order
      decreases todo
    {
      var key :| key in todo;
      todo := todo - {key};
      MoveAlongNext(stored, order, key);
      st := MigrateKey(st, key);
      order := order + [key];
    }
    assert Covers(order, stored.plugins.Keys);
  }

  // ----- the auth list, changed in place

  method UpsertAuthInto(auth: seq<AuthState>, a: AuthState) returns (out: seq<AuthState>)
    ensures out == UpsertAuth(auth, a)
  {
    out := auth;
    var i := 0;
    while i < |out|
      invariant i <= |out| && out == auth
      invariant forall j :: 0 <= j < i ==> NormalizeMethod(auth[j].authMethod) != NormalizeMethod(a.authMethod)
    {
      if NormalizeMethod(out[i].authMethod) == NormalizeMethod(a.authMethod) {
        out := out[i := a];
        return;
      }
      i := i + 1;
    }
    out := StableSort(out + [a], AuthBefore);
  }

  method FindAuthIn(auth: seq<AuthState>, m: string) returns (found: Option<AuthState>)
    ensures found == FindAuth(auth, m)
  {
    var i := 0;
    while i < |auth|
      invariant i <= |auth|
      invariant forall j :: 0 <= j < i ==> NormalizeMethod(auth[j].authMethod) != NormalizeMethod(m)
    {
      if NormalizeMethod(auth[i].authMethod) == NormalizeMethod(m) {
        return Some(auth[i]);
      }
      i := i + 1;
    }
    found := None;
  }

  lemma Associate<T>(x: seq<T>, y: seq<T>, z: seq<T>)
    ensures x + (y + z) == x + y + z
  {}

  lemma {:induction false} RemoveAuthNext(auth: seq<AuthState>, a: AuthState, m: string)
    ensures RemoveAuth(auth + [a], m) == RemoveAuth(auth, m) + RemoveAuth([a], m)
  {
    if auth == [] {
      assert [] + [a] == [a];
    } else {
      var rest := auth[1..];
      assert (auth + [a])[0] == auth[0] && (auth + [a])[1..] == rest + [a];
      RemoveAuthNext(rest, a, m);
      Associate(RemoveAuth([auth[0]], m), RemoveAuth(rest, m), RemoveAuth([a], m));
    }
  }

  /** The source filters into the slice it reads: each kept state moves left, never past one still unread. */
  method RemoveAuthInPlace(auth: array<AuthState>, m: string) returns (n: nat)
    modifies auth
    ensures n <= auth.Length && auth[..n] == RemoveAuth(old(auth[..]), m)
  {
    ghost var was := auth[..];
    n := 0;
    var i := 0;
    while i < auth.Length
      invariant n <= i <= auth.Length
      invariant auth[..n] == RemoveAuth(was[..i], m)
      invariant auth[i..] == was[i..]
    {
      RemoveAuthNext(was[..i], was[i], m);
      assert was[..i + 1] == was[..i] + [was[i]];
      assert auth[i] == auth[i..][0] == was[i];
      assert auth[i + 1..] == auth[i..][1..];
      if NormalizeMethod(auth[i].authMethod) != NormalizeMethod(m) {
        auth[n] := auth[i];
        n := n + 1;
      }
      i := i + 1;
    }
    assert was[..i] == was;
  }

  lemma {:induction false} SyncAlongNext(st: State, want: set<string>, built: map<string, map<string, string>>,
                                         order: seq<string>, k: string)
    ensures SyncAlong(st, want, built, order + [k]) == SyncOne(SyncAlong(st, want, built, order), want, built, k)
    decreases |order|
  {
    if order == [] {
      assert [k][1..] == [];
      assert SyncAlong(st, want, built, [] + [k]) == SyncAlong(SyncOne(st, want, built, k), want, built, []);
    } else {
      assert (order + [k])[1..] == order[1..] + [k];
      SyncAlongNext(SyncOne(st, want, built, order[0]), want, built, order[1..], k);
    }
  }

  // ----- the operations

  class Backend {
    var file: State

    constructor ()
      ensures file == EMPTY_STATE
    {
      file := EMPTY_STATE;
    }

    /** The reinstall block of an install, assignment by assignment. */
    static method KeepFromExisting(made: Plugin, was: Plugin) returns (plugin: Plugin)
      ensures plugin == OverExisting(made, was)
    {
      plugin := KeepFields(made, was);
      plugin := KeepVersions(plugin, was);
    }

    static method KeepFields(made: Plugin, was: Plugin) returns (plugin: Plugin)
      ensures plugin == OverFields(made, was)
    {
      plugin := made;
      if plugin.source == "" { plugin := plugin.(source := was.source); }
      if plugin.runtime == "" { plugin := plugin.(runtime := was.runtime); }
      if plugin.manifestRef == "" { plugin := plugin.(manifestRef := was.manifestRef); }
      if plugin.manifest == "" { plugin := plugin.(manifest := was.manifest); }
      if plugin.config.None? { plugin := plugin.(config := was.config); }
      if plugin.labels == map[] { plugin := plugin.(labels := was.labels); }
    }

    static method KeepVersions(made: Plugin, was: Plugin) returns (plugin: Plugin)
      ensures plugin == OverVersions(made, was)
    {
      plugin := made.(pinned := was.pinned, previousVersion := was.previousVersion);
      if plugin.installedVersion == "" {
        plugin := plugin.(installedVersion := was.installedVersion);
      } else if was.installedVersion != "" && was.installedVersion != plugin.installedVersion {
        plugin := plugin.(previousVersion := was.installedVersion);
      }
    }

    static method NoteVersion(was: Plugin, version: string) returns (plugin: Plugin)
      ensures plugin == RecordVersion(was, version)
    {
      plugin := was;
      if version != "" {
        if plugin.installedVersion != "" && plugin.installedVersion != version {
          plugin := plugin.(previousVersion := plugin.installedVersion);
        }
        plugin := plugin.(installedVersion := version);
      }
    }

    /** The rebuild of an update: build, record the version, and delete an artifact left at another path. */
    static method RebuildPlugin(was: Plugin, entry: Entry, build: Build, removable: bool)
      returns (error: Option<Error>, plugin: Plugin)
      ensures build.Broken? ==> error == Some(BuildFailed)
      ensures build.Built? ==>
                && plugin == RecordVersion(Rebuilt(was, entry, build), build.version)
                && error == (if ArtifactKept(was.labels, plugin.labels, removable) then None
                             else Some(ArtifactNotRemoved))
    {
      error, plugin := None, was;
      match build {
        case Broken => error := Some(BuildFailed);
        case Built(runtime, labels, version) =>
          plugin := plugin.(runtime := runtime, labels := entry.labels + plugin.labels + labels);
          plugin := NoteVersion(plugin, version);
          if ArtifactPath(was.labels) != "" && ArtifactPath(was.labels) != ArtifactPath(plugin.labels) && !removable {
            error := Some(ArtifactNotRemoved);
          }
      }
    }

    method InstallPlugin(r: InstallRequest, entry: Option<Entry>, build: Build)
      returns (error: Option<Error>, ghost loaded: State)
      modifies this
      ensures Loads(old(file), loaded)
      ensures error == Install(loaded, r, entry, build).error
      ensures file == Stored(old(file), Install(loaded, r, entry, build))
    {
      var st := MigrateVersionedKeys(file);
      loaded, error := st, None;
      if !ValidRef(r.ref) { return Some(NameRequired), loaded; }
      if entry.None? && !ExplicitInstall(r) { return Some(NotInMarketplace), loaded; }
      var storedRef := r.ref;
      if entry.Some? && !ExplicitInstall(r) {
        storedRef := storedRef.(version := "");
      }
      var key := storedRef.Key();
      var existing := key in st.plugins;
      if existing && !r.force && !r.dryRun { return; }
      var labels := if entry.Some? then entry.value.labels + r.labels else map[] + r.labels;
      var runtime, version := r.runtime, "";
      if runtime == "" && entry.Some? && !r.dryRun {
        match build {
          case Broken => return Some(BuildFailed), loaded;
          case Built(made, madeLabels, madeVersion) =>
            runtime, labels, version := made, labels + madeLabels, madeVersion;
        }
      }
      var plugin := Plugin(storedRef, r.source, true, runtime,
                           FirstNonEmpty(r.manifestRef, if entry.Some? then entry.value.goInstall else ""),
                           r.manifest, labels, r.config, version, "", "", "");
      if plugin.source == "" && entry.Some? {
        plugin := plugin.(source := MARKETPLACE);
      }
      if r.dryRun { return; }
      assert plugin == NewRecord(r, entry, build);
      if existing {
        plugin := KeepFromExisting(plugin, st.plugins[key]);
      }
      st := st.(plugins := st.plugins[key := plugin]);
      var k := InstanceKey(plugin.ref, DEFAULT_INSTANCE);
      if k !in st.instances {
        st := st.(instances := st.instances[k := Instance(plugin.ref, DEFAULT_INSTANCE, [])]);
      }
      file := st;
    }

    method UpdatePlugin(r: UpdateRequest, entry: Option<Entry>, build: Build, removable: bool)
      returns (error: Option<Error>, ghost loaded: State)
      modifies this
      ensures Loads(old(file), loaded)
      ensures error == Update(loaded, r, entry, build, removable).error
      ensures file == Stored(old(file), Update(loaded, r, entry, build, removable))
    {
      var st := MigrateVersionedKeys(file);
      loaded, error := st, None;
      if !ValidRef(r.ref) { return Some(NameRequired), loaded; }
      var key := r.ref.Key();
      if key !in st.plugins { return Some(NotInstalled), loaded; }
      var plugin := st.plugins[key];
      if TrimSpace(r.source) != "" { plugin := plugin.(source := r.source); }
      if r.runtime != "" {
        plugin := plugin.(runtime := r.runtime);
      } else if entry.Some? && TrimSpace(plugin.source) == MARKETPLACE && !r.dryRun {
        error, plugin := RebuildPlugin(plugin, entry.value, build, removable);
        if error.Some? { return; }
      }
      if TrimSpace(r.manifestRef) != "" { plugin := plugin.(manifestRef := r.manifestRef); }
      if r.manifest != "" { plugin := plugin.(manifest := r.manifest); }
      if r.dryRun { return; }
      file := st.(plugins := st.plugins[key := plugin]);
    }

    method PinPlugin(ref: Ref, unpin: bool, dryRun: bool) returns (error: Option<Error>, ghost loaded: State)
      modifies this
      ensures Loads(old(file), loaded)
      ensures error == Pin(loaded, ref, unpin, dryRun).error
      ensures file == Stored(old(file), Pin(loaded, ref, unpin, dryRun))
    {
      var st := MigrateVersionedKeys(file);
      loaded, error := st, None;
      if !ValidRef(ref) { return Some(NameRequired), loaded; }
      var key := LookupKey(st, ref);
      if key.None? { return Some(NotInstalled), loaded; }
      var plugin, pinned := st.plugins[key.value], "";
      if !unpin {
        pinned := TrimSpace(ref.version);
        if pinned == "" { pinned := plugin.installedVersion; }
        if pinned == "" { return Some(NoInstalledVersion), loaded; }
      }
      var changed := plugin.pinned != pinned;
      plugin := plugin.(pinned := pinned);
      if dryRun || !changed { return; }
      file := st.(plugins := st.plugins[key.value := plugin]);
    }

    method RollbackPlugin(ref: Ref, dryRun: bool, entry: Option<Entry>, build: Build, removable: bool)
      returns (error: Option<Error>, ghost loaded: State)
      modifies this
      ensures Loads(old(file), loaded)
      ensures error == Rollback(loaded, ref, dryRun, entry, build, removable).error
      ensures file == Stored(old(file), Rollback(loaded, ref, dryRun, entry, build, removable))
    {
      var st := MigrateVersionedKeys(file);
      loaded, error := st, None;
      if !ValidRef(ref) { return Some(NameRequired), loaded; }
      var key := LookupKey(st, ref);
      if key.None? { return Some(NotInstalled), loaded; }
      var plugin := st.plugins[key.value];
      if plugin.pinned != "" { return Some(HeldAt(plugin.pinned)), loaded; }
      var previous, from := TrimSpace(plugin.previousVersion), plugin.installedVersion;
      if previous == "" { return Some(NoPreviousVersion), loaded; }
      if dryRun { return; }
      if entry.None? { return Some(NotInMarketplace), loaded; }
      var was, version := plugin, "";
      match build {
        case Broken => return Some(BuildFailed), loaded;
        case Built(runtime, labels, reported) =>
          plugin := plugin.(runtime := runtime, labels := entry.value.labels + plugin.labels + labels);
          version := reported;
      }
      if ArtifactPath(was.labels) != "" && ArtifactPath(was.labels) != ArtifactPath(plugin.labels) && !removable {
        return Some(ArtifactNotRemoved), loaded;
      }
      if version == "" { version := previous; }
      plugin := plugin.(previousVersion := from, installedVersion := version);
      file := st.(plugins := st.plugins[key.value := plugin]);
    }

    /** `built` holds the artifact labels of each plugin key whose workspace build succeeded. */
    method SyncLocalPlugins(want: set<string>, built: map<string, map<string, string>>, dryRun: bool)
      returns (ghost loaded: State, ghost order: seq<string>)
      modifies this
      ensures Loads(old(file), loaded) && Covers(order, loaded.plugins.Keys)
      ensures file == Stored(old(file), Sync(loaded, want, built, order, dryRun))
    {
      var st := MigrateVersionedKeys(file);
      loaded, order := st, [];
      var todo := st.plugins.Keys;
      while todo != {}
        invariant file == old(file)
        invariant st == if dryRun then loaded else SyncAlong(loaded, want, built, order)
        invariant forall k :: k in loaded.plugins && k !in todo ==> k in order
        decreases todo
      {
        var k :| k in todo;
        todo := todo - {k};
        SyncAlongNext(loaded, want, built, order, k);
        if k in st.plugins && k in built {
          var plugin := st.plugins[k];
          var name := TrimSpace(plugin.ref.name);
          if name != "" && (want == {} || name in want) && !dryRun {
            plugin := plugin.(labels := plugin.labels + built[k]);
            st := st.(plugins := st.plugins[plugin.ref.Key() := plugin]);
          }
        }
        order := order + [k];
      }
      if !dryRun { file := st; }
    }

    method AuthConnect(ref: Ref, name: string, state: AuthState, refusal: Option<string>, dryRun: bool)
      returns (error: Option<Error>, ghost loaded: State)
      modifies this
      ensures Loads(old(file), loaded)
      ensures error == StoreOps.AuthConnect(loaded, ref, name, state, refusal, dryRun).error
      ensures file == Stored(old(file), StoreOps.AuthConnect(loaded, ref, name, state, refusal, dryRun))
    {
      var st := MigrateVersionedKeys(file);
      loaded, error := st, None;
      if !ValidRef(ref) { return Some(NameRequired), loaded; }
      if ref.Key() !in st.plugins { return Some(NotInstalled), loaded; }
      var instance := InstanceOf(st, ref, name);
      if dryRun { return; }
      if refusal.Some? { return Some(PluginRefused(refusal.value)), loaded; }
      var auth := UpsertAuthInto(instance.auth, state.(connected := true));
      file := PutInstance(st, ref, instance.(auth := auth));
    }

    /** A refused test is recorded too, and reported. */
    method AuthTest(ref: Ref, name: string, m: string, refusal: Option<string>, dryRun: bool)
      returns (error: Option<Error>, ghost loaded: State)
      modifies this
      ensures Loads(old(file), loaded)
      ensures error == StoreOps.AuthTest(loaded, ref, name, m, refusal, dryRun).error
      ensures file == Stored(old(file), StoreOps.AuthTest(loaded, ref, name, m, refusal, dryRun))
    {
      var st := MigrateVersionedKeys(file);
      loaded, error := st, None;
      if !ValidRef(ref) { return Some(NameRequired), loaded; }
      if ref.Key() !in st.plugins { return Some(NotInstalled), loaded; }
      var instance, normalized := InstanceOf(st, ref, name), NormalizeMethod(m);
      var found := FindAuthIn(instance.auth, normalized);
      var state := if found.Some? then found.value else AuthState(normalized, true, "", map[]);
      if dryRun { return; }
      if refusal.Some? {
        state := state.(connected := false, error := refusal.value);
        error := Some(PluginRefused(refusal.value));
      } else {
        state := state.(connected := true, error := "");
      }
      var auth := UpsertAuthInto(instance.auth, state);
      file := PutInstance(st, ref, instance.(auth := auth));
    }

    method AuthDisconnect(ref: Ref, name: string, m: string, dryRun: bool)
      returns (error: Option<Error>, ghost loaded: State)
      modifies this
      ensures Loads(old(file), loaded)
      ensures error == StoreOps.AuthDisconnect(loaded, ref, name, m, dryRun).error
      ensures file == Stored(old(file), StoreOps.AuthDisconnect(loaded, ref, name, m, dryRun))
    {
      var st := MigrateVersionedKeys(file);
      loaded, error := st, None;
      if !ValidRef(ref) { return Some(NameRequired), loaded; }
      var instance, normalized := InstanceOf(st, ref, name), NormalizeMethod(m);
      var found := FindAuthIn(instance.auth, normalized);
      if found.None? || dryRun { return; }
      var list := new AuthState[|instance.auth|](i requires 0 <= i < |instance.auth| => instance.auth[i]);
      assert list[..] == instance.auth;
      var n := RemoveAuthInPlace(list, normalized);
      file := PutInstance(st, ref, instance.(auth := list[..n]));
    }

    method SetPluginEnabled(ref: Ref, enabled: bool, dryRun: bool) returns (error: Option<Error>, ghost loaded: State)
      modifies this
      ensures Loads(old(file), loaded)
      ensures error == SetEnabled(loaded, ref, enabled, dryRun).error
      ensures file == Stored(old(file), SetEnabled(loaded, ref, enabled, dryRun))
    {
      var st := MigrateVersionedKeys(file);
      loaded, error := st, None;
      if !ValidRef(ref) { return Some(NameRequired), loaded; }
      if ref.Key() !in st.plugins { return Some(NotInstalled), loaded; }
      var plugin := st.plugins[ref.Key()].(enabled := enabled);
      if dryRun { return; }
      file := st.(plugins := st.plugins[ref.Key() := plugin]);
    }

    method RemovePlugin(ref: Ref, dryRun: bool, removable: bool) returns (error: Option<Error>, ghost loaded: State)
      modifies this
      ensures Loads(old(file), loaded)
      ensures error == Remove(loaded, ref, dryRun, removable).error
      ensures file == Stored(old(file), Remove(loaded, ref, dryRun, removable))
    {
      var st := MigrateVersionedKeys(file);
      loaded, error := st, None;
      var key := ref.Key();
      if !ValidRef(ref) { return Some(NameRequired), loaded; }
      if key !in st.plugins { return Some(NotInstalled), loaded; }
      if dryRun { return; }
      if !removable { return Some(ArtifactNotRemoved), loaded; }
      var instances, todo := st.instances, st.instances.Keys;
      while todo != {}
        invariant todo <= st.instances.Keys
        invariant forall k :: k in instances
                    <==> k in st.instances && (k in todo || st.instances[k].plugin.Key() != key)
        invariant forall k :: k in instances ==> instances[k] == st.instances[k]
        decreases todo
      {
        var k :| k in todo;
        todo := todo - {k};
        if instances[k].plugin.Key() == key {
          instances := instances - {k};
        }
      }
      assert instances == map k | k in st.instances && st.instances[k].plugin.Key() != key :: st.instances[k];
      file := State(st.plugins - {key}, instances);
    }
  }

  // ----- the batch install

  /** The names the batch holds back, collected from the listed plugins in whatever order. */
  method CollectPinned(st: State) returns (pinned: set<string>)
    ensures pinned == PinnedNames(st)
  {
    pinned := {};
    var todo := st.plugins.Keys;
    while todo != {}
      invariant todo <= st.plugins.Keys
      invariant forall k :: k in st.plugins && k !in todo && st.plugins[k].pinned != "" ==>
                ToLower(st.plugins[k].ref.name) in pinned
      invariant pinned <= PinnedNames(st)
      decreases todo
    {
      var k :| k in todo;
      todo := todo - {k};
      if st.plugins[k].pinned != "" {
        pinned := pinned + {ToLower(st.plugins[k].ref.name)};
      }
    }
  }

  /** What the outside answers when an item is installed. */
  datatype Supply = Supply(entry: Option<Entry>, build: Build)

  ghost function Entries(supplies: seq<Supply>): seq<Option<Entry>> {
    seq(|supplies|, i requires 0 <= i < |supplies| => supplies[i].entry)
  }

  ghost function Builds(supplies: seq<Supply>): seq<Build> {
    seq(|supplies|, i requires 0 <= i < |supplies| => supplies[i].build)
  }

  lemma BatchNext(stored: seq<State>, loaded: seq<State>, items: seq<Listed>, pinned: set<string>,
                  entries: seq<Option<Entry>>, builds: seq<Build>, dryRun: bool, i: nat, seen: State, after: State)
    requires i < |items| == |entries| == |builds|
    requires IsBatch(stored, loaded, items[..i], pinned, entries[..i], builds[..i], dryRun)
    requires BatchStep(stored[i], seen, after, items[i], pinned, entries[i], builds[i], dryRun)
    ensures IsBatch(stored + [after], loaded + [seen], items[..i + 1], pinned, entries[..i + 1], builds[..i + 1],
            dryRun)
  {}

  method InstallAllPlugins(backend: Backend, items: seq<Listed>, supplies: seq<Supply>, dryRun: bool)
    returns (ghost listed: State, ghost stored: seq<State>, ghost loaded: seq<State>)
    requires |supplies| == |items|
    modifies backend
    ensures Loads(old(backend.file), listed)
    ensures IsBatch(stored, loaded, items, PinnedNames(listed), Entries(supplies), Builds(supplies), dryRun)
    ensures stored[0] == old(backend.file) && stored[|items|] == backend.file
  {
    var catalog := MigrateVersionedKeys(backend.file);
    listed := catalog;
    var pinned := CollectPinned(catalog);
    stored, loaded := [backend.file], [];
    var i := 0;
    while i < |items|
      invariant i <= |items|
      invariant IsBatch(stored, loaded, items[..i], pinned, Entries(supplies)[..i], Builds(supplies)[..i], dryRun)
      invariant stored[0] == old(backend.file) && stored[i] == backend.file
    {
      var item := items[i];
      var name := TrimSpace(item.ref.name);
      ghost var seen := catalog;
      if name != "" && !(TrimSpace(item.goInstall) == "" && TrimSpace(item.localPath) == "")
        && ToLower(name) !in pinned {
        var _, reached := backend.InstallPlugin(ForcedInstall(item.ref, dryRun), supplies[i].entry, supplies[i].build);
        seen := reached;
      }
      BatchNext(stored, loaded, items, pinned, Entries(supplies), Builds(supplies), dryRun, i, seen, backend.file);
      stored, loaded := stored + [backend.file], loaded + [seen];
      i := i + 1;
    }
    assert items[..i] == items;
    assert Entries(supplies)[..i] == Entries(supplies) && Builds(supplies)[..i] == Builds(supplies);
  }

  /** Through the batch a pinned plugin keeps its whole record, however the catalog lists it: what every load showed
      before the batch, legacy records included, every load shows after it. */
  lemma BatchKeepsPinned(listed: State, stored: seq<State>, loaded: seq<State>, items: seq<Listed>,
                         entries: seq<Option<Entry>>, builds: seq<Build>, dryRun: bool, k: string, p: Plugin)
    requires IsBatch(stored, loaded, items, PinnedNames(listed), entries, builds, dryRun)
    requires Loads(stored[0], listed) && Shows(stored[0], k, p) && p.pinned != ""
    requires p.ref.Key() == k && Trimmed(p.ref.name)
    requires Bare(k) || forall i :: 0 <= i < |items| ==> Bare(items[i].ref.name)
    ensures Shows(stored[|items|], k, p)
  {
    assert listed.plugins[k] == p;
    TrimmedFixed(p.ref.name);
    BatchSparesPinned(stored, loaded, items, PinnedNames(listed), entries, builds, dryRun, k, p, |items|);
  }
}
