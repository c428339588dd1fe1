/** What the store keeps over every sequence of loads and operations. */
module StoreProofs {
  import opened Text
  import opened Sorting
  import opened StoreState
  import opened StoreMigration
  import opened StoreOps

  /** The key an operation files a record under has no '#'. Only an install and a disconnect file a record under a
      key that the store may not hold yet; an install from the marketplace drops the version from that key. */
  predicate KeyIsPlain(op: Operation) {
    match op
    case DoInstall(r, entry, _) => '#' !in StoredRef(r, entry).Key()
    case DoAuthDisconnect(ref, _, _, _) => '#' !in ref.Key()
    case _ => true
  }

  // ----- integrity, operation by operation

  lemma PutPluginKeeps(st: State, k: string, p: Plugin)
    requires Integrity(st) && '#' !in k && p.ref.Key() == k
    ensures Integrity(st.(plugins := st.plugins[k := p]))
  {}

  lemma PutInstanceKeeps(st: State, ref: Ref, i: Instance)
    requires Integrity(st) && ref.Key() in st.plugins && i.plugin.Key() == ref.Key()
             && NormalizeInstance(i.name) == i.name
    ensures Integrity(PutInstance(st, ref, i))
  {}

  lemma InstalledPluginFits(st: State, r: InstallRequest, entry: Option<Entry>, build: Build)
    ensures InstalledPlugin(st, r, entry, build).ref == StoredRef(r, entry)
  {}

  lemma EnsureInstanceKeeps(st: State, ref: Ref)
    requires Integrity(st) && ref.Key() in st.plugins
    ensures Integrity(EnsureDefaultInstance(st, ref))
  {
    NormalizeInstanceIdempotent(DEFAULT_INSTANCE);
    TrimmedFixed(DEFAULT_INSTANCE);
    PutInstanceKeeps(st, ref, Instance(ref, DEFAULT_INSTANCE, []));
  }

  /** An install keeps a sound store sound exactly when the key it files the plugin under has no '#'. */
  lemma InstallKeeps(st: State, r: InstallRequest, entry: Option<Entry>, build: Build)
    requires Integrity(st)
    ensures var w := Install(st, r, entry, build).written;
            w.Some? ==> (Integrity(w.value) <==> '#' !in StoredRef(r, entry).Key())
  {
    var key, p := StoredRef(r, entry).Key(), InstalledPlugin(st, r, entry, build);
    var w := Install(st, r, entry, build).written;
    InstalledPluginFits(st, r, entry, build);
    if '#' !in key {
      PutPluginKeeps(st, key, p);
      EnsureInstanceKeeps(st.(plugins := st.plugins[key := p]), p.ref);
    } else if w.Some? {
      assert key in w.value.plugins;
    }
  }

  lemma UpdateKeeps(st: State, r: UpdateRequest, entry: Option<Entry>, build: Build, removable: bool)
    requires Integrity(st)
    ensures var w := Update(st, r, entry, build, removable).written; w.Some? ==> Integrity(w.value)
  {
    var w := Update(st, r, entry, build, removable).written;
    if w.Some? {
      PutPluginKeeps(st, r.ref.Key(), w.value.plugins[r.ref.Key()]);
    }
  }

  lemma PinKeeps(st: State, ref: Ref, unpin: bool, dryRun: bool)
    requires Integrity(st)
    ensures var w := Pin(st, ref, unpin, dryRun).written; w.Some? ==> Integrity(w.value)
  {}

  lemma RollbackKeeps(st: State, ref: Ref, dryRun: bool, entry: Option<Entry>, build: Build, removable: bool)
    requires Integrity(st)
    ensures var w := Rollback(st, ref, dryRun, entry, build, removable).written; w.Some? ==> Integrity(w.value)
  {}

  lemma {:induction false} SyncKeeps(st: State, want: set<string>, built: map<string, map<string, string>>,
                                     order: seq<string>)
    requires Integrity(st)
    ensures var to := SyncAlong(st, want, built, order);
            && Integrity(to) && to.plugins.Keys == st.plugins.Keys && to.instances == st.instances
            && forall k :: k in st.plugins ==> to.plugins[k] == st.plugins[k].(labels := to.plugins[k].labels)
    decreases |order|
  {
    if order != [] {
      SyncKeeps(SyncOne(st, want, built, order[0]), want, built, order[1..]);
    }
  }

  lemma SetEnabledKeeps(st: State, ref: Ref, enabled: bool, dryRun: bool)
    requires Integrity(st)
    ensures var w := SetEnabled(st, ref, enabled, dryRun).written; w.Some? ==> Integrity(w.value)
  {}

  lemma CacheOperationsKeeps(st: State, ref: Ref, operations: string)
    requires Integrity(st)
    ensures var w := CacheOperations(st, ref, operations).written; w.Some? ==> Integrity(w.value)
  {}

  /** A removal leaves neither the plugin nor an instance of it, and every other instance. */
  lemma RemoveKeeps(st: State, ref: Ref, dryRun: bool, removable: bool)
    requires Integrity(st)
    ensures var w := Remove(st, ref, dryRun, removable).written;
            w.Some? ==>
              && Integrity(w.value) && ref.Key() !in w.value.plugins
              && forall k :: k in w.value.instances <==> k in st.instances && st.instances[k].plugin.Key() != ref.Key()
  {}

  lemma InstanceOfFits(st: State, ref: Ref, name: string)
    requires Integrity(st) && '#' !in ref.Key()
    ensures var i := InstanceOf(st, ref, name); i.plugin.Key() == ref.Key() && NormalizeInstance(i.name) == i.name
    ensures InstanceOf(st, ref, name).auth != [] ==> ref.Key() in st.plugins
  {
    NormalizeInstanceIdempotent(name);
    if InstanceKey(ref, NormalizeInstance(name)) in st.instances {
      InstanceAt(st, ref, NormalizeInstance(name));
    }
  }

  lemma AuthKeeps(st: State, ref: Ref, name: string, auth: seq<AuthState>)
    requires Integrity(st) && ref.Key() in st.plugins
    ensures Integrity(PutInstance(st, ref, InstanceOf(st, ref, name).(auth := auth)))
  {
    InstanceOfFits(st, ref, name);
    PutInstanceKeeps(st, ref, InstanceOf(st, ref, name).(auth := auth));
  }

  lemma {:induction false} TrimLeftStops(s: string, t: string)
    requires t != [] && !IsSpace(t[0])
    ensures TrimLeft(s + t) == TrimLeft(s) + t
  {
    if s == [] {
      assert s + t == t;
    } else {
      assert (s + t)[1..] == s[1..] + t;
      TrimLeftStops(s[1..], t);
    }
  }

  /** Trimming leaves a '#' and what is trimmed behind it alone. */
  lemma NameStaysLonger(q: string, n: string)
    requires n != "" && Trimmed(n)
    ensures |NormalizeInstance(q + "#" + n)| > |n|
  {
    var t := "#" + n;
    TrimLeftStops(q, t);
    assert q + "#" + n == q + t;
    assert TrimSpace(q + t) == TrimLeft(q) + t;
  }

  lemma NormalizedName(name: string)
    ensures var n := NormalizeInstance(name); n != "" && Trimmed(n) && NormalizeInstance(n) == n
  {
    TrimSpaceTrimmed(name);
    NormalizeInstanceIdempotent(name);
  }

  /** The owner's key ends at the first '#', so its instance has a longer name than the one looked for. */
  lemma LongerName(key: string, n: string, owner: string, name: string)
    requires '#' in key && '#' !in owner && key + "#" + n == owner + "#" + name && n != "" && Trimmed(n)
    ensures |NormalizeInstance(name)| > |n|
  {
    var h := IndexOf(key, '#');
    var q := key[h + 1..];
    assert key == key[..h] + "#" + q;
    assert key + "#" + n == key[..h] + "#" + (q + "#" + n);
    JoinInjective(key[..h], q + "#" + n, owner, name);
    NameStaysLonger(q, n);
  }

  /** With '#' in its key a reference can only find an instance of another plugin; filing it again under that
      reference puts it under a key that is not its own. */
  lemma MisfiledInstance(st: State, ref: Ref, name: string, auth: seq<AuthState>)
    requires Integrity(st) && '#' in ref.Key() && InstanceKey(ref, NormalizeInstance(name)) in st.instances
    ensures !Integrity(PutInstance(st, ref, InstanceOf(st, ref, name).(auth := auth)))
  {
    var n, i := NormalizeInstance(name), InstanceOf(st, ref, name);
    NormalizedName(name);
    var found, k := ref.Key() + "#" + n, InstanceKey(ref, i.name);
    assert i == st.instances[found] && found == i.plugin.Key() + "#" + i.name;
    LongerName(ref.Key(), n, i.plugin.Key(), i.name);
    assert |k| > |found|;
    assert PutInstance(st, ref, i.(auth := auth)).instances[k] == i.(auth := auth);
  }

  /** Connecting and testing act on stored plugins and keep integrity whatever the reference; a disconnect looks
      for an instance only, and keeps integrity exactly when the reference's key has no '#'. */
  lemma AuthOperationKeeps(st: State, op: Operation)
    requires Integrity(st) && (op.DoAuthConnect? || op.DoAuthTest? || op.DoAuthDisconnect?)
    ensures var w := Apply(st, op).written; w.Some? ==> (Integrity(w.value) <==> KeyIsPlain(op))
  {
    var w := Apply(st, op).written;
    if w.Some? {
      var i := InstanceOf(st, op.ref, op.name);
      var auth := w.value.instances[InstanceKey(op.ref, i.name)].auth;
      assert w.value == PutInstance(st, op.ref, i.(auth := auth));
      if '#' in op.ref.Key() {
        MisfiledInstance(st, op.ref, op.name, auth);
      } else {
        InstanceOfFits(st, op.ref, op.name);
        AuthKeeps(st, op.ref, op.name, auth);
      }
    }
  }

  /** From a sound store an operation that writes leaves a sound store exactly when the key it files a record
      under has no '#'. */
  lemma ApplyKeepsIntegrity(st: State, op: Operation)
    requires Integrity(st)
    ensures var w := Apply(st, op).written; w.Some? ==> (Integrity(w.value) <==> KeyIsPlain(op))
  {
    match op {
      case DoInstall(r, entry, build) => InstallKeeps(st, r, entry, build);
      case DoUpdate(r, entry, build, removable) => UpdateKeeps(st, r, entry, build, removable);
      case DoPin(ref, unpin, dryRun) => PinKeeps(st, ref, unpin, dryRun);
      case DoRollback(ref, dryRun, entry, build, removable) => RollbackKeeps(st, ref, dryRun, entry, build, removable);
      case DoSync(want, built, order, _) => SyncKeeps(st, want, built, order);
      case DoSetEnabled(ref, enabled, dryRun) => SetEnabledKeeps(st, ref, enabled, dryRun);
      case DoCacheOperations(ref, operations) => CacheOperationsKeeps(st, ref, operations);
      case DoRemove(ref, dryRun, removable) => RemoveKeeps(st, ref, dryRun, removable);
      case _ => AuthOperationKeeps(st, op);
    }
  }

  // ----- version bookkeeping, operation by operation

  /** `version` is what the plugin a rollback means has installed now. */
  predicate Leaves(st: State, ref: Ref, version: string) {
    var k := LookupKey(st, ref); k.Some? && st.plugins[k.value].installedVersion == version
  }

  /** What the outside must report for the bookkeeping to stay sound: binaries report trimmed versions,
      and a rollback's rebuild does not report the very version it is leaving. */
  predicate Reported(st: State, op: Operation) {
    match op
    case DoInstall(_, _, build) => build.Built? ==> Trimmed(build.version)
    case DoUpdate(_, _, build, _) => build.Built? ==> Trimmed(build.version)
    case DoRollback(ref, _, _, build, _) =>
      build.Built? ==> Trimmed(build.version) && (build.version == "" || !Leaves(st, ref, build.version))
    case _ => true
  }

  lemma InstalledPluginVersions(st: State, r: InstallRequest, entry: Option<Entry>, build: Build)
    requires Versions(st) && (build.Built? ==> Trimmed(build.version))
    ensures VersionsOk(InstalledPlugin(st, r, entry, build))
  {}

  lemma PutPluginVersions(st: State, k: string, p: Plugin)
    requires Versions(st) && VersionsOk(p)
    ensures Versions(st.(plugins := st.plugins[k := p]))
  {}

  lemma InstallVersions(st: State, r: InstallRequest, entry: Option<Entry>, build: Build)
    requires Versions(st) && (build.Built? ==> Trimmed(build.version))
    ensures var w := Install(st, r, entry, build).written; w.Some? ==> Versions(w.value)
  {
    var key, p := StoredRef(r, entry).Key(), InstalledPlugin(st, r, entry, build);
    InstalledPluginVersions(st, r, entry, build);
    PutPluginVersions(st, key, p);
    var w := Install(st, r, entry, build).written;
    assert w.Some? ==> w.value.plugins == st.plugins[key := p];
  }

  lemma {:induction false} SyncVersions(st: State, want: set<string>, built: map<string, map<string, string>>,
                                        order: seq<string>)
    requires Versions(st)
    ensures Versions(SyncAlong(st, want, built, order))
    decreases |order|
  {
    if order != [] {
      SyncVersions(SyncOne(st, want, built, order[0]), want, built, order[1..]);
    }
  }

  lemma PinVersions(st: State, ref: Ref, unpin: bool, dryRun: bool)
    requires Versions(st)
    ensures var w := Pin(st, ref, unpin, dryRun).written; w.Some? ==> Versions(w.value)
  {}

  lemma RemoveVersions(st: State, ref: Ref, dryRun: bool, removable: bool)
    requires Versions(st)
    ensures var w := Remove(st, ref, dryRun, removable).written; w.Some? ==> Versions(w.value)
  {}

  lemma UpdatedVersions(st: State, r: UpdateRequest, entry: Option<Entry>, build: Build, removable: bool)
    requires Versions(st) && (build.Built? ==> Trimmed(build.version))
    ensures var w := Update(st, r, entry, build, removable).written;
            w.Some? ==> r.ref.Key() in w.value.plugins && VersionsOk(w.value.plugins[r.ref.Key()])
                        && w.value.plugins == st.plugins[r.ref.Key() := w.value.plugins[r.ref.Key()]]
  {}

  lemma UpdateVersions(st: State, r: UpdateRequest, entry: Option<Entry>, build: Build, removable: bool)
    requires Versions(st) && (build.Built? ==> Trimmed(build.version))
    ensures var w := Update(st, r, entry, build, removable).written; w.Some? ==> Versions(w.value)
  {
    UpdatedVersions(st, r, entry, build, removable);
    var w := Update(st, r, entry, build, removable).written;
    if w.Some? {
      PutPluginVersions(st, r.ref.Key(), w.value.plugins[r.ref.Key()]);
    }
  }

  /** A successful rollback from a sound store keeps the bookkeeping sound exactly when the rebuilt
      binary does not report the version that is being left. */
  lemma RollbackVersions(st: State, ref: Ref, dryRun: bool, entry: Option<Entry>, build: Build, removable: bool)
    requires Versions(st) && (build.Built? ==> Trimmed(build.version))
    ensures var w := Rollback(st, ref, dryRun, entry, build, removable).written;
            w.Some? ==> (Versions(w.value) <==> build.version == "" || !Leaves(st, ref, build.version))
  {
    var w := Rollback(st, ref, dryRun, entry, build, removable).written;
    if w.Some? {
      var k := LookupKey(st, ref).value;
      TrimmedFixed(st.plugins[k].previousVersion);
      assert forall j :: j in st.plugins && j != k ==> w.value.plugins[j] == st.plugins[j];
      assert VersionsOk(w.value.plugins[k]) <==> build.version == "" || !Leaves(st, ref, build.version);
    }
  }

  lemma ApplyKeepsVersions(st: State, op: Operation)
    requires Versions(st) && Reported(st, op)
    ensures var w := Apply(st, op).written; w.Some? ==> Versions(w.value)
  {
    match op {
      case DoInstall(r, entry, build) => InstallVersions(st, r, entry, build);
      case DoUpdate(r, entry, build, removable) => UpdateVersions(st, r, entry, build, removable);
      case DoRollback(ref, dryRun, entry, build, removable) =>
        RollbackVersions(st, ref, dryRun, entry, build, removable);
      case DoSync(want, built, order, _) => SyncVersions(st, want, built, order);
      case DoPin(ref, unpin, dryRun) => PinVersions(st, ref, unpin, dryRun);
      case DoRemove(ref, dryRun, removable) => RemoveVersions(st, ref, dryRun, removable);
      case _ => {}
    }
  }

  // ----- runs

  function Stored(before: State, r: Result): State { if r.written.Some? then r.written.value else before }

  /** Each operation loads what is stored, migrating it, and stores its result if it writes. */
  ghost predicate IsRun(stored: seq<State>, loaded: seq<State>, ops: seq<Operation>) {
    && |stored| == |ops| + 1 && |loaded| == |ops|
    && forall k :: 0 <= k < |ops| ==>
         && Loads(stored[k], loaded[k])
         && stored[k + 1] == Stored(stored[k], Apply(loaded[k], ops[k]))
  }

  /** Every key under which the run files a record is free of '#'. */
  ghost predicate FilesPlainly(loaded: seq<State>, ops: seq<Operation>)
    requires |loaded| == |ops|
  {
    forall j :: 0 <= j < |ops| && Apply(loaded[j], ops[j]).written.Some? ==> KeyIsPlain(ops[j])
  }

  lemma OperationKeepsIntegrity(stored: State, loaded: State, op: Operation)
    requires Integrity(stored) && Loads(stored, loaded)
    ensures Integrity(loaded)
    ensures Integrity(Stored(stored, Apply(loaded, op))) <==> (Apply(loaded, op).written.Some? ==> KeyIsPlain(op))
  {
    LoadKeepsSound(stored, loaded);
    ApplyKeepsIntegrity(loaded, op);
  }

  lemma {:induction false} PlainRunKeepsIntegrity(stored: seq<State>, loaded: seq<State>, ops: seq<Operation>, k: nat)
    requires IsRun(stored, loaded, ops) && Integrity(stored[0]) && FilesPlainly(loaded, ops) && k <= |ops|
    ensures Integrity(stored[k])
  {
    if k > 0 {
      PlainRunKeepsIntegrity(stored, loaded, ops, k - 1);
      OperationKeepsIntegrity(stored[k - 1], loaded[k - 1], ops[k - 1]);
    }
  }

  /** Store integrity over every sequence of loads and operations: the store is sound all along exactly when
      every key under which the run files a record is free of '#'. */
  lemma RunKeepsIntegrity(stored: seq<State>, loaded: seq<State>, ops: seq<Operation>)
    requires IsRun(stored, loaded, ops) && Integrity(stored[0])
    ensures (forall k :: 0 <= k <= |ops| ==> Integrity(stored[k])) <==> FilesPlainly(loaded, ops)
  {
    if FilesPlainly(loaded, ops) {
      forall k | 0 <= k <= |ops| ensures Integrity(stored[k]) { PlainRunKeepsIntegrity(stored, loaded, ops, k); }
    } else {
      var j :| 0 <= j < |ops| && Apply(loaded[j], ops[j]).written.Some? && !KeyIsPlain(ops[j]);
      if Integrity(stored[j]) { OperationKeepsIntegrity(stored[j], loaded[j], ops[j]); }
      assert !Integrity(stored[j]) || !Integrity(stored[j + 1]);
    }
  }

  lemma OperationKeepsVersions(stored: State, loaded: State, op: Operation)
    requires Versions(stored) && Loads(stored, loaded) && Reported(loaded, op)
    ensures Versions(loaded) && Versions(Stored(stored, Apply(loaded, op)))
  {
    LoadKeepsSound(stored, loaded);
    ApplyKeepsVersions(loaded, op);
  }

  /** Version bookkeeping over every sequence of loads and operations. */
  lemma {:induction false} RunKeepsVersions(stored: seq<State>, loaded: seq<State>, ops: seq<Operation>, k: nat)
    requires IsRun(stored, loaded, ops) && Versions(stored[0]) && k <= |ops|
    requires forall j :: 0 <= j < |ops| ==> Reported(loaded[j], ops[j])
    ensures Versions(stored[k])
  {
    if k > 0 {
      RunKeepsVersions(stored, loaded, ops, k - 1);
      OperationKeepsVersions(stored[k - 1], loaded[k - 1], ops[k - 1]);
    }
  }

  // ----- a '#' that breaks integrity

  lemma PlainNames()
    ensures NormalizeInstance("d") == "d" && NormalizeMethod("m") == "m" && TrimSpace("a#x") != ""
  {}

  /** A sound store with one plugin "a" and its instance named "x#d". */
  function NamedAcross(): State {
    var a := Ref("a", "", "");
    State(map["a" := Plugin(a, "", true, "", "", "", map[], None, "", "", "", "")],
          map["a#x#d" := Instance(a, "x#d", [AuthState("m", true, "", map[])])])
  }

  lemma NamedAcrossIsSound()
    ensures Integrity(NamedAcross())
  {
    assert "a" + "#" + "x#d" == "a#x#d";
  }

  /** A lookup for a plugin "a#x" finds the instance of "a". */
  lemma FoundByAnother()
    ensures InstanceKey(Ref("a#x", "", ""), NormalizeInstance("d")) == "a#x#d"
    ensures InstanceOf(NamedAcross(), Ref("a#x", "", ""), "d") == NamedAcross().instances["a#x#d"]
    ensures FindAuth(NamedAcross().instances["a#x#d"].auth, NormalizeMethod("m")).Some?
  {
    PlainNames();
    assert "a#x" + "#" + "d" == "a#x#d";
  }

  /** Writing, and leaving a store that is not sound. */
  ghost predicate Breaks(r: Result) { r.written.Some? && !Integrity(r.written.value) }

  lemma FoundDisconnectWrites(st: State, ref: Ref, name: string, m: string)
    ensures var i := InstanceOf(st, ref, name);
            ValidRef(ref) && FindAuth(i.auth, NormalizeMethod(m)).Some? ==>
              AuthDisconnect(st, ref, name, m, false).written
              == Some(PutInstance(st, ref, i.(auth := RemoveAuth(i.auth, NormalizeMethod(m)))))
  {}

  /** It happens: plugin "a" has an instance named "x#d", whose key is also what a disconnect for a plugin "a#x",
      which need not be installed, looks up; the disconnect files that instance under a key that is not its own. */
  lemma HashInReferenceBreaksIntegrity()
    ensures Integrity(NamedAcross()) && Breaks(AuthDisconnect(NamedAcross(), Ref("a#x", "", ""), "d", "m", false))
  {
    var ref, i := Ref("a#x", "", ""), NamedAcross().instances["a#x#d"];
    NamedAcrossIsSound();
    FoundByAnother();
    PlainNames();
    FoundDisconnectWrites(NamedAcross(), ref, "d", "m");
    MisfiledInstance(NamedAcross(), ref, "d", RemoveAuth(i.auth, NormalizeMethod("m")));
  }
}
