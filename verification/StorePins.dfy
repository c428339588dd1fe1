/** Versions that are held, rolled back, or reinstalled by the batch. */
module StorePins {
  import opened Text
  import opened StoreState
  import opened StoreMigration
  import opened StoreLoads
  import opened StoreOps
  import opened StoreProofs

  // ----- what a pin holds, operation by operation

  /** What is meant to give the plugin under `k` another version, pinned or not, or to remove it. */
  predicate Replaces(op: Operation, k: string) {
    match op
    case DoInstall(r, entry, _) => r.force && StoredRef(r, entry).Key() == k
    case DoUpdate(r, _, _, _) => r.ref.Key() == k
    case DoRemove(ref, _, _) => ref.Key() == k
    case _ => false
  }

  predicate RollsBack(st: State, op: Operation, k: string) { op.DoRollback? && LookupKey(st, op.ref) == Some(k) }

  predicate Unpins(st: State, op: Operation, k: string) { op.DoPin? && op.unpin && LookupKey(st, op.ref) == Some(k) }

  /** The plugin under `k` is still there with its version, and held if it was, unless the pin was lifted. */
  predicate Holds(st: State, to: State, k: string, lifted: bool) {
    && k in st.plugins && k in to.plugins
    && to.plugins[k].installedVersion == st.plugins[k].installedVersion
    && (st.plugins[k].pinned != "" && !lifted ==> to.plugins[k].pinned != "")
  }

  predicate HoldsAfter(st: State, r: Result, k: string, lifted: bool) {
    r.written.Some? ==> Holds(st, r.written.value, k, lifted)
  }

  lemma InstallHolds(st: State, r: InstallRequest, entry: Option<Entry>, build: Build, k: string)
    requires k in st.plugins && !(r.force && StoredRef(r, entry).Key() == k)
    ensures HoldsAfter(st, Install(st, r, entry, build), k, false)
  {}

  lemma UpdateHolds(st: State, r: UpdateRequest, entry: Option<Entry>, build: Build, removable: bool, k: string)
    requires k in st.plugins && r.ref.Key() != k
    ensures HoldsAfter(st, Update(st, r, entry, build, removable), k, false)
  {}

  lemma RollbackHolds(st: State, ref: Ref, dryRun: bool, entry: Option<Entry>, build: Build, removable: bool, k: string)
    requires k in st.plugins && (LookupKey(st, ref) == Some(k) ==> st.plugins[k].pinned != "")
    ensures HoldsAfter(st, Rollback(st, ref, dryRun, entry, build, removable), k, false)
  {}

  lemma SyncHolds(st: State, want: set<string>, built: map<string, map<string, string>>, order: seq<string>,
                  dryRun: bool, k: string)
    requires Integrity(st) && k in st.plugins
    ensures HoldsAfter(st, Sync(st, want, built, order, dryRun), k, false)
  {
    SyncKeeps(st, want, built, order);
  }

  lemma PinHolds(st: State, ref: Ref, unpin: bool, dryRun: bool, k: string)
    requires k in st.plugins
    ensures HoldsAfter(st, Pin(st, ref, unpin, dryRun), k, unpin && LookupKey(st, ref) == Some(k))
  {}

  lemma RemoveHolds(st: State, ref: Ref, dryRun: bool, removable: bool, k: string)
    requires k in st.plugins && ref.Key() != k
    ensures HoldsAfter(st, Remove(st, ref, dryRun, removable), k, false)
  {}

  lemma SetEnabledHolds(st: State, ref: Ref, enabled: bool, dryRun: bool, k: string)
    requires k in st.plugins
    ensures HoldsAfter(st, SetEnabled(st, ref, enabled, dryRun), k, false)
  {}

  lemma CacheOperationsHolds(st: State, ref: Ref, operations: string, k: string)
    requires k in st.plugins
    ensures HoldsAfter(st, CacheOperations(st, ref, operations), k, false)
  {}

  lemma AuthHolds(st: State, op: Operation, k: string)
    requires k in st.plugins && (op.DoAuthConnect? || op.DoAuthTest? || op.DoAuthDisconnect?)
    ensures HoldsAfter(st, Apply(st, op), k, false)
  {}

  lemma SmallerHolds(st: State, op: Operation, k: string)
    requires k in st.plugins && !Replaces(op, k)
    requires !op.DoInstall? && !op.DoUpdate? && !op.DoRollback? && !op.DoSync?
    ensures HoldsAfter(st, Apply(st, op), k, Unpins(st, op, k))
  {
    match op {
      case DoPin(ref, unpin, dryRun) => PinHolds(st, ref, unpin, dryRun, k);
      case DoRemove(ref, dryRun, removable) => RemoveHolds(st, ref, dryRun, removable, k);
      case DoSetEnabled(ref, enabled, dryRun) => SetEnabledHolds(st, ref, enabled, dryRun, k);
      case DoCacheOperations(ref, operations) => CacheOperationsHolds(st, ref, operations, k);
      case _ => AuthHolds(st, op, k);
    }
  }

  /** Every operation leaves an installed version alone, except a forced install, an update or a removal of that
      very plugin and a rollback of it while it is not pinned; and only an unpin of it lifts its pin. */
  lemma ApplyHolds(st: State, op: Operation, k: string)
    requires Integrity(st) && k in st.plugins && !Replaces(op, k)
    requires RollsBack(st, op, k) ==> st.plugins[k].pinned != ""
    ensures HoldsAfter(st, Apply(st, op), k, Unpins(st, op, k))
  {
    match op {
      case DoInstall(r, entry, build) => InstallHolds(st, r, entry, build, k);
      case DoUpdate(r, entry, build, removable) => UpdateHolds(st, r, entry, build, removable, k);
      case DoRollback(ref, dryRun, entry, build, removable) =>
        RollbackHolds(st, ref, dryRun, entry, build, removable, k);
      case DoSync(want, built, order, dryRun) => SyncHolds(st, want, built, order, dryRun, k);
      case _ => SmallerHolds(st, op, k);
    }
  }

  // ----- what a pin holds, over every run

  /** A step of a run that neither moves, replaces nor unpins the plugin under `k`. */
  predicate LeavesPin(stored: State, loaded: State, op: Operation, k: string) {
    !Movable(stored, k) && !Replaces(op, k) && !Unpins(loaded, op, k)
  }

  lemma StepHolds(stored: State, loaded: State, op: Operation, k: string)
    requires Integrity(stored) && Loads(stored, loaded) && LeavesPin(stored, loaded, op, k)
    requires k in stored.plugins && stored.plugins[k].pinned != ""
    ensures Holds(stored, Stored(stored, Apply(loaded, op)), k, false)
  {
    LoadKeepsSound(stored, loaded);
    LoadSpares(stored, loaded, k);
    ApplyHolds(loaded, op, k);
  }

  /** While a plugin is pinned its installed version stays, over every sequence of loads and operations on any
      plugins, rollbacks of itself and installs that are not forced among them: until it is unpinned, removed, or
      replaced by a forced install or an update. (A record under a bare name can never move.) */
  lemma {:induction false} RunHolds(stored: seq<State>, loaded: seq<State>, ops: seq<Operation>, k: string, j: nat)
    requires IsRun(stored, loaded, ops) && Integrity(stored[0]) && FilesPlainly(loaded, ops) && j <= |ops|
    requires k in stored[0].plugins && stored[0].plugins[k].pinned != ""
    requires forall i :: 0 <= i < j ==> LeavesPin(stored[i], loaded[i], ops[i], k)
    ensures Holds(stored[0], stored[j], k, false)
  {
    if j > 0 {
      RunHolds(stored, loaded, ops, k, j - 1);
      PlainRunKeepsIntegrity(stored, loaded, ops, j - 1);
      StepHolds(stored[j - 1], loaded[j - 1], ops[j - 1], k);
    }
  }

  // ----- rolling back twice

  predicate SameVersions(p: Plugin, q: Plugin) {
    p.installedVersion == q.installedVersion && p.previousVersion == q.previousVersion
  }

  /** Two successful rollbacks of one plugin restore its version pair exactly when each rebuilt binary
      reports the version it was asked for, or nothing. */
  lemma RollbackTwiceRestores(st: State, ref: Ref, e1: Option<Entry>, b1: Build, r1: bool,
                              e2: Option<Entry>, b2: Build, r2: bool)
    requires Versions(st)
    requires Rollback(st, ref, false, e1, b1, r1).written.Some?
    requires var once := Rollback(st, ref, false, e1, b1, r1).written.value;
             Rollback(once, ref, false, e2, b2, r2).written.Some?
    ensures var k := LookupKey(st, ref).value;
            var once := Rollback(st, ref, false, e1, b1, r1).written.value;
            var twice := Rollback(once, ref, false, e2, b2, r2).written.value;
            && k in once.plugins && k in twice.plugins
            && (SameVersions(twice.plugins[k], st.plugins[k])
                <==> b1.version in {"", st.plugins[k].previousVersion}
                     && b2.version in {"", st.plugins[k].installedVersion})
  {
    var k := LookupKey(st, ref).value;
    TrimmedFixed(st.plugins[k].previousVersion);
    TrimmedFixed(st.plugins[k].installedVersion);
    assert LookupKey(Rollback(st, ref, false, e1, b1, r1).written.value, ref) == Some(k);
  }

  /** A store with one plugin "a" at a version, after another one. */
  function OneAt(installed: string, previous: string): State {
    State(map["a" := Plugin(Ref("a", "", ""), MARKETPLACE, true, "", "", "", map[], None, installed, previous, "", "")],
          map[])
  }

  /** A rollback of "a" whose rebuilt binary reports `version`. */
  function RolledBack(st: State, version: string): Result {
    Rollback(st, Ref("a", "", ""), false, Some(Entry("", map[])), Built("", map[], version), true)
  }

  lemma RollsOneBack(installed: string, previous: string, version: string)
    requires Trimmed(previous) && previous != ""
    ensures RolledBack(OneAt(installed, previous), version)
            == Write(OneAt(if version == "" then previous else version, installed))
  {
    var was, entry, build := OneAt(installed, previous), Entry("", map[]), Built("", map[], version);
    var now := OneAt(if version == "" then previous else version, installed).plugins["a"];
    TrimmedFixed("a");
    TrimmedFixed(previous);
    assert Rebuilt(was.plugins["a"], entry, build) == was.plugins["a"] by {
      assert entry.labels + was.plugins["a"].labels + build.labels == map[];
    }
    assert was.plugins["a" := now] == map["a" := now];
  }

  /** It happens: from 2 after 1 a rollback whose binary reports 2 leaves 2 after 2. */
  lemma RollbackCanBreakVersions()
    ensures var w := RolledBack(OneAt("2", "1"), "2").written;
            Versions(OneAt("2", "1")) && w.Some? && !Versions(w.value)
  {
    RollsOneBack("2", "1", "2");
    var to := OneAt("2", "2");
    assert !VersionsOk(to.plugins["a"]);
  }

  /** It happens: from 2 after 1 a rollback whose binary reports 3, and another one, give 2 after 3. */
  lemma RollbackTwiceCanDiffer()
    ensures var once := RolledBack(OneAt("2", "1"), "3").written;
            && Versions(OneAt("2", "1")) && once.Some? && Versions(once.value)
            && RolledBack(once.value, "").written == Some(OneAt("2", "3"))
            && !SameVersions(OneAt("2", "3").plugins["a"], OneAt("2", "1").plugins["a"])
  {
    RollsOneBack("2", "1", "3");
    RollsOneBack("3", "2", "");
  }

  // ----- the batch install

  /** A catalog item as the batch sees it. */
  datatype Listed = Listed(ref: Ref, goInstall: string, localPath: string)

  ghost function PinnedNames(st: State): set<string> {
    set k | k in st.plugins && st.plugins[k].pinned != "" :: ToLower(st.plugins[k].ref.name)
  }

  predicate Skipped(item: Listed, pinned: set<string>) {
    var name := TrimSpace(item.ref.name);
    name == "" || (TrimSpace(item.goInstall) == "" && TrimSpace(item.localPath) == "") || ToLower(name) in pinned
  }

  function ForcedInstall(ref: Ref, dryRun: bool): InstallRequest {
    InstallRequest(ref, "", true, None, map[], "", "", "", dryRun)
  }

  /** One item: skipped, or installed by force from a fresh load. */
  ghost predicate BatchStep(before: State, seen: State, after: State, item: Listed, pinned: set<string>,
                            entry: Option<Entry>, build: Build, dryRun: bool) {
    if Skipped(item, pinned) then after == before
    else Loads(before, seen) && after == Stored(before, Install(seen, ForcedInstall(item.ref, dryRun), entry, build))
  }

  /** The batch: items in order, each one a step. */
  ghost predicate IsBatch(stored: seq<State>, loaded: seq<State>, items: seq<Listed>, pinned: set<string>,
                          entries: seq<Option<Entry>>, builds: seq<Build>, dryRun: bool) {
    && |stored| == |items| + 1 && |loaded| == |entries| == |builds| == |items|
    && forall j :: 0 <= j < |items| ==>
         BatchStep(stored[j], loaded[j], stored[j + 1], items[j], pinned, entries[j], builds[j], dryRun)
  }

  /** An install touches the record under its own key and no other. */
  lemma InstallElsewhere(st: State, r: InstallRequest, entry: Option<Entry>, build: Build, k: string)
    requires k in st.plugins && k != StoredRef(r, entry).Key()
    ensures var to := Stored(st, Install(st, r, entry, build)).plugins;
            st.plugins.Keys <= to.Keys && to[k] == st.plugins[k]
  {}

  /** The forced install of a marketplace item is stored under the item's bare name. */
  lemma ForcedInstallKey(st: State, ref: Ref, entry: Option<Entry>, build: Build, dryRun: bool)
    ensures Install(st, ForcedInstall(ref, dryRun), entry, build).written.Some? ==>
              StoredRef(ForcedInstall(ref, dryRun), entry).Key() == ref.name
  {}

  /** The plugin's own name is among the names the batch holds back, and no item can be stored under its key with
      another name: the key is the name, or the item's name is bare. */
  predicate HeldBack(p: Plugin, k: string, pinned: set<string>, item: Listed) {
    p.ref.Key() == k && ToLower(TrimSpace(p.ref.name)) in pinned && (Bare(k) || Bare(item.ref.name))
  }

  lemma BatchItemSpares(st: State, k: string, item: Listed, pinned: set<string>, entry: Option<Entry>, build: Build,
                        dryRun: bool)
    requires k in st.plugins && HeldBack(st.plugins[k], k, pinned, item) && !Skipped(item, pinned) && !Movable(st, k)
    ensures var to := Stored(st, Install(st, ForcedInstall(item.ref, dryRun), entry, build));
            k in to.plugins && to.plugins[k] == st.plugins[k] && !Movable(to, k)
  {
    var r, ref := ForcedInstall(item.ref, dryRun), st.plugins[k].ref;
    assert ref.version != "" ==> '@' in k;
    assert k != item.ref.name;
    ForcedInstallKey(st, item.ref, entry, build, dryRun);
    if Install(st, r, entry, build).written.Some? {
      InstallElsewhere(st, r, entry, build, k);
    }
  }

  lemma BatchStepSpares(before: State, seen: State, after: State, item: Listed, pinned: set<string>,
                        entry: Option<Entry>, build: Build, dryRun: bool, k: string, p: Plugin)
    requires BatchStep(before, seen, after, item, pinned, entry, build, dryRun)
    requires Shows(before, k, p) && HeldBack(p, k, pinned, item)
    ensures Shows(after, k, p)
  {
    if !Skipped(item, pinned) && after != before {
      LoadMigrates(before, seen);
      BatchItemSpares(seen, k, item, pinned, entry, build, dryRun);
      ShowsExactlyWhenSettledOrAlike(after, k, p);
    }
  }

  /** Through the whole batch a record is left alone whose name, trimmed and lower-cased, is among the pinned names
      the batch collected: what every load showed before, every load shows after, whatever the catalog, the builds
      and the order in which maps are ranged over. */
  lemma {:induction false} BatchSparesPinned(stored: seq<State>, loaded: seq<State>, items: seq<Listed>,
                                            pinned: set<string>, entries: seq<Option<Entry>>, builds: seq<Build>,
                                            dryRun: bool, k: string, p: Plugin, j: nat)
    requires IsBatch(stored, loaded, items, pinned, entries, builds, dryRun) && j <= |items|
    requires Shows(stored[0], k, p) && forall i :: 0 <= i < |items| ==> HeldBack(p, k, pinned, items[i])
    ensures Shows(stored[j], k, p)
  {
    if j > 0 {
      var i := j - 1;
      BatchSparesPinned(stored, loaded, items, pinned, entries, builds, dryRun, k, p, i);
      BatchStepSpares(stored[i], loaded[i], stored[j], items[i], pinned, entries[i], builds[i], dryRun, k, p);
    }
  }

  predicate SameRecord(st: State, to: State, k: string) {
    k in st.plugins && k in to.plugins && to.plugins[k] == st.plugins[k]
  }

  /** Whatever item the batch goes on to install, the record at `name` stays as it is. */
  ghost predicate Spared(st: State, name: string) {
    forall item: Listed, entry, build, dryRun :: !Skipped(item, PinnedNames(st)) ==>
      SameRecord(st, Stored(st, Install(st, ForcedInstall(item.ref, dryRun), entry, build)), name)
  }

  lemma ForcedInstallRecords(st: State, name: string, entry: Entry, build: Build)
    requires build.Built? && build.version != "" && TrimSpace(name) != ""
    ensures var to := Stored(st, Install(st, ForcedInstall(Ref(name, "", ""), false), Some(entry), build));
            name in to.plugins && to.plugins[name].installedVersion == build.version
  {}

  lemma UnlistedNameIsReinstalled(st: State, name: string)
    requires TrimSpace(name) != "" && name in st.plugins && ToLower(TrimSpace(name)) !in PinnedNames(st)
    ensures !Spared(st, name)
  {
    var item := Listed(Ref(name, "", ""), "x", "");
    var v := if st.plugins[name].installedVersion == "1" then "2" else "1";
    var entry, build := Some(Entry("x", map[])), Built("r", map[], v);
    TrimmedFixed("x");
    assert !Skipped(item, PinnedNames(st));
    ForcedInstallRecords(st, name, entry.value, build);
    assert !SameRecord(st, Stored(st, Install(st, ForcedInstall(item.ref, false), entry, build)), name);
  }

  /** An item that is not skipped is stored under a name that is not blank. */
  lemma OtherItemSpares(st: State, name: string, item: Listed, entry: Option<Entry>, build: Build, dryRun: bool)
    requires name in st.plugins && item.ref.name != name
    ensures SameRecord(st, Stored(st, Install(st, ForcedInstall(item.ref, dryRun), entry, build)), name)
  {
    ForcedInstallKey(st, item.ref, entry, build, dryRun);
    if Install(st, ForcedInstall(item.ref, dryRun), entry, build).written.Some? {
      InstallElsewhere(st, ForcedInstall(item.ref, dryRun), entry, build, name);
    }
  }

  /** The batch spares the record at a name exactly when the trimmed name is blank or among the names the batch
      collected, which it does untrimmed; so the pin protects a plugin whose stored name has no blanks around it. */
  lemma PinHoldsExactlyWhenNameFound(st: State, name: string)
    requires name in st.plugins
    ensures Spared(st, name) <==> TrimSpace(name) == "" || ToLower(TrimSpace(name)) in PinnedNames(st)
    ensures st.plugins[name].pinned != "" && st.plugins[name].ref.name == name && Trimmed(name) ==> Spared(st, name)
  {
    var pinned := PinnedNames(st);
    if st.plugins[name].pinned != "" && st.plugins[name].ref.name == name && Trimmed(name) {
      TrimmedFixed(name);
      assert ToLower(name) in pinned;
    }
    if TrimSpace(name) != "" && ToLower(TrimSpace(name)) !in pinned {
      UnlistedNameIsReinstalled(st, name);
    } else {
      forall item: Listed, entry, build, dryRun | !Skipped(item, pinned)
        ensures SameRecord(st, Stored(st, Install(st, ForcedInstall(item.ref, dryRun), entry, build)), name)
      {
        OtherItemSpares(st, name, item, entry, build, dryRun);
      }
    }
  }

  /** A sound store with one pinned plugin whose name begins with a blank. */
  function BlankBefore(): State {
    State(map[" a" := Plugin(Ref(" a", "", ""), MARKETPLACE, true, "", "", "", map[], None, "1", "", "1", "")], map[])
  }

  lemma BlankTrimmed()
    ensures TrimSpace(" a") == "a"
  {
    var s := " a";
    assert s[1..] == "a" && TrimLeft("a") == "a";
    assert TrimLeft(s) == TrimLeft(s[1..]);
    TrimmedFixed("a");
  }

  lemma BlankBeforeHolds()
    ensures var st := BlankBefore();
            Integrity(st) && st.plugins[" a"].pinned != "" && PinnedNames(st) == {ToLower(" a")}
  {}

  lemma WiderNameIsReinstalled(st: State, name: string)
    requires name in st.plugins && TrimSpace(name) != "" && |TrimSpace(name)| < |name|
    requires PinnedNames(st) == {ToLower(name)}
    ensures !Spared(st, name)
  {
    UnlistedNameIsReinstalled(st, name);
  }

  /** It happens: the batch can reinstall that plugin in spite of its pin. */
  lemma BlankNameIsReinstalled()
    ensures var st := BlankBefore(); Integrity(st) && st.plugins[" a"].pinned != "" && !Spared(st, " a")
  {
    BlankTrimmed();
    BlankBeforeHolds();
    WiderNameIsReinstalled(BlankBefore(), " a");
  }
}
