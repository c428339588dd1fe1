/** What each operation leaves in the store, field by field and over the stores before and after, when it refuses, and
    how operations undo or block each other. */
module StoreEffects {
  import opened Text
  import opened StoreState
  import opened StoreMigration
  import opened StoreOps
  import opened StoreProofs
  import StorePins

  // ----- records before and after

  /** Plugin `k` is the only record in which the stores differ. */
  ghost predicate OnlyPlugin(st: State, to: State, k: string) {
    && k in st.plugins && to.plugins.Keys == st.plugins.Keys && to.instances == st.instances
    && forall j :: j in st.plugins && j != k ==> to.plugins[j] == st.plugins[j]
  }

  /** A label of the build, else of the record, else of the catalog. */
  ghost predicate LabelsOver(labels: map<string, string>, build: map<string, string>, record: map<string, string>,
                             catalog: map<string, string>) {
    && (forall k :: k in labels <==> k in build || k in record || k in catalog)
    && forall k :: k in labels ==>
         labels[k] == if k in build then build[k] else if k in record then record[k] else catalog[k]
  }

  /** A reported version is installed, over the one before if that is another one; without a report both stay. */
  predicate VersionNoted(p: Plugin, q: Plugin, version: string) {
    if version == "" then q.installedVersion == p.installedVersion && q.previousVersion == p.previousVersion
    else
      && q.installedVersion == version
      && q.previousVersion == (if p.installedVersion != "" && p.installedVersion != version then p.installedVersion
                               else p.previousVersion)
  }

  /** Runtime and labels are the build's, over what was there. */
  ghost predicate BuiltOver(p: Plugin, q: Plugin, entry: Option<Entry>, build: Build) {
    && entry.Some? && build.Built? && q.runtime == build.runtime
    && LabelsOver(q.labels, build.labels, p.labels, entry.value.labels)
  }

  function Given(text: string, otherwise: string): string { if TrimSpace(text) != "" then text else otherwise }

  // ----- update

  /** An update builds a marketplace plugin anew, unless it is given a runtime. */
  predicate Builds(p: Plugin, r: UpdateRequest, entry: Option<Entry>) {
    r.runtime == "" && entry.Some? && TrimSpace(Given(r.source, p.source)) == "marketplace"
  }

  ghost predicate UpdatedTo(p: Plugin, q: Plugin, r: UpdateRequest, entry: Option<Entry>, build: Build) {
    && (if Builds(p, r, entry) then BuiltOver(p, q, entry, build) && VersionNoted(p, q, build.version)
        else
          && q.runtime == (if r.runtime != "" then r.runtime else p.runtime) && q.labels == p.labels
          && q.installedVersion == p.installedVersion && q.previousVersion == p.previousVersion)
    && q.source == Given(r.source, p.source) && q.manifestRef == Given(r.manifestRef, p.manifestRef)
    && q.manifest == (if r.manifest != "" then r.manifest else p.manifest)
    && q.ref == p.ref && q.enabled == p.enabled && q.config == p.config && q.pinned == p.pinned
    && q.operations == p.operations
  }

  /** The old artifact stays where it is, or could be deleted. */
  predicate ArtifactMayGo(was: map<string, string>, now: map<string, string>, removable: bool) {
    ArtifactPath(was) == "" || ArtifactPath(was) == ArtifactPath(now) || removable
  }

  lemma UpdateTouches(st: State, r: UpdateRequest, entry: Option<Entry>, build: Build, removable: bool)
    ensures var w, k := Update(st, r, entry, build, removable).written, r.ref.Key();
            w.Some? ==>
              && OnlyPlugin(st, w.value, k)
              && (Builds(st.plugins[k], r, entry) ==>
                    ArtifactMayGo(st.plugins[k].labels, w.value.plugins[k].labels, removable))
  {}

  lemma MergedLabels(catalog: map<string, string>, record: map<string, string>, build: map<string, string>)
    ensures LabelsOver(catalog + record + build, build, record, catalog)
  {}

  lemma RebuildLeaves(st: State, r: UpdateRequest, entry: Option<Entry>, build: Build, removable: bool)
    requires Update(st, r, entry, build, removable).written.Some? && Builds(st.plugins[r.ref.Key()], r, entry)
    ensures var to, k := Update(st, r, entry, build, removable).written.value, r.ref.Key();
            k in to.plugins && UpdatedTo(st.plugins[k], to.plugins[k], r, entry, build)
  {
    assert build.Built?;
    MergedLabels(entry.value.labels, st.plugins[r.ref.Key()].labels, build.labels);
  }

  lemma EditLeaves(st: State, r: UpdateRequest, entry: Option<Entry>, build: Build, removable: bool)
    requires Update(st, r, entry, build, removable).written.Some? && !Builds(st.plugins[r.ref.Key()], r, entry)
    ensures var to, k := Update(st, r, entry, build, removable).written.value, r.ref.Key();
            k in to.plugins && UpdatedTo(st.plugins[k], to.plugins[k], r, entry, build)
  {}

  /** What a written update leaves: a rebuilt plugin has the reported version, over the old one, and the build's
      runtime and labels; everything that was not given or built stays. */
  lemma UpdateWrites(st: State, r: UpdateRequest, entry: Option<Entry>, build: Build, removable: bool)
    ensures var w, k := Update(st, r, entry, build, removable).written, r.ref.Key();
            w.Some? ==>
              && OnlyPlugin(st, w.value, k) && UpdatedTo(st.plugins[k], w.value.plugins[k], r, entry, build)
              && (Builds(st.plugins[k], r, entry) ==>
                    ArtifactMayGo(st.plugins[k].labels, w.value.plugins[k].labels, removable))
  {
    UpdateTouches(st, r, entry, build, removable);
    if Update(st, r, entry, build, removable).written.Some? {
      if Builds(st.plugins[r.ref.Key()], r, entry) {
        RebuildLeaves(st, r, entry, build, removable);
      } else {
        EditLeaves(st, r, entry, build, removable);
      }
    }
  }

  /** An update writes exactly when it is no dry run and nothing is refused; it refuses a blank name, a plugin that
      is not installed, a broken build, and to leave an old artifact behind. */
  lemma UpdateRefuses(st: State, r: UpdateRequest, entry: Option<Entry>, build: Build, removable: bool)
    ensures var result, k := Update(st, r, entry, build, removable), r.ref.Key();
            && (result.error == Some(NameRequired) <==> TrimSpace(r.ref.name) == "")
            && (result.error == Some(NotInstalled) <==> TrimSpace(r.ref.name) != "" && k !in st.plugins)
            && (TrimSpace(r.ref.name) != "" && k in st.plugins ==>
                  && (result.error == Some(BuildFailed) <==>
                        !r.dryRun && Builds(st.plugins[k], r, entry) && build.Broken?)
                  && result.error in {None, Some(BuildFailed), Some(ArtifactNotRemoved)}
                  && (result.error == Some(ArtifactNotRemoved) ==> !r.dryRun && build.Built? && !removable))
            && (result.written.Some? <==> result.error.None? && !r.dryRun)
  {}

  // ----- pin

  /** What a pin holds: the version asked for, else the installed one; nothing when it is lifted. */
  function HeldVersion(p: Plugin, ref: Ref, unpin: bool): string {
    if unpin then "" else if TrimSpace(ref.version) != "" then TrimSpace(ref.version) else p.installedVersion
  }

  /** The key a pin or a rollback acts on: the reference's own, else its bare name. */
  ghost predicate ActsOn(st: State, ref: Ref, k: string) {
    k in st.plugins && (k == ref.Key() || (ref.Key() !in st.plugins && k == ref.name))
  }

  lemma LookupActsOn(st: State, ref: Ref, k: string)
    ensures LookupKey(st, ref) == Some(k) <==> ActsOn(st, ref, k)
  {}

  /** A pin changes the held version and nothing else, and only if it changes; it refuses where there is no version
      to hold. */
  lemma PinWrites(st: State, ref: Ref, unpin: bool, dryRun: bool, k: string)
    requires ActsOn(st, ref, k) && TrimSpace(ref.name) != ""
    ensures var result, p := Pin(st, ref, unpin, dryRun), st.plugins[k];
            var held := HeldVersion(p, ref, unpin);
            && (result.error == if !unpin && held == "" then Some(NoInstalledVersion) else None)
            && (result.written.Some? <==> result.error.None? && !dryRun && held != p.pinned)
            && (result.written.Some? ==> result.written.value == st.(plugins := st.plugins[k := p.(pinned := held)]))
  {
    LookupActsOn(st, ref, k);
  }

  lemma AbsentIsRefused(st: State, ref: Ref, unpin: bool, dryRun: bool, entry: Option<Entry>, build: Build,
                        removable: bool)
    ensures var refused := if TrimSpace(ref.name) == "" then Some(Refuse(NameRequired))
                           else if ref.Key() !in st.plugins && ref.name !in st.plugins then Some(Refuse(NotInstalled))
                           else None;
            refused.Some? ==>
              && Pin(st, ref, unpin, dryRun) == refused.value
              && Rollback(st, ref, dryRun, entry, build, removable) == refused.value
  {}

  // ----- rollback

  ghost predicate RolledBackTo(p: Plugin, q: Plugin, entry: Option<Entry>, build: Build) {
    && BuiltOver(p, q, entry, build)
    && q.previousVersion == p.installedVersion
    && q.installedVersion == (if build.version != "" then build.version else TrimSpace(p.previousVersion))
    && q.ref == p.ref && q.source == p.source && q.enabled == p.enabled && q.manifestRef == p.manifestRef
    && q.manifest == p.manifest && q.config == p.config && q.pinned == p.pinned && q.operations == p.operations
  }

  /** A rollback goes back to the version before, as the build reports it, and remembers the one it leaves. It
      refuses a held plugin first, then one without a version before; only then does it matter whether the plugin is
      in the catalog, can be built, and its old artifact deleted. */
  lemma RollbackWrites(st: State, ref: Ref, dryRun: bool, entry: Option<Entry>, build: Build, removable: bool,
                       k: string)
    requires ActsOn(st, ref, k) && TrimSpace(ref.name) != ""
    ensures var result, p := Rollback(st, ref, dryRun, entry, build, removable), st.plugins[k];
            && (result.error == Some(HeldAt(p.pinned)) <==> p.pinned != "")
            && (result.error == Some(NoPreviousVersion) <==> p.pinned == "" && TrimSpace(p.previousVersion) == "")
            && (result.error in {Some(NotInMarketplace), Some(BuildFailed), Some(ArtifactNotRemoved)} ==>
                  !dryRun && (entry.None? || build.Broken? || !removable))
            && (result.written.Some? <==> result.error.None? && !dryRun)
            && (result.written.Some? ==>
                  && OnlyPlugin(st, result.written.value, k)
                  && RolledBackTo(p, result.written.value.plugins[k], entry, build))
  {
    LookupActsOn(st, ref, k);
  }

  // ----- install

  /** An install from the catalog: nothing of its own is given. */
  predicate FromCatalog(r: InstallRequest, entry: Option<Entry>) {
    entry.Some? && TrimSpace(r.source) == "" && r.runtime == "" && r.manifest == "" && TrimSpace(r.manifestRef) == ""
  }

  /** Catalog installs drop the version from the reference. */
  function FiledRef(r: InstallRequest, entry: Option<Entry>): Ref {
    if FromCatalog(r, entry) then Ref(r.ref.name, "", r.ref.channel) else r.ref
  }

  function Or(text: string, otherwise: string): string { if text != "" then text else otherwise }

  /** A record with nothing in it. */
  function NoRecord(): Plugin {
    Plugin(Ref("", "", ""), "", false, "", "", "", map[], None, "", "", "", "")
  }

  function RecordBefore(st: State, k: string): Plugin { if k in st.plugins then st.plugins[k] else NoRecord() }

  ghost predicate InstalledTo(was: Plugin, q: Plugin, r: InstallRequest, entry: Option<Entry>, build: Build) {
    var builds := r.runtime == "" && entry.Some?;
    var catalog := if entry.Some? then entry.value.labels else map[];
    && q.ref == FiledRef(r, entry) && q.enabled && q.operations == "" && q.pinned == was.pinned
    && (builds ==> build.Built?)
    && q.source == Or(if r.source == "" && entry.Some? then "marketplace" else r.source, was.source)
    && q.runtime == Or(if builds then build.runtime else r.runtime, was.runtime)
    && q.manifestRef == Or(if TrimSpace(r.manifestRef) != "" then TrimSpace(r.manifestRef)
                           else if entry.Some? then TrimSpace(entry.value.goInstall) else "", was.manifestRef)
    && q.manifest == Or(r.manifest, was.manifest)
    && q.config == (if r.config.Some? then r.config else was.config)
    && (LabelsOver(q.labels, if builds then build.labels else map[], r.labels, catalog)
        || (q.labels == was.labels && catalog == map[] && r.labels == map[] && (builds ==> build.labels == map[])))
    && VersionNoted(was, q, if builds then build.version else "")
  }

  /** The default instance is there; no instance changed. */
  ghost predicate DefaultEnsured(st: State, to: State, ref: Ref) {
    var k := ref.Key() + "#default";
    && to.instances.Keys == st.instances.Keys + {k}
    && (forall j :: j in st.instances ==> to.instances[j] == st.instances[j])
    && (k !in st.instances ==> to.instances[k] == Instance(ref, "default", []))
  }

  lemma StoredRefIsFiled(r: InstallRequest, entry: Option<Entry>)
    ensures StoredRef(r, entry) == FiledRef(r, entry)
  {}

  lemma DefaultInstance(st: State, ref: Ref)
    ensures DefaultEnsured(st, EnsureDefaultInstance(st, ref), ref)
  {
    TrimmedFixed("default");
    assert InstanceKey(ref, DEFAULT_INSTANCE) == ref.Key() + "#default";
  }

  lemma NewRecordInstalls(r: InstallRequest, entry: Option<Entry>, build: Build)
    requires !r.dryRun && (r.runtime == "" && entry.Some? ==> build.Built?)
    ensures InstalledTo(NoRecord(), NewRecord(r, entry, build), r, entry, build)
  {
    StoredRefIsFiled(r, entry);
    var q := NewRecord(r, entry, build);
    var builds := r.runtime == "" && entry.Some?;
    assert LabelsOver(q.labels, if builds then build.labels else map[], r.labels,
                      if entry.Some? then entry.value.labels else map[]);
  }

  lemma OverExistingInstalls(was: Plugin, r: InstallRequest, entry: Option<Entry>, build: Build)
    requires !r.dryRun && (r.runtime == "" && entry.Some? ==> build.Built?)
    ensures InstalledTo(was, OverExisting(NewRecord(r, entry, build), was), r, entry, build)
  {
    NewRecordInstalls(r, entry, build);
  }

  /** A written install files one record, and sees to the default instance. */
  lemma InstallFiles(st: State, r: InstallRequest, entry: Option<Entry>, build: Build)
    requires Install(st, r, entry, build).written.Some?
    ensures var to, ref, p := Install(st, r, entry, build).written.value, FiledRef(r, entry),
                              InstalledPlugin(st, r, entry, build);
            && to == EnsureDefaultInstance(st.(plugins := st.plugins[ref.Key() := p]), ref)
            && !r.dryRun && (r.runtime == "" && entry.Some? ==> build.Built?)
  {
    StoredRefIsFiled(r, entry);
    InstalledPluginFits(st, r, entry, build);
  }

  lemma FiledRecord(st: State, r: InstallRequest, entry: Option<Entry>, build: Build)
    requires !r.dryRun && (r.runtime == "" && entry.Some? ==> build.Built?)
    ensures var was := RecordBefore(st, FiledRef(r, entry).Key());
            InstalledTo(was, InstalledPlugin(st, r, entry, build), r, entry, build)
  {
    StoredRefIsFiled(r, entry);
    var k := FiledRef(r, entry).Key();
    if k in st.plugins {
      OverExistingInstalls(st.plugins[k], r, entry, build);
    } else {
      NewRecordInstalls(r, entry, build);
    }
  }

  lemma FiledStore(st: State, ref: Ref, k: string, p: Plugin)
    ensures var to := EnsureDefaultInstance(st.(plugins := st.plugins[k := p]), ref);
            && to.plugins == st.plugins[k := p] && DefaultEnsured(st, to, ref)
  {
    DefaultInstance(st.(plugins := st.plugins[k := p]), ref);
  }

  /** What a written install leaves: a record under the filed key with what was given, built or in the catalog, and
      under it what the record before had; the pin is kept, the version noted; and a default instance. */
  lemma InstallWrites(st: State, r: InstallRequest, entry: Option<Entry>, build: Build)
    ensures var w, k := Install(st, r, entry, build).written, FiledRef(r, entry).Key();
            w.Some? ==>
              && w.value.plugins.Keys == st.plugins.Keys + {k}
              && (forall j :: j in st.plugins && j != k ==> w.value.plugins[j] == st.plugins[j])
              && InstalledTo(RecordBefore(st, k), w.value.plugins[k], r, entry, build)
              && DefaultEnsured(st, w.value, FiledRef(r, entry))
  {
    if Install(st, r, entry, build).written.Some? {
      var ref := FiledRef(r, entry);
      InstallFiles(st, r, entry, build);
      FiledRecord(st, r, entry, build);
      FiledStore(st, ref, ref.Key(), InstalledPlugin(st, r, entry, build));
    }
  }

  /** An install refuses a blank name and what is neither in the catalog nor explicit; installed plugins are left
      alone unless forced; a broken build is refused; otherwise it writes, unless it is a dry run. */
  lemma InstallRefuses(st: State, r: InstallRequest, entry: Option<Entry>, build: Build)
    ensures var result, k := Install(st, r, entry, build), FiledRef(r, entry).Key();
            var unknown := entry.None? && FromCatalog(r, Some(Entry("", map[])));
            && (result.error == Some(NameRequired) <==> TrimSpace(r.ref.name) == "")
            && (result.error == Some(NotInMarketplace) <==> TrimSpace(r.ref.name) != "" && unknown)
            && (result.error == Some(BuildFailed) <==>
                  && TrimSpace(r.ref.name) != "" && !unknown && !r.dryRun && (k !in st.plugins || r.force)
                  && r.runtime == "" && entry.Some? && build.Broken?)
            && (result.written.Some? <==> result.error.None? && !r.dryRun && (k !in st.plugins || r.force))
  {
    StoredRefIsFiled(r, entry);
  }

  // ----- sync, enable, operations cache

  /** A sync wants the plugins that were named, or all when none was, and passes over a blank name. */
  predicate Wanted(p: Plugin, want: set<string>) {
    TrimSpace(p.ref.name) != "" && (want == {} || TrimSpace(p.ref.name) in want)
  }

  predicate Synced(p: Plugin, k: string, want: set<string>, built: map<string, map<string, string>>) {
    Wanted(p, want) && k in built
  }

  function SyncedTo(p: Plugin, k: string, want: set<string>, built: map<string, map<string, string>>): Plugin {
    if Synced(p, k, want, built) then p.(labels := p.labels + built[k]) else p
  }

  lemma SyncedTwice(p: Plugin, k: string, want: set<string>, built: map<string, map<string, string>>)
    ensures SyncedTo(SyncedTo(p, k, want, built), k, want, built) == SyncedTo(p, k, want, built)
  {
    assert k in built ==> p.labels + built[k] + built[k] == p.labels + built[k];
  }

  lemma SyncOneLabels(st: State, want: set<string>, built: map<string, map<string, string>>, first: string, k: string)
    requires Integrity(st) && k in st.plugins
    ensures var p, to := st.plugins[k], SyncOne(st, want, built, first);
            && Integrity(to) && k in to.plugins
            && to.plugins[k] == if first == k then SyncedTo(p, k, want, built) else p
  {}

  lemma {:induction false} SyncAlongLabels(st: State, want: set<string>, built: map<string, map<string, string>>,
                                           order: seq<string>, k: string)
    requires Integrity(st) && k in st.plugins
    ensures var p, to := st.plugins[k], SyncAlong(st, want, built, order);
            k in to.plugins && to.plugins[k] == if k in order then SyncedTo(p, k, want, built) else p
    decreases |order|
  {
    if order != [] {
      SyncOneLabels(st, want, built, order[0], k);
      SyncAlongLabels(SyncOne(st, want, built, order[0]), want, built, order[1..], k);
      SyncedTwice(st.plugins[k], k, want, built);
    }
  }

  /** In whatever order the loop takes them, exactly the wanted plugins whose build succeeded get the labels of
      their artifact, over their own. */
  lemma SyncWrites(st: State, want: set<string>, built: map<string, map<string, string>>, order: seq<string>, k: string)
    requires Integrity(st) && Covers(order, st.plugins.Keys) && k in st.plugins
    ensures var to, p := Sync(st, want, built, order, false).written.value, st.plugins[k];
            && k in to.plugins && to.plugins[k] == p.(labels := to.plugins[k].labels)
            && (if Wanted(p, want) && k in built then LabelsOver(to.plugins[k].labels, built[k], p.labels, map[])
                else to.plugins[k].labels == p.labels)
  {
    SyncAlongLabels(st, want, built, order, k);
  }

  /** Enabling writes one field of one record, of an installed plugin. */
  lemma EnablingWrites(st: State, ref: Ref, enabled: bool, dryRun: bool)
    ensures var result, k := SetEnabled(st, ref, enabled, dryRun), ref.Key();
            && result.error == (if TrimSpace(ref.name) == "" then Some(NameRequired)
                                else if k !in st.plugins then Some(NotInstalled) else None)
            && (result.written.Some? <==> result.error.None? && !dryRun)
            && (result.written.Some? ==>
                  && OnlyPlugin(st, result.written.value, k)
                  && result.written.value.plugins[k] == st.plugins[k].(enabled := enabled))
  {}

  /** So does caching a plugin's operations, which never fails. */
  lemma CachingWrites(st: State, ref: Ref, operations: string)
    ensures var result, k := CacheOperations(st, ref, operations), ref.Key();
            && result.error.None? && (result.written.Some? <==> k in st.plugins)
            && (result.written.Some? ==>
                  && OnlyPlugin(st, result.written.value, k)
                  && result.written.value.plugins[k] == st.plugins[k].(operations := operations))
  {}

  // ----- one operation after another

  /** A rollback after an update that recorded another version leaves the two versions swapped exactly when its
      build reports the old version or nothing. */
  lemma RollbackUndoesUpdate(st: State, r: UpdateRequest, entry: Option<Entry>, build: Build, removable: bool,
                             catalog: Option<Entry>, rebuild: Build, cleared: bool)
    requires Update(st, r, entry, build, removable).written.Some?
    requires var p := st.plugins[r.ref.Key()];
             && Builds(p, r, entry) && build.version !in {"", p.installedVersion}
             && p.installedVersion != "" && Trimmed(p.installedVersion)
    ensures var updated, k := Update(st, r, entry, build, removable).written.value, r.ref.Key();
            var w := Rollback(updated, r.ref, false, catalog, rebuild, cleared).written;
            w.Some? ==>
              var p, q := st.plugins[k], w.value.plugins[k];
              && (q.installedVersion == p.installedVersion <==> rebuild.version in {"", p.installedVersion})
              && q.previousVersion == build.version && q.pinned == p.pinned == ""
  {
    var k := r.ref.Key();
    UpdateWrites(st, r, entry, build, removable);
    var updated := Update(st, r, entry, build, removable).written.value;
    assert UpdatedTo(st.plugins[k], updated.plugins[k], r, entry, build);
    TrimmedFixed(st.plugins[k].installedVersion);
    RollbackWrites(updated, r.ref, false, catalog, rebuild, cleared, k);
  }

  /** A written pin makes every rollback of that plugin refuse, by whatever reference and build; lifting it lets
      none refuse for that reason. */
  lemma PinBlocksRollback(st: State, ref: Ref, unpin: bool, k: string, other: Ref, dryRun: bool,
                          entry: Option<Entry>, build: Build, removable: bool)
    requires Pin(st, ref, unpin, false).written.Some? && ActsOn(st, ref, k)
    requires TrimSpace(other.name) != "" && ActsOn(Pin(st, ref, unpin, false).written.value, other, k)
    ensures var held := HeldVersion(st.plugins[k], ref, unpin);
            var result := Rollback(Pin(st, ref, unpin, false).written.value, other, dryRun, entry, build, removable);
            && (!unpin ==> held != "" && result == Refuse(HeldAt(held)))
            && (unpin ==> result.error.None? || !result.error.value.HeldAt?)
  {
    PinWrites(st, ref, unpin, false, k);
    RollbackWrites(Pin(st, ref, unpin, false).written.value, other, dryRun, entry, build, removable, k);
  }

  /** What an install has written an install without force leaves alone, whatever it asks for. */
  lemma ReinstallIsIdle(st: State, r: InstallRequest, entry: Option<Entry>, build: Build, again: InstallRequest,
                        catalog: Option<Entry>, rebuild: Build)
    requires Install(st, r, entry, build).written.Some? && !again.force
    requires FiledRef(again, catalog).Key() == FiledRef(r, entry).Key()
    ensures var installed := Install(st, r, entry, build).written.value;
            Install(installed, again, catalog, rebuild).written.None?
  {
    InstallWrites(st, r, entry, build);
    InstallRefuses(Install(st, r, entry, build).written.value, again, catalog, rebuild);
  }

  /** What the batch does with a catalog item that has a name and something to install, and whose name is not held
      back: it is installed anew as the catalog and the build say, keeping its pin and its configuration, and nothing
      else is touched. Without an entry, or in a dry run, the batch writes nothing. */
  lemma BatchItemInstalls(before: State, seen: State, after: State, item: StorePins.Listed, pinned: set<string>,
                          entry: Option<Entry>, build: Build, dryRun: bool)
    requires StorePins.BatchStep(before, seen, after, item, pinned, entry, build, dryRun)
    requires TrimSpace(item.ref.name) != "" && (TrimSpace(item.goInstall) != "" || TrimSpace(item.localPath) != "")
    requires ToLower(TrimSpace(item.ref.name)) !in pinned
    ensures Loads(before, seen)
    ensures dryRun || entry.None? || build.Broken? ==> after == before
    ensures !dryRun && entry.Some? && build.Built? ==>
              var k, was := item.ref.name, RecordBefore(seen, item.ref.name);
              && after.plugins.Keys == seen.plugins.Keys + {k}
              && (forall j :: j in seen.plugins && j != k ==> after.plugins[j] == seen.plugins[j])
              && var p := after.plugins[k];
                 && p.ref == Ref(k, "", item.ref.channel) && p.enabled && p.source == "marketplace"
                 && p.runtime == Or(build.runtime, was.runtime) && VersionNoted(was, p, build.version)
                 && p.pinned == was.pinned && p.config == was.config && p.manifest == was.manifest
  {
    var r := StorePins.ForcedInstall(item.ref, dryRun);
    assert TrimSpace("") == "";
    InstallRefuses(seen, r, entry, build);
    InstallWrites(seen, r, entry, build);
  }

  // ----- removal

  /** `rest` is what remains of a table without some of its keys. */
  ghost predicate Remains<T>(was: map<string, T>, rest: map<string, T>, gone: set<string>) {
    rest.Keys == was.Keys - gone && forall k :: k in rest ==> rest[k] == was[k]
  }

  /** A removal takes one plugin and its instances and leaves every other record as it was; it refuses a blank
      name, a plugin that is not installed, and to leave an artifact behind. */
  lemma RemoveWrites(st: State, ref: Ref, dryRun: bool, removable: bool)
    ensures var result, k := Remove(st, ref, dryRun, removable), ref.Key();
            && result.error == (if TrimSpace(ref.name) == "" then Some(NameRequired)
                                else if k !in st.plugins then Some(NotInstalled)
                                else if !dryRun && !removable then Some(ArtifactNotRemoved) else None)
            && (result.written.Some? <==> result.error.None? && !dryRun)
            && (result.written.Some? ==>
                  && Remains(st.plugins, result.written.value.plugins, {k})
                  && Remains(st.instances, result.written.value.instances,
                             set j | j in st.instances && st.instances[j].plugin.Key() == k))
  {}
}
