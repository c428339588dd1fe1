/** What each operation makes of the loaded store, as functions. What the operation learns from outside
    (the marketplace entry, the build and the version it reports, the plugin's answer) is an argument. */
module StoreOps {
  import opened Text
  import opened Sorting
  import opened StoreState

  datatype Error =
    | NameRequired | NotInMarketplace | NotInstalled | BuildFailed | ArtifactNotRemoved
    | NoInstalledVersion | HeldAt(version: string) | NoPreviousVersion | PluginRefused(message: string)

  /** The store to write, if the operation writes, and the error it returns, if any. */
  datatype Result = Result(written: Option<State>, error: Option<Error>)

  function Write(st: State): Result { Result(Some(st), None) }

  function Answer(): Result { Result(None, None) }

  function Refuse(e: Error): Result { Result(None, Some(e)) }

  /** A marketplace entry, as far as the store depends on it. */
  datatype Entry = Entry(goInstall: string, labels: map<string, string>)

  /** A runnable artifact and the module version its binary reports ("" for none), or a failed build. */
  datatype Build = Built(runtime: string, labels: map<string, string>, version: string) | Broken

  datatype InstallRequest = InstallRequest(ref: Ref, source: string, force: bool, config: Option<string>,
                                           labels: map<string, string>, runtime: string, manifest: string,
                                           manifestRef: string, dryRun: bool)

  function FirstNonEmpty(x: string, y: string): string {
    if TrimSpace(x) != "" then TrimSpace(x) else TrimSpace(y)
  }

  predicate ValidRef(ref: Ref) { TrimSpace(ref.name) != "" }

  predicate ExplicitInstall(r: InstallRequest) {
    TrimSpace(r.source) != "" || r.runtime != "" || r.manifest != "" || TrimSpace(r.manifestRef) != ""
  }

  // ----- install

  /** Marketplace installs are stored under the bare name; explicit installs keep their identity. */
  function StoredRef(r: InstallRequest, entry: Option<Entry>): Ref {
    if entry.Some? && !ExplicitInstall(r) then r.ref.(version := "") else r.ref
  }

  function NewRecord(r: InstallRequest, entry: Option<Entry>, build: Build): Plugin {
    var builds := r.runtime == "" && entry.Some? && !r.dryRun && build.Built?;
    var labels := (if entry.Some? then entry.value.labels else map[]) + r.labels;
    Plugin(StoredRef(r, entry),
           if r.source == "" && entry.Some? then MARKETPLACE else r.source,
           true,
           if builds then build.runtime else r.runtime,
           FirstNonEmpty(r.manifestRef, if entry.Some? then entry.value.goInstall else ""),
           r.manifest,
           if builds then labels + build.labels else labels,
           r.config,
           if builds then build.version else "",
           "", "", "")
  }

  function OverFields(p: Plugin, was: Plugin): Plugin {
    p.(source := if p.source == "" then was.source else p.source,
       runtime := if p.runtime == "" then was.runtime else p.runtime,
       manifestRef := if p.manifestRef == "" then was.manifestRef else p.manifestRef,
       manifest := if p.manifest == "" then was.manifest else p.manifest,
       config := if p.config.None? then was.config else p.config,
       labels := if p.labels == map[] then was.labels else p.labels)
  }

  function OverVersions(p: Plugin, was: Plugin): Plugin {
    p.(pinned := was.pinned,
       previousVersion :=
         if p.installedVersion != "" && was.installedVersion != "" && was.installedVersion != p.installedVersion
         then was.installedVersion else was.previousVersion,
       installedVersion := if p.installedVersion == "" then was.installedVersion else p.installedVersion)
  }

  /** A reinstall keeps what the new record leaves open, the pin, and the version it replaces. */
  function OverExisting(p: Plugin, was: Plugin): Plugin { OverVersions(OverFields(p, was), was) }

  function EnsureDefaultInstance(st: State, ref: Ref): State {
    var k := InstanceKey(ref, DEFAULT_INSTANCE);
    if k in st.instances then st
    else st.(instances := st.instances[k := Instance(ref, DEFAULT_INSTANCE, [])])
  }

  /** The record an install writes. */
  function InstalledPlugin(st: State, r: InstallRequest, entry: Option<Entry>, build: Build): Plugin {
    var key := StoredRef(r, entry).Key();
    var made := NewRecord(r, entry, build);
    if key in st.plugins then OverExisting(made, st.plugins[key]) else made
  }

  function InstallError(r: InstallRequest, entry: Option<Entry>, build: Build): Option<Error> {
    if !ValidRef(r.ref) then Some(NameRequired)
    else if entry.None? && !ExplicitInstall(r) then Some(NotInMarketplace)
    else if r.runtime == "" && entry.Some? && !r.dryRun && build.Broken? then Some(BuildFailed)
    else None
  }

  function Install(st: State, r: InstallRequest, entry: Option<Entry>, build: Build): Result {
    var key := StoredRef(r, entry).Key();
    var error := InstallError(r, entry, build);
    if error.Some? && error.value != BuildFailed then Refuse(error.value)
    else if key in st.plugins && !r.force && !r.dryRun then Answer()
    else if error.Some? then Refuse(error.value)
    else if r.dryRun then Answer()
    else
      var p := InstalledPlugin(st, r, entry, build);
      Write(EnsureDefaultInstance(st.(plugins := st.plugins[key := p]), p.ref))
  }

  // ----- update, pin, rollback

  datatype UpdateRequest = UpdateRequest(ref: Ref, source: string, runtime: string, manifest: string,
                                         manifestRef: string, dryRun: bool)

  /** The recorded path of the artifact the host built. */
  function ArtifactPath(labels: map<string, string>): string {
    if "installed_binary_path" in labels then TrimSpace(labels["installed_binary_path"]) else ""
  }

  /** A rebuild at a new path deletes the old artifact, which may fail. */
  predicate ArtifactKept(was: map<string, string>, made: map<string, string>, removable: bool) {
    ArtifactPath(was) == "" || ArtifactPath(was) == ArtifactPath(made) || removable
  }

  function Rebuilt(p: Plugin, entry: Entry, build: Build): Plugin
    requires build.Built?
  {
    p.(runtime := build.runtime, labels := entry.labels + p.labels + build.labels)
  }

  function RecordVersion(p: Plugin, version: string): Plugin {
    if version == "" then p
    else
      p.(previousVersion := if p.installedVersion != "" && p.installedVersion != version then p.installedVersion
                            else p.previousVersion,
         installedVersion := version)
  }

  function Update(st: State, r: UpdateRequest, entry: Option<Entry>, build: Build, removable: bool): Result {
    var key := r.ref.Key();
    if !ValidRef(r.ref) then Refuse(NameRequired)
    else if key !in st.plugins then Refuse(NotInstalled)
    else
      var was := st.plugins[key];
      var p := if TrimSpace(r.source) != "" then was.(source := r.source) else was;
      var rebuilds := r.runtime == "" && entry.Some? && TrimSpace(p.source) == MARKETPLACE && !r.dryRun;
      if rebuilds && build.Broken? then Refuse(BuildFailed)
      else
        var q := if rebuilds then RecordVersion(Rebuilt(p, entry.value, build), build.version)
                 else if r.runtime != "" then p.(runtime := r.runtime) else p;
        if rebuilds && !ArtifactKept(p.labels, q.labels, removable) then Refuse(ArtifactNotRemoved)
        else if r.dryRun then Answer()
        else
          var final := q.(manifestRef := if TrimSpace(r.manifestRef) != "" then r.manifestRef else q.manifestRef,
                          manifest := if r.manifest != "" then r.manifest else q.manifest);
          Write(st.(plugins := st.plugins[key := final]))
  }

  /** The record a pin or rollback means: under the full key, else under the bare name. */
  function LookupKey(st: State, ref: Ref): Option<string> {
    if ref.Key() in st.plugins then Some(ref.Key())
    else if ref.name in st.plugins then Some(ref.name)
    else None
  }

  function Pin(st: State, ref: Ref, unpin: bool, dryRun: bool): Result {
    if !ValidRef(ref) then Refuse(NameRequired)
    else
      match LookupKey(st, ref)
      case None => Refuse(NotInstalled)
      case Some(key) =>
        var p := st.plugins[key];
        var held := if unpin then ""
                    else if TrimSpace(ref.version) != "" then TrimSpace(ref.version) else p.installedVersion;
        if !unpin && held == "" then Refuse(NoInstalledVersion)
        else if dryRun || p.pinned == held then Answer()
        else Write(st.(plugins := st.plugins[key := p.(pinned := held)]))
  }

  function Rollback(st: State, ref: Ref, dryRun: bool, entry: Option<Entry>, build: Build, removable: bool): Result {
    if !ValidRef(ref) then Refuse(NameRequired)
    else
      match LookupKey(st, ref)
      case None => Refuse(NotInstalled)
      case Some(key) =>
        var p := st.plugins[key];
        var previous := TrimSpace(p.previousVersion);
        if p.pinned != "" then Refuse(HeldAt(p.pinned))
        else if previous == "" then Refuse(NoPreviousVersion)
        else if dryRun then Answer()
        else if entry.None? then Refuse(NotInMarketplace)
        else if build.Broken? then Refuse(BuildFailed)
        else
          var q := Rebuilt(p, entry.value, build);
          if !ArtifactKept(p.labels, q.labels, removable) then Refuse(ArtifactNotRemoved)
          else
            Write(st.(plugins := st.plugins[key := q.(previousVersion := p.installedVersion,
                                                      installedVersion := if build.version == "" then previous
                                                                          else build.version)]))
  }

  // ----- sync, enable, operations cache, remove

  /** One step of the sync loop: a wanted plugin whose workspace build succeeded gets its artifact labels. */
  function SyncOne(st: State, want: set<string>, built: map<string, map<string, string>>, k: string): State {
    if k !in st.plugins then st
    else
      var p := st.plugins[k];
      var name := TrimSpace(p.ref.name);
      if name == "" || (want != {} && name !in want) || k !in built then st
      else st.(plugins := st.plugins[p.ref.Key() := p.(labels := p.labels + built[k])])
  }

  /** The sync loop over the plugin keys in the order the map yields them. */
  function SyncAlong(st: State, want: set<string>, built: map<string, map<string, string>>, order: seq<string>): State
    decreases |order|
  {
    if order == [] then st else SyncAlong(SyncOne(st, want, built, order[0]), want, built, order[1..])
  }

  function Sync(st: State, want: set<string>, built: map<string, map<string, string>>, order: seq<string>,
                dryRun: bool): Result {
    if dryRun then Answer() else Write(SyncAlong(st, want, built, order))
  }

  function SetEnabled(st: State, ref: Ref, enabled: bool, dryRun: bool): Result {
    if !ValidRef(ref) then Refuse(NameRequired)
    else if ref.Key() !in st.plugins then Refuse(NotInstalled)
    else if dryRun then Answer()
    else Write(st.(plugins := st.plugins[ref.Key() := st.plugins[ref.Key()].(enabled := enabled)]))
  }

  function CacheOperations(st: State, ref: Ref, operations: string): Result {
    if ref.Key() !in st.plugins then Answer()
    else Write(st.(plugins := st.plugins[ref.Key() := st.plugins[ref.Key()].(operations := operations)]))
  }

  function Remove(st: State, ref: Ref, dryRun: bool, removable: bool): Result {
    var key := ref.Key();
    if !ValidRef(ref) then Refuse(NameRequired)
    else if key !in st.plugins then Refuse(NotInstalled)
    else if dryRun then Answer()
    else if !removable then Refuse(ArtifactNotRemoved)
    else
      Write(State(st.plugins - {key},
                  map k | k in st.instances && st.instances[k].plugin.Key() != key :: st.instances[k]))
  }

  // ----- auth

  function NormalizeMethod(m: string): string { if TrimSpace(m) == "" then "default" else TrimSpace(m) }

  predicate AuthBefore(x: AuthState, y: AuthState) {
    Before(NormalizeMethod(x.authMethod), NormalizeMethod(y.authMethod))
  }

  /** The position of the first auth state of a method, or the length when there is none. */
  function FindFrom(auth: seq<AuthState>, m: string): (i: nat)
    ensures i <= |auth|
    ensures i < |auth| ==> NormalizeMethod(auth[i].authMethod) == NormalizeMethod(m)
    ensures forall j :: 0 <= j < i ==> NormalizeMethod(auth[j].authMethod) != NormalizeMethod(m)
  {
    if auth == [] || NormalizeMethod(auth[0].authMethod) == NormalizeMethod(m) then 0 else 1 + FindFrom(auth[1..], m)
  }

  function FindAuth(auth: seq<AuthState>, m: string): Option<AuthState> {
    var i := FindFrom(auth, m);
    if i < |auth| then Some(auth[i]) else None
  }

  function UpsertAuth(auth: seq<AuthState>, a: AuthState): seq<AuthState> {
    var i := FindFrom(auth, a.authMethod);
    if i < |auth| then auth[i := a] else StableSort(auth + [a], AuthBefore)
  }

  function RemoveAuth(auth: seq<AuthState>, m: string): seq<AuthState> {
    if auth == [] then []
    else
      (if NormalizeMethod(auth[0].authMethod) == NormalizeMethod(m) then [] else [auth[0]])
      + RemoveAuth(auth[1..], m)
  }

  /** The stored instance of that name, or a new one that is not stored yet. */
  function InstanceOf(st: State, ref: Ref, name: string): Instance {
    var k := InstanceKey(ref, NormalizeInstance(name));
    if k in st.instances then st.instances[k] else Instance(ref, NormalizeInstance(name), [])
  }

  function PutInstance(st: State, ref: Ref, i: Instance): State {
    st.(instances := st.instances[InstanceKey(ref, i.name) := i])
  }

  /** Connect: the plugin's own answer decides; `state` is what a success records. */
  function AuthConnect(st: State, ref: Ref, name: string, state: AuthState, refusal: Option<string>,
                       dryRun: bool): Result {
    if !ValidRef(ref) then Refuse(NameRequired)
    else if ref.Key() !in st.plugins then Refuse(NotInstalled)
    else if dryRun then Answer()
    else if refusal.Some? then Refuse(PluginRefused(refusal.value))
    else
      var i := InstanceOf(st, ref, name);
      Write(PutInstance(st, ref, i.(auth := UpsertAuth(i.auth, state.(connected := true)))))
  }

  function AuthTest(st: State, ref: Ref, name: string, m: string, refusal: Option<string>, dryRun: bool): Result {
    if !ValidRef(ref) then Refuse(NameRequired)
    else if ref.Key() !in st.plugins then Refuse(NotInstalled)
    else if dryRun then Answer()
    else
      var i := InstanceOf(st, ref, name);
      var found := FindAuth(i.auth, NormalizeMethod(m));
      var a := if found.Some? then found.value else AuthState(NormalizeMethod(m), true, "", map[]);
      match refusal
      case Some(e) =>
        Result(Some(PutInstance(st, ref, i.(auth := UpsertAuth(i.auth, a.(connected := false, error := e))))),
               Some(PluginRefused(e)))
      case None =>
        Write(PutInstance(st, ref, i.(auth := UpsertAuth(i.auth, a.(connected := true, error := "")))))
  }

  function AuthDisconnect(st: State, ref: Ref, name: string, m: string, dryRun: bool): Result {
    var i := InstanceOf(st, ref, name);
    if !ValidRef(ref) then Refuse(NameRequired)
    else if FindAuth(i.auth, NormalizeMethod(m)).None? || dryRun then Answer()
    else Write(PutInstance(st, ref, i.(auth := RemoveAuth(i.auth, NormalizeMethod(m)))))
  }

  // ----- any operation

  datatype Operation =
    | DoInstall(install: InstallRequest, entry: Option<Entry>, build: Build)
    | DoUpdate(update: UpdateRequest, entry: Option<Entry>, build: Build, removable: bool)
    | DoPin(ref: Ref, unpin: bool, dryRun: bool)
    | DoRollback(ref: Ref, dryRun: bool, entry: Option<Entry>, build: Build, removable: bool)
    | DoSync(want: set<string>, built: map<string, map<string, string>>, order: seq<string>, dryRun: bool)
    | DoSetEnabled(ref: Ref, enabled: bool, dryRun: bool)
    | DoCacheOperations(ref: Ref, operations: string)
    | DoRemove(ref: Ref, dryRun: bool, removable: bool)
    | DoAuthConnect(ref: Ref, name: string, state: AuthState, refusal: Option<string>, dryRun: bool)
    | DoAuthTest(ref: Ref, name: string, m: string, refusal: Option<string>, dryRun: bool)
    | DoAuthDisconnect(ref: Ref, name: string, m: string, dryRun: bool)

  function Apply(st: State, op: Operation): Result {
    match op
    case DoInstall(r, entry, build) => Install(st, r, entry, build)
    case DoUpdate(r, entry, build, removable) => Update(st, r, entry, build, removable)
    case DoPin(ref, unpin, dryRun) => Pin(st, ref, unpin, dryRun)
    case DoRollback(ref, dryRun, entry, build, removable) => Rollback(st, ref, dryRun, entry, build, removable)
    case DoSync(want, built, order, dryRun) => Sync(st, want, built, order, dryRun)
    case DoSetEnabled(ref, enabled, dryRun) => SetEnabled(st, ref, enabled, dryRun)
    case DoCacheOperations(ref, operations) => CacheOperations(st, ref, operations)
    case DoRemove(ref, dryRun, removable) => Remove(st, ref, dryRun, removable)
    case DoAuthConnect(ref, name, state, refusal, dryRun) => AuthConnect(st, ref, name, state, refusal, dryRun)
    case DoAuthTest(ref, name, m, refusal, dryRun) => AuthTest(st, ref, name, m, refusal, dryRun)
    case DoAuthDisconnect(ref, name, m, dryRun) => AuthDisconnect(st, ref, name, m, dryRun)
  }
}
