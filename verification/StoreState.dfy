/** The local plugin store's state: plugin records and instance records, and what makes it sound. */
module StoreState {
  import opened Text

  const DEFAULT_INSTANCE := "default"
  const MARKETPLACE := "marketplace"

  // ----- keys

  datatype Ref = Ref(name: string, version: string, channel: string) {
    function Key(): string { if version == "" then name else name + "@" + version }
  }

  predicate Bare(key: string) { '@' !in key }

  function NormalizeInstance(name: string): string {
    if TrimSpace(name) == "" then DEFAULT_INSTANCE else TrimSpace(name)
  }

  function InstanceKey(ref: Ref, name: string): string { ref.Key() + "#" + NormalizeInstance(name) }

  lemma NormalizeInstanceIdempotent(name: string)
    ensures NormalizeInstance(NormalizeInstance(name)) == NormalizeInstance(name)
  {
    TrimSpaceIdempotent(name);
    TrimmedFixed(DEFAULT_INSTANCE);
  }

  /** Where the left parts have no '#', the joined key determines both parts. */
  lemma JoinInjective(a: string, x: string, b: string, y: string)
    requires '#' !in a && '#' !in b && a + "#" + x == b + "#" + y
    ensures a == b && x == y
  {
    IndexAfter(a, x, '#');
    IndexAfter(b, y, '#');
    var s := a + "#" + x;
    assert a == s[..|a|] && b == s[..|b|] && x == s[|a| + 1..] && y == s[|b| + 1..];
  }

  // ----- records

  datatype Plugin = Plugin(ref: Ref, source: string, enabled: bool, runtime: string, manifestRef: string,
                           manifest: string, labels: map<string, string>, config: Option<string>,
                           installedVersion: string, previousVersion: string, pinned: string, operations: string)

  datatype AuthState = AuthState(authMethod: string, connected: bool, error: string, metadata: map<string, string>)

  datatype Instance = Instance(plugin: Ref, name: string, auth: seq<AuthState>)

  datatype State = State(plugins: map<string, Plugin>, instances: map<string, Instance>)

  const EMPTY_STATE := State(map[], map[])

  // ----- soundness

  /** Every record sits under its own key, and every instance belongs to an installed plugin. */
  ghost predicate Integrity(st: State) {
    && (forall k :: k in st.plugins ==> '#' !in k && st.plugins[k].ref.Key() == k)
    && (forall k :: k in st.instances ==>
          k == st.instances[k].plugin.Key() + "#" + st.instances[k].name && st.instances[k].plugin.Key() in st.plugins)
  }

  /** A recorded previous version is the one before a different installed version; versions carry no
      surrounding blanks. */
  predicate VersionsOk(p: Plugin) {
    && Trimmed(p.installedVersion) && Trimmed(p.previousVersion)
    && (p.previousVersion != "" ==> p.installedVersion != "" && p.installedVersion != p.previousVersion)
  }

  ghost predicate Versions(st: State) {
    forall k :: k in st.plugins ==> VersionsOk(st.plugins[k])
  }

  lemma InstanceAt(st: State, ref: Ref, name: string)
    requires Integrity(st) && '#' !in ref.Key() && InstanceKey(ref, name) in st.instances
    ensures var i := st.instances[InstanceKey(ref, name)];
            i.plugin.Key() == ref.Key() && i.name == NormalizeInstance(name) && ref.Key() in st.plugins
  {
    var k := InstanceKey(ref, name);
    var i := st.instances[k];
    JoinInjective(ref.Key(), NormalizeInstance(name), i.plugin.Key(), i.name);
  }
}
