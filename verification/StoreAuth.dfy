/** The auth states of an instance: a table keyed by normalized method, kept as a sorted list. */
module StoreAuth {
  import opened Text
  import opened Sorting
  import opened StoreState
  import opened StoreMigration
  import opened StoreOps
  import opened StoreProofs

  function MethodOf(a: AuthState): string { NormalizeMethod(a.authMethod) }

  /** One state for each method, in method order. */
  ghost predicate Ordered(auth: seq<AuthState>) {
    forall i, j :: 0 <= i < j < |auth| ==> Before(MethodOf(auth[i]), MethodOf(auth[j]))
  }

  ghost predicate Lists(auth: seq<AuthState>, m: string) {
    exists i :: 0 <= i < |auth| && MethodOf(auth[i]) == m
  }

  ghost predicate AuthSound(st: State) {
    forall k :: k in st.instances ==> Ordered(st.instances[k].auth)
  }

  // ----- the ordered list as a table

  lemma NotRepeated(s: seq<AuthState>)
    requires Ordered(s) && s != []
    ensures s[0] !in s[1..]
  {
    BeforeTotal(MethodOf(s[0]), MethodOf(s[0]));
  }

  /** Members determine an ordered list, so a sort that is not stable gives the same one. */
  lemma {:induction false} OrderedUnique(s: seq<AuthState>, t: seq<AuthState>)
    requires Ordered(s) && Ordered(t) && forall x :: x in s <==> x in t
    ensures s == t
  {
    assert (s != [] ==> s[0] in t) && (t != [] ==> t[0] in s);
    if s != [] {
      if s[0] != t[0] {
        BeforeTotal(MethodOf(s[0]), MethodOf(t[0]));
      }
      assert s == [s[0]] + s[1..] && t == [t[0]] + t[1..];
      NotRepeated(s);
      NotRepeated(t);
      forall x ensures x in s[1..] <==> x in t[1..] {
        assert x in s <==> x in t;
      }
      OrderedUnique(s[1..], t[1..]);
    }
  }

  lemma FindsMember(auth: seq<AuthState>, i: nat)
    requires Ordered(auth) && i < |auth|
    ensures FindFrom(auth, auth[i].authMethod) == i
  {
    var f := FindFrom(auth, auth[i].authMethod);
    if f < i {
      BeforeTotal(MethodOf(auth[f]), MethodOf(auth[i]));
    }
  }

  // ----- insert

  lemma {:induction false} InsertOrders(a: AuthState, s: seq<AuthState>)
    requires Ordered(s) && !Lists(s, MethodOf(a))
    ensures Ordered(Insert(a, s, AuthBefore))
    ensures forall x :: x in Insert(a, s, AuthBefore) <==> x == a || x in s
  {
    if s != [] {
      BeforeTotal(MethodOf(a), MethodOf(s[0]));
      if AuthBefore(s[0], a) {
        InsertOrders(a, s[1..]);
        var r := Insert(a, s[1..], AuthBefore);
        forall j | 0 <= j < |r| ensures Before(MethodOf(s[0]), MethodOf(r[j])) {
          assert r[j] == a || r[j] in s[1..];
        }
      } else {
        forall j | 0 <= j < |s| ensures Before(MethodOf(a), MethodOf(s[j])) {
          if j > 0 { BeforeTransitive(MethodOf(a), MethodOf(s[0]), MethodOf(s[j])); }
        }
      }
    }
  }

  lemma {:induction false} AppendSorted(auth: seq<AuthState>, a: AuthState)
    requires Ordered(auth) && !Lists(auth, MethodOf(a))
    ensures var r := StableSort(auth + [a], AuthBefore); Ordered(r) && forall x :: x in r <==> x == a || x in auth
  {
    if auth == [] {
      assert StableSort([a], AuthBefore) == [a];
    } else {
      var rest := auth[1..];
      assert (auth + [a])[1..] == rest + [a];
      AppendSorted(rest, a);
      var r := StableSort(rest + [a], AuthBefore);
      forall i | 0 <= i < |r| ensures MethodOf(r[i]) != MethodOf(auth[0]) {
        BeforeTotal(MethodOf(auth[0]), MethodOf(r[i]));
        assert r[i] == a || r[i] in rest;
      }
      InsertOrders(auth[0], r);
      assert auth == [auth[0]] + rest;
    }
  }

  // ----- the table laws

  lemma UpsertMembers(auth: seq<AuthState>, a: AuthState)
    requires Ordered(auth)
    ensures Ordered(UpsertAuth(auth, a))
    ensures forall x :: x in UpsertAuth(auth, a) <==> x == a || (x in auth && MethodOf(x) != MethodOf(a))
  {
    var i := FindFrom(auth, a.authMethod);
    if i < |auth| {
      forall j | 0 <= j < |auth| && j != i ensures MethodOf(auth[j]) != MethodOf(a) {
        BeforeTotal(MethodOf(auth[i]), MethodOf(auth[j]));
      }
      assert auth[i := a] == auth[..i] + [a] + auth[i + 1..];
    } else {
      AppendSorted(auth, a);
    }
  }

  lemma {:induction false} RemoveKeepsOnly(auth: seq<AuthState>, m: string)
    ensures forall x :: x in RemoveAuth(auth, m) <==> x in auth && MethodOf(x) != NormalizeMethod(m)
  {
    if auth != [] {
      RemoveKeepsOnly(auth[1..], m);
      assert auth == [auth[0]] + auth[1..];
    }
  }

  lemma {:induction false} RemoveOrders(auth: seq<AuthState>, m: string)
    requires Ordered(auth)
    ensures Ordered(RemoveAuth(auth, m))
  {
    if auth != [] {
      var rest := RemoveAuth(auth[1..], m);
      RemoveOrders(auth[1..], m);
      RemoveKeepsOnly(auth[1..], m);
      forall j | 0 <= j < |rest| ensures Before(MethodOf(auth[0]), MethodOf(rest[j])) {
        assert rest[j] in auth[1..];
      }
    }
  }

  lemma RemoveMembers(auth: seq<AuthState>, m: string)
    requires Ordered(auth)
    ensures Ordered(RemoveAuth(auth, m))
    ensures forall x :: x in RemoveAuth(auth, m) <==> x in auth && MethodOf(x) != NormalizeMethod(m)
  {
    RemoveOrders(auth, m);
    RemoveKeepsOnly(auth, m);
  }

  lemma LookupIsMembership(auth: seq<AuthState>, m: string, a: AuthState)
    requires Ordered(auth)
    ensures FindAuth(auth, m) == Some(a) <==> a in auth && MethodOf(a) == NormalizeMethod(m)
  {
    if a in auth && MethodOf(a) == NormalizeMethod(m) {
      var i :| 0 <= i < |auth| && auth[i] == a;
      FindsMember(auth, i);
      var f := FindFrom(auth, m);
      FindsMember(auth, f);
    }
  }

  lemma SameLookup(s: seq<AuthState>, t: seq<AuthState>, m: string)
    requires Ordered(s) && Ordered(t)
    requires forall x :: MethodOf(x) == NormalizeMethod(m) ==> (x in s <==> x in t)
    ensures FindAuth(s, m) == FindAuth(t, m)
  {
    var x, y := FindAuth(s, m), FindAuth(t, m);
    if x.Some? { LookupIsMembership(s, m, x.value); LookupIsMembership(t, m, x.value); }
    if y.Some? { LookupIsMembership(s, m, y.value); LookupIsMembership(t, m, y.value); }
  }

  /** What was put is found; every other method is looked up as before. */
  lemma UpsertThenFind(auth: seq<AuthState>, a: AuthState, m: string)
    requires Ordered(auth)
    ensures FindAuth(UpsertAuth(auth, a), m) == if NormalizeMethod(m) == MethodOf(a) then Some(a) else FindAuth(auth, m)
  {
    UpsertMembers(auth, a);
    if NormalizeMethod(m) == MethodOf(a) {
      LookupIsMembership(UpsertAuth(auth, a), m, a);
    } else {
      SameLookup(UpsertAuth(auth, a), auth, m);
    }
  }

  lemma RemoveThenFind(auth: seq<AuthState>, gone: string, m: string)
    requires Ordered(auth)
    ensures FindAuth(RemoveAuth(auth, gone), m)
            == if NormalizeMethod(m) == NormalizeMethod(gone) then None else FindAuth(auth, m)
  {
    RemoveMembers(auth, gone);
    if NormalizeMethod(m) == NormalizeMethod(gone) {
      var x := FindAuth(RemoveAuth(auth, gone), m);
      if x.Some? { LookupIsMembership(RemoveAuth(auth, gone), m, x.value); }
    } else {
      SameLookup(RemoveAuth(auth, gone), auth, m);
    }
  }

  /** Connecting a method that was not there and disconnecting it again gives the list back. */
  lemma DisconnectUndoesConnect(auth: seq<AuthState>, a: AuthState)
    requires Ordered(auth) && FindAuth(auth, a.authMethod).None?
    ensures RemoveAuth(UpsertAuth(auth, a), a.authMethod) == auth
  {
    UpsertMembers(auth, a);
    RemoveMembers(UpsertAuth(auth, a), a.authMethod);
    forall x | x in auth ensures MethodOf(x) != MethodOf(a) {
      LookupIsMembership(auth, a.authMethod, x);
    }
    OrderedUnique(RemoveAuth(UpsertAuth(auth, a), a.authMethod), auth);
  }

  // ----- over every run

  lemma PutKeepsAuth(st: State, ref: Ref, i: Instance)
    requires AuthSound(st) && Ordered(i.auth)
    ensures AuthSound(PutInstance(st, ref, i))
  {}

  lemma {:induction false} SyncKeepsInstances(st: State, want: set<string>, built: map<string, map<string, string>>,
                                              order: seq<string>)
    ensures SyncAlong(st, want, built, order).instances == st.instances
    decreases |order|
  {
    if order != [] {
      SyncKeepsInstances(SyncOne(st, want, built, order[0]), want, built, order[1..]);
    }
  }

  predicate IsAuth(op: Operation) { op.DoAuthConnect? || op.DoAuthTest? || op.DoAuthDisconnect? }

  /** The method an auth operation is about. */
  function MethodFor(op: Operation): string
    requires IsAuth(op)
  {
    if op.DoAuthConnect? then MethodOf(op.state) else NormalizeMethod(op.m)
  }

  /** What a test leaves of its method: the plugin's answer, on the state that was there or on an empty new one. */
  predicate Tested(m: string, refusal: Option<string>, was: Option<AuthState>, now: AuthState) {
    && now.connected == refusal.None? && now.error == (if refusal.Some? then refusal.value else "")
    && now.authMethod == (if was.Some? then was.value.authMethod else NormalizeMethod(m))
    && now.metadata == (if was.Some? then was.value.metadata else map[])
  }

  /** What an auth operation makes of an instance's list when it writes. */
  ghost predicate Settles(op: Operation, was: seq<AuthState>, now: seq<AuthState>)
    requires IsAuth(op)
  {
    match op
    case DoAuthConnect(_, _, state, _, _) => now == UpsertAuth(was, state.(connected := true))
    case DoAuthTest(_, _, m, refusal, _) =>
      exists a :: now == UpsertAuth(was, a) && MethodOf(a) == NormalizeMethod(m)
                  && Tested(m, refusal, FindAuth(was, m), a)
    case DoAuthDisconnect(_, _, m, _) => now == RemoveAuth(was, NormalizeMethod(m))
  }

  /** Two names mean one method when they are alike without their surrounding blanks; a blank one means "default". */
  lemma SameMethodMeans(m: string, n: string)
    ensures NormalizeMethod(m) == NormalizeMethod(n) <==>
            || TrimSpace(m) == TrimSpace(n)
            || (TrimSpace(m) == "" && TrimSpace(n) == "default") || (TrimSpace(m) == "default" && TrimSpace(n) == "")
  {}

  lemma NormalizedMethod(m: string)
    ensures NormalizeMethod(NormalizeMethod(m)) == NormalizeMethod(m)
  {
    TrimSpaceIdempotent(m);
    TrimmedFixed("default");
  }

  function TestedState(auth: seq<AuthState>, m: string): (a: AuthState)
    ensures MethodOf(a) == NormalizeMethod(m)
  {
    NormalizedMethod(m);
    var found := FindAuth(auth, NormalizeMethod(m));
    if found.Some? then found.value else AuthState(NormalizeMethod(m), true, "", map[])
  }

  lemma {:induction false} FindNormalized(auth: seq<AuthState>, m: string)
    ensures FindFrom(auth, NormalizeMethod(m)) == FindFrom(auth, m)
  {
    NormalizedMethod(m);
    if auth != [] {
      FindNormalized(auth[1..], m);
    }
  }

  lemma AuthWrites(st: State, op: Operation)
    requires IsAuth(op)
    ensures var w, i := Apply(st, op).written, InstanceOf(st, op.ref, op.name);
            w.Some? ==> exists auth :: w.value == PutInstance(st, op.ref, i.(auth := auth)) && Settles(op, i.auth, auth)
  {
    var w, i := Apply(st, op).written, InstanceOf(st, op.ref, op.name);
    if w.Some? {
      var auth := w.value.instances[InstanceKey(op.ref, i.name)].auth;
      if op.DoAuthTest? {
        var a := TestedState(i.auth, op.m);
        var tested := if op.refusal.Some? then a.(connected := false, error := op.refusal.value)
                      else a.(connected := true, error := "");
        FindNormalized(i.auth, op.m);
        assert auth == UpsertAuth(i.auth, tested) && MethodOf(tested) == MethodOf(a);
        assert Tested(op.m, op.refusal, FindAuth(i.auth, op.m), tested);
      }
      assert w.value == PutInstance(st, op.ref, i.(auth := auth)) && Settles(op, i.auth, auth);
    }
  }

  /** What the operation leaves of its own method. */
  predicate Records(op: Operation, was: Option<AuthState>, found: Option<AuthState>)
    requires IsAuth(op)
  {
    match op
    case DoAuthConnect(_, _, state, _, _) => found == Some(state.(connected := true))
    case DoAuthTest(_, _, m, refusal, _) => found.Some? && Tested(m, refusal, was, found.value)
    case DoAuthDisconnect(_, _, _, _) => found.None?
  }

  lemma SettlesOneMethod(op: Operation, was: seq<AuthState>, now: seq<AuthState>, m: string)
    requires IsAuth(op) && Ordered(was) && Settles(op, was, now)
    ensures Ordered(now)
    ensures if NormalizeMethod(m) == MethodFor(op) then Records(op, FindAuth(was, m), FindAuth(now, m))
            else FindAuth(now, m) == FindAuth(was, m)
  {
    match op {
      case DoAuthConnect(_, _, state, _, _) =>
        UpsertMembers(was, state.(connected := true));
        UpsertThenFind(was, state.(connected := true), m);
      case DoAuthTest(_, _, tested, refusal, _) =>
        var a :| now == UpsertAuth(was, a) && MethodOf(a) == NormalizeMethod(tested)
                 && Tested(tested, refusal, FindAuth(was, tested), a);
        FindNormalized(was, m);
        FindNormalized(was, tested);
        UpsertMembers(was, a);
        UpsertThenFind(was, a, m);
      case DoAuthDisconnect(_, _, gone, _) =>
        NormalizedMethod(gone);
        RemoveMembers(was, NormalizeMethod(gone));
        RemoveThenFind(was, NormalizeMethod(gone), m);
    }
  }

  lemma AuthOperationKeepsAuth(st: State, op: Operation)
    requires AuthSound(st) && IsAuth(op)
    ensures var w := Apply(st, op).written; w.Some? ==> AuthSound(w.value)
  {
    var w, i := Apply(st, op).written, InstanceOf(st, op.ref, op.name);
    AuthWrites(st, op);
    if w.Some? {
      var auth :| w.value == PutInstance(st, op.ref, i.(auth := auth)) && Settles(op, i.auth, auth);
      SettlesOneMethod(op, i.auth, auth, "");
      PutKeepsAuth(st, op.ref, i.(auth := auth));
    }
  }

  /** The instance under `k` is the only record in which two stores can differ. */
  predicate SameElsewhere(st: State, to: State, k: string) {
    && to.plugins == st.plugins && to.instances.Keys - {k} == st.instances.Keys - {k}
    && forall j :: j in st.instances && j in to.instances && j != k ==> to.instances[j] == st.instances[j]
  }

  /** The auth list of the instance under a key. */
  function AuthAt(st: State, k: string): seq<AuthState> { if k in st.instances then st.instances[k].auth else [] }

  /** The key of a plugin's instance; a blank name means the default one. */
  function KeyFor(ref: Ref, name: string): string {
    ref.Key() + "#" + if TrimSpace(name) == "" then "default" else TrimSpace(name)
  }

  lemma PutIsFound(st: State, ref: Ref, name: string, auth: seq<AuthState>)
    requires Integrity(st) && '#' !in ref.Key()
    ensures var i, k := InstanceOf(st, ref, name), KeyFor(ref, name);
            var to := PutInstance(st, ref, i.(auth := auth));
            && SameElsewhere(st, to, k) && k in to.instances && to.instances[k] == i.(auth := auth)
            && i.auth == AuthAt(st, k) && (k in st.instances ==> i == st.instances[k])
  {
    NormalizeInstanceIdempotent(name);
    var i, k := InstanceOf(st, ref, name), InstanceKey(ref, NormalizeInstance(name));
    if k in st.instances { InstanceAt(st, ref, NormalizeInstance(name)); }
    assert InstanceKey(ref, i.name) == k == KeyFor(ref, name);
  }

  /** Where an auth operation writes, it settles one method of the one instance it names: every plugin, every other
      instance, and everything else in that instance stay as they were. */
  lemma AuthSettlesOneMethod(st: State, op: Operation, m: string)
    requires Integrity(st) && AuthSound(st) && IsAuth(op) && KeyIsPlain(op)
    ensures var w, k := Apply(st, op).written, KeyFor(op.ref, op.name);
            w.Some? ==>
              && SameElsewhere(st, w.value, k) && k in w.value.instances
              && var was, now := AuthAt(st, k), w.value.instances[k].auth;
                 && (k in st.instances ==> w.value.instances[k] == st.instances[k].(auth := now))
                 && if NormalizeMethod(m) == MethodFor(op) then Records(op, FindAuth(was, m), FindAuth(now, m))
                    else FindAuth(now, m) == FindAuth(was, m)
  {
    var w, i := Apply(st, op).written, InstanceOf(st, op.ref, op.name);
    AuthWrites(st, op);
    if w.Some? {
      var auth :| w.value == PutInstance(st, op.ref, i.(auth := auth)) && Settles(op, i.auth, auth);
      PutIsFound(st, op.ref, op.name, auth);
      SettlesOneMethod(op, i.auth, auth, m);
    }
  }

  /** Connecting and testing need an installed plugin and report its refusal; a refused connect writes nothing, a
      refused test is written. A disconnect never fails for a named plugin, and writes when the method is listed. */
  lemma AuthAnswers(st: State, op: Operation)
    requires IsAuth(op)
    ensures var result, named := Apply(st, op), TrimSpace(op.ref.name) != "";
            var asked := named && op.ref.Key() in st.plugins && !op.dryRun;
            && (result.error == Some(NameRequired) <==> !named)
            && (result.error == Some(NotInstalled) <==>
                  named && !op.DoAuthDisconnect? && op.ref.Key() !in st.plugins)
            && (named && !op.DoAuthDisconnect? && op.ref.Key() in st.plugins ==>
                  result.error == if asked && op.refusal.Some? then Some(PluginRefused(op.refusal.value)) else None)
            && (result.written.Some? <==>
                  if op.DoAuthConnect? then asked && op.refusal.None?
                  else if op.DoAuthTest? then asked
                  else named && !op.dryRun && FindAuth(InstanceOf(st, op.ref, op.name).auth, op.m).Some?)
            && (op.DoAuthDisconnect? && named ==> result.error.None?)
  {
    if op.DoAuthDisconnect? {
      FindNormalized(InstanceOf(st, op.ref, op.name).auth, op.m);
    }
  }

  /** Operations that put no instance. */
  lemma OthersPutNoInstance(st: State, op: Operation, k: string)
    requires !op.DoInstall? && !op.DoSync? && !IsAuth(op)
    ensures var w := Apply(st, op).written;
            w.Some? && k in w.value.instances ==> k in st.instances && w.value.instances[k] == st.instances[k]
  {}

  lemma InstallKeepsAuth(st: State, r: InstallRequest, entry: Option<Entry>, build: Build)
    requires AuthSound(st)
    ensures var w := Install(st, r, entry, build).written; w.Some? ==> AuthSound(w.value)
  {
    PutKeepsAuth(st, StoredRef(r, entry), Instance(StoredRef(r, entry), DEFAULT_INSTANCE, []));
  }

  lemma ApplyKeepsAuth(st: State, op: Operation)
    requires AuthSound(st)
    ensures var w := Apply(st, op).written; w.Some? ==> AuthSound(w.value)
  {
    if op.DoInstall? {
      InstallKeepsAuth(st, op.install, op.entry, op.build);
    } else if op.DoSync? {
      SyncKeepsInstances(st, op.want, op.built, op.order);
    } else if IsAuth(op) {
      AuthOperationKeepsAuth(st, op);
    } else {
      forall k ensures var w := Apply(st, op).written;
                       w.Some? && k in w.value.instances ==>
                         k in st.instances && w.value.instances[k] == st.instances[k] {
        OthersPutNoInstance(st, op, k);
      }
    }
  }

  lemma MoveOneKeepsAuth(st: State, key: string)
    requires AuthSound(st)
    ensures AuthSound(MoveOne(st, key))
  {
    if Movable(st, key) {
      var name, to := Cut(key, '@').before, MoveOne(st, key);
      var movers := Movers(st.instances, key, name);
      forall k | k in to.instances ensures Ordered(to.instances[k].auth) {
        if k in Targets(movers, key, name) {
          var from :| from in movers && k == TargetKey(from, key, name);
          assert from == key + k[|name|..];
        }
      }
    }
  }

  lemma {:induction false} MoveAlongKeepsAuth(st: State, order: seq<string>)
    requires AuthSound(st)
    ensures AuthSound(MoveAlong(st, order))
    decreases |order|
  {
    if order != [] {
      MoveOneKeepsAuth(st, order[0]);
      MoveAlongKeepsAuth(MoveOne(st, order[0]), order[1..]);
    }
  }

  /** Over every sequence of loads and operations each instance has at most one state for each method, in order. */
  lemma {:induction false} RunKeepsAuth(stored: seq<State>, loaded: seq<State>, ops: seq<Operation>, k: nat)
    requires IsRun(stored, loaded, ops) && AuthSound(stored[0]) && k <= |ops|
    ensures AuthSound(stored[k])
  {
    if k > 0 {
      RunKeepsAuth(stored, loaded, ops, k - 1);
      assert Loads(stored[k - 1], loaded[k - 1]);
      var order :| Covers(order, stored[k - 1].plugins.Keys) && loaded[k - 1] == MoveAlong(stored[k - 1], order);
      MoveAlongKeepsAuth(stored[k - 1], order);
      ApplyKeepsAuth(loaded[k - 1], ops[k - 1]);
    }
  }
}
