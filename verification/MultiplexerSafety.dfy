/** What every interleaving of the multiplexer keeps. */
module MultiplexerSafety {
  import opened Text
  import opened FrameClient
  import opened Multiplexer

  // ----- channel discipline and who holds whose channel; nothing here trusts what the host sends

  ghost predicate Untouched(c: Client, n: nat) {
    n in c.chans && c.chans[n] == FRESH_CHAN
  }

  /** Counter value `n` belongs to a caller that has registered. */
  ghost predicate Entered(ts: seq<Thread>, n: nat) {
    1 <= n <= |ts| && ts[n - 1].Call? && ts[n - 1].pc != Drawn
  }

  ghost predicate InMidCall(ts: seq<Thread>, n: nat) {
    Entered(ts, n) && (ts[n - 1].pc == Registered || ts[n - 1].pc == Awaiting || ts[n - 1].pc.WriteFailed?)
  }

  ghost predicate ReaderFailed(c: Client) { c.reader.Closing? || c.reader == Exited }

  /** At most one frame or one close, never both; only frames for this very caller. */
  ghost predicate ChanOk(c: Client, ts: seq<Thread>, n: nat)
    requires n in c.chans
  {
    var ch := c.chans[n];
    && Entered(ts, n)
    && |ch.sent| + ch.closes <= 1 && ch.received <= |ch.sent|
    && (ch.sent != [] ==> ch.sent[0].id == HostCall(n))
    && (ch.closes > 0 ==> ReaderFailed(c))
  }

  /** Somebody is still going to touch this caller's channel, or already has. */
  ghost predicate NotLost(c: Client, n: nat)
    requires n in c.chans
  {
    || HostCall(n) in c.waiters
    || (c.reader.Matched? && c.reader.chan == n)
    || (c.reader.Closing? && HostCall(n) in c.reader.pending)
    || |c.chans[n].sent| + c.chans[n].closes == 1
  }

  /** The caller has taken a frame from its channel. */
  ghost predicate Received(c: Client, n: nat) { n in c.chans && c.chans[n].received > 0 }

  ghost predicate ThreadOk(c: Client, n: nat, t: Thread) {
    t.Call? ==>
      match t.pc
      case Drawn => n !in c.chans
      case SawClosed => n in c.chans && c.chans[n].closes == 1
      case Done(outcome) =>
        && (outcome.Returned? ==> Received(c, n))
        && (Received(c, n) ==> c.chans[n].sent != [] && outcome == ReadResponse(c.chans[n].sent[0]))
      case _ => n in c.chans && c.chans[n].received == 0 && NotLost(c, n)
  }

  ghost predicate WaitersOk(c: Client, ts: seq<Thread>) {
    && (c.readErr.Some? <==> ReaderFailed(c))
    && (c.readErr.Some? || c.reader == NotStarted ==> c.waiters == map[])
    && forall id :: id in c.waiters ==>
         id.HostCall? && c.waiters[id] == id.n && Untouched(c, id.n) && InMidCall(ts, id.n)
  }

  ghost predicate ReaderOk(c: Client) {
    match c.reader
    case Matched(f, ch) => f.id == HostCall(ch) && f.id !in c.waiters && Untouched(c, ch)
    case Closing(pending) =>
      forall id :: id in pending ==> id.HostCall? && pending[id] == id.n && Untouched(c, id.n)
    case _ => true
  }

  ghost predicate Discipline(c: Client, ts: seq<Thread>) {
    && c.nextID == |ts|
    && (c.reader == NotStarted ==> forall i :: 0 <= i < |ts| ==> ts[i].Emit?)
    && WaitersOk(c, ts) && ReaderOk(c)
    && (forall n :: n in c.chans ==> ChanOk(c, ts, n))
    && (forall i :: 0 <= i < |ts| ==> ThreadOk(c, i + 1, ts[i]))
  }

  lemma LookupKeepsDiscipline(c: Client, ts: seq<Thread>)
    requires Discipline(c, ts) && c.reader.Decoded?
    ensures Discipline(c.Lookup(), ts)
  {}

  lemma DeliverKeepsDiscipline(c: Client, ts: seq<Thread>)
    requires Discipline(c, ts) && c.reader.Matched? && c.reader.chan in c.chans
    ensures Discipline(c.Deliver(), ts)
  {}

  lemma TakeWaitersKeepsDiscipline(c: Client, ts: seq<Thread>)
    requires Discipline(c, ts) && c.reader.Failing?
    ensures Discipline(c.TakeWaiters(), ts)
  {}

  lemma CloseOneKeepsDiscipline(c: Client, ts: seq<Thread>, id: FrameId)
    requires Discipline(c, ts) && c.reader.Closing? && id in c.reader.pending && c.reader.pending[id] in c.chans
    ensures Discipline(c.CloseOne(id), ts)
  {
    assert ChanOk(c, ts, id.n);
  }

  lemma ReaderKeepsDiscipline(c: Client, ts: seq<Thread>, toPlugin: seq<Frame>, step: ReaderStep)
    requires Discipline(c, ts) && ReaderEnabled(c, toPlugin, step)
    ensures Discipline(ReaderNext(c, toPlugin, step), ts)
  {
    match step {
      case Decode => {}
      case DecodeFails(_) => {}
      case Lookup => LookupKeepsDiscipline(c, ts);
      case Deliver => DeliverKeepsDiscipline(c, ts);
      case TakeWaiters => TakeWaitersKeepsDiscipline(c, ts);
      case CloseOne(id) => CloseOneKeepsDiscipline(c, ts, id);
      case Exit => {}
    }
  }

  lemma RegisterKeepsThreads(c: Client, ts: seq<Thread>, i: nat)
    requires Discipline(c, ts) && i < |ts| && c.readErr.None?
    ensures forall j :: 0 <= j < |ts| && j != i ==> ThreadOk(c.Register(i + 1), j + 1, ts[j])
  {}

  lemma RegisterKeepsChans(c: Client, d: Client, ts: seq<Thread>, us: seq<Thread>, i: nat)
    requires Discipline(c, ts) && i < |ts| && ts[i].Call? && c.readErr.None?
    requires d == c.Register(i + 1) && us == ts[i := ts[i].(pc := Registered)]
    ensures forall n :: n in d.chans ==> ChanOk(d, us, n)
  {}

  lemma RegisterKeepsWaiters(c: Client, ts: seq<Thread>, i: nat)
    requires Discipline(c, ts) && i < |ts| && ts[i].Call? && ts[i].pc == Drawn && c.readErr.None?
    ensures WaitersOk(c.Register(i + 1), ts[i := ts[i].(pc := Registered)])
  {
    assert ThreadOk(c, i + 1, ts[i]);
  }

  lemma RegisterKeepsDiscipline(c: Client, ts: seq<Thread>, i: nat)
    requires Discipline(c, ts) && i < |ts| && ts[i].Call? && ts[i].pc == Drawn && c.readErr.None?
    ensures Discipline(c.Register(i + 1), ts[i := ts[i].(pc := Registered)])
  {
    var us := ts[i := ts[i].(pc := Registered)];
    assert ThreadOk(c, i + 1, ts[i]);
    RegisterKeepsThreads(c, ts, i);
    RegisterKeepsChans(c, c.Register(i + 1), ts, us, i);
    RegisterKeepsWaiters(c, ts, i);
    assert ThreadOk(c.Register(i + 1), i + 1, us[i]);
  }

  lemma AbandonKeepsChans(c: Client, d: Client, ts: seq<Thread>, us: seq<Thread>, i: nat, err: Failure)
    requires Discipline(c, ts) && i < |ts| && ts[i].Call? && ts[i].pc == WriteFailed(err)
    requires d == c.Unregister(i + 1) && us == ts[i := ts[i].(pc := Done(Refused(err)))]
    ensures forall n :: n in d.chans ==> ChanOk(d, us, n)
  {
    forall n | n in d.chans ensures ChanOk(d, us, n) {
      assert ChanOk(c, ts, n);
    }
  }

  lemma AbandonKeepsThreads(c: Client, d: Client, ts: seq<Thread>, us: seq<Thread>, i: nat, err: Failure)
    requires Discipline(c, ts) && i < |ts| && ts[i].Call? && ts[i].pc == WriteFailed(err)
    requires d == c.Unregister(i + 1) && us == ts[i := ts[i].(pc := Done(Refused(err)))]
    ensures forall j :: 0 <= j < |us| ==> ThreadOk(d, j + 1, us[j])
  {
    forall j | 0 <= j < |us| ensures ThreadOk(d, j + 1, us[j]) {
      assert ThreadOk(c, j + 1, ts[j]);
    }
  }

  lemma AbandonKeepsDiscipline(c: Client, ts: seq<Thread>, i: nat, err: Failure)
    requires Discipline(c, ts) && i < |ts| && ts[i].Call? && ts[i].pc == WriteFailed(err)
    ensures Discipline(c.Unregister(i + 1), ts[i := ts[i].(pc := Done(Refused(err)))])
  {
    var d, us := c.Unregister(i + 1), ts[i := ts[i].(pc := Done(Refused(err)))];
    AbandonKeepsChans(c, d, ts, us, i, err);
    AbandonKeepsThreads(c, d, ts, us, i, err);
  }

  lemma ReceiveKeepsOthers(c: Client, d: Client, ts: seq<Thread>, us: seq<Thread>, i: nat)
    requires Discipline(c, ts) && i < |ts| == |us| && i + 1 in c.chans && c.chans[i + 1].Holding()
    requires d == c.Receive(i + 1) && Entered(us, i + 1) && forall j :: 0 <= j < |ts| && j != i ==> us[j] == ts[j]
    ensures forall n :: n in d.chans ==> ChanOk(d, us, n)
    ensures forall j :: 0 <= j < |us| && j != i ==> ThreadOk(d, j + 1, us[j])
  {
    forall n | n in d.chans ensures ChanOk(d, us, n) {
      assert ChanOk(c, ts, n);
    }
    forall j | 0 <= j < |us| && j != i ensures ThreadOk(d, j + 1, us[j]) {
      assert ThreadOk(c, j + 1, ts[j]);
    }
  }

  lemma ReceiveKeepsHeld(c: Client, d: Client, ts: seq<Thread>, us: seq<Thread>, n: nat)
    requires WaitersOk(c, ts) && ReaderOk(c) && n in c.chans && c.chans[n].Holding()
    requires d == c.Receive(n) && |us| == |ts| && forall j :: 0 <= j < |ts| && j + 1 != n ==> us[j] == ts[j]
    ensures WaitersOk(d, us) && ReaderOk(d)
  {}

  lemma ReceiveKeepsDiscipline(c: Client, ts: seq<Thread>, i: nat)
    requires Discipline(c, ts) && i < |ts| && ts[i].Call? && ts[i].pc == Awaiting
    requires i + 1 in c.chans && c.chans[i + 1].Holding()
    ensures var ch := c.chans[i + 1];
            Discipline(c.Receive(i + 1), ts[i := ts[i].(pc := Done(ReadResponse(ch.sent[ch.received])))])
  {
    var ch := c.chans[i + 1];
    var d, us := c.Receive(i + 1), ts[i := ts[i].(pc := Done(ReadResponse(ch.sent[ch.received])))];
    assert ChanOk(c, ts, i + 1) && ThreadOk(c, i + 1, ts[i]);
    ReceiveKeepsOthers(c, d, ts, us, i);
    ReceiveKeepsHeld(c, d, ts, us, i + 1);
    assert ThreadOk(d, i + 1, us[i]);
  }

  /** The steps that leave the client alone and only move their own thread along. */
  lemma ThreadMoveKeepsDiscipline(c: Client, ts: seq<Thread>, i: nat, t: Thread)
    requires Discipline(c, ts) && i < |ts| && ThreadOk(c, i + 1, t) && ts[i].Call? == t.Call?
    requires t.Call? && ts[i].pc != Drawn ==> t.pc != Drawn
    requires InMidCall(ts, i + 1) ==> HostCall(i + 1) !in c.waiters || InMidCall(ts[i := t], i + 1)
    ensures Discipline(c, ts[i := t])
  {}

  lemma CallerKeepsDiscipline(s: System, i: nat, step: CallerStep)
    requires Discipline(s.client, s.threads) && CallerEnabled(s, i, step)
    ensures var t := CallerNext(s, i, step); Discipline(t.client, t.threads)
  {
    assert ThreadOk(s.client, i + 1, s.threads[i]);
    if i + 1 in s.client.chans {
      assert ChanOk(s.client, s.threads, i + 1);
    }
    match step {
      case Register =>
        if s.client.readErr.None? {
          RegisterKeepsDiscipline(s.client, s.threads, i);
        } else {
          ThreadMoveKeepsDiscipline(s.client, s.threads, i, Advance(s.threads[i], CallerPc(s, i, step)));
        }
      case Abandon => AbandonKeepsDiscipline(s.client, s.threads, i, s.threads[i].pc.err);
      case Receive => ReceiveKeepsDiscipline(s.client, s.threads, i);
      case _ => ThreadMoveKeepsDiscipline(s.client, s.threads, i, Advance(s.threads[i], CallerPc(s, i, step)));
    }
  }

  lemma BeginKeepsDiscipline(c: Client, ts: seq<Thread>, t: Thread)
    requires Discipline(c, ts) && (t.Call? ==> t.pc == Drawn)
    ensures Discipline((if t.Call? then c.EnsureReader() else c).DrawId(), ts + [t])
  {}

  // ----- traffic: what travels between the two processes

  /** A frame this plugin wrote: a call's own request, an event, or the final response. */
  ghost predicate SentByPlugin(ts: seq<Thread>, f: Frame) {
    && f.protocol == VERSION
    && match f.id
       case HostCall(n) => Entered(ts, n) && ts[n - 1].pc != Registered && f == RequestOf(n, ts[n - 1])
       case HostEvent(_) => f.kind == Event
       case Root => f.kind == Response
  }

  /** A frame some finished server of this host wrote. */
  ghost predicate SentByHost(servers: seq<Server>, hasCaller: bool, f: Frame) {
    exists h :: 0 <= h < |servers| && servers[h].stage.Replied? && f == ReplyFrame(servers[h], hasCaller)
  }

  ghost predicate PipesOk(s: System) {
    && (forall k :: 0 <= k < |s.toHost| ==> SentByPlugin(s.threads, s.toHost[k]))
    && (forall k :: 0 <= k < |s.toPlugin| ==> SentByHost(s.servers, s.hasCaller, s.toPlugin[k]))
  }

  ghost predicate ServersOk(s: System) {
    forall h :: 0 <= h < |s.servers| ==>
      s.servers[h].request.id.HostCall? && SentByPlugin(s.threads, s.servers[h].request)
  }

  ghost predicate HandedOk(c: Client, servers: seq<Server>, hasCaller: bool) {
    && (c.reader.Decoded? || c.reader.Matched? ==> SentByHost(servers, hasCaller, c.reader.frame))
    && (forall n :: n in c.chans && c.chans[n].sent != [] ==> SentByHost(servers, hasCaller, c.chans[n].sent[0]))
  }

  ghost predicate Traffic(s: System) {
    PipesOk(s) && ServersOk(s) && HandedOk(s.client, s.servers, s.hasCaller)
  }

  /** What no step undoes: who asked what, which requests were written. */
  ghost predicate ThreadsExtend(ts: seq<Thread>, us: seq<Thread>) {
    && |ts| <= |us|
    && forall i :: 0 <= i < |ts| && ts[i].Call? ==>
         && us[i].Call? && us[i].command == ts[i].command && us[i].payload == ts[i].payload
         && (ts[i].pc != Drawn && ts[i].pc != Registered ==> us[i].pc != Drawn && us[i].pc != Registered)
  }

  /** Nor whom the host serves, nor what it replied. */
  ghost predicate ServersExtend(ss: seq<Server>, us: seq<Server>) {
    && |ss| <= |us|
    && forall h :: 0 <= h < |ss| ==> us[h].request == ss[h].request && (ss[h].stage.Replied? ==> us[h] == ss[h])
  }

  lemma SentByPluginStays(ts: seq<Thread>, us: seq<Thread>)
    requires ThreadsExtend(ts, us)
    ensures forall f :: SentByPlugin(ts, f) ==> SentByPlugin(us, f)
  {}

  lemma SentByHostStays(ss: seq<Server>, us: seq<Server>, hasCaller: bool)
    requires ServersExtend(ss, us)
    ensures forall f :: SentByHost(ss, hasCaller, f) ==> SentByHost(us, hasCaller, f)
  {}

  /** No call has two requests in the pipe, two servers, or one of each. */
  ghost predicate ServedOnce(s: System) {
    && (forall j, k :: 0 <= j < k < |s.toHost| && s.toHost[j].id.HostCall? ==> s.toHost[j].id != s.toHost[k].id)
    && (forall g, h :: 0 <= g < h < |s.servers| ==> s.servers[g].request.id != s.servers[h].request.id)
    && (forall k, h :: 0 <= k < |s.toHost| && 0 <= h < |s.servers| ==> s.toHost[k].id != s.servers[h].request.id)
  }

  lemma CallerKeepsTraffic(s: System, i: nat, step: CallerStep)
    requires Traffic(s) && CallerEnabled(s, i, step)
    ensures Traffic(CallerNext(s, i, step))
  {
    SentByPluginStays(s.threads, CallerNext(s, i, step).threads);
  }

  lemma WriteIsNew(s: System, i: nat)
    requires PipesOk(s) && ServersOk(s) && i < |s.threads| && Unwritten(s.threads[i]) && s.threads[i].Call?
    ensures forall k :: 0 <= k < |s.toHost| ==> s.toHost[k].id != HostCall(i + 1)
    ensures forall h :: 0 <= h < |s.servers| ==> s.servers[h].request.id != HostCall(i + 1)
  {}

  lemma CallerKeepsServedOnce(s: System, i: nat, step: CallerStep)
    requires Traffic(s) && ServedOnce(s) && CallerEnabled(s, i, step)
    ensures ServedOnce(CallerNext(s, i, step))
  {
    if step == Write && s.threads[i].Call? {
      WriteIsNew(s, i);
    }
  }

  lemma ReaderKeepsHanded(c: Client, toPlugin: seq<Frame>, step: ReaderStep, servers: seq<Server>, hasCaller: bool)
    requires HandedOk(c, servers, hasCaller) && ReaderEnabled(c, toPlugin, step)
    requires toPlugin != [] ==> SentByHost(servers, hasCaller, toPlugin[0])
    requires forall n :: n in c.chans ==> c.chans[n].received <= |c.chans[n].sent| <= 1
    ensures HandedOk(ReaderNext(c, toPlugin, step), servers, hasCaller)
  {}

  lemma ReaderKeepsTraffic(s: System, step: ReaderStep)
    requires Discipline(s.client, s.threads) && Traffic(s) && ReaderEnabled(s.client, s.toPlugin, step)
    ensures var t := Next(s, Reader(step)); Traffic(t)
  {
    forall n | n in s.client.chans
      ensures s.client.chans[n].received <= |s.client.chans[n].sent| <= 1
    {
      assert ChanOk(s.client, s.threads, n);
    }
    ReaderKeepsHanded(s.client, s.toPlugin, step, s.servers, s.hasCaller);
  }

  lemma HostReadKeepsTraffic(s: System)
    requires Traffic(s) && s.toHost != []
    ensures Traffic(HostReads(s))
  {
    assert SentByPlugin(s.threads, s.toHost[0]);
    SentByHostStays(s.servers, HostReads(s).servers, s.hasCaller);
  }

  lemma HostKeepsServedOnce(s: System, step: HostStep)
    requires PipesOk(s) && ServedOnce(s) && HostEnabled(s, step)
    ensures ServedOnce(HostNext(s, step))
  {}

  lemma HostReplyKeepsTraffic(s: System, h: nat)
    requires Traffic(s) && h < |s.servers| && s.servers[h].stage.Answered?
    ensures Traffic(HostReplies(s, h))
  {
    var t := HostReplies(s, h);
    SentByHostStays(s.servers, t.servers, s.hasCaller);
    assert SentByHost(t.servers, s.hasCaller, ReplyFrame(t.servers[h], s.hasCaller));
  }

  lemma HostKeepsTraffic(s: System, step: HostStep)
    requires Traffic(s) && HostEnabled(s, step)
    ensures Traffic(HostNext(s, step))
  {
    match step {
      case Read => HostReadKeepsTraffic(s);
      case Respond(h) => HostReplyKeepsTraffic(s, h);
      case Answer(_, _) => SentByHostStays(s.servers, HostNext(s, step).servers, s.hasCaller);
      case Stop => {}
    }
  }

  // ----- all of it, over whole runs

  ghost predicate Inv(s: System) {
    s.capacity > 0 && Discipline(s.client, s.threads) && Traffic(s) && ServedOnce(s)
  }

  lemma BeginKeepsInv(s: System, c: Client, t: Thread)
    requires Inv(s) && (t.Call? ==> t.pc == Drawn)
    requires c == (if t.Call? then s.client.EnsureReader() else s.client).DrawId()
    ensures Inv(s.(client := c, threads := s.threads + [t]))
  {
    BeginKeepsDiscipline(s.client, s.threads, t);
    SentByPluginStays(s.threads, s.threads + [t]);
    assert HandedOk(c, s.servers, s.hasCaller);
  }

  lemma CallerKeepsInv(s: System, i: nat, step: CallerStep)
    requires Inv(s) && CallerEnabled(s, i, step)
    ensures Inv(CallerNext(s, i, step))
  {
    CallerKeepsDiscipline(s, i, step);
    CallerKeepsTraffic(s, i, step);
    CallerKeepsServedOnce(s, i, step);
  }

  lemma ReaderKeepsInv(s: System, step: ReaderStep)
    requires Inv(s) && ReaderEnabled(s.client, s.toPlugin, step)
    ensures Inv(Next(s, Reader(step)))
  {
    ReaderKeepsDiscipline(s.client, s.threads, s.toPlugin, step);
    ReaderKeepsTraffic(s, step);
  }

  lemma HostKeepsInv(s: System, step: HostStep)
    requires Inv(s) && HostEnabled(s, step)
    ensures Inv(HostNext(s, step))
  {
    HostKeepsTraffic(s, step);
    HostKeepsServedOnce(s, step);
  }

  lemma InvStep(s: System, a: Action)
    requires Inv(s) && Enabled(s, a)
    ensures Inv(Next(s, a))
  {
    match a {
      case BeginCall(command, payload) => BeginKeepsInv(s, Next(s, a).client, Call(command, payload, Drawn));
      case BeginEmit(event, data) => BeginKeepsInv(s, Next(s, a).client, Emit(event, data, false));
      case PluginReplies(_) => {}
      case Caller(i, step) => CallerKeepsInv(s, i, step);
      case Reader(step) => ReaderKeepsInv(s, step);
      case Host(step) => HostKeepsInv(s, step);
    }
  }

  lemma {:induction false} InvAlong(states: seq<System>, actions: seq<Action>, k: nat)
    requires IsRun(states, actions) && Inv(states[0]) && k <= |actions|
    ensures Inv(states[k])
  {
    if k > 0 {
      InvAlong(states, actions, k - 1);
      InvStep(states[k - 1], actions[k - 1]);
    }
  }

  lemma ReachableInv(s: System)
    requires Reachable(s)
    ensures Inv(s)
  {
    var states: seq<System>, actions: seq<Action> :|
      && IsRun(states, actions) && states[|actions|] == s
      && states[0] == Init(states[0].hasCaller, states[0].capacity) && states[0].capacity > 0;
    InvAlong(states, actions, |actions|);
  }

  /** Server `h` is the only one ever to serve thread i's call, for that call's own command and payload,
      and the host produced `result` for it. */
  ghost predicate ServedWith(s: System, i: nat, h: nat, result: string) {
    && i < |s.threads| && s.threads[i].Call? && h < |s.servers|
    && s.servers[h].request.command == s.threads[i].command
    && s.servers[h].request.payload == s.threads[i].payload
    && s.servers[h].stage == Replied(Produced(result))
    && forall g :: 0 <= g < |s.servers| && s.servers[g].request.id == HostCall(i + 1) ==> g == h
  }

  lemma SuccessWasServed(s: System, i: nat, f: Frame, result: string) returns (h: nat)
    requires ServersOk(s) && ServedOnce(s) && SentByHost(s.servers, s.hasCaller, f)
    requires f.id == HostCall(i + 1) && ReadResponse(f) == Returned(result)
    ensures ServedWith(s, i, h, result)
  {
    h :| 0 <= h < |s.servers| && s.servers[h].stage.Replied? && f == ReplyFrame(s.servers[h], s.hasCaller);
    assert SentByPlugin(s.threads, s.servers[h].request);
  }

  /** End-to-end correlation: a call that returned success holds exactly the result the host produced
      for that call's own command and payload, and the host served that call only once. */
  lemma SuccessIsOwnResult(s: System, i: nat, result: string)
    requires Reachable(s) && IsCall(s, i, Done(Returned(result)))
    ensures exists h :: ServedWith(s, i, h, result)
  {
    ReachableInv(s);
    assert ThreadOk(s.client, i + 1, s.threads[i]);
    assert ChanOk(s.client, s.threads, i + 1);
    var h := SuccessWasServed(s, i, s.client.chans[i + 1].sent[0], result);
  }

  ghost predicate UsedOnce(c: Client) {
    && (forall n :: n in c.chans ==> |c.chans[n].sent| + c.chans[n].closes <= 1)
    && (c.reader.Matched? ==> Untouched(c, c.reader.chan))
    && (c.reader.Closing? ==> forall id :: id in c.reader.pending ==> Untouched(c, c.reader.pending[id]))
  }

  lemma DisciplineUsesOnce(c: Client, ts: seq<Thread>)
    requires Discipline(c, ts)
    ensures UsedOnce(c)
  {}

  /** Each waiter channel gets at most one frame or one close, never both: the channel the reader is about
      to send on, and each it is about to close, is open and empty, so neither operation blocks or panics. */
  lemma ChannelsAreUsedOnce(s: System)
    requires Reachable(s)
    ensures UsedOnce(s.client)
    ensures s.client.reader.Matched? ==> Enabled(s, Reader(Deliver))
  {
    ReachableInv(s);
    DisciplineUsesOnce(s.client, s.threads);
  }

  /** The four ways a caller blocked on its channel can be on somebody's list. */
  ghost predicate Remembered(s: System, i: nat) {
    var c := s.client;
    || (HostCall(i + 1) in c.waiters && c.readErr.None? && !ReaderFailed(c) && c.reader != NotStarted)
    || (c.reader.Matched? && c.reader.chan == i + 1)
    || (c.reader.Closing? && HostCall(i + 1) in c.reader.pending)
    || CallerEnabled(s, i, Receive) || CallerEnabled(s, i, SeeClosed)
  }

  lemma AwaitingIsRemembered(s: System, i: nat)
    requires Discipline(s.client, s.threads) && IsCall(s, i, Awaiting)
    ensures Remembered(s, i)
  {}

  /** No wake-up is lost: a caller blocked on its channel is among the waiters of a reader that has not
      failed, or the reader holds its channel for sending or closing, or the channel is ready. */
  lemma BlockedCallerIsRemembered(s: System, i: nat)
    requires Reachable(s) && IsCall(s, i, Awaiting)
    ensures Remembered(s, i)
  {
    ReachableInv(s);
    AwaitingIsRemembered(s, i);
  }

  lemma SawClosedAfterFailure(c: Client, ts: seq<Thread>, i: nat)
    requires Discipline(c, ts) && i < |ts| && ts[i].Call? && ts[i].pc == SawClosed
    ensures c.readErr.Some?
  {}

  /** Once the reader has recorded its error nobody waits any more, a new call is refused with that very
      error, and a caller that finds its channel closed always finds the error there. */
  lemma FailureReachesEveryCaller(s: System, i: nat)
    requires Reachable(s)
    ensures var c := s.client;
            && (c.readErr.Some? ==> c.waiters == map[])
            && (c.readErr.Some? && IsCall(s, i, Drawn) ==>
                  && CallerPc(s, i, Register) == Done(Refused(c.readErr.value))
                  && CallerClient(s, i, Register) == c)
            && (IsCall(s, i, SawClosed) ==>
                  c.readErr.Some? && CallerPc(s, i, ReadError) == Done(Refused(c.readErr.value)))
  {
    ReachableInv(s);
    if IsCall(s, i, SawClosed) {
      SawClosedAfterFailure(s.client, s.threads, i);
    }
  }
}
