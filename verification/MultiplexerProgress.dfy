/** The multiplexer never wedges: from every reachable state an unfinished goroutine has somebody who
    can move, and every move brings the calls that were begun nearer to their end. */
module MultiplexerProgress {
  import opened Text
  import opened Seqs
  import opened FrameClient
  import opened Multiplexer
  import opened MultiplexerSafety

  // ----- where the request or the response of a waiting call is

  ghost predicate InFlight(s: System, id: FrameId) {
    || (exists k :: 0 <= k < |s.toHost| && s.toHost[k].id == id)
    || (exists h :: 0 <= h < |s.servers| && s.servers[h].request.id == id && !s.servers[h].stage.Replied?)
    || (exists k :: 0 <= k < |s.toPlugin| && s.toPlugin[k].id == id)
    || (s.client.reader.Decoded? && s.client.reader.frame.id == id)
  }

  /** While the host is up, the response to every waiting call is still on its way. */
  ghost predicate OnItsWay(s: System) {
    s.hostUp ==>
      forall i :: 0 <= i < |s.threads| && IsCall(s, i, Awaiting) && HostCall(i + 1) in s.client.waiters ==>
        InFlight(s, HostCall(i + 1))
  }

  lemma StillInFlight(s: System, t: System, id: FrameId)
    requires InFlight(s, id) && s.toHost <= t.toHost && s.servers == t.servers && s.toPlugin == t.toPlugin
    requires s.client.reader == t.client.reader
    ensures InFlight(t, id)
  {}

  lemma CallerKeepsOnItsWay(s: System, i: nat, step: CallerStep)
    requires OnItsWay(s) && Discipline(s.client, s.threads) && CallerEnabled(s, i, step)
    ensures OnItsWay(CallerNext(s, i, step))
  {
    var t := CallerNext(s, i, step);
    forall j | t.hostUp && 0 <= j < |t.threads| && IsCall(t, j, Awaiting) && HostCall(j + 1) in t.client.waiters
      ensures InFlight(t, HostCall(j + 1))
    {
      if step == Write && j == i {
        assert t.toHost[|s.toHost|].id == HostCall(j + 1);
      } else {
        assert IsCall(s, j, Awaiting) && HostCall(j + 1) in s.client.waiters;
        StillInFlight(s, t, HostCall(j + 1));
      }
    }
  }

  lemma ReaderKeepsOnItsWay(s: System, step: ReaderStep)
    requires OnItsWay(s) && ReaderEnabled(s.client, s.toPlugin, step)
    ensures OnItsWay(Next(s, Reader(step)))
  {
    var t := Next(s, Reader(step));
    forall j | t.hostUp && 0 <= j < |t.threads| && IsCall(t, j, Awaiting) && HostCall(j + 1) in t.client.waiters
      ensures InFlight(t, HostCall(j + 1))
    {
      var id := HostCall(j + 1);
      assert IsCall(s, j, Awaiting) && id in s.client.waiters;
      if step == Decode {
        if k :| 0 <= k < |s.toPlugin| && s.toPlugin[k].id == id {
          assert k > 0 ==> t.toPlugin[k - 1].id == id;
        }
      }
    }
  }

  lemma ReadKeepsInFlight(s: System, id: FrameId)
    requires InFlight(s, id) && id.HostCall? && PipesOk(s) && s.toHost != [] && HostReads(s).hostUp
    ensures InFlight(HostReads(s), id)
  {
    var t := HostReads(s);
    if k :| 0 <= k < |s.toHost| && s.toHost[k].id == id {
      assert SentByPlugin(s.threads, s.toHost[k]);
      if k == 0 { assert t.servers[|s.servers|].request.id == id; } else { assert t.toHost[k - 1].id == id; }
    } else if h :| 0 <= h < |s.servers| && s.servers[h].request.id == id && !s.servers[h].stage.Replied? {
      assert t.servers[h] == s.servers[h];
    }
  }

  lemma RespondKeepsInFlight(s: System, h: nat, id: FrameId)
    requires InFlight(s, id) && s.hostUp && h < |s.servers| && s.servers[h].stage.Answered?
    ensures InFlight(HostReplies(s, h), id)
  {
    var t := HostReplies(s, h);
    if s.servers[h].request.id == id {
      assert t.toPlugin[|s.toPlugin|].id == id;
    } else if g :| 0 <= g < |s.servers| && s.servers[g].request.id == id && !s.servers[g].stage.Replied? {
      assert t.servers[g] == s.servers[g];
    } else if k :| 0 <= k < |s.toPlugin| && s.toPlugin[k].id == id {
      assert t.toPlugin[k].id == id;
    }
  }

  lemma HostKeepsInFlight(s: System, step: HostStep, id: FrameId)
    requires InFlight(s, id) && id.HostCall? && PipesOk(s) && HostEnabled(s, step) && HostNext(s, step).hostUp
    ensures InFlight(HostNext(s, step), id)
  {
    match step {
      case Read => ReadKeepsInFlight(s, id);
      case Respond(h) => RespondKeepsInFlight(s, h, id);
      case Answer(h, _) =>
        if g :| 0 <= g < |s.servers| && s.servers[g].request.id == id && !s.servers[g].stage.Replied? {
          assert HostNext(s, step).servers[g].request.id == id;
        }
      case Stop => {}
    }
  }

  lemma HostKeepsOnItsWay(s: System, step: HostStep)
    requires OnItsWay(s) && Traffic(s) && HostEnabled(s, step)
    ensures OnItsWay(HostNext(s, step))
  {
    var t := HostNext(s, step);
    forall j | t.hostUp && 0 <= j < |t.threads| && IsCall(t, j, Awaiting) && HostCall(j + 1) in t.client.waiters
      ensures InFlight(t, HostCall(j + 1))
    {
      assert IsCall(s, j, Awaiting);
      HostKeepsInFlight(s, step, HostCall(j + 1));
    }
  }

  /** A new goroutine, or the plugin's own final response. */
  predicate Opens(a: Action) { a.BeginCall? || a.BeginEmit? || a.PluginReplies? }

  lemma BeginKeepsOnItsWay(s: System, a: Action)
    requires OnItsWay(s) && Enabled(s, a) && Opens(a)
    ensures OnItsWay(Next(s, a))
  {
    var t := Next(s, a);
    forall j | t.hostUp && 0 <= j < |t.threads| && IsCall(t, j, Awaiting) && HostCall(j + 1) in t.client.waiters
      ensures InFlight(t, HostCall(j + 1))
    {
      assert IsCall(s, j, Awaiting) && HostCall(j + 1) in s.client.waiters;
      if a.PluginReplies? {
        StillInFlight(s, t, HostCall(j + 1));
      }
    }
  }

  lemma OnItsWayStep(s: System, a: Action)
    requires Inv(s) && OnItsWay(s) && Enabled(s, a)
    ensures OnItsWay(Next(s, a))
  {
    match a {
      case Caller(i, step) => CallerKeepsOnItsWay(s, i, step);
      case Reader(step) => ReaderKeepsOnItsWay(s, step);
      case Host(step) => HostKeepsOnItsWay(s, step);
      case _ => BeginKeepsOnItsWay(s, a);
    }
  }

  lemma {:induction false} OnItsWayAlong(states: seq<System>, actions: seq<Action>, k: nat)
    requires IsRun(states, actions) && Inv(states[0]) && OnItsWay(states[0]) && k <= |actions|
    ensures Inv(states[k]) && OnItsWay(states[k])
  {
    if k > 0 {
      OnItsWayAlong(states, actions, k - 1);
      InvStep(states[k - 1], actions[k - 1]);
      OnItsWayStep(states[k - 1], actions[k - 1]);
    }
  }

  lemma ReachableOnItsWay(s: System)
    requires Reachable(s)
    ensures Inv(s) && OnItsWay(s)
  {
    var states: seq<System>, actions: seq<Action> :|
      && IsRun(states, actions) && states[|actions|] == s
      && states[0] == Init(states[0].hasCaller, states[0].capacity) && states[0].capacity > 0;
    OnItsWayAlong(states, actions, |actions|);
  }

  // ----- somebody can always move

  /** Something breaks: a payload that does not marshal, a failed write, an unreadable frame while the
      host is still there, or the host going away. */
  predicate Breaks(s: System, a: Action) {
    match a
    case Caller(_, step) => step.MarshalFails? || step.WriteFails?
    case Reader(step) => step.DecodeFails? && (s.hostUp || s.toPlugin != [])
    case Host(step) => step == Stop
    case _ => false
  }

  /** An ordinary step of somebody already at work. */
  predicate Moves(s: System, a: Action) { Enabled(s, a) && !Opens(a) && !Breaks(s, a) }

  ghost predicate CanMove(s: System) { exists a :: Moves(s, a) }

  lemma ReaderMoves(s: System)
    requires Discipline(s.client, s.threads)
    requires s.client.reader.Idle? ==> s.toPlugin != [] || !s.hostUp
    requires s.client.reader != NotStarted && s.client.reader != Exited
    ensures CanMove(s)
  {
    var step :=
      match s.client.reader
      case Decoded(_) => Lookup
      case Matched(_, _) => Deliver
      case Failing(_) => TakeWaiters
      case Closing(pending) => if pending == map[] then Exit else (var id :| id in pending; CloseOne(id))
      case _ => if s.toPlugin != [] then Decode else DecodeFails(Failure("EOF", "EOF"));
    assert Moves(s, Reader(step));
  }

  /** A goroutine about to write to a full pipe that nobody reads any more. */
  ghost predicate StuckWriter(s: System, i: nat) {
    i < |s.threads| && Unwritten(s.threads[i]) && !s.hostUp && |s.toHost| >= s.capacity
  }

  lemma WriterMoves(s: System, i: nat)
    requires s.capacity > 0 && i < |s.threads| && Unwritten(s.threads[i]) && !StuckWriter(s, i)
    ensures CanMove(s)
  {
    if |s.toHost| < s.capacity {
      assert Moves(s, Caller(i, Write));
    } else {
      assert Moves(s, Host(Read));
    }
  }

  lemma InFlightMoves(s: System, id: FrameId)
    requires Inv(s) && InFlight(s, id) && s.hostUp && s.client.reader != NotStarted && !ReaderFailed(s.client)
    ensures CanMove(s)
  {
    if !s.client.reader.Idle? || s.toPlugin != [] {
      ReaderMoves(s);
    } else if s.toHost != [] {
      assert Moves(s, Host(Read));
    } else {
      var h :| 0 <= h < |s.servers| && s.servers[h].request.id == id && !s.servers[h].stage.Replied?;
      var step := if s.servers[h].stage.Serving? then Answer(h, Produced("")) else Respond(h);
      assert Moves(s, Host(step));
    }
  }

  lemma AwaitingMoves(s: System, i: nat)
    requires Inv(s) && OnItsWay(s) && IsCall(s, i, Awaiting)
    ensures CanMove(s)
  {
    AwaitingIsRemembered(s, i);
    if CallerEnabled(s, i, Receive) {
      assert Moves(s, Caller(i, Receive));
    } else if CallerEnabled(s, i, SeeClosed) {
      assert Moves(s, Caller(i, SeeClosed));
    } else if s.hostUp && HostCall(i + 1) in s.client.waiters {
      InFlightMoves(s, HostCall(i + 1));
    } else {
      ReaderMoves(s);
    }
  }

  lemma CallMoves(s: System, i: nat)
    requires i < |s.threads| && s.threads[i].Call? && s.threads[i].pc != Awaiting
    requires !Finished(s.threads[i]) && !Unwritten(s.threads[i])
    ensures CanMove(s)
  {
    var pc := s.threads[i].pc;
    var step := if pc == Drawn then Register else if pc == SawClosed then ReadError else Abandon;
    assert Moves(s, Caller(i, step));
  }

  lemma UnfinishedMoves(s: System, i: nat)
    requires Inv(s) && OnItsWay(s) && i < |s.threads| && !Finished(s.threads[i]) && !StuckWriter(s, i)
    ensures CanMove(s)
  {
    if Unwritten(s.threads[i]) {
      WriterMoves(s, i);
    } else if s.threads[i].pc == Awaiting {
      AwaitingMoves(s, i);
    } else {
      CallMoves(s, i);
    }
  }

  /** Deadlock freedom with finite pipes: whatever has failed before, an unfinished goroutine means that
      somebody can take an ordinary step, unless it is stuck writing to a stopped host. */
  lemma NeverWedged(s: System, i: nat)
    requires Reachable(s) && i < |s.threads| && !Finished(s.threads[i]) && !StuckWriter(s, i)
    ensures CanMove(s)
  {
    ReachableOnItsWay(s);
    UnfinishedMoves(s, i);
  }

  /** Everybody has finished or is stuck writing to a stopped host, the reader is not running, and every reply
      has been dealt with. */
  ghost predicate Wedged(s: System) {
    && (forall i :: 0 <= i < |s.threads| ==> Finished(s.threads[i]) || StuckWriter(s, i))
    && (s.client.reader == NotStarted || s.client.reader == Exited)
    && forall h :: 0 <= h < |s.servers| ==> s.servers[h].stage.Replied?
  }

  lemma WedgedCannotMove(s: System, a: Action)
    requires Wedged(s) && !s.hostUp
    ensures !Moves(s, a)
  {
    if a.Caller? && a.i < |s.threads| {
      assert Finished(s.threads[a.i]) || StuckWriter(s, a.i);
    }
  }

  lemma ServerMoves(s: System, h: nat)
    requires !s.hostUp && h < |s.servers| && !s.servers[h].stage.Replied?
    ensures CanMove(s)
  {
    var step := if s.servers[h].stage.Serving? then Answer(h, Produced("")) else Respond(h);
    assert Moves(s, Host(step));
  }

  /** When exactly nobody can move while a goroutine is unfinished: the host has stopped, every unfinished goroutine
      is stuck writing to it, the reader is not running and every reply has been dealt with. */
  lemma CanMoveExactlyUnlessWedged(s: System, w: nat)
    requires Reachable(s) && w < |s.threads| && !Finished(s.threads[w])
    ensures CanMove(s) <==> !Wedged(s)
  {
    ReachableOnItsWay(s);
    if Wedged(s) {
      assert StuckWriter(s, w);
      forall a ensures !Moves(s, a) { WedgedCannotMove(s, a); }
    } else if i :| 0 <= i < |s.threads| && !Finished(s.threads[i]) && !StuckWriter(s, i) {
      UnfinishedMoves(s, i);
    } else {
      assert StuckWriter(s, w);
      if h :| 0 <= h < |s.servers| && !s.servers[h].stage.Replied? {
        ServerMoves(s, h);
      } else {
        ReaderMoves(s);
      }
    }
  }

  /** Two goroutines emit an event each into a pipe for one frame; one writes, and the host stops. */
  function StopEarly(): seq<Action> { [BeginEmit("e", ""), BeginEmit("e", ""), Caller(0, Write), Host(Stop)] }

  function AfterOne(): System {
    Init(true, 1).(client := NEW_CLIENT.DrawId(), threads := [Emit("e", "", false)])
  }

  function AfterTwo(): System {
    AfterOne().(client := AfterOne().client.DrawId(), threads := AfterOne().threads + [Emit("e", "", false)])
  }

  function AfterThree(): System { CallerNext(AfterTwo(), 0, Write) }

  function StoppedEarly(): System { AfterThree().(hostUp := false) }

  lemma StopEarlyRuns()
    ensures IsRun([Init(true, 1), AfterOne(), AfterTwo(), AfterThree(), StoppedEarly()], StopEarly())
  {
    var states, actions := [Init(true, 1), AfterOne(), AfterTwo(), AfterThree(), StoppedEarly()], StopEarly();
    forall k | 0 <= k < |actions|
      ensures Enabled(states[k], actions[k]) && states[k + 1] == Next(states[k], actions[k]) {}
  }

  /** It happens: the second goroutine can only fail to write. */
  lemma WedgeIsReachable()
    ensures var s := StoppedEarly(); Reachable(s) && StuckWriter(s, 1) && Wedged(s) && !CanMove(s)
  {
    var states := [Init(true, 1), AfterOne(), AfterTwo(), AfterThree(), StoppedEarly()];
    StopEarlyRuns();
    assert states[|StopEarly()|] == StoppedEarly();
    forall a ensures !Moves(StoppedEarly(), a) { WedgedCannotMove(StoppedEarly(), a); }
  }

  // ----- every step brings the begun calls nearer to their end

  /** The most steps a goroutine's call or event can still cause. */
  function ThreadWork(t: Thread): nat {
    match t
    case Emit(_, _, finished) => if finished then 0 else 7
    case Call(_, _, pc) =>
      match pc
      case Drawn => 11
      case Registered => 9
      case Awaiting => 2
      case WriteFailed(_) => 1
      case SawClosed => 1
      case Done(_) => 0
  }

  function ServerWork(server: Server): nat {
    match server.stage
    case Serving => 5
    case Answered(_) => 4
    case Replied(_) => 0
  }

  function ReaderWork(r: FrameClient.Reader): nat {
    match r
    case NotStarted => 3
    case Idle => 3
    case Decoded(_) => 5
    case Matched(_, _) => 4
    case Failing(_) => 2
    case Closing(pending) => 1 + |pending|
    case Exited => 0
  }

  function Work(s: System): nat {
    Sum(s.threads, ThreadWork) + 6 * |s.toHost| + Sum(s.servers, ServerWork) + 3 * |s.toPlugin|
    + ReaderWork(s.client.reader) + |s.client.waiters| + (if s.hostUp then 1 else 0)
  }

  /** What a caller's step does to the client: at most one more waiter, and that only on registering. */
  lemma CallerLeavesReader(s: System, i: nat, step: CallerStep)
    requires CallerEnabled(s, i, step)
    ensures var c, d := s.client, CallerClient(s, i, step);
            d.reader == c.reader && |d.waiters| <= |c.waiters| + if step == Register then 1 else 0
  {
    var c := s.client;
    assert |c.waiters[HostCall(i + 1) := i + 1]| <= |c.waiters| + 1;
    assert |c.waiters - {HostCall(i + 1)}| <= |c.waiters|;
  }

  lemma CallerWorks(s: System, i: nat, step: CallerStep)
    requires CallerEnabled(s, i, step)
    ensures Work(CallerNext(s, i, step)) < Work(s)
  {
    SumUpdate(s.threads, i, Advance(s.threads[i], CallerPc(s, i, step)), ThreadWork);
    CallerLeavesReader(s, i, step);
  }

  lemma ReaderWorks(s: System, step: ReaderStep)
    requires ReaderEnabled(s.client, s.toPlugin, step)
    ensures Work(Next(s, Reader(step))) < Work(s)
  {}

  lemma HostWorks(s: System, step: HostStep)
    requires HostEnabled(s, step)
    ensures Work(HostNext(s, step)) < Work(s)
  {
    match step {
      case Read => SumAppend(s.servers, [Server(s.toHost[0], Serving)], ServerWork);
      case Answer(h, answer) => SumUpdate(s.servers, h, s.servers[h].(stage := Answered(answer)), ServerWork);
      case Respond(h) =>
        SumUpdate(s.servers, h, s.servers[h].(stage := Replied(s.servers[h].stage.answer)), ServerWork);
      case Stop => {}
    }
  }

  /** Every step but an opening one strictly lowers the work left. */
  lemma EveryStepWorks(s: System, a: Action)
    requires Enabled(s, a) && !Opens(a)
    ensures Work(Next(s, a)) < Work(s)
  {
    match a {
      case Caller(i, step) => CallerWorks(s, i, step);
      case Reader(step) => ReaderWorks(s, step);
      case Host(step) => HostWorks(s, step);
    }
  }

  lemma {:induction false} RunsAreShort(states: seq<System>, actions: seq<Action>, k: nat)
    requires IsRun(states, actions) && k <= |actions|
    requires forall j :: 0 <= j < |actions| ==> !Opens(actions[j])
    ensures k + Work(states[k]) <= Work(states[0])
  {
    if k > 0 {
      RunsAreShort(states, actions, k - 1);
      EveryStepWorks(states[k - 1], actions[k - 1]);
    }
  }

  /** Every finite set of calls completes, under every schedule: once no new goroutine is begun, a run can
      take only so many steps, and while the host is up it can only come to rest with every call returned
      and every event written. */
  lemma CallsComplete(states: seq<System>, actions: seq<Action>)
    requires IsRun(states, actions) && Reachable(states[0])
    requires forall j :: 0 <= j < |actions| ==> !Opens(actions[j])
    ensures |actions| <= Work(states[0])
    ensures var last := states[|actions|];
            last.hostUp && !CanMove(last) ==> forall i :: 0 <= i < |last.threads| ==> Finished(last.threads[i])
  {
    RunsAreShort(states, actions, |actions|);
    ReachableOnItsWay(states[0]);
    OnItsWayAlong(states, actions, |actions|);
    var last := states[|actions|];
    forall i | last.hostUp && !CanMove(last) && 0 <= i < |last.threads| ensures Finished(last.threads[i]) {
      if !Finished(last.threads[i]) {
        UnfinishedMoves(last, i);
      }
    }
  }
}
