/** The framed host-call multiplexer as one step system: plugin goroutines that call the host or emit
    events, the reader goroutine, the two pipes, and the host with one goroutine per request.
    Every step is one critical section, one pipe operation or one channel operation. */
module Multiplexer {
  import opened Text
  import opened FrameClient

  datatype Pc =
    | Drawn                       // has its counter value
    | Registered                  // its channel is among the waiters
    | Awaiting                    // its request is written
    | WriteFailed(err: Failure)
    | SawClosed                   // its channel reported closed
    | Done(outcome: Outcome)

  /** Goroutine number i drew counter value i + 1. */
  datatype Thread =
    | Call(command: string, payload: string, pc: Pc)
    | Emit(event: string, data: string, finished: bool)

  /** What the host's own handler came back with. */
  datatype Answer = Produced(result: string) | Errored(message: string)

  datatype Stage = Serving | Answered(answer: Answer) | Replied(answer: Answer)

  /** The host goroutine serving one request frame. */
  datatype Server = Server(request: Frame, stage: Stage)

  datatype System = System(client: Client, threads: seq<Thread>, toHost: seq<Frame>, servers: seq<Server>,
                           toPlugin: seq<Frame>, hostUp: bool, hasCaller: bool, capacity: nat)

  /** Steps of one plugin goroutine. */
  datatype CallerStep =
    | MarshalFails(err: Failure)
    | Register
    | Write
    | WriteFails(err: Failure)
    | Abandon
    | Receive
    | SeeClosed
    | ReadError

  /** Steps of the reader goroutine. */
  datatype ReaderStep =
    | Decode
    | DecodeFails(err: Failure)
    | Lookup
    | Deliver
    | TakeWaiters
    | CloseOne(id: FrameId)
    | Exit

  /** Steps of the host: its main read loop, and the goroutine serving request number h. */
  datatype HostStep =
    | Read
    | Answer(h: nat, answer: Answer)
    | Respond(h: nat)
    | Stop

  datatype Action =
    | BeginCall(command: string, payload: string)
    | BeginEmit(event: string, data: string)
    | PluginReplies(reply: Reply)
    | Caller(i: nat, callerStep: CallerStep)
    | Reader(readerStep: ReaderStep)
    | Host(hostStep: HostStep)

  function RequestOf(n: nat, t: Thread): Frame
    requires t.Call?
  {
    RequestFrame(HostCall(n), t.command, t.payload)
  }

  function FrameOf(n: nat, t: Thread): Frame {
    if t.Call? then RequestOf(n, t) else EventFrame(HostEvent(n), t.event, t.data)
  }

  function Fail(code: string, message: string): Reply { Reply(false, "", Some(Failure(code, message))) }

  /** The host's answer to a request frame, given what its handler would come back with. */
  function ReplyTo(request: Frame, answer: Answer, hasCaller: bool): Reply {
    if request.target != ToHost then Fail("bad_request", "plugin may only request host target")
    else if !hasCaller then Fail("host_unavailable", "host caller is unavailable")
    else
      match answer
      case Errored(message) => Fail("host_error", message)
      case Produced(result) => Reply(true, result, None)
  }

  function Init(hasCaller: bool, capacity: nat): System {
    System(NEW_CLIENT, [], [], [], [], true, hasCaller, capacity)
  }

  predicate IsCall(s: System, i: nat, pc: Pc) { i < |s.threads| && s.threads[i].Call? && s.threads[i].pc == pc }

  /** About to write its frame. */
  predicate Unwritten(t: Thread) { if t.Call? then t.pc == Registered else !t.finished }

  predicate Finished(t: Thread) { if t.Call? then t.pc.Done? else t.finished }

  function Advance(t: Thread, pc: Pc): Thread {
    if t.Call? then t.(pc := pc) else t.(finished := true)
  }

  // ----- the goroutines of the plugin

  predicate CallerEnabled(s: System, i: nat, step: CallerStep) {
    && i < |s.threads|
    && var t, chans := s.threads[i], s.client.chans;
       match step
       case MarshalFails(_) => if t.Call? then t.pc == Drawn else !t.finished
       case Register => t.Call? && t.pc == Drawn
       case Write => Unwritten(t) && |s.toHost| < s.capacity
       case WriteFails(_) => Unwritten(t)
       case Abandon => t.Call? && t.pc.WriteFailed?
       case Receive => t.Call? && t.pc == Awaiting && i + 1 in chans && chans[i + 1].Holding()
       case SeeClosed =>
         t.Call? && t.pc == Awaiting && i + 1 in chans && !chans[i + 1].Holding() && !chans[i + 1].Open()
       case ReadError => t.Call? && t.pc == SawClosed
  }

  function CallerClient(s: System, i: nat, step: CallerStep): Client
    requires CallerEnabled(s, i, step)
  {
    match step
    case Register => s.client.Register(i + 1)
    case Abandon => s.client.Unregister(i + 1)
    case Receive => s.client.Receive(i + 1)
    case _ => s.client
  }

  function CallerPc(s: System, i: nat, step: CallerStep): Pc
    requires CallerEnabled(s, i, step)
  {
    var t, c := s.threads[i], s.client;
    match step
    case MarshalFails(err) => Done(Refused(err))
    case Register => if c.readErr.Some? then Done(Refused(c.readErr.value)) else Registered
    case Write => Awaiting
    case WriteFails(err) => WriteFailed(err)
    case Abandon => Done(Refused(t.pc.err))
    case Receive => Done(ReadResponse(c.chans[i + 1].sent[c.chans[i + 1].received]))
    case SeeClosed => SawClosed
    case ReadError =>
      Done(Refused(if c.readErr.Some? then c.readErr.value else Failure("host_error", "host call failed")))
  }

  function CallerNext(s: System, i: nat, step: CallerStep): System
    requires CallerEnabled(s, i, step)
  {
    s.(client := CallerClient(s, i, step),
       threads := s.threads[i := Advance(s.threads[i], CallerPc(s, i, step))],
       toHost := if step == Write then s.toHost + [FrameOf(i + 1, s.threads[i])] else s.toHost)
  }

  // ----- the reader

  predicate ReaderEnabled(c: Client, toPlugin: seq<Frame>, step: ReaderStep) {
    match step
    case Decode => c.reader == Idle && toPlugin != []
    case DecodeFails(_) => c.reader == Idle
    case Lookup => c.reader.Decoded?
    case Deliver => c.reader.Matched? && c.reader.chan in c.chans && c.chans[c.reader.chan].CanSend()
    case TakeWaiters => c.reader.Failing?
    case CloseOne(id) => c.reader.Closing? && id in c.reader.pending && c.reader.pending[id] in c.chans
    case Exit => c.reader == Closing(map[])
  }

  function ReaderNext(c: Client, toPlugin: seq<Frame>, step: ReaderStep): Client
    requires ReaderEnabled(c, toPlugin, step)
  {
    match step
    case Decode => c.Decode(toPlugin[0])
    case DecodeFails(err) => c.DecodeError(err)
    case Lookup => c.Lookup()
    case Deliver => c.Deliver()
    case TakeWaiters => c.TakeWaiters()
    case CloseOne(id) => c.CloseOne(id)
    case Exit => c.Exit()
  }

  // ----- the host

  predicate HostEnabled(s: System, step: HostStep) {
    match step
    case Read => s.hostUp && s.toHost != []
    case Answer(h, _) => h < |s.servers| && s.servers[h].stage == Serving
    case Respond(h) => h < |s.servers| && s.servers[h].stage.Answered? && (s.hostUp ==> |s.toPlugin| < s.capacity)
    case Stop => s.hostUp
  }

  /** The main read loop's reaction to the next frame: serve it on its own goroutine, consume it, or stop. */
  function HostReads(s: System): System
    requires s.toHost != []
  {
    var f, rest := s.toHost[0], s.(toHost := s.toHost[1..]);
    if f.protocol != VERSION then rest.(hostUp := false)
    else
      match f.kind
      case Request => rest.(servers := s.servers + [Server(f, Serving)])
      case Event => rest
      case Response => rest.(hostUp := false)
      case OtherKind => rest.(hostUp := false)
  }

  function ReplyFrame(server: Server, hasCaller: bool): Frame
    requires !server.stage.Serving?
  {
    ResponseFrame(server.request.id, ReplyTo(server.request, server.stage.answer, hasCaller))
  }

  /** A reply the stopped host can no longer write is dropped. */
  function HostReplies(s: System, h: nat): System
    requires h < |s.servers| && s.servers[h].stage.Answered?
  {
    var server := s.servers[h];
    s.(servers := s.servers[h := server.(stage := Replied(server.stage.answer))],
       toPlugin := if s.hostUp then s.toPlugin + [ReplyFrame(server, s.hasCaller)] else s.toPlugin)
  }

  function HostNext(s: System, step: HostStep): System
    requires HostEnabled(s, step)
  {
    match step
    case Read => HostReads(s)
    case Answer(h, answer) => s.(servers := s.servers[h := s.servers[h].(stage := Answered(answer))])
    case Respond(h) => HostReplies(s, h)
    case Stop => s.(hostUp := false)
  }

  // ----- the whole

  predicate Enabled(s: System, a: Action) {
    match a
    case BeginCall(_, _) => true
    case BeginEmit(_, _) => true
    case PluginReplies(_) => |s.toHost| < s.capacity
    case Caller(i, step) => CallerEnabled(s, i, step)
    case Reader(step) => ReaderEnabled(s.client, s.toPlugin, step)
    case Host(step) => HostEnabled(s, step)
  }

  function Next(s: System, a: Action): System
    requires Enabled(s, a)
  {
    match a
    case BeginCall(command, payload) =>
      s.(client := s.client.EnsureReader().DrawId(), threads := s.threads + [Call(command, payload, Drawn)])
    case BeginEmit(event, data) =>
      s.(client := s.client.DrawId(), threads := s.threads + [Emit(event, data, false)])
    case PluginReplies(reply) => s.(toHost := s.toHost + [ResponseFrame(Root, reply)])
    case Caller(i, step) => CallerNext(s, i, step)
    case Reader(step) =>
      s.(client := ReaderNext(s.client, s.toPlugin, step),
         toPlugin := if step == Decode then s.toPlugin[1..] else s.toPlugin)
    case Host(step) => HostNext(s, step)
  }

  // ----- runs

  /** `states` is the run the schedule `actions` produces from `states[0]`. */
  ghost predicate IsRun(states: seq<System>, actions: seq<Action>) {
    && |states| == |actions| + 1
    && forall k :: 0 <= k < |actions| ==> Enabled(states[k], actions[k]) && states[k + 1] == Next(states[k], actions[k])
  }

  ghost predicate Reachable(s: System) {
    exists states: seq<System>, actions: seq<Action> ::
      && IsRun(states, actions) && states[|actions|] == s
      && states[0] == Init(states[0].hasCaller, states[0].capacity) && states[0].capacity > 0
  }
}
