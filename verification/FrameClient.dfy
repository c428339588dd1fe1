/** Frames of the plugin protocol, and the plugin's half of the host-call multiplexer: the state its
    mutex guards, as a value with one function per critical section, and as the object that holds it. */
module FrameClient {
  import opened Text

  const VERSION := "fluxplane.plugin.v2"

  /** "root", "host-<n>" and "event-<n>"; `n` is the counter value the id was made from. */
  datatype FrameId = Root | HostCall(n: nat) | HostEvent(n: nat)

  function IdText(id: FrameId): string {
    match id
    case Root => "root"
    case HostCall(n) => "host-" + Itoa(n)
    case HostEvent(n) => "event-" + Itoa(n)
  }

  /** Different identifiers are different texts, so the datatype loses nothing. */
  lemma IdTextInjective(a: FrameId, b: FrameId)
    requires IdText(a) == IdText(b)
    ensures a == b
  {
    var s := IdText(a);
    match a {
      case Root => assert s[0] == 'r';
      case HostCall(m) =>
        assert s[0] == 'h' && s[5..] == Itoa(m);
        if b.HostCall? { assert s[5..] == Itoa(b.n); ItoaInjective(m, b.n); }
      case HostEvent(m) =>
        assert s[0] == 'e' && s[6..] == Itoa(m);
        if b.HostEvent? { assert s[6..] == Itoa(b.n); ItoaInjective(m, b.n); }
    }
  }

  datatype Kind = Request | Response | Event | OtherKind

  datatype Target = ToPlugin | ToHost | Unset

  datatype Failure = Failure(code: string, message: string)

  datatype Frame = Frame(protocol: string, id: FrameId, kind: Kind, target: Target,
                         command: string, payload: string, ok: bool, result: string, error: Option<Failure>)

  datatype Reply = Reply(ok: bool, result: string, error: Option<Failure>)

  function RequestFrame(id: FrameId, command: string, payload: string): Frame {
    Frame(VERSION, id, Request, ToHost, command, payload, false, "", None)
  }

  function EventFrame(id: FrameId, event: string, payload: string): Frame {
    Frame(VERSION, id, Event, ToHost, event, payload, false, "", None)
  }

  function ResponseFrame(id: FrameId, r: Reply): Frame {
    Frame(VERSION, id, Response, Unset, "", "", r.ok, r.result, r.error)
  }

  /** What a host call returns to its caller. */
  datatype Outcome = Returned(result: string) | Refused(failure: Failure)

  /** How a caller reads the frame it was handed. */
  function ReadResponse(f: Frame): Outcome {
    if f.protocol != VERSION then Refused(Failure("protocol_mismatch", "expected " + VERSION + ", got " + f.protocol))
    else if f.kind != Response then Refused(Failure("unexpected_frame", "unexpected host frame"))
    else if !f.ok then
      match f.error
      case Some(e) => Refused(e)
      case None => Refused(Failure("host_error", "host call failed"))
    else Returned(f.result)
  }

  // ----- one-slot channels

  /** A channel made by one caller: everything ever sent on it, how much was received, how often closed. */
  datatype Chan = Chan(sent: seq<Frame>, received: nat, closes: nat) {
    predicate CanSend() { |sent| - received < 1 }

    /** Sending on, or closing, a channel that is already closed panics. */
    predicate Open() { closes == 0 }

    predicate Holding() { received < |sent| }
  }

  const FRESH_CHAN := Chan([], 0, 0)

  // ----- the client's state

  /** Where the single reader goroutine is in its loop. */
  datatype Reader =
    | NotStarted
    | Idle
    | Decoded(frame: Frame)
    | Matched(frame: Frame, chan: nat)
    | Failing(err: Failure)
    | Closing(pending: map<FrameId, nat>)
    | Exited

  datatype Client = Client(nextID: nat, readErr: Option<Failure>, waiters: map<FrameId, nat>,
                           chans: map<nat, Chan>, reader: Reader) {

    function EnsureReader(): Client {
      if reader == NotStarted then this.(waiters := map[], reader := Idle) else this
    }

    function DrawId(): Client { this.(nextID := nextID + 1) }

    /** A caller with a fresh channel asks to be answered; refused once the reader has failed. */
    function Register(n: nat): Client {
      if readErr.Some? then this
      else this.(waiters := waiters[HostCall(n) := n], chans := chans[n := FRESH_CHAN])
    }

    function Unregister(n: nat): Client { this.(waiters := waiters - {HostCall(n)}) }

    function Decode(f: Frame): Client { this.(reader := Decoded(f)) }

    function DecodeError(err: Failure): Client { this.(reader := Failing(err)) }

    function Lookup(): Client
      requires reader.Decoded?
    {
      var id := reader.frame.id;
      if id in waiters then this.(waiters := waiters - {id}, reader := Matched(reader.frame, waiters[id]))
      else this.(reader := Idle)
    }

    function Deliver(): Client
      requires reader.Matched? && reader.chan in chans
    {
      var ch := chans[reader.chan];
      this.(chans := chans[reader.chan := ch.(sent := ch.sent + [reader.frame])], reader := Idle)
    }

    function TakeWaiters(): Client
      requires reader.Failing?
    {
      this.(readErr := Some(reader.err), waiters := map[], reader := Closing(waiters))
    }

    function CloseOne(id: FrameId): Client
      requires reader.Closing? && id in reader.pending && reader.pending[id] in chans
    {
      var ch := chans[reader.pending[id]];
      this.(chans := chans[reader.pending[id] := ch.(closes := ch.closes + 1)],
            reader := Closing(reader.pending - {id}))
    }

    function Exit(): Client { this.(reader := Exited) }

    function Receive(n: nat): Client
      requires n in chans
    {
      this.(chans := chans[n := chans[n].(received := chans[n].received + 1)])
    }
  }

  /** Every channel in `which` closed once more. */
  ghost function CloseEach(chans: map<nat, Chan>, which: set<nat>): map<nat, Chan> {
    map n | n in chans :: if n in which then chans[n].(closes := chans[n].closes + 1) else chans[n]
  }

  lemma CloseNone(chans: map<nat, Chan>)
    ensures CloseEach(chans, {}) == chans
  {}

  lemma CloseEachMore(chans: map<nat, Chan>, which: set<nat>, n: nat)
    requires n in chans && n !in which
    ensures CloseEach(chans, which)[n] == chans[n]
    ensures CloseEach(chans, which + {n}) ==
            CloseEach(chans, which)[n := chans[n].(closes := chans[n].closes + 1)]
  {}

  ghost predicate Injective(m: map<FrameId, nat>) {
    forall id, other :: id in m && other in m && m[id] == m[other] ==> id == other
  }

  lemma OneFewer(m: map<FrameId, nat>, id: FrameId)
    requires id in m && Injective(m)
    ensures m.Values == (m - {id}).Values + {m[id]} && m[id] !in (m - {id}).Values && Injective(m - {id})
  {
    forall v | v in m.Values ensures v in (m - {id}).Values + {m[id]} {
      var k :| k in m && m[k] == v;
      if k != id { assert (m - {id})[k] == v; }
    }
  }

  /** One round of closing the channels of `rest`. */
  lemma CloseRound(chans: map<nat, Chan>, closed: set<nat>, rest: map<FrameId, nat>, id: FrameId)
    requires id in rest && Injective(rest) && rest.Values <= chans.Keys && closed !! rest.Values
    ensures var next, n := rest - {id}, rest[id];
            && Injective(next) && next.Values <= chans.Keys
            && closed + {n} !! next.Values && closed + {n} + next.Values == closed + rest.Values
            && CloseEach(chans, closed)[n] == chans[n]
            && CloseEach(chans, closed + {n}) == CloseEach(chans, closed)[n := chans[n].(closes := chans[n].closes + 1)]
  {
    OneFewer(rest, id);
    CloseEachMore(chans, closed, rest[id]);
  }

  const NEW_CLIENT := Client(0, None, map[], map[], NotStarted)

  /** The object the plugin's goroutines share. Each method is one critical section (or one atomic add,
      or one channel operation); its contract is the step the section takes on the client's state. */
  class FrameHostClient {
    var nextID: nat
    var started: bool
    var readErr: Option<Failure>
    var waiters: map<FrameId, nat>
    var chans: map<nat, Chan>
    var reader: Reader

    ghost predicate Valid()
      reads this
    {
      started <==> reader != NotStarted
    }

    ghost function State(): Client
      reads this
    {
      Client(nextID, readErr, waiters, chans, reader)
    }

    constructor ()
      ensures Valid() && State() == NEW_CLIENT
    {
      nextID, started, readErr, waiters, chans, reader := 0, false, None, map[], map[], NotStarted;
    }

    method EnsureReader()
      requires Valid()
      modifies this
      ensures Valid() && State() == old(State()).EnsureReader()
    {
      if started {
        return;
      }
      started := true;
      waiters := map[];
      reader := Idle;
    }

    method DrawId() returns (n: nat)
      requires Valid()
      modifies this`nextID
      ensures Valid() && State() == old(State()).DrawId() && n == nextID
    {
      nextID := nextID + 1;
      n := nextID;
    }

    method Register(n: nat) returns (err: Option<Failure>)
      requires Valid()
      modifies this`waiters, this`chans
      ensures Valid() && State() == old(State()).Register(n) && err == readErr
    {
      if readErr.Some? {
        return readErr;
      }
      chans := chans[n := FRESH_CHAN];
      waiters := waiters[HostCall(n) := n];
      err := None;
    }

    method Unregister(n: nat)
      requires Valid()
      modifies this`waiters
      ensures Valid() && State() == old(State()).Unregister(n)
    {
      waiters := waiters - {HostCall(n)};
    }

    /** The success half of the read loop's critical section: the waiter, if any, leaves the map. */
    method Lookup(resp: Frame) returns (ch: Option<nat>)
      requires Valid() && reader == Decoded(resp)
      modifies this`waiters, this`reader
      ensures Valid() && State() == old(State()).Lookup()
      ensures ch == if resp.id in old(waiters) then Some(old(waiters)[resp.id]) else None
    {
      if resp.id in waiters {
        ch := Some(waiters[resp.id]);
        reader := Matched(resp, waiters[resp.id]);
      } else {
        ch := None;
        reader := Idle;
      }
      waiters := waiters - {resp.id};
      assert resp.id !in old(waiters) ==> waiters == old(waiters);
    }

    method Deliver(resp: Frame, ch: nat)
      requires Valid() && reader == Matched(resp, ch) && ch in chans
      modifies this`chans, this`reader
      ensures Valid() && State() == old(State()).Deliver()
    {
      chans := chans[ch := chans[ch].(sent := chans[ch].sent + [resp])];
      reader := Idle;
    }

    /** The failure half of the read loop's critical section. */
    method TakeWaiters(err: Failure) returns (taken: map<FrameId, nat>)
      requires Valid() && reader == Failing(err)
      modifies this`readErr, this`waiters, this`reader
      ensures Valid() && State() == old(State()).TakeWaiters() && taken == old(waiters)
    {
      readErr := Some(err);
      taken := waiters;
      waiters := map[];
      reader := Closing(taken);
    }

    method CloseOne(id: FrameId)
      requires Valid() && reader.Closing? && id in reader.pending && reader.pending[id] in chans
      modifies this`chans, this`reader
      ensures Valid() && State() == old(State()).CloseOne(id)
    {
      chans := chans[reader.pending[id] := chans[reader.pending[id]].(closes := chans[reader.pending[id]].closes + 1)];
      reader := Closing(reader.pending - {id});
    }

    /** After the critical section, in any order: close every channel that was waiting, then stop. */
    method CloseTaken(taken: map<FrameId, nat>)
      requires Valid() && reader == Closing(taken) && taken.Values <= chans.Keys && Injective(taken)
      modifies this`chans, this`reader
      ensures Valid() && reader == Exited && chans == CloseEach(old(chans), taken.Values)
    {
      var rest := taken;
      ghost var was := chans;
      ghost var closed: set<nat> := {};
      CloseNone(was);
      while rest != map[]
        invariant Valid() && reader == Closing(rest)
        invariant Injective(rest) && rest.Values <= was.Keys
        invariant closed !! rest.Values && closed + rest.Values == taken.Values
        invariant chans == CloseEach(was, closed)
        decreases rest.Keys
      {
        var id :| id in rest;
        ghost var n := rest[id];
        CloseRound(was, closed, rest, id);
        CloseOne(id);
        assert chans == CloseEach(was, closed + {n});
        closed, rest := closed + {n}, rest - {id};
      }
      assert rest.Values == {};
      reader := Exited;
    }

    /** A caller's receive on its own channel. */
    method Receive(n: nat) returns (resp: Option<Frame>)
      requires Valid() && n in chans && (chans[n].Holding() || !chans[n].Open())
      modifies this`chans
      ensures resp == if old(chans)[n].Holding() then Some(old(chans)[n].sent[old(chans)[n].received]) else None
      ensures Valid() && State() == if resp.Some? then old(State()).Receive(n) else old(State())
    {
      var ch := chans[n];
      if ch.Holding() {
        resp := Some(ch.sent[ch.received]);
        chans := chans[n := ch.(received := ch.received + 1)];
      } else {
        resp := None;
      }
    }
  }
}
