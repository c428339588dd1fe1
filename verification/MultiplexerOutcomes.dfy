/** What a host call comes back with: the host's own answer, or an error that the plugin really met. */
module MultiplexerOutcomes {
  import opened Text
  import opened FrameClient
  import opened Multiplexer
  import opened MultiplexerSafety

  // ----- the host's answer arrives as it is

  /** The outcome tells what the host's handler came back with, or that the host has no handler. */
  predicate Conveys(outcome: Outcome, answer: Answer, hasCaller: bool) {
    if !hasCaller then outcome.Refused? && outcome.failure.code == "host_unavailable"
    else
      match answer
      case Produced(result) => outcome == Returned(result)
      case Errored(message) => outcome == Refused(Failure("host_error", message))
  }

  /** Server `h` has replied to thread i's call, for that call's own command and payload. */
  ghost predicate Answers(s: System, i: nat, h: nat) {
    && i < |s.threads| && s.threads[i].Call? && h < |s.servers| && s.servers[h].stage.Replied?
    && s.servers[h].request.id == HostCall(i + 1)
    && s.servers[h].request.command == s.threads[i].command && s.servers[h].request.payload == s.threads[i].payload
  }

  lemma ReceivedFrame(s: System, i: nat) returns (f: Frame)
    requires Inv(s) && i < |s.threads| && Received(s.client, i + 1)
    ensures IsCall(s, i, Done(ReadResponse(f))) && f.id == HostCall(i + 1)
    ensures SentByHost(s.servers, s.hasCaller, f)
  {
    assert ThreadOk(s.client, i + 1, s.threads[i]);
    assert ChanOk(s.client, s.threads, i + 1);
    f := s.client.chans[i + 1].sent[0];
  }

  lemma ReplyConveys(server: Server, hasCaller: bool)
    requires server.stage.Replied? && server.request.target == ToHost
    ensures Conveys(ReadResponse(ReplyFrame(server, hasCaller)), server.stage.answer, hasCaller)
  {}

  lemma FrameWasServed(s: System, i: nat, f: Frame) returns (h: nat)
    requires ServersOk(s) && i < |s.threads| && s.threads[i].Call?
    requires f.id == HostCall(i + 1) && SentByHost(s.servers, s.hasCaller, f)
    ensures Answers(s, i, h) && Conveys(ReadResponse(f), s.servers[h].stage.answer, s.hasCaller)
  {
    h :| 0 <= h < |s.servers| && s.servers[h].stage.Replied? && f == ReplyFrame(s.servers[h], s.hasCaller);
    assert SentByPlugin(s.threads, s.servers[h].request);
    ReplyConveys(s.servers[h], s.hasCaller);
  }

  lemma OnlyOneServer(s: System, g: nat, h: nat)
    requires ServedOnce(s) && g < |s.servers| && h < |s.servers| && s.servers[g].request.id == s.servers[h].request.id
    ensures g == h
  {}

  /** A caller that has taken a frame from its channel returned exactly what the host answered it: the result the
      handler produced, the handler's own error message, or that the host has no handler. There is such an answer,
      for the call's own command and payload, and no other. */
  lemma AnswerArrives(s: System, i: nat, h: nat)
    requires Reachable(s) && i < |s.threads| && Received(s.client, i + 1)
    ensures exists g :: Answers(s, i, g)
    ensures Answers(s, i, h) ==>
              && s.threads[i].pc.Done?
              && Conveys(s.threads[i].pc.outcome, s.servers[h].stage.answer, s.hasCaller)
  {
    ReachableInv(s);
    var f := ReceivedFrame(s, i);
    var g := FrameWasServed(s, i, f);
    if Answers(s, i, h) { OnlyOneServer(s, g, h); }
  }

  /** A caller takes for success exactly a response frame of this protocol that says so; of any other frame it
      reports the protocol first, then the kind, then the error it carries. */
  lemma OnlyGoodFramesReturn(f: Frame, result: string)
    ensures ReadResponse(f) == Returned(result) <==>
            f.protocol == "fluxplane.plugin.v2" && f.kind == Response && f.ok && f.result == result
    ensures ReadResponse(f).Refused? ==>
              var failure := ReadResponse(f).failure;
              && (f.protocol != "fluxplane.plugin.v2" ==> failure.code == "protocol_mismatch")
              && (f.protocol == "fluxplane.plugin.v2" && f.kind != Response ==> failure.code == "unexpected_frame")
              && (f.protocol == "fluxplane.plugin.v2" && f.kind == Response ==>
                    failure == if f.error.Some? then f.error.value else Failure("host_error", "host call failed"))
  {}

  // ----- every other refusal was met

  /** The error a step meets, as far as call i can learn of it. */
  function ErrorFor(a: Action, i: nat): set<Failure> {
    match a
    case Caller(j, MarshalFails(err)) => if i == j then {err} else {}
    case Caller(j, WriteFails(err)) => if i == j then {err} else {}
    case Reader(DecodeFails(err)) => {err}
    case _ => {}
  }

  /** The errors that call i's own marshalling and writing, and the reader, met in the course of a schedule. */
  function ErrorsFor(actions: seq<Action>, i: nat): set<Failure> {
    if actions == [] then {} else ErrorsFor(actions[..|actions| - 1], i) + ErrorFor(actions[|actions| - 1], i)
  }

  ghost predicate ThreadMet(c: Client, n: nat, t: Thread, met: set<Failure>) {
    t.Call? ==>
      match t.pc
      case WriteFailed(err) => err in met
      case Done(Refused(f)) => Received(c, n) || f in met
      case _ => true
  }

  ghost predicate Met(s: System, i: nat, met: set<Failure>) {
    && (s.client.reader.Failing? ==> s.client.reader.err in met)
    && (s.client.readErr.Some? ==> s.client.readErr.value in met)
    && (i < |s.threads| ==> ThreadMet(s.client, i + 1, s.threads[i], met))
  }

  lemma OwnStepKeepsMet(s: System, i: nat, step: CallerStep, met: set<Failure>)
    requires Met(s, i, met) && CallerEnabled(s, i, step) && (step == ReadError ==> s.client.readErr.Some?)
    ensures Met(CallerNext(s, i, step), i, met + ErrorFor(Caller(i, step), i))
  {}

  lemma OthersStepKeepsMet(s: System, j: nat, step: CallerStep, i: nat, met: set<Failure>)
    requires Met(s, i, met) && CallerEnabled(s, j, step) && i != j
    ensures Met(CallerNext(s, j, step), i, met)
  {}

  lemma ReaderKeepsMet(s: System, step: ReaderStep, i: nat, met: set<Failure>)
    requires Met(s, i, met) && ReaderEnabled(s.client, s.toPlugin, step)
    ensures Met(Next(s, Reader(step)), i, met + ErrorFor(Reader(step), i))
  {}

  lemma StepKeepsMet(s: System, a: Action, i: nat, met: set<Failure>)
    requires Discipline(s.client, s.threads) && Met(s, i, met) && Enabled(s, a)
    ensures Met(Next(s, a), i, met + ErrorFor(a, i))
  {
    match a {
      case Caller(j, step) =>
        if j != i {
          OthersStepKeepsMet(s, j, step, i, met);
        } else {
          if step == ReadError { SawClosedAfterFailure(s.client, s.threads, i); }
          OwnStepKeepsMet(s, i, step, met);
        }
      case Reader(step) => ReaderKeepsMet(s, step, i, met);
      case _ => assert met + ErrorFor(a, i) == met;
    }
  }

  lemma {:induction false} MetAlong(states: seq<System>, actions: seq<Action>, i: nat, k: nat)
    requires IsRun(states, actions) && Inv(states[0]) && Met(states[0], i, {}) && k <= |actions|
    ensures Met(states[k], i, ErrorsFor(actions[..k], i))
  {
    if k > 0 {
      MetAlong(states, actions, i, k - 1);
      InvAlong(states, actions, k - 1);
      StepKeepsMet(states[k - 1], actions[k - 1], i, ErrorsFor(actions[..k - 1], i));
      assert actions[..k][..k - 1] == actions[..k - 1];
    }
  }

  /** Over every run: a call that is refused without having got a frame is refused with an error that its own
      marshalling or writing, or the reader, really met. */
  lemma RefusalWasMet(states: seq<System>, actions: seq<Action>, i: nat, f: Failure)
    requires IsRun(states, actions) && states[0] == Init(states[0].hasCaller, states[0].capacity)
    requires states[0].capacity > 0
    requires var s := states[|actions|]; IsCall(s, i, Done(Refused(f))) && !Received(s.client, i + 1)
    ensures f in ErrorsFor(actions, i)
  {
    MetAlong(states, actions, i, |actions|);
    assert actions[..|actions|] == actions;
  }
}
