/** What becomes of the events that plugin goroutines emit, over every run: the host's handler is given each one that
    was written, as it was emitted, once and in the order of the writes. */
module MultiplexerEvents {
  import opened Text
  import opened Seqs
  import opened FrameClient
  import opened Multiplexer
  import opened MultiplexerSafety
  import opened MultiplexerProgress

  datatype Emitted = Emitted(name: string, payload: string)

  /** The event a frame carries, as the host's handler is given it. */
  function EventOf(f: Frame): seq<Emitted> {
    if f.protocol == VERSION && f.kind == Event then [Emitted(TrimSpace(f.command), f.payload)] else []
  }

  function EventsOf(frames: seq<Frame>): seq<Emitted> { FlatMap(frames, EventOf) }

  /** What a step gives to the host's handler, where there is one: the event of the frame it reads. */
  function Handed(s: System, a: Action): seq<Emitted> {
    if a == Host(Read) && s.hasCaller && s.toHost != [] then EventOf(s.toHost[0]) else []
  }

  /** The event a step writes: one that a goroutine was given to emit. */
  function Written(s: System, a: Action): seq<Emitted> {
    match a
    case Caller(i, Write) =>
      if i < |s.threads| && s.threads[i].Emit? then [Emitted(TrimSpace(s.threads[i].event), s.threads[i].data)] else []
    case _ => []
  }

  ghost function HandedBy(states: seq<System>, actions: seq<Action>, k: nat): seq<Emitted>
    requires k <= |actions| < |states|
  {
    if k == 0 then [] else HandedBy(states, actions, k - 1) + Handed(states[k - 1], actions[k - 1])
  }

  ghost function WrittenBy(states: seq<System>, actions: seq<Action>, k: nat): seq<Emitted>
    requires k <= |actions| < |states|
  {
    if k == 0 then [] else WrittenBy(states, actions, k - 1) + Written(states[k - 1], actions[k - 1])
  }

  lemma EventsOfNext(frames: seq<Frame>, f: Frame)
    ensures EventsOf(frames + [f]) == EventsOf(frames) + EventOf(f)
  {
    FlatMapAppend(frames, [f], EventOf);
    assert FlatMap([f], EventOf) == EventOf(f) + FlatMap([], EventOf);
  }

  lemma Associate<T>(x: seq<T>, y: seq<T>, z: seq<T>)
    ensures x + (y + z) == x + y + z
  {}

  lemma CallerConserves(s: System, i: nat, step: CallerStep)
    requires CallerEnabled(s, i, step)
    ensures EventsOf(CallerNext(s, i, step).toHost) == EventsOf(s.toHost) + Written(s, Caller(i, step))
  {
    if step == Write { EventsOfNext(s.toHost, FrameOf(i + 1, s.threads[i])); }
  }

  lemma HostConserves(s: System, step: HostStep)
    requires HostEnabled(s, step) && s.hasCaller
    ensures HostNext(s, step).hasCaller
    ensures Handed(s, Host(step)) + EventsOf(HostNext(s, step).toHost) == EventsOf(s.toHost)
  {}

  lemma NothingAdded<T>(s: seq<T>, t: seq<T>)
    requires s == t
    ensures [] + s == t + []
  {}

  /** A step loses no event and makes up none: what it hands over and leaves in the pipe is what was in the pipe and
      what it writes. */
  lemma StepConserves(s: System, a: Action)
    requires Enabled(s, a) && s.hasCaller
    ensures Next(s, a).hasCaller
    ensures Handed(s, a) + EventsOf(Next(s, a).toHost) == EventsOf(s.toHost) + Written(s, a)
  {
    match a {
      case Caller(i, step) => CallerConserves(s, i, step);
      case PluginReplies(reply) => EventsOfNext(s.toHost, ResponseFrame(Root, reply));
      case Host(step) => HostConserves(s, step);
      case _ => NothingAdded(Next(s, a).toHost, s.toHost);
    }
  }

  lemma Shuffle<T>(before: seq<T>, handed: seq<T>, left: seq<T>, pipe: seq<T>, all: seq<T>, more: seq<T>)
    requires before + pipe == all && handed + left == pipe + more
    ensures before + handed + left == all + more
  {
    Associate(before, handed, left);
    Associate(before, pipe, more);
  }

  /** Over every run the events handed to the host's handler, with those still in the pipe, are exactly the events
      that were written, in the order of the writes. */
  lemma {:induction false} EventsArriveInOrder(states: seq<System>, actions: seq<Action>, k: nat)
    requires IsRun(states, actions) && states[0].toHost == [] && states[0].hasCaller && k <= |actions|
    ensures states[k].hasCaller
    ensures HandedBy(states, actions, k) + EventsOf(states[k].toHost) == WrittenBy(states, actions, k)
  {
    if k > 0 {
      var s, a := states[k - 1], actions[k - 1];
      EventsArriveInOrder(states, actions, k - 1);
      StepConserves(s, a);
      Shuffle(HandedBy(states, actions, k - 1), Handed(s, a), EventsOf(states[k].toHost), EventsOf(s.toHost),
              WrittenBy(states, actions, k - 1), Written(s, a));
    }
  }

  // ----- each goroutine writes its event at most once

  /** A step that ends the emitting goroutine i: it writes, or fails. */
  predicate Ends(a: Action, i: nat) {
    a.Caller? && a.i == i && (a.callerStep == Write || a.callerStep.WriteFails? || a.callerStep.MarshalFails?)
  }

  ghost function EndsOf(actions: seq<Action>, i: nat): nat {
    if actions == [] then 0
    else EndsOf(actions[..|actions| - 1], i) + if Ends(actions[|actions| - 1], i) then 1 else 0
  }

  ghost predicate EndedOnce(s: System, i: nat, ends: nat) {
    i < |s.threads| && s.threads[i].Emit? ==> ends == if s.threads[i].finished then 1 else 0
  }

  ghost predicate NotYet(s: System, i: nat, ends: nat) { |s.threads| <= i ==> ends == 0 }

  lemma StepEndsOnce(s: System, a: Action, i: nat, ends: nat)
    requires Enabled(s, a) && EndedOnce(s, i, ends) && NotYet(s, i, ends)
    ensures var more := ends + if Ends(a, i) then 1 else 0;
            EndedOnce(Next(s, a), i, more) && NotYet(Next(s, a), i, more)
  {}

  lemma {:induction false} EmitEndsOnce(states: seq<System>, actions: seq<Action>, i: nat, k: nat)
    requires IsRun(states, actions) && states[0].threads == [] && k <= |actions|
    ensures EndedOnce(states[k], i, EndsOf(actions[..k], i)) && NotYet(states[k], i, EndsOf(actions[..k], i))
  {
    if k > 0 {
      EmitEndsOnce(states, actions, i, k - 1);
      StepEndsOnce(states[k - 1], actions[k - 1], i, EndsOf(actions[..k - 1], i));
      assert actions[..k][..k - 1] == actions[..k - 1];
    }
  }

  lemma FullPipeMoves(s: System)
    requires s.hostUp
    ensures s.toHost != [] ==> CanMove(s)
  {
    assert s.toHost != [] ==> Moves(s, Host(Read));
  }

  /** Where a run from the start comes to rest under a living host, its handler has been given every event that was
      written, in the order of the writes; and each emitting goroutine has ended exactly once, by its write or by a
      failure. */
  lemma AtRestEventsHaveArrived(states: seq<System>, actions: seq<Action>, i: nat)
    requires IsRun(states, actions) && states[0] == Init(true, states[0].capacity) && states[0].capacity > 0
    requires var last := states[|actions|]; last.hostUp && !CanMove(last)
    ensures HandedBy(states, actions, |actions|) == WrittenBy(states, actions, |actions|)
    ensures var last := states[|actions|];
            i < |last.threads| && last.threads[i].Emit? ==> EndsOf(actions, i) == 1
  {
    var last := states[|actions|];
    EventsArriveInOrder(states, actions, |actions|);
    FullPipeMoves(last);
    EmitEndsOnce(states, actions, i, |actions|);
    assert actions[..|actions|] == actions;
    if i < |last.threads| && !Finished(last.threads[i]) {
      assert Reachable(last) by {
        assert states[0] == Init(states[0].hasCaller, states[0].capacity);
      }
      ReachableOnItsWay(last);
      UnfinishedMoves(last, i);
    }
  }
}
