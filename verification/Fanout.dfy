/** Bounded fan-out over goroutines: a semaphore channel, a wait group and one goroutine per index, as a
    step system whose every schedule must do what the plain loop does. */
module Fanout {
  import opened Text
  import opened Seqs

  /** The goroutine of one index: not launched, holding its semaphore slot before and after its work,
      slot given back, and counted off the wait group. */
  datatype Worker = Unborn | Launched | Ran | Released | Left

  /** The spawning goroutine: about to count index i in, to take a slot for it, to launch it; then joining. */
  datatype Spawner = Counting(i: nat) | Taking(i: nat) | Launching(i: nat) | Joining | Returned

  datatype State<R> = State(spawner: Spawner, workers: seq<Worker>, slots: nat, group: int,
                            out: seq<Option<R>>, runs: seq<nat>)

  datatype Action = Spawn | Work(i: nat) | Release(i: nat) | Leave(i: nat)

  function DefaultLimit(cpus: int): int { if cpus < 4 then 4 else if cpus > 12 then 12 else cpus }

  /** The number of workers used for `n` jobs, after defaulting and clamping. */
  function EffectiveLimit(n: nat, limit: int, cpus: int): nat {
    var l := if limit <= 0 then DefaultLimit(cpus) else limit;
    if l > n then n else l
  }

  function Init<R>(n: nat): State<R> {
    State(if n > 0 then Counting(0) else Joining, seq(n, _ => Unborn), 0, 0, seq(n, _ => None), seq(n, _ => 0))
  }

  predicate Enabled<R>(s: State<R>, limit: nat, a: Action) {
    var n := |s.workers|;
    match a
    case Spawn =>
      (match s.spawner
       case Counting(i) => i < n
       case Taking(i) => i < n && s.slots < limit
       case Launching(i) => i < n
       case Joining => s.group == 0
       case Returned => false)
    case Work(i) => i < n && s.workers[i] == Launched && |s.out| == |s.runs| == n
    case Release(i) => i < n && s.workers[i] == Ran && s.slots > 0
    case Leave(i) => i < n && s.workers[i] == Released
  }

  function Next<R>(s: State<R>, limit: nat, job: nat -> R, a: Action): State<R>
    requires Enabled(s, limit, a)
  {
    match a
    case Spawn =>
      (match s.spawner
       case Counting(i) => s.(spawner := Taking(i), group := s.group + 1)
       case Taking(i) => s.(spawner := Launching(i), slots := s.slots + 1)
       case Launching(i) =>
         s.(spawner := if i + 1 < |s.workers| then Counting(i + 1) else Joining, workers := s.workers[i := Launched])
       case Joining => s.(spawner := Returned))
    case Work(i) =>
      s.(workers := s.workers[i := Ran], out := s.out[i := Some(job(i))], runs := s.runs[i := s.runs[i] + 1])
    case Release(i) => s.(workers := s.workers[i := Released], slots := s.slots - 1)
    case Leave(i) => s.(workers := s.workers[i := Left], group := s.group - 1)
  }

  // ----- what every schedule keeps

  function HoldsSlot(w: Worker): nat { if w == Launched || w == Ran then 1 else 0 }

  function InGroup(w: Worker): nat { if w == Unborn || w == Left then 0 else 1 }

  function FirstUnborn(s: Spawner, n: nat): nat {
    match s
    case Counting(i) => i
    case Taking(i) => i
    case Launching(i) => i
    case _ => n
  }

  ghost predicate Inv<R>(s: State<R>, n: nat, limit: nat, job: nat -> R) {
    && |s.workers| == |s.out| == |s.runs| == n
    && FirstUnborn(s.spawner, n) <= n
    && (FirstUnborn(s.spawner, n) == n ==> s.spawner == Joining || s.spawner == Returned)
    && (forall i :: 0 <= i < n ==> (s.workers[i] == Unborn <==> i >= FirstUnborn(s.spawner, n)))
    && s.slots == Sum(s.workers, HoldsSlot) + (if s.spawner.Launching? then 1 else 0)
    && s.slots <= limit
    && s.group == Sum(s.workers, InGroup) + (if s.spawner.Launching? || s.spawner.Taking? then 1 else 0)
    && (s.spawner == Returned ==> s.group == 0)
    && (forall i :: 0 <= i < n ==>
          if s.workers[i] == Unborn || s.workers[i] == Launched then s.runs[i] == 0 && s.out[i] == None
          else s.runs[i] == 1 && s.out[i] == Some(job(i)))
  }

  lemma {:induction false} SumOfZeros(n: nat)
    ensures Sum(seq(n, _ => Unborn), HoldsSlot) == Sum(seq(n, _ => Unborn), InGroup) == 0
  {
    if n > 0 {
      assert seq(n, _ => Unborn)[1..] == seq<Worker>(n - 1, _ => Unborn);
      SumOfZeros(n - 1);
    }
  }

  lemma InitInv<R>(n: nat, limit: nat, job: nat -> R)
    ensures Inv(Init(n), n, limit, job)
  {
    SumOfZeros(n);
  }

  lemma SpawnKeepsInv<R>(s: State<R>, n: nat, limit: nat, job: nat -> R)
    requires Inv(s, n, limit, job) && Enabled(s, limit, Spawn)
    ensures Inv(Next(s, limit, job, Spawn), n, limit, job)
  {
    if s.spawner.Launching? {
      SumUpdate(s.workers, s.spawner.i, Launched, HoldsSlot);
      SumUpdate(s.workers, s.spawner.i, Launched, InGroup);
    }
  }

  lemma InvStep<R>(s: State<R>, n: nat, limit: nat, job: nat -> R, a: Action)
    requires Inv(s, n, limit, job) && Enabled(s, limit, a)
    ensures Inv(Next(s, limit, job, a), n, limit, job)
  {
    if a == Spawn {
      SpawnKeepsInv(s, n, limit, job);
    } else {
      var w := match a case Work(_) => Ran case Release(_) => Released case _ => Left;
      SumUpdate(s.workers, a.i, w, HoldsSlot);
      SumUpdate(s.workers, a.i, w, InGroup);
    }
  }

  lemma {:induction false} EmptySum<T>(s: seq<T>, weight: T -> nat, i: nat)
    requires i < |s|
    ensures weight(s[i]) <= Sum(s, weight)
  {
    if i > 0 {
      EmptySum(s[1..], weight, i - 1);
    }
  }

  ghost predicate IsRun<R>(states: seq<State<R>>, limit: nat, job: nat -> R, actions: seq<Action>) {
    && |states| == |actions| + 1
    && forall k :: 0 <= k < |actions| ==>
         Enabled(states[k], limit, actions[k]) && states[k + 1] == Next(states[k], limit, job, actions[k])
  }

  lemma {:induction false} InvAlong<R>(states: seq<State<R>>, n: nat, limit: nat, job: nat -> R, actions: seq<Action>,
                                       k: nat)
    requires IsRun(states, limit, job, actions) && states[0] == Init(n) && k <= |actions|
    ensures Inv(states[k], n, limit, job)
  {
    if k == 0 {
      InitInv(n, limit, job);
    } else {
      InvAlong(states, n, limit, job, actions, k - 1);
      InvStep(states[k - 1], n, limit, job, actions[k - 1]);
    }
  }

  // ----- the plain loop

  function PlainLoop<R>(n: nat, job: nat -> R): seq<Option<R>> { seq(n, i requires 0 <= i < n => Some(job(i))) }

  /** The branch taken for one job or one worker. */
  method RunInOrder<R>(out: array<Option<R>>, job: nat -> R)
    modifies out
    ensures out[..] == PlainLoop(out.Length, job)
  {
    for i := 0 to out.Length
      invariant forall k :: 0 <= k < i ==> out[k] == Some(job(k))
    {
      out[i] := Some(job(i));
    }
  }

  /** At every moment of every schedule at most `limit` jobs hold a slot; and once the fan-out has returned
      every goroutine has left, every job ran exactly once, and the results are the plain loop's. */
  lemma EveryScheduleIsThePlainLoop<R>(states: seq<State<R>>, n: nat, limit: nat, job: nat -> R, actions: seq<Action>,
                                       k: nat)
    requires IsRun(states, limit, job, actions) && states[0] == Init(n) && k <= |actions|
    ensures Sum(states[k].workers, HoldsSlot) <= limit && |states[k].workers| == |states[k].runs| == n
    ensures states[k].spawner == Returned ==>
              && states[k].out == PlainLoop(n, job)
              && forall i :: 0 <= i < n ==> states[k].workers[i] == Left && states[k].runs[i] == 1
  {
    InvAlong(states, n, limit, job, actions, k);
    var s := states[k];
    if s.spawner == Returned {
      forall i | 0 <= i < n ensures s.workers[i] == Left {
        EmptySum(s.workers, InGroup, i);
      }
    }
  }

  // ----- it always finishes

  function WorkerWork(w: Worker): nat {
    match w case Unborn => 7 case Launched => 3 case Ran => 2 case Released => 1 case Left => 0
  }

  function SpawnerWork(s: Spawner): nat {
    match s case Counting(_) => 3 case Taking(_) => 2 case Launching(_) => 1 case Joining => 1 case Returned => 0
  }

  function WorkLeft<R>(s: State<R>): nat { Sum(s.workers, WorkerWork) + SpawnerWork(s.spawner) }

  lemma StepWorks<R>(s: State<R>, n: nat, limit: nat, job: nat -> R, a: Action)
    requires Inv(s, n, limit, job) && Enabled(s, limit, a)
    ensures WorkLeft(Next(s, limit, job, a)) < WorkLeft(s)
  {
    var i := match a case Work(i) => i case Release(i) => i case Leave(i) => i case Spawn => FirstUnborn(s.spawner, n);
    if i < n {
      SumUpdate(s.workers, i, Next(s, limit, job, a).workers[i], WorkerWork);
      assert s.workers[i := s.workers[i]] == s.workers;
    }
    if a == Spawn && s.spawner == Joining {
      assert Next(s, limit, job, a).workers == s.workers;
    }
  }

  lemma {:induction false} PositiveTerm<T>(s: seq<T>, weight: T -> nat) returns (i: nat)
    requires Sum(s, weight) > 0
    ensures i < |s| && weight(s[i]) > 0
  {
    if weight(s[0]) > 0 {
      i := 0;
    } else {
      i := PositiveTerm(s[1..], weight);
      i := i + 1;
    }
  }

  lemma BusyWorker<R>(s: State<R>, n: nat, limit: nat, job: nat -> R) returns (i: nat)
    requires Inv(s, n, limit, job) && limit > 0 && !Enabled(s, limit, Spawn) && s.spawner != Returned
    ensures i < n && InGroup(s.workers[i]) > 0
  {
    if s.spawner.Taking? {
      i := PositiveTerm(s.workers, HoldsSlot);
    } else {
      i := PositiveTerm(s.workers, InGroup);
    }
  }

  /** While the fan-out has not returned somebody can step, and every step brings it nearer to its end. */
  lemma NeverStuck<R>(s: State<R>, n: nat, limit: nat, job: nat -> R)
    requires Inv(s, n, limit, job) && limit > 0
    ensures s.spawner != Returned ==> exists a :: Enabled(s, limit, a)
    ensures forall a :: Enabled(s, limit, a) ==> WorkLeft(Next(s, limit, job, a)) < WorkLeft(s)
  {
    if !Enabled(s, limit, Spawn) && s.spawner != Returned {
      var i := BusyWorker(s, n, limit, job);
      var a := match s.workers[i] case Launched => Work(i) case Ran => Release(i) case _ => Leave(i);
      if s.workers[i] == Ran { EmptySum(s.workers, HoldsSlot, i); }
      assert Enabled(s, limit, a);
    }
    forall a | Enabled(s, limit, a) ensures WorkLeft(Next(s, limit, job, a)) < WorkLeft(s) {
      StepWorks(s, n, limit, job, a);
    }
  }

  lemma {:induction false} StepsCount<R>(states: seq<State<R>>, n: nat, limit: nat, job: nat -> R,
                                         actions: seq<Action>, k: nat)
    requires IsRun(states, limit, job, actions) && states[0] == Init(n) && limit > 0 && k <= |actions|
    ensures k + WorkLeft(states[k]) <= WorkLeft(states[0])
  {
    if k > 0 {
      StepsCount(states, n, limit, job, actions, k - 1);
      InvAlong(states, n, limit, job, actions, k - 1);
      NeverStuck(states[k - 1], n, limit, job);
    }
  }

  /** No schedule runs for ever, and none comes to rest before the fan-out has returned. */
  lemma EveryScheduleReturns<R>(states: seq<State<R>>, n: nat, limit: nat, job: nat -> R, actions: seq<Action>)
    requires IsRun(states, limit, job, actions) && states[0] == Init(n) && limit > 0
    ensures |actions| <= WorkLeft(states[0])
    ensures (forall a :: !Enabled(states[|actions|], limit, a)) ==> states[|actions|].spawner == Returned
  {
    StepsCount(states, n, limit, job, actions, |actions|);
    InvAlong(states, n, limit, job, actions, |actions|);
    NeverStuck(states[|actions|], n, limit, job);
  }

  // ----- the limit

  /** The limit is the greatest number of workers there are jobs for and that was asked for; when none was asked for,
      that is no more than twelve, nor, above four, than there are processors. */
  lemma LimitIsClamped(n: nat, asked: int, cpus: int, k: nat)
    ensures k <= EffectiveLimit(n, asked, cpus) <==>
            k <= n && (if asked > 0 then k <= asked else k <= 12 && (k <= 4 || k <= cpus))
  {}

  /** The state in which the first `m` jobs run at once. */
  function Wide<R>(n: nat, m: nat): State<R>
    requires m <= n
  {
    State(if m < n then Counting(m) else Joining, seq(n, i => if i < m then Launched else Unborn), m, m,
          seq(n, _ => None), seq(n, _ => 0))
  }

  lemma WideHolds<R>(n: nat, m: nat)
    requires m <= n
    ensures Sum(Wide<R>(n, m).workers, HoldsSlot) == m
  {
    if m == 0 {
      SumOfZeros(n);
      assert Wide<R>(n, 0).workers == seq(n, _ => Unborn);
    } else {
      WideHolds<R>(n, m - 1);
      SumUpdate(Wide<R>(n, m - 1).workers, m - 1, Launched, HoldsSlot);
      assert Wide<R>(n, m).workers == Wide<R>(n, m - 1).workers[m - 1 := Launched];
    }
  }

  /** Three steps launch one more. */
  lemma Widen<R>(n: nat, m: nat, limit: nat, job: nat -> R) returns (taking: State<R>, launching: State<R>)
    requires m < limit <= n
    ensures Enabled(Wide<R>(n, m), limit, Spawn) && taking == Next(Wide<R>(n, m), limit, job, Spawn)
    ensures Enabled(taking, limit, Spawn) && launching == Next(taking, limit, job, Spawn)
    ensures Enabled(launching, limit, Spawn) && Next(launching, limit, job, Spawn) == Wide(n, m + 1)
  {
    taking := Next(Wide<R>(n, m), limit, job, Spawn);
    launching := Next(taking, limit, job, Spawn);
    assert Wide<R>(n, m).workers[m := Launched] == Wide<R>(n, m + 1).workers;
  }

  lemma {:induction false} WideRun<R>(n: nat, m: nat, limit: nat, job: nat -> R)
    returns (states: seq<State<R>>, actions: seq<Action>)
    requires m <= limit <= n && n > 0
    ensures IsRun(states, limit, job, actions) && states[0] == Init(n) && states[|actions|] == Wide(n, m)
  {
    if m == 0 {
      states, actions := [Init(n)], [];
      assert Init<R>(n).workers == Wide<R>(n, 0).workers;
    } else {
      states, actions := WideRun(n, m - 1, limit, job);
      var taking, launching := Widen(n, m - 1, limit, job);
      states, actions := states + [taking, launching, Wide(n, m)], actions + [Spawn, Spawn, Spawn];
    }
  }

  /** The bound is met: some schedule has as many jobs at work at once as the limit allows. */
  lemma LimitIsReached<R>(n: nat, asked: int, cpus: int, job: nat -> R)
    returns (states: seq<State<R>>, actions: seq<Action>)
    requires n > 0
    ensures IsRun(states, EffectiveLimit(n, asked, cpus), job, actions) && states[0] == Init(n)
    ensures Sum(states[|actions|].workers, HoldsSlot) == EffectiveLimit(n, asked, cpus)
  {
    var limit := EffectiveLimit(n, asked, cpus);
    states, actions := WideRun(n, limit, limit, job);
    WideHolds<R>(n, limit);
  }

  /** For every asked limit, defaulted and clamped: never more than asked at once, or than the default of four to
      twelve; no schedule runs for ever, and where one comes to rest the fan-out has returned with the results of the
      plain loop. */
  lemma RunConcurrentIsThePlainLoop<R>(states: seq<State<R>>, n: nat, asked: int, cpus: int, job: nat -> R,
                                       actions: seq<Action>)
    requires n > 0 && IsRun(states, EffectiveLimit(n, asked, cpus), job, actions) && states[0] == Init(n)
    ensures var last, atWork := states[|actions|], Sum(states[|actions|].workers, HoldsSlot);
            && |actions| <= WorkLeft(states[0])
            && atWork <= n && (if asked > 0 then atWork <= asked else atWork <= 12 && (atWork <= 4 || atWork <= cpus))
            && ((forall a :: !Enabled(last, EffectiveLimit(n, asked, cpus), a)) ==>
                  last.spawner == Returned && last.out == PlainLoop(n, job))
  {
    var limit := EffectiveLimit(n, asked, cpus);
    EveryScheduleReturns(states, n, limit, job, actions);
    EveryScheduleIsThePlainLoop(states, n, limit, job, actions, |actions|);
    LimitIsClamped(n, asked, cpus, Sum(states[|actions|].workers, HoldsSlot));
  }
}
