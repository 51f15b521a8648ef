/**
 The automation daemon: a stoppable loop with a set of stop waiters.
 Code between two awaits runs without interruption, so a run of the daemon is an interleaving of atomic segments.
 Any number of loops may run at once.
 */
module Daemon {
  import opened Prelude

  // ---- The daemon object ----

  /** The fields as a value. A waiter is named by the sleep that made it; `resolutions` records every resolve call. */
  datatype Core = Core(stopped: bool, waiters: seq<nat>, nextWaiter: nat, resolutions: seq<nat>)

  function Without(waiters: seq<nat>, w: nat): (r: seq<nat>)
    ensures forall v :: v in r <==> v in waiters && v != w
    ensures Distinct(waiters) ==> Distinct(r)
  {
    if waiters == [] then []
    else if waiters[0] == w then Without(waiters[1..], w)
    else
      var rest := Without(waiters[1..], w);
      assert Distinct(waiters) ==> Distinct(waiters[1..]) && waiters[0] !in waiters[1..];
      [waiters[0]] + rest
  }

  function Stopped(c: Core): Core {
    if c.stopped then c else Core(true, [], c.nextWaiter, c.resolutions + c.waiters)
  }

  /** Registering a sleep's waiter. */
  function Parked(c: Core): Core {
    c.(waiters := c.waiters + [c.nextWaiter], nextWaiter := c.nextWaiter + 1)
  }

  function Unparked(c: Core, w: nat): Core {
    c.(waiters := Without(c.waiters, w))
  }

  class AutomationDaemon {
    const claimToken: Option<string>
    const daemonIdentity: string
    var stopWaiters: seq<nat>
    var stopped: bool
    var claimCounter: nat
    var nextWaiter: nat
    ghost var resolutions: seq<nat>

    constructor (claimToken: Option<string>, daemonIdentity: string)
      ensures AsCore() == Core(false, [], 0, []) && claimCounter == 0
      ensures this.claimToken == claimToken && this.daemonIdentity == daemonIdentity
    {
      this.claimToken, this.daemonIdentity := claimToken, daemonIdentity;
      stopWaiters, stopped, claimCounter, nextWaiter, resolutions := [], false, 0, 0, [];
    }

    ghost function AsCore(): Core
      reads this
    {
      Core(stopped, stopWaiters, nextWaiter, resolutions)
    }

    method Stop()
      modifies `stopped, `stopWaiters, `resolutions
      ensures AsCore() == Stopped(old(AsCore()))
    {
      if stopped {
        return;
      }
      stopped := true;
      var waiters := stopWaiters;
      stopWaiters := [];
      for i := 0 to |waiters|
        invariant stopped && stopWaiters == []
        invariant resolutions == old(resolutions) + waiters[..i]
      {
        Resolve(waiters[i]);
      }
      assert waiters[..|waiters|] == waiters;
    }

    /** Calling a waiter resolves the promise its sleep is racing on. */
    ghost method Resolve(waiter: nat)
      modifies `resolutions
      ensures resolutions == old(resolutions) + [waiter]
    {
      resolutions := resolutions + [waiter];
    }

    /** `sleepUntilStopped` up to its await: no waiter once stopped. */
    method BeginSleep() returns (waiter: Option<nat>)
      modifies `stopWaiters, `nextWaiter
      ensures waiter == if old(stopped) then None else Some(old(nextWaiter))
      ensures AsCore() == if old(stopped) then old(AsCore()) else Parked(old(AsCore()))
    {
      if stopped {
        return None;
      }
      waiter := Some(nextWaiter);
      stopWaiters := stopWaiters + [nextWaiter];
      nextWaiter := nextWaiter + 1;
    }

    /** The `finally` block of the sleep, however its race ended. */
    method EndSleep(waiter: nat)
      modifies `stopWaiters
      ensures AsCore() == Unparked(old(AsCore()), waiter)
    {
      stopWaiters := Without(stopWaiters, waiter);
    }

    method NextClaimToken(now: nat) returns (token: string)
      modifies `claimCounter
      ensures token == if claimToken.Some? then claimToken.value else Token(daemonIdentity, now, claimCounter)
      ensures claimCounter == if claimToken.Some? then old(claimCounter) else old(claimCounter) + 1
    {
      if claimToken.Some? {
        return claimToken.value;
      }
      claimCounter := claimCounter + 1;
      token := Token(daemonIdentity, now, claimCounter);
    }
  }

  // ---- Claim tokens ----

  function Decimal(n: nat): (s: string)
    ensures ':' !in s
    ensures if n < 10 then |s| == 1 else |s| >= 2
  {
    if n < 10 then ["0123456789"[n]] else Decimal(n / 10) + ["0123456789"[n % 10]]
  }

  function Token(identity: string, now: nat, counter: nat): string {
    identity + ":" + Decimal(now) + ":" + Decimal(counter)
  }

  lemma {:induction false} DecimalInjective(m: nat, n: nat)
    requires Decimal(m) == Decimal(n)
    ensures m == n
  {
    var digits := "0123456789";
    assert forall i, j :: 0 <= i < j < 10 ==> digits[i] != digits[j];
    var s, t := Decimal(m), Decimal(n);
    assert s[|s| - 1] == digits[m % 10] && t[|t| - 1] == digits[n % 10];
    if m >= 10 && n >= 10 {
      assert s[..|s| - 1] == Decimal(m / 10) && t[..|t| - 1] == Decimal(n / 10);
      DecimalInjective(m / 10, n / 10);
    }
  }

  lemma LastColon(p: string, a: string)
    requires ':' !in a
    ensures var s := p + (":" + a);
            s[|p|] == ':' && (forall i :: |p| < i < |s| ==> s[i] != ':') && s[|p| + 1..] == a
  {
    var s := p + (":" + a);
    forall i | |p| < i < |s|
      ensures s[i] != ':'
    {
      assert s[i] == a[i - |p| - 1];
    }
  }

  /** Tokens of different claims differ as strings, whatever the identity contains and whatever the clock shows. */
  lemma TokensDiffer(identity: string, now: nat, counter: nat, now': nat, counter': nat)
    requires counter != counter'
    ensures Token(identity, now, counter) != Token(identity, now', counter')
  {
    var p, q := identity + ":" + Decimal(now), identity + ":" + Decimal(now');
    LastColon(p, Decimal(counter));
    LastColon(q, Decimal(counter'));
    Regroup(p, ":", Decimal(counter), []);
    Regroup(q, ":", Decimal(counter'), []);
    if Decimal(counter) == Decimal(counter') {
      DecimalInjective(counter, counter');
    }
  }

  // ---- Interleavings ----

  /** The race a sleep awaits: its timer against its stop waiter. The first to settle decides. */
  datatype Race = Pending | Resolved | Rejected

  datatype Pc = AtTop | Running | Sleeping(waiter: nat, race: Race) | Done

  datatype Step =
    | RunCalled
    | Check(l: nat)            // the loop condition
    | IterationSettles(l: nat) // runOnce returned or threw
    | TimerFires(l: nat)
    | SleepRejects(l: nat)
    | Wakes(l: nat)            // the awaited race has settled
    | StopCalled

  datatype Observed = RunOnceStarted(l: nat) | StopRequested

  datatype State = State(core: Core, loops: seq<Pc>, log: seq<Observed>)

  const INITIAL := State(Core(false, [], 0, []), [], [])

  predicate Enabled(s: State, e: Step) {
    match e
    case RunCalled => true
    case StopCalled => true
    case Check(l) => l < |s.loops| && s.loops[l] == AtTop
    case IterationSettles(l) => l < |s.loops| && s.loops[l] == Running
    case TimerFires(l) => l < |s.loops| && s.loops[l].Sleeping? && s.loops[l].race == Pending
    case SleepRejects(l) => l < |s.loops| && s.loops[l].Sleeping? && s.loops[l].race == Pending
    case Wakes(l) => l < |s.loops| && s.loops[l].Sleeping? && s.loops[l].race != Pending
  }

  /** Resolving waiters settles the races that are still open. */
  function Settle(pc: Pc, resolved: seq<nat>): Pc {
    if pc.Sleeping? && pc.race == Pending && pc.waiter in resolved then Sleeping(pc.waiter, Resolved) else pc
  }

  function Next(s: State, e: Step): State
    requires Enabled(s, e)
  {
    match e
    case RunCalled => s.(loops := s.loops + [AtTop])
    case StopCalled =>
      var resolved := if s.core.stopped then [] else s.core.waiters;
      State(Stopped(s.core), Map((pc: Pc) => Settle(pc, resolved), s.loops), s.log + [StopRequested])
    case Check(l) =>
      if s.core.stopped then s.(loops := s.loops[l := Done])
      else s.(loops := s.loops[l := Running], log := s.log + [RunOnceStarted(l)])
    case IterationSettles(l) =>
      if s.core.stopped then s.(loops := s.loops[l := Done])
      else s.(core := Parked(s.core), loops := s.loops[l := Sleeping(s.core.nextWaiter, Pending)])
    case TimerFires(l) => s.(loops := s.loops[l := Sleeping(s.loops[l].waiter, Resolved)])
    case SleepRejects(l) => s.(loops := s.loops[l := Sleeping(s.loops[l].waiter, Rejected)])
    case Wakes(l) =>
      s.(core := Unparked(s.core, s.loops[l].waiter),
         loops := s.loops[l := if s.loops[l].race == Rejected then Done else AtTop])
  }

  ghost predicate IsRun(s: State, steps: seq<Step>)
    decreases |steps|
  {
    steps == [] || (Enabled(s, steps[0]) && IsRun(Next(s, steps[0]), steps[1..]))
  }

  ghost function After(s: State, steps: seq<Step>): State
    requires IsRun(s, steps)
    decreases |steps|
  {
    if steps == [] then s else After(Next(s, steps[0]), steps[1..])
  }

  ghost predicate ParkedOn(s: State, l: nat, w: nat) {
    l < |s.loops| && s.loops[l].Sleeping? && s.loops[l].waiter == w
  }

  /** A parked sleep can still be woken: its waiter is registered, or it has been resolved and the race has settled. */
  ghost predicate CanWake(s: State, l: nat)
    requires l < |s.loops| && s.loops[l].Sleeping?
  {
    || s.loops[l].waiter in s.core.waiters
    || (s.loops[l].waiter in s.core.resolutions && s.loops[l].race != Pending)
  }

  /** Every parked sleep can wake, only parked sleeps have waiters, and no waiter is resolved twice. */
  ghost predicate NoLostWakeup(s: State) {
    && Distinct(s.core.waiters)
    && Distinct(s.core.resolutions)
    && (forall w :: w in s.core.waiters ==> w !in s.core.resolutions)
    && (forall w :: w in s.core.waiters ==> exists l :: ParkedOn(s, l, w))
    && (forall l :: 0 <= l < |s.loops| && s.loops[l].Sleeping? ==> CanWake(s, l))
    && (s.core.stopped ==> s.core.waiters == [])
  }

  ghost predicate NoRunAfterStop(log: seq<Observed>) {
    forall i, j :: 0 <= i < j < |log| && log[i] == StopRequested ==> log[j] == StopRequested
  }

  ghost predicate Invariant(s: State) {
    && NoLostWakeup(s)
    && (forall l :: 0 <= l < |s.loops| && s.loops[l].Sleeping? ==> s.loops[l].waiter < s.core.nextWaiter)
    && (forall w :: w in s.core.waiters || w in s.core.resolutions ==> w < s.core.nextWaiter)
    && (forall l, k :: 0 <= l < k < |s.loops| && s.loops[l].Sleeping? && s.loops[k].Sleeping? ==> s.loops[l].waiter != s.loops[k].waiter)
    && NoRunAfterStop(s.log)
    && (StopRequested in s.log <==> s.core.stopped)
    && (!s.core.stopped ==> s.core.resolutions == [])
  }

  lemma ParkKeeps(s: State, l: nat)
    requires Invariant(s) && Enabled(s, IterationSettles(l))
    ensures Invariant(Next(s, IterationSettles(l)))
  {
    var t := Next(s, IterationSettles(l));
    var n := s.core.nextWaiter;
    forall k, w | k != l
      ensures ParkedOn(t, k, w) <==> ParkedOn(s, k, w)
    {
    }
    if !s.core.stopped {
      assert ParkedOn(t, l, n);
      assert n !in s.core.waiters;
      assert forall i :: 0 <= i < |s.core.waiters| ==> s.core.waiters[i] in s.core.waiters;
      assert Distinct(t.core.waiters);
      forall w | w in t.core.waiters
        ensures exists k :: ParkedOn(t, k, w)
      {
        if w != n {
          var k :| ParkedOn(s, k, w);
          assert ParkedOn(t, k, w);
        }
      }
    }
  }

  lemma StopKeeps(s: State)
    requires Invariant(s)
    ensures Invariant(Next(s, StopCalled))
  {
    var t := Next(s, StopCalled);
    forall l, w
      ensures ParkedOn(t, l, w) <==> ParkedOn(s, l, w)
    {
    }
  }

  lemma WakeKeeps(s: State, l: nat)
    requires Invariant(s) && Enabled(s, Wakes(l))
    ensures Invariant(Next(s, Wakes(l)))
  {
    var t := Next(s, Wakes(l));
    var gone := s.loops[l].waiter;
    forall k, w | k != l
      ensures ParkedOn(t, k, w) <==> ParkedOn(s, k, w)
    {
    }
    assert ParkedOn(s, l, gone);
    forall w | w in t.core.waiters
      ensures exists k :: ParkedOn(t, k, w)
    {
      var k :| ParkedOn(s, k, w);
      assert ParkedOn(t, k, w);
    }
  }

  lemma MoveKeeps(s: State, e: Step)
    requires Invariant(s) && Enabled(s, e)
    requires e.RunCalled? || e.Check? || e.TimerFires? || e.SleepRejects?
    ensures Invariant(Next(s, e))
  {
    var t := Next(s, e);
    forall l, w
      ensures ParkedOn(t, l, w) <==> ParkedOn(s, l, w)
    {
    }
    forall w | w in t.core.waiters
      ensures exists l :: ParkedOn(t, l, w)
    {
      var l :| ParkedOn(s, l, w);
      assert ParkedOn(t, l, w);
    }
  }

  lemma StepKeeps(s: State, e: Step)
    requires Invariant(s) && Enabled(s, e)
    ensures Invariant(Next(s, e))
  {
    match e
    case StopCalled => StopKeeps(s);
    case IterationSettles(l) => ParkKeeps(s, l);
    case Wakes(l) => WakeKeeps(s, l);
    case _ => MoveKeeps(s, e);
  }

  lemma {:induction false} RunKeeps(s: State, steps: seq<Step>)
    requires Invariant(s) && IsRun(s, steps)
    ensures Invariant(After(s, steps))
    decreases |steps|
  {
    if steps != [] {
      StepKeeps(s, steps[0]);
      RunKeeps(Next(s, steps[0]), steps[1..]);
    }
  }

  /**
   In every interleaving: each parked sleep has its waiter registered or already resolved, and in the latter case its race
   has settled; the set is empty when nothing is parked and once stopped; no waiter is resolved twice; nothing starts after a stop.
   */
  lemma EveryRunIsSafe(steps: seq<Step>)
    requires IsRun(INITIAL, steps)
    ensures var s := After(INITIAL, steps);
            && NoLostWakeup(s)
            && Distinct(s.core.resolutions)
            && NoRunAfterStop(s.log)
            && ((forall l :: 0 <= l < |s.loops| ==> !s.loops[l].Sleeping?) ==> s.core.waiters == [])
            && (s.core.stopped ==> forall l :: 0 <= l < |s.loops| && s.loops[l].Sleeping? ==> s.loops[l].race != Pending)
  {
    RunKeeps(INITIAL, steps);
    var s := After(INITIAL, steps);
    if forall l :: 0 <= l < |s.loops| ==> !s.loops[l].Sleeping? {
      if s.core.waiters != [] {
        assert s.core.waiters[0] in s.core.waiters;
      }
    }
    forall l | 0 <= l < |s.loops| && s.loops[l].Sleeping?
      ensures ParkedOn(s, l, s.loops[l].waiter)
    {
    }
  }

  // ---- After a stop ----

  function Weight(pc: Pc): nat {
    match pc
    case Done => 0
    case Sleeping(_, _) => 2
    case _ => 1
  }

  function Work(loops: seq<Pc>): nat {
    if loops == [] then 0 else Weight(loops[0]) + Work(loops[1..])
  }

  lemma {:induction false} WorkUpdate(loops: seq<Pc>, l: nat, pc: Pc)
    requires l < |loops|
    ensures Work(loops[l := pc]) == Work(loops) - Weight(loops[l]) + Weight(pc)
    ensures Work(loops) >= Weight(loops[l])
    decreases |loops|
  {
    if l == 0 {
      assert loops[0 := pc][1..] == loops[1..];
    } else {
      assert loops[l := pc][1..] == loops[1..][l - 1 := pc];
      WorkUpdate(loops[1..], l - 1, pc);
    }
  }

  lemma {:induction false} SettleKeepsWork(loops: seq<Pc>, resolved: seq<nat>)
    ensures Work(Map((pc: Pc) => Settle(pc, resolved), loops)) == Work(loops)
    decreases |loops|
  {
    if loops != [] {
      var settled := Map((pc: Pc) => Settle(pc, resolved), loops);
      assert settled[1..] == Map((pc: Pc) => Settle(pc, resolved), loops[1..]);
      SettleKeepsWork(loops[1..], resolved);
    }
  }

  /** Once stopped, every step of a loop uses up work, so loops end after at most `Work` more of their own steps. */
  lemma StoppedLoopsWindDown(s: State, e: Step)
    requires Invariant(s) && s.core.stopped && Enabled(s, e) && !e.RunCalled?
    ensures Next(s, e).core.stopped
    ensures if e.StopCalled? then Work(Next(s, e).loops) == Work(s.loops) else Work(Next(s, e).loops) < Work(s.loops)
  {
    match e
    case StopCalled => SettleKeepsWork(s.loops, []);
    case Check(l) => WorkUpdate(s.loops, l, Done);
    case IterationSettles(l) => WorkUpdate(s.loops, l, Done);
    case TimerFires(l) => assert false;
    case SleepRejects(l) => assert false;
    case Wakes(l) => WorkUpdate(s.loops, l, Next(s, e).loops[l]);
    case RunCalled =>
  }

  function LoopSteps(steps: seq<Step>): nat {
    if steps == [] then 0 else (if steps[0].StopCalled? then 0 else 1) + LoopSteps(steps[1..])
  }

  /** Graceful stop: after a stop, with no new loop started, at most `Work` loop steps remain in any continuation. */
  lemma {:induction false} StopIsGraceful(s: State, steps: seq<Step>)
    requires Invariant(s) && s.core.stopped && IsRun(s, steps)
    requires forall e :: e in steps ==> !e.RunCalled?
    ensures LoopSteps(steps) + Work(After(s, steps).loops) <= Work(s.loops)
    decreases |steps|
  {
    if steps != [] {
      assert steps[0] in steps;
      StepKeeps(s, steps[0]);
      StoppedLoopsWindDown(s, steps[0]);
      StopIsGraceful(Next(s, steps[0]), steps[1..]);
    }
  }

  /** And it never gets stuck: a stopped daemon with an unfinished loop can take a step of that loop. */
  lemma StoppedLoopCanMove(s: State, l: nat)
    requires Invariant(s) && s.core.stopped && l < |s.loops| && s.loops[l] != Done
    ensures Enabled(s, Check(l)) || Enabled(s, IterationSettles(l)) || Enabled(s, Wakes(l))
  {
    if s.loops[l].Sleeping? {
      assert ParkedOn(s, l, s.loops[l].waiter);
    }
  }
}
