/** The bounded wait of the runtime dogfood: run the remote worker, look at four facts, sleep, until all is well or time is up. */
module Polling {
  import opened Prelude

  datatype Code =
    | RemoteWorkerTimedOut
    | RemoteWorkerFailed
    | RuntimeJobFailed
    | ActionFailed
    | RunExecutionFailed
    | NotReady(code: string)
    | OtherBlocker(code: string)

  /** Blockers are the errors the program knows; anything else is passed on as it is. */
  datatype Error = Blocked(code: Code) | Crash(message: string)

  /** How a race between the worker and the deadline ends; a blocker thrown by the worker keeps its code. */
  datatype WorkerReply = Finished | StillRunning | ThrewBlocker(code: Code) | ThrewOther(message: string)

  /** A runtime job: not terminal, terminal with success, or terminal in any other way. */
  datatype Job = JobOpen | JobSucceeded | JobUnsuccessful

  /** An action run as the snapshot shows it; `Unlisted` when it is not among the recent ones. */
  datatype Action = Unlisted | ActionOpen | ActionSucceeded | ActionUnsuccessful

  /** A run session; `Unavailable` is an answer that is not an HTTP success, which the source takes for no news. */
  datatype RunSession = Unavailable | RunOpen | RunUnsuccessful

  /**
   One wait. Everything outside the program is a function of the instant at which it is read: instants are numbered in the
   order of the program's own steps, `clock` gives their wall-clock time, and a sleep begun at instant t ends at `wake(t)`.
   */
  datatype Wait<!T> = Wait(
    blockerCode: string,
    timeout: nat,
    interval: nat,
    jobId: Option<string>,
    actionId: Option<string>,
    runId: Option<string>,
    clock: nat -> int,
    wake: nat -> nat,
    worker: nat -> WorkerReply,
    observe: nat -> Result<Option<T>, Error>,
    job: nat -> Result<Job, Error>,
    action: nat -> Result<Action, Error>,
    run: nat -> Result<RunSession, Error>)

  ghost predicate Monotone<T>(w: Wait<T>) {
    forall t: nat, u: nat :: t <= u ==> w.clock(t) <= w.clock(u)
  }

  /** A sleep lasts its interval at least. */
  ghost predicate Sleeps<T>(w: Wait<T>) {
    forall t: nat :: t < w.wake(t) && w.clock(t) + w.interval <= w.clock(w.wake(t))
  }

  ghost predicate RoundsTakeTime<T>(w: Wait<T>) {
    forall t: nat {:trigger w.wake(t + 6)} :: w.clock(t) < w.clock(w.wake(t + 6))
  }

  /** What is assumed of time: it does not go back, and each sleep and each round of the loop takes some of it. */
  ghost predicate Ticks<T>(w: Wait<T>) {
    Monotone(w) && Sleeps(w) && RoundsTakeTime(w)
  }

  /** The calls a wait makes, with the instant of each. */
  datatype Step = RunWorker(at: nat) | Observe(at: nat) | InspectJob(at: nat) | InspectAction(at: nat) | InspectRun(at: nat)

  /** A round that starts at instant t reads the clock at t, t + 1 and t + 6, and makes these calls between. */
  function RoundSteps(t: nat): seq<Step> {
    [RunWorker(t + 1), Observe(t + 2), InspectJob(t + 3), InspectAction(t + 4), InspectRun(t + 5)]
  }

  function StepsOf(rounds: seq<nat>): seq<Step> {
    if rounds == [] then [] else StepsOf(rounds[..|rounds| - 1]) + RoundSteps(rounds[|rounds| - 1])
  }

  // ---- The pieces ----

  function InvokeRemoteWorkerOnceWithinDeadline<T>(w: Wait<T>, deadline: int, at: nat): Option<Error> {
    if deadline - w.clock(at) <= 0 then Some(Blocked(RemoteWorkerTimedOut))
    else
      match w.worker(at)
      case Finished => None
      case StillRunning => Some(Blocked(RemoteWorkerTimedOut))
      case ThrewBlocker(code) => Some(Blocked(code))
      case ThrewOther(_) => Some(Blocked(RemoteWorkerFailed))
  }

  function InspectRuntimeJob<T>(w: Wait<T>, at: nat): Result<bool, Error> {
    if w.jobId.None? then Success(true)
    else
      var job :- w.job(at);
      match job
      case JobOpen => Success(false)
      case JobSucceeded => Success(true)
      case JobUnsuccessful => Failure(Blocked(RuntimeJobFailed))
  }

  function InspectActionRun<T>(w: Wait<T>, at: nat): Result<bool, Error> {
    if w.actionId.None? then Success(true)
    else
      var action :- w.action(at);
      match action
      case Unlisted => Success(false)
      case ActionOpen => Success(false)
      case ActionSucceeded => Success(true)
      case ActionUnsuccessful => Failure(Blocked(ActionFailed))
  }

  function ThrowIfRunSessionFailed<T>(w: Wait<T>, at: nat): Option<Error> {
    if w.runId.None? then None
    else
      match w.run(at)
      case Failure(error) => Some(error)
      case Success(session) => if session == RunUnsuccessful then Some(Blocked(RunExecutionFailed)) else None
  }

  // ---- What one round can do ----

  predicate JobFine<T>(w: Wait<T>, at: nat) {
    w.jobId.Some? ==> w.job(at) == Success(JobSucceeded)
  }

  predicate ActionFine<T>(w: Wait<T>, at: nat) {
    w.actionId.Some? ==> w.action(at) == Success(ActionSucceeded)
  }

  predicate JobBad<T>(w: Wait<T>, at: nat) {
    w.jobId.Some? && (w.job(at).Failure? || w.job(at).value == JobUnsuccessful)
  }

  predicate ActionBad<T>(w: Wait<T>, at: nat) {
    w.actionId.Some? && (w.action(at).Failure? || w.action(at).value == ActionUnsuccessful)
  }

  predicate RunBad<T>(w: Wait<T>, at: nat) {
    w.runId.Some? && (w.run(at).Failure? || w.run(at).value == RunUnsuccessful)
  }

  /** Nothing in the round throws before the final look at the clock. */
  predicate Quiet<T>(w: Wait<T>, deadline: int, t: nat) {
    && w.clock(t) < deadline
    && w.clock(t + 1) < deadline
    && w.worker(t + 1) == Finished
    && w.observe(t + 2).Success?
    && !JobBad(w, t + 3)
    && !ActionBad(w, t + 4)
    && !RunBad(w, t + 5)
  }

  predicate AllSeen<T>(w: Wait<T>, t: nat) {
    w.observe(t + 2).Success? && w.observe(t + 2).value.Some? && JobFine(w, t + 3) && ActionFine(w, t + 4)
  }

  /** The round returns `value`. */
  predicate Concludes<T(==)>(w: Wait<T>, deadline: int, t: nat, value: T) {
    Quiet(w, deadline, t) && AllSeen(w, t) && w.observe(t + 2) == Success(Some(value))
  }

  /** The round is followed by a sleep and another round. */
  predicate GoesOn<T>(w: Wait<T>, deadline: int, t: nat) {
    Quiet(w, deadline, t) && !AllSeen(w, t) && w.clock(t + 6) < deadline
  }

  /** The blocker or error that a round throws: the first thing that goes wrong in it. */
  ghost predicate Throws<T>(w: Wait<T>, deadline: int, t: nat, error: Error) {
    if w.clock(t) >= deadline then error == Blocked(NotReady(w.blockerCode))
    else if w.clock(t + 1) >= deadline || w.worker(t + 1) == StillRunning then error == Blocked(RemoteWorkerTimedOut)
    else if w.worker(t + 1).ThrewBlocker? then error == Blocked(w.worker(t + 1).code)
    else if w.worker(t + 1).ThrewOther? then error == Blocked(RemoteWorkerFailed)
    else if w.observe(t + 2).Failure? then error == w.observe(t + 2).error
    else if JobBad(w, t + 3) then error == if w.job(t + 3).Failure? then w.job(t + 3).error else Blocked(RuntimeJobFailed)
    else if ActionBad(w, t + 4) then error == if w.action(t + 4).Failure? then w.action(t + 4).error else Blocked(ActionFailed)
    else if RunBad(w, t + 5) then error == if w.run(t + 5).Failure? then w.run(t + 5).error else Blocked(RunExecutionFailed)
    else !AllSeen(w, t) && w.clock(t + 6) >= deadline && error == Blocked(NotReady(w.blockerCode))
  }

  /** The rounds of a wait begun at `start`: each begins when the sleep of the one before ends. */
  predicate Chain<T>(w: Wait<T>, start: nat, rounds: seq<nat>) {
    && |rounds| > 0
    && rounds[0] == start + 1
    && forall i :: 0 < i < |rounds| ==> rounds[i] == w.wake(rounds[i - 1] + 6)
  }

  function Deadline<T>(w: Wait<T>, start: nat): int {
    w.clock(start) + w.timeout
  }

  /** A whole wait: every round but the last goes on, and the last one gives the result. */
  ghost predicate IsWait<T>(w: Wait<T>, start: nat, rounds: seq<nat>, r: Result<T, Error>) {
    && Chain(w, start, rounds)
    && (forall i :: 0 <= i < |rounds| - 1 ==> GoesOn(w, Deadline(w, start), rounds[i]))
    && (match r
        case Success(value) => Concludes(w, Deadline(w, start), rounds[|rounds| - 1], value)
        case Failure(error) => Throws(w, Deadline(w, start), rounds[|rounds| - 1], error))
  }

  /** How a round ends. */
  datatype Ending<+T> = Returned(value: T) | Threw(error: Error) | Slept

  ghost predicate EndsWith<T>(w: Wait<T>, deadline: int, t: nat, ending: Ending<T>) {
    match ending
    case Returned(value) => Concludes(w, deadline, t, value)
    case Threw(error) => Throws(w, deadline, t, error)
    case Slept => GoesOn(w, deadline, t)
  }

  /** The body of the loop up to the sleep. */
  method PollOnce<T>(w: Wait<T>, deadline: int, t: nat) returns (ending: Ending<T>, steps: seq<Step>, end: nat)
    ensures EndsWith(w, deadline, t, ending)
    ensures steps <= RoundSteps(t)
    ensures !ending.Threw? ==> steps == RoundSteps(t)
    ensures t <= end <= t + 6
  {
    if w.clock(t) >= deadline {
      return Threw(Blocked(NotReady(w.blockerCode))), [], t;
    }
    var worker := InvokeRemoteWorkerOnceWithinDeadline(w, deadline, t + 1);
    if worker.Some? {
      return Threw(worker.value), if w.clock(t + 1) >= deadline then [] else RoundSteps(t)[..1], t + 1;
    }
    var observed := w.observe(t + 2);
    if observed.Failure? {
      return Threw(observed.error), RoundSteps(t)[..2], t + 2;
    }
    var job := InspectRuntimeJob(w, t + 3);
    if job.Failure? {
      return Threw(job.error), RoundSteps(t)[..3], t + 3;
    }
    var action := InspectActionRun(w, t + 4);
    if action.Failure? {
      return Threw(action.error), RoundSteps(t)[..4], t + 4;
    }
    var run := ThrowIfRunSessionFailed(w, t + 5);
    if run.Some? {
      return Threw(run.value), RoundSteps(t), t + 5;
    }
    if observed.value.Some? && job.value && action.value {
      return Returned(observed.value.value), RoundSteps(t), t + 5;
    }
    if w.clock(t + 6) >= deadline {
      return Threw(Blocked(NotReady(w.blockerCode))), RoundSteps(t), t + 6;
    }
    return Slept, RoundSteps(t), t + 6;
  }

  method InvokeRemoteWorkerUntil<T>(w: Wait<T>, start: nat)
    returns (r: Result<T, Error>, rounds: seq<nat>, steps: seq<Step>, end: nat)
    requires Ticks(w)
    ensures IsWait(w, start, rounds, r)
    ensures StepsOf(rounds[..|rounds| - 1]) <= steps <= StepsOf(rounds)
    ensures r.Success? ==> steps == StepsOf(rounds)
    ensures start < end
  {
    hide Ticks, Monotone, Sleeps, RoundsTakeTime, GoesOn, Concludes, Throws, RoundSteps, Chain;
    var deadline := w.clock(start) + w.timeout;
    var t := start + 1;
    rounds, steps := [], [];
    ChainBegins(w, start);
    while true
      invariant start < t
      invariant forall i :: 0 <= i < |rounds| ==> GoesOn(w, deadline, rounds[i])
      invariant Chain(w, start, rounds + [t])
      invariant steps == StepsOf(rounds)
      decreases deadline - w.clock(t)
    {
      var ending, more, last := PollOnce(w, deadline, t);
      ghost var before := rounds;
      rounds, steps, end := rounds + [t], steps + more, last;
      assert rounds[..|rounds| - 1] == before;
      assert StepsOf(rounds) == StepsOf(before) + RoundSteps(t);
      match ending
      case Returned(value) => return Success(value), rounds, steps, end;
      case Threw(error) => return Failure(error), rounds, steps, end;
      case Slept =>
        SleepTakesTime(w, deadline, t);
        ChainGoesOn(w, start, before, t);
        t := w.wake(t + 6);
    }
  }

  lemma ChainBegins<T>(w: Wait<T>, start: nat)
    ensures Chain(w, start, [] + [start + 1])
  {
  }

  lemma ChainGoesOn<T>(w: Wait<T>, start: nat, rounds: seq<nat>, t: nat)
    requires Chain(w, start, rounds + [t])
    ensures Chain(w, start, rounds + [t] + [w.wake(t + 6)])
  {
  }

  lemma SleepTakesTime<T>(w: Wait<T>, deadline: int, t: nat)
    requires Ticks(w) && GoesOn(w, deadline, t)
    ensures w.clock(t) < deadline && w.clock(t + 6) < deadline
    ensures t < w.wake(t + 6) && w.clock(t) < w.clock(w.wake(t + 6)) && w.clock(t) + w.interval <= w.clock(w.wake(t + 6))
  {
    hide Monotone, Sleeps, RoundsTakeTime;
    ReadIncreasing(w, t, t + 6);
    ReadSleep(w, t + 6);
    ReadRound(w, t);
  }

  lemma ReadIncreasing<T>(w: Wait<T>, t: nat, u: nat)
    requires Monotone(w) && t <= u
    ensures w.clock(t) <= w.clock(u)
  {
  }

  lemma ReadSleep<T>(w: Wait<T>, t: nat)
    requires Sleeps(w)
    ensures t < w.wake(t) && w.clock(t) + w.interval <= w.clock(w.wake(t))
  {
  }

  lemma ReadRound<T>(w: Wait<T>, t: nat)
    requires RoundsTakeTime(w)
    ensures w.clock(t) < w.clock(w.wake(t + 6))
  {
  }

  // ---- What a wait means ----

  /** Facts that do not change back: an observation stays available, a success stays one, a failed session stays failed. */
  ghost predicate Stable<T>(w: Wait<T>) {
    forall t: nat, u: nat | t <= u ::
      && (w.observe(t).Success? && w.observe(t).value.Some? ==> w.observe(u).Success? && w.observe(u).value.Some?)
      && (JobFine(w, t) ==> JobFine(w, u))
      && (ActionFine(w, t) ==> ActionFine(w, u))
  }

  /** The session's real state, of which an answer, when there is one, is a true report; failures are final. */
  ghost predicate Reports<T>(w: Wait<T>, failed: nat -> bool) {
    && (forall t: nat, u: nat | t <= u :: failed(t) ==> failed(u))
    && (forall t: nat :: w.run(t) == Success(RunUnsuccessful) ==> failed(t))
    && (forall t: nat :: w.run(t) == Success(RunOpen) ==> !failed(t))
  }

  /**
   A value comes back only if, at the instant of the last inspection, the observation, the job's success and the action's
   success hold together; and if that inspection got an answer, the run session has not failed up to then.
   */
  lemma ReturnedFactsHoldTogether<T(!new)>(w: Wait<T>, start: nat, rounds: seq<nat>, value: T, failed: nat -> bool)
    requires IsWait(w, start, rounds, Success(value)) && Stable(w) && Reports(w, failed)
    ensures var now := rounds[|rounds| - 1] + 5;
            && w.observe(now).Success?
            && w.observe(now).value.Some?
            && JobFine(w, now)
            && ActionFine(w, now)
            && (w.runId.Some? && w.run(now) != Success(Unavailable) ==> forall t: nat :: t <= now ==> !failed(t))
  {
    var t := rounds[|rounds| - 1];
    assert Concludes(w, Deadline(w, start), t, value);
    assert t + 2 <= t + 5 && t + 3 <= t + 5 && t + 4 <= t + 5;
  }

  /** Whatever the session's real state, as far as its readings tell the truth, it has not failed by this instant. */
  ghost predicate FailureRuledOut<T>(w: Wait<T>, now: nat) {
    forall failed: nat -> bool :: Reports(w, failed) ==> !failed(now)
  }

  ghost predicate ReadOpenFrom<T>(w: Wait<T>, now: nat) {
    exists t: nat :: now <= t && w.run(t) == Success(RunOpen)
  }

  /**
   What a returned value says of the run session, exactly: that it has not failed up to the last inspection is certain if and only if
   the session reads open at that inspection or at some later instant.
   */
  lemma FailureRuledOutExactly<T(!new)>(w: Wait<T>, start: nat, rounds: seq<nat>, value: T, truth: nat -> bool)
    requires IsWait(w, start, rounds, Success(value)) && Reports(w, truth)
    ensures var now := rounds[|rounds| - 1] + 5;
            FailureRuledOut(w, now) <==> ReadOpenFrom(w, now)
  {
    var now := rounds[|rounds| - 1] + 5;
    hide IsWait;
    if ReadOpenFrom(w, now) {
      var t: nat :| now <= t && w.run(t) == Success(RunOpen);
      forall failed: nat -> bool | Reports(w, failed)
        ensures !failed(now)
      {
        assert !failed(t);
      }
    } else {
      var failed := (t: nat) => truth(t) || now <= t;
      assert Reports(w, failed) && failed(now);
    }
  }

  /** A wait for a run session that has failed but cannot be read; everything else is as it should be. */
  ghost predicate IsUnreadable(w: Wait<bool>) {
    && w.runId.Some? && w.jobId.None? && w.actionId.None? && w.timeout == 600000 && w.interval == 1000
    && (forall t: nat :: w.clock(t) == 1000 * t && w.wake(t) == t + 1)
    && (forall t: nat :: w.worker(t) == Finished && w.observe(t) == Success(Some(true)) && w.run(t) == Success(Unavailable))
  }

  lemma UnreadableExists() returns (w: Wait<bool>)
    ensures IsUnreadable(w)
  {
    w := Wait("evidence_missing", 600000, 1000, None, None, Some("run"), (t: nat) => 1000 * t, (t: nat) => t + 1, (t: nat) => Finished,
      (t: nat) => Success(Some(true)), (t: nat) => Success(JobOpen), (t: nat) => Success(Unlisted), (t: nat) => Success(Unavailable));
  }

  /** It can be uncertain: when the session cannot be read, a wait returns although the session has failed. */
  lemma UnreadableSessionHidesFailure()
    ensures exists w: Wait<bool>, failed: nat -> bool ::
              IsWait(w, 0, [1], Success(true)) && Ticks(w) && Stable(w) && Reports(w, failed) && w.runId.Some? && failed(0)
  {
    hide IsWait, Ticks, Stable, Reports;
    var w := UnreadableExists();
    var failed := (t: nat) => true;
    UnreadableReturns(w);
    UnreadableTicks(w);
    UnreadableReports(w, failed);
    assert failed(0);
  }

  lemma UnreadableReports(w: Wait<bool>, failed: nat -> bool)
    requires IsUnreadable(w) && forall t: nat :: failed(t)
    ensures Stable(w) && Reports(w, failed)
  {
  }

  lemma UnreadableReturns(w: Wait<bool>)
    requires IsUnreadable(w)
    ensures IsWait(w, 0, [1], Success(true))
  {
    assert w.clock(0) == 0 && w.clock(1) == 1000 && w.clock(2) == 2000 && w.worker(2) == Finished && w.observe(3) == Success(Some(true));
    assert w.run(6) == Success(Unavailable);
    hide IsUnreadable;
  }

  lemma UnreadableTicks(w: Wait<bool>)
    requires IsUnreadable(w)
    ensures Ticks(w)
  {
    assert Monotone(w) && Sleeps(w);
    hide Monotone, Sleeps;
    forall t: nat
      ensures w.clock(t) < w.clock(w.wake(t + 6))
    {
      assert w.wake(t + 6) == t + 7;
    }
    assert RoundsTakeTime(w);
  }

  /** A round does one thing only, so what a wait returns or throws is determined. */
  lemma RoundIsDetermined<T(!new)>(w: Wait<T>, deadline: int, t: nat)
    ensures (exists v :: Concludes(w, deadline, t, v)) <==> Quiet(w, deadline, t) && AllSeen(w, t)
    ensures GoesOn(w, deadline, t) ==> !(exists v :: Concludes(w, deadline, t, v)) && !(exists e :: Throws(w, deadline, t, e))
    ensures (exists v :: Concludes(w, deadline, t, v)) ==> !(exists e :: Throws(w, deadline, t, e))
    ensures forall v, v' :: Concludes(w, deadline, t, v) && Concludes(w, deadline, t, v') ==> v == v'
    ensures forall e, e' :: Throws(w, deadline, t, e) && Throws(w, deadline, t, e') ==> e == e'
    ensures GoesOn(w, deadline, t) || (exists v :: Concludes(w, deadline, t, v)) || (exists e :: Throws(w, deadline, t, e))
  {
    if Quiet(w, deadline, t) && AllSeen(w, t) {
      assert Concludes(w, deadline, t, w.observe(t + 2).value.value);
    } else if !GoesOn(w, deadline, t) {
      var e :=
        if w.clock(t) >= deadline then Blocked(NotReady(w.blockerCode))
        else if w.clock(t + 1) >= deadline || w.worker(t + 1) == StillRunning then Blocked(RemoteWorkerTimedOut)
        else if w.worker(t + 1).ThrewBlocker? then Blocked(w.worker(t + 1).code)
        else if w.worker(t + 1).ThrewOther? then Blocked(RemoteWorkerFailed)
        else if w.observe(t + 2).Failure? then w.observe(t + 2).error
        else if JobBad(w, t + 3) then if w.job(t + 3).Failure? then w.job(t + 3).error else Blocked(RuntimeJobFailed)
        else if ActionBad(w, t + 4) then if w.action(t + 4).Failure? then w.action(t + 4).error else Blocked(ActionFailed)
        else if RunBad(w, t + 5) then if w.run(t + 5).Failure? then w.run(t + 5).error else Blocked(RunExecutionFailed)
        else Blocked(NotReady(w.blockerCode));
      assert Throws(w, deadline, t, e);
    }
  }

  /** Two waits that start at the same instant are the same wait. */
  lemma WaitIsDetermined<T(!new)>(w: Wait<T>, start: nat, a: seq<nat>, r: Result<T, Error>, b: seq<nat>, r': Result<T, Error>)
    requires IsWait(w, start, a, r) && IsWait(w, start, b, r')
    ensures a == b && r == r'
  {
    if |a| <= |b| {
      NotShorter(w, start, a, r, b, r');
    } else {
      NotShorter(w, start, b, r', a, r);
    }
  }

  lemma NotShorter<T(!new)>(w: Wait<T>, start: nat, a: seq<nat>, r: Result<T, Error>, b: seq<nat>, r': Result<T, Error>)
    requires IsWait(w, start, a, r) && IsWait(w, start, b, r') && |a| <= |b|
    ensures a == b && r == r'
  {
    hide GoesOn, Concludes, Throws;
    var d, n := Deadline(w, start), |a| - 1;
    forall i | 0 <= i <= n
      ensures a[i] == b[i]
    {
      SameRound(w, start, a, b, i);
    }
    RoundIsDetermined(w, d, a[n]);
    if n < |b| - 1 {
      assert false;
    }
  }

  lemma {:induction false} SameRound<T>(w: Wait<T>, start: nat, a: seq<nat>, b: seq<nat>, i: nat)
    requires Chain(w, start, a) && Chain(w, start, b) && i < |a| <= |b|
    ensures a[i] == b[i]
  {
    if i > 0 {
      SameRound(w, start, a, b, i - 1);
      assert a[i] == w.wake(a[i - 1] + 6) && b[i] == w.wake(b[i - 1] + 6);
    }
  }

  /** Once nothing is wrong any more and all is seen, the first round from then on returns, if it begins in time. */
  lemma SettledWaitReturns<T>(w: Wait<T>, start: nat, rounds: seq<nat>, r: Result<T, Error>, settled: nat, i: nat)
    requires IsWait(w, start, rounds, r) && i < |rounds| && settled <= rounds[i]
    requires forall t: nat | settled <= t :: w.worker(t) == Finished && AllSeen(w, t) && !RunBad(w, t)
    requires w.clock(rounds[i]) < Deadline(w, start) && w.clock(rounds[i] + 1) < Deadline(w, start)
    ensures i == |rounds| - 1 && r.Success?
  {
    var t := rounds[i];
    assert AllSeen(w, t);
    assert Quiet(w, Deadline(w, start), t);
  }

  /** No call outside answers with the wait's own blocker. */
  ghost predicate OthersSayOtherwise<T>(w: Wait<T>) {
    var own := Blocked(NotReady(w.blockerCode));
    forall t: nat ::
      && (w.worker(t).ThrewBlocker? ==> Blocked(w.worker(t).code) != own)
      && w.observe(t) != Failure(own)
      && w.job(t) != Failure(own)
      && w.action(t) != Failure(own)
      && w.run(t) != Failure(own)
  }

  /** The wait's own blocker is thrown only when the deadline has passed. */
  lemma GivesUpOnlyWhenLate<T>(w: Wait<T>, start: nat, rounds: seq<nat>)
    requires IsWait(w, start, rounds, Failure(Blocked(NotReady(w.blockerCode)))) && Ticks(w) && OthersSayOtherwise(w)
    ensures Deadline(w, start) <= w.clock(rounds[|rounds| - 1] + 6)
  {
    hide Monotone, Sleeps, RoundsTakeTime;
    var t := rounds[|rounds| - 1];
    ReadIncreasing(w, t, t + 6);
    var own := Blocked(NotReady(w.blockerCode));
    assert Throws(w, Deadline(w, start), t, own);
    assert w.observe(t + 2) != Failure(own) && w.job(t + 3) != Failure(own) && w.action(t + 4) != Failure(own) && w.run(t + 5) != Failure(own);
  }

  /** A wait sleeps for its interval between rounds, so its rounds fit into the time-out. */
  lemma {:induction false} RoundsFitTheTimeout<T>(w: Wait<T>, start: nat, rounds: seq<nat>, r: Result<T, Error>, n: nat)
    requires Ticks(w) && IsWait(w, start, rounds, r) && n < |rounds|
    ensures w.clock(start) + n * w.interval <= w.clock(rounds[n])
    ensures n + 1 < |rounds| ==> n * w.interval < w.timeout
  {
    hide GoesOn, Concludes, Throws, Monotone, Sleeps, RoundsTakeTime;
    if n > 0 {
      RoundsFitTheTimeout(w, start, rounds, r, n - 1);
      assert n * w.interval == (n - 1) * w.interval + w.interval;
      SleepTakesTime(w, Deadline(w, start), rounds[n - 1]);
    } else {
      ReadIncreasing(w, start, start + 1);
    }
    if n + 1 < |rounds| {
      SleepTakesTime(w, Deadline(w, start), rounds[n]);
    }
  }

  /** A positive poll interval is enough for a round to take time. */
  lemma PositiveIntervalTicks<T>(w: Wait<T>)
    requires Monotone(w)
    requires forall t: nat :: t < w.wake(t) && w.clock(t) + w.interval <= w.clock(w.wake(t))
    requires w.interval > 0
    ensures Ticks(w)
  {
    forall t: nat
      ensures w.clock(t) < w.clock(w.wake(t + 6))
    {
    }
  }
}
