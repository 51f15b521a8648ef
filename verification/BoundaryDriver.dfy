/** The boundary conversation driver of the runtime dogfood: a loop over the states of a server session, with a session cache. */
module BoundaryDriver {
  import opened Prelude
  import opened BoundaryRecord
  import opened BoundaryRuns
  import P = Polling
  import E = Evidence

  /** The answer to an approval; the approved revision may be under any of three names, or none. */
  datatype Approval = Approval(summaryRevision: Option<string>, id: Option<string>, revision: Option<string>)

  function ApprovedRevision(approval: Approval, asked: string): string {
    match (approval.summaryRevision, approval.id, approval.revision)
    case (Some(r), _, _) => r
    case (None, Some(r), _) => r
    case (None, None, Some(r)) => r
    case (None, None, None) => asked
  }

  /** Every answer from outside, by the instant of the call: any sequence of well-typed answers, or none where a call throws. */
  datatype Server = Server(
    worker: nat -> P.WorkerReply,
    create: nat -> Result<string, P.Error>,
    fetch: nat -> Result<Session, P.Error>,
    post: nat -> Option<P.Error>,
    approve: nat -> Result<Approval, P.Error>,
    inspect: nat -> Result<P.Job, P.Error>,
    schemas: nat -> Result<seq<string>, P.Error>,
    appServer: nat -> Result<seq<string>, P.Error>,
    cleanup: nat -> Result<E.Cleanup, P.Error>)

  datatype Settings = Settings(maxAiTurns: nat, timeout: nat, interval: nat, clock: nat -> int, wake: nat -> nat)

  // ---- Waiting for a turn ----

  /** A session still in its AI turn, by the server's own word, is no observation yet. */
  function ObserveSession(server: Server, at: nat): Result<Option<Session>, P.Error> {
    var s :- server.fetch(at);
    Success(if s.status == Some(AiTurnRunning) then None else Some(s))
  }

  function TurnWait(server: Server, settings: Settings, job: Option<string>): P.Wait<Session> {
    P.Wait("codex_runtime_superpowers_dogfood_boundary_state_missing", settings.timeout, settings.interval, job, None, None,
      settings.clock, settings.wake, server.worker, (t: nat) => ObserveSession(server, t), server.inspect,
      (t: nat) => Success(P.Unlisted), (t: nat) => Success(P.Unavailable))
  }

  function Answered<T, Error>(r: Result<T, Error>): Option<T> {
    if r.Success? then Some(r.value) else None
  }

  function Inspection(server: Server, job: Option<string>, at: nat): seq<Act> {
    if job.Some? then [InspectJob(job.value, Answered(server.inspect(at)))] else []
  }

  function StepActs(server: Server, job: Option<string>, step: P.Step): seq<Act> {
    match step
    case RunWorker(_) => [RunWorker]
    case Observe(t) => [Fetch(Answered(server.fetch(t)))]
    case InspectJob(t) => Inspection(server, job, t)
    case InspectAction(_) => []
    case InspectRun(_) => []
  }

  function WaitActs(server: Server, job: Option<string>, steps: seq<P.Step>): seq<Act> {
    if steps == [] then []
    else WaitActs(server, job, steps[..|steps| - 1]) + StepActs(server, job, steps[|steps| - 1])
  }

  /** The session cache after these calls. */
  function LastFetched(cached: Option<Session>, acts: seq<Act>): Option<Session> {
    if acts == [] then cached
    else
      var n := |acts| - 1;
      if acts[n].Fetch? && acts[n].answer.Some? then acts[n].answer else LastFetched(cached, acts[..n])
  }

  predicate IsWaiting(a: Act) {
    a.RunWorker? || a.Fetch? || a.InspectJob?
  }

  predicate AllWaiting(acts: seq<Act>) {
    forall i :: 0 <= i < |acts| ==> IsWaiting(acts[i])
  }

  lemma {:induction false} OnlyWaiting(server: Server, job: Option<string>, steps: seq<P.Step>)
    ensures AllWaiting(WaitActs(server, job, steps))
    decreases |steps|
  {
    if steps != [] {
      var n := |steps| - 1;
      var before, more := WaitActs(server, job, steps[..n]), StepActs(server, job, steps[n]);
      OnlyWaiting(server, job, steps[..n]);
      assert AllWaiting(more);
      BothWaiting(before, more);
    }
  }

  lemma BothWaiting(a: seq<Act>, b: seq<Act>)
    requires AllWaiting(a) && AllWaiting(b)
    ensures AllWaiting(a + b)
  {
  }

  lemma WaitActsMore(server: Server, job: Option<string>, steps: seq<P.Step>, step: P.Step)
    ensures WaitActs(server, job, steps + [step]) == WaitActs(server, job, steps) + StepActs(server, job, step)
  {
    assert (steps + [step])[..|steps|] == steps;
  }

  lemma RoundActs(server: Server, job: Option<string>, steps: seq<P.Step>, t: nat)
    ensures WaitActs(server, job, steps + P.RoundSteps(t)) ==
            WaitActs(server, job, steps) + [RunWorker, Fetch(Answered(server.fetch(t + 2)))] + Inspection(server, job, t + 3)
  {
    hide WaitActs;
    var more := P.RoundSteps(t);
    assert steps + more[..1] == steps + [more[0]] && steps + more[..2] == (steps + more[..1]) + [more[1]];
    assert steps + more[..3] == (steps + more[..2]) + [more[2]] && steps + more[..4] == (steps + more[..3]) + [more[3]];
    assert steps + more == (steps + more[..4]) + [more[4]];
    WaitActsMore(server, job, steps, more[0]);
    WaitActsMore(server, job, steps + more[..1], more[1]);
    WaitActsMore(server, job, steps + more[..2], more[2]);
    WaitActsMore(server, job, steps + more[..3], more[3]);
    WaitActsMore(server, job, steps + more[..4], more[4]);
  }

  lemma FetchedAtEnd(cached: Option<Session>, acts: seq<Act>, s: Session, tail: seq<Act>)
    requires tail == [] || (|tail| == 1 && tail[0].InspectJob?)
    ensures LastFetched(cached, acts + [Fetch(Some(s))] + tail) == Some(s)
  {
    var all := acts + [Fetch(Some(s))];
    assert LastFetched(cached, all) == Some(s);
    if tail == [] {
      assert all + tail == all;
    } else {
      assert (all + tail)[..|all|] == all;
    }
  }

  /** The session that ends a wait was read after its last worker run, is the one in the cache, and has left its turn. */
  lemma WaitEndsFresh(server: Server, settings: Settings, job: Option<string>, start: nat, rounds: seq<nat>, s: Session, trace: seq<Act>, cached: Option<Session>)
    requires P.IsWait(TurnWait(server, settings, job), start, rounds, Success(s))
    ensures var acts := WaitActs(server, job, P.StepsOf(rounds));
            FreshAt(trace + acts, s) && LastFetched(cached, acts) == Some(s) && EndsTurn(acts, job, s)
  {
    hide P.IsWait, TurnWait, FreshAt, LastFetched, WaitActs;
    LastRound(server, settings, job, start, rounds, s);
    var n := |rounds| - 1;
    var t, before := rounds[n], P.StepsOf(rounds[..n]);
    RoundActs(server, job, before, t);
    assert P.StepsOf(rounds) == before + P.RoundSteps(t);
    hide P.StepsOf, P.RoundSteps;
    var acts, head, tail := WaitActs(server, job, before + P.RoundSteps(t)), WaitActs(server, job, before) + [RunWorker], Inspection(server, job, t + 3);
    assert acts == head + [Fetch(Some(s))] + tail;
    assert head[|head| - 1] == RunWorker && RunWorker in head;
    FetchedAtEnd(cached, head, s, tail);
    FreshOnceFetched(trace + head, s);
    StaysFresh(trace + head + [Fetch(Some(s))], s, tail);
    assert trace + head + [Fetch(Some(s))] + tail == trace + acts;
  }

  lemma LastRound(server: Server, settings: Settings, job: Option<string>, start: nat, rounds: seq<nat>, s: Session)
    requires P.IsWait(TurnWait(server, settings, job), start, rounds, Success(s))
    ensures |rounds| > 0 && server.fetch(rounds[|rounds| - 1] + 2) == Success(s) && s.status != Some(AiTurnRunning)
    ensures job.Some? ==> server.inspect(rounds[|rounds| - 1] + 3) == Success(P.JobSucceeded)
  {
    var w, t := TurnWait(server, settings, job), rounds[|rounds| - 1];
    assert P.Concludes(w, P.Deadline(w, start), t, s);
    assert w.observe(t + 2) == ObserveSession(server, t + 2) && w.job(t + 3) == server.inspect(t + 3);
  }

  // ---- Ends of an iteration ----

  datatype Step = Again(tally: Tally) | Returned(boundary: E.Boundary) | Threw(error: Error)

  /** A visit that throws after some of its calls. */
  lemma ThrownVisit(mode: E.Mode, budget: nat, sid: string, digest: string -> string, trace: seq<Act>, t: Tally, s: Session, more: seq<Act>, error: P.Error)
    requires Tallied(mode, sid, digest, trace, t) && Orderly(trace) && MayActOn(trace, s)
    requires var v := Decisions(trace); AllGoOn(mode, v) && |v| < 3 * budget && TurnsIn(v + [s]) <= budget
    requires NoDecision(more) && Posts(more) <= PostsAt(mode, sid, Decisions(trace), s)
    ensures ThrownRun(mode, budget, sid, trace + [Decide(s)] + more, Outside(error))
  {
    hide Counts, Collects, Posts, Decisions, PostsFor, PostsAt, AllGoOn, Orderly, MayActOn, TurnsIn;
    var v := Decisions(trace);
    OrderlyVisit(trace, s, more);
    DecideThen(trace, s, more);
    PostsForMore(mode, sid, v, s);
    assert (v + [s])[..|v|] == v;
  }

  /** A visit that throws before any call. */
  lemma ThrownAtOnce(mode: E.Mode, budget: nat, sid: string, digest: string -> string, trace: seq<Act>, t: Tally, s: Session, error: Error)
    requires Tallied(mode, sid, digest, trace, t) && Orderly(trace) && MayActOn(trace, s)
    requires var v := Decisions(trace); AllGoOn(mode, v) && |v| < 3 * budget && TurnsIn(v) <= budget
    requires match error
             case MaxTurnsExceeded => IsTurn(s) && TurnsIn(Decisions(trace)) == budget
             case UnexpectedState => Strange(mode, Decisions(trace), s)
             case RevisionMissing => LacksRevision(s)
             case _ => false
    ensures ThrownRun(mode, budget, sid, trace + [Decide(s)], error)
  {
    hide Counts, Collects, Posts, Decisions, PostsFor, PostsAt, AllGoOn, Orderly, MayActOn, TurnsIn, IsTurn, Strange, LacksRevision;
    var v := Decisions(trace);
    OrderlyVisit(trace, s, []);
    DecideThen(trace, s, []);
    NoPosts();
    PostsForMore(mode, sid, v, s);
    TurnsMore(v, s);
    StrangeIsNoTurn(mode, v, s);
    assert (v + [s])[..|v|] == v;
    assert trace + [Decide(s)] + [] == trace + [Decide(s)];
  }

  lemma NoPosts()
    ensures Posts([]) == []
  {
  }

  lemma StrangeIsNoTurn(mode: E.Mode, before: seq<Session>, s: Session)
    ensures Strange(mode, before, s) || LacksRevision(s) ==> !IsTurn(s)
  {
  }

  lemma OrderlyVisit(trace: seq<Act>, s: Session, more: seq<Act>)
    requires Orderly(trace) && MayActOn(trace, s) && NoDecision(more)
    ensures Orderly(trace + [Decide(s)] + more)
  {
    OrderlyDecision(trace, s);
    OrderlyExtends(trace + [Decide(s)], more);
  }

  lemma PostsOf(more: seq<Act>, due: seq<Act>)
    requires more <= due && forall i :: 0 <= i < |due| ==> IsPost(due[i])
    ensures NoDecision(more) && Posts(more) == more
  {
    OnlyPosts(more);
  }

  // ---- A finished turn ----

  datatype Readings = Readings(schemas: seq<string>, appServer: seq<string>, cleanup: E.Cleanup)

  function ReadingActs(job: string, r: Readings): seq<Act> {
    [ReadSchemas(job, Some(r.schemas)), ReadAppServer(job, Some(r.appServer)), ReadCleanup(job, Some(r.cleanup))]
  }

  predicate AllTurnWork(acts: seq<Act>) {
    forall i :: 0 <= i < |acts| ==> IsTurnWork(acts[i])
  }

  /** What the calls of a turn say about its job. */
  ghost predicate Tells(more: seq<Act>, jobs: seq<string>, schemas: seq<string>, appServer: seq<string>, cleanups: seq<E.Cleanup>) {
    && AllTurnWork(more)
    && Gather(CleanedJobOf, more) == jobs
    && Gather(SchemasOf, more) == schemas
    && Gather(AppServerOf, more) == appServer
    && Gather(CleanupOf, more) == cleanups
  }

  /** The calls of a finished turn tell about its job what was read of it, and nothing when it had none. */
  ghost predicate TurnTells(more: seq<Act>, job: Option<string>, read: Option<Readings>) {
    match read
    case None => Tells(more, [], [], [], [])
    case Some(r) => job.Some? && Tells(more, [job.value], r.schemas, r.appServer, [r.cleanup])
  }

  lemma TurnAdds(t: Tally, digest: string -> string, s: Session, more: seq<Act>, read: Option<Readings>, next: Tally)
    requires IsTurn(s) && TurnTells(more, s.runtimeJob, read) && (read.Some? <==> s.runtimeJob.Some?)
    requires next.aiTurns == t.aiTurns + 1 && next.jobs == t.jobs + Map(digest, TurnJob(s)) && next.answered == t.answered
    requires next.followUp == t.followUp && next.changeRequested == t.changeRequested && next.changePathCovered == t.changePathCovered
    requires read.None? ==> next.schemas == t.schemas && next.appServer == t.appServer && next.cleanups == t.cleanups
    requires read.Some? ==>
               && next.schemas == t.schemas + read.value.schemas
               && next.appServer == t.appServer + read.value.appServer
               && next.cleanups == t.cleanups + [read.value.cleanup]
    ensures Gather(CleanedJobOf, more) == TurnJob(s) && next == AfterTurn(t, digest, s, more)
  {
  }

  lemma WaitingTellsNothing(more: seq<Act>)
    requires AllWaiting(more)
    ensures Tells(more, [], [], [], [])
  {
    GatherNothing(CleanedJobOf, more);
    GatherNothing(SchemasOf, more);
    GatherNothing(AppServerOf, more);
    GatherNothing(CleanupOf, more);
  }

  lemma ReadingsTell(job: string, r: Readings)
    ensures Tells(ReadingActs(job, r), [job], r.schemas, r.appServer, [r.cleanup])
  {
    GatherThree(CleanedJobOf, ReadingActs(job, r));
    GatherThree(SchemasOf, ReadingActs(job, r));
    GatherThree(AppServerOf, ReadingActs(job, r));
    GatherThree(CleanupOf, ReadingActs(job, r));
  }

  lemma TellsBoth(a: seq<Act>, b: seq<Act>, jobs: seq<string>, schemas: seq<string>, appServer: seq<string>, cleanups: seq<E.Cleanup>)
    requires Tells(a, [], [], [], []) && Tells(b, jobs, schemas, appServer, cleanups)
    ensures Tells(a + b, jobs, schemas, appServer, cleanups)
  {
    GatherAppend(CleanedJobOf, a, b);
    GatherAppend(SchemasOf, a, b);
    GatherAppend(AppServerOf, a, b);
    GatherAppend(CleanupOf, a, b);
  }

  /** A turn that throws has posted nothing. */
  lemma TurnWorkPostsNothing(more: seq<Act>)
    requires AllTurnWork(more)
    ensures NoDecision(more) && Posts(more) == []
  {
    GatherNothing(PostOf, more);
  }

  lemma DriverGoesOn(mode: E.Mode, budget: nat, trace: seq<Act>, s: Session, more: seq<Act>)
    requires Orderly(trace) && MayActOn(trace, s) && NoDecision(more)
    requires AllGoOn(mode, Decisions(trace)) && GoesOn(mode, Decisions(trace), s)
    requires TurnsIn(Decisions(trace)) + (if IsTurn(s) then 1 else 0) <= budget
    ensures var v := Decisions(trace + [Decide(s)] + more);
            && Orderly(trace + [Decide(s)] + more)
            && v == Decisions(trace) + [s]
            && AllGoOn(mode, v)
            && TurnsIn(v) <= budget
  {
    hide GoesOn, AllGoOn, TurnsIn, Orderly, MayActOn, Decisions, IsTurn;
    OrderlyVisit(trace, s, more);
    DecideThen(trace, s, more);
    AllGoOnMore(mode, Decisions(trace), s);
    TurnsMore(Decisions(trace), s);
  }

  // ---- Where an error comes from ----

  /** The call recorded as `act`, made at this instant, threw the error. */
  predicate CallFailed(server: Server, act: Act, at: nat, error: P.Error) {
    match act
    case Create(_) => server.create(at) == Failure(error)
    case Fetch(_) => server.fetch(at) == Failure(error)
    case Answer(_, _) => server.post(at) == Some(error)
    case Continue(_) => server.post(at) == Some(error)
    case RequestChanges(_, _) => server.post(at) == Some(error)
    case Approve(_, _) => server.approve(at) == Failure(error)
    case ReadSchemas(_, _) => server.schemas(at) == Failure(error)
    case ReadAppServer(_, _) => server.appServer(at) == Failure(error)
    case ReadCleanup(_, _) => server.cleanup(at) == Failure(error)
    case _ => false
  }

  /** A wait begun at `start` made exactly these calls and ended with the error. */
  ghost predicate FailedWait(server: Server, settings: Settings, job: Option<string>, start: nat, acts: seq<Act>, error: P.Error) {
    exists rounds, steps ::
      && P.IsWait(TurnWait(server, settings, job), start, rounds, Failure(error))
      && P.StepsOf(rounds[..|rounds| - 1]) <= steps <= P.StepsOf(rounds)
      && acts == WaitActs(server, job, steps)
  }

  /** The run of the worker before anything else, begun at `start`, failed with the error. */
  ghost predicate RefreshFailed(server: Server, settings: Settings, start: nat, trace: seq<Act>, error: P.Error) {
    && trace <= [RunWorker]
    && P.InvokeRemoteWorkerOnceWithinDeadline(TurnWait(server, settings, None), settings.clock(start) + settings.timeout, start + 1) == Some(error)
  }

  class BoundaryDriver {
    const server: Server
    const settings: Settings
    const digest: string -> string
    const planId: Option<string>
    const itemId: Option<string>

    var sessionId: Option<string>
    var revisionId: Option<string>
    var cached: Option<Session>

    /** The calls made since the present conversation began, the instant reached, and that of the last decision. */
    var trace: seq<Act>
    var now: nat
    var decidedAt: nat

    constructor (server: Server, settings: Settings, digest: string -> string, planId: Option<string>, itemId: Option<string>, revisionId: Option<string>)
      ensures this.server == server && this.settings == settings && this.digest == digest && this.planId == planId && this.itemId == itemId
      ensures sessionId == None && this.revisionId == revisionId && cached == None && trace == []
    {
      this.server, this.settings, this.digest, this.planId, this.itemId := server, settings, digest, planId, itemId;
      this.sessionId, this.revisionId, this.cached, this.trace, this.now, this.decidedAt := None, revisionId, None, [], 0, 0;
    }

    /** Time goes on as the wait assumes; no job or session plays a part in that. */
    ghost predicate KeepsTime() {
      forall job :: P.Ticks(TurnWait(server, settings, job))
    }

    /** The error is that of the last call recorded, which was made just before now. */
    predicate LastCallFailed(error: P.Error)
      reads this
    {
      trace != [] && now > 0 && CallFailed(server, trace[|trace| - 1], now - 1, error)
    }

    /** The error is that of the wait of the turn last decided on, begun right after the decision, and nothing was called since. */
    ghost predicate LastWaitFailed(error: P.Error)
      reads this
    {
      exists i: nat :: IsLastDecision(trace, i) && FailedWait(server, settings, trace[i].on.runtimeJob, decidedAt + 1, trace[i + 1..], error)
    }

    ghost predicate Blamed(error: P.Error)
      reads this
    {
      LastCallFailed(error) || LastWaitFailed(error)
    }

    // ---- Single calls ----

    method Record(act: Act)
      modifies this`trace, this`now
      ensures trace == old(trace) + [act] && now == old(now) + 1
    {
      trace, now := trace + [act], now + 1;
    }

    /** Marks what an iteration acts on. */
    method DecideOn(s: Session)
      modifies this`trace, this`now, this`decidedAt
      ensures trace == old(trace) + [Decide(s)] && now == decidedAt + 1
    {
      decidedAt := now;
      Record(Decide(s));
    }

    method FetchBoundarySession() returns (r: Result<Session, Error>)
      modifies this`trace, this`now, this`cached
      ensures sessionId.None? ==> r == Failure(SessionMissing) && trace == old(trace) && cached == old(cached)
      ensures sessionId.Some? ==> trace == old(trace) + [Fetch(Answered(server.fetch(old(now))))]
      ensures sessionId.Some? && server.fetch(old(now)).Success? ==> r == Success(server.fetch(old(now)).value) && cached == Some(r.value)
      ensures r.Failure? && r.error.Outside? ==> LastCallFailed(r.error.error)
      ensures sessionId.Some? && server.fetch(old(now)).Failure? ==> r == Failure(Outside(server.fetch(old(now)).error)) && cached == old(cached)
    {
      if sessionId.None? {
        return Failure(SessionMissing);
      }
      var answer := server.fetch(now);
      Record(Fetch(Answered(answer)));
      match answer
      case Success(session) => cached := Some(session); return Success(session);
      case Failure(error) => return Failure(Outside(error));
    }

    method Post(act: Act) returns (thrown: Option<P.Error>)
      requires IsPost(act) && !act.Create? && !act.Approve?
      modifies this`trace, this`now
      ensures trace == old(trace) + [act] && thrown == server.post(old(now))
      ensures thrown.Some? ==> LastCallFailed(thrown.value)
    {
      thrown := server.post(now);
      Record(act);
    }

    /** Answers the open questions one by one, up to the first answer that throws. */
    method AnswerOpenBoundaryQuestions(s: Session) returns (count: nat, thrown: Option<P.Error>)
      modifies this`trace, this`now, this`cached
      ensures count <= |AnswersTo(s)|
      ensures thrown.None? ==> count == |OpenQuestions(s)| && trace == old(trace) + AnswersTo(s)
      ensures thrown.Some? ==> count < |AnswersTo(s)| && trace == old(trace) + AnswersTo(s)[..count + 1]
      ensures cached == if count == 0 then old(cached) else None
      ensures thrown.Some? ==> LastCallFailed(thrown.value)
    {
      hide OpenQuestions, LastCallFailed;
      var questions := OpenQuestions(s);
      count, thrown := 0, None;
      while count < |questions|
        invariant count <= |questions| && thrown.None?
        invariant trace == old(trace) + AnswersTo(s)[..count]
        invariant cached == if count == 0 then old(cached) else None
      {
        assert AnswersTo(s)[..count + 1] == AnswersTo(s)[..count] + [Answer(s.id, questions[count].id)];
        thrown := Post(Answer(s.id, questions[count].id));
        if thrown.Some? {
          return;
        }
        cached := None;
        count := count + 1;
      }
    }

    method RequestBoundarySummaryChanges(sid: string, revision: string) returns (thrown: Option<P.Error>)
      modifies this`trace, this`now, this`cached
      ensures trace == old(trace) + [RequestChanges(sid, revision)]
      ensures cached == if thrown.None? then None else old(cached)
      ensures thrown.Some? ==> LastCallFailed(thrown.value)
    {
      hide LastCallFailed;
      thrown := Post(RequestChanges(sid, revision));
      if thrown.None? {
        cached := None;
      }
    }

    method ApproveBoundarySummaryRevision(sid: string, revision: string) returns (r: Result<string, P.Error>)
      modifies this`trace, this`now, this`revisionId
      ensures r.Success? ==>
                && trace == old(trace) + [Approve(sid, revision), ReadApproval(r.value)]
                && server.approve(old(now)).Success?
                && r.value == ApprovedRevision(server.approve(old(now)).value, revision)
                && revisionId == Some(r.value)
      ensures r.Failure? ==> trace == old(trace) + [Approve(sid, revision)] && revisionId == old(revisionId) && LastCallFailed(r.error)
    {
      var answer := server.approve(now);
      Record(Approve(sid, revision));
      if answer.Failure? {
        return Failure(answer.error);
      }
      var approved := ApprovedRevision(answer.value, revision);
      revisionId := Some(approved);
      Record(ReadApproval(approved));
      return Success(approved);
    }

    /** Runs the remote worker until the session has left its AI turn and the turn's job has succeeded. */
    method WaitForTurn(job: Option<string>) returns (thrown: Option<P.Error>, ghost more: seq<Act>)
      requires KeepsTime()
      modifies this`trace, this`now, this`cached
      ensures trace == old(trace) + more && AllWaiting(more)
      ensures thrown.None? ==> cached.Some? && FreshAt(trace, cached.value) && EndsTurn(more, job, cached.value)
      ensures thrown.Some? ==> FailedWait(server, settings, job, old(now), more, thrown.value)
    {
      var w := TurnWait(server, settings, job);
      assert P.Ticks(w);
      hide P.Ticks, P.IsWait, KeepsTime, TurnWait, WaitActs, LastFetched, FreshAt, EndsTurn, AllWaiting;
      var r, rounds, steps, end := P.InvokeRemoteWorkerUntil(w, now);
      var acts := WaitActs(server, job, steps);
      more := acts;
      OnlyWaiting(server, job, steps);
      if r.Success? {
        WaitEndsFresh(server, settings, job, now, rounds, r.value, trace, cached);
      }
      trace, now, cached := trace + acts, end, LastFetched(cached, acts);
      thrown := if r.Success? then None else Some(r.error);
    }

    method ReadFinishedJob(job: string) returns (r: Result<Readings, P.Error>)
      modifies this`trace, this`now
      ensures r.Success? ==> trace == old(trace) + ReadingActs(job, r.value)
      ensures r.Failure? ==> exists more :: trace == old(trace) + more && AllTurnWork(more)
      ensures r.Failure? ==> LastCallFailed(r.error)
    {
      var schemas := server.schemas(now);
      Record(ReadSchemas(job, Answered(schemas)));
      if schemas.Failure? {
        return Failure(schemas.error);
      }
      var appServer := server.appServer(now);
      Record(ReadAppServer(job, Answered(appServer)));
      if appServer.Failure? {
        assert trace == old(trace) + [ReadSchemas(job, Answered(schemas)), ReadAppServer(job, Answered(appServer))];
        return Failure(appServer.error);
      }
      var cleanup := server.cleanup(now);
      Record(ReadCleanup(job, Answered(cleanup)));
      assert trace == old(trace) + [ReadSchemas(job, Answered(schemas)), ReadAppServer(job, Answered(appServer)), ReadCleanup(job, Answered(cleanup))];
      if cleanup.Failure? {
        return Failure(cleanup.error);
      }
      return Success(Readings(schemas.value, appServer.value, cleanup.value));
    }

    method RefreshRemoteWorkerForScheduling() returns (thrown: Option<P.Error>)
      modifies this`trace, this`now
      ensures trace == old(trace) + [RunWorker] || (thrown.Some? && trace == old(trace))
      ensures thrown == P.InvokeRemoteWorkerOnceWithinDeadline(
                          TurnWait(server, settings, None), settings.clock(old(now)) + settings.timeout, old(now) + 1)
    {
      var w := TurnWait(server, settings, None);
      var deadline := settings.clock(now) + settings.timeout;
      now := now + 1;
      thrown := P.InvokeRemoteWorkerOnceWithinDeadline(w, deadline, now);
      if settings.clock(now) < deadline {
        Record(RunWorker);
      }
    }

    // ---- The iterations ----

    /** What holds between two iterations of the loop. */
    ghost predicate Between(mode: E.Mode, sid: string, t: Tally)
      reads this
    {
      && sessionId == Some(sid)
      && (cached.Some? ==> MayActOn(trace, cached.value))
      && (cached.None? ==> NoTurnLast(trace))
      && Orderly(trace)
      && Tallied(mode, sid, digest, trace, t)
      && AllGoOn(mode, Decisions(trace))
      && TurnsIn(Decisions(trace)) <= settings.maxAiTurns
    }

    /** An iteration may act on the session. */
    ghost predicate Ready(mode: E.Mode, sid: string, t: Tally, s: Session)
      reads this
    {
      && Between(mode, sid, t)
      && MayActOn(trace, s)
      && |Decisions(trace)| < 3 * settings.maxAiTurns
    }

    /** How an iteration that acted on `s` may end. */
    ghost predicate Ended(mode: E.Mode, sid: string, visits: seq<Session>, step: Step)
      reads this
    {
      match step
      case Again(t) => Between(mode, sid, t) && Decisions(trace) == visits
      case Returned(b) => ReturnedRun(mode, settings.maxAiTurns, sid, digest, trace, b) && revisionId == Some(b.revisionId)
      case Threw(error) => ThrownRun(mode, settings.maxAiTurns, sid, trace, error) && (error.Outside? ==> Blamed(error.error))
    }

    /** The work of a turn: the wait, and then what is read about the turn's job, if it has one. */
    method WorkTurn(job: Option<string>) returns (r: Result<Option<Readings>, P.Error>, ghost more: seq<Act>)
      requires KeepsTime()
      modifies this`trace, this`now, this`cached
      ensures trace == old(trace) + more && AllTurnWork(more)
      ensures r.Success? ==>
                && (r.value.Some? <==> job.Some?)
                && TurnTells(more, job, r.value)
                && cached.Some?
                && FreshAt(trace, cached.value)
                && EndsTurn(more, job, cached.value)
      ensures r.Failure? ==> LastCallFailed(r.error) || FailedWait(server, settings, job, old(now), more, r.error)
    {
      hide KeepsTime, LastCallFailed, FailedWait, FreshAt, EndsTurn, AllTurnWork, Tells, AllWaiting, ReadingActs;
      var thrown;
      thrown, more := WaitForTurn(job);
      WaitingTellsNothing(more);
      if thrown.Some? {
        return Failure(thrown.value), more;
      }
      if job.None? {
        return Success(None), more;
      }
      ghost var waited := trace;
      var read := ReadFinishedJob(job.value);
      if read.Failure? {
        ghost var part :| trace == waited + part && AllTurnWork(part);
        PartOfTurn(more, part);
        return Failure(read.error), more + part;
      }
      ghost var acts := ReadingActs(job.value, read.value);
      ReadingsTell(job.value, read.value);
      TellsBoth(more, acts, [job.value], read.value.schemas, read.value.appServer, [read.value.cleanup]);
      ReadingsWriteNothing(job.value, read.value);
      StaysFresh(waited, cached.value, acts);
      EndsTurnMore(more, acts, job, cached.value);
      return Success(Some(read.value)), more + acts;
    }

    method TakeTurn(mode: E.Mode, sid: string, t: Tally, s: Session) returns (step: Step)
      requires KeepsTime() && Ready(mode, sid, t, s) && IsTurn(s)
      modifies this`trace, this`now, this`decidedAt, this`cached
      ensures Ended(mode, sid, old(Decisions(trace)) + [s], step) && !step.Returned?
      ensures sessionId == old(sessionId)
    {
      hide KeepsTime, LastCallFailed, FailedWait, Tallied, Orderly, MayActOn, FreshAt, EndsTurn, AllGoOn, TurnsIn, ThrownRun, AllTurnWork, Tells, IsTurn, Decisions;
      ghost var before, max := trace, settings.maxAiTurns;
      CountedTurns(mode, sid, digest, trace, t);
      TurnsMore(Decisions(trace), s);
      DecideOn(s);
      if t.aiTurns >= settings.maxAiTurns {
        ThrownAtOnce(mode, max, sid, digest, before, t, s, MaxTurnsExceeded);
        return Threw(MaxTurnsExceeded);
      }
      var r, more := WorkTurn(s.runtimeJob);
      if r.Failure? {
        ThrownTurn(mode, max, sid, digest, before, t, s, more, r.error);
        LastDecisionBefore(before, s, more);
        return Threw(Outside(r.error));
      }
      var next := t.(aiTurns := t.aiTurns + 1, jobs := t.jobs + Map(digest, TurnJob(s)));
      if r.value.Some? {
        var read := r.value.value;
        next := next.(schemas := next.schemas + read.schemas, appServer := next.appServer + read.appServer, cleanups := next.cleanups + [read.cleanup]);
      }
      TurnAdds(t, digest, s, more, r.value, next);
      TurnEnds(mode, max, sid, digest, before, t, s, more, next, cached.value);
      step := Again(next);
    }

    method VisitLeader(mode: E.Mode, sid: string, t: Tally, s: Session) returns (step: Step)
      requires Ready(mode, sid, t, s) && IsLeader(s)
      modifies this`trace, this`now, this`decidedAt, this`cached
      ensures Ended(mode, sid, old(Decisions(trace)) + [s], step) && !step.Returned?
      ensures sessionId == old(sessionId)
    {
      hide LastCallFailed, LastWaitFailed, Tallied, Orderly, MayActOn, AllGoOn, TurnsIn, ThrownRun, NoTurnLast, IsLeader, Decisions, OpenQuestions, PostsAt;
      ghost var before, v := trace, Decisions(trace);
      ghost var max := settings.maxAiTurns;
      LeaderPosts(mode, sid, v, s);
      LeaderGoesOn(mode, v, s);
      TurnsMore(v, s);
      DecideOn(s);
      var questions := OpenQuestions(s);
      var followUp := t.followUp || (t.answered != {} && exists q :: q in questions && q.id !in t.answered);
      var count, thrown := AnswerOpenBoundaryQuestions(s);
      if thrown.Some? {
        ThrownPosting(mode, max, sid, digest, before, t, s, AnswersTo(s)[..count + 1], thrown.value);
        return Threw(Outside(thrown.value));
      }
      var answered := if count > 0 then t.answered + OpenIds(s) else t.answered;
      thrown := Post(Continue(sid));
      assert trace == before + [Decide(s)] + (AnswersTo(s) + [Continue(sid)]);
      if thrown.Some? {
        ThrownPosting(mode, max, sid, digest, before, t, s, AnswersTo(s) + [Continue(sid)], thrown.value);
        return Threw(Outside(thrown.value));
      }
      cached := None;
      var next := t.(followUp := followUp, answered := answered);
      assert answered == t.answered + OpenIds(s) && next == AfterLeader(t, s);
      LeaderKeeps(mode, sid, digest, before, t, s);
      NoTurnAfter(before, s, AnswersTo(s) + [Continue(sid)]);
      DriverGoesOn(mode, max, before, s, AnswersTo(s) + [Continue(sid)]);
      step := Again(next);
    }

    method VisitSummary(mode: E.Mode, sid: string, t: Tally, s: Session) returns (step: Step)
      requires Ready(mode, sid, t, s) && IsSummary(s)
      modifies this`trace, this`now, this`decidedAt, this`cached, this`revisionId
      ensures Ended(mode, sid, old(Decisions(trace)) + [s], step)
      ensures sessionId == old(sessionId)
    {
      hide LastCallFailed, LastWaitFailed, Tallied, Orderly, MayActOn, AllGoOn, TurnsIn, ThrownRun, ReturnedRun, NoTurnLast, IsSummary, Decisions, SummaryRevision, PostsAt, Requested, LacksRevision;
      ghost var before, v := trace, Decisions(trace);
      ghost var max := settings.maxAiTurns;
      CountedRequests(mode, sid, digest, trace, t);
      SummaryPosts(mode, sid, v, s);
      TurnsMore(v, s);
      DecideOn(s);
      var revision := SummaryRevision(s);
      if revision.None? {
        ThrownAtOnce(mode, max, sid, digest, before, t, s, RevisionMissing);
        return Threw(RevisionMissing);
      }
      if mode == E.Initial && !t.changeRequested {
        var thrown := RequestBoundarySummaryChanges(sid, revision.value);
        if thrown.Some? {
          ThrownPosting(mode, max, sid, digest, before, t, s, [RequestChanges(sid, revision.value)], thrown.value);
          return Threw(Outside(thrown.value));
        }
        RequestKeeps(mode, sid, digest, before, t, s);
        NoTurnAfter(before, s, [RequestChanges(sid, revision.value)]);
        DriverGoesOn(mode, max, before, s, [RequestChanges(sid, revision.value)]);
        return Again(t.(changeRequested := true, changePathCovered := true));
      }
      var r := ApproveBoundarySummaryRevision(sid, revision.value);
      if r.Failure? {
        ThrownPosting(mode, max, sid, digest, before, t, s, [Approve(sid, revision.value)], r.error);
        return Threw(Outside(r.error));
      }
      assert trace == before + [Decide(s)] + [Approve(sid, revision.value), ReadApproval(r.value)];
      ApprovedRun(mode, max, sid, digest, before, t, s, r.value);
      step := Returned(BoundaryFor(mode, sid, r.value, t));
    }

    method VisitApproved(mode: E.Mode, sid: string, t: Tally, s: Session) returns (step: Step)
      requires Ready(mode, sid, t, s) && SessionStatus(s) == Approved
      modifies this`trace, this`now, this`decidedAt, this`revisionId
      ensures Ended(mode, sid, old(Decisions(trace)) + [s], step) && !step.Again?
      ensures sessionId == old(sessionId)
    {
      hide LastCallFailed, LastWaitFailed, Tallied, Orderly, MayActOn, AllGoOn, TurnsIn, ThrownRun, ReturnedRun, NoTurnLast, Decisions, SessionStatus, Requested;
      ghost var before := trace;
      ghost var max := settings.maxAiTurns;
      CountedRequests(mode, sid, digest, trace, t);
      DecideOn(s);
      if mode == E.Initial && !t.changeRequested {
        ThrownAtOnce(mode, max, sid, digest, before, t, s, UnexpectedState);
        return Threw(UnexpectedState);
      }
      if s.approvedSummary.None? {
        ThrownAtOnce(mode, max, sid, digest, before, t, s, RevisionMissing);
        return Threw(RevisionMissing);
      }
      revisionId := s.approvedSummary;
      AlreadyApprovedRun(mode, max, sid, digest, before, t, s);
      step := Returned(BoundaryFor(mode, sid, s.approvedSummary.value, t));
    }

    /** The cached session, or else one fetched now. */
    method CurrentSession() returns (r: Result<Session, Error>)
      requires sessionId.Some?
      modifies this`trace, this`now, this`cached
      ensures r.Success? && old(cached).Some? ==> r.value == old(cached).value && trace == old(trace) && cached == old(cached)
      ensures r.Success? && old(cached).None? ==> trace == old(trace) + [Fetch(Some(r.value))] && cached == Some(r.value)
      ensures r.Failure? ==> old(cached).None? && trace == old(trace) + [Fetch(None)] && r.error.Outside? && LastCallFailed(r.error.error)
    {
      hide LastCallFailed;
      if cached.Some? {
        return Success(cached.value);
      }
      r := FetchBoundarySession();
    }

    method Iterate(mode: E.Mode, sid: string, t: Tally) returns (step: Step, ghost s: Option<Session>)
      requires KeepsTime() && Between(mode, sid, t) && |Decisions(trace)| < 3 * settings.maxAiTurns
      modifies this`trace, this`now, this`decidedAt, this`cached, this`revisionId
      ensures s.None? ==> step.Threw? && Ended(mode, sid, [], step)
      ensures s.Some? ==> Ended(mode, sid, old(Decisions(trace)) + [s.value], step)
      ensures sessionId == old(sessionId)
    {
      hide KeepsTime, LastCallFailed, FailedWait, Tallied, Orderly, MayActOn, AllGoOn, TurnsIn, ThrownRun, ReturnedRun, NoTurnLast, Decisions, SessionStatus;
      ghost var before, fetches := trace, cached.None?;
      var r := CurrentSession();
      if r.Failure? {
        ThrownFetch(mode, settings.maxAiTurns, sid, digest, before, t, r.error);
        return Threw(r.error), None;
      }
      var session := r.value;
      s := Some(session);
      if fetches {
        FetchKeeps(mode, sid, digest, before, t, session);
      }
      assert Ready(mode, sid, t, session) && Decisions(trace) == Decisions(before);
      if IsTurn(session) {
        step := TakeTurn(mode, sid, t, session);
      } else if IsLeader(session) {
        step := VisitLeader(mode, sid, t, session);
      } else if IsSummary(session) {
        step := VisitSummary(mode, sid, t, session);
      } else if SessionStatus(session) == Approved {
        step := VisitApproved(mode, sid, t, session);
      } else {
        before := trace;
        DecideOn(session);
        OtherwiseStrange(mode, Decisions(before), session);
        ThrownAtOnce(mode, settings.maxAiTurns, sid, digest, before, t, session, UnexpectedState);
        step := Threw(UnexpectedState);
      }
    }

    /** Refreshes the worker, then creates the session, or restarts it in a rebase. */
    method OpenSession(mode: E.Mode) returns (r: Result<string, Error>)
      modifies this`trace, this`now, this`cached, this`sessionId
      ensures r.Success? ==> sessionId == Some(r.value) && cached == None && trace == [RunWorker, Create(mode)]
      ensures r.Failure? ==> sessionId == old(sessionId)
      ensures r.Failure? ==> ThrownEarly(trace, mode, r.error)
      ensures r.Failure? && r.error.Outside? ==>
                LastCallFailed(r.error.error) || RefreshFailed(server, settings, old(now), trace, r.error.error)
    {
      trace := [];
      if planId.None? {
        return Failure(PlanMissing);
      }
      if itemId.None? {
        return Failure(ItemMissing);
      }
      var thrown := RefreshRemoteWorkerForScheduling();
      if thrown.Some? {
        return Failure(Outside(thrown.value));
      }
      var created := server.create(now);
      Record(Create(mode));
      if created.Failure? {
        return Failure(Outside(created.error));
      }
      sessionId, cached := Some(created.value), None;
      return Success(created.value);
    }

    /**
     A conversation with the server's boundary session: `Returned` with the outcome, or the error thrown. Whatever the server
     answers, the loop ends, and the run is one of the two kinds above. An error that is not the driver's own is that of the last
     call made, of the wait just ended, or of the refresh the run began with.
     */
    method CompleteBoundaryBrainstorming(mode: E.Mode) returns (r: Result<E.Boundary, Error>)
      requires KeepsTime()
      modifies this`trace, this`now, this`decidedAt, this`cached, this`sessionId, this`revisionId
      ensures r.Success? ==>
                && sessionId.Some?
                && ReturnedRun(mode, settings.maxAiTurns, sessionId.value, digest, trace, r.value)
                && revisionId == Some(r.value.revisionId)
      ensures r.Failure? ==> ThrownRun(mode, settings.maxAiTurns, if sessionId.Some? then sessionId.value else "", trace, r.error)
      ensures r.Failure? && r.error.Outside? ==>
                Blamed(r.error.error) || RefreshFailed(server, settings, old(now), trace, r.error.error)
    {
      hide KeepsTime, LastCallFailed, LastWaitFailed, RefreshFailed, Tallied, Orderly, MayActOn, AllGoOn, TurnsIn, ThrownRun, ReturnedRun,
        NoTurnLast, Decisions, ThrownEarly;
      ghost var max := settings.maxAiTurns;
      var session := OpenSession(mode);
      if session.Failure? {
        EarlyRun(mode, max, if sessionId.Some? then sessionId.value else "", trace, session.error);
        return Failure(session.error);
      }
      var sid := session.value;
      var t, i := NOTHING_YET, 0;
      BeginsTallied(mode, sid, digest);
      NothingVisited(mode);
      while i < 3 * settings.maxAiTurns
        invariant i <= 3 * settings.maxAiTurns
        invariant Between(mode, sid, t) && |Decisions(trace)| == i
      {
        var step, s := Iterate(mode, sid, t);
        match step
        case Returned(boundary) => return Success(boundary);
        case Threw(error) => return Failure(error);
        case Again(next) => t := next;
        i := i + 1;
      }
      ThrownExhausted(mode, max, sid, digest, trace, t);
      return Failure(LoopExhausted);
    }
  }

  lemma LeaderPosts(mode: E.Mode, sid: string, before: seq<Session>, s: Session)
    requires IsLeader(s)
    ensures PostsAt(mode, sid, before, s) == AnswersTo(s) + [Continue(sid)]
  {
  }

  lemma LeaderGoesOn(mode: E.Mode, before: seq<Session>, s: Session)
    requires IsLeader(s)
    ensures GoesOn(mode, before, s) && !IsTurn(s)
    ensures OpenQuestions(s) == [] ==> OpenIds(s) == {}
  {
  }

  lemma SummaryPosts(mode: E.Mode, sid: string, before: seq<Session>, s: Session)
    requires IsSummary(s)
    ensures !IsTurn(s)
    ensures SummaryRevision(s).None? ==> LacksRevision(s)
    ensures SummaryRevision(s).Some? ==>
              && PostsAt(mode, sid, before, s) == [if mode == E.Initial && !Requested(mode, before)
                                                  then RequestChanges(sid, SummaryRevision(s).value)
                                                  else Approve(sid, SummaryRevision(s).value)]
              && (mode == E.Initial && !Requested(mode, before) ==> GoesOn(mode, before, s))
              && (!(mode == E.Initial && !Requested(mode, before)) ==> Finishes(mode, before, s))
  {
  }

  lemma CountedRequests(mode: E.Mode, sid: string, digest: string -> string, trace: seq<Act>, t: Tally)
    requires Tallied(mode, sid, digest, trace, t)
    ensures t.changeRequested <==> Requested(mode, Decisions(trace))
  {
  }

  /** A visit that throws at one of its posts. */
  lemma ThrownPosting(mode: E.Mode, budget: nat, sid: string, digest: string -> string, trace: seq<Act>, t: Tally, s: Session, made: seq<Act>, error: P.Error)
    requires Tallied(mode, sid, digest, trace, t) && Orderly(trace) && MayActOn(trace, s)
    requires var v := Decisions(trace); AllGoOn(mode, v) && |v| < 3 * budget && TurnsIn(v + [s]) <= budget
    requires made <= PostsAt(mode, sid, Decisions(trace), s)
    ensures ThrownRun(mode, budget, sid, trace + [Decide(s)] + made, Outside(error))
  {
    PostsArePosts(mode, sid, Decisions(trace), s);
    PostsOf(made, PostsAt(mode, sid, Decisions(trace), s));
    hide *;
    ThrownVisit(mode, budget, sid, digest, trace, t, s, made, error);
  }

  lemma OtherwiseStrange(mode: E.Mode, before: seq<Session>, s: Session)
    requires !IsTurn(s) && !IsLeader(s) && !IsSummary(s) && SessionStatus(s) != Approved
    ensures Strange(mode, before, s)
  {
  }

  lemma NothingVisited(mode: E.Mode)
    ensures AllGoOn(mode, []) && TurnsIn([]) == 0
  {
  }

  /** What there is when a run throws before its session exists. */
  predicate ThrownEarly(trace: seq<Act>, mode: E.Mode, error: Error) {
    && (trace == [] || trace == [RunWorker] || trace == [RunWorker, Create(mode)])
    && (error.PlanMissing? || error.ItemMissing? || error.Outside?)
  }

  lemma EarlyRun(mode: E.Mode, budget: nat, sid: string, trace: seq<Act>, error: Error)
    requires ThrownEarly(trace, mode, error)
    ensures ThrownRun(mode, budget, sid, trace, error)
  {
    GatherOne(DecisionOf, RunWorker);
    GatherOne(PostOf, RunWorker);
    GatherTwo(DecisionOf, RunWorker, Create(mode));
    GatherTwo(PostOf, RunWorker, Create(mode));
    assert Decisions(trace) == [] && Posts(trace) <= [Create(mode)] && PostsFor(mode, sid, []) == [];
    assert Orderly(trace);
    NothingVisited(mode);
    hide Orderly, Gather, PostsFor, TurnsIn, AllGoOn;
  }

  lemma ThrownExhausted(mode: E.Mode, budget: nat, sid: string, digest: string -> string, trace: seq<Act>, t: Tally)
    requires Tallied(mode, sid, digest, trace, t) && Orderly(trace)
    requires var v := Decisions(trace); AllGoOn(mode, v) && |v| == 3 * budget && TurnsIn(v) <= budget
    ensures ThrownRun(mode, budget, sid, trace, LoopExhausted)
  {
    hide Decisions, Counts, Collects, PostsFor, TurnsIn, Posts, Orderly;
    var v := Decisions(trace);
    AllButLastGoOn(mode, v);
    hide AllGoOn;
  }

  /** A call that is neither a decision, nor a post, nor a reading of a job, changes no total. */
  lemma SideCall(mode: E.Mode, sid: string, digest: string -> string, trace: seq<Act>, t: Tally, a: Act)
    requires Tallied(mode, sid, digest, trace, t) && (a.Fetch? || a.ReadApproval?)
    ensures Tallied(mode, sid, digest, trace + [a], t)
    ensures Decisions(trace + [a]) == Decisions(trace) && Posts(trace + [a]) == Posts(trace)
  {
    SideCollects(trace, t, a);
    GatherMore(DecisionOf, trace, a);
    GatherMore(PostOf, trace, a);
    assert Decisions(trace + [a]) == Decisions(trace) && Posts(trace + [a]) == Posts(trace);
    hide Collects, Decisions, Posts, Gather, Counts, PostsFor, JobsIn;
  }

  lemma SideCollects(trace: seq<Act>, t: Tally, a: Act)
    requires Collects(trace, t) && (a.Fetch? || a.ReadApproval?)
    ensures Collects(trace + [a], t)
  {
    hide Gather, JobsIn;
    GatherMore(DecisionOf, trace, a);
    assert Decisions(trace + [a]) == Decisions(trace);
    GatherMore(SchemasOf, trace, a);
    GatherMore(AppServerOf, trace, a);
    GatherMore(CleanupOf, trace, a);
    GatherMore(CleanedJobOf, trace, a);
  }

  lemma FetchKeeps(mode: E.Mode, sid: string, digest: string -> string, trace: seq<Act>, t: Tally, s: Session)
    requires Tallied(mode, sid, digest, trace, t) && Orderly(trace) && NoTurnLast(trace)
    ensures var all := trace + [Fetch(Some(s))];
            Tallied(mode, sid, digest, all, t) && Orderly(all) && Decisions(all) == Decisions(trace) && MayActOn(all, s)
  {
    hide Tallied, Orderly, MayActOn, NoTurnLast, Decisions;
    SideCall(mode, sid, digest, trace, t, Fetch(Some(s)));
    OrderlyExtends(trace, [Fetch(Some(s))]);
    MayActOnFetched(trace, s);
  }

  lemma ThrownFetch(mode: E.Mode, budget: nat, sid: string, digest: string -> string, trace: seq<Act>, t: Tally, error: Error)
    requires Tallied(mode, sid, digest, trace, t) && Orderly(trace) && error.Outside?
    requires var v := Decisions(trace); AllGoOn(mode, v) && |v| < 3 * budget && TurnsIn(v) <= budget
    ensures ThrownRun(mode, budget, sid, trace + [Fetch(None)], error)
  {
    hide Orderly, Decisions, AllGoOn, TurnsIn, PostsFor, Posts, Counts, Collects;
    SideCall(mode, sid, digest, trace, t, Fetch(None));
    OrderlyExtends(trace, [Fetch(None)]);
    AllButLastGoOn(mode, Decisions(trace));
  }

  /** Nothing but the posts changes when a last visit returns. */
  lemma LastVisitTallied(mode: E.Mode, sid: string, digest: string -> string, trace: seq<Act>, t: Tally, s: Session, more: seq<Act>)
    requires Tallied(mode, sid, digest, trace, t) && Finishes(mode, Decisions(trace), s)
    requires more == PostsAt(mode, sid, Decisions(trace), s)
    ensures Tallied(mode, sid, digest, trace + [Decide(s)] + more, t)
    ensures Decisions(trace + [Decide(s)] + more) == Decisions(trace) + [s]
    ensures NoDecision(more)
  {
    var v := Decisions(trace);
    PostsArePosts(mode, sid, v, s);
    OnlyPosts(more);
    FinishedIsNothingElse(mode, v, s);
    hide Posts, Decisions, PostsAt, PostsFor, Finishes, Collects, IsTurn, IsLeader, IsSummary, SeesFollowUp, TurnJob;
    PostsRemain(mode, sid, digest, trace, t, s, more, t);
    CountsRemain(mode, digest, v, s, t);
    hide Counts;
  }

  lemma CountsRemain(mode: E.Mode, digest: string -> string, visits: seq<Session>, s: Session, t: Tally)
    requires Counts(mode, digest, visits, t) && Finishes(mode, visits, s)
    ensures Counts(mode, digest, visits + [s], t)
  {
    FinishedIsNothingElse(mode, visits, s);
    hide Finishes, IsTurn, IsLeader, IsSummary, SeesFollowUp, TurnJob, Requested, TurnsIn, AnsweredIn, FollowUpIn, JobsIn;
    assert t.jobs + [] == t.jobs && t.answered + {} == t.answered;
    CountsMore(mode, digest, visits, s, t, t);
  }

  lemma FinishedIsNothingElse(mode: E.Mode, before: seq<Session>, s: Session)
    requires Finishes(mode, before, s)
    ensures !IsTurn(s) && !IsLeader(s) && TurnJob(s) == [] && !SeesFollowUp(before, s)
    ensures mode == E.Initial ==> Requested(mode, before)
  {
  }

  lemma ApprovedRun(mode: E.Mode, budget: nat, sid: string, digest: string -> string, trace: seq<Act>, t: Tally, s: Session, approved: string)
    requires Tallied(mode, sid, digest, trace, t) && Orderly(trace) && MayActOn(trace, s)
    requires var v := Decisions(trace); AllGoOn(mode, v) && |v| < 3 * budget && TurnsIn(v + [s]) <= budget
    requires Finishes(mode, Decisions(trace), s) && IsSummary(s) && SummaryRevision(s).Some?
    requires PostsAt(mode, sid, Decisions(trace), s) == [Approve(sid, SummaryRevision(s).value)]
    ensures ReturnedRun(mode, budget, sid, digest,
              trace + [Decide(s)] + [Approve(sid, SummaryRevision(s).value), ReadApproval(approved)], BoundaryFor(mode, sid, approved, t))
  {
    hide Orderly, MayActOn, Decisions, AllGoOn, TurnsIn, PostsAt, Tallied, Finishes, IsSummary, SummaryRevision;
    var v, post := Decisions(trace), [Approve(sid, SummaryRevision(s).value)];
    var posted := trace + [Decide(s)] + post;
    LastVisitTallied(mode, sid, digest, trace, t, s, post);
    OrderlyVisit(trace, s, post);
    SideCall(mode, sid, digest, posted, t, ReadApproval(approved));
    OrderlyExtends(posted, [ReadApproval(approved)]);
    assert posted + [ReadApproval(approved)] == trace + [Decide(s)] + [Approve(sid, SummaryRevision(s).value), ReadApproval(approved)];
    assert (v + [s])[..|v|] == v;
  }

  lemma AlreadyApprovedRun(mode: E.Mode, budget: nat, sid: string, digest: string -> string, trace: seq<Act>, t: Tally, s: Session)
    requires Tallied(mode, sid, digest, trace, t) && Orderly(trace) && MayActOn(trace, s)
    requires var v := Decisions(trace); AllGoOn(mode, v) && |v| < 3 * budget && TurnsIn(v) <= budget
    requires SessionStatus(s) == Approved && s.approvedSummary.Some? && (mode == E.Initial ==> Requested(mode, Decisions(trace)))
    ensures ReturnedRun(mode, budget, sid, digest, trace + [Decide(s)], BoundaryFor(mode, sid, s.approvedSummary.value, t))
  {
    hide Orderly, MayActOn, Decisions, AllGoOn, TurnsIn, Tallied, Requested;
    var v := Decisions(trace);
    assert Finishes(mode, v, s) && PostsAt(mode, sid, v, s) == [] && !IsTurn(s) && !IsSummary(s);
    hide PostsAt, Finishes, IsSummary, IsTurn, SessionStatus;
    LastVisitTallied(mode, sid, digest, trace, t, s, []);
    OrderlyVisit(trace, s, []);
    TurnsMore(v, s);
    assert trace + [Decide(s)] + [] == trace + [Decide(s)];
    assert (v + [s])[..|v|] == v;
  }

  /** Initial runs do return: one that shows a summary, is asked for a change, and is found approved next. */
  lemma ChangedSummaryCanBeReturned(budget: nat, sid: string, digest: string -> string, proposed: Session, approved: Session) returns (trace: seq<Act>, b: E.Boundary)
    requires budget > 0 && IsSummary(proposed) && SummaryRevision(proposed).Some?
    requires SessionStatus(approved) == Approved && approved.approvedSummary.Some?
    ensures ReturnedRun(E.Initial, budget, sid, digest, trace, b) && b.revisionId == approved.approvedSummary.value
  {
    hide Orderly, MayActOn, NoTurnLast, Decisions, AllGoOn, TurnsIn, Tallied, ReturnedRun, SummaryRevision, SessionStatus, Requested;
    trace := [RunWorker, Create(E.Initial)];
    BeginsTallied(E.Initial, sid, digest);
    NothingVisited(E.Initial);
    CountedRequests(E.Initial, sid, digest, trace, NOTHING_YET);
    FetchKeeps(E.Initial, sid, digest, trace, NOTHING_YET, proposed);
    trace := trace + [Fetch(Some(proposed))];
    var more := [RequestChanges(sid, SummaryRevision(proposed).value)];
    SummaryPosts(E.Initial, sid, Decisions(trace), proposed);
    hide IsSummary;
    RequestKeeps(E.Initial, sid, digest, trace, NOTHING_YET, proposed);
    DriverGoesOn(E.Initial, budget, trace, proposed, more);
    NoTurnAfter(trace, proposed, more);
    trace := trace + [Decide(proposed)] + more;
    var t := AfterRequest(NOTHING_YET);
    FetchKeeps(E.Initial, sid, digest, trace, t, approved);
    trace := trace + [Fetch(Some(approved))];
    CountedRequests(E.Initial, sid, digest, trace, t);
    AlreadyApprovedRun(E.Initial, budget, sid, digest, trace, t, approved);
    trace, b := trace + [Decide(approved)], BoundaryFor(E.Initial, sid, approved.approvedSummary.value, t);
  }

  /** And so do rebases, at once when the restarted session is already approved. */
  lemma ApprovedRebaseCanBeReturned(budget: nat, sid: string, digest: string -> string, approved: Session) returns (trace: seq<Act>, b: E.Boundary)
    requires budget > 0 && SessionStatus(approved) == Approved && approved.approvedSummary.Some?
    ensures ReturnedRun(E.Rebase, budget, sid, digest, trace, b) && b.revisionId == approved.approvedSummary.value
  {
    hide Orderly, MayActOn, NoTurnLast, Decisions, AllGoOn, TurnsIn, Tallied, ReturnedRun, SessionStatus;
    trace := [RunWorker, Create(E.Rebase)];
    BeginsTallied(E.Rebase, sid, digest);
    NothingVisited(E.Rebase);
    FetchKeeps(E.Rebase, sid, digest, trace, NOTHING_YET, approved);
    trace := trace + [Fetch(Some(approved))];
    AlreadyApprovedRun(E.Rebase, budget, sid, digest, trace, NOTHING_YET, approved);
    trace, b := trace + [Decide(approved)], BoundaryFor(E.Rebase, sid, approved.approvedSummary.value, NOTHING_YET);
  }

  lemma LastDecisionBefore(trace: seq<Act>, s: Session, more: seq<Act>)
    requires AllTurnWork(more)
    ensures var all := trace + [Decide(s)] + more; IsLastDecision(all, |trace|) && all[|trace|] == Decide(s) && all[|trace| + 1..] == more
  {
    var all := trace + [Decide(s)] + more;
    assert all[|trace| + 1..] == more;
  }

  lemma CountedTurns(mode: E.Mode, sid: string, digest: string -> string, trace: seq<Act>, t: Tally)
    requires Tallied(mode, sid, digest, trace, t)
    ensures t.aiTurns == TurnsIn(Decisions(trace))
  {
  }

  lemma ThrownTurn(mode: E.Mode, budget: nat, sid: string, digest: string -> string, trace: seq<Act>, t: Tally, s: Session, more: seq<Act>, error: P.Error)
    requires Tallied(mode, sid, digest, trace, t) && Orderly(trace) && MayActOn(trace, s)
    requires var v := Decisions(trace); AllGoOn(mode, v) && |v| < 3 * budget && TurnsIn(v + [s]) <= budget
    requires AllTurnWork(more)
    ensures ThrownRun(mode, budget, sid, trace + [Decide(s)] + more, Outside(error))
  {
    TurnWorkPostsNothing(more);
    hide *;
    ThrownVisit(mode, budget, sid, digest, trace, t, s, more, error);
  }

  lemma PartOfTurn(waited: seq<Act>, part: seq<Act>)
    requires Tells(waited, [], [], [], []) && AllTurnWork(part)
    ensures AllTurnWork(waited + part)
  {
  }

  lemma EndsTurnMore(a: seq<Act>, b: seq<Act>, job: Option<string>, next: Session)
    requires EndsTurn(a, job, next)
    ensures EndsTurn(a + b, job, next)
  {
  }

  lemma ReadingsWriteNothing(job: string, r: Readings)
    ensures forall a :: a in ReadingActs(job, r) ==> !IsWrite(a)
  {
  }

  lemma TurnEnds(mode: E.Mode, budget: nat, sid: string, digest: string -> string, trace: seq<Act>, t: Tally, s: Session, more: seq<Act>, next: Tally, session: Session)
    requires Tallied(mode, sid, digest, trace, t) && Orderly(trace) && MayActOn(trace, s) && IsTurn(s)
    requires FreshAt(trace + [Decide(s)] + more, session) && EndsTurn(more, s.runtimeJob, session)
    requires AllGoOn(mode, Decisions(trace)) && TurnsIn(Decisions(trace)) < budget
    requires AllTurnWork(more) && Gather(CleanedJobOf, more) == TurnJob(s) && next == AfterTurn(t, digest, s, more)
    ensures var all := trace + [Decide(s)] + more;
            && Tallied(mode, sid, digest, all, next)
            && Orderly(all)
            && Decisions(all) == Decisions(trace) + [s]
            && AllGoOn(mode, Decisions(all))
            && TurnsIn(Decisions(all)) <= budget
            && MayActOn(all, session)
  {
    TurnWorkPostsNothing(more);
    TurnIsOver(trace, s, more, session);
    assert MayActOn(trace + [Decide(s)] + more, session);
    hide Tallied, Orderly, MayActOn, AllGoOn, TurnsIn, Decisions, AfterTurn;
    TurnKeeps(mode, sid, digest, trace, t, s, more);
    DriverGoesOn(mode, budget, trace, s, more);
  }
}
