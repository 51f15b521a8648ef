/** The Postgres target of a strict run: who owns the database and the container, and how both are acquired and given back. */
module DurablePostgres {
  import opened Prelude
  import opened Effects

  datatype Act =
    | InspectRunningContainers
    | DockerRun
    | PgIsReady(id: string)
    | DockerInspect(id: string)
    | Delay
    | DockerRemove(id: string)
    | Connect(url: string)
    | TerminateBackends(database: string)
    | CreateDatabaseQuery(database: string)
    | DropDatabaseQuery(database: string)
    | EndClient

  datatype Candidate = Candidate(containerId: string, host: string, defaultDatabase: string)

  datatype PlanError = InvalidUrl | NoDurableDatabase | ContainerFailed(error: StartError)

  /** Why no container came up; the message of the run command is rethrown, a failed removal is reported with the timeout. */
  datatype StartError = RunFailed(message: string) | TimedOut | TimedOutAndRemovalFailed(id: string, message: string)

  datatype Kind = Provided | DockerTempDb | StartedContainer

  datatype Plan = Plan(
    kind: Kind, databaseUrl: string, adminUrl: string, databaseName: string,
    dropDatabase: bool, removeContainer: bool, containerId: Option<string>)

  function Url(candidate: Candidate, database: string): string {
    candidate.host + "/" + database
  }

  function DatabaseNameForTimestamp(timestamp: string): string {
    "forgeloop_tmp_dogfood_" + timestamp
  }

  predicate IsDigit(c: char) {
    '0' <= c <= '9'
  }

  predicate Quotable(name: string) {
    && name != ""
    && (IsLetter(name[0]) || name[0] == '_')
    && forall i :: 0 <= i < |name| ==> IsLetter(name[i]) || IsDigit(name[i]) || name[i] == '_'
  }

  /** `databaseOf` is the path of a URL, or nothing when the text is no URL and parsing it throws. */
  function PlanDatabase(provided: Option<string>, candidate: Option<Candidate>, timestamp: string, databaseOf: string -> Option<string>)
    : (plan: Result<Plan, PlanError>)
    ensures plan.Success? <==> if provided.Some? then databaseOf(provided.value).Some? else candidate.Some?
    ensures plan.Failure? ==> plan.error == if provided.Some? then InvalidUrl else NoDurableDatabase
    ensures plan.Success? ==> !plan.value.removeContainer && (plan.value.dropDatabase <==> provided.None?)
    ensures plan.Success? && provided.Some? ==>
              && plan.value.kind == Provided
              && plan.value.databaseUrl == plan.value.adminUrl == provided.value
              && databaseOf(provided.value) == Some(plan.value.databaseName)
    ensures plan.Success? && provided.None? ==>
              && plan.value.kind == DockerTempDb
              && plan.value.databaseName == DatabaseNameForTimestamp(timestamp)
              && plan.value.databaseUrl == Url(candidate.value, plan.value.databaseName)
              && plan.value.adminUrl == Url(candidate.value, candidate.value.defaultDatabase)
              && plan.value.containerId == Some(candidate.value.containerId)
  {
    if provided.Some? then
      match databaseOf(provided.value)
      case None => Failure(InvalidUrl)
      case Some(name) => Success(Plan(Provided, provided.value, provided.value, name, false, false, None))
    else if candidate.None? then
      Failure(NoDurableDatabase)
    else
      var c := candidate.value;
      var name := DatabaseNameForTimestamp(timestamp);
      Success(Plan(DockerTempDb, Url(c, name), Url(c, c.defaultDatabase), name, true, false, Some(c.containerId)))
  }

  // ---- Starting a disposable container ----

  /** One readiness poll of a container: the calls it makes, and whether the container is usable. */
  function Poll(oracle: Oracle<Act>, at: nat, id: string): (seq<Call<Act>>, bool) {
    var ready := Call(PgIsReady(id), oracle(at, PgIsReady(id)));
    var inspect := Call(DockerInspect(id), oracle(at + 1, DockerInspect(id)));
    if ready.reply.Threw? then ([ready, Call(Delay, oracle(at + 1, Delay))], false)
    else if inspect.reply.Threw? then ([ready, inspect, Call(Delay, oracle(at + 2, Delay))], false)
    else ([ready, inspect], inspect.reply.flag)
  }

  /** Polling until one poll succeeds or the attempts run out. */
  function Polls(oracle: Oracle<Act>, at: nat, id: string, attempts: nat): (seq<Call<Act>>, bool)
    decreases attempts
  {
    if attempts == 0 then ([], false)
    else
      var first := Poll(oracle, at, id);
      if first.1 then first
      else
        var rest := Polls(oracle, at + |first.0|, id, attempts - 1);
        (first.0 + rest.0, rest.1)
  }

  const MAX_ATTEMPTS: nat := 60

  /** How an attempt to bring a container up ends: with its id once it is usable, or with the reason. */
  function StartResult(oracle: Oracle<Act>, at: nat, maxAttempts: nat): Result<string, StartError> {
    var run := oracle(at, DockerRun);
    if run.Threw? then Failure(RunFailed(run.message))
    else
      var id, polls := run.value, Polls(oracle, at + 1, run.value, maxAttempts);
      var removed := oracle(at + 1 + |polls.0|, DockerRemove(id));
      if polls.1 then Success(id)
      else Failure(if removed.Threw? then TimedOutAndRemovalFailed(id, removed.message) else TimedOut)
  }

  /** The calls of one attempt to bring a container up: once it runs it is either usable or removed again. */
  function StartCalls(oracle: Oracle<Act>, at: nat, maxAttempts: nat): seq<Call<Act>> {
    var run := Call(DockerRun, oracle(at, DockerRun));
    if run.reply.Threw? then [run]
    else
      var id := run.reply.value;
      var polls := Polls(oracle, at + 1, id, maxAttempts);
      var remove := Call(DockerRemove(id), oracle(at + 1 + |polls.0|, DockerRemove(id)));
      [run] + polls.0 + (if polls.1 then [] else [remove])
  }

  method PollOnce(world: World<Act>, id: string) returns (ready: bool)
    modifies world
    ensures world.trace == old(world.trace) + Poll(world.oracle, |old(world.trace)|, id).0
    ensures ready == Poll(world.oracle, |old(world.trace)|, id).1
  {
    var answer := world.Perform(PgIsReady(id));
    if answer.Ok? {
      var inspect := world.Perform(DockerInspect(id));
      if inspect.Ok? {
        return inspect.flag;
      }
    }
    var _ := world.Perform(Delay);
    ready := false;
  }

  method PollUntilReady(world: World<Act>, id: string, maxAttempts: nat) returns (ready: bool)
    modifies world
    ensures world.trace == old(world.trace) + Polls(world.oracle, |old(world.trace)|, id, maxAttempts).0
    ensures ready == Polls(world.oracle, |old(world.trace)|, id, maxAttempts).1
  {
    hide Poll;
    ghost var all := Polls(world.oracle, |world.trace|, id, maxAttempts);
    ghost var base := world.trace;
    var attempt := 0;
    while attempt < maxAttempts
      invariant attempt <= maxAttempts
      invariant var rest := Polls(world.oracle, |world.trace|, id, maxAttempts - attempt);
                base + all.0 == world.trace + rest.0 && all.1 == rest.1
    {
      ghost var now := world.trace;
      ghost var first := Poll(world.oracle, |now|, id);
      ready := PollOnce(world, id);
      attempt := attempt + 1;
      if ready {
        return;
      }
      Regroup(now, first.0, Polls(world.oracle, |now| + |first.0|, id, maxAttempts - attempt).0, []);
    }
    ready := false;
  }

  method StartDisposablePostgres(world: World<Act>, maxAttempts: nat) returns (r: Result<string, StartError>)
    modifies world
    ensures world.trace == old(world.trace) + StartCalls(world.oracle, |old(world.trace)|, maxAttempts)
    ensures r == StartResult(world.oracle, |old(world.trace)|, maxAttempts)
  {
    hide Polls;
    ghost var before := world.trace;
    var started := world.Perform(DockerRun);
    if started.Threw? {
      return Failure(RunFailed(started.message));
    }
    var id := started.value;
    var ready := PollUntilReady(world, id, maxAttempts);
    ghost var run, polls := [Call(DockerRun, started)], Polls(world.oracle, |before| + 1, id, maxAttempts);
    assert world.trace == before + run + polls.0;
    if ready {
      Regroup(before, run, polls.0, []);
      return Success(id);
    }
    var removed := world.Perform(DockerRemove(id));
    Regroup(before, run, polls.0, [Call(DockerRemove(id), removed)]);
    r := Failure(if removed.Threw? then TimedOutAndRemovalFailed(id, removed.message) else TimedOut);
  }

  /** Polling touches only the container it polls and never removes anything. */
  lemma {:induction false} PollsOnlyLook(oracle: Oracle<Act>, at: nat, id: string, attempts: nat)
    ensures forall c :: c in Polls(oracle, at, id, attempts).0 ==> c.act in {PgIsReady(id), DockerInspect(id), Delay}
    ensures |Polls(oracle, at, id, attempts).0| <= 3 * attempts
    decreases attempts
  {
    if attempts > 0 {
      PollsOnlyLook(oracle, at + |Poll(oracle, at, id).0|, id, attempts - 1);
    }
  }

  // ---- Planning ----

  /** Ids of the containers these calls brought up. */
  ghost predicate Brought(calls: seq<Call<Act>>, id: string) {
    exists i :: 0 <= i < |calls| && calls[i].act == DockerRun && calls[i].reply.Ok? && calls[i].reply.value == id
  }

  ghost predicate RemovalAttempted(calls: seq<Call<Act>>, id: string) {
    exists i :: 0 <= i < |calls| && calls[i].act == DockerRemove(id)
  }

  /** A container is brought up by at most one call, and it is removed again exactly when it was never found usable. */
  lemma StartAccounts(oracle: Oracle<Act>, at: nat, maxAttempts: nat, before: Call<Act>)
    requires before.act == InspectRunningContainers
    ensures var calls := [before] + StartCalls(oracle, at, maxAttempts);
            forall id ::
              && (Brought(calls, id) <==> oracle(at, DockerRun).Ok? && oracle(at, DockerRun).value == id)
              && (RemovalAttempted(calls, id) <==> Brought(calls, id) && StartResult(oracle, at, maxAttempts).Failure?)
  {
    var run := Call(DockerRun, oracle(at, DockerRun));
    var calls := [before] + StartCalls(oracle, at, maxAttempts);
    assert calls[0] == before && calls[1] == run;
    if run.reply.Ok? {
      var id := run.reply.value;
      var polls := Polls(oracle, at + 1, id, maxAttempts);
      PollsOnlyLook(oracle, at + 1, id, maxAttempts);
      assert forall i :: 2 <= i < 2 + |polls.0| ==> calls[i] in polls.0;
      if !polls.1 {
        assert calls[|calls| - 1].act == DockerRemove(id);
      }
    }
  }

  /** Calls of planning: none of them concerns a database. */
  predicate IsContainerWork(a: Act) {
    a.InspectRunningContainers? || a.DockerRun? || a.PgIsReady? || a.DockerInspect? || a.Delay? || a.DockerRemove?
  }

  lemma StartIsContainerWork(oracle: Oracle<Act>, at: nat, maxAttempts: nat)
    ensures forall c :: c in StartCalls(oracle, at, maxAttempts) ==> IsContainerWork(c.act)
  {
    hide Polls;
    var run := oracle(at, DockerRun);
    if run.Ok? {
      PollsOnlyLook(oracle, at + 1, run.value, maxAttempts);
    }
  }

  /** What a strict run asks for; `databaseOf` and `candidateOf` read what is not modelled, URLs and Docker's answers. */
  datatype Request = Request(
    provided: Option<string>, startRequested: bool, timestamp: string,
    databaseOf: string -> Option<string>, candidateOf: string -> Candidate)

  /** A running container is looked for first, and one is started only when there is none and it is asked for. */
  predicate Starts(oracle: Oracle<Act>, at: nat, request: Request) {
    var running := oracle(at, InspectRunningContainers);
    request.provided.None? && !(running.Ok? && running.flag) && request.startRequested
  }

  function PlanCalls(oracle: Oracle<Act>, at: nat, request: Request): seq<Call<Act>> {
    if request.provided.Some? then []
    else
      [Call(InspectRunningContainers, oracle(at, InspectRunningContainers))]
      + (if Starts(oracle, at, request) then StartCalls(oracle, at + 1, MAX_ATTEMPTS) else [])
  }

  function Planned(oracle: Oracle<Act>, at: nat, request: Request): Result<Plan, PlanError> {
    var running := oracle(at, InspectRunningContainers);
    if !Starts(oracle, at, request) then
      var candidate := if running.Ok? && running.flag then Some(request.candidateOf(running.value)) else None;
      PlanDatabase(request.provided, candidate, request.timestamp, request.databaseOf)
    else
      match StartResult(oracle, at + 1, MAX_ATTEMPTS)
      case Failure(error) => Failure(ContainerFailed(error))
      case Success(id) =>
        var plan :- PlanDatabase(None, Some(request.candidateOf(id)), request.timestamp, request.databaseOf);
        Success(plan.(kind := StartedContainer, removeContainer := true, containerId := Some(id)))
  }

  /** Plans the database of a strict run. */
  method PlanStrictReleaseDogfoodDatabase(world: World<Act>, request: Request) returns (plan: Result<Plan, PlanError>)
    modifies world
    ensures plan == Planned(world.oracle, |old(world.trace)|, request)
    ensures world.trace == old(world.trace) + PlanCalls(world.oracle, |old(world.trace)|, request)
  {
    hide StartCalls, StartResult, DatabaseNameForTimestamp;
    if request.provided.Some? {
      plan := PlanDatabase(request.provided, None, request.timestamp, request.databaseOf);
      return;
    }
    ghost var before := world.trace;
    var running := world.Perform(InspectRunningContainers);
    ghost var look := Call(InspectRunningContainers, running);
    if (running.Ok? && running.flag) || !request.startRequested {
      assert PlanCalls(world.oracle, |before|, request) == [look];
      var candidate := if running.Ok? && running.flag then Some(request.candidateOf(running.value)) else None;
      plan := PlanDatabase(None, candidate, request.timestamp, request.databaseOf);
      return;
    }
    var started := StartDisposablePostgres(world, MAX_ATTEMPTS);
    Regroup(before, [look], StartCalls(world.oracle, |before| + 1, MAX_ATTEMPTS), []);
    if started.Failure? {
      return Failure(ContainerFailed(started.error));
    }
    plan := PlanDatabase(None, Some(request.candidateOf(started.value)), request.timestamp, request.databaseOf);
    plan := Success(plan.value.(kind := StartedContainer, removeContainer := true, containerId := Some(started.value)));
  }

  /**
   A container that planning brings up is either handed to the plan, to be removed at the end, or its removal has been
   attempted; nothing else is ever removed or marked for removal, and a database that was given is only used.
   */
  lemma PlanningAccounts(oracle: Oracle<Act>, at: nat, request: Request)
    ensures var calls, plan := PlanCalls(oracle, at, request), Planned(oracle, at, request);
            && (plan.Success? ==> (plan.value.dropDatabase <==> request.provided.None?))
            && (plan.Success? && request.provided.None? ==> plan.value.databaseName == DatabaseNameForTimestamp(request.timestamp))
            && (request.provided.Some? ==> calls == [])
            && (forall id :: plan.Success? && plan.value.removeContainer && plan.value.containerId == Some(id) <==>
                  Brought(calls, id) && !RemovalAttempted(calls, id))
            && (plan.Success? && plan.value.removeContainer ==> plan.value.containerId.Some?)
            && (forall id :: RemovalAttempted(calls, id) ==> Brought(calls, id))
            && (forall c :: c in calls ==> IsContainerWork(c.act))
  {
    hide StartCalls, DatabaseNameForTimestamp, Polls;
    if Starts(oracle, at, request) {
      StartIsContainerWork(oracle, at + 1, MAX_ATTEMPTS);
      StartAccounts(oracle, at + 1, MAX_ATTEMPTS, Call(InspectRunningContainers, oracle(at, InspectRunningContainers)));
    }
    assert forall id :: Brought([], id) ==> false;
  }

  // ---- Creating and dropping the database ----

  /** Calls of one admin session: connect, the statements up to the first that throws, and end whatever happened. */
  function SessionActs(oracle: Oracle<Act>, at: nat, url: string, statements: seq<Act>): seq<Act> {
    if oracle(at, Connect(url)).Threw? then [Connect(url)]
    else [Connect(url)] + Attempted(oracle, at + 1, statements) + [EndClient]
  }

  predicate SessionSucceeds(oracle: Oracle<Act>, at: nat, url: string, statements: seq<Act>) {
    && oracle(at, Connect(url)).Ok?
    && Completed(oracle, at + 1, statements) == |statements|
    && oracle(at + 1 + |statements|, EndClient).Ok?
  }

  function CreateStatements(plan: Plan): seq<Act> {
    if Quotable(plan.databaseName) then [CreateDatabaseQuery(plan.databaseName)] else []
  }

  function DropStatements(plan: Plan): seq<Act> {
    [TerminateBackends(plan.databaseName)] + (if Quotable(plan.databaseName) then [DropDatabaseQuery(plan.databaseName)] else [])
  }

  method RunStatements(world: World<Act>, statements: seq<Act>) returns (ok: bool)
    modifies world
    ensures world.trace == old(world.trace) +
              Calls(world.oracle, |old(world.trace)|, Attempted(world.oracle, |old(world.trace)|, statements))
    ensures ok <==> Completed(world.oracle, |old(world.trace)|, statements) == |statements|
  {
    hide Calls, Completed;
    ghost var base := world.trace;
    for done := 0 to |statements|
      invariant forall i :: 0 <= i < done ==> world.oracle(|base| + i, statements[i]).Ok?
      invariant world.trace == base + Calls(world.oracle, |base|, statements[..done])
    {
      var reply := world.Perform(statements[done]);
      CallsOneMore(world.oracle, |base|, statements, done);
      if reply.Threw? {
        CompletedIs(world.oracle, |base|, statements, done);
        return false;
      }
    }
    CompletedIs(world.oracle, |base|, statements, |statements|);
    assert statements[..|statements|] == statements;
    ok := true;
  }

  lemma SessionCalls(oracle: Oracle<Act>, at: nat, url: string, statements: seq<Act>)
    requires oracle(at, Connect(url)).Ok?
    ensures var attempted := Attempted(oracle, at + 1, statements);
            var end := Call(EndClient, oracle(at + 1 + |attempted|, EndClient));
            Calls(oracle, at, SessionActs(oracle, at, url, statements)) ==
              [Call(Connect(url), oracle(at, Connect(url)))] + Calls(oracle, at + 1, attempted) + [end]
  {
    hide Attempted;
    var attempted := Attempted(oracle, at + 1, statements);
    CallsAppend(oracle, at, [Connect(url)], attempted);
    CallsAppend(oracle, at, [Connect(url)] + attempted, [EndClient]);
  }

  /** A statement whose name cannot be quoted throws before it reaches the server. */
  method RunSession(world: World<Act>, url: string, statements: seq<Act>, quoted: bool) returns (ok: bool)
    modifies world
    ensures world.trace == old(world.trace) +
              Calls(world.oracle, |old(world.trace)|, SessionActs(world.oracle, |old(world.trace)|, url, statements))
    ensures ok <==> quoted && SessionSucceeds(world.oracle, |old(world.trace)|, url, statements)
  {
    hide Completed;
    ghost var before := world.trace;
    ghost var at := |before|;
    var connected := world.Perform(Connect(url));
    if connected.Threw? {
      assert SessionActs(world.oracle, at, url, statements) == [Connect(url)];
      return false;
    }
    var ran := RunStatements(world, statements);
    ghost var calls := Calls(world.oracle, at + 1, Attempted(world.oracle, at + 1, statements));
    var ended := world.Perform(EndClient);
    assert world.trace == before + [Call(Connect(url), connected)] + calls + [Call(EndClient, ended)];
    Regroup(before, [Call(Connect(url), connected)], calls, [Call(EndClient, ended)]);
    SessionCalls(world.oracle, at, url, statements);
    ok := quoted && ran && ended.Ok?;
  }

  /** The run touches a database only if the plan owns it and its URL may be reset. */
  predicate Touches(plan: Plan, resettable: string -> bool) {
    plan.dropDatabase && resettable(plan.databaseUrl)
  }

  function CreateActs(oracle: Oracle<Act>, at: nat, plan: Plan, resettable: string -> bool): seq<Act> {
    if Touches(plan, resettable) then SessionActs(oracle, at, plan.adminUrl, CreateStatements(plan)) else []
  }

  predicate Creates(oracle: Oracle<Act>, at: nat, plan: Plan, resettable: string -> bool) {
    plan.dropDatabase ==>
      && resettable(plan.databaseUrl) && Quotable(plan.databaseName)
      && SessionSucceeds(oracle, at, plan.adminUrl, CreateStatements(plan))
  }

  function DropActs(oracle: Oracle<Act>, at: nat, plan: Plan, resettable: string -> bool): seq<Act> {
    if Touches(plan, resettable) then SessionActs(oracle, at, plan.adminUrl, DropStatements(plan)) else []
  }

  predicate Drops(oracle: Oracle<Act>, at: nat, plan: Plan, resettable: string -> bool) {
    plan.dropDatabase ==>
      && resettable(plan.databaseUrl) && Quotable(plan.databaseName)
      && SessionSucceeds(oracle, at, plan.adminUrl, DropStatements(plan))
  }

  method CreateDatabase(world: World<Act>, plan: Plan, resettable: string -> bool) returns (ok: bool)
    modifies world
    ensures world.trace == old(world.trace) +
              Calls(world.oracle, |old(world.trace)|, CreateActs(world.oracle, |old(world.trace)|, plan, resettable))
    ensures ok <==> Creates(world.oracle, |old(world.trace)|, plan, resettable)
  {
    if !plan.dropDatabase {
      return true;
    }
    if !resettable(plan.databaseUrl) {
      return false;
    }
    ok := RunSession(world, plan.adminUrl, CreateStatements(plan), Quotable(plan.databaseName));
  }

  method DropDatabase(world: World<Act>, plan: Plan, resettable: string -> bool) returns (ok: bool)
    modifies world
    ensures world.trace == old(world.trace) +
              Calls(world.oracle, |old(world.trace)|, DropActs(world.oracle, |old(world.trace)|, plan, resettable))
    ensures ok <==> Drops(world.oracle, |old(world.trace)|, plan, resettable)
  {
    if !plan.dropDatabase {
      return true;
    }
    if !resettable(plan.databaseUrl) {
      return false;
    }
    ok := RunSession(world, plan.adminUrl, DropStatements(plan), Quotable(plan.databaseName));
  }

  /** Every admin session that connects ends its client exactly once, as its very last call. */
  lemma SessionEndsItsClient(oracle: Oracle<Act>, at: nat, url: string, statements: seq<Act>)
    requires EndClient !in statements
    ensures var acts := SessionActs(oracle, at, url, statements);
            && (oracle(at, acts[0]).Ok? <==> acts[|acts| - 1] == EndClient)
            && (forall i :: 0 <= i < |acts| - 1 ==> acts[i] != EndClient)
            && (forall a :: a in acts ==> a in statements || a == Connect(url) || a == EndClient)
  {
    var attempted := Attempted(oracle, at + 1, statements);
    assert forall i :: 0 <= i < |attempted| ==> attempted[i] == statements[i];
  }

  /** The names this program makes up are always quotable, so its own databases are never skipped for their name. */
  lemma OwnNamesAreQuotable(timestamp: string)
    requires forall i :: 0 <= i < |timestamp| ==> IsDigit(timestamp[i])
    ensures Quotable(DatabaseNameForTimestamp(timestamp))
  {
    var prefix := "forgeloop_tmp_dogfood_";
    var name := prefix + timestamp;
    assert forall i :: 0 <= i < |prefix| ==> IsLetter(prefix[i]) || prefix[i] == '_';
    forall i | 0 <= i < |name|
      ensures IsLetter(name[i]) || IsDigit(name[i]) || name[i] == '_'
    {
      if i >= |prefix| {
        assert name[i] == timestamp[i - |prefix|];
      } else {
        assert name[i] == prefix[i];
      }
    }
  }
}
