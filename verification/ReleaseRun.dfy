/**
 The strict release run: stages that may each throw, a cleanup whose every action may throw, and the verdict.
 A run is a sequence of calls; the outside world may answer each of them in any way.
 */
module ReleaseRun {
  import opened Prelude
  import opened Effects
  import opened ReleaseMarkers
  import opened DurablePostgres

  /** What a run holds between opening and closing it. */
  datatype Resource = FirstClient | FirstApp | FreshClient | FreshApp

  datatype Act =
    | PrepareTarget
    | CreateTarget
    | PushSchema
    | ResetTarget
    | Open(resource: Resource)
    | MakeRepository(afterReopen: bool)
    | RunLifecycle
    | Close(resource: Resource)
    | VerifyAfterReopen
    | DropTarget
    | RemoveContainer(id: string)
    | Extra(name: string)

  /** The stages in their order; each completes before the next begins. */
  function Stages(): seq<Act> {
    [ CreateTarget, PushSchema, ResetTarget,
      Open(FirstClient), MakeRepository(false), Open(FirstApp), RunLifecycle,
      Close(FirstApp), Close(FirstClient),
      Open(FreshClient), MakeRepository(true), Open(FreshApp), VerifyAfterReopen ]
  }

  const STAGE_COUNT: nat := 13

  /** The failure code in force while stage `k` runs; the last one also covers the final marker scan. */
  function CodeAt(k: nat): Code {
    if k == 0 then DatabaseMutationFailed
    else if k == 1 then SchemaPushFailed
    else if k == 2 then ResetFailed
    else if k <= 6 then LifecycleFailed
    else if k <= 8 then CleanupFailed
    else ReopenFailed
  }

  datatype Held = Held(freshApp: bool, freshClient: bool, firstApp: bool, firstClient: bool) {
    predicate Has(resource: Resource) {
      match resource
      case FirstClient => firstClient
      case FirstApp => firstApp
      case FreshClient => freshClient
      case FreshApp => freshApp
    }
  }

  const NOTHING := Held(false, false, false, false)

  /** What is held once exactly `done` stages have completed. */
  function HeldAfter(done: nat): Held {
    Held(done > 11, done > 9, 5 < done <= 7, 3 < done <= 8)
  }

  function When(condition: bool, act: Act): seq<Act> {
    if condition then [act] else []
  }

  /** A container is removed only when the plan says this run started it. */
  function ContainerActs(plan: Plan): seq<Act> {
    if plan.removeContainer && plan.containerId.Some? then [RemoveContainer(plan.containerId.value)] else []
  }

  /** What is still held, in the order it is closed. */
  function Closes(held: Held): seq<Act> {
    (When(held.freshApp, Close(FreshApp)) + When(held.freshClient, Close(FreshClient)))
    + (When(held.firstApp, Close(FirstApp)) + When(held.firstClient, Close(FirstClient)))
  }

  /** Cleanup in its fixed order; it does not depend on how any of its own actions end. */
  function CleanupActs(held: Held, plan: Plan, extras: seq<string>): seq<Act> {
    Closes(held) + [DropTarget] + ContainerActs(plan) + Map((name: string) => Extra(name), extras)
  }

  /** `extras` are the cleanup actions the lifecycle registers, `hasCodex` whether it produced strict local Codex evidence. */
  datatype Lifecycle = Lifecycle(markers: seq<Marker>, hasCodex: bool, extras: seq<string>)

  // ---- The run as a function of the world ----

  predicate Prepared(oracle: Oracle<Act>, at: nat) {
    oracle(at, PrepareTarget).Ok?
  }

  function StagesDone(oracle: Oracle<Act>, at: nat): (n: nat)
    ensures n <= STAGE_COUNT
  {
    Completed(oracle, at + 1, Stages())
  }

  function CleanupOf(oracle: Oracle<Act>, at: nat, plan: Plan, lifecycle: Lifecycle): seq<Act> {
    if !Prepared(oracle, at) then CleanupActs(NOTHING, plan, [])
    else
      var done := StagesDone(oracle, at);
      CleanupActs(HeldAfter(done), plan, if done >= 6 then lifecycle.extras else [])
  }

  function ForwardActs(oracle: Oracle<Act>, at: nat): (acts: seq<Act>)
    ensures |acts| >= 1
  {
    [PrepareTarget] + (if Prepared(oracle, at) then Attempted(oracle, at + 1, Stages()) else [])
  }

  /** Every call of a run that has a plan. */
  function RunActs(oracle: Oracle<Act>, at: nat, plan: Plan, lifecycle: Lifecycle): seq<Act> {
    ForwardActs(oracle, at) + CleanupOf(oracle, at, plan, lifecycle)
  }

  function Errors(calls: seq<Call<Act>>): seq<string> {
    if calls == [] then []
    else
      var last := calls[|calls| - 1];
      Errors(calls[..|calls| - 1]) + (if last.reply.Threw? then [last.reply.message] else [])
  }

  function CleanupErrors(oracle: Oracle<Act>, at: nat, plan: Plan, lifecycle: Lifecycle): seq<string> {
    Errors(Calls(oracle, at + |ForwardActs(oracle, at)|, CleanupOf(oracle, at, plan, lifecycle)))
  }

  /** Markers of a failed body and whether their own scan rejects the run. */
  function FailedBody(texts: Texts, done: nat, error: string, lifecycle: Lifecycle): seq<Marker> {
    var finished := done > 6;
    var codexCode := texts.projectionFailureCode(error);
    FailedReleaseFlowMarkers(texts, CodeAt(done), Some(error), if finished then lifecycle.markers else [],
      if done >= 9 && lifecycle.hasCodex && codexCode.Some? then Some((codexCode.value, error)) else None)
  }

  const UNSAFE := "unsafe serialized string"

  /** Stage results to markers, before cleanup. `error` is what the stage that stopped the run threw. */
  function BodyMarkers(texts: Texts, done: nat, error: string, lifecycle: Lifecycle): (seq<Marker>, bool) {
    var success := SuccessMarkers(lifecycle.markers);
    if done == STAGE_COUNT && texts.markersSafe(success) then (success, true)
    else
      var failed := FailedBody(texts, done, if done == STAGE_COUNT then UNSAFE else error, lifecycle);
      (failed, texts.markersSafe(failed))
  }

  function Settle(texts: Texts, body: (seq<Marker>, bool), cleanupErrors: seq<string>): Outcome {
    var markers := WithCleanupFailureDetails(texts, body.0, cleanupErrors);
    if body.1 && (cleanupErrors == [] || texts.markersSafe(markers)) then Reported(markers) else Rejected
  }

  /** No usable target: the closure markers are blocked, unless even the cleanup of the unusable plan failed. */
  function SettleBlocked(texts: Texts, cleanupErrors: seq<string>): Outcome {
    var markers := WithCleanupFailureDetails(texts, MarkersWithClosureBlocked(MissingDatabase), cleanupErrors);
    if texts.markersSafe(markers) then Reported(markers) else Rejected
  }

  /** What the stage after the last completed one threw; nothing when all completed. */
  function ErrorOf(oracle: Oracle<Act>, at: nat, done: nat): string {
    if done >= |Stages()| then ""
    else
      var reply := oracle(at + done, Stages()[done]);
      if reply.Threw? then reply.message else ""
  }

  function Verdict(texts: Texts, oracle: Oracle<Act>, at: nat, plan: Option<Plan>, lifecycle: Lifecycle): Outcome {
    if plan.None? then SettleBlocked(texts, [])
    else
      var errors := CleanupErrors(oracle, at, plan.value, lifecycle);
      if !Prepared(oracle, at) then SettleBlocked(texts, errors)
      else Settle(texts, BodyMarkers(texts, StagesDone(oracle, at), ErrorOf(oracle, at + 1, StagesDone(oracle, at)), lifecycle), errors)
  }

  // ---- The program ----

  lemma ErrorsAfter(calls: seq<Call<Act>>, last: Call<Act>)
    ensures Errors(calls + [last]) == Errors(calls) + (if last.reply.Threw? then [last.reply.message] else [])
  {
    assert (calls + [last])[..|calls|] == calls;
  }

  /** Runs every cleanup action whatever the others do, then lets the primary error win over cleanup errors. */
  method RunDogfoodCleanup(world: World<Act>, primary: Result<(), string>, cleanup: seq<Act>)
    returns (result: Result<(), string>, cleanupErrors: seq<string>)
    modifies world
    ensures world.trace == old(world.trace) + Calls(world.oracle, |old(world.trace)|, cleanup)
    ensures cleanupErrors == Errors(Calls(world.oracle, |old(world.trace)|, cleanup))
    ensures result == if primary.Failure? then primary
                      else if cleanupErrors != [] then Failure(cleanupErrors[0]) else Success(())
  {
    assert Errors([]) == [];
    hide Errors, Calls;
    ghost var before := world.trace;
    cleanupErrors := [];
    assert Calls(world.oracle, |before|, cleanup[..0]) == [];
    for i := 0 to |cleanup|
      invariant world.trace == before + Calls(world.oracle, |before|, cleanup[..i])
      invariant cleanupErrors == Errors(Calls(world.oracle, |before|, cleanup[..i]))
    {
      var reply := world.Perform(cleanup[i]);
      CallsOneMore(world.oracle, |before|, cleanup, i);
      ErrorsAfter(Calls(world.oracle, |before|, cleanup[..i]), Call(cleanup[i], reply));
      if reply.Threw? {
        cleanupErrors := cleanupErrors + [reply.message];
      }
    }
    assert cleanup[..|cleanup|] == cleanup;
    result := if primary.Failure? then primary else if cleanupErrors != [] then Failure(cleanupErrors[0]) else Success(());
  }

  /** Collects what is held in the fixed order and cleans it up; only the failures are reported. */
  method CleanupStrictReleaseFlow(world: World<Act>, held: Held, plan: Plan, extras: seq<string>) returns (cleanupErrors: seq<string>)
    modifies world
    ensures var acts := CleanupActs(held, plan, extras);
            && world.trace == old(world.trace) + Calls(world.oracle, |old(world.trace)|, acts)
            && cleanupErrors == Errors(Calls(world.oracle, |old(world.trace)|, acts))
  {
    var cleanup: seq<Act> := [];
    if held.freshApp {
      cleanup := cleanup + [Close(FreshApp)];
    }
    assert cleanup == When(held.freshApp, Close(FreshApp));
    ghost var soFar := cleanup;
    if held.freshClient {
      cleanup := cleanup + [Close(FreshClient)];
    }
    assert cleanup == soFar + When(held.freshClient, Close(FreshClient));
    soFar := cleanup;
    if held.firstApp {
      cleanup := cleanup + [Close(FirstApp)];
    }
    assert cleanup == soFar + When(held.firstApp, Close(FirstApp));
    soFar := cleanup;
    if held.firstClient {
      cleanup := cleanup + [Close(FirstClient)];
    }
    assert cleanup == soFar + When(held.firstClient, Close(FirstClient));
    Regroup(When(held.freshApp, Close(FreshApp)) + When(held.freshClient, Close(FreshClient)),
      When(held.firstApp, Close(FirstApp)), When(held.firstClient, Close(FirstClient)), []);
    cleanup := cleanup + [DropTarget];
    soFar := cleanup;
    if plan.removeContainer && plan.containerId.Some? {
      cleanup := cleanup + [RemoveContainer(plan.containerId.value)];
    }
    assert cleanup == soFar + ContainerActs(plan);
    cleanup := cleanup + Map((name: string) => Extra(name), extras);
    var result;
    result, cleanupErrors := RunDogfoodCleanup(world, Success(()), cleanup);
  }

  /** The first `k` stages have completed and nothing else has been called since `start`. */
  ghost predicate Reached(oracle: Oracle<Act>, start: seq<Call<Act>>, trace: seq<Call<Act>>, k: nat) {
    && k <= |Stages()|
    && trace == start + Calls(oracle, |start|, Stages()[..k])
    && forall i :: 0 <= i < k ==> oracle(|start| + i, Stages()[i]).Ok?
  }

  /** The stages ended: `done` completed, and the next one, if there is one, threw `error`. */
  ghost predicate Ended(oracle: Oracle<Act>, start: seq<Call<Act>>, trace: seq<Call<Act>>, done: nat, error: Option<string>) {
    && done == Completed(oracle, |start|, Stages())
    && trace == start + Calls(oracle, |start|, Attempted(oracle, |start|, Stages()))
    && (error.None? <==> done == |Stages()|)
    && (error.Some? ==> oracle(|start| + done, Stages()[done]) == Threw(error.value))
  }

  /** One stage: performs it and keeps the account of how far the run has come. */
  method Stage(world: World<Act>, ghost start: seq<Call<Act>>, ghost k: nat, act: Act) returns (error: Option<string>)
    requires k < |Stages()| && act == Stages()[k]
    requires Reached(world.oracle, start, world.trace, k)
    modifies world
    ensures error.None? ==> Reached(world.oracle, start, world.trace, k + 1)
    ensures error.Some? ==> Ended(world.oracle, start, world.trace, k, error)
  {
    hide Completed, Stages, Calls;
    ghost var stages := Stages();
    CallsOneMore(world.oracle, |start|, stages, k);
    var reply := world.Perform(act);
    if reply.Threw? {
      CompletedIs(world.oracle, |start|, stages, k);
    }
    error := if reply.Threw? then Some(reply.message) else None;
  }

  lemma AllStagesReached(oracle: Oracle<Act>, start: seq<Call<Act>>, trace: seq<Call<Act>>)
    requires Reached(oracle, start, trace, |Stages()|)
    ensures Ended(oracle, start, trace, |Stages()|, None)
  {
    hide Stages, Completed;
    CompletedIs(oracle, |start|, Stages(), |Stages()|);
    assert Stages()[..|Stages()|] == Stages();
  }

  lemma StageOrder()
    ensures var s := Stages();
            && |s| == STAGE_COUNT
            && s[0] == CreateTarget && s[1] == PushSchema && s[2] == ResetTarget
            && s[3] == Open(FirstClient) && s[4] == MakeRepository(false) && s[5] == Open(FirstApp) && s[6] == RunLifecycle
            && s[7] == Close(FirstApp) && s[8] == Close(FirstClient)
            && s[9] == Open(FreshClient) && s[10] == MakeRepository(true) && s[11] == Open(FreshApp) && s[12] == VerifyAfterReopen
  {
  }

  /** What the run's variables hold when the stages stop. */
  datatype Progress = Progress(held: Held, code: Code, lifecycleTried: bool, lifecycleDone: bool)

  function ProgressAt(done: nat): Progress {
    Progress(HeldAfter(done), CodeAt(done), done >= 6, done > 6)
  }

  method MutateDatabase(world: World<Act>, ghost start: seq<Call<Act>>) returns (progress: Progress, error: Option<string>, ghost done: nat)
    requires Reached(world.oracle, start, world.trace, 0)
    modifies world
    ensures progress == ProgressAt(done)
    ensures error.Some? ==> Ended(world.oracle, start, world.trace, done, error)
    ensures error.None? ==> done == 3 && Reached(world.oracle, start, world.trace, 3)
  {
    hide Reached, Ended, Stages;
    StageOrder();
    progress, done := Progress(NOTHING, DatabaseMutationFailed, false, false), 0;
    error := Stage(world, start, 0, CreateTarget);
    if error.Some? { return; }
    progress, done := progress.(code := SchemaPushFailed), 1;
    error := Stage(world, start, 1, PushSchema);
    if error.Some? { return; }
    progress, done := progress.(code := ResetFailed), 2;
    error := Stage(world, start, 2, ResetTarget);
    if error.Some? { return; }
    progress, done := progress.(code := LifecycleFailed), 3;
  }

  method FirstPass(world: World<Act>, ghost start: seq<Call<Act>>, before: Progress) returns (progress: Progress, error: Option<string>, ghost done: nat)
    requires Reached(world.oracle, start, world.trace, 3) && before == ProgressAt(3)
    modifies world
    ensures progress == ProgressAt(done)
    ensures error.Some? ==> Ended(world.oracle, start, world.trace, done, error)
    ensures error.None? ==> done == 9 && Reached(world.oracle, start, world.trace, 9)
  {
    hide Reached, Ended, Stages;
    StageOrder();
    progress, done := before, 3;
    error := Stage(world, start, 3, Open(FirstClient));
    if error.Some? { return; }
    progress, done := progress.(held := progress.held.(firstClient := true)), 4;
    error := Stage(world, start, 4, MakeRepository(false));
    if error.Some? { return; }
    done := 5;
    error := Stage(world, start, 5, Open(FirstApp));
    if error.Some? { return; }
    progress, done := progress.(held := progress.held.(firstApp := true), lifecycleTried := true), 6;
    error := Stage(world, start, 6, RunLifecycle);
    if error.Some? { return; }
    progress, done := progress.(code := CleanupFailed, lifecycleDone := true), 7;
    error := Stage(world, start, 7, Close(FirstApp));
    if error.Some? { return; }
    progress, done := progress.(held := progress.held.(firstApp := false)), 8;
    error := Stage(world, start, 8, Close(FirstClient));
    if error.Some? { return; }
    progress, done := progress.(held := progress.held.(firstClient := false), code := ReopenFailed), 9;
  }

  method ReopenAndVerify(world: World<Act>, ghost start: seq<Call<Act>>, before: Progress) returns (progress: Progress, error: Option<string>, ghost done: nat)
    requires Reached(world.oracle, start, world.trace, 9) && before == ProgressAt(9)
    modifies world
    ensures progress == ProgressAt(done)
    ensures Ended(world.oracle, start, world.trace, done, error)
  {
    hide Reached, Ended, Stages;
    StageOrder();
    progress, done := before, 9;
    error := Stage(world, start, 9, Open(FreshClient));
    if error.Some? { return; }
    progress, done := progress.(held := progress.held.(freshClient := true)), 10;
    error := Stage(world, start, 10, MakeRepository(true));
    if error.Some? { return; }
    done := 11;
    error := Stage(world, start, 11, Open(FreshApp));
    if error.Some? { return; }
    progress, done := progress.(held := progress.held.(freshApp := true)), 12;
    error := Stage(world, start, 12, VerifyAfterReopen);
    if error.Some? { return; }
    done := 13;
    AllStagesReached(world.oracle, start, world.trace);
  }

  /** The try block: every stage in order, stopping at the first that throws. */
  method RunStages(world: World<Act>) returns (progress: Progress, error: Option<string>)
    modifies world
    ensures var done := Completed(world.oracle, |old(world.trace)|, Stages());
            progress == ProgressAt(done) && Ended(world.oracle, old(world.trace), world.trace, done, error)
  {
    ghost var start := world.trace;
    assert Reached(world.oracle, start, world.trace, 0);
    ghost var done;
    progress, error, done := MutateDatabase(world, start);
    if error.None? {
      progress, error, done := FirstPass(world, start, progress);
      if error.None? {
        progress, error, done := ReopenAndVerify(world, start, progress);
      }
    }
  }

  /** The markers the try and catch blocks leave, and whether their scan lets them through. */
  method JudgeStages(texts: Texts, progress: Progress, error: Option<string>, lifecycle: Lifecycle, ghost done: nat)
    returns (markers: seq<Marker>, accepted: bool)
    requires progress == ProgressAt(done) && done <= STAGE_COUNT && (error.None? <==> done == STAGE_COUNT)
    ensures (markers, accepted) == BodyMarkers(texts, done, if error.Some? then error.value else "", lifecycle)
  {
    hide SuccessMarkers, FailedReleaseFlowMarkers;
    markers, accepted := SuccessMarkers(lifecycle.markers), true;
    if error.Some? || !texts.markersSafe(markers) {
      var thrown := if error.Some? then error.value else UNSAFE;
      var codexCode := texts.projectionFailureCode(thrown);
      markers := FailedReleaseFlowMarkers(texts, progress.code, Some(thrown), if progress.lifecycleDone then lifecycle.markers else [],
        if progress.code == ReopenFailed && lifecycle.hasCodex && codexCode.Some? then Some((codexCode.value, thrown)) else None);
      accepted := texts.markersSafe(markers);
    }
  }

  /** The target could not be prepared: only what planning acquired is cleaned up. */
  method ReportBlocked(texts: Texts, world: World<Act>, plan: Option<Plan>) returns (outcome: Outcome)
    modifies world
    ensures var acts := if plan.None? then [] else CleanupActs(NOTHING, plan.value, []);
            && world.trace == old(world.trace) + Calls(world.oracle, |old(world.trace)|, acts)
            && outcome == SettleBlocked(texts, Errors(Calls(world.oracle, |old(world.trace)|, acts)))
  {
    hide CleanupActs, MarkersWithClosureBlocked;
    var cleanupErrors := [];
    if plan.Some? {
      cleanupErrors := CleanupStrictReleaseFlow(world, NOTHING, plan.value, []);
    }
    var blocked := WithCleanupFailureDetails(texts, MarkersWithClosureBlocked(MissingDatabase), cleanupErrors);
    outcome := if texts.markersSafe(blocked) then Reported(blocked) else Rejected;
  }

  /** The finally block: cleanup always runs, and its failures are written over whatever markers there are. */
  method SettleStages(texts: Texts, world: World<Act>, plan: Plan, held: Held, extras: seq<string>, markers: seq<Marker>, accepted: bool)
    returns (outcome: Outcome)
    modifies world
    ensures var acts := CleanupActs(held, plan, extras);
            && world.trace == old(world.trace) + Calls(world.oracle, |old(world.trace)|, acts)
            && outcome == Settle(texts, (markers, accepted), Errors(Calls(world.oracle, |old(world.trace)|, acts)))
  {
    hide CleanupActs, WithCleanupFailureDetails;
    var cleanupErrors := CleanupStrictReleaseFlow(world, held, plan, extras);
    var settled := WithCleanupFailureDetails(texts, markers, cleanupErrors);
    outcome := if accepted && (cleanupErrors == [] || texts.markersSafe(settled)) then Reported(settled) else Rejected;
  }

  /** Everything after a successful preparation. */
  method RunBody(texts: Texts, world: World<Act>, plan: Plan, lifecycle: Lifecycle) returns (outcome: Outcome)
    modifies world
    ensures var oracle, at := world.oracle, |old(world.trace)|;
            var done, tried := Completed(oracle, at, Stages()), Attempted(oracle, at, Stages());
            var cleanup := CleanupActs(HeldAfter(done), plan, if done >= 6 then lifecycle.extras else []);
            && world.trace == old(world.trace) + Calls(oracle, at, tried + cleanup)
            && outcome == Settle(texts, BodyMarkers(texts, done, ErrorOf(oracle, at, done), lifecycle),
                                 Errors(Calls(oracle, at + |tried|, cleanup)))
  {
    hide CleanupActs, Calls, Errors, Completed, Attempted, Stages, BodyMarkers, Settle, HeldAfter, CodeAt;
    StageOrder();
    ghost var before, at := world.trace, |world.trace|;
    var progress, error := RunStages(world);
    ghost var done, tried := Completed(world.oracle, at, Stages()), Attempted(world.oracle, at, Stages());
    var markers, accepted := JudgeStages(texts, progress, error, lifecycle, done);
    var extras := if progress.lifecycleTried then lifecycle.extras else [];
    outcome := SettleStages(texts, world, plan, progress.held, extras, markers, accepted);
    ghost var cleanup := CleanupActs(progress.held, plan, extras);
    CallsAppend(world.oracle, at, tried, cleanup);
    Regroup(before, Calls(world.oracle, at, tried), Calls(world.oracle, at + |tried|, cleanup), []);
  }

  /** The whole run; a planning error leaves no plan, and then there is nothing to clean up. */
  method RunStrictReleaseFlow(texts: Texts, world: World<Act>, plan: Option<Plan>, lifecycle: Lifecycle) returns (outcome: Outcome)
    modifies world
    ensures outcome == Verdict(texts, world.oracle, |old(world.trace)|, plan, lifecycle)
    ensures world.trace == old(world.trace) +
              (if plan.None? then []
               else Calls(world.oracle, |old(world.trace)|, RunActs(world.oracle, |old(world.trace)|, plan.value, lifecycle)))
  {
    hide CleanupActs, Calls, Errors, Completed, Attempted, Stages, BodyMarkers, Settle, SettleBlocked;
    ghost var before, at := world.trace, |world.trace|;
    if plan.None? {
      NoCalls(world.oracle, at);
      outcome := ReportBlocked(texts, world, None);
      return;
    }
    var prepared := world.Perform(PrepareTarget);
    ghost var cleanup := CleanupOf(world.oracle, at, plan.value, lifecycle);
    ghost var tried := if prepared.Ok? then Attempted(world.oracle, at + 1, Stages()) else [];
    if prepared.Threw? {
      outcome := ReportBlocked(texts, world, plan);
    } else {
      outcome := RunBody(texts, world, plan.value, lifecycle);
    }
    RunCalls(world.oracle, at, tried, cleanup);
    Regroup(before, [Call(PrepareTarget, prepared)], Calls(world.oracle, at + 1, tried + cleanup), []);
  }

  lemma RunCalls(oracle: Oracle<Act>, at: nat, tried: seq<Act>, cleanup: seq<Act>)
    ensures Calls(oracle, at, [PrepareTarget] + tried + cleanup) ==
            [Call(PrepareTarget, oracle(at, PrepareTarget))] + Calls(oracle, at + 1, tried + cleanup)
    ensures [] + cleanup == cleanup
  {
    Regroup([PrepareTarget], tried, cleanup, []);
    CallsAppend(oracle, at, [PrepareTarget], tried + cleanup);
    NoCalls(oracle, at);
    assert Calls(oracle, at, [PrepareTarget]) == [Call(PrepareTarget, oracle(at, PrepareTarget))];
  }

  lemma NoCalls(oracle: Oracle<Act>, at: nat)
    ensures Calls(oracle, at, []) == [] && Errors(Calls(oracle, at, [])) == []
  {
  }
}
