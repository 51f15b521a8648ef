/** The evidence gate of the runtime dogfood: five phases in fixed order, folded into one report or one blocker. */
module Evidence {
  import opened Prelude

  datatype Cleanup = Completed | CleanupBlocked

  datatype Mode = Initial | Rebase

  /** What every phase delivers. */
  datatype PhaseEvidence = PhaseEvidence(schemas: seq<string>, jobs: seq<string>, appServer: seq<string>, cleanup: Cleanup)

  datatype Boundary = Boundary(
    mode: Mode, sessionId: string, revisionId: string, aiTurns: int, followUp: bool, changeRequested: bool, evidence: PhaseEvidence)

  datatype PhaseName = BoundaryInitial | BoundaryRebase | Spec | ExecutionPlan | Execution

  datatype Phase = Phase(name: PhaseName, expected: string, evidence: PhaseEvidence)

  function ExpectedSchema(name: PhaseName): string {
    match name
    case BoundaryInitial => "boundary_round_result.v1"
    case BoundaryRebase => "boundary_round_result.v1"
    case Spec => "spec_revision.v1"
    case ExecutionPlan => "execution_plan_revision.v1"
    case Execution => "codex_run_execution_result.v1"
  }

  datatype BlockerCode = PhaseEvidenceMissing | AppServerEvidenceMissing | BoundaryCoverageEvidenceMissing | BoundaryCoverageMissing | Other(code: string)

  /** A blocker report; `worktreeBase` is filled in on the way out. */
  datatype Blocker = Blocker(code: BlockerCode, cleanup: Option<Cleanup>, phases: Option<seq<Phase>>, worktreeBase: Option<string>)

  /** Blockers are the errors the program knows; anything else is passed on as it is. */
  datatype Error = Blocked(blocker: Blocker) | Crash(message: string)

  function Plain(code: BlockerCode): Error {
    Blocked(Blocker(code, None, None, None))
  }

  function FindBoundary(boundaries: seq<Boundary>, mode: Mode): (r: Option<Boundary>)
    ensures r.Some? ==> r.value in boundaries && r.value.mode == mode
    ensures r.None? ==> forall b :: b in boundaries ==> b.mode != mode
  {
    if boundaries == [] then None else if boundaries[0].mode == mode then Some(boundaries[0]) else FindBoundary(boundaries[1..], mode)
  }

  function CollectPhase(name: PhaseName, evidence: Option<PhaseEvidence>): Result<Phase, Error> {
    if evidence.None? then Failure(Plain(PhaseEvidenceMissing)) else Success(Phase(name, ExpectedSchema(name), evidence.value))
  }

  function EvidenceOf(boundary: Option<Boundary>): Option<PhaseEvidence> {
    if boundary.Some? then Some(boundary.value.evidence) else None
  }

  function CollectCodexAppServerPhaseEvidence(
      boundaries: seq<Boundary>, spec: PhaseEvidence, plan: PhaseEvidence, execution: PhaseEvidence): Result<seq<Phase>, Error>
  {
    var initial :- CollectPhase(BoundaryInitial, EvidenceOf(FindBoundary(boundaries, Initial)));
    var rebase :- CollectPhase(BoundaryRebase, EvidenceOf(FindBoundary(boundaries, Rebase)));
    var specPhase :- CollectPhase(Spec, Some(spec));
    var planPhase :- CollectPhase(ExecutionPlan, Some(plan));
    var executionPhase :- CollectPhase(Execution, Some(execution));
    Success([initial, rebase, specPhase, planPhase, executionPhase])
  }

  predicate IsInvalid(p: Phase) {
    || p.evidence.jobs == []
    || p.evidence.appServer == []
    || p.expected !in p.evidence.schemas
    || p.evidence.cleanup != Completed
  }

  function FirstInvalid(phases: seq<Phase>): (r: Option<nat>)
    ensures r.Some? ==> r.value < |phases| && IsInvalid(phases[r.value]) && forall i :: 0 <= i < r.value ==> !IsInvalid(phases[i])
    ensures r.None? ==> forall i :: 0 <= i < |phases| ==> !IsInvalid(phases[i])
  {
    if phases == [] then None
    else if IsInvalid(phases[0]) then Some(0)
    else
      match FirstInvalid(phases[1..])
      case None => None
      case Some(i) => Some(i + 1)
  }

  const JOBS: Phase -> seq<string> := (p: Phase) => p.evidence.jobs
  const APP_SERVER: Phase -> seq<string> := (p: Phase) => p.evidence.appServer
  const SCHEMAS: Phase -> seq<string> := (p: Phase) => p.evidence.schemas

  datatype AppServerEvidence = AppServerEvidence(schemas: seq<string>, jobs: seq<string>, appServer: seq<string>, phases: seq<Phase>)

  function DeriveCodexAppServerEvidence(phases: seq<Phase>): Result<AppServerEvidence, Error> {
    match FirstInvalid(phases)
    case Some(i) =>
      var cleanup := if phases[i].evidence.cleanup == CleanupBlocked then CleanupBlocked else Completed;
      Failure(Blocked(Blocker(PhaseEvidenceMissing, Some(cleanup), Some(phases), None)))
    case None =>
      var jobs, appServer, schemas := Gather(JOBS, phases), Gather(APP_SERVER, phases), Gather(SCHEMAS, phases);
      if jobs == [] || schemas == [] || appServer == [] then Failure(Plain(AppServerEvidenceMissing))
      else
        Success(AppServerEvidence(Unique(schemas), Unique(jobs), Unique(appServer),
          Map((p: Phase) => p.(evidence := p.evidence.(cleanup := Completed)), phases)))
  }

  // ---- What the gate means ----

  ghost predicate IsFirstOccurrenceUnion(list: seq<string>, pick: Phase -> seq<string>, phases: seq<Phase>) {
    && list == Unique(Gather(pick, phases))
    && Distinct(list)
    && (forall d :: d in list <==> exists i :: 0 <= i < |phases| && d in pick(phases[i]))
  }

  /**
   The gate, exactly: evidence is derived when there is a phase and no phase is invalid, and then the phases come out
   unchanged and each aggregate list is the first-occurrence union of the phase lists. Otherwise it blocks, and the first
   invalid phase, if any, decides the reported cleanup status.
   */
  lemma DeriveExactly(phases: seq<Phase>)
    ensures var r := DeriveCodexAppServerEvidence(phases);
            && (r.Success? <==> phases != [] && forall p :: p in phases ==> !IsInvalid(p))
            && (r.Success? ==>
                 && r.value.phases == phases
                 && IsFirstOccurrenceUnion(r.value.jobs, JOBS, phases)
                 && IsFirstOccurrenceUnion(r.value.appServer, APP_SERVER, phases)
                 && IsFirstOccurrenceUnion(r.value.schemas, SCHEMAS, phases))
            && (r.Failure? ==> r.error.Blocked? && r.error.blocker.worktreeBase == None)
            && (FirstInvalid(phases).Some? ==>
                 && r.Failure?
                 && r.error.blocker.phases == Some(phases)
                 && r.error.blocker.cleanup == Some(phases[FirstInvalid(phases).value].evidence.cleanup))
  {
    GatherIsUnion(JOBS, phases);
    GatherIsUnion(APP_SERVER, phases);
    GatherIsUnion(SCHEMAS, phases);
    if phases != [] && FirstInvalid(phases).None? {
      var p := phases[0];
      assert !IsInvalid(p);
      assert p.evidence.jobs[0] in JOBS(p) && p.evidence.appServer[0] in APP_SERVER(p) && p.expected in SCHEMAS(p);
      assert p.evidence.jobs[0] in Gather(JOBS, phases) && p.evidence.appServer[0] in Gather(APP_SERVER, phases) && p.expected in Gather(SCHEMAS, phases);
    }
  }

  /** Collection succeeds exactly when both boundary modes are present, and then gives the five phases in order. */
  lemma CollectExactly(boundaries: seq<Boundary>, spec: PhaseEvidence, plan: PhaseEvidence, execution: PhaseEvidence)
    ensures var r := CollectCodexAppServerPhaseEvidence(boundaries, spec, plan, execution);
            && (r.Success? <==> (exists b :: b in boundaries && b.mode == Initial) && (exists b :: b in boundaries && b.mode == Rebase))
            && (r.Success? ==>
                 && |r.value| == 5
                 && Map((p: Phase) => p.name, r.value) == [BoundaryInitial, BoundaryRebase, Spec, ExecutionPlan, Execution]
                 && (forall p :: p in r.value ==> p.expected == ExpectedSchema(p.name))
                 && (exists b :: b in boundaries && b.mode == Initial && b.evidence == r.value[0].evidence)
                 && (exists b :: b in boundaries && b.mode == Rebase && b.evidence == r.value[1].evidence)
                 && r.value[2].evidence == spec && r.value[3].evidence == plan && r.value[4].evidence == execution)
            && (r.Failure? ==> r.error == Plain(PhaseEvidenceMissing))
  {
    hide ExpectedSchema;
  }

  // ---- The whole run ----

  /** What each client step answers; a step that is not reached has no effect. */
  datatype Client = Client(
    worktreeBase: string,
    seed: Result<string, Error>,
    importRuntime: Result<(), Error>,
    smokeWorker: Result<(), Error>,
    startWorker: Result<(), Error>,
    initial: Result<Boundary, Error>,
    mutateItem: Result<(), Error>,
    staleCheck: Result<(), Error>,
    rebase: Result<Boundary, Error>,
    spec: Result<PhaseEvidence, Error>,
    plan: Result<PhaseEvidence, Error>,
    execution: Result<PhaseEvidence, Error>,
    render: Report -> Result<(), Error>,
    write: Report -> Result<(), Error>)

  datatype Report = Report(
    itemId: string, sessionId: string, revisionId: string, evidence: AppServerEvidence, worktreeBase: string,
    aiTurns: int, followUp: bool, changeRequested: bool, cleanup: Cleanup)

  function AssertBoundaryCoverage(b: Boundary): Result<(), Error> {
    if b.aiTurns < 0 then Failure(Plain(BoundaryCoverageEvidenceMissing)) else Success(())
  }

  function RunSteps(client: Client): Result<Report, Error> {
    var itemId :- client.seed;
    var _ :- client.importRuntime;
    var _ :- client.smokeWorker;
    var _ :- client.startWorker;
    var initial :- client.initial;
    var _ :- client.mutateItem;
    var _ :- client.staleCheck;
    var rebased :- client.rebase;
    var _ :- AssertBoundaryCoverage(initial);
    var _ :- AssertBoundaryCoverage(rebased);
    var spec :- client.spec;
    var plan :- client.plan;
    var execution :- client.execution;
    var followUp, changeRequested := initial.followUp || rebased.followUp, initial.changeRequested || rebased.changeRequested;
    var _ :- if followUp && changeRequested then Success(()) else Failure(Plain(BoundaryCoverageMissing));
    var phases :- CollectCodexAppServerPhaseEvidence([initial, rebased], spec, plan, execution);
    var evidence :- DeriveCodexAppServerEvidence(phases);
    var cleanup := if forall p :: p in evidence.phases ==> p.evidence.cleanup == Completed then Completed else CleanupBlocked;
    var report := Report(itemId, rebased.sessionId, rebased.revisionId, evidence, client.worktreeBase,
      initial.aiTurns + rebased.aiTurns, followUp, changeRequested, cleanup);
    var _ :- client.render(report);
    var _ :- client.write(report);
    Success(report)
  }

  /** A blocker leaves with the worktree base; one it already carries is kept. */
  function WithWorktreeBase(error: Error, base: string): Error {
    match error
    case Blocked(b) => Blocked(b.(worktreeBase := if b.worktreeBase.Some? then b.worktreeBase else Some(base)))
    case Crash(_) => error
  }

  function RunDogfood(client: Client): Result<Report, Error> {
    match RunSteps(client)
    case Success(report) => Success(report)
    case Failure(error) => Failure(WithWorktreeBase(error, client.worktreeBase))
  }

  /** The two boundary runs answered in the modes they were asked for. */
  predicate ModesAnswered(client: Client) {
    && client.initial.Success? && client.rebase.Success?
    && (client.initial.value.mode != client.rebase.value.mode)
  }

  /** Every step before rendering delivered what the report needs. */
  predicate FullEvidence(client: Client) {
    && client.seed.Success? && client.importRuntime.Success? && client.smokeWorker.Success? && client.startWorker.Success?
    && client.mutateItem.Success? && client.staleCheck.Success?
    && client.spec.Success? && client.plan.Success? && client.execution.Success?
    && ModesAnswered(client)
    && client.initial.value.aiTurns >= 0 && client.rebase.value.aiTurns >= 0
    && (client.initial.value.followUp || client.rebase.value.followUp)
    && (client.initial.value.changeRequested || client.rebase.value.changeRequested)
    && forall p :: p in PhasesOf(client) ==> !IsInvalid(p)
  }

  function PhasesOf(client: Client): seq<Phase>
    requires ModesAnswered(client) && client.spec.Success? && client.plan.Success? && client.execution.Success?
  {
    var (first, second) := if client.initial.value.mode == Initial then (client.initial.value, client.rebase.value)
                           else (client.rebase.value, client.initial.value);
    [ Phase(BoundaryInitial, ExpectedSchema(BoundaryInitial), first.evidence),
      Phase(BoundaryRebase, ExpectedSchema(BoundaryRebase), second.evidence),
      Phase(Spec, ExpectedSchema(Spec), client.spec.value),
      Phase(ExecutionPlan, ExpectedSchema(ExecutionPlan), client.plan.value),
      Phase(Execution, ExpectedSchema(Execution), client.execution.value) ]
  }

  lemma CollectedPhases(client: Client)
    requires client.initial.Success? && client.rebase.Success? && client.spec.Success? && client.plan.Success? && client.execution.Success?
    ensures var r := CollectCodexAppServerPhaseEvidence([client.initial.value, client.rebase.value],
                       client.spec.value, client.plan.value, client.execution.value);
            (r.Success? <==> ModesAnswered(client)) && (r.Success? ==> r.value == PhasesOf(client))
  {
    hide ExpectedSchema;
    var pair := [client.initial.value, client.rebase.value];
    assert pair[1..] == [client.rebase.value] && pair[1..][1..] == [];
  }

  /**
   PASS means full evidence, exactly: a report comes out if and only if every step succeeded, both boundary modes are there with
   their coverage, all five phases in their fixed order are valid, and the report renders and is written. The report aggregates those
   very phases and is cleaned up.
   */
  lemma PassMeansFullEvidence(client: Client)
    ensures var r := RunDogfood(client);
            && (r.Success? ==>
                 && FullEvidence(client)
                 && r.value.evidence.phases == PhasesOf(client)
                 && IsFirstOccurrenceUnion(r.value.evidence.jobs, JOBS, PhasesOf(client))
                 && IsFirstOccurrenceUnion(r.value.evidence.appServer, APP_SERVER, PhasesOf(client))
                 && IsFirstOccurrenceUnion(r.value.evidence.schemas, SCHEMAS, PhasesOf(client))
                 && r.value.sessionId == client.rebase.value.sessionId
                 && r.value.revisionId == client.rebase.value.revisionId
                 && r.value.aiTurns == client.initial.value.aiTurns + client.rebase.value.aiTurns
                 && r.value.followUp && r.value.changeRequested
                 && r.value.cleanup == Completed
                 && r.value.worktreeBase == client.worktreeBase
                 && client.render(r.value).Success? && client.write(r.value).Success?)
            && (FullEvidence(client) && (forall report :: client.render(report).Success? && client.write(report).Success?) ==> r.Success?)
  {
    hide CollectCodexAppServerPhaseEvidence, DeriveCodexAppServerEvidence, IsInvalid, ExpectedSchema, IsFirstOccurrenceUnion, PhasesOf;
    if client.initial.Success? && client.rebase.Success? && client.spec.Success? && client.plan.Success? && client.execution.Success? {
      CollectedPhases(client);
      if ModesAnswered(client) {
        DeriveExactly(PhasesOf(client));
        PhasesAreFive(client);
      }
    }
  }

  lemma PhasesAreFive(client: Client)
    requires ModesAnswered(client) && client.spec.Success? && client.plan.Success? && client.execution.Success?
    ensures PhasesOf(client) != []
    ensures (forall p :: p in PhasesOf(client) ==> !IsInvalid(p)) ==> forall p :: p in PhasesOf(client) ==> p.evidence.cleanup == Completed
  {
    hide ExpectedSchema;
  }

  /** Every blocker that leaves the run carries a worktree base, and one that already had it keeps its own. */
  lemma BlockersCarryTheBase(client: Client)
    requires RunDogfood(client).Failure? && RunDogfood(client).error.Blocked?
    ensures var raised := RunSteps(client).error.blocker;
            var left := RunDogfood(client).error.blocker;
            && left.worktreeBase == Some(if raised.worktreeBase.Some? then raised.worktreeBase.value else client.worktreeBase)
            && left == raised.(worktreeBase := left.worktreeBase)
  {
    hide RunSteps;
  }
}
