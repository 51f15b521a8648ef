/** The evidence gate fed by the boundary driver itself: what a PASS then says about the two conversations. */
module SuperpowersRun {
  import opened Prelude
  import opened BoundaryRecord
  import opened BoundaryRuns
  import opened Evidence

  /** The client's two conversations were held by the driver, and these are their records. */
  ghost predicate HeldByDriver(client: Client, budget: nat, digest: string -> string, first: seq<Act>, second: seq<Act>) {
    && client.initial.Success? && client.rebase.Success?
    && ReturnedRun(Initial, budget, client.initial.value.sessionId, digest, first, client.initial.value)
    && ReturnedRun(Rebase, budget, client.rebase.value.sessionId, digest, second, client.rebase.value)
  }

  /** What a PASS needs of one conversation: a turn with a runtime job, and no turn whose job left its cleanup blocked. */
  ghost predicate Convincing(trace: seq<Act>) {
    && JobsIn(Decisions(trace)) != []
    && forall job :: ReadCleanup(job, Some(CleanupBlocked)) !in trace
  }

  lemma ValidPhaseIsConvincing(mode: Mode, budget: nat, sid: string, digest: string -> string, trace: seq<Act>, b: Boundary)
    requires ReturnedRun(mode, budget, sid, digest, trace, b) && b.evidence.jobs != [] && b.evidence.cleanup == Completed
    ensures Convincing(trace) && 0 < TurnsIn(Decisions(trace)) == b.aiTurns <= budget
  {
    hide ReturnedRun, Decisions, JobsIn, TurnsIn, FollowUpIn, Distinct, Gather;
    ResultSumsUpTheRun(mode, budget, sid, digest, trace, b);
    assert b.evidence.jobs[0] in b.evidence.jobs;
  }

  lemma DriverModes(client: Client, budget: nat, digest: string -> string, first: seq<Act>, second: seq<Act>)
    requires HeldByDriver(client, budget, digest, first, second)
    ensures client.initial.value.mode == Initial && client.rebase.value.mode == Rebase
    ensures client.initial.value.changeRequested && client.initial.value.aiTurns >= 0 && client.rebase.value.aiTurns >= 0
    ensures client.initial.value.followUp <==> FollowUpIn(Decisions(first))
    ensures client.rebase.value.followUp <==> FollowUpIn(Decisions(second))
    ensures |Filter(IsRequest, Posts(first))| == 1 && Filter(IsRequest, Posts(second)) == []
  {
    hide ReturnedRun, Decisions, JobsIn, TurnsIn, FollowUpIn, Posts, Filter, IsSummary, Distinct, Gather;
    var a, b := client.initial.value, client.rebase.value;
    ResultSumsUpTheRun(Initial, budget, a.sessionId, digest, first, a);
    ResultSumsUpTheRun(Rebase, budget, b.sessionId, digest, second, b);
    ChangeRequestsExactly(Initial, budget, a.sessionId, digest, first, a);
    ChangeRequestsExactly(Rebase, budget, b.sessionId, digest, second, b);
  }

  /** A PASS over driven conversations: one change was asked for, a follow-up was seen, and each conversation had real, clean turns. */
  lemma PassOverTheDriver(client: Client, budget: nat, digest: string -> string, first: seq<Act>, second: seq<Act>)
    requires HeldByDriver(client, budget, digest, first, second) && RunDogfood(client).Success?
    ensures |Filter(IsRequest, Posts(first))| == 1 && Filter(IsRequest, Posts(second)) == []
    ensures FollowUpIn(Decisions(first)) || FollowUpIn(Decisions(second))
    ensures Convincing(first) && Convincing(second)
    ensures RunDogfood(client).value.aiTurns == TurnsIn(Decisions(first)) + TurnsIn(Decisions(second))
    ensures 2 <= RunDogfood(client).value.aiTurns <= 2 * budget
  {
    DriverModes(client, budget, digest, first, second);
    PassMeansFullEvidence(client);
    var phases := PhasesOf(client);
    assert phases[0] in phases && phases[1] in phases;
    ValidPhaseIsConvincing(Initial, budget, client.initial.value.sessionId, digest, first, client.initial.value);
    ValidPhaseIsConvincing(Rebase, budget, client.rebase.value.sessionId, digest, second, client.rebase.value);
    hide *;
  }

  /**
   With the driver, a coverage blocker has one possible cause: when all steps up to the execution succeed, it is raised if and only
   if no leader visit of either conversation saw a follow-up question.
   */
  lemma CoverageMissingExactly(client: Client, budget: nat, digest: string -> string, first: seq<Act>, second: seq<Act>)
    requires HeldByDriver(client, budget, digest, first, second)
    requires client.seed.Success? && client.importRuntime.Success? && client.smokeWorker.Success? && client.startWorker.Success?
    requires client.mutateItem.Success? && client.staleCheck.Success?
    requires client.spec.Success? && client.plan.Success? && client.execution.Success?
    requires forall report :: client.render(report) != Failure(Plain(BoundaryCoverageMissing))
    requires forall report :: client.write(report) != Failure(Plain(BoundaryCoverageMissing))
    ensures RunSteps(client) == Failure(Plain(BoundaryCoverageMissing)) <==> !FollowUpIn(Decisions(first)) && !FollowUpIn(Decisions(second))
  {
    hide ReturnedRun, Decisions, FollowUpIn, Posts, Filter, IsRequest, DeriveCodexAppServerEvidence, CollectCodexAppServerPhaseEvidence, IsInvalid, PhasesOf;
    DriverModes(client, budget, digest, first, second);
    CollectedPhases(client);
    GateNeverSaysCoverage(PhasesOf(client));
  }

  lemma GateNeverSaysCoverage(phases: seq<Phase>)
    ensures DeriveCodexAppServerEvidence(phases) != Failure(Plain(BoundaryCoverageMissing))
  {
  }
}
