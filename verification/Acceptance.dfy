/** Strict local Codex acceptance: which work items qualify, what blocks the others, and the two-item minimum. */
module Acceptance {
  import opened Prelude

  datatype WorkItem = WorkItem(id: string)
  datatype ExecutionPackage = ExecutionPackage(id: string, workItemId: string, lastRunSessionId: Option<string>)
  datatype RunSpec = RunSpec(executorType: Option<string>, workflowOnly: Option<bool>)
  datatype RunSession = RunSession(id: string, status: string, executorType: Option<string>, runSpec: Option<RunSpec>)
  datatype ReviewPacket = ReviewPacket(id: string, packageId: string, runSessionId: string, status: string, decision: string)

  datatype Code =
    | WorkItemCompletionIncomplete
    | PackageMissingCurrentRun
    | RunSessionMissing
    | RunSessionNotLocalCodex
    | RunSessionWorkflowOnly
    | RunSessionNotSucceeded
    | ReviewPacketMissingOrUnapproved
    | RequiredArtifactMissing
    | StrictMinimumNotMet

  datatype Blocker = Blocker(code: Code, workItemId: Option<string>, packageId: Option<string>, runSessionId: Option<string>)

  datatype Qualifying = Qualifying(workItemId: string, packageId: string, runSessionId: string, reviewPacketId: string)

  datatype Verdict = Verdict(passed: bool, qualifying: seq<Qualifying>, blockers: seq<Blocker>)

  /** The records under evaluation, with the two derivations that are not modelled. */
  datatype Input = Input(
    workItems: seq<WorkItem>,
    packages: seq<ExecutionPackage>,
    runSessions: seq<RunSession>,
    reviewPackets: seq<ReviewPacket>,
    done: (WorkItem, seq<ExecutionPackage>) -> bool,
    missingArtifacts: (ExecutionPackage, RunSession) -> seq<string>)
  {
    function PackagesOf(w: WorkItem): seq<ExecutionPackage> {
      Filter((p: ExecutionPackage) => p.workItemId == w.id, packages)
    }

    predicate IsDone(w: WorkItem) {
      done(w, PackagesOf(w))
    }
  }

  function FindRun(runs: seq<RunSession>, id: string): (r: Option<RunSession>)
    ensures r.Some? ==> r.value in runs && r.value.id == id
    ensures r.None? ==> forall run :: run in runs ==> run.id != id
  {
    if runs == [] then None else if runs[0].id == id then Some(runs[0]) else FindRun(runs[1..], id)
  }

  predicate IsApproval(p: ExecutionPackage, run: RunSession, packet: ReviewPacket) {
    packet.packageId == p.id && packet.runSessionId == run.id && packet.status == "completed" && packet.decision == "approved"
  }

  function ApprovedReviewPacketForRun(p: ExecutionPackage, run: RunSession, packets: seq<ReviewPacket>): (r: Option<ReviewPacket>)
    ensures r.Some? ==> r.value in packets && IsApproval(p, run, r.value)
    ensures r.None? ==> forall packet :: packet in packets ==> !IsApproval(p, run, packet)
  {
    if packets == [] then None
    else if IsApproval(p, run, packets[0]) then Some(packets[0])
    else ApprovedReviewPacketForRun(p, run, packets[1..])
  }

  /** A run's own executor type, or else its specification's. */
  function ExecutorOf(run: RunSession): Option<string> {
    if run.executorType.Some? then run.executorType
    else if run.runSpec.Some? then run.runSpec.value.executorType else None
  }

  function WorkflowOnlyOf(run: RunSession): Option<bool> {
    if run.runSpec.Some? then run.runSpec.value.workflowOnly else None
  }

  // ---- What qualifying means ----

  /** The package's current run exists and succeeded under local Codex, outside workflow-only mode, with every artifact and an approval of that very run. */
  ghost predicate PackageQualifies(input: Input, p: ExecutionPackage, run: RunSession, packet: ReviewPacket) {
    && p.lastRunSessionId.Some?
    && FindRun(input.runSessions, p.lastRunSessionId.value) == Some(run)
    && ExecutorOf(run) == Some("local_codex")
    && WorkflowOnlyOf(run) == Some(false)
    && run.status == "succeeded"
    && packet in input.reviewPackets && IsApproval(p, run, packet)
    && input.missingArtifacts(p, run) == []
  }

  ghost predicate Clean(input: Input, p: ExecutionPackage) {
    exists run, packet :: PackageQualifies(input, p, run, packet)
  }

  ghost predicate ItemQualifies(input: Input, w: WorkItem) {
    && input.IsDone(w)
    && input.PackagesOf(w) != []
    && forall p :: p in input.PackagesOf(w) ==> Clean(input, p)
  }

  // ---- Blockers ----

  function RunBlockers(input: Input, p: ExecutionPackage, run: RunSession): seq<Blocker> {
    var at := (code: Code) => Blocker(code, Some(p.workItemId), Some(p.id), Some(run.id));
    (if ExecutorOf(run) != Some("local_codex") then [at(RunSessionNotLocalCodex)] else [])
    + (if WorkflowOnlyOf(run) != Some(false) then [at(RunSessionWorkflowOnly)] else [])
    + (if run.status != "succeeded" then [at(RunSessionNotSucceeded)] else [])
    + (if ApprovedReviewPacketForRun(p, run, input.reviewPackets).None? then [at(ReviewPacketMissingOrUnapproved)] else [])
  }

  /** In the order the program reports them: the missing artifacts come before the run's own blockers. */
  function PackageBlockers(input: Input, p: ExecutionPackage): seq<Blocker> {
    if p.lastRunSessionId.None? then [Blocker(PackageMissingCurrentRun, Some(p.workItemId), Some(p.id), None)]
    else
      var run := FindRun(input.runSessions, p.lastRunSessionId.value);
      if run.None? then [Blocker(RunSessionMissing, Some(p.workItemId), Some(p.id), p.lastRunSessionId)]
      else
        (if input.missingArtifacts(p, run.value) != []
           then [Blocker(RequiredArtifactMissing, Some(p.workItemId), Some(p.id), Some(run.value.id))] else [])
        + RunBlockers(input, p, run.value)
  }

  function BlockersOf(input: Input, packages: seq<ExecutionPackage>): seq<Blocker> {
    if packages == [] then []
    else BlockersOf(input, packages[..|packages| - 1]) + PackageBlockers(input, packages[|packages| - 1])
  }

  function ItemBlockers(input: Input, w: WorkItem): seq<Blocker> {
    (if input.IsDone(w) then [] else [Blocker(WorkItemCompletionIncomplete, Some(w.id), None, None)])
    + BlockersOf(input, input.PackagesOf(w))
  }

  lemma PackageBlockedExactly(input: Input, p: ExecutionPackage)
    ensures PackageBlockers(input, p) == [] <==> Clean(input, p)
  {
    if PackageBlockers(input, p) == [] {
      var run := FindRun(input.runSessions, p.lastRunSessionId.value).value;
      var packet := ApprovedReviewPacketForRun(p, run, input.reviewPackets).value;
      assert PackageQualifies(input, p, run, packet);
    }
  }

  lemma {:induction false} PackagesBlockedExactly(input: Input, packages: seq<ExecutionPackage>)
    ensures BlockersOf(input, packages) == [] <==> forall p :: p in packages ==> Clean(input, p)
    decreases |packages|
  {
    if packages != [] {
      var init, last := packages[..|packages| - 1], packages[|packages| - 1];
      assert packages == init + [last];
      PackagesBlockedExactly(input, init);
      PackageBlockedExactly(input, last);
    }
  }

  /** A work item is blocked exactly when it does not qualify, save for one silent case: it is done but has no packages. */
  lemma BlockedExactly(input: Input, w: WorkItem)
    ensures ItemBlockers(input, w) == [] <==> ItemQualifies(input, w) || (input.IsDone(w) && input.PackagesOf(w) == [])
  {
    PackagesBlockedExactly(input, input.PackagesOf(w));
  }

  // ---- The evaluation ----

  /** Evidence of one package: its current run and the approval of that run. */
  ghost predicate PackageEvidence(input: Input, w: WorkItem, p: ExecutionPackage, q: Qualifying) {
    exists run, packet ::
      && PackageQualifies(input, p, run, packet)
      && q == Qualifying(w.id, p.id, run.id, packet.id)
      && ApprovedReviewPacketForRun(p, run, input.reviewPackets) == Some(packet)
  }

  /** A qualifying item's evidence is its first package's. */
  ghost predicate Evidences(input: Input, w: WorkItem, q: Qualifying) {
    input.PackagesOf(w) != [] && PackageEvidence(input, w, input.PackagesOf(w)[0], q)
  }

  ghost function QualifyingItems(input: Input, items: seq<WorkItem>): seq<WorkItem> {
    if items == [] then []
    else
      var init, w := QualifyingItems(input, items[..|items| - 1]), items[|items| - 1];
      if ItemQualifies(input, w) then init + [w] else init
  }

  ghost function BlockersOfItems(input: Input, items: seq<WorkItem>): seq<Blocker> {
    if items == [] then []
    else
      var init, w := BlockersOfItems(input, items[..|items| - 1]), items[|items| - 1];
      if ItemQualifies(input, w) then init else init + ItemBlockers(input, w)
  }

  /** One package: its blockers, and its evidence when it has none and the item is done. */
  method EvaluatePackage(input: Input, w: WorkItem, p: ExecutionPackage) returns (blockers: seq<Blocker>, candidate: Option<Qualifying>)
    requires p.workItemId == w.id
    ensures blockers == PackageBlockers(input, p)
    ensures candidate.Some? <==> blockers == [] && input.IsDone(w)
    ensures candidate.Some? ==> PackageEvidence(input, w, p, candidate.value)
  {
    if p.lastRunSessionId.None? {
      return [Blocker(PackageMissingCurrentRun, Some(p.workItemId), Some(p.id), None)], None;
    }
    var found := FindRun(input.runSessions, p.lastRunSessionId.value);
    if found.None? {
      return [Blocker(RunSessionMissing, Some(p.workItemId), Some(p.id), p.lastRunSessionId)], None;
    }
    var run := found.value;
    var approved := ApprovedReviewPacketForRun(p, run, input.reviewPackets);
    var missing := input.missingArtifacts(p, run);
    var runBlockers := RunBlockers(input, p, run);
    blockers := [];
    if missing != [] {
      blockers := blockers + [Blocker(RequiredArtifactMissing, Some(p.workItemId), Some(p.id), Some(run.id))];
    }
    blockers := blockers + runBlockers;
    candidate := None;
    if input.IsDone(w) && runBlockers == [] && missing == [] && approved.Some? {
      assert PackageQualifies(input, p, run, approved.value);
      candidate := Some(Qualifying(w.id, p.id, run.id, approved.value.id));
    }
  }

  /** The inner loop: blockers accumulate, and the first candidate is kept. */
  method EvaluatePackages(input: Input, w: WorkItem, packages: seq<ExecutionPackage>)
    returns (blockers: seq<Blocker>, qualifying: Option<Qualifying>)
    requires forall p :: p in packages ==> p.workItemId == w.id
    ensures blockers == BlockersOf(input, packages)
    ensures qualifying.Some? ==> packages != [] && input.IsDone(w)
    ensures blockers == [] && packages != [] && input.IsDone(w) ==>
              qualifying.Some? && PackageEvidence(input, w, packages[0], qualifying.value)
  {
    hide PackageBlockers, PackageEvidence, Filter;
    blockers, qualifying := [], None;
    for i := 0 to |packages|
      invariant blockers == BlockersOf(input, packages[..i])
      invariant qualifying.Some? ==> i > 0 && input.IsDone(w)
      invariant blockers == [] && i > 0 && input.IsDone(w) ==>
                  qualifying.Some? && PackageEvidence(input, w, packages[0], qualifying.value)
    {
      assert packages[..i + 1][..i] == packages[..i];
      assert packages[i] in packages;
      var packageBlockers, candidate := EvaluatePackage(input, w, packages[i]);
      blockers := blockers + packageBlockers;
      if qualifying.None? {
        qualifying := candidate;
      }
    }
    assert packages[..|packages|] == packages;
  }

  method EvaluateItem(input: Input, w: WorkItem) returns (blockers: seq<Blocker>, qualifying: Option<Qualifying>)
    ensures blockers == ItemBlockers(input, w)
    ensures qualifying.Some? && blockers == [] <==> ItemQualifies(input, w)
    ensures qualifying.Some? && blockers == [] ==> Evidences(input, w, qualifying.value)
  {
    hide BlockersOf, PackageEvidence, Clean, Filter;
    var packages := input.PackagesOf(w);
    FilterMembers((p: ExecutionPackage) => p.workItemId == w.id, input.packages);
    blockers := if input.IsDone(w) then [] else [Blocker(WorkItemCompletionIncomplete, Some(w.id), None, None)];
    var packageBlockers;
    packageBlockers, qualifying := EvaluatePackages(input, w, packages);
    blockers := blockers + packageBlockers;
    PackagesBlockedExactly(input, packages);
  }

  /** The whole evaluation. */
  method EvaluateStrictLocalCodexAcceptance(input: Input) returns (verdict: Verdict)
    ensures var items := QualifyingItems(input, input.workItems);
            && |verdict.qualifying| == |items|
            && (forall i :: 0 <= i < |items| ==> Evidences(input, items[i], verdict.qualifying[i]))
            && (verdict.passed <==> |items| >= 2)
    ensures verdict.blockers == if verdict.passed then [] else
              BlockersOfItems(input, input.workItems) + [Blocker(StrictMinimumNotMet, None, None, None)]
  {
    hide ItemQualifies, Evidences, ItemBlockers;
    var items := input.workItems;
    var blockers: seq<Blocker>, qualifying: seq<Qualifying> := [], [];
    for i := 0 to |items|
      invariant |qualifying| == |QualifyingItems(input, items[..i])|
      invariant forall k :: 0 <= k < |qualifying| ==> Evidences(input, QualifyingItems(input, items[..i])[k], qualifying[k])
      invariant blockers == BlockersOfItems(input, items[..i])
    {
      assert items[..i + 1][..i] == items[..i];
      var itemBlockers, candidate := EvaluateItem(input, items[i]);
      if itemBlockers == [] && candidate.Some? {
        qualifying := qualifying + [candidate.value];
      } else {
        blockers := blockers + itemBlockers;
      }
    }
    assert items[..|items|] == items;
    verdict := if |qualifying| >= 2 then Verdict(true, qualifying, [])
               else Verdict(false, qualifying, blockers + [Blocker(StrictMinimumNotMet, None, None, None)]);
  }

  /** The qualifying items are exactly the items that qualify, as often and in the order they were given. */
  lemma {:induction false} QualifyingItemsExactly(input: Input, items: seq<WorkItem>)
    ensures var q := QualifyingItems(input, items);
            && (forall w :: w in q <==> w in items && ItemQualifies(input, w))
            && (forall w :: w in q ==> multiset(q)[w] == multiset(items)[w])
    ensures (forall i, j :: 0 <= i < j < |items| ==> items[i] != items[j]) ==> Distinct(QualifyingItems(input, items))
    decreases |items|
  {
    hide ItemQualifies;
    if items != [] {
      var init, w := items[..|items| - 1], items[|items| - 1];
      assert items == init + [w];
      QualifyingItemsExactly(input, init);
    }
  }

  /** The minimum counts entries, not items: one qualifying item listed twice is enough, so the caller must list each item once. */
  lemma ListedTwiceIsEnough(input: Input, w: WorkItem)
    requires ItemQualifies(input, w) && input.workItems == [w, w]
    ensures |QualifyingItems(input, input.workItems)| == 2
  {
    hide ItemQualifies;
    assert [w, w][..1] == [w] && [w][..0] == [];
    assert QualifyingItems(input, [w]) == QualifyingItems(input, []) + [w];
  }
}
