/** What holds of every strict release run, whichever stage or cleanup action throws. */
module ReleaseSafety {
  import opened Prelude
  import opened Effects
  import opened ReleaseMarkers
  import opened DurablePostgres
  import opened ReleaseRun

  type Act = ReleaseRun.Act

  // ---- Resources ----

  ghost predicate EveryOpenedIsClosed(calls: seq<Call<Act>>) {
    forall i, r :: 0 <= i < |calls| && calls[i].act == Open(r) && calls[i].reply.Ok? ==>
      exists j :: i < j < |calls| && calls[j].act == Close(r)
  }

  ghost predicate NothingClosedTwice(calls: seq<Call<Act>>) {
    forall i, j, r :: 0 <= i < j < |calls| && calls[i].act == Close(r) && calls[i].reply.Ok? ==> calls[j].act != Close(r)
  }

  function OpenStage(r: Resource): nat {
    match r
    case FirstClient => 3
    case FirstApp => 5
    case FreshClient => 9
    case FreshApp => 11
  }

  /** The stage that closes the resource; the reopened ones are closed by cleanup alone. */
  function CloseStage(r: Resource): nat {
    match r
    case FirstClient => 8
    case FirstApp => 7
    case _ => STAGE_COUNT
  }

  lemma StageOf(k: nat, r: Resource)
    requires k < |Stages()|
    ensures Stages()[k] == Open(r) <==> k == OpenStage(r)
    ensures Stages()[k] == Close(r) <==> k == CloseStage(r)
    ensures |Stages()| == STAGE_COUNT
  {
  }

  ghost predicate StrictlyRanked(acts: seq<Act>) {
    forall i, j :: 0 <= i < j < |acts| ==> Rank(acts[i]) < Rank(acts[j])
  }

  lemma WhenMember(c: bool, x: Act, a: Act)
    ensures a in When(c, x) <==> c && a == x
    ensures |When(c, x)| <= 1 && (forall i :: 0 <= i < |When(c, x)| ==> When(c, x)[i] == x)
  {
  }

  lemma ClosesMember(held: Held, a: Act)
    ensures a in Closes(held) <==> a.Close? && held.Has(a.resource)
  {
    hide When;
    WhenMember(held.freshApp, Close(FreshApp), a);
    WhenMember(held.freshClient, Close(FreshClient), a);
    WhenMember(held.firstApp, Close(FirstApp), a);
    WhenMember(held.firstClient, Close(FirstClient), a);
    if a.Close? {
      match a.resource
      case FirstClient =>
      case FirstApp =>
      case FreshClient =>
      case FreshApp =>
    }
  }

  lemma RankedAppend(a: seq<Act>, b: seq<Act>, bound: nat)
    requires StrictlyRanked(a) && StrictlyRanked(b)
    requires forall i :: 0 <= i < |a| ==> Rank(a[i]) < bound
    requires forall i :: 0 <= i < |b| ==> bound <= Rank(b[i])
    ensures StrictlyRanked(a + b)
  {
  }

  lemma ClosesRanked(held: Held)
    ensures StrictlyRanked(Closes(held)) && |Closes(held)| <= 4
  {
    hide When;
    WhenMember(held.freshApp, Close(FreshApp), DropTarget);
    WhenMember(held.freshClient, Close(FreshClient), DropTarget);
    WhenMember(held.firstApp, Close(FirstApp), DropTarget);
    WhenMember(held.firstClient, Close(FirstClient), DropTarget);
    RankedAppend(When(held.freshApp, Close(FreshApp)), When(held.freshClient, Close(FreshClient)), 2);
    RankedAppend(When(held.firstApp, Close(FirstApp)), When(held.firstClient, Close(FirstClient)), 4);
    RankedAppend(When(held.freshApp, Close(FreshApp)) + When(held.freshClient, Close(FreshClient)),
      When(held.firstApp, Close(FirstApp)) + When(held.firstClient, Close(FirstClient)), 3);
  }

  lemma ClosesExactly(held: Held, r: Resource)
    ensures var closes := Closes(held);
            && |closes| <= 4 && StrictlyRanked(closes)
            && (Close(r) in closes <==> held.Has(r))
            && (forall a :: a in closes ==> a.Close? && Rank(a) <= 4)
  {
    hide Closes;
    ClosesRanked(held);
    ClosesMember(held, Close(r));
    forall a | a in Closes(held)
      ensures a.Close? && Rank(a) <= 4
    {
      ClosesMember(held, a);
    }
  }

  /** Cleanup index by index: the closes, the database, then the container if owned, then what the lifecycle registered. */
  lemma CleanupAt(held: Held, plan: Plan, extras: seq<string>, i: nat)
    requires i < |CleanupActs(held, plan, extras)|
    ensures var acts, closes := CleanupActs(held, plan, extras), Closes(held);
            && (i < |closes| ==> acts[i] == closes[i])
            && (i == |closes| ==> acts[i] == DropTarget)
            && (i > |closes| ==> acts[i] in ContainerActs(plan) || acts[i].Extra?)
            && (i > |closes| && acts[i].RemoveContainer? ==> i == |closes| + 1)
  {
    hide Closes;
  }

  /** Cleanup closes exactly what is held, each once, and opens nothing. */
  lemma CleanupCloses(held: Held, plan: Plan, extras: seq<string>, r: Resource)
    ensures var acts := CleanupActs(held, plan, extras);
            && (Close(r) in acts <==> held.Has(r))
            && Open(r) !in acts
            && (forall i, j :: 0 <= i < j < |acts| && acts[i] == Close(r) ==> acts[j] != Close(r))
  {
    hide CleanupActs, Closes;
    var acts, closes := CleanupActs(held, plan, extras), Closes(held);
    ClosesExactly(held, r);
    forall i | 0 <= i < |acts|
      ensures i < |closes| ==> acts[i] == closes[i]
      ensures if i < |closes| then acts[i].Close? else !acts[i].Close? && !acts[i].Open?
    {
      CleanupAt(held, plan, extras, i);
      if i < |closes| {
        assert closes[i] in closes;
      }
    }
    ClosesAreInCleanup(held, plan, extras);
  }

  lemma ClosesAreInCleanup(held: Held, plan: Plan, extras: seq<string>)
    ensures |Closes(held)| < |CleanupActs(held, plan, extras)|
    ensures Closes(held) <= CleanupActs(held, plan, extras)
  {
    hide Closes;
  }

  lemma HeldMeansOpen(done: nat, r: Resource)
    requires done <= STAGE_COUNT
    ensures HeldAfter(done).Has(r) <==> OpenStage(r) < done <= CloseStage(r)
  {
  }

  /** Where an act of the run stands: stage `i - 1` at index `i`, cleanup after the forward calls. */
  lemma ForwardIndex(oracle: Oracle<Act>, at: nat, i: nat)
    requires 1 <= i < |ForwardActs(oracle, at)|
    ensures i - 1 < |Stages()| && ForwardActs(oracle, at)[i] == Stages()[i - 1]
    ensures i - 1 <= StagesDone(oracle, at)
    ensures oracle(at + i, ForwardActs(oracle, at)[i]).Ok? <==> i - 1 < StagesDone(oracle, at)
  {
    hide Stages, Completed;
    var stages, k := Stages(), i - 1;
    var done := Completed(oracle, at + 1, stages);
    StageOrder();
    assert ForwardActs(oracle, at)[i] == Attempted(oracle, at + 1, stages)[k];
    assert at + i == at + 1 + k;
    if k < done {
      assert oracle(at + 1 + k, stages[k]).Ok?;
    }
  }

  lemma ForwardLength(oracle: Oracle<Act>, at: nat)
    requires Prepared(oracle, at)
    ensures var done := StagesDone(oracle, at);
            |ForwardActs(oracle, at)| == 1 + (if done < |Stages()| then done + 1 else done)
  {
  }

  lemma OpenedIsClosed(oracle: Oracle<Act>, at: nat, plan: Plan, lifecycle: Lifecycle, i: nat, r: Resource)
    requires i < |RunActs(oracle, at, plan, lifecycle)|
    requires RunActs(oracle, at, plan, lifecycle)[i] == Open(r) && oracle(at + i, Open(r)).Ok?
    ensures exists j :: i < j < |RunActs(oracle, at, plan, lifecycle)| && RunActs(oracle, at, plan, lifecycle)[j] == Close(r)
  {
    hide Stages, CleanupActs, ForwardActs, Completed;
    StageOrder();
    var forward, cleanup := ForwardActs(oracle, at), CleanupOf(oracle, at, plan, lifecycle);
    var acts, done := forward + cleanup, StagesDone(oracle, at);
    CleanupCloses(NOTHING, plan, [], r);
    CleanupCloses(HeldAfter(done), plan, lifecycle.extras, r);
    CleanupCloses(HeldAfter(done), plan, [], r);
    assert i < |forward|;
    FirstIsPrepare(oracle, at);
    ForwardIndex(oracle, at, i);
    StageOf(i - 1, r);
    ForwardLength(oracle, at);
    HeldMeansOpen(done, r);
    if done <= CloseStage(r) {
      var k :| 0 <= k < |cleanup| && cleanup[k] == Close(r);
      assert acts[|forward| + k] == Close(r);
    } else {
      ForwardIndex(oracle, at, CloseStage(r) + 1);
      StageOf(CloseStage(r), r);
      assert acts[CloseStage(r) + 1] == Close(r);
    }
  }

  lemma FirstIsPrepare(oracle: Oracle<Act>, at: nat)
    ensures ForwardActs(oracle, at)[0] == PrepareTarget
    ensures |ForwardActs(oracle, at)| > 1 ==> Prepared(oracle, at)
  {
  }

  lemma ClosedOnlyOnce(oracle: Oracle<Act>, at: nat, plan: Plan, lifecycle: Lifecycle, i: nat, j: nat, r: Resource)
    requires i < j < |RunActs(oracle, at, plan, lifecycle)|
    requires RunActs(oracle, at, plan, lifecycle)[i] == Close(r) && oracle(at + i, Close(r)).Ok?
    ensures RunActs(oracle, at, plan, lifecycle)[j] != Close(r)
  {
    hide Stages, CleanupActs, ForwardActs, Completed;
    StageOrder();
    var forward, cleanup := ForwardActs(oracle, at), CleanupOf(oracle, at, plan, lifecycle);
    var done := StagesDone(oracle, at);
    FirstIsPrepare(oracle, at);
    CleanupCloses(NOTHING, plan, [], r);
    CleanupCloses(HeldAfter(done), plan, lifecycle.extras, r);
    CleanupCloses(HeldAfter(done), plan, [], r);
    if i < |forward| {
      ForwardIndex(oracle, at, i);
      StageOf(i - 1, r);
      HeldMeansOpen(done, r);
      if j < |forward| {
        ForwardIndex(oracle, at, j);
        StageOf(j - 1, r);
      } else {
        assert RunActs(oracle, at, plan, lifecycle)[j] in cleanup;
      }
    } else {
      assert cleanup[i - |forward|] == Close(r);
      assert RunActs(oracle, at, plan, lifecycle)[j] == cleanup[j - |forward|];
    }
  }

  /**
   Resource safety. In every run, whatever throws: each app and client that was opened has a close attempted later,
   and nothing that was closed successfully is closed again.
   */
  lemma ResourceSafety(oracle: Oracle<Act>, at: nat, plan: Plan, lifecycle: Lifecycle)
    ensures var calls := Calls(oracle, at, RunActs(oracle, at, plan, lifecycle));
            EveryOpenedIsClosed(calls) && NothingClosedTwice(calls)
  {
    hide RunActs;
    var acts := RunActs(oracle, at, plan, lifecycle);
    var calls := Calls(oracle, at, acts);
    forall i, r | 0 <= i < |calls| && calls[i].act == Open(r) && calls[i].reply.Ok?
      ensures exists j :: i < j < |calls| && calls[j].act == Close(r)
    {
      OpenedIsClosed(oracle, at, plan, lifecycle, i, r);
      var j :| i < j < |acts| && acts[j] == Close(r);
      assert calls[j].act == Close(r);
    }
    forall i, j, r | 0 <= i < j < |calls| && calls[i].act == Close(r) && calls[i].reply.Ok?
      ensures calls[j].act != Close(r)
    {
      ClosedOnlyOnce(oracle, at, plan, lifecycle, i, j, r);
    }
  }

  // ---- Order and ownership ----

  function Rank(a: Act): nat {
    match a
    case Close(FreshApp) => 1
    case Close(FreshClient) => 2
    case Close(FirstApp) => 3
    case Close(FirstClient) => 4
    case DropTarget => 5
    case RemoveContainer(_) => 6
    case Extra(_) => 7
    case _ => 0
  }

  ghost predicate InFixedOrder(acts: seq<Act>) {
    forall i, j :: 0 <= i < j < |acts| ==> Rank(acts[i]) <= Rank(acts[j])
  }

  ghost predicate OwnsExactly(acts: seq<Act>, plan: Plan) {
    forall id :: RemoveContainer(id) in acts <==> plan.removeContainer && plan.containerId == Some(id)
  }

  /**
   Cleanup order and ownership: closes, then the database, then the container, then what the lifecycle registered;
   the database is dropped through exactly one call, and a container is removed exactly when the plan owns it.
   */
  lemma CleanupOrderAndOwnership(held: Held, plan: Plan, extras: seq<string>)
    ensures var acts := CleanupActs(held, plan, extras);
            && InFixedOrder(acts)
            && OwnsExactly(acts, plan)
            && |Closes(held)| < |acts|
            && (forall i :: 0 <= i < |acts| ==> (acts[i] == DropTarget <==> i == |Closes(held)|))
  {
    hide CleanupActs, Closes;
    var acts, closes := CleanupActs(held, plan, extras), Closes(held);
    ClosesExactly(held, FirstClient);
    ClosesAreInCleanup(held, plan, extras);
    forall i | 0 <= i < |acts|
      ensures i < |closes| ==> acts[i] == closes[i] && Rank(acts[i]) <= 4 && acts[i].Close?
      ensures i == |closes| ==> acts[i] == DropTarget
      ensures i > |closes| ==> Rank(acts[i]) == if acts[i].RemoveContainer? then 6 else 7
      ensures i > |closes| && acts[i].RemoveContainer? ==> i == |closes| + 1 && acts[i] in ContainerActs(plan)
    {
      CleanupAt(held, plan, extras, i);
      if i < |closes| {
        assert closes[i] in closes;
      }
    }
    ContainerIsInCleanup(held, plan, extras);
  }

  lemma ContainerIsInCleanup(held: Held, plan: Plan, extras: seq<string>)
    ensures forall a :: a in ContainerActs(plan) ==> a in CleanupActs(held, plan, extras)
  {
    hide Closes;
  }

  /** The stages never drop the target, remove a container or run a registered cleanup. */
  lemma StagesOnlyGoForward(oracle: Oracle<Act>, at: nat)
    ensures forall a :: a in ForwardActs(oracle, at) ==> a != DropTarget && !a.RemoveContainer? && !a.Extra?
  {
    assert forall a :: a in Stages() ==> a != DropTarget && !a.RemoveContainer? && !a.Extra?;
    hide Stages, Completed;
    var tried := Attempted(oracle, at + 1, Stages());
    forall i | 0 <= i < |tried|
      ensures tried[i] in Stages()
    {
      assert tried[i] == Stages()[i];
    }
  }

  /** In every run what follows the forward calls is cleanup in its fixed order, and all target drops and removals are there. */
  lemma RunCleansUpInOrder(oracle: Oracle<Act>, at: nat, plan: Plan, lifecycle: Lifecycle)
    ensures var acts, n := RunActs(oracle, at, plan, lifecycle), |ForwardActs(oracle, at)|;
            && n <= |acts|
            && acts[..n] == ForwardActs(oracle, at)
            && InFixedOrder(acts[n..])
            && OwnsExactly(acts[n..], plan)
            && OwnsExactly(acts, plan)
            && (forall i :: 0 <= i < |acts| && (acts[i] == DropTarget || acts[i].RemoveContainer? || acts[i].Extra?) ==> n <= i)
  {
    hide ForwardActs, CleanupActs, InFixedOrder;
    var forward, cleanup := ForwardActs(oracle, at), CleanupOf(oracle, at, plan, lifecycle);
    var acts := forward + cleanup;
    CleanupOrderAndOwnership(NOTHING, plan, []);
    CleanupOrderAndOwnership(HeldAfter(StagesDone(oracle, at)), plan, lifecycle.extras);
    CleanupOrderAndOwnership(HeldAfter(StagesDone(oracle, at)), plan, []);
    StagesOnlyGoForward(oracle, at);
    assert acts[|forward|..] == cleanup && acts[..|forward|] == forward;
    forall i | 0 <= i < |forward|
      ensures acts[i] != DropTarget && !acts[i].RemoveContainer? && !acts[i].Extra?
    {
      assert acts[i] == forward[i] && forward[i] in forward;
    }
    forall id
      ensures RemoveContainer(id) in acts <==> RemoveContainer(id) in cleanup
    {
      assert RemoveContainer(id) !in forward;
    }
  }

  // ---- Verdict ----

  /** The lifecycle delivered the four release markers and a strict local Codex marker, every one of them passed. */
  predicate FullEvidence(lifecycle: seq<Marker>) {
    && (forall m :: m in lifecycle && m.name != StrictLocalCodexRun ==> m.status == Passed)
    && First(lifecycle, StrictLocalCodexRun).Some?
    && First(lifecycle, StrictLocalCodexRun).value.status == Passed
    && Delivered(lifecycle)
  }

  predicate HasMarker(markers: seq<Marker>, name: Name) {
    exists m :: m in markers && m.name == name
  }

  predicate Delivered(lifecycle: seq<Marker>) {
    && HasMarker(lifecycle, DeliveryPath) && HasMarker(lifecycle, ReleaseCreateLinkSubmit)
    && HasMarker(lifecycle, ReleaseApproval) && HasMarker(lifecycle, ReleaseObservingClose)
  }

  /** Only the closure markers are short of passing, and only by being blocked; with `allowBlocked` off, nothing is. */
  predicate Acceptable(lifecycle: seq<Marker>, allowBlocked: bool) {
    && (forall m :: m in lifecycle && m.name != StrictLocalCodexRun ==>
         m.status == Passed || (allowBlocked && m.status == Blocked && IsClosure(m.name)))
    && Delivered(lifecycle)
    && match First(lifecycle, StrictLocalCodexRun)
       case None => allowBlocked
       case Some(m) => m.status == Passed || (allowBlocked && m.status == Blocked)
  }

  lemma FirstSome(markers: seq<Marker>, m: Marker)
    requires m in markers
    ensures First(markers, m.name).Some?
  {
  }

  function CodexMarker(lifecycle: seq<Marker>): Marker {
    var codex := First(lifecycle, StrictLocalCodexRun);
    if codex.Some? then codex.value else Marker(StrictLocalCodexRun, Blocked, [MissingCodexMarker])
  }

  /** A success marker is one the lifecycle delivered, one of the four the run adds itself, or the codex marker. */
  lemma SuccessMembers(lifecycle: seq<Marker>, m: Marker)
    ensures m in SuccessMarkers(lifecycle) <==>
              || (m in lifecycle && m.name != StrictLocalCodexRun)
              || m == Marker(ReleaseCockpitQuery, Passed, []) || m == Marker(ReleaseEvidenceRedaction, Passed, [])
              || m == Marker(ReleaseObservationBacklink, Passed, []) || m == Marker(DurableLocalReset, Passed, [])
              || m == CodexMarker(lifecycle)
  {
    var own := [ Marker(ReleaseCockpitQuery, Passed, []), Marker(ReleaseEvidenceRedaction, Passed, []),
                 Marker(ReleaseObservationBacklink, Passed, []), Marker(DurableLocalReset, Passed, []), CodexMarker(lifecycle) ];
    var kept := Filter((m: Marker) => m.name != StrictLocalCodexRun, lifecycle);
    assert SuccessMarkers(lifecycle) == kept + own;
    FilterMembers((m: Marker) => m.name != StrictLocalCodexRun, lifecycle);
    assert m in own <==> m == own[0] || m == own[1] || m == own[2] || m == own[3] || m == own[4];
  }

  lemma FirstFinds(markers: seq<Marker>, name: Name)
    ensures First(markers, name).Some? <==> HasMarker(markers, name)
  {
  }

  predicate FromLifecycle(name: Name) {
    name in {DeliveryPath, ReleaseCreateLinkSubmit, ReleaseApproval, ReleaseObservingClose}
  }

  lemma SuccessName(lifecycle: seq<Marker>, name: Name)
    ensures First(SuccessMarkers(lifecycle), name).Some? <==> !FromLifecycle(name) || HasMarker(lifecycle, name)
  {
    hide SuccessMarkers, First;
    var success := SuccessMarkers(lifecycle);
    FirstFinds(success, name);
    if FromLifecycle(name) {
      forall m: Marker {
        SuccessMembers(lifecycle, m);
      }
      assert CodexMarker(lifecycle).name == StrictLocalCodexRun;
    } else {
      var m := if name == StrictLocalCodexRun then CodexMarker(lifecycle) else Marker(name, Passed, []);
      SuccessMembers(lifecycle, m);
      assert m in success && m.name == name;
    }
  }

  lemma SuccessNames(lifecycle: seq<Marker>)
    ensures (forall name :: name in REQUIRED ==> First(SuccessMarkers(lifecycle), name).Some?) <==> Delivered(lifecycle)
  {
    hide SuccessMarkers, First, HasMarker;
    forall name: Name {
      SuccessName(lifecycle, name);
    }
    assert DeliveryPath in REQUIRED && ReleaseCreateLinkSubmit in REQUIRED && ReleaseApproval in REQUIRED && ReleaseObservingClose in REQUIRED;
  }

  lemma SuccessExit(texts: Texts, lifecycle: seq<Marker>, allowBlocked: bool)
    ensures var success := SuccessMarkers(lifecycle);
            ExitCode(texts, Reported(success), allowBlocked) == 0 <==>
            ReportMade(texts, success) && Acceptable(lifecycle, allowBlocked)
  {
    hide SuccessMarkers, Delivered, StatusCode;
    var success := SuccessMarkers(lifecycle);
    SuccessNames(lifecycle);
    StatusCodeMeaning(success, allowBlocked);
    forall m: Marker {
      SuccessMembers(lifecycle, m);
    }
    assert CodexMarker(lifecycle) in success;
  }

  lemma FailedResetExits(texts: Texts, markers: seq<Marker>, i: nat, allowBlocked: bool)
    requires i < |markers| && markers[i].status == Failed
    ensures ExitCode(texts, Reported(markers), allowBlocked) == 1
  {
    assert markers[i] in markers;
  }

  lemma BlockedExit(texts: Texts, allowBlocked: bool)
    ensures var blocked := MarkersWithClosureBlocked(MissingDatabase);
            ExitCode(texts, Reported(blocked), allowBlocked) == 0 <==> allowBlocked && ReportMade(texts, blocked)
    ensures forall errors :: errors != [] ==>
              ExitCode(texts, SettleBlocked(texts, errors), allowBlocked) == 1
  {
    var blocked := MarkersWithClosureBlocked(MissingDatabase);
    assert blocked[7].name == DurableLocalReset && blocked[7].status == Blocked && blocked[7] in blocked;
    forall name | name in REQUIRED
      ensures First(blocked, name).Some?
    {
      var i :| 0 <= i < |REQUIRED| && REQUIRED[i] == name;
      assert blocked[i].name == name;
      FirstSome(blocked, blocked[i]);
    }
    assert forall m :: m in blocked ==> m.status == Passed || (m.status == Blocked && IsClosure(m.name));
    StatusCodeMeaning(blocked, allowBlocked);
    forall errors: seq<string> | errors != []
      ensures ExitCode(texts, SettleBlocked(texts, errors), allowBlocked) == 1
    {
      var marked := WithCleanupFailureDetails(texts, blocked, errors);
      FailedResetExits(texts, marked, 7, allowBlocked);
    }
  }

  /** A run that has a usable target. */
  predicate Usable(oracle: Oracle<Act>, at: nat, plan: Option<Plan>) {
    plan.Some? && Prepared(oracle, at)
  }

  /** Any stage error, cleanup error or refused marker scan after the target was prepared forces exit 1, even with `allowBlocked`. */
  lemma FailureForcesExitOne(texts: Texts, oracle: Oracle<Act>, at: nat, plan: Option<Plan>, lifecycle: Lifecycle, allowBlocked: bool)
    requires Usable(oracle, at, plan)
    requires || StagesDone(oracle, at) < |Stages()|
             || CleanupErrors(oracle, at, plan.value, lifecycle) != []
             || !texts.markersSafe(SuccessMarkers(lifecycle.markers))
    ensures ExitCode(texts, Verdict(texts, oracle, at, plan, lifecycle), allowBlocked) == 1
  {
    hide SuccessMarkers, FailedReleaseFlowMarkers, Stages, CleanupErrors;
    StageOrder();
    var errors := CleanupErrors(oracle, at, plan.value, lifecycle);
    var done := StagesDone(oracle, at);
    var body := BodyMarkers(texts, done, ErrorOf(oracle, at + 1, done), lifecycle);
    var markers := WithCleanupFailureDetails(texts, body.0, errors);
    var reset := ResetIndex(texts, done, ErrorOf(oracle, at + 1, done), lifecycle);
    FailedResetExits(texts, markers, reset, allowBlocked);
  }

  /** The body's markers hold a "Durable local reset" one, and it has failed unless the body fully succeeded. */
  lemma ResetIndex(texts: Texts, done: nat, error: string, lifecycle: Lifecycle) returns (i: nat)
    ensures var markers := BodyMarkers(texts, done, error, lifecycle).0;
            i < |markers| && markers[i].name == DurableLocalReset
            && (done < STAGE_COUNT || !texts.markersSafe(SuccessMarkers(lifecycle.markers)) ==> markers[i].status == Failed)
  {
    hide FailedReleaseFlowMarkers;
    var success := SuccessMarkers(lifecycle.markers);
    if done == STAGE_COUNT && texts.markersSafe(success) {
      i := |success| - 2;
      assert success[i].name == DurableLocalReset;
    } else {
      i := 7;
    }
  }

  /**
   The verdict, exactly. With a usable target the exit code is 0 precisely when every stage, the reopen check and all cleanup
   succeeded, the scans let the markers and the report through, the report is written and the lifecycle's markers are acceptable.
   Without one it is 0 precisely when blocked runs are allowed, cleanup succeeded, the scans pass and the report is written.
   */
  lemma ExitCodeExact(texts: Texts, oracle: Oracle<Act>, at: nat, plan: Option<Plan>, lifecycle: Lifecycle, allowBlocked: bool)
    ensures var exit := ExitCode(texts, Verdict(texts, oracle, at, plan, lifecycle), allowBlocked);
            var success, blocked := SuccessMarkers(lifecycle.markers), MarkersWithClosureBlocked(MissingDatabase);
            if Usable(oracle, at, plan) then
              exit == 0 <==>
                && StagesDone(oracle, at) == |Stages()|
                && CleanupErrors(oracle, at, plan.value, lifecycle) == []
                && texts.markersSafe(success) && ReportMade(texts, success)
                && Acceptable(lifecycle.markers, allowBlocked)
            else
              exit == 0 <==>
                && allowBlocked
                && (plan.Some? ==> CleanupErrors(oracle, at, plan.value, lifecycle) == [])
                && texts.markersSafe(blocked) && ReportMade(texts, blocked)
  {
    hide SuccessMarkers, Stages, CleanupErrors, MarkersWithClosureBlocked, Acceptable, FailedReleaseFlowMarkers, StatusCode;
    StageOrder();
    BlockedExit(texts, allowBlocked);
    if Usable(oracle, at, plan) {
      if StagesDone(oracle, at) < |Stages()| || CleanupErrors(oracle, at, plan.value, lifecycle) != []
         || !texts.markersSafe(SuccessMarkers(lifecycle.markers)) {
        FailureForcesExitOne(texts, oracle, at, plan, lifecycle, allowBlocked);
      } else {
        SuccessExit(texts, lifecycle.markers, allowBlocked);
      }
    }
  }

  /** Exit 0 without `allowBlocked` means a complete, clean run with full evidence. */
  lemma StrictExitZero(texts: Texts, oracle: Oracle<Act>, at: nat, plan: Option<Plan>, lifecycle: Lifecycle)
    requires ExitCode(texts, Verdict(texts, oracle, at, plan, lifecycle), false) == 0
    ensures Usable(oracle, at, plan) && StagesDone(oracle, at) == |Stages()|
    ensures CleanupErrors(oracle, at, plan.value, lifecycle) == []
    ensures FullEvidence(lifecycle.markers)
    ensures Verdict(texts, oracle, at, plan, lifecycle) == Reported(SuccessMarkers(lifecycle.markers))
    ensures forall m :: m in SuccessMarkers(lifecycle.markers) ==> m.status == Passed
  {
    hide SuccessMarkers, Stages, CleanupErrors, MarkersWithClosureBlocked;
    ExitCodeExact(texts, oracle, at, plan, lifecycle, false);
    StageOrder();
    StatusCodeMeaning(SuccessMarkers(lifecycle.markers), false);
  }
}
