/**
 Planning, the stages and cleanup put together: the run's calls on its target are carried out by the Postgres and Docker calls
 that `DurablePostgres` describes, and over the whole run every database and container is accounted for.
 */
module ReleaseOwnership {
  import opened Prelude
  import opened Effects
  import opened ReleaseMarkers
  import opened ReleaseRun
  import opened ReleaseSafety
  import D = DurablePostgres

  /** Everything outside a run: Docker and Postgres, the answers to all other calls, and what the run is asked for. */
  datatype Setting = Setting(
    db: Oracle<D.Act>,
    rest: Oracle<ReleaseRun.Act>,
    request: D.Request,
    resettable: string -> bool,
    lifecycle: Lifecycle)

  // ---- How the target is worked on ----

  /** The Docker and Postgres calls behind one call of the run; most have none. */
  function TargetActs(db: Oracle<D.Act>, at: nat, plan: D.Plan, resettable: string -> bool, act: ReleaseRun.Act): seq<D.Act> {
    match act
    case CreateTarget => D.CreateActs(db, at, plan, resettable)
    case DropTarget => D.DropActs(db, at, plan, resettable)
    case RemoveContainer(id) => [D.DockerRemove(id)]
    case _ => []
  }

  predicate TargetOk(db: Oracle<D.Act>, at: nat, plan: D.Plan, resettable: string -> bool, act: ReleaseRun.Act) {
    match act
    case PrepareTarget => resettable(plan.databaseUrl)
    case CreateTarget => D.Creates(db, at, plan, resettable)
    case DropTarget => D.Drops(db, at, plan, resettable)
    case RemoveContainer(id) => db(at, D.DockerRemove(id)).Ok?
    case _ => true
  }

  predicate OnTarget(act: ReleaseRun.Act) {
    act.PrepareTarget? || act.CreateTarget? || act.DropTarget? || act.RemoveContainer?
  }

  /** What the run uses for its target unless something else is injected. */
  method PerformOnTarget(db: World<D.Act>, plan: D.Plan, resettable: string -> bool, act: ReleaseRun.Act) returns (ok: bool)
    requires OnTarget(act)
    modifies db
    ensures db.trace == old(db.trace) + Calls(db.oracle, |old(db.trace)|, TargetActs(db.oracle, |old(db.trace)|, plan, resettable, act))
    ensures ok <==> TargetOk(db.oracle, |old(db.trace)|, plan, resettable, act)
  {
    hide D.CreateActs, D.DropActs, D.Creates, D.Drops;
    match act
    case PrepareTarget => ok := resettable(plan.databaseUrl);
    case CreateTarget => ok := D.CreateDatabase(db, plan, resettable);
    case DropTarget => ok := D.DropDatabase(db, plan, resettable);
    case RemoveContainer(id) =>
      var removed := db.Perform(D.DockerRemove(id));
      ok := removed.Ok?;
  }

  /** The Docker and Postgres calls behind a list of calls, the first of them being number `at`. */
  function Lower(db: Oracle<D.Act>, at: nat, plan: D.Plan, resettable: string -> bool, acts: seq<ReleaseRun.Act>): seq<D.Act>
    decreases |acts|
  {
    if acts == [] then []
    else
      var first := TargetActs(db, at, plan, resettable, acts[0]);
      first + Lower(db, at + |first|, plan, resettable, acts[1..])
  }

  /** The run is told of each call on its target how that went. */
  predicate Agrees(oracle: Oracle<ReleaseRun.Act>, n: nat, db: Oracle<D.Act>, at: nat, plan: D.Plan, resettable: string -> bool, acts: seq<ReleaseRun.Act>)
    decreases |acts|
  {
    acts == [] ||
    ((OnTarget(acts[0]) ==> (oracle(n, acts[0]).Ok? <==> TargetOk(db, at, plan, resettable, acts[0]))) &&
     Agrees(oracle, n + 1, db, at + |TargetActs(db, at, plan, resettable, acts[0])|, plan, resettable, acts[1..]))
  }

  lemma {:induction false} LowerAppend(db: Oracle<D.Act>, at: nat, plan: D.Plan, resettable: string -> bool, a: seq<ReleaseRun.Act>, b: seq<ReleaseRun.Act>)
    ensures Lower(db, at, plan, resettable, a + b) ==
            Lower(db, at, plan, resettable, a) + Lower(db, at + |Lower(db, at, plan, resettable, a)|, plan, resettable, b)
    decreases |a|
  {
    hide TargetActs;
    if a == [] {
      assert a + b == b;
    } else {
      var first := TargetActs(db, at, plan, resettable, a[0]);
      assert (a + b)[1..] == a[1..] + b;
      LowerAppend(db, at + |first|, plan, resettable, a[1..], b);
    }
  }

  lemma {:induction false} AgreesAppend(
      oracle: Oracle<ReleaseRun.Act>, n: nat, db: Oracle<D.Act>, at: nat, plan: D.Plan, resettable: string -> bool, a: seq<ReleaseRun.Act>, b: seq<ReleaseRun.Act>)
    ensures Agrees(oracle, n, db, at, plan, resettable, a + b) <==>
              && Agrees(oracle, n, db, at, plan, resettable, a)
              && Agrees(oracle, n + |a|, db, at + |Lower(db, at, plan, resettable, a)|, plan, resettable, b)
    decreases |a|
  {
    hide TargetActs, TargetOk;
    if a == [] {
      assert a + b == b;
    } else {
      var first := TargetActs(db, at, plan, resettable, a[0]);
      assert (a + b)[1..] == a[1..] + b;
      AgreesAppend(oracle, n + 1, db, at + |first|, plan, resettable, a[1..], b);
    }
  }

  lemma {:induction false} ElsewhereNothing(
      oracle: Oracle<ReleaseRun.Act>, n: nat, db: Oracle<D.Act>, at: nat, plan: D.Plan, resettable: string -> bool, acts: seq<ReleaseRun.Act>)
    requires forall a :: a in acts ==> !OnTarget(a)
    ensures Lower(db, at, plan, resettable, acts) == [] && Agrees(oracle, n, db, at, plan, resettable, acts)
    decreases |acts|
  {
    if acts != [] {
      assert acts[0] in acts && TargetActs(db, at, plan, resettable, acts[0]) == [];
      ElsewhereNothing(oracle, n + 1, db, at, plan, resettable, acts[1..]);
    }
  }

  lemma OneOnTarget(
      oracle: Oracle<ReleaseRun.Act>, n: nat, db: Oracle<D.Act>, at: nat, plan: D.Plan, resettable: string -> bool, act: ReleaseRun.Act)
    requires OnTarget(act) && (oracle(n, act).Ok? <==> TargetOk(db, at, plan, resettable, act))
    ensures Lower(db, at, plan, resettable, [act]) == TargetActs(db, at, plan, resettable, act)
    ensures Agrees(oracle, n, db, at, plan, resettable, [act])
  {
    hide TargetActs, TargetOk;
    assert [act][1..] == [];
  }

  // ---- The whole run ----

  function PlanCallsOf(s: Setting): seq<Call<D.Act>> {
    D.PlanCalls(s.db, 0, s.request)
  }

  function PlanOf(s: Setting): Result<D.Plan, D.PlanError> {
    D.Planned(s.db, 0, s.request)
  }

  /** When the Docker and Postgres calls of cleanup begin: after planning, and after creation if the target could be prepared. */
  function DropsAt(s: Setting, plan: D.Plan): nat {
    var at := |PlanCallsOf(s)|;
    at + if s.resettable(plan.databaseUrl) then |D.CreateActs(s.db, at, plan, s.resettable)| else 0
  }

  function RemovesAt(s: Setting, plan: D.Plan): nat {
    DropsAt(s, plan) + |D.DropActs(s.db, DropsAt(s, plan), plan, s.resettable)|
  }

  function Told(reply: Reply, ok: bool): Reply {
    if ok then Ok("", true) else Threw(if reply.Threw? then reply.message else "")
  }

  /** The answers to the run's calls: on the target, what the calls behind them come to; elsewhere anything. */
  function AnswerOf(s: Setting, plan: D.Plan, n: nat, act: ReleaseRun.Act): Reply {
    match act
    case PrepareTarget => Told(s.rest(n, act), s.resettable(plan.databaseUrl))
    case CreateTarget => Told(s.rest(n, act), D.Creates(s.db, |PlanCallsOf(s)|, plan, s.resettable))
    case DropTarget => Told(s.rest(n, act), D.Drops(s.db, DropsAt(s, plan), plan, s.resettable))
    case RemoveContainer(id) => Told(s.rest(n, act), s.db(RemovesAt(s, plan), D.DockerRemove(id)).Ok?)
    case _ => s.rest(n, act)
  }

  function OracleOf(s: Setting, plan: D.Plan): Oracle<ReleaseRun.Act> {
    (n: nat, act: ReleaseRun.Act) => AnswerOf(s, plan, n, act)
  }

  lemma OracleAnswers(s: Setting, plan: D.Plan, n: nat, act: ReleaseRun.Act)
    ensures OracleOf(s, plan)(n, act) == AnswerOf(s, plan, n, act)
  {
    hide AnswerOf;
  }

  /** The calls of the run after planning; none when planning fails. */
  function ActsOf(s: Setting): seq<ReleaseRun.Act> {
    if PlanOf(s).Failure? then [] else RunActs(OracleOf(s, PlanOf(s).value), 0, PlanOf(s).value, s.lifecycle)
  }

  /** Every Docker and Postgres call from the beginning of planning to the end of cleanup. */
  function WholeCalls(s: Setting): seq<Call<D.Act>> {
    PlanCallsOf(s) +
    if PlanOf(s).Failure? then []
    else Calls(s.db, |PlanCallsOf(s)|, Lower(s.db, |PlanCallsOf(s)|, PlanOf(s).value, s.resettable, ActsOf(s)))
  }

  function CreateOf(s: Setting, plan: D.Plan): seq<D.Act> {
    if s.resettable(plan.databaseUrl) then D.CreateActs(s.db, |PlanCallsOf(s)|, plan, s.resettable) else []
  }

  function DropOf(s: Setting, plan: D.Plan): seq<D.Act> {
    D.DropActs(s.db, DropsAt(s, plan), plan, s.resettable)
  }

  function RemoveOf(plan: D.Plan): seq<D.Act> {
    if plan.removeContainer && plan.containerId.Some? then [D.DockerRemove(plan.containerId.value)] else []
  }

  function AfterPlanning(s: Setting, plan: D.Plan): seq<D.Act> {
    CreateOf(s, plan) + DropOf(s, plan) + RemoveOf(plan)
  }

  /** The run's calls: those on the target, and between them others. */
  ghost predicate IsShape(s: Setting, plan: D.Plan, acts: seq<ReleaseRun.Act>, others: seq<ReleaseRun.Act>, extras: seq<ReleaseRun.Act>) {
    && acts == Front(s, plan) + others + ([DropTarget] + ContainerActs(plan) + extras)
    && (forall a :: a in others ==> !OnTarget(a))
    && (forall a :: a in extras ==> !OnTarget(a))
  }

  function Front(s: Setting, plan: D.Plan): seq<ReleaseRun.Act> {
    if s.resettable(plan.databaseUrl) then [PrepareTarget, CreateTarget] else [PrepareTarget]
  }

  lemma Shape(s: Setting, plan: D.Plan) returns (others: seq<ReleaseRun.Act>, extras: seq<ReleaseRun.Act>)
    ensures IsShape(s, plan, RunActs(OracleOf(s, plan), 0, plan, s.lifecycle), others, extras)
  {
    hide Stages, Completed, CleanupActs, ForwardActs, Closes, HeldAfter;
    var oracle := OracleOf(s, plan);
    var done := StagesDone(oracle, 0);
    var stages := ForwardShape(s, plan);
    var held, names := NOTHING, [];
    if Prepared(oracle, 0) {
      held, names := HeldAfter(done), if done >= 6 then s.lifecycle.extras else [];
    }
    assert CleanupOf(oracle, 0, plan, s.lifecycle) == CleanupActs(held, plan, names);
    hide OracleOf, CleanupOf;
    var closes;
    closes, extras := CleanupShape(held, plan, names);
    others := stages + closes;
    Regroup(Front(s, plan), stages, closes, [DropTarget] + ContainerActs(plan) + extras);
    Regroup(Front(s, plan), others, [DropTarget] + ContainerActs(plan) + extras, []);
    Regroup(Front(s, plan) + stages, closes, [DropTarget] + ContainerActs(plan) + extras, []);
  }

  lemma CleanupShape(held: Held, plan: D.Plan, names: seq<string>) returns (closes: seq<ReleaseRun.Act>, extras: seq<ReleaseRun.Act>)
    ensures CleanupActs(held, plan, names) == closes + ([DropTarget] + ContainerActs(plan) + extras)
    ensures forall a :: a in closes ==> !OnTarget(a)
    ensures forall a :: a in extras ==> !OnTarget(a)
  {
    closes, extras := Closes(held), Map((name: string) => Extra(name), names);
    assert CleanupActs(held, plan, names) == closes + [DropTarget] + ContainerActs(plan) + extras;
    hide Closes;
    Regroup(closes, [DropTarget], ContainerActs(plan), extras);
    forall a | a in closes
      ensures a.Close?
    {
      ClosesMember(held, a);
    }
  }

  /** The stages come first, creation before all others; only it works on the target. */
  lemma ForwardShape(s: Setting, plan: D.Plan) returns (stages: seq<ReleaseRun.Act>)
    ensures ForwardActs(OracleOf(s, plan), 0) == Front(s, plan) + stages
    ensures Prepared(OracleOf(s, plan), 0) <==> s.resettable(plan.databaseUrl)
    ensures forall a :: a in stages ==> !OnTarget(a)
  {
    hide OracleOf;
    var oracle := OracleOf(s, plan);
    OracleAnswers(s, plan, 0, PrepareTarget);
    if Prepared(oracle, 0) {
      stages := StagesAttempted(oracle, 1);
    } else {
      stages := [];
    }
  }

  lemma StagesAttempted(oracle: Oracle<ReleaseRun.Act>, at: nat) returns (tail: seq<ReleaseRun.Act>)
    ensures Attempted(oracle, at, Stages()) == [CreateTarget] + tail
    ensures forall a :: a in tail ==> !OnTarget(a)
  {
    var tried := Attempted(oracle, at, Stages());
    StageOrder();
    assert forall i :: 1 <= i < |Stages()| ==> !OnTarget(Stages()[i]);
    hide Stages, Completed;
    tail := tried[1..];
    assert forall i :: 0 <= i < |tail| ==> tail[i] == Stages()[i + 1];
  }

  // ---- The answers are those of the calls behind them ----

  /** The database and container calls of a run, in their order. */
  lemma RunOnTarget(s: Setting, plan: D.Plan)
    requires PlanOf(s) == Success(plan)
    ensures var at, acts := |PlanCallsOf(s)|, ActsOf(s);
            && Lower(s.db, at, plan, s.resettable, acts) == AfterPlanning(s, plan)
            && Agrees(OracleOf(s, plan), 0, s.db, at, plan, s.resettable, acts)
  {
    hide PlanOf, PlanCallsOf, RunActs, TargetActs, TargetOk, Lower, Agrees, OracleOf, DropsAt, CreateOf, DropOf, RemoveOf, Front, ContainerActs, OnTarget;
    var oracle, at := OracleOf(s, plan), |PlanCallsOf(s)|;
    var others, extras := Shape(s, plan);
    var front, back := Front(s, plan), [DropTarget] + ContainerActs(plan) + extras;
    FrontOnTarget(s, plan);
    ElsewhereNothing(oracle, |front|, s.db, DropsAt(s, plan), plan, s.resettable, others);
    FrontThen(s, plan, others);
    LowerAppend(s.db, at, plan, s.resettable, front + others, back);
    AgreesAppend(oracle, 0, s.db, at, plan, s.resettable, front + others, back);
    BackOnTarget(s, plan, |front + others|, extras);
    Regroup(CreateOf(s, plan), DropOf(s, plan), RemoveOf(plan), []);
  }

  lemma FrontThen(s: Setting, plan: D.Plan, others: seq<ReleaseRun.Act>)
    requires Lower(s.db, DropsAt(s, plan), plan, s.resettable, others) == []
    requires Agrees(OracleOf(s, plan), |Front(s, plan)|, s.db, DropsAt(s, plan), plan, s.resettable, others)
    ensures var at, acts := |PlanCallsOf(s)|, Front(s, plan) + others;
            && Lower(s.db, at, plan, s.resettable, acts) == CreateOf(s, plan)
            && Agrees(OracleOf(s, plan), 0, s.db, at, plan, s.resettable, acts)
            && at + |CreateOf(s, plan)| == DropsAt(s, plan)
  {
    hide PlanCallsOf, Lower, Agrees, OracleOf, DropsAt, CreateOf, Front;
    FrontOnTarget(s, plan);
    LowerAppend(s.db, |PlanCallsOf(s)|, plan, s.resettable, Front(s, plan), others);
    AgreesAppend(OracleOf(s, plan), 0, s.db, |PlanCallsOf(s)|, plan, s.resettable, Front(s, plan), others);
    assert CreateOf(s, plan) + [] == CreateOf(s, plan);
  }

  lemma FrontOnTarget(s: Setting, plan: D.Plan)
    ensures var oracle, at, front := OracleOf(s, plan), |PlanCallsOf(s)|, Front(s, plan);
            && Lower(s.db, at, plan, s.resettable, front) == CreateOf(s, plan)
            && at + |CreateOf(s, plan)| == DropsAt(s, plan)
            && Agrees(oracle, 0, s.db, at, plan, s.resettable, front)
  {
    hide OracleOf, PlanCallsOf, D.CreateActs, D.DropActs, D.Creates, D.Drops, Lower, Agrees;
    OracleAnswers(s, plan, 0, PrepareTarget);
    OracleAnswers(s, plan, 1, CreateTarget);
    var oracle, at := OracleOf(s, plan), |PlanCallsOf(s)|;
    OneOnTarget(oracle, 0, s.db, at, plan, s.resettable, PrepareTarget);
    if s.resettable(plan.databaseUrl) {
      OneOnTarget(oracle, 1, s.db, at, plan, s.resettable, CreateTarget);
      LowerAppend(s.db, at, plan, s.resettable, [PrepareTarget], [CreateTarget]);
      AgreesAppend(oracle, 0, s.db, at, plan, s.resettable, [PrepareTarget], [CreateTarget]);
      assert [PrepareTarget] + [CreateTarget] == Front(s, plan);
    }
  }

  lemma BackOnTarget(s: Setting, plan: D.Plan, n: nat, extras: seq<ReleaseRun.Act>)
    requires forall a :: a in extras ==> !OnTarget(a)
    ensures var oracle, at, back := OracleOf(s, plan), DropsAt(s, plan), [DropTarget] + ContainerActs(plan) + extras;
            && Lower(s.db, at, plan, s.resettable, back) == DropOf(s, plan) + RemoveOf(plan)
            && Agrees(oracle, n, s.db, at, plan, s.resettable, back)
  {
    hide OracleOf, DropsAt, D.DropActs, D.Drops, Lower, Agrees;
    OracleAnswers(s, plan, n, DropTarget);
    var oracle, at, container := OracleOf(s, plan), DropsAt(s, plan), ContainerActs(plan);
    OneOnTarget(oracle, n, s.db, at, plan, s.resettable, DropTarget);
    if plan.removeContainer && plan.containerId.Some? {
      OracleAnswers(s, plan, n + 1, RemoveContainer(plan.containerId.value));
      OneOnTarget(oracle, n + 1, s.db, RemovesAt(s, plan), plan, s.resettable, RemoveContainer(plan.containerId.value));
    } else {
      ElsewhereNothing(oracle, n + 1, s.db, RemovesAt(s, plan), plan, s.resettable, container);
    }
    LowerAppend(s.db, at, plan, s.resettable, [DropTarget], container);
    AgreesAppend(oracle, n, s.db, at, plan, s.resettable, [DropTarget], container);
    var so := [DropTarget] + container;
    LowerAppend(s.db, at, plan, s.resettable, so, extras);
    AgreesAppend(oracle, n, s.db, at, plan, s.resettable, so, extras);
    ElsewhereNothing(oracle, n + |so|, s.db, at + |Lower(s.db, at, plan, s.resettable, so)|, plan, s.resettable, extras);
  }

  /** Planning and then the run, as the command does them; a planning error leaves the run without a plan. */
  method PlanAndRun(texts: Texts, s: Setting, db: World<D.Act>) returns (outcome: Outcome, run: World<ReleaseRun.Act>)
    requires db.oracle == s.db && db.trace == []
    modifies db
    ensures db.trace == PlanCallsOf(s) && fresh(run)
    ensures PlanOf(s).Failure? ==> run.trace == [] && outcome == SettleBlocked(texts, [])
    ensures PlanOf(s).Success? ==>
              && run.oracle == OracleOf(s, PlanOf(s).value)
              && run.trace == Calls(run.oracle, 0, ActsOf(s))
              && outcome == Verdict(texts, run.oracle, 0, Some(PlanOf(s).value), s.lifecycle)
  {
    hide D.Planned, D.PlanCalls, OracleOf, RunActs, Calls, SettleBlocked;
    var plan := D.PlanStrictReleaseDogfoodDatabase(db, s.request);
    if plan.Failure? {
      run := new World(s.rest);
      outcome := RunStrictReleaseFlow(texts, run, None, s.lifecycle);
    } else {
      run := new World(OracleOf(s, plan.value));
      outcome := RunStrictReleaseFlow(texts, run, Some(plan.value), s.lifecycle);
    }
  }

  // ---- What holds of the whole run ----

  /** The target is dropped at exactly one place, and if it is created at all, before that. */
  ghost predicate DroppedOnceAfterwards(acts: seq<ReleaseRun.Act>) {
    exists j :: 0 <= j < |acts| && acts[j] == DropTarget && OnlyDropAt(acts, j)
  }

  predicate OnlyDropAt(acts: seq<ReleaseRun.Act>, j: nat) {
    forall k :: 0 <= k < |acts| ==> (k != j ==> acts[k] != DropTarget) && (acts[k] == CreateTarget ==> k < j)
  }

  /** After call `i` the database is dropped again, unless an answer on the way there was an exception. */
  ghost predicate DropFollows(calls: seq<Call<D.Act>>, i: nat, url: string, database: string) {
    exists j :: i < j < |calls| && DropRunsAt(calls, j, url, database)
  }

  predicate DropRunsAt(calls: seq<Call<D.Act>>, j: nat, url: string, database: string)
    requires j < |calls|
  {
    && calls[j].act == D.Connect(url)
    && (calls[j].reply.Ok? ==>
          && j + 1 < |calls|
          && calls[j + 1].act == D.TerminateBackends(database)
          && (calls[j + 1].reply.Ok? ==> j + 2 < |calls| && calls[j + 2].act == D.DropDatabaseQuery(database)))
  }

  predicate IsQuery(a: D.Act) {
    a.CreateDatabaseQuery? || a.TerminateBackends? || a.DropDatabaseQuery?
  }

  /** The calls of the run on containers are exactly those its plan asks for, and the target is dropped once. */
  lemma ActsOnTarget(s: Setting, plan: D.Plan)
    requires PlanOf(s) == Success(plan)
    ensures DroppedOnceAfterwards(ActsOf(s))
    ensures forall id :: RemoveContainer(id) in ActsOf(s) <==> plan.removeContainer && plan.containerId == Some(id)
  {
    hide PlanOf, RunActs, OracleOf, OnTarget;
    var acts := ActsOf(s);
    var others, extras := Shape(s, plan);
    var before, after := Front(s, plan) + others, ContainerActs(plan) + extras;
    OthersAreOthers(others, extras);
    assert forall a :: a in before ==> a != DropTarget && !a.RemoveContainer?;
    assert forall a :: a in after ==> a != DropTarget && a != CreateTarget;
    assert forall id :: RemoveContainer(id) in after <==> plan.removeContainer && plan.containerId == Some(id);
    hide Front, ContainerActs;
    assert acts == before + [DropTarget] + after;
    DropInTheMiddle(before, after);
  }

  lemma DropInTheMiddle(before: seq<ReleaseRun.Act>, after: seq<ReleaseRun.Act>)
    requires forall a :: a in before ==> a != DropTarget
    requires forall a :: a in after ==> a != DropTarget && a != CreateTarget
    ensures DroppedOnceAfterwards(before + [DropTarget] + after)
  {
    var acts, j := before + [DropTarget] + after, |before|;
    assert acts[j] == DropTarget;
    forall k | 0 <= k < |acts|
      ensures (k != j ==> acts[k] != DropTarget) && (acts[k] == CreateTarget ==> k < j)
    {
      if k < j {
        assert acts[k] == before[k] && before[k] in before;
      } else if k > j {
        assert acts[k] == after[k - j - 1] && after[k - j - 1] in after;
      }
    }
    assert OnlyDropAt(acts, j);
  }

  lemma OthersAreOthers(others: seq<ReleaseRun.Act>, extras: seq<ReleaseRun.Act>)
    requires forall a :: a in others ==> !OnTarget(a)
    requires forall a :: a in extras ==> !OnTarget(a)
    ensures forall a :: a in others || a in extras ==> a != CreateTarget && a != DropTarget && !a.RemoveContainer?
  {
  }

  /** A session's calls are its connection, its statements and its end. */
  lemma DatabaseWork(s: Setting, plan: D.Plan, a: D.Act)
    requires a in CreateOf(s, plan) || a in DropOf(s, plan)
    ensures a == D.Connect(plan.adminUrl) || a == D.EndClient || (IsQuery(a) && a.database == plan.databaseName)
    ensures plan.dropDatabase && s.resettable(plan.databaseUrl)
    ensures a in DropOf(s, plan) ==> !a.CreateDatabaseQuery?
  {
    hide PlanCallsOf, D.SessionActs, DropsAt;
    D.SessionEndsItsClient(s.db, |PlanCallsOf(s)|, plan.adminUrl, D.CreateStatements(plan));
    D.SessionEndsItsClient(s.db, DropsAt(s, plan), plan.adminUrl, D.DropStatements(plan));
  }

  lemma CallsAfterPlanning(s: Setting)
    ensures PlanOf(s).Failure? ==> WholeCalls(s) == PlanCallsOf(s)
    ensures PlanOf(s).Success? ==> WholeCalls(s) == PlanCallsOf(s) + Calls(s.db, |PlanCallsOf(s)|, AfterPlanning(s, PlanOf(s).value))
  {
    hide PlanOf, PlanCallsOf, ActsOf, Lower, CreateOf, DropOf, RemoveOf, Calls;
    if PlanOf(s).Success? {
      RunOnTarget(s, PlanOf(s).value);
    }
  }

  /** Over the whole run the containers brought up are exactly those whose removal is attempted, each handed over or not. */
  lemma ContainersAreAccountedFor(s: Setting)
    ensures forall id :: D.Brought(WholeCalls(s), id) <==> D.RemovalAttempted(WholeCalls(s), id)
    ensures forall id :: D.Brought(PlanCallsOf(s), id) <==> RemoveContainer(id) in ActsOf(s) || D.RemovalAttempted(PlanCallsOf(s), id)
    ensures forall id :: RemoveContainer(id) in ActsOf(s) ==> !D.RemovalAttempted(PlanCallsOf(s), id)
  {
    hide D.PlanCalls, D.Planned, Calls, CreateOf, DropOf, WholeCalls, ContainerActs;
    D.PlanningAccounts(s.db, 0, s.request);
    CallsAfterPlanning(s);
    if PlanOf(s).Success? {
      var plan := PlanOf(s).value;
      hide ActsOf;
      ActsOnTarget(s, plan);
      ContainerCalls(s, plan);
    }
  }

  lemma ContainerCalls(s: Setting, plan: D.Plan)
    requires plan.removeContainer ==> plan.containerId.Some?
    ensures var whole := PlanCallsOf(s) + Calls(s.db, |PlanCallsOf(s)|, AfterPlanning(s, plan));
            forall id ::
              && (D.Brought(whole, id) <==> D.Brought(PlanCallsOf(s), id))
              && (D.RemovalAttempted(whole, id) <==>
                    D.RemovalAttempted(PlanCallsOf(s), id) || (plan.removeContainer && plan.containerId == Some(id)))
  {
    hide PlanCallsOf, CreateOf, DropOf, D.Brought, D.RemovalAttempted;
    var planning, later := PlanCallsOf(s), AfterPlanning(s, plan);
    forall a | a in CreateOf(s, plan) || a in DropOf(s, plan)
      ensures a != D.DockerRun && !a.DockerRemove?
    {
      DatabaseWork(s, plan, a);
    }
    forall id
      ensures D.DockerRemove(id) in later <==> plan.removeContainer && plan.containerId == Some(id)
      ensures D.DockerRun !in later
    {
    }
    hide AfterPlanning;
    forall id
      ensures D.Brought(planning + Calls(s.db, |planning|, later), id) <==> D.Brought(planning, id)
      ensures D.RemovalAttempted(planning + Calls(s.db, |planning|, later), id) <==>
              D.RemovalAttempted(planning, id) || (plan.removeContainer && plan.containerId == Some(id))
    {
      CallsBring(s.db, |planning|, later, id);
      BothBring(planning, Calls(s.db, |planning|, later), id);
    }
  }

  lemma CallsBring(db: Oracle<D.Act>, at: nat, acts: seq<D.Act>, id: string)
    requires D.DockerRun !in acts
    ensures !D.Brought(Calls(db, at, acts), id)
    ensures D.RemovalAttempted(Calls(db, at, acts), id) <==> D.DockerRemove(id) in acts
  {
    var calls := Calls(db, at, acts);
    if D.DockerRemove(id) in acts {
      var i :| 0 <= i < |acts| && acts[i] == D.DockerRemove(id);
      assert calls[i].act == D.DockerRemove(id);
    }
  }

  lemma BothBring(a: seq<Call<D.Act>>, b: seq<Call<D.Act>>, id: string)
    ensures D.Brought(a + b, id) <==> D.Brought(a, id) || D.Brought(b, id)
    ensures D.RemovalAttempted(a + b, id) <==> D.RemovalAttempted(a, id) || D.RemovalAttempted(b, id)
  {
    var all := a + b;
    assert forall i :: 0 <= i < |b| ==> all[|a| + i] == b[i];
    assert forall i :: 0 <= i < |a| ==> all[i] == a[i];
    assert forall i :: |a| <= i < |all| ==> all[i] == b[i - |a|];
  }

  /** Every database statement of the whole run names the run's own database, and none is made when a database was given. */
  lemma DatabaseIsOwn(s: Setting, c: Call<D.Act>)
    requires c in WholeCalls(s) && IsQuery(c.act)
    ensures s.request.provided.None? && c.act.database == D.DatabaseNameForTimestamp(s.request.timestamp)
  {
    hide D.PlanCalls, D.Planned, Calls, CreateOf, DropOf, WholeCalls, D.DatabaseNameForTimestamp;
    D.PlanningAccounts(s.db, 0, s.request);
    CallsAfterPlanning(s);
    assert c !in PlanCallsOf(s);
    var plan := PlanOf(s).value;
    var a := QueryAfterPlanning(s, plan, c);
    DatabaseWork(s, plan, a);
  }

  lemma QueryAfterPlanning(s: Setting, plan: D.Plan, c: Call<D.Act>) returns (a: D.Act)
    requires c in Calls(s.db, |PlanCallsOf(s)|, AfterPlanning(s, plan)) && IsQuery(c.act)
    ensures a == c.act && (a in CreateOf(s, plan) || a in DropOf(s, plan))
  {
    hide PlanCallsOf, CreateOf, DropOf;
    a := c.act;
    var acts, calls := AfterPlanning(s, plan), Calls(s.db, |PlanCallsOf(s)|, AfterPlanning(s, plan));
    var i :| 0 <= i < |calls| && calls[i] == c;
    assert acts[i] == a && a in acts;
  }

  /** A database that was given makes no Postgres or Docker call and has no container removed. */
  lemma GivenDatabaseIsLeftAlone(s: Setting)
    requires s.request.provided.Some?
    ensures WholeCalls(s) == [] && forall id :: RemoveContainer(id) !in ActsOf(s)
  {
    hide D.PlanCalls, D.Planned, WholeCalls, RunActs;
    D.PlanningAccounts(s.db, 0, s.request);
    CallsAfterPlanning(s);
    if PlanOf(s).Success? {
      ActsOnTarget(s, PlanOf(s).value);
    }
    GivenPlanOwnsNothing(s);
  }

  lemma GivenPlanOwnsNothing(s: Setting)
    requires s.request.provided.Some?
    ensures PlanOf(s).Success? ==> !PlanOf(s).value.dropDatabase && !PlanOf(s).value.removeContainer
    ensures PlanOf(s).Success? ==> AfterPlanning(s, PlanOf(s).value) == []
  {
    hide PlanCallsOf, DropsAt;
  }

  /** A dropping session reaches the statement that drops, unless an answer on the way there is an exception. */
  ghost predicate DropBegins(db: Oracle<D.Act>, at: nat, drop: seq<D.Act>, url: string, database: string) {
    && |drop| > 0 && drop[0] == D.Connect(url)
    && (db(at, drop[0]).Ok? ==>
          && |drop| > 1 && drop[1] == D.TerminateBackends(database)
          && (db(at + 1, drop[1]).Ok? ==> |drop| > 2 && drop[2] == D.DropDatabaseQuery(database)))
  }

  lemma CreateThenDrop(
      db: Oracle<D.Act>, planning: seq<Call<D.Act>>, create: seq<D.Act>, drop: seq<D.Act>, remove: seq<D.Act>, i: nat, url: string, database: string)
    requires forall c :: c in planning ==> !c.act.CreateDatabaseQuery?
    requires forall a :: a in drop || a in remove ==> !a.CreateDatabaseQuery?
    requires DropBegins(db, |planning| + |create|, drop, url, database)
    requires var whole := planning + Calls(db, |planning|, create + drop + remove); i < |whole| && whole[i].act.CreateDatabaseQuery?
    ensures DropFollows(planning + Calls(db, |planning|, create + drop + remove), i, url, database)
  {
    hide DropBegins, DropRunsAt;
    var later := create + drop + remove;
    var whole, j := planning + Calls(db, |planning|, later), |planning| + |create|;
    forall k | 0 <= k < |whole| && (k < |planning| || j <= k)
      ensures !whole[k].act.CreateDatabaseQuery?
    {
      if k < |planning| {
        assert whole[k] == planning[k] && planning[k] in planning;
      } else {
        var a := later[k - |planning|];
        assert whole[k].act == a && (a in drop || a in remove);
      }
    }
    DropRuns(db, planning, create, drop, remove, url, database);
    assert i < j < |whole|;
  }

  lemma DropRuns(db: Oracle<D.Act>, planning: seq<Call<D.Act>>, create: seq<D.Act>, drop: seq<D.Act>, remove: seq<D.Act>, url: string, database: string)
    requires DropBegins(db, |planning| + |create|, drop, url, database)
    ensures var whole, j := planning + Calls(db, |planning|, create + drop + remove), |planning| + |create|;
            j < |whole| && DropRunsAt(whole, j, url, database)
  {
    var later := create + drop + remove;
    var whole, j := planning + Calls(db, |planning|, later), |planning| + |create|;
    assert later[|create|] == drop[0] && whole[j] == Call(drop[0], db(j, drop[0]));
    if |drop| > 1 {
      assert later[|create| + 1] == drop[1] && whole[j + 1] == Call(drop[1], db(j + 1, drop[1]));
    }
    if |drop| > 2 {
      assert later[|create| + 2] == drop[2] && whole[j + 2] == Call(drop[2], db(j + 2, drop[2]));
    }
  }

  /** Creating the database is followed by the attempt to drop it, which only an exception on its own way can stop. */
  lemma CreatedIsDropped(s: Setting, plan: D.Plan, i: nat)
    requires PlanOf(s) == Success(plan) && i < |WholeCalls(s)| && WholeCalls(s)[i].act.CreateDatabaseQuery?
    ensures DropFollows(WholeCalls(s), i, plan.adminUrl, plan.databaseName)
  {
    hide D.PlanCalls, D.Planned, CreateOf, DropOf, WholeCalls, DropFollows, DropBegins;
    D.PlanningAccounts(s.db, 0, s.request);
    CallsAfterPlanning(s);
    var planning, create, drop := PlanCallsOf(s), CreateOf(s, plan), DropOf(s, plan);
    hide PlanCallsOf;
    var c := WholeCalls(s)[i];
    assert c in WholeCalls(s) && c !in planning;
    var a := QueryAfterPlanning(s, plan, c);
    DatabaseWork(s, plan, a);
    SessionDrops(s, plan, a);
    forall b | b in drop
      ensures !b.CreateDatabaseQuery?
    {
      DatabaseWork(s, plan, b);
    }
    CreateThenDrop(s.db, planning, create, drop, RemoveOf(plan), i, plan.adminUrl, plan.databaseName);
  }

  lemma SessionDrops(s: Setting, plan: D.Plan, a: D.Act)
    requires a in CreateOf(s, plan) && a.CreateDatabaseQuery?
    ensures DropBegins(s.db, |PlanCallsOf(s)| + |CreateOf(s, plan)|, DropOf(s, plan), plan.adminUrl, plan.databaseName)
  {
    hide PlanCallsOf;
    var at := |PlanCallsOf(s)|;
    D.SessionEndsItsClient(s.db, at, plan.adminUrl, D.CreateStatements(plan));
    assert D.Quotable(plan.databaseName) && at + |CreateOf(s, plan)| == DropsAt(s, plan);
    var statements := D.DropStatements(plan);
    assert statements[0] == D.TerminateBackends(plan.databaseName) && statements[1] == D.DropDatabaseQuery(plan.databaseName);
  }

  /**
   Resource safety and ownership of the whole run, planning included, whatever throws anywhere. Apps and clients: each one opened has
   a close attempted later, none closed successfully is closed again. Containers: one brought up is removed by planning or by
   cleanup, and nothing else is removed. Database: the target is dropped at exactly one place, after its creation; each statement
   names the run's own database. A database that was given is left alone, and no container is touched then. Cleanup, last of all,
   keeps its fixed order.
   */
  lemma WholeRunIsAccountedFor(s: Setting)
    ensures var planning, acts, whole := PlanCallsOf(s), ActsOf(s), WholeCalls(s);
            && (forall id :: D.Brought(planning, id) ==> D.RemovalAttempted(planning, id) || RemoveContainer(id) in acts)
            && (forall id :: RemoveContainer(id) in acts ==> D.Brought(planning, id) && !D.RemovalAttempted(planning, id))
            && (forall id :: D.Brought(whole, id) <==> D.RemovalAttempted(whole, id))
            && (PlanOf(s).Success? ==> DroppedOnceAfterwards(acts))
            && (forall i :: 0 <= i < |whole| && whole[i].act.CreateDatabaseQuery? ==>
                  PlanOf(s).Success? && DropFollows(whole, i, PlanOf(s).value.adminUrl, whole[i].act.database))
            && (forall c :: c in whole && IsQuery(c.act) ==> c.act.database == D.DatabaseNameForTimestamp(s.request.timestamp))
            && (s.request.provided.Some? ==> whole == [] && forall id :: RemoveContainer(id) !in acts)
            && (PlanOf(s).Success? ==>
                  var oracle := OracleOf(s, PlanOf(s).value);
                  var calls := Calls(oracle, 0, acts);
                  && EveryOpenedIsClosed(calls) && NothingClosedTwice(calls)
                  && |ForwardActs(oracle, 0)| <= |acts| && InFixedOrder(acts[|ForwardActs(oracle, 0)|..]))
  {
    hide D.PlanCalls, D.Planned, WholeCalls, RunActs, Calls, D.DatabaseNameForTimestamp, EveryOpenedIsClosed, NothingClosedTwice, DropFollows, DroppedOnceAfterwards, InFixedOrder, ForwardActs;
    var whole := WholeCalls(s);
    ContainersAreAccountedFor(s);
    if s.request.provided.Some? {
      GivenDatabaseIsLeftAlone(s);
    }
    forall c | c in whole && IsQuery(c.act)
      ensures c.act.database == D.DatabaseNameForTimestamp(s.request.timestamp)
    {
      DatabaseIsOwn(s, c);
    }
    if PlanOf(s).Success? {
      var plan := PlanOf(s).value;
      ResourceSafety(OracleOf(s, plan), 0, plan, s.lifecycle);
      RunCleansUpInOrder(OracleOf(s, plan), 0, plan, s.lifecycle);
      ActsOnTarget(s, plan);
      D.PlanningAccounts(s.db, 0, s.request);
      forall i | 0 <= i < |whole| && whole[i].act.CreateDatabaseQuery?
        ensures DropFollows(whole, i, plan.adminUrl, whole[i].act.database)
      {
        CreatedIsDropped(s, plan, i);
        DatabaseIsOwn(s, whole[i]);
      }
    } else {
      PlanningMakesNoDatabase(s);
    }
  }

  lemma PlanningMakesNoDatabase(s: Setting)
    requires PlanOf(s).Failure?
    ensures forall i :: 0 <= i < |WholeCalls(s)| ==> !WholeCalls(s)[i].act.CreateDatabaseQuery?
  {
    hide D.PlanCalls, D.Planned, WholeCalls;
    D.PlanningAccounts(s.db, 0, s.request);
    CallsAfterPlanning(s);
    forall i | 0 <= i < |WholeCalls(s)|
      ensures !WholeCalls(s)[i].act.CreateDatabaseQuery?
    {
      assert WholeCalls(s)[i] in PlanCallsOf(s);
    }
  }

  // ---- The verdict, down to the database ----

  lemma {:induction false} NoErrors(calls: seq<Call<ReleaseRun.Act>>)
    requires Errors(calls) == []
    ensures forall i :: 0 <= i < |calls| ==> calls[i].reply.Ok?
    decreases |calls|
  {
    if calls != [] {
      NoErrors(calls[..|calls| - 1]);
    }
  }

  lemma CleanCleanup(s: Setting, plan: D.Plan, act: ReleaseRun.Act)
    requires var oracle := OracleOf(s, plan);
             CleanupErrors(oracle, 0, plan, s.lifecycle) == [] && act in CleanupOf(oracle, 0, plan, s.lifecycle)
    ensures exists n: nat :: OracleOf(s, plan)(n, act).Ok?
  {
    hide OracleOf, CleanupOf, Errors, ForwardActs;
    var oracle := OracleOf(s, plan);
    var acts, at := CleanupOf(oracle, 0, plan, s.lifecycle), 0 + |ForwardActs(oracle, 0)|;
    var calls := Calls(oracle, at, acts);
    NoErrors(calls);
    var i :| 0 <= i < |acts| && acts[i] == act;
    assert calls[i].reply == oracle(at + i, act);
  }

  /**
   Exit 0 without allowance, down to Postgres and Docker: the database was created and dropped by sessions that succeeded
   throughout, or there was none to create, and the container the run brought up was removed.
   */
  lemma StrictExitMeansTargetGone(texts: Texts, s: Setting, plan: D.Plan)
    requires ExitCode(texts, Verdict(texts, OracleOf(s, plan), 0, Some(plan), s.lifecycle), false) == 0
    ensures s.resettable(plan.databaseUrl)
    ensures D.Creates(s.db, |PlanCallsOf(s)|, plan, s.resettable) && D.Drops(s.db, DropsAt(s, plan), plan, s.resettable)
    ensures plan.removeContainer && plan.containerId.Some? ==> s.db(RemovesAt(s, plan), D.DockerRemove(plan.containerId.value)).Ok?
  {
    hide *;
    CleanRun(texts, s, plan);
    TargetAnswers(s, plan, 0);
    TargetAnswers(s, plan, 1);
    TargetInCleanup(OracleOf(s, plan), plan, s.lifecycle);
    CleanCleanup(s, plan, DropTarget);
    var n: nat :| OracleOf(s, plan)(n, DropTarget).Ok?;
    TargetAnswers(s, plan, n);
    if plan.removeContainer && plan.containerId.Some? {
      var removal := RemoveContainer(plan.containerId.value);
      OwnContainer(plan);
      CleanCleanup(s, plan, removal);
      var m: nat :| OracleOf(s, plan)(m, removal).Ok?;
      TargetAnswers(s, plan, m);
    }
  }

  lemma CleanRun(texts: Texts, s: Setting, plan: D.Plan)
    requires ExitCode(texts, Verdict(texts, OracleOf(s, plan), 0, Some(plan), s.lifecycle), false) == 0
    ensures OracleOf(s, plan)(0, PrepareTarget).Ok? && OracleOf(s, plan)(1, CreateTarget).Ok?
    ensures CleanupErrors(OracleOf(s, plan), 0, plan, s.lifecycle) == []
  {
    hide OracleOf, Verdict, ExitCode, CleanupErrors, CleanupActs, FullEvidence, Stages;
    var oracle := OracleOf(s, plan);
    StrictExitZero(texts, oracle, 0, Some(plan), s.lifecycle);
    hide StagesDone;
    StageOrder();
    FirstStageDone(oracle);
  }

  lemma FirstStageDone(oracle: Oracle<ReleaseRun.Act>)
    requires StagesDone(oracle, 0) == |Stages()|
    ensures oracle(1, CreateTarget).Ok?
  {
    StageOrder();
    hide Stages;
    assert Completed(oracle, 0 + 1, Stages()) == |Stages()|;
    assert oracle(1 + 0, Stages()[0]).Ok?;
  }

  lemma OwnContainer(plan: D.Plan)
    requires plan.removeContainer && plan.containerId.Some?
    ensures RemoveContainer(plan.containerId.value) in ContainerActs(plan)
  {
  }

  lemma TargetAnswers(s: Setting, plan: D.Plan, n: nat)
    ensures OracleOf(s, plan)(n, PrepareTarget).Ok? <==> s.resettable(plan.databaseUrl)
    ensures OracleOf(s, plan)(n, CreateTarget).Ok? <==> D.Creates(s.db, |PlanCallsOf(s)|, plan, s.resettable)
    ensures OracleOf(s, plan)(n, DropTarget).Ok? <==> D.Drops(s.db, DropsAt(s, plan), plan, s.resettable)
    ensures plan.containerId.Some? ==>
              var id := plan.containerId.value; OracleOf(s, plan)(n, RemoveContainer(id)).Ok? <==> s.db(RemovesAt(s, plan), D.DockerRemove(id)).Ok?
  {
    hide OracleOf, PlanCallsOf, DropsAt, RemovesAt, D.Creates, D.Drops;
    OracleAnswers(s, plan, n, PrepareTarget);
    OracleAnswers(s, plan, n, CreateTarget);
    OracleAnswers(s, plan, n, DropTarget);
    if plan.containerId.Some? {
      OracleAnswers(s, plan, n, RemoveContainer(plan.containerId.value));
    }
  }

  lemma TargetInCleanup(oracle: Oracle<ReleaseRun.Act>, plan: D.Plan, lifecycle: Lifecycle)
    ensures DropTarget in CleanupOf(oracle, 0, plan, lifecycle)
    ensures forall a :: a in ContainerActs(plan) ==> a in CleanupOf(oracle, 0, plan, lifecycle)
  {
    hide Closes, HeldAfter, StagesDone, Prepared;
  }
}
