/** The running totals of a boundary conversation against its record, and what a whole run of one guarantees. */
module BoundaryRuns {
  import opened Prelude
  import opened BoundaryRecord
  import P = Polling
  import E = Evidence

  datatype Error =
    | PlanMissing
    | ItemMissing
    | SessionMissing
    | RevisionMissing
    | MaxTurnsExceeded
    | UnexpectedState
    | LoopExhausted
    | Outside(error: P.Error)

  /** The driver's local variables. */
  datatype Tally = Tally(
    aiTurns: nat,
    followUp: bool,
    changePathCovered: bool,
    changeRequested: bool,
    answered: set<string>,
    jobs: seq<string>,
    schemas: seq<string>,
    appServer: seq<string>,
    cleanups: seq<E.Cleanup>)

  const NOTHING_YET := Tally(0, false, false, false, {}, [], [], [], [])

  /** The totals that depend on the visited sessions. */
  ghost predicate Counts(mode: E.Mode, digest: string -> string, visits: seq<Session>, t: Tally) {
    && t.aiTurns == TurnsIn(visits)
    && t.answered == AnsweredIn(visits)
    && (t.followUp <==> FollowUpIn(visits))
    && (t.changeRequested <==> Requested(mode, visits))
    && t.changePathCovered == t.changeRequested
    && t.jobs == Map(digest, JobsIn(visits))
  }

  /** The totals that depend on what was read about the jobs of finished turns. */
  ghost predicate Collects(trace: seq<Act>, t: Tally) {
    && t.schemas == Gather(SchemasOf, trace)
    && t.appServer == Gather(AppServerOf, trace)
    && t.cleanups == Gather(CleanupOf, trace)
    && Gather(CleanedJobOf, trace) == JobsIn(Decisions(trace))
  }

  ghost predicate Tallied(mode: E.Mode, sid: string, digest: string -> string, trace: seq<Act>, t: Tally) {
    && Posts(trace) == [Create(mode)] + PostsFor(mode, sid, Decisions(trace))
    && Counts(mode, digest, Decisions(trace), t)
    && Collects(trace, t)
  }

  lemma BeginsTallied(mode: E.Mode, sid: string, digest: string -> string)
    ensures Tallied(mode, sid, digest, [RunWorker, Create(mode)], NOTHING_YET)
    ensures Decisions([RunWorker, Create(mode)]) == [] && Orderly([RunWorker, Create(mode)]) && NoTurnLast([RunWorker, Create(mode)])
  {
    GatherTwo(DecisionOf, RunWorker, Create(mode));
    GatherTwo(PostOf, RunWorker, Create(mode));
    GatherTwo(SchemasOf, RunWorker, Create(mode));
    GatherTwo(AppServerOf, RunWorker, Create(mode));
    GatherTwo(CleanupOf, RunWorker, Create(mode));
    GatherTwo(CleanedJobOf, RunWorker, Create(mode));
    assert AnsweredIn([]) == {} && JobsIn([]) == [] && !FollowUpIn([]);
  }

  // ---- One iteration ----

  lemma DecideThen(trace: seq<Act>, s: Session, more: seq<Act>)
    requires NoDecision(more)
    ensures Decisions(trace + [Decide(s)] + more) == Decisions(trace) + [s]
    ensures Posts(trace + [Decide(s)] + more) == Posts(trace) + Posts(more)
  {
    GatherAppend(DecisionOf, trace + [Decide(s)], more);
    GatherAppend(DecisionOf, trace, [Decide(s)]);
    GatherAppend(PostOf, trace + [Decide(s)], more);
    GatherAppend(PostOf, trace, [Decide(s)]);
    GatherNothing(DecisionOf, more);
    assert Gather(DecisionOf, [Decide(s)]) == [s];
    assert Gather(PostOf, [Decide(s)]) == [];
  }

  lemma ReadThen<T>(pick: Act -> seq<T>, trace: seq<Act>, s: Session, more: seq<Act>)
    requires pick(Decide(s)) == []
    ensures Gather(pick, trace + [Decide(s)] + more) == Gather(pick, trace) + Gather(pick, more)
  {
    hide Gather;
    GatherAppend(pick, trace + [Decide(s)], more);
    GatherAppend(pick, trace, [Decide(s)]);
    GatherOne(pick, Decide(s));
  }

  lemma CollectsMore(trace: seq<Act>, s: Session, more: seq<Act>, t: Tally, t': Tally)
    requires Collects(trace, t) && NoDecision(more)
    requires t'.schemas == t.schemas + Gather(SchemasOf, more)
    requires t'.appServer == t.appServer + Gather(AppServerOf, more)
    requires t'.cleanups == t.cleanups + Gather(CleanupOf, more)
    requires Gather(CleanedJobOf, more) == TurnJob(s)
    ensures Collects(trace + [Decide(s)] + more, t')
  {
    ReadThen(SchemasOf, trace, s, more);
    ReadThen(AppServerOf, trace, s, more);
    ReadThen(CleanupOf, trace, s, more);
    ReadThen(CleanedJobOf, trace, s, more);
    DecideThen(trace, s, more);
    JobsMore(Decisions(trace), s);
  }

  lemma CountsMore(mode: E.Mode, digest: string -> string, visits: seq<Session>, s: Session, t: Tally, t': Tally)
    requires Counts(mode, digest, visits, t)
    requires t'.aiTurns == t.aiTurns + if IsTurn(s) then 1 else 0
    requires t'.answered == t.answered + if IsLeader(s) then OpenIds(s) else {}
    requires t'.followUp <==> t.followUp || SeesFollowUp(visits, s)
    requires t'.changeRequested <==> t.changeRequested || (mode == E.Initial && IsSummary(s))
    requires t'.changePathCovered == t'.changeRequested
    requires t'.jobs == t.jobs + Map(digest, TurnJob(s))
    ensures Counts(mode, digest, visits + [s], t')
  {
    TurnsMore(visits, s);
    AnsweredMore(visits, s);
    FollowUpMore(visits, s);
    RequestedMore(mode, visits, s);
    JobsMore(visits, s);
    MapAppend(digest, JobsIn(visits), TurnJob(s));
  }

  lemma RequestedMore(mode: E.Mode, visits: seq<Session>, s: Session)
    ensures Requested(mode, visits + [s]) <==> Requested(mode, visits) || (mode == E.Initial && IsSummary(s))
  {
    hide IsSummary;
    assert forall v :: v in visits + [s] <==> v in visits || v == s;
  }

  predicate IsTurnWork(a: Act) {
    !a.Decide? && !IsPost(a)
  }

  /** The totals after a turn. */
  function AfterTurn(t: Tally, digest: string -> string, s: Session, more: seq<Act>): Tally {
    t.(aiTurns := t.aiTurns + 1,
       jobs := t.jobs + Map(digest, TurnJob(s)),
       schemas := t.schemas + Gather(SchemasOf, more),
       appServer := t.appServer + Gather(AppServerOf, more),
       cleanups := t.cleanups + Gather(CleanupOf, more))
  }

  lemma TurnKeeps(mode: E.Mode, sid: string, digest: string -> string, trace: seq<Act>, t: Tally, s: Session, more: seq<Act>)
    requires Tallied(mode, sid, digest, trace, t) && IsTurn(s)
    requires forall i :: 0 <= i < |more| ==> IsTurnWork(more[i])
    requires Gather(CleanedJobOf, more) == TurnJob(s)
    ensures Tallied(mode, sid, digest, trace + [Decide(s)] + more, AfterTurn(t, digest, s, more))
  {
    hide Counts, Collects, Decisions, Posts, PostsFor, AfterTurn, Gather, TurnJob, IsTurn, IsTurnWork;
    var t' := AfterTurn(t, digest, s, more);
    TurnPosts(mode, sid, trace, s, more);
    TurnCollects(trace, t, digest, s, more);
    TurnCounts(mode, digest, Decisions(trace), t, s, more);
  }

  lemma TurnCollects(trace: seq<Act>, t: Tally, digest: string -> string, s: Session, more: seq<Act>)
    requires Collects(trace, t) && NoDecision(more) && Gather(CleanedJobOf, more) == TurnJob(s)
    ensures Collects(trace + [Decide(s)] + more, AfterTurn(t, digest, s, more))
  {
    hide Collects, Gather, TurnJob;
    CollectsMore(trace, s, more, t, AfterTurn(t, digest, s, more));
  }

  lemma TurnCounts(mode: E.Mode, digest: string -> string, visits: seq<Session>, t: Tally, s: Session, more: seq<Act>)
    requires Counts(mode, digest, visits, t) && IsTurn(s)
    ensures Counts(mode, digest, visits + [s], AfterTurn(t, digest, s, more))
  {
    OnlyATurn(visits, s);
    hide IsTurn, IsLeader, IsSummary, SeesFollowUp, Gather, TurnJob, TurnsIn, AnsweredIn, FollowUpIn, JobsIn, Requested;
    CountsMore(mode, digest, visits, s, t, AfterTurn(t, digest, s, more));
  }

  lemma TurnPosts(mode: E.Mode, sid: string, trace: seq<Act>, s: Session, more: seq<Act>)
    requires Posts(trace) == [Create(mode)] + PostsFor(mode, sid, Decisions(trace)) && IsTurn(s)
    requires forall i :: 0 <= i < |more| ==> IsTurnWork(more[i])
    ensures NoDecision(more)
    ensures Posts(trace + [Decide(s)] + more) == [Create(mode)] + PostsFor(mode, sid, Decisions(trace) + [s])
    ensures Decisions(trace + [Decide(s)] + more) == Decisions(trace) + [s]
  {
    hide PostsFor;
    DecideThen(trace, s, more);
    GatherNothing(PostOf, more);
    PostsForMore(mode, sid, Decisions(trace), s);
    TurnPostsNothing(mode, sid, Decisions(trace), s);
  }

  /** The totals after the leader's answers. */
  function AfterLeader(t: Tally, s: Session): Tally {
    t.(followUp := t.followUp || (t.answered != {} && exists q :: q in OpenQuestions(s) && q.id !in t.answered),
       answered := t.answered + OpenIds(s))
  }

  lemma LeaderKeeps(mode: E.Mode, sid: string, digest: string -> string, trace: seq<Act>, t: Tally, s: Session)
    requires Tallied(mode, sid, digest, trace, t) && IsLeader(s)
    ensures Tallied(mode, sid, digest, trace + [Decide(s)] + (AnswersTo(s) + [Continue(sid)]), AfterLeader(t, s))
  {
    var more, t' := AnswersTo(s) + [Continue(sid)], AfterLeader(t, s);
    PostsRemain(mode, sid, digest, trace, t, s, more, t');
    FollowUpByQuestion(Decisions(trace), s, t.answered);
    CountsMore(mode, digest, Decisions(trace), s, t, t');
  }

  lemma FollowUpByQuestion(visits: seq<Session>, s: Session, answered: set<string>)
    requires IsLeader(s) && answered == AnsweredIn(visits)
    ensures SeesFollowUp(visits, s) <==> answered != {} && exists q :: q in OpenQuestions(s) && q.id !in answered
  {
    hide IsLeader, AnsweredIn, OpenQuestions;
    var open := OpenQuestions(s);
    OpenIdsAre(s);
    if q :| q in open && q.id !in answered {
      assert q.id in OpenIds(s);
    }
    if id :| id in OpenIds(s) && id !in answered {
      var q :| q in open && q.id == id;
      assert q.id !in answered;
    }
  }

  lemma OpenIdsAre(s: Session)
    ensures forall id :: id in OpenIds(s) <==> exists q :: q in OpenQuestions(s) && q.id == id
  {
    hide OpenQuestions;
    var open := OpenQuestions(s);
    var ids := Map(QuestionId, open);
    forall id
      ensures id in OpenIds(s) <==> exists q :: q in open && q.id == id
    {
      if id in ids {
        var i :| 0 <= i < |ids| && ids[i] == id;
        assert open[i] in open && open[i].id == id;
      }
      if q :| q in open && q.id == id {
        var i :| 0 <= i < |open| && open[i] == q;
        assert ids[i] == id;
      }
    }
  }

  /** The totals after a change of the summary was asked for. */
  function AfterRequest(t: Tally): Tally {
    t.(changeRequested := true, changePathCovered := true)
  }

  lemma RequestKeeps(mode: E.Mode, sid: string, digest: string -> string, trace: seq<Act>, t: Tally, s: Session)
    requires Tallied(mode, sid, digest, trace, t) && IsSummary(s) && SummaryRevision(s).Some?
    requires mode == E.Initial && !t.changeRequested
    ensures Tallied(mode, sid, digest, trace + [Decide(s)] + [RequestChanges(sid, SummaryRevision(s).value)], AfterRequest(t))
  {
    PostsRemain(mode, sid, digest, trace, t, s, [RequestChanges(sid, SummaryRevision(s).value)], AfterRequest(t));
    CountsMore(mode, digest, Decisions(trace), s, t, AfterRequest(t));
  }

  /** The posts of a visit that is no turn, all of them made. */
  lemma PostsRemain(mode: E.Mode, sid: string, digest: string -> string, trace: seq<Act>, t: Tally, s: Session, more: seq<Act>, t': Tally)
    requires Tallied(mode, sid, digest, trace, t) && !IsTurn(s)
    requires more == PostsAt(mode, sid, Decisions(trace), s)
    requires t'.schemas == t.schemas && t'.appServer == t.appServer && t'.cleanups == t.cleanups
    ensures Posts(trace + [Decide(s)] + more) == [Create(mode)] + PostsFor(mode, sid, Decisions(trace) + [s])
    ensures Decisions(trace + [Decide(s)] + more) == Decisions(trace) + [s]
    ensures Collects(trace + [Decide(s)] + more, t')
  {
    hide PostsFor, Counts, Collects;
    PostsArePosts(mode, sid, Decisions(trace), s);
    hide PostsAt;
    OnlyPosts(more);
    NotATurn(s);
    hide TurnJob, IsTurn, Gather, IsPost;
    DecideThen(trace, s, more);
    PostsForMore(mode, sid, Decisions(trace), s);
    CollectsMore(trace, s, more, t, t');
  }

  lemma PostsArePosts(mode: E.Mode, sid: string, before: seq<Session>, s: Session)
    ensures var posts := PostsAt(mode, sid, before, s); forall i :: 0 <= i < |posts| ==> IsPost(posts[i]) && !posts[i].Create?
  {
  }

  lemma {:induction false} OnlyPosts(posts: seq<Act>)
    requires forall i :: 0 <= i < |posts| ==> IsPost(posts[i])
    ensures Posts(posts) == posts
    ensures NoDecision(posts)
    ensures Gather(SchemasOf, posts) == [] && Gather(AppServerOf, posts) == [] && Gather(CleanupOf, posts) == [] && Gather(CleanedJobOf, posts) == []
    decreases |posts|
  {
    if posts != [] {
      assert IsPost(posts[0]);
      OnlyPosts(posts[1..]);
    }
  }

  lemma NotATurn(s: Session)
    requires !IsTurn(s)
    ensures TurnJob(s) == []
  {
  }

  lemma OnlyATurn(visits: seq<Session>, s: Session)
    requires IsTurn(s)
    ensures !IsLeader(s) && !IsSummary(s) && !SeesFollowUp(visits, s)
  {
  }

  lemma TurnPostsNothing(mode: E.Mode, sid: string, before: seq<Session>, s: Session)
    requires IsTurn(s)
    ensures PostsAt(mode, sid, before, s) == []
  {
  }

  // ---- Whole runs ----

  /** The driver returns after acting on `s`. */
  predicate Finishes(mode: E.Mode, before: seq<Session>, s: Session) {
    || (IsSummary(s) && SummaryRevision(s).Some? && !GoesOn(mode, before, s))
    || (SessionStatus(s) == Approved && s.approvedSummary.Some? && (mode == E.Initial ==> Requested(mode, before)))
  }

  function BoundaryFor(mode: E.Mode, sid: string, revision: string, t: Tally): E.Boundary {
    var cleanup := if E.CleanupBlocked in t.cleanups then E.CleanupBlocked else E.Completed;
    E.Boundary(mode, sid, revision, t.aiTurns, t.followUp, t.changePathCovered,
      E.PhaseEvidence(Unique(t.schemas), Unique(t.jobs), Unique(t.appServer), cleanup))
  }

  /** A run that returns `b`: where it ended, what it posted, and what it counted. */
  ghost predicate ReturnedRun(mode: E.Mode, budget: nat, sid: string, digest: string -> string, trace: seq<Act>, b: E.Boundary) {
    var v := Decisions(trace);
    && 0 < |v| <= 3 * budget
    && TurnsIn(v) <= budget
    && AllGoOn(mode, v[..|v| - 1])
    && Finishes(mode, v[..|v| - 1], v[|v| - 1])
    && Orderly(trace)
    && (exists t :: Tallied(mode, sid, digest, trace, t) && b == BoundaryFor(mode, sid, b.revisionId, t))
    && (IsSummary(v[|v| - 1]) ==> trace[|trace| - 1] == ReadApproval(b.revisionId))
    && (!IsSummary(v[|v| - 1]) ==> v[|v| - 1].approvedSummary == Some(b.revisionId))
  }

  /** A run that throws: what it posted is a beginning of what it had to post, and each of the driver's own errors has its reason. */
  ghost predicate ThrownRun(mode: E.Mode, budget: nat, sid: string, trace: seq<Act>, error: Error) {
    var v := Decisions(trace);
    && Orderly(trace)
    && |v| <= 3 * budget
    && AllGoOn(mode, v[..if v == [] then 0 else |v| - 1])
    && Posts(trace) <= [Create(mode)] + PostsFor(mode, sid, v)
    && (TurnsIn(v) <= budget || error == MaxTurnsExceeded)
    && (match error
        case MaxTurnsExceeded => TurnsIn(v) == budget + 1 && IsTurn(v[|v| - 1])
        case LoopExhausted => |v| == 3 * budget && AllGoOn(mode, v)
        case UnexpectedState => v != [] && Strange(mode, v[..|v| - 1], v[|v| - 1])
        case RevisionMissing => v != [] && LacksRevision(v[|v| - 1])
        case _ => true)
  }

  /** A session that the driver does not know how to go on from. */
  predicate Strange(mode: E.Mode, before: seq<Session>, s: Session) {
    || SessionStatus(s) in {Draft, Stale, Cancelled}
    || (SessionStatus(s) == Approved && mode == E.Initial && !Requested(mode, before))
  }

  predicate LacksRevision(s: Session) {
    || (IsSummary(s) && SummaryRevision(s).None?)
    || (SessionStatus(s) == Approved && s.approvedSummary.None?)
  }

  // ---- What a whole run guarantees ----

  predicate IsRequest(a: Act) {
    a.RequestChanges?
  }

  predicate IsApproval(a: Act) {
    a.Approve?
  }

  lemma LeaderPostsNoVerdict(s: Session, sid: string)
    ensures Filter(IsRequest, AnswersTo(s) + [Continue(sid)]) == [] && Filter(IsApproval, AnswersTo(s) + [Continue(sid)]) == []
  {
    FilterNothing(IsRequest, AnswersTo(s) + [Continue(sid)]);
    FilterNothing(IsApproval, AnswersTo(s) + [Continue(sid)]);
  }

  /** The change requests and approvals of one visit. */
  lemma VerdictsAt(mode: E.Mode, sid: string, before: seq<Session>, s: Session)
    ensures var asks := IsSummary(s) && SummaryRevision(s).Some? && mode == E.Initial && !Requested(mode, before);
            var approves := IsSummary(s) && SummaryRevision(s).Some? && !asks;
            && |Filter(IsRequest, PostsAt(mode, sid, before, s))| == (if asks then 1 else 0)
            && |Filter(IsApproval, PostsAt(mode, sid, before, s))| == (if approves then 1 else 0)
  {
    if IsLeader(s) {
      LeaderPostsNoVerdict(s, sid);
    } else {
      hide Requested, SummaryRevision;
      assert forall a: Act :: [a][..0] == [];
    }
  }

  lemma VerdictsMore(mode: E.Mode, sid: string, before: seq<Session>, s: Session)
    ensures |Filter(IsRequest, PostsFor(mode, sid, before + [s]))| ==
            |Filter(IsRequest, PostsFor(mode, sid, before))| + |Filter(IsRequest, PostsAt(mode, sid, before, s))|
    ensures |Filter(IsApproval, PostsFor(mode, sid, before + [s]))| ==
            |Filter(IsApproval, PostsFor(mode, sid, before))| + |Filter(IsApproval, PostsAt(mode, sid, before, s))|
  {
    hide PostsAt, Filter;
    PostsForMore(mode, sid, before, s);
    FilterAppend(IsRequest, PostsFor(mode, sid, before), PostsAt(mode, sid, before, s));
    FilterAppend(IsApproval, PostsFor(mode, sid, before), PostsAt(mode, sid, before, s));
  }

  /** While the loop goes on, one change is asked for when the first summary of an initial conversation is seen, and nothing is approved. */
  lemma {:induction false} VerdictsSoFar(mode: E.Mode, sid: string, visits: seq<Session>)
    requires AllGoOn(mode, visits)
    ensures |Filter(IsRequest, PostsFor(mode, sid, visits))| == if Requested(mode, visits) then 1 else 0
    ensures |Filter(IsApproval, PostsFor(mode, sid, visits))| == 0
    decreases |visits|
  {
    if visits != [] {
      var n := |visits| - 1;
      var before, s := visits[..n], visits[n];
      assert visits == before + [s] && GoesOn(mode, before, s);
      AllButLastGoOn(mode, visits);
      OnlyOneKind(mode, before, s);
      hide PostsFor, PostsAt, Filter, Requested, AllGoOn, GoesOn, IsSummary, SummaryRevision;
      VerdictsSoFar(mode, sid, before);
      VerdictsMore(mode, sid, before, s);
      VerdictsAt(mode, sid, before, s);
      RequestedMore(mode, before, s);
      RequestedOnlyInitially(mode, before);
    }
  }

  lemma OnlyOneKind(mode: E.Mode, before: seq<Session>, s: Session)
    requires GoesOn(mode, before, s)
    ensures IsSummary(s) ==> SummaryRevision(s).Some? && mode == E.Initial && !Requested(mode, before)
  {
  }

  lemma AllButLastGoOn(mode: E.Mode, visits: seq<Session>)
    requires AllGoOn(mode, visits)
    ensures AllGoOn(mode, visits[..if visits == [] then 0 else |visits| - 1])
  {
    var part := visits[..if visits == [] then 0 else |visits| - 1];
    forall j | 0 <= j < |part|
      ensures GoesOn(mode, part[..j], part[j])
    {
      assert part[..j] == visits[..j];
    }
  }

  /** The posts of a run are its creation and then the posts for its visits. */
  lemma VerdictsOfRun(mode: E.Mode, sid: string, visits: seq<Session>)
    requires visits != [] && AllGoOn(mode, visits[..|visits| - 1])
    ensures var n := |visits| - 1;
            var before, s, posts := visits[..n], visits[n], [Create(mode)] + PostsFor(mode, sid, visits);
            var asks := IsSummary(s) && SummaryRevision(s).Some? && mode == E.Initial && !Requested(mode, before);
            && |Filter(IsRequest, posts)| == (if Requested(mode, before) || asks then 1 else 0)
            && |Filter(IsApproval, posts)| == (if IsSummary(s) && SummaryRevision(s).Some? && !asks then 1 else 0)
  {
    var n := |visits| - 1;
    var before, s := visits[..n], visits[n];
    assert visits == before + [s];
    FilterNothing(IsRequest, [Create(mode)]);
    FilterNothing(IsApproval, [Create(mode)]);
    FilterAppend(IsRequest, [Create(mode)], PostsFor(mode, sid, visits));
    FilterAppend(IsApproval, [Create(mode)], PostsFor(mode, sid, visits));
    VerdictsSoFar(mode, sid, before);
    VerdictsMore(mode, sid, before, s);
    VerdictsAt(mode, sid, before, s);
  }

  /**
   An initial conversation returns only after exactly one change of the summary was asked for in the same call, a rebase
   without any; the result says so; and at most one approval is posted, when the last visit saw a proposed summary.
   */
  lemma ChangeRequestsExactly(mode: E.Mode, budget: nat, sid: string, digest: string -> string, trace: seq<Act>, b: E.Boundary)
    requires ReturnedRun(mode, budget, sid, digest, trace, b)
    ensures |Filter(IsRequest, Posts(trace))| == if mode == E.Initial then 1 else 0
    ensures b.changeRequested <==> mode == E.Initial
    ensures var v := Decisions(trace); |Filter(IsApproval, Posts(trace))| == if IsSummary(v[|v| - 1]) then 1 else 0
  {
    hide Posts, Decisions, PostsFor, Filter, Requested, AllGoOn, Orderly, GoesOn, FollowUpIn, Collects;
    var v := Decisions(trace);
    var before, s := v[..|v| - 1], v[|v| - 1];
    assert v == before + [s];
    assert (b.changeRequested <==> Requested(mode, v)) && Posts(trace) == [Create(mode)] + PostsFor(mode, sid, v);
    VerdictsOfRun(mode, sid, v);
    RequestedMore(mode, before, s);
    FinishedAfterRequest(mode, before, s);
  }

  lemma FinishedAfterRequest(mode: E.Mode, before: seq<Session>, s: Session)
    requires Finishes(mode, before, s)
    ensures Requested(mode, before) <==> mode == E.Initial
    ensures IsSummary(s) ==> SummaryRevision(s).Some?
  {
  }

  /** Even a run that throws asks for a change at most once, and only in an initial conversation. */
  lemma ThrownRunAsksAtMostOnce(mode: E.Mode, budget: nat, sid: string, trace: seq<Act>, error: Error)
    requires ThrownRun(mode, budget, sid, trace, error)
    ensures |Filter(IsRequest, Posts(trace))| <= if mode == E.Initial then 1 else 0
    ensures |Filter(IsApproval, Posts(trace))| <= 1
  {
    hide Posts, Decisions, PostsFor, AllGoOn, Orderly, Filter, Requested, SummaryRevision, IsSummary;
    var v := Decisions(trace);
    var due, made := [Create(mode)] + PostsFor(mode, sid, v), Posts(trace);
    if v == [] {
      JustCreated(mode, sid);
    } else {
      VerdictsOfRun(mode, sid, v);
      RequestedOnlyInitially(mode, v[..|v| - 1]);
    }
    assert due == made + due[|made|..];
    FilterAppend(IsRequest, made, due[|made|..]);
    FilterAppend(IsApproval, made, due[|made|..]);
  }

  lemma RequestedOnlyInitially(mode: E.Mode, visits: seq<Session>)
    ensures Requested(mode, visits) ==> mode == E.Initial
  {
  }

  lemma JustCreated(mode: E.Mode, sid: string)
    ensures Filter(IsRequest, [Create(mode)] + PostsFor(mode, sid, [])) == []
    ensures Filter(IsApproval, [Create(mode)] + PostsFor(mode, sid, [])) == []
  {
    FilterNothing(IsRequest, [Create(mode)] + PostsFor(mode, sid, []));
    FilterNothing(IsApproval, [Create(mode)] + PostsFor(mode, sid, []));
  }

  /** The answers posted are those to the questions that the leader visits saw open. */
  lemma {:induction false} AnsweredMeansPosted(mode: E.Mode, sid: string, visits: seq<Session>, id: string)
    ensures id in AnsweredIn(visits) <==> exists a :: a in PostsFor(mode, sid, visits) && a.Answer? && a.question == id
    decreases |visits|
  {
    if visits != [] {
      var n := |visits| - 1;
      var before, s := visits[..n], visits[n];
      assert visits == before + [s];
      AnsweredMeansPosted(mode, sid, before, id);
      AnsweredMore(before, s);
      AnswersAt(mode, sid, before, s, id);
      hide PostsAt, AnsweredIn, IsLeader, OpenIds;
      assert PostsFor(mode, sid, visits) == PostsFor(mode, sid, before) + PostsAt(mode, sid, before, s);
    }
  }

  lemma AnswersAt(mode: E.Mode, sid: string, before: seq<Session>, s: Session, id: string)
    ensures IsLeader(s) && id in OpenIds(s) <==> exists a :: a in PostsAt(mode, sid, before, s) && a.Answer? && a.question == id
  {
    OpenIdsAre(s);
    hide OpenIds, OpenQuestions, SummaryRevision, Requested;
    if IsLeader(s) {
      var open, posts := OpenQuestions(s), AnswersTo(s) + [Continue(sid)];
      if id in OpenIds(s) {
        var q :| q in open && q.id == id;
        var i :| 0 <= i < |open| && open[i] == q;
        assert posts[i] == Answer(s.id, id);
      }
      if a :| a in posts && a.Answer? && a.question == id {
        var i :| 0 <= i < |posts| && posts[i] == a;
        assert open[i] in open && open[i].id == id;
      }
    }
  }

  /**
   The result sums up the run: turns within the budget, one digest for each different job of a turn, the cleanup blocked when
   that of some turn's job was, and the follow-up path covered when some leader visit saw a new open question after an answer.
   */
  lemma ResultSumsUpTheRun(mode: E.Mode, budget: nat, sid: string, digest: string -> string, trace: seq<Act>, b: E.Boundary)
    requires ReturnedRun(mode, budget, sid, digest, trace, b)
    ensures var v := Decisions(trace);
            && b.mode == mode
            && b.sessionId == sid
            && b.aiTurns == TurnsIn(v) <= budget
            && Distinct(b.evidence.jobs)
            && |b.evidence.jobs| <= b.aiTurns
            && (forall d :: d in b.evidence.jobs <==> exists i :: 0 <= i < |JobsIn(v)| && digest(JobsIn(v)[i]) == d)
            && (b.evidence.cleanup == E.CleanupBlocked <==> exists job :: ReadCleanup(job, Some(E.CleanupBlocked)) in trace)
            && Gather(CleanedJobOf, trace) == JobsIn(v)
            && (b.followUp <==> FollowUpIn(v))
  {
    var v := Decisions(trace);
    JobsAtMostTurns(v);
    CleanupsRead(trace);
    hide Orderly, FollowUpIn, AllGoOn, Finishes, Requested, Decisions, JobsIn, Posts, PostsFor, TurnsIn;
    var jobs := Map(digest, JobsIn(v));
    forall d
      ensures d in jobs <==> exists i :: 0 <= i < |JobsIn(v)| && digest(JobsIn(v)[i]) == d
    {
      if i :| 0 <= i < |JobsIn(v)| && digest(JobsIn(v)[i]) == d {
        assert jobs[i] == d;
      }
    }
  }

  lemma CleanupsRead(trace: seq<Act>)
    ensures E.CleanupBlocked in Gather(CleanupOf, trace) <==> exists job :: ReadCleanup(job, Some(E.CleanupBlocked)) in trace
  {
    GatherIsUnion(CleanupOf, trace);
    if job :| ReadCleanup(job, Some(E.CleanupBlocked)) in trace {
      var i :| 0 <= i < |trace| && trace[i] == ReadCleanup(job, Some(E.CleanupBlocked));
      assert E.CleanupBlocked in CleanupOf(trace[i]);
    }
    if i :| 0 <= i < |trace| && E.CleanupBlocked in CleanupOf(trace[i]) {
      assert trace[i] == ReadCleanup(trace[i].job, Some(E.CleanupBlocked)) && trace[i] in trace;
    }
  }
}
