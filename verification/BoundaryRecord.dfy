/** What happens in a boundary conversation, and what a run of it must look like, told apart from the driver that makes it. */
module BoundaryRecord {
  import opened Prelude
  import E = Evidence
  import P = Polling

  datatype Status = Draft | AiTurnRunning | WaitingForLeader | SummaryProposed | Approved | ChangesRequested | Stale | Cancelled

  datatype Question = Question(id: string, answeredBy: Option<string>, required: bool, open: bool)

  /** A session as the server answers it; a missing list of questions is an empty one. */
  datatype Session = Session(
    id: string,
    status: Option<Status>,
    questions: seq<Question>,
    latestSummary: Option<string>,
    approvedSummary: Option<string>,
    runtimeJob: Option<string>)

  predicate IsOpen(q: Question) {
    q.answeredBy.None? && (q.required || q.open)
  }

  function OpenQuestions(s: Session): seq<Question> {
    Filter(IsOpen, s.questions)
  }

  function SummaryRevision(s: Session): Option<string> {
    if s.latestSummary.Some? then s.latestSummary else s.approvedSummary
  }

  function SessionStatus(s: Session): Status {
    if s.status.Some? then s.status.value
    else if SummaryRevision(s).Some? then SummaryProposed
    else if OpenQuestions(s) != [] then WaitingForLeader
    else AiTurnRunning
  }

  predicate IsTurn(s: Session) {
    SessionStatus(s) == AiTurnRunning
  }

  predicate IsLeader(s: Session) {
    SessionStatus(s) == WaitingForLeader || SessionStatus(s) == ChangesRequested
  }

  predicate IsSummary(s: Session) {
    SessionStatus(s) == SummaryProposed
  }

  // ---- The record of a run ----

  /**
   Every call of the driver, with the parts of its answer that matter later, and between them a mark `Decide` where an
   iteration of the driver's loop has chosen what to do from a session. A call that throws is recorded with no answer.
   */
  datatype Act =
    | RunWorker
    | Create(mode: E.Mode)
    | Fetch(answer: Option<Session>)
    | Decide(on: Session)
    | InspectJob(job: string, found: Option<P.Job>)
    | ReadSchemas(job: string, schemas: Option<seq<string>>)
    | ReadAppServer(job: string, digests: Option<seq<string>>)
    | ReadCleanup(job: string, status: Option<E.Cleanup>)
    | Answer(session: string, question: string)
    | Continue(session: string)
    | RequestChanges(session: string, revision: string)
    | Approve(session: string, revision: string)
    | ReadApproval(revision: string)

  /** What the driver posts to the server. */
  predicate IsPost(a: Act) {
    a.Create? || a.Answer? || a.Continue? || a.RequestChanges? || a.Approve?
  }

  /** After these the session on the server may differ from one read before. */
  predicate IsWrite(a: Act) {
    IsPost(a) || a.RunWorker?
  }

  function DecisionOf(a: Act): seq<Session> {
    if a.Decide? then [a.on] else []
  }

  function PostOf(a: Act): seq<Act> {
    if IsPost(a) then [a] else []
  }

  function SchemasOf(a: Act): seq<string> {
    if a.ReadSchemas? && a.schemas.Some? then a.schemas.value else []
  }

  function AppServerOf(a: Act): seq<string> {
    if a.ReadAppServer? && a.digests.Some? then a.digests.value else []
  }

  function CleanupOf(a: Act): seq<E.Cleanup> {
    if a.ReadCleanup? && a.status.Some? then [a.status.value] else []
  }

  function CleanedJobOf(a: Act): seq<string> {
    if a.ReadCleanup? && a.status.Some? then [a.job] else []
  }

  /** The sessions the driver acted on, one for each iteration of its loop. */
  function Decisions(trace: seq<Act>): seq<Session> {
    Gather(DecisionOf, trace)
  }

  function Posts(trace: seq<Act>): seq<Act> {
    Gather(PostOf, trace)
  }

  // ---- Freshness ----

  /** The session was read after the last write and the last worker run. */
  ghost predicate FreshAt(trace: seq<Act>, s: Session) {
    exists k :: 0 <= k < |trace| && trace[k] == Fetch(Some(s)) && NoWriteAfter(trace, k)
  }

  predicate NoWriteAfter(trace: seq<Act>, k: nat) {
    forall j :: k < j < |trace| ==> !IsWrite(trace[j])
  }

  /** A stretch of calls within one iteration. */
  predicate NoDecision(more: seq<Act>) {
    forall i :: 0 <= i < |more| ==> !more[i].Decide?
  }

  /** The calls `more` of a turn end it: the worker has run, the turn's job has succeeded, and `next` is past the turn. */
  predicate EndsTurn(more: seq<Act>, job: Option<string>, next: Session) {
    && RunWorker in more
    && (job.Some? ==> InspectJob(job.value, Some(P.JobSucceeded)) in more)
    && next.status != Some(AiTurnRunning)
  }

  predicate IsLastDecision(trace: seq<Act>, i: nat) {
    i < |trace| && trace[i].Decide? && NoDecision(trace[i + 1..])
  }

  /** If the last decision was to take a turn, that turn is over. */
  ghost predicate TurnOver(trace: seq<Act>, next: Session) {
    forall i: nat :: IsLastDecision(trace, i) && IsTurn(trace[i].on) ==> EndsTurn(trace[i + 1..], trace[i].on.runtimeJob, next)
  }

  ghost predicate NoTurnLast(trace: seq<Act>) {
    forall i: nat :: IsLastDecision(trace, i) ==> !IsTurn(trace[i].on)
  }

  ghost predicate MayActOn(trace: seq<Act>, s: Session) {
    FreshAt(trace, s) && TurnOver(trace, s)
  }

  /** Every decision is made from a session read after all writes before it, and no turn is left before it is over. */
  ghost predicate Orderly(trace: seq<Act>) {
    forall i :: 0 <= i < |trace| && trace[i].Decide? ==> MayActOn(trace[..i], trace[i].on)
  }

  /** Whatever is written is followed by a new reading before the next decision. */
  lemma DecisionsSeeWrites(trace: seq<Act>, write: nat, decision: nat)
    requires Orderly(trace) && write < decision < |trace| && IsWrite(trace[write]) && trace[decision].Decide?
    ensures exists k :: write < k < decision && trace[k] == Fetch(Some(trace[decision].on))
  {
    var before := trace[..decision];
    assert MayActOn(before, trace[decision].on);
    var k :| 0 <= k < |before| && before[k] == Fetch(Some(trace[decision].on)) && NoWriteAfter(before, k);
    assert k != write && before[write] == trace[write];
    assert trace[k] == before[k];
  }

  /**
   Between a turn and the next decision the worker has run, the turn's job has succeeded, and the session no longer says that it is
   in its AI turn. It is taken for another turn exactly when it says nothing and has neither a summary nor an open question.
   */
  lemma TurnsAreFinished(trace: seq<Act>, turn: nat, decision: nat)
    requires Orderly(trace) && turn < decision < |trace| && trace[turn].Decide? && trace[decision].Decide?
    requires IsTurn(trace[turn].on) && NoDecision(trace[turn + 1..decision])
    ensures EndsTurn(trace[turn + 1..decision], trace[turn].on.runtimeJob, trace[decision].on)
    ensures var next := trace[decision].on;
            IsTurn(next) <==> next.status.None? && SummaryRevision(next).None? && OpenQuestions(next) == []
  {
    var before := trace[..decision];
    assert before[turn + 1..] == trace[turn + 1..decision];
    assert MayActOn(before, trace[decision].on) && IsLastDecision(before, turn);
  }

  /** The last decision of a run is the one that its last iteration began with. */
  lemma LastDecisionIs(trace: seq<Act>, s: Session, more: seq<Act>, i: nat)
    requires NoDecision(more) && IsLastDecision(trace + [Decide(s)] + more, i)
    ensures i == |trace| && (trace + [Decide(s)] + more)[i] == Decide(s) && (trace + [Decide(s)] + more)[i + 1..] == more
  {
    var all := trace + [Decide(s)] + more;
    forall j | 0 <= j < |trace|
      ensures !IsLastDecision(all, j)
    {
      var rest := all[j + 1..];
      assert rest[|trace| - j - 1] == Decide(s);
    }
    forall j | |trace| < j < |all|
      ensures !all[j].Decide?
    {
      assert all[j] == more[j - |trace| - 1];
    }
  }

  lemma TurnIsOver(trace: seq<Act>, s: Session, more: seq<Act>, next: Session)
    requires NoDecision(more) && (IsTurn(s) ==> EndsTurn(more, s.runtimeJob, next))
    ensures TurnOver(trace + [Decide(s)] + more, next)
  {
    hide IsTurn, EndsTurn;
    var all := trace + [Decide(s)] + more;
    forall i: nat | IsLastDecision(all, i) && IsTurn(all[i].on)
      ensures EndsTurn(all[i + 1..], all[i].on.runtimeJob, next)
    {
      LastDecisionIs(trace, s, more, i);
    }
  }

  lemma NoTurnAfter(trace: seq<Act>, s: Session, more: seq<Act>)
    requires NoDecision(more) && !IsTurn(s)
    ensures NoTurnLast(trace + [Decide(s)] + more)
  {
    hide IsTurn;
    var all := trace + [Decide(s)] + more;
    forall i: nat | IsLastDecision(all, i)
      ensures !IsTurn(all[i].on)
    {
      LastDecisionIs(trace, s, more, i);
    }
  }

  lemma MayActOnFetched(trace: seq<Act>, s: Session)
    requires NoTurnLast(trace)
    ensures MayActOn(trace + [Fetch(Some(s))], s)
  {
    hide IsTurn, EndsTurn, FreshAt;
    FreshOnceFetched(trace, s);
    var all := trace + [Fetch(Some(s))];
    forall i: nat | IsLastDecision(all, i)
      ensures !IsTurn(all[i].on)
    {
      assert i < |trace| && all[i] == trace[i];
      assert all[i + 1..] == trace[i + 1..] + [Fetch(Some(s))];
      var rest := trace[i + 1..];
      forall j | 0 <= j < |rest|
        ensures !rest[j].Decide?
      {
        assert rest[j] == all[i + 1..][j];
      }
      assert IsLastDecision(trace, i);
    }
  }

  lemma StaysFresh(trace: seq<Act>, s: Session, more: seq<Act>)
    requires FreshAt(trace, s)
    requires forall a :: a in more ==> !IsWrite(a)
    ensures FreshAt(trace + more, s)
  {
    var k :| 0 <= k < |trace| && trace[k] == Fetch(Some(s)) && NoWriteAfter(trace, k);
    var all := trace + more;
    assert all[k] == Fetch(Some(s));
    forall j | k < j < |all|
      ensures !IsWrite(all[j])
    {
      if j >= |trace| {
        assert all[j] == more[j - |trace|];
      }
    }
    assert NoWriteAfter(all, k);
  }

  lemma FreshOnceFetched(trace: seq<Act>, s: Session)
    ensures FreshAt(trace + [Fetch(Some(s))], s)
  {
    var all := trace + [Fetch(Some(s))];
    assert all[|trace|] == Fetch(Some(s)) && NoWriteAfter(all, |trace|);
  }

  lemma OrderlyDecision(trace: seq<Act>, s: Session)
    requires Orderly(trace) && MayActOn(trace, s)
    ensures Orderly(trace + [Decide(s)])
  {
    hide MayActOn;
    var all := trace + [Decide(s)];
    forall i | 0 <= i < |all| && all[i].Decide?
      ensures MayActOn(all[..i], all[i].on)
    {
      if i < |trace| {
        assert all[..i] == trace[..i] && trace[i].Decide?;
      } else {
        assert all[..i] == trace;
      }
    }
  }

  lemma OrderlyExtends(trace: seq<Act>, more: seq<Act>)
    requires Orderly(trace) && NoDecision(more)
    ensures Orderly(trace + more)
  {
    hide MayActOn;
    var all := trace + more;
    forall i | |trace| <= i < |all|
      ensures !all[i].Decide?
    {
      assert all[i] == more[i - |trace|];
    }
    forall i | 0 <= i < |all| && all[i].Decide?
      ensures MayActOn(all[..i], all[i].on)
    {
      assert i < |trace| ==> all[..i] == trace[..i];
    }
  }

  // ---- What the visited sessions mean ----

  function TurnsIn(visits: seq<Session>): nat {
    |Filter(IsTurn, visits)|
  }

  function TurnJob(s: Session): seq<string> {
    if IsTurn(s) && s.runtimeJob.Some? then [s.runtimeJob.value] else []
  }

  /** The runtime jobs of the turns, in order. */
  function JobsIn(visits: seq<Session>): seq<string> {
    Gather(TurnJob, visits)
  }

  function QuestionId(q: Question): string {
    q.id
  }

  function OpenIds(s: Session): (ids: set<string>)
    ensures ids == {} <==> OpenQuestions(s) == []
  {
    var open := Map(QuestionId, OpenQuestions(s));
    var ids := set id | id in open;
    assert open != [] ==> open[0] in ids;
    ids
  }

  /** The questions that some leader visit saw open. */
  function AnsweredIn(visits: seq<Session>): set<string> {
    set s, id | s in visits && IsLeader(s) && id in OpenIds(s) :: id
  }

  /** At this visit the leader sees a new open question, with an earlier answer behind it. */
  predicate SeesFollowUp(before: seq<Session>, s: Session) {
    IsLeader(s) && AnsweredIn(before) != {} && exists id :: id in OpenIds(s) && id !in AnsweredIn(before)
  }

  ghost predicate FollowUpIn(visits: seq<Session>) {
    exists j :: 0 <= j < |visits| && SeesFollowUp(visits[..j], visits[j])
  }

  /** A change of the summary has been asked for: in the initial conversation this happens at the first summary. */
  predicate Requested(mode: E.Mode, visits: seq<Session>) {
    mode == E.Initial && exists s :: s in visits && IsSummary(s)
  }

  function AnswerTo(session: string): Question -> Act {
    (q: Question) => Answer(session, q.id)
  }

  function AnswersTo(s: Session): seq<Act> {
    Map(AnswerTo(s.id), OpenQuestions(s))
  }

  /** What the driver posts to session `sid` when it acts on `s`, given the sessions it acted on before. */
  function PostsAt(mode: E.Mode, sid: string, before: seq<Session>, s: Session): seq<Act> {
    if IsLeader(s) then AnswersTo(s) + [Continue(sid)]
    else if IsSummary(s) && SummaryRevision(s).Some? then
      var revision := SummaryRevision(s).value;
      if mode == E.Initial && !Requested(mode, before) then [RequestChanges(sid, revision)] else [Approve(sid, revision)]
    else []
  }

  function PostsFor(mode: E.Mode, sid: string, visits: seq<Session>): seq<Act> {
    if visits == [] then []
    else
      var n := |visits| - 1;
      PostsFor(mode, sid, visits[..n]) + PostsAt(mode, sid, visits[..n], visits[n])
  }

  /** The loop goes on after acting on `s`. */
  predicate GoesOn(mode: E.Mode, before: seq<Session>, s: Session) {
    || IsTurn(s)
    || IsLeader(s)
    || (IsSummary(s) && SummaryRevision(s).Some? && mode == E.Initial && !Requested(mode, before))
  }

  predicate AllGoOn(mode: E.Mode, visits: seq<Session>) {
    forall j :: 0 <= j < |visits| ==> GoesOn(mode, visits[..j], visits[j])
  }

  // ---- Laws of the reference definitions ----

  lemma AllGoOnMore(mode: E.Mode, visits: seq<Session>, s: Session)
    requires AllGoOn(mode, visits) && GoesOn(mode, visits, s)
    ensures AllGoOn(mode, visits + [s])
  {
    var all := visits + [s];
    forall j | 0 <= j < |all|
      ensures GoesOn(mode, all[..j], all[j])
    {
      assert all[..j] == visits[..j];
      assert j == |visits| ==> visits[..j] == visits;
    }
  }

  lemma FollowUpMore(visits: seq<Session>, s: Session)
    ensures FollowUpIn(visits + [s]) <==> FollowUpIn(visits) || SeesFollowUp(visits, s)
  {
    hide SeesFollowUp;
    var all := visits + [s];
    forall j | 0 <= j < |visits|
      ensures all[..j] == visits[..j] && all[j] == visits[j]
    {
    }
    assert all[..|visits|] == visits && all[|visits|] == s;
    if FollowUpIn(visits) {
      var j :| 0 <= j < |visits| && SeesFollowUp(visits[..j], visits[j]);
      assert SeesFollowUp(all[..j], all[j]);
    }
    if SeesFollowUp(visits, s) {
      assert SeesFollowUp(all[..|visits|], all[|visits|]);
    }
    if FollowUpIn(all) {
      var j :| 0 <= j < |all| && SeesFollowUp(all[..j], all[j]);
      assert j < |visits| ==> SeesFollowUp(visits[..j], visits[j]);
    }
  }

  lemma AnsweredMore(visits: seq<Session>, s: Session)
    ensures AnsweredIn(visits + [s]) == AnsweredIn(visits) + (if IsLeader(s) then OpenIds(s) else {})
  {
    hide IsLeader, OpenIds;
    var all := visits + [s];
    forall id
      ensures id in AnsweredIn(all) <==> id in AnsweredIn(visits) + (if IsLeader(s) then OpenIds(s) else {})
    {
      if id in AnsweredIn(visits) {
        var v :| v in visits && IsLeader(v) && id in OpenIds(v);
        assert v in all;
      }
      assert s in all;
    }
  }

  lemma PostsForMore(mode: E.Mode, sid: string, visits: seq<Session>, s: Session)
    ensures PostsFor(mode, sid, visits + [s]) == PostsFor(mode, sid, visits) + PostsAt(mode, sid, visits, s)
  {
    assert (visits + [s])[..|visits|] == visits;
  }

  lemma TurnsMore(visits: seq<Session>, s: Session)
    ensures TurnsIn(visits + [s]) == TurnsIn(visits) + if IsTurn(s) then 1 else 0
  {
    assert (visits + [s])[..|visits|] == visits;
  }

  lemma JobsMore(visits: seq<Session>, s: Session)
    ensures JobsIn(visits + [s]) == JobsIn(visits) + TurnJob(s)
  {
    GatherAppend(TurnJob, visits, [s]);
    assert Gather(TurnJob, [s]) == TurnJob(s);
  }

  lemma {:induction false} JobsAtMostTurns(visits: seq<Session>)
    ensures |JobsIn(visits)| <= TurnsIn(visits)
    decreases |visits|
  {
    if visits != [] {
      var n := |visits| - 1;
      assert visits == visits[..n] + [visits[n]];
      JobsAtMostTurns(visits[..n]);
      JobsMore(visits[..n], visits[n]);
      TurnsMore(visits[..n], visits[n]);
    }
  }
}
