/** The restart-recovery verdict: counts and set sizes that, by pigeonhole, say each pending run was recovered in place. */
module Recovery {
  import opened Prelude

  datatype Status = Pending | Running | Succeeded | Failed
  datatype ActionRun = ActionRun(id: string, key: string, status: Status, actionType: string)

  function Ids(runs: seq<ActionRun>): set<string> {
    set r | r in runs :: r.id
  }

  function Keys(runs: seq<ActionRun>): set<string> {
    set r | r in runs :: r.key
  }

  function PendingOf(runs: seq<ActionRun>): seq<ActionRun> {
    Filter((r: ActionRun) => r.status == Pending, runs)
  }

  function Recovered(pending: seq<ActionRun>, after: seq<ActionRun>): seq<ActionRun> {
    Filter((r: ActionRun) => r.id in Ids(pending), after)
  }

  function KeyOccurrences(pending: seq<ActionRun>, after: seq<ActionRun>): seq<ActionRun> {
    Filter((r: ActionRun) => r.key in Keys(pending), after)
  }

  /** The part of the verdict that does not depend on how many runs are pending. */
  predicate Accounted(pending: seq<ActionRun>, after: seq<ActionRun>) {
    && |Ids(pending)| == |pending|
    && |Keys(pending)| == |pending|
    && |Recovered(pending, after)| == |pending|
    && (forall r :: r in Recovered(pending, after) ==> r.status == Succeeded)
    && |KeyOccurrences(pending, after)| == |pending|
  }

  const EXPECTED_ACTION_TYPES := ["ensure_package_drafts", "project_runtime_snapshot"]

  /** The whole verdict; `created` is how many actions the interrupted daemon created, `sorted` the runtime's sort. */
  predicate RestartRecovered(before: seq<ActionRun>, after: seq<ActionRun>, created: nat, sorted: seq<string> -> seq<string>) {
    var pending := PendingOf(before);
    && |pending| > 0
    && |pending| == |EXPECTED_ACTION_TYPES|
    && sorted(Map((r: ActionRun) => r.actionType, pending)) == EXPECTED_ACTION_TYPES
    && created == |pending|
    && Accounted(pending, after)
  }

  // ---- Meaning ----

  ghost predicate UniqueIds(runs: seq<ActionRun>) {
    forall i, j :: 0 <= i < j < |runs| ==> runs[i].id != runs[j].id
  }

  ghost predicate UniqueKeys(runs: seq<ActionRun>) {
    forall i, j :: 0 <= i < j < |runs| ==> runs[i].key != runs[j].key
  }

  /** A run keeps its idempotency key across the restart. */
  ghost predicate KeysAreKept(pending: seq<ActionRun>, after: seq<ActionRun>) {
    forall p, r :: p in pending && r in after && p.id == r.id ==> p.key == r.key
  }

  /** The run is there after the restart and succeeded, and its key belongs to that run alone. */
  ghost predicate RecoveredInPlace(p: ActionRun, after: seq<ActionRun>) {
    && (exists r :: r in after && r.id == p.id && r.key == p.key && r.status == Succeeded)
    && (forall r :: r in after && r.key == p.key ==> r.id == p.id)
  }

  // ---- Counting ----

  lemma RecoveredMembers(pending: seq<ActionRun>, after: seq<ActionRun>)
    ensures forall r :: r in Recovered(pending, after) <==> r in after && r.id in Ids(pending)
  {
    FilterMembers((r: ActionRun) => r.id in Ids(pending), after);
  }

  lemma IdsGrow(init: seq<ActionRun>, last: ActionRun)
    ensures Ids(init + [last]) == Ids(init) + {last.id}
    ensures UniqueIds(init + [last]) <==> UniqueIds(init) && last.id !in Ids(init)
  {
    var runs := init + [last];
    assert forall i :: 0 <= i < |init| ==> runs[i] == init[i] && init[i].id in Ids(init);
    if last.id in Ids(init) {
      var i :| 0 <= i < |init| && init[i].id == last.id;
      assert runs[i].id == runs[|init|].id;
    }
  }

  lemma {:induction false} IdCount(runs: seq<ActionRun>)
    ensures |Ids(runs)| <= |runs|
    ensures |Ids(runs)| == |runs| <==> UniqueIds(runs)
    decreases |runs|
  {
    if runs != [] {
      var init, last := runs[..|runs| - 1], runs[|runs| - 1];
      assert runs == init + [last];
      IdCount(init);
      IdsGrow(init, last);
      hide Ids, UniqueIds;
      if last.id in Ids(init) {
        assert Ids(init) + {last.id} == Ids(init);
      }
    }
  }

  lemma KeyCount(runs: seq<ActionRun>)
    ensures |Keys(runs)| == |runs| <==> UniqueKeys(runs)
  {
    var swapped := Map((r: ActionRun) => r.(id := r.key), runs);
    IdCount(swapped);
    assert Ids(swapped) == Keys(runs) by {
      forall r | r in runs
        ensures r.key in Ids(swapped)
      {
        var i :| 0 <= i < |runs| && runs[i] == r;
        assert swapped[i] in swapped;
      }
      forall s | s in swapped
        ensures s.id in Keys(runs)
      {
        var i :| 0 <= i < |swapped| && swapped[i] == s;
        assert runs[i] in runs;
      }
    }
    assert UniqueIds(swapped) <==> UniqueKeys(runs);
  }

  /** A filter that keeps as much as a weaker one keeps the same elements. */
  lemma {:induction false} SameCountSameElements<T(!new)>(strong: T -> bool, weak: T -> bool, values: seq<T>)
    requires forall v :: v in values && strong(v) ==> weak(v)
    ensures |Filter(strong, values)| <= |Filter(weak, values)|
    ensures |Filter(strong, values)| == |Filter(weak, values)| <==> forall v :: v in values && weak(v) ==> strong(v)
    decreases |values|
  {
    if values != [] {
      var init, last := values[..|values| - 1], values[|values| - 1];
      assert values == init + [last];
      SameCountSameElements(strong, weak, init);
    }
  }

  lemma {:induction false} FilterKeepsUnique(keep: ActionRun -> bool, runs: seq<ActionRun>)
    requires UniqueIds(runs)
    ensures UniqueIds(Filter(keep, runs))
    decreases |runs|
  {
    if runs != [] {
      var init, last := runs[..|runs| - 1], runs[|runs| - 1];
      assert runs == init + [last];
      assert forall i :: 0 <= i < |init| ==> init[i] == runs[i];
      FilterKeepsUnique(keep, init);
      FilterMembers(keep, init);
      assert forall r :: r in Filter(keep, init) ==> r.id != last.id;
    }
  }

  /**
   The pigeonhole argument, for any number of pending runs: with unique run ids and kept keys the accounting holds
   exactly when the pending runs have distinct ids and keys and each of them was recovered in place.
   */
  lemma AccountedExactly(pending: seq<ActionRun>, after: seq<ActionRun>)
    requires UniqueIds(after) && KeysAreKept(pending, after)
    ensures Accounted(pending, after) <==>
              UniqueIds(pending) && UniqueKeys(pending) && forall p :: p in pending ==> RecoveredInPlace(p, after)
  {
    IdCount(pending);
    KeyCount(pending);
    RecoveredAreUnique(pending, after);
    if Accounted(pending, after) {
      AccountedIsSound(pending, after);
    }
    if UniqueIds(pending) && UniqueKeys(pending) && forall p :: p in pending ==> RecoveredInPlace(p, after) {
      AccountedIsComplete(pending, after);
    }
  }

  lemma RecoveredAreUnique(pending: seq<ActionRun>, after: seq<ActionRun>)
    requires UniqueIds(after)
    ensures UniqueIds(Recovered(pending, after))
  {
    FilterKeepsUnique((r: ActionRun) => r.id in Ids(pending), after);
  }

  /** As many recovered runs as pending ids means every pending id is among them. */
  lemma RecoveredIds(pending: seq<ActionRun>, after: seq<ActionRun>)
    requires UniqueIds(Recovered(pending, after))
    ensures Ids(Recovered(pending, after)) <= Ids(pending)
    ensures |Ids(Recovered(pending, after))| == |Recovered(pending, after)|
    ensures |Recovered(pending, after)| <= |Ids(pending)|
    ensures |Recovered(pending, after)| == |Ids(pending)| <==> Ids(Recovered(pending, after)) == Ids(pending)
  {
    var recovered := Recovered(pending, after);
    RecoveredMembers(pending, after);
    IdCount(recovered);
    SubsetSize(Ids(recovered), Ids(pending));
  }

  lemma SubsetSize(a: set<string>, b: set<string>)
    requires a <= b
    ensures |a| <= |b| && (|a| == |b| <==> a == b)
  {
    assert b == a + (b - a);
  }

  lemma RecoveredCarryKeys(pending: seq<ActionRun>, after: seq<ActionRun>)
    requires KeysAreKept(pending, after)
    ensures |Recovered(pending, after)| == |KeyOccurrences(pending, after)| <==>
            forall r :: r in after && r.key in Keys(pending) ==> r.id in Ids(pending)
  {
    forall r | r in after && r.id in Ids(pending)
      ensures r.key in Keys(pending)
    {
      var p :| p in pending && p.id == r.id;
    }
    SameCountSameElements((r: ActionRun) => r.id in Ids(pending), (r: ActionRun) => r.key in Keys(pending), after);
  }

  lemma AccountedIsSound(pending: seq<ActionRun>, after: seq<ActionRun>)
    requires UniqueIds(Recovered(pending, after)) && KeysAreKept(pending, after) && UniqueKeys(pending)
    requires Accounted(pending, after)
    ensures forall p :: p in pending ==> RecoveredInPlace(p, after)
  {
    RecoveredMembers(pending, after);
    RecoveredIds(pending, after);
    RecoveredCarryKeys(pending, after);
    assert |Ids(pending)| == |pending|;
    forall p | p in pending
      ensures RecoveredInPlace(p, after)
    {
      assert p.id in Ids(Recovered(pending, after));
      var found :| found in Recovered(pending, after) && found.id == p.id;
      hide Recovered, KeyOccurrences, UniqueKeys;
      forall r | r in after && r.key == p.key
        ensures r.id == p.id
      {
        assert r.key in Keys(pending);
        var q :| q in pending && q.id == r.id;
        SameKeySameRun(pending, p, q);
      }
    }
  }

  lemma SameKeySameRun(pending: seq<ActionRun>, p: ActionRun, q: ActionRun)
    requires UniqueKeys(pending) && p in pending && q in pending && p.key == q.key
    ensures p == q
  {
    var i :| 0 <= i < |pending| && pending[i] == p;
    var j :| 0 <= j < |pending| && pending[j] == q;
  }

  lemma AccountedIsComplete(pending: seq<ActionRun>, after: seq<ActionRun>)
    requires UniqueIds(after) && KeysAreKept(pending, after)
    requires UniqueIds(pending) && UniqueKeys(pending)
    requires forall p :: p in pending ==> RecoveredInPlace(p, after)
    ensures Accounted(pending, after)
  {
    IdCount(pending);
    KeyCount(pending);
    RecoveredMembers(pending, after);
    RecoveredAreUnique(pending, after);
    RecoveredIds(pending, after);
    RecoveredCarryKeys(pending, after);
    forall id | id in Ids(pending)
      ensures id in Ids(Recovered(pending, after))
    {
      var p :| p in pending && p.id == id;
      var r :| r in after && r.id == p.id;
      assert r in Recovered(pending, after);
    }
    forall r | r in after && r.key in Keys(pending)
      ensures r.id in Ids(pending)
    {
      var p :| p in pending && p.key == r.key;
      assert RecoveredInPlace(p, after);
    }
    forall r | r in Recovered(pending, after)
      ensures r.status == Succeeded
    {
      var p :| p in pending && p.id == r.id;
      var s :| s in after && s.id == p.id && s.status == Succeeded;
      var i :| 0 <= i < |after| && after[i] == r;
      var j :| 0 <= j < |after| && after[j] == s;
    }
  }

  /** A true verdict: every run pending before the restart is there after it, succeeded, and alone under its key. */
  lemma RestartRecoveredIsSound(before: seq<ActionRun>, after: seq<ActionRun>, created: nat, sorted: seq<string> -> seq<string>)
    requires RestartRecovered(before, after, created, sorted)
    requires UniqueIds(after) && KeysAreKept(PendingOf(before), after)
    ensures forall p :: p in before && p.status == Pending ==> RecoveredInPlace(p, after)
    ensures UniqueIds(PendingOf(before)) && UniqueKeys(PendingOf(before)) && created == |PendingOf(before)| == 2
  {
    FilterMembers((r: ActionRun) => r.status == Pending, before);
    AccountedExactly(PendingOf(before), after);
  }

  /** When a true accounting can be believed, exactly: each run was recovered in place if and only if no id is counted twice. */
  lemma BelievedExactly(pending: seq<ActionRun>, after: seq<ActionRun>)
    requires KeysAreKept(pending, after) && Accounted(pending, after)
    ensures (forall p :: p in pending ==> RecoveredInPlace(p, after)) <==> UniqueIds(Recovered(pending, after))
  {
    var recovered := Recovered(pending, after);
    IdCount(pending);
    KeyCount(pending);
    IdCount(recovered);
    RecoveredMembers(pending, after);
    if UniqueIds(recovered) {
      AccountedIsSound(pending, after);
    } else if forall p :: p in pending ==> RecoveredInPlace(p, after) {
      forall id | id in Ids(pending)
        ensures id in Ids(recovered)
      {
        var p :| p in pending && p.id == id;
        var r :| r in after && r.id == p.id;
      }
      SubsetSize(Ids(pending), Ids(recovered));
      assert false;
    }
  }

  /** Unique ids after the restart are needed: a repeated entry can stand in for a lost run. */
  lemma RepeatedIdsHideALoss(a: ActionRun, b: ActionRun)
    requires a.id != b.id && a.key != b.key
    ensures var recoveredA := a.(status := Succeeded);
            var after := [recoveredA, recoveredA];
            && KeysAreKept([a, b], after)
            && Accounted([a, b], after)
            && !RecoveredInPlace(b, after)
  {
    var r := a.(status := Succeeded);
    var pending, after := [a, b], [r, r];
    assert a in pending && b in pending;
    IdCount(pending);
    KeyCount(pending);
    assert r.id in Ids(pending) && r.key in Keys(pending);
    KeepsTwo((x: ActionRun) => x.id in Ids(pending), r);
    KeepsTwo((x: ActionRun) => x.key in Keys(pending), r);
    hide Ids, Keys;
  }

  lemma KeepsTwo(keep: ActionRun -> bool, r: ActionRun)
    requires keep(r)
    ensures Filter(keep, [r, r]) == [r, r]
  {
    assert [r, r][..1] == [r] && [r][..0] == [];
    assert Filter(keep, [r]) == [r];
  }
}
