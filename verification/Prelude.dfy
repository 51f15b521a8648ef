/** Small vocabulary shared by the models: optional values, results and plain sequence folds. */
module Prelude {

  datatype Option<+T> = None | Some(value: T)

  datatype Result<+T, +E> = Success(value: T) | Failure(error: E) {
    predicate IsFailure() {
      Failure?
    }

    function PropagateFailure<U>(): Result<U, E>
      requires Failure?
    {
      Failure(error)
    }

    function Extract(): T
      requires Success?
    {
      value
    }
  }

  /** The text received so far: every chunk, in order. */
  function Flatten(chunks: seq<string>): string {
    if chunks == [] then "" else Flatten(chunks[..|chunks| - 1]) + chunks[|chunks| - 1]
  }

  lemma FlattenTake(chunks: seq<string>, n: nat)
    requires n < |chunks|
    ensures Flatten(chunks[..n + 1]) == Flatten(chunks[..n]) + chunks[n]
  {
    assert chunks[..n + 1][..n] == chunks[..n];
  }

  lemma FlattenOne(text: string)
    ensures Flatten([text]) == text
  {
    assert [text][..0] == [];
  }

  /** First occurrences only, in order: what spreading a `Set` of the list gives. */
  function Unique<T(==,!new)>(values: seq<T>): (r: seq<T>)
    ensures forall v :: v in r <==> v in values
    ensures Distinct(r)
    ensures |r| <= |values|
  {
    if values == [] then []
    else
      var init, last := values[..|values| - 1], values[|values| - 1];
      assert values == init + [last];
      if last in init then Unique(init) else Unique(init) + [last]
  }

  /** Where a value first occurs. */
  function FirstIndex<T(==)>(values: seq<T>, v: T): (i: nat)
    requires v in values
    ensures i < |values| && values[i] == v && forall k :: 0 <= k < i ==> values[k] != v
  {
    if values[0] == v then 0 else FirstIndex(values[1..], v) + 1
  }

  lemma FirstIndexInPrefix<T>(init: seq<T>, last: T, v: T)
    requires v in init + [last]
    ensures FirstIndex(init + [last], v) == if v in init then FirstIndex(init, v) else |init|
  {
    var all := init + [last];
    var i := FirstIndex(all, v);
    if v in init {
      var j := FirstIndex(init, v);
      assert all[j] == v && forall k :: 0 <= k < j ==> all[k] == init[k];
    } else {
      assert forall k :: 0 <= k < |init| ==> all[k] == init[k] && init[k] in init;
    }
  }

  /** De-duplication keeps the order in which values first occur. */
  lemma {:induction false} UniqueKeepsFirstOrder<T(!new)>(values: seq<T>, i: nat, j: nat)
    requires i < j < |Unique(values)|
    ensures Unique(values)[i] in values && Unique(values)[j] in values
    ensures FirstIndex(values, Unique(values)[i]) < FirstIndex(values, Unique(values)[j])
    decreases |values|
  {
    var init, last := values[..|values| - 1], values[|values| - 1];
    var r, before := Unique(values), Unique(init);
    assert values == init + [last];
    assert r[i] in r && r[j] in r && before[i] == r[i] && before[i] in before;
    FirstIndexInPrefix(init, last, r[i]);
    FirstIndexInPrefix(init, last, r[j]);
    if j < |before| {
      assert before[j] == r[j] && before[j] in before;
      UniqueKeepsFirstOrder(init, i, j);
    }
  }

  predicate Distinct<T(==)>(values: seq<T>) {
    forall i, j :: 0 <= i < j < |values| ==> values[i] != values[j]
  }

  function Filter<T>(keep: T -> bool, values: seq<T>): (r: seq<T>)
    ensures |r| <= |values|
  {
    if values == [] then []
    else
      var init, last := Filter(keep, values[..|values| - 1]), values[|values| - 1];
      if keep(last) then init + [last] else init
  }

  lemma {:induction false} FilterMembers<T(!new)>(keep: T -> bool, values: seq<T>)
    ensures forall v :: v in Filter(keep, values) <==> v in values && keep(v)
  {
    if values != [] {
      var init, last := values[..|values| - 1], values[|values| - 1];
      assert values == init + [last];
      FilterMembers(keep, init);
    }
  }

  function Map<T, U>(f: T -> U, values: seq<T>): (r: seq<U>)
    ensures |r| == |values|
    ensures forall i :: 0 <= i < |values| ==> r[i] == f(values[i])
  {
    seq(|values|, i requires 0 <= i < |values| => f(values[i]))
  }

  /** Everything picked from each value in turn. */
  function Gather<T, U>(pick: T -> seq<U>, values: seq<T>): seq<U> {
    if values == [] then [] else pick(values[0]) + Gather(pick, values[1..])
  }

  lemma {:induction false} GatherIsUnion<T(!new), U(!new)>(pick: T -> seq<U>, values: seq<T>)
    ensures forall d :: d in Gather(pick, values) <==> exists i :: 0 <= i < |values| && d in pick(values[i])
    decreases |values|
  {
    if values != [] {
      var rest := values[1..];
      GatherIsUnion(pick, rest);
      forall d
        ensures d in Gather(pick, values) <==> exists i :: 0 <= i < |values| && d in pick(values[i])
      {
        if i :| 0 <= i < |values| && d in pick(values[i]) {
          if i > 0 {
            assert rest[i - 1] == values[i];
          }
        }
        if d in Gather(pick, rest) {
          var i :| 0 <= i < |rest| && d in pick(rest[i]);
          assert values[i + 1] == rest[i];
        }
      }
    }
  }

  lemma {:induction false} GatherAppend<T, U>(pick: T -> seq<U>, a: seq<T>, b: seq<T>)
    ensures Gather(pick, a + b) == Gather(pick, a) + Gather(pick, b)
    decreases |a|
  {
    if a == [] {
      assert a + b == b;
    } else {
      assert (a + b)[1..] == a[1..] + b;
      GatherAppend(pick, a[1..], b);
    }
  }

  lemma {:induction false} GatherNothing<T, U>(pick: T -> seq<U>, values: seq<T>)
    requires forall i :: 0 <= i < |values| ==> pick(values[i]) == []
    ensures Gather(pick, values) == []
    decreases |values|
  {
    if values != [] {
      assert pick(values[0]) == [];
      GatherNothing(pick, values[1..]);
    }
  }

  lemma GatherTwo<T, U>(pick: T -> seq<U>, a: T, b: T)
    ensures Gather(pick, [a, b]) == pick(a) + pick(b)
  {
    assert [a, b][1..] == [b];
    GatherOne(pick, b);
  }

  lemma GatherOne<T, U>(pick: T -> seq<U>, a: T)
    ensures Gather(pick, [a]) == pick(a)
  {
    assert [a][1..] == [];
    assert Gather(pick, [a]) == pick(a) + Gather(pick, []);
  }

  lemma GatherThree<T, U>(pick: T -> seq<U>, acts: seq<T>)
    requires |acts| == 3
    ensures Gather(pick, acts) == pick(acts[0]) + pick(acts[1]) + pick(acts[2])
  {
    assert acts == [acts[0]] + [acts[1], acts[2]];
    GatherAppend(pick, [acts[0]], [acts[1], acts[2]]);
    GatherOne(pick, acts[0]);
    GatherTwo(pick, acts[1], acts[2]);
  }

  lemma GatherMore<T, U>(pick: T -> seq<U>, values: seq<T>, a: T)
    ensures Gather(pick, values + [a]) == Gather(pick, values) + pick(a)
  {
    GatherAppend(pick, values, [a]);
    GatherOne(pick, a);
  }

  lemma MapAppend<T, U>(f: T -> U, a: seq<T>, b: seq<T>)
    ensures Map(f, a + b) == Map(f, a) + Map(f, b)
  {
  }

  lemma {:induction false} FilterAppend<T>(keep: T -> bool, a: seq<T>, b: seq<T>)
    ensures Filter(keep, a + b) == Filter(keep, a) + Filter(keep, b)
    decreases |b|
  {
    if b == [] {
      assert a + b == a;
    } else {
      var n := |b| - 1;
      assert (a + b)[..|a + b| - 1] == a + b[..n];
      FilterAppend(keep, a, b[..n]);
    }
  }

  lemma {:induction false} FilterNothing<T>(keep: T -> bool, values: seq<T>)
    requires forall i :: 0 <= i < |values| ==> !keep(values[i])
    ensures Filter(keep, values) == []
    decreases |values|
  {
    if values != [] {
      FilterNothing(keep, values[..|values| - 1]);
    }
  }

  predicate IsLetter(c: char) {
    'a' <= c <= 'z' || 'A' <= c <= 'Z'
  }

  lemma Regroup<T>(t: seq<T>, a: seq<T>, b: seq<T>, c: seq<T>)
    ensures t + a + b + c == t + (a + b + c)
    ensures t + a + b == t + (a + b)
  {
  }
}
