/** Calls into code that is not modelled: each one answers or throws, and is recorded. */
module Effects {

  /** `value` and `flag` are whatever data the caller reads from an answer. */
  datatype Reply = Ok(value: string, flag: bool) | Threw(message: string)

  datatype Call<A> = Call(act: A, reply: Reply)

  /** The answer to the n-th call of a run, for any behaviour of the outside world. */
  type Oracle<!A> = (nat, A) -> Reply

  /** Performing `acts` in order, the first of them being call number `at`. */
  function Calls<A>(oracle: Oracle<A>, at: nat, acts: seq<A>): (calls: seq<Call<A>>)
    ensures |calls| == |acts|
    ensures forall i :: 0 <= i < |acts| ==> calls[i] == Call(acts[i], oracle(at + i, acts[i]))
  {
    seq(|acts|, i requires 0 <= i < |acts| => Call(acts[i], oracle(at + i, acts[i])))
  }

  lemma CallsAppend<A>(oracle: Oracle<A>, at: nat, a: seq<A>, b: seq<A>)
    ensures Calls(oracle, at, a + b) == Calls(oracle, at, a) + Calls(oracle, at + |a|, b)
  {
  }

  lemma CallsOneMore<A>(oracle: Oracle<A>, at: nat, acts: seq<A>, i: nat)
    requires i < |acts|
    ensures Calls(oracle, at, acts[..i + 1]) == Calls(oracle, at, acts[..i]) + [Call(acts[i], oracle(at + i, acts[i]))]
  {
  }

  /** How many acts complete before one throws. */
  function Completed<A>(oracle: Oracle<A>, at: nat, acts: seq<A>): (n: nat)
    ensures n <= |acts|
    ensures forall i :: 0 <= i < n ==> oracle(at + i, acts[i]).Ok?
    ensures n < |acts| ==> oracle(at + n, acts[n]).Threw?
    decreases |acts|
  {
    if acts == [] || oracle(at, acts[0]).Threw? then 0 else 1 + Completed(oracle, at + 1, acts[1..])
  }

  lemma {:induction false} CompletedIs<A>(oracle: Oracle<A>, at: nat, acts: seq<A>, n: nat)
    requires n <= |acts|
    requires forall i :: 0 <= i < n ==> oracle(at + i, acts[i]).Ok?
    requires n < |acts| ==> oracle(at + n, acts[n]).Threw?
    ensures Completed(oracle, at, acts) == n
    decreases |acts|
  {
    if n > 0 {
      assert oracle(at + 0, acts[0]).Ok?;
      forall i | 0 <= i < n - 1
        ensures oracle(at + 1 + i, acts[1..][i]).Ok?
      {
        assert acts[1..][i] == acts[i + 1];
      }
      CompletedIs(oracle, at + 1, acts[1..], n - 1);
    } else if acts != [] {
      assert oracle(at + 0, acts[0]).Threw?;
    }
  }

  /** The acts attempted: those that complete and the one that throws, if any. */
  function Attempted<A>(oracle: Oracle<A>, at: nat, acts: seq<A>): (attempted: seq<A>)
    ensures attempted <= acts
  {
    var n := Completed(oracle, at, acts);
    if n < |acts| then acts[..n + 1] else acts
  }

  class World<A> {
    const oracle: Oracle<A>
    var trace: seq<Call<A>>

    constructor (oracle: Oracle<A>)
      ensures this.oracle == oracle && trace == []
    {
      this.oracle := oracle;
      trace := [];
    }

    method Perform(act: A) returns (reply: Reply)
      modifies this
      ensures reply == oracle(|old(trace)|, act)
      ensures trace == old(trace) + [Call(act, reply)]
    {
      reply := oracle(|trace|, act);
      trace := trace + [Call(act, reply)];
    }
  }
}
