/** Places of a sequence, in increasing order: how a subsequence is told without computing it. */
module Places {

  ghost predicate Increasing(at: seq<nat>, length: nat) {
    && (forall k :: 0 <= k < |at| ==> at[k] < length)
    && (forall k, m :: 0 <= k < m < |at| ==> at[k] < at[m])
  }

  /** The places up to one more element. */
  function Placed(at: seq<nat>, length: nat, more: bool): seq<nat> {
    if more then at + [length] else at
  }

  lemma PlacedMore(at: seq<nat>, length: nat, more: bool)
    requires Increasing(at, length)
    ensures Increasing(Placed(at, length, more), length + 1)
    ensures forall i :: 0 <= i < length ==> (i in Placed(at, length, more) <==> i in at)
    ensures length in Placed(at, length, more) <==> more
  {
    if more {
      assert (at + [length])[|at|] == length;
      assert forall k :: 0 <= k < |at| ==> (at + [length])[k] == at[k];
    }
  }

  lemma PlacedIs(at: seq<nat>, length: nat, more: bool)
    ensures Placed(at, length, more) == at + (if more then [length] else [])
  {
  }
}
