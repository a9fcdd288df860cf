/** Parts of sequences: what filtering leaves, the elements at ascending positions; and what
    parts are put together to. */
module Selections {

  /** chosen are the elements of all at the positions at, which ascend. */
  ghost predicate Picked<T>(all: seq<T>, chosen: seq<T>, at: seq<nat>) {
    && |at| == |chosen|
    && (forall k | 0 <= k < |at| :: at[k] < |all| && all[at[k]] == chosen[k])
    && (forall j, k | 0 <= j < k < |at| :: at[j] < at[k])
  }

  lemma NonePicked<T>()
    ensures Picked<T>([], [], [])
  {}

  /** The positions after one more element at the front, which is kept or not. */
  lemma PickFront<T>(x: T, rest: seq<T>, chosen: seq<T>, at: seq<nat>, keep: bool) returns (more: seq<nat>)
    requires Picked(rest, chosen, at)
    ensures Picked([x] + rest, if keep then [x] + chosen else chosen, more)
    ensures (0 in more <==> keep) && forall i: nat | 0 < i :: i in more <==> i - 1 in at
  {
    var later: seq<nat> := seq(|at|, k requires 0 <= k < |at| => at[k] + 1);
    assert Picked([x] + rest, chosen, later);
    more := if keep then [0] + later else later;
    forall i: nat | 0 < i
      ensures i in more <==> i - 1 in at
    {
      if k :| 0 <= k < |at| && at[k] == i - 1 {
        assert later[k] == i;
      }
    }
  }

  function Flatten<T>(parts: seq<seq<T>>): seq<T> {
    if parts == [] then [] else parts[0] + Flatten(parts[1..])
  }
}
