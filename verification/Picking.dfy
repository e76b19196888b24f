/** Some elements of a list, told by their places. */
module Picking {

  /** Places of a list of n elements, in order and each once. */
  predicate Places(at: seq<nat>, n: nat) {
    && (forall m :: 0 <= m < |at| ==> at[m] < n)
    && (forall l, m :: 0 <= l < m < |at| ==> at[l] < at[m])
  }

  /** some are the elements of all at these places. */
  ghost predicate Picked<T>(all: seq<T>, at: seq<nat>, some: seq<T>) {
    && Places(at, |all|) && |some| == |at|
    && forall m :: 0 <= m < |at| ==> some[m] == all[at[m]]
  }

  /** The list was read one element further: x is picked, or passed over. */
  lemma PickNext<T>(all: seq<T>, at: seq<nat>, some: seq<T>, x: T)
    requires Picked(all, at, some)
    ensures Picked(all + [x], at, some) && Picked(all + [x], at + [|all|], some + [x])
  {
  }
}
