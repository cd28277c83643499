/** Sums: of the threads' shares of a lock, and of what is left of the buffers of a connection. */
module Sums {
  function Sum(ns: seq<nat>): nat {
    if ns == [] then 0 else ns[0] + Sum(ns[1..])
  }

  lemma {:induction false} SumUpdate(ns: seq<nat>, i: nat, n: nat)
    requires i < |ns|
    ensures Sum(ns[i := n]) == Sum(ns) - ns[i] + n
  {
    if i == 0 {
      assert ns[0 := n][1..] == ns[1..];
    } else {
      assert ns[i := n][1..] == ns[1..][i - 1 := n];
      SumUpdate(ns[1..], i - 1, n);
    }
  }

  lemma {:induction false} SumMore(ns: seq<nat>, n: nat)
    ensures Sum(ns + [n]) == Sum(ns) + n
  {
    if ns == [] {
      assert [] + [n] == [n] && [n][1..] == [];
    } else {
      assert (ns + [n])[1..] == ns[1..] + [n];
      SumMore(ns[1..], n);
    }
  }

  lemma {:induction false} PartOfSum(ns: seq<nat>, i: nat)
    requires i < |ns|
    ensures ns[i] <= Sum(ns)
  {
    if i > 0 {
      PartOfSum(ns[1..], i - 1);
    }
  }

  lemma {:induction false} SumOfZeros(ns: seq<nat>)
    requires forall k | 0 <= k < |ns| :: ns[k] == 0
    ensures Sum(ns) == 0
  {
    if ns != [] {
      SumOfZeros(ns[1..]);
    }
  }
}
