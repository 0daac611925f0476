/** Induction as a lemma about any property of numbers: a long proof can then state its step on its own. */
module Induction {
  lemma {:induction false} UpTo(property: nat -> bool, n: nat)
    requires property(0)
    requires forall k: nat :: property(k) ==> property(k + 1)
    ensures property(n)
  {
    if n > 0 {
      UpTo(property, n - 1);
      assert property(n - 1) ==> property(n - 1 + 1);
    }
  }
}
