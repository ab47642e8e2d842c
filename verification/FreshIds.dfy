/** A number that is not in use yet. */
module FreshIds {

  lemma FreshId(used: set<nat>) returns (n: nat)
    ensures n !in used
  {
    n := 0;
    var seen: set<nat> := {};
    while n in used
      invariant seen <= used && forall k <- seen :: k < n
      decreases used - seen
    {
      seen := seen + {n};
      n := n + 1;
    }
  }
}
