/** Sets of numbers. */
module Sets {
  /** The smallest member. */
  method Least(s: set<nat>) returns (k: nat)
    requires s != {}
    ensures k in s && forall j | j in s :: k <= j
  {
    k :| k in s;
    var below := set j | j in s && j < k;
    while below != {}
      invariant k in s && below == set j | j in s && j < k
      decreases k
    {
      var smaller :| smaller in below;
      k := smaller;
      below := set j | j in s && j < k;
    }
    assert forall j | j in s :: j >= k || j in below;
  }
}
