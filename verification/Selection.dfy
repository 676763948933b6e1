/** Picking some members of a sequence, in order: by their indices. */
module Selection {
  /** The numbers of a set in increasing order, once each. */
  ghost predicate Enumerates(idx: seq<nat>, s: set<nat>) {
    && (forall i, j :: 0 <= i < j < |idx| ==> idx[i] < idx[j])
    && (forall k: nat :: k in idx <==> k in s)
  }

  /** One more number, larger than all others. */
  lemma EnumeratesMore(idx: seq<nat>, s: set<nat>, n: nat)
    requires Enumerates(idx, s) && forall k :: k in s ==> k < n
    ensures Enumerates(idx + [n], s + {n})
  {
    forall i | 0 <= i < |idx| ensures idx[i] < n {
      assert idx[i] in idx;
    }
  }
}
