/** What is picked out of a sequence, told by the positions it comes from. */
module Selection {

  /** Positions in a sequence of length `n`, in order and none twice. */
  ghost predicate Rising(index: seq<nat>, n: nat) {
    && (forall j, k :: 0 <= j < k < |index| ==> index[j] < index[k])
    && forall k :: 0 <= k < |index| ==> index[k] < n
  }

  lemma RisingOn(index: seq<nat>, n: nat)
    requires Rising(index, n)
    ensures Rising(index, n + 1) && Rising(index + [n], n + 1)
    ensures n !in index
  {
  }

  /** One position more, or none. */
  lemma PickOn(index: seq<nat>, n: nat, picked: bool)
    requires Rising(index, n)
    ensures var more := index + if picked then [n] else [];
      && Rising(more, n + 1) && (n in more <==> picked)
      && forall i: nat :: i < n ==> (i in more <==> i in index)
  {
    RisingOn(index, n);
    assert index + [] == index;
  }
}
