/** Strict weak orders and the lower bound of a key in a sorted sequence. */
module Ordering {

  ghost predicate StrictWeakOrder<K(!new)>(lt: (K, K) -> bool) {
    && (forall a :: !lt(a, a))
    && (forall a, b, c :: lt(a, b) && lt(b, c) ==> lt(a, c))
    && (forall a, b, c :: lt(a, b) ==> lt(a, c) || lt(c, b))
  }

  /** Equivalence under a strict weak order is equality. */
  ghost predicate Total<K(!new)>(lt: (K, K) -> bool) {
    StrictWeakOrder(lt) && forall a, b :: !lt(a, b) && !lt(b, a) ==> a == b
  }

  ghost predicate StrictlyIncreasing<K>(keys: seq<K>, lt: (K, K) -> bool) {
    forall i, j :: 0 <= i < j < |keys| ==> lt(keys[i], keys[j])
  }

  /** Everything before `i` is less than `k`, and nothing from `i` on is. */
  ghost predicate IsLowerBound<K>(keys: seq<K>, k: K, lt: (K, K) -> bool, i: nat) {
    && i <= |keys|
    && (forall j :: 0 <= j < i ==> lt(keys[j], k))
    && (forall j :: i <= j < |keys| ==> !lt(keys[j], k))
  }

  function LowerBoundPos<K>(keys: seq<K>, k: K, lt: (K, K) -> bool): (i: nat)
    ensures i <= |keys|
  {
    if keys == [] || !lt(keys[0], k) then 0 else 1 + LowerBoundPos(keys[1..], k, lt)
  }

  lemma {:induction false} LowerBoundPosCorrect<K(!new)>(keys: seq<K>, k: K, lt: (K, K) -> bool)
    requires StrictWeakOrder(lt) && StrictlyIncreasing(keys, lt)
    ensures IsLowerBound(keys, k, lt, LowerBoundPos(keys, k, lt))
  {
    if keys != [] && lt(keys[0], k) {
      LowerBoundPosCorrect(keys[1..], k, lt);
      assert forall j :: 0 < j < |keys| ==> keys[j] == keys[1..][j - 1];
    }
  }

  lemma LowerBoundUnique<K>(keys: seq<K>, k: K, lt: (K, K) -> bool, i: nat, j: nat)
    requires IsLowerBound(keys, k, lt, i) && IsLowerBound(keys, k, lt, j)
    ensures i == j
  {
    if i < |keys| { assert lt(keys[i], k) <==> i < j; }
    if j < |keys| { assert lt(keys[j], k) <==> j < i; }
  }

  /** std::lower_bound: halves the range that still may hold the first element not less than `k`. */
  method LowerBound<T, K(!new)>(s: seq<T>, keyOf: T -> K, k: K, lt: (K, K) -> bool, ghost keys: seq<K>) returns (i: nat)
    requires StrictWeakOrder(lt) && StrictlyIncreasing(keys, lt)
    requires |keys| == |s| && forall j :: 0 <= j < |s| ==> keys[j] == keyOf(s[j])
    ensures IsLowerBound(keys, k, lt, i) && i == LowerBoundPos(keys, k, lt)
  {
    var count: nat := |s|;
    i := 0;
    while count > 0
      invariant i + count <= |s|
      invariant forall j :: 0 <= j < i ==> lt(keys[j], k)
      invariant forall j :: i + count <= j < |s| ==> !lt(keys[j], k)
    {
      var step := count / 2;
      if lt(keyOf(s[i + step]), k) {
        i := i + step + 1;
        count := count - (step + 1);
      } else {
        count := step;
      }
    }
    LowerBoundPosCorrect(keys, k, lt);
    LowerBoundUnique(keys, k, lt, i, LowerBoundPos(keys, k, lt));
  }
}
