/** The 32-bit id space of the asynchronous store and the cyclic search for an unused id. */
module FreeId {
  import opened Words

  const IDS: nat := 0x1_0000_0000

  // IndexType is std::uint32_t.
  type Id = Word

  /** The id reached after `d` increments of a 32-bit counter that holds `last`. */
  function Advance(last: Id, d: nat): Id {
    Wrap(last + d)
  }

  lemma AdvanceOnce(last: Id, d: nat)
    ensures Wrap(Advance(last, d) + 1) == Advance(last, d + 1)
  {
    WrapAdd(last + d, 1);
  }

  /** `d` is the number of increments after which the search stops. */
  ghost predicate FirstFree(last: Id, used: set<Id>, d: nat) {
    && 1 <= d <= IDS
    && Advance(last, d) !in used
    && forall e :: 1 <= e < d ==> Advance(last, e) in used
  }

  ghost function IdsBelow(n: nat): (s: set<Id>)
    requires n <= IDS
    ensures forall x: Id :: x in s <==> x < n
  {
    if n == 0 then {} else IdsBelow(n - 1) + {n - 1}
  }

  lemma {:induction false} IdsBelowSize(n: nat)
    requires n <= IDS
    ensures |IdsBelow(n)| == n
  {
    if n > 0 {
      IdsBelowSize(n - 1);
    }
  }

  /** At most IDS ids exist, and only the set of all of them has that many elements. */
  lemma Pigeonhole(used: set<Id>)
    ensures |used| <= IDS
    ensures |used| == IDS <==> forall x: Id :: x in used
  {
    IdsBelowSize(IDS);
    var all := IdsBelow(IDS);
    assert used <= all;
    SubsetSize(used, all);
    if forall x: Id :: x in used {
      assert used == all;
    }
  }

  lemma {:induction false} SubsetSize<T>(a: set<T>, b: set<T>)
    requires a <= b
    ensures |a| <= |b|
    ensures |a| == |b| ==> a == b
  {
    if a != {} {
      var x :| x in a;
      SubsetSize(a - {x}, b - {x});
    }
  }

  /** Distance from `last` forward to `x`, between 1 and IDS. */
  function Gap(last: Id, x: Id): (d: nat)
    ensures 1 <= d <= IDS && Advance(last, d) == x
  {
    if x > last then x - last else x - last + IDS
  }

  lemma AdvanceInjective(last: Id, d: nat, e: nat)
    requires 1 <= d <= IDS && 1 <= e <= IDS
    requires Advance(last, d) == Advance(last, e)
    ensures d == e
  {
  }

  /** The search stops whenever the store is not full: some id within one lap is unused. */
  lemma FirstFreeExists(last: Id, used: set<Id>)
    requires |used| < IDS
    ensures exists d :: FirstFree(last, used, d)
  {
    Pigeonhole(used);
    var x: Id :| x !in used;
    FirstFreeFrom(last, used, 1, Gap(last, x));
  }

  lemma {:induction false} FirstFreeFrom(last: Id, used: set<Id>, d: nat, bound: nat)
    requires 1 <= d <= bound <= IDS
    requires Advance(last, bound) !in used
    requires forall e :: 1 <= e < d ==> Advance(last, e) in used
    ensures exists f :: FirstFree(last, used, f)
    decreases bound - d
  {
    if Advance(last, d) in used {
      FirstFreeFrom(last, used, d + 1, bound);
    } else {
      assert FirstFree(last, used, d);
    }
  }

  /** Number of increments the search makes. */
  ghost function Distance(last: Id, used: set<Id>): (d: nat)
    requires |used| < IDS
    ensures FirstFree(last, used, d)
  {
    FirstFreeExists(last, used);
    var d :| FirstFree(last, used, d);
    d
  }

  lemma DistanceUnique(last: Id, used: set<Id>, d: nat)
    requires |used| < IDS && FirstFree(last, used, d)
    ensures d == Distance(last, used)
  {
  }

  /** The first id after `last`, modulo 2^32, that is not used. */
  ghost function NextFree(last: Id, used: set<Id>): (id: Id)
    requires |used| < IDS
    ensures id !in used
  {
    Advance(last, Distance(last, used))
  }

  /** The search that starts after `last` and ends at `id` steps over `y`. */
  ghost predicate SteppedOver(last: Id, id: Id, y: Id) {
    Gap(last, y) < Gap(last, id)
  }

  /** Everything the search steps over is in use. */
  lemma SteppedOverIsUsed(last: Id, used: set<Id>, y: Id)
    requires |used| < IDS
    requires SteppedOver(last, NextFree(last, used), y)
    ensures y in used
  {
    var d := Distance(last, used);
    AdvanceInjective(last, d, Gap(last, NextFree(last, used)));
    assert Advance(last, Gap(last, y)) in used;
  }
}
