/** The sorted and the unordered layouts both simulate the finite map, over any run of operations. */
module FlatMapSimulation {
  import opened Options
  import opened Ordering
  import opened FlatMapSpec

  /** Keys that a strict weak order does not tell apart. */
  function Equiv<K>(lt: (K, K) -> bool): (K, K) -> bool {
    (a, b) => !lt(a, b) && !lt(b, a)
  }

  function Equal<K(==)>(): (K, K) -> bool {
    (a, b) => a == b
  }

  ghost predicate Sorted<K, V>(s: seq<(K, V)>, lt: (K, K) -> bool) {
    StrictlyIncreasing(Keys(s), lt)
  }

  lemma SortedSlotFits<K(!new), V>(s: seq<(K, V)>, k: K, lt: (K, K) -> bool)
    requires StrictWeakOrder(lt) && Sorted(s, lt)
    ensures SlotFits(s, k, Equiv(lt), SortedSlot(s, k, lt))
    ensures IsLowerBound(Keys(s), k, lt, SortedSlot(s, k, lt).pos)
    ensures SortedSlot(s, k, lt).found <==> exists i :: 0 <= i < |s| && Equiv(lt)(s[i].0, k)
  {
    var keys := Keys(s);
    LowerBoundPosCorrect(keys, k, lt);
    var slot := SortedSlot(s, k, lt);
    forall i | 0 <= i < |s| && !slot.found
      ensures !Equiv(lt)(s[i].0, k)
    {
      if i > slot.pos { assert lt(keys[slot.pos], keys[i]); }
    }
  }

  lemma UnorderedSlotFits<K(!new), V>(s: seq<(K, V)>, k: K)
    ensures SlotFits(s, k, Equal(), UnorderedSlot(s, k))
  {
  }

  /** Every operation keeps the keys strictly increasing. */
  lemma SortedStepKeepsOrder<K(!new), V>(s: seq<(K, V)>, op: Op<K, V>, lt: (K, K) -> bool, dflt: V)
    requires StrictWeakOrder(lt) && Sorted(s, lt)
    ensures Sorted(SortedStep(s, op, lt, dflt).0, lt)
  {
    var slot := SortedSlot(s, op.k, lt);
    SortedSlotFits(s, op.k, lt);
    KeysKeepOrder(s, op, slot, if slot.found then RemoveAt(s, slot.pos) else s, lt, dflt);
  }

  lemma KeysKeepOrder<K(!new), V>(s: seq<(K, V)>, op: Op<K, V>, slot: Slot, erased: seq<(K, V)>, lt: (K, K) -> bool, dflt: V)
    requires StrictWeakOrder(lt) && StrictlyIncreasing(Keys(s), lt)
    requires IsLowerBound(Keys(s), op.k, lt, slot.pos)
    requires slot.found <==> slot.pos < |s| && !lt(op.k, s[slot.pos].0)
    requires slot.found ==> erased == RemoveAt(s, slot.pos)
    ensures StrictlyIncreasing(Keys(SlotStep(s, op, slot, erased, dflt).0), lt)
  {
    SlotStepKeys(s, op, slot, erased, dflt);
    if slot.found {
      assert Keys(RemoveAt(s, slot.pos)) == RemoveAt(Keys(s), slot.pos);
      RemoveKeepsOrder(Keys(s), slot.pos, lt);
    } else {
      InsertKeepsOrder(Keys(s), op.k, slot.pos, lt);
    }
  }

  lemma SlotStepKeys<K, V>(s: seq<(K, V)>, op: Op<K, V>, slot: Slot, erased: seq<(K, V)>, dflt: V)
    requires slot.pos <= |s| && (slot.found ==> slot.pos < |s|)
    ensures Keys(SlotStep(s, op, slot, erased, dflt).0) ==
            if slot.found && op.Erase? then Keys(erased)
            else if slot.found || op.Erase? || op.Find? then Keys(s)
            else InsertAt(Keys(s), slot.pos, op.k)
  {
    if slot.found {
      if op.InsertOrAssign? { KeysOfUpdate(s, slot.pos, op.v); }
    } else if !op.Erase? && !op.Find? {
      KeysOfInsert(s, slot.pos, op.k, if op.Subscript? then dflt else op.v);
    }
  }

  lemma KeysOfInsert<K, V>(s: seq<(K, V)>, i: nat, k: K, v: V)
    requires i <= |s|
    ensures Keys(InsertAt(s, i, (k, v))) == InsertAt(Keys(s), i, k)
  {
  }

  lemma KeysOfUpdate<K, V>(s: seq<(K, V)>, i: nat, v: V)
    requires i < |s|
    ensures Keys(s[i := (s[i].0, v)]) == Keys(s)
  {
  }

  lemma RemoveKeepsOrder<K>(keys: seq<K>, i: nat, lt: (K, K) -> bool)
    requires i < |keys| && StrictlyIncreasing(keys, lt)
    ensures StrictlyIncreasing(RemoveAt(keys, i), lt)
  {
  }

  lemma InsertKeepsOrder<K(!new)>(keys: seq<K>, k: K, i: nat, lt: (K, K) -> bool)
    requires StrictWeakOrder(lt) && StrictlyIncreasing(keys, lt)
    requires IsLowerBound(keys, k, lt, i) && (i < |keys| ==> lt(k, keys[i]))
    ensures StrictlyIncreasing(InsertAt(keys, i, k), lt)
  {
    forall j | i < j < |keys|
      ensures lt(k, keys[j])
    {
      assert lt(keys[i], keys[j]);
    }
  }

  lemma EquivIsEquivalence<K(!new)>(lt: (K, K) -> bool)
    requires StrictWeakOrder(lt)
    ensures Equivalence(Equiv(lt))
  {
  }

  /** A step of the sorted layout is the step of the finite map, up to equivalence of keys. */
  lemma SortedSimulates<K(!new), V>(s: seq<(K, V)>, m: map<K, V>, op: Op<K, V>, lt: (K, K) -> bool, dflt: V)
    requires StrictWeakOrder(lt) && Sorted(s, lt) && Lists(s, m)
    ensures Sorted(SortedStep(s, op, lt, dflt).0, lt)
    ensures Lists(SortedStep(s, op, lt, dflt).0, MapStep(m, op, Equiv(lt), dflt).0)
    ensures SortedStep(s, op, lt, dflt).1 == MapStep(m, op, Equiv(lt), dflt).1
  {
    var slot := SortedSlot(s, op.k, lt);
    SortedSlotFits(s, op.k, lt);
    SortedStepKeepsOrder(s, op, lt, dflt);
    EquivIsEquivalence(lt);
    SortedIsUnique(s, lt);
    if slot.found { RemoveAtLists(s, m, slot.pos); }
    SlotSimulates(s, m, op, slot, if slot.found then RemoveAt(s, slot.pos) else s, Equiv(lt), dflt);
  }

  lemma SortedIsUnique<K(!new), V>(s: seq<(K, V)>, lt: (K, K) -> bool)
    requires StrictWeakOrder(lt) && Sorted(s, lt)
    ensures Unique(s, Equiv(lt))
  {
    forall i, j | 0 <= i < j < |s|
      ensures !Equiv(lt)(s[i].0, s[j].0) && !Equiv(lt)(s[j].0, s[i].0)
    {
      assert lt(Keys(s)[i], Keys(s)[j]);
    }
  }

  /** A step of the unordered layout is the step of the finite map. */
  lemma UnorderedSimulates<K(!new), V>(s: seq<(K, V)>, m: map<K, V>, op: Op<K, V>, dflt: V)
    requires Lists(s, m)
    ensures Lists(UnorderedStep(s, op, dflt).0, MapStep(m, op, Equal(), dflt).0)
    ensures UnorderedStep(s, op, dflt).1 == MapStep(m, op, Equal(), dflt).1
  {
    var slot := UnorderedSlot(s, op.k);
    UnorderedSlotFits(s, op.k);
    if slot.found { SwapRemoveLists(s, m, slot.pos); }
    SlotSimulates(s, m, op, slot, if slot.found then SwapRemove(s, slot.pos) else s, Equal(), dflt);
  }

  ghost predicate UniqueKeys<K, V>(s: seq<(K, V)>) {
    forall i, j :: 0 <= i < j < |s| ==> s[i].0 != s[j].0
  }

  /** Every operation on the unordered layout keeps the keys unique. */
  lemma UnorderedStepKeepsUnique<K(!new), V>(s: seq<(K, V)>, op: Op<K, V>, dflt: V)
    requires UniqueKeys(s)
    ensures UniqueKeys(UnorderedStep(s, op, dflt).0)
  {
    var slot := UnorderedSlot(s, op.k);
    if !slot.found {
      assert forall v: V :: InsertAt(s, |s|, (op.k, v)) == s + [(op.k, v)];
    }
  }

  // ---------------------------------------------------------------- runs

  ghost function MapRun<K(!new), V>(m: map<K, V>, ops: seq<Op<K, V>>, eq: (K, K) -> bool, dflt: V): (r: (map<K, V>, seq<Answer<V>>))
    decreases |ops|
  {
    if ops == [] then (m, [])
    else
      var (m', a) := MapStep(m, ops[0], eq, dflt);
      var (m'', rest) := MapRun(m', ops[1..], eq, dflt);
      (m'', [a] + rest)
  }

  function SortedRun<K, V>(s: seq<(K, V)>, ops: seq<Op<K, V>>, lt: (K, K) -> bool, dflt: V): (seq<(K, V)>, seq<Answer<V>>)
    decreases |ops|
  {
    if ops == [] then (s, [])
    else
      var (s', a) := SortedStep(s, ops[0], lt, dflt);
      var (s'', rest) := SortedRun(s', ops[1..], lt, dflt);
      (s'', [a] + rest)
  }

  function UnorderedRun<K(==), V>(s: seq<(K, V)>, ops: seq<Op<K, V>>, dflt: V): (seq<(K, V)>, seq<Answer<V>>)
    decreases |ops|
  {
    if ops == [] then (s, [])
    else
      var (s', a) := UnorderedStep(s, ops[0], dflt);
      var (s'', rest) := UnorderedRun(s', ops[1..], dflt);
      (s'', [a] + rest)
  }

  /** Under any strict weak order: whole runs of the sorted maps. */
  lemma {:induction false} SortedRunSimulates<K(!new), V>(s: seq<(K, V)>, m: map<K, V>, ops: seq<Op<K, V>>, lt: (K, K) -> bool, dflt: V)
    requires StrictWeakOrder(lt) && Sorted(s, lt) && Lists(s, m)
    ensures Sorted(SortedRun(s, ops, lt, dflt).0, lt)
    ensures Lists(SortedRun(s, ops, lt, dflt).0, MapRun(m, ops, Equiv(lt), dflt).0)
    ensures SortedRun(s, ops, lt, dflt).1 == MapRun(m, ops, Equiv(lt), dflt).1
    decreases |ops|
  {
    if ops != [] {
      SortedSimulates(s, m, ops[0], lt, dflt);
      SortedRunSimulates(SortedStep(s, ops[0], lt, dflt).0, MapStep(m, ops[0], Equiv(lt), dflt).0, ops[1..], lt, dflt);
    }
  }

  /** Whole runs of the unordered maps. */
  lemma {:induction false} UnorderedRunSimulates<K(!new), V>(s: seq<(K, V)>, m: map<K, V>, ops: seq<Op<K, V>>, dflt: V)
    requires Lists(s, m)
    ensures Lists(UnorderedRun(s, ops, dflt).0, MapRun(m, ops, Equal(), dflt).0)
    ensures UnorderedRun(s, ops, dflt).1 == MapRun(m, ops, Equal(), dflt).1
    decreases |ops|
  {
    if ops != [] {
      UnorderedSimulates(s, m, ops[0], dflt);
      UnorderedRunSimulates(UnorderedStep(s, ops[0], dflt).0, MapStep(m, ops[0], Equal(), dflt).0, ops[1..], dflt);
    }
  }

  lemma TotalStored<K(!new), V>(m: map<K, V>, lt: (K, K) -> bool, k: K)
    requires Total(lt)
    ensures Stored(m, Equiv(lt), k) == Stored(m, Equal(), k) == if k in m then Some(k) else None
  {
    assert Equiv(lt)(k, k) && Equal()(k, k);
  }

  lemma TotalFind<K(!new), V>(s: seq<(K, V)>, m: map<K, V>, lt: (K, K) -> bool, k: K, dflt: V)
    requires Total(lt) && Sorted(s, lt) && Lists(s, m)
    ensures SortedStep(s, Op.Find(k), lt, dflt).1.value == if k in m then Some(m[k]) else None
  {
    SortedSimulates(s, m, Op.Find(k), lt, dflt);
    TotalStored(m, lt, k);
  }

  lemma {:induction false} TotalMapRun<K(!new), V>(m: map<K, V>, ops: seq<Op<K, V>>, lt: (K, K) -> bool, dflt: V)
    requires Total(lt)
    ensures MapRun(m, ops, Equiv(lt), dflt) == MapRun(m, ops, Equal(), dflt)
    decreases |ops|
  {
    if ops != [] {
      TotalStored(m, lt, ops[0].k);
      TotalMapRun(MapStep(m, ops[0], Equal(), dflt).0, ops[1..], lt, dflt);
    }
  }

  /**
    Under a total order the sorted and the unordered maps cannot be told apart: from contents that
    list the same pairs, any sequence of operations gets the same answers and ends in contents that
    list the same pairs.
  */
  lemma LayoutsAgree<K(!new), V>(s: seq<(K, V)>, u: seq<(K, V)>, m: map<K, V>, ops: seq<Op<K, V>>, lt: (K, K) -> bool, dflt: V)
    requires Total(lt) && Sorted(s, lt) && Lists(s, m) && Lists(u, m)
    ensures SortedRun(s, ops, lt, dflt).1 == UnorderedRun(u, ops, dflt).1
    ensures exists m' :: Lists(SortedRun(s, ops, lt, dflt).0, m') && Lists(UnorderedRun(u, ops, dflt).0, m')
  {
    SortedRunSimulates(s, m, ops, lt, dflt);
    UnorderedRunSimulates(u, m, ops, dflt);
    TotalMapRun(m, ops, lt, dflt);
    var m' := MapRun(m, ops, Equal(), dflt).0;
    assert Lists(SortedRun(s, ops, lt, dflt).0, m') && Lists(UnorderedRun(u, ops, dflt).0, m');
  }

  // ---------------------------------------------------------------- construction from a list

  /** None of the first `n` items has a key equivalent to `k`. */
  ghost predicate Absent<K, V>(items: seq<(K, V)>, eq: (K, K) -> bool, n: nat, k: K)
    requires n <= |items|
  {
    forall j :: 0 <= j < n ==> !eq(items[j].0, k)
  }

  /** Item `i` is the first one with a key of its class. */
  ghost predicate First<K, V>(items: seq<(K, V)>, eq: (K, K) -> bool, i: nat) {
    i < |items| && Absent(items, eq, i, items[i].0)
  }

  /** `m` holds exactly the first item of every class of equivalent keys. */
  ghost predicate KeepsFirst<K, V>(items: seq<(K, V)>, eq: (K, K) -> bool, m: map<K, V>) {
    && (forall i: nat :: First(items, eq, i) ==> items[i].0 in m && m[items[i].0] == items[i].1)
    && (forall k :: k in m ==> exists i: nat :: First(items, eq, i) && items[i].0 == k)
  }

  /** The map grows by the next item exactly when its key is new. */
  lemma KeepsFirstStep<K(!new), V>(before: seq<(K, V)>, k: K, v: V, eq: (K, K) -> bool, m: map<K, V>)
    requires Equivalence(eq) && KeepsFirst(before, eq, m)
    ensures KeepsFirst(before + [(k, v)], eq, MapInsert(m, k, v, eq).0)
  {
    AbsentIffNotStored(before, eq, m, k);
    if Stored(m, eq, k).Some? {
      OldKeyAddsNothing(before, before + [(k, v)], eq, m);
    } else {
      NewKeyIsFirst(before, before + [(k, v)], eq, m);
    }
  }

  lemma OldKeyAddsNothing<K, V>(before: seq<(K, V)>, after: seq<(K, V)>, eq: (K, K) -> bool, m: map<K, V>)
    requires |after| == |before| + 1 && after[..|before|] == before && KeepsFirst(before, eq, m)
    requires !Absent(before, eq, |before|, after[|before|].0)
    ensures KeepsFirst(after, eq, m)
  {
    forall i: nat
      ensures First(after, eq, i) <==> First(before, eq, i)
      ensures i < |before| ==> after[i] == before[i]
    {
      FirstOfLonger(before, after, eq, i);
    }
    forall x | x in m
      ensures exists i: nat :: First(after, eq, i) && after[i].0 == x
    {
      var i: nat :| First(before, eq, i) && before[i].0 == x;
      assert First(after, eq, i) && after[i].0 == x;
    }
  }

  lemma NewKeyIsFirst<K(!new), V>(before: seq<(K, V)>, after: seq<(K, V)>, eq: (K, K) -> bool, m: map<K, V>)
    requires |after| == |before| + 1 && after[..|before|] == before && KeepsFirst(before, eq, m)
    requires Equivalence(eq) && Absent(before, eq, |before|, after[|before|].0)
    ensures KeepsFirst(after, eq, m[after[|before|].0 := after[|before|].1])
  {
    var n := |before|;
    var (k, v) := after[n];
    forall i: nat
      ensures First(after, eq, i) <==> First(before, eq, i) || i == n
      ensures i < n ==> after[i] == before[i] && before[i].0 != k
    {
      FirstOfLonger(before, after, eq, i);
      assert eq(k, k);
    }
    var m' := m[k := v];
    forall x | x in m'
      ensures exists i: nat :: First(after, eq, i) && after[i].0 == x
    {
      if x == k {
        assert First(after, eq, n) && after[n].0 == x;
      } else {
        var i: nat :| First(before, eq, i) && before[i].0 == x;
        assert First(after, eq, i) && after[i].0 == x;
      }
    }
  }

  lemma FirstOfLonger<K, V>(before: seq<(K, V)>, after: seq<(K, V)>, eq: (K, K) -> bool, i: nat)
    requires |after| == |before| + 1 && after[..|before|] == before
    ensures First(after, eq, i) <==>
            First(before, eq, i) || (i == |before| && Absent(before, eq, i, after[i].0))
    ensures i < |before| ==> after[i] == before[i]
  {
    forall j | 0 <= j < |before|
      ensures after[j] == before[j]
    {
      assert after[..|before|][j] == before[j];
    }
  }

  lemma AbsentIffNotStored<K(!new), V>(items: seq<(K, V)>, eq: (K, K) -> bool, m: map<K, V>, k: K)
    requires Equivalence(eq) && KeepsFirst(items, eq, m)
    ensures Absent(items, eq, |items|, k) <==> Stored(m, eq, k).None?
  {
    if Stored(m, eq, k).Some? {
      var i: nat :| First(items, eq, i) && items[i].0 == Stored(m, eq, k).value;
    } else {
      forall j | 0 <= j < |items|
        ensures !eq(items[j].0, k)
      {
        var i := FirstOf(items, eq, j);
        assert items[i].0 in m;
      }
    }
  }

  lemma {:induction false} FirstOf<K(!new), V>(items: seq<(K, V)>, eq: (K, K) -> bool, j: nat) returns (i: nat)
    requires Equivalence(eq) && j < |items|
    ensures i <= j && First(items, eq, i) && eq(items[i].0, items[j].0)
    decreases j
  {
    if First(items, eq, j) {
      i := j;
    } else {
      var h :| 0 <= h < j && eq(items[h].0, items[j].0);
      i := FirstOf(items, eq, h);
    }
  }

  /** The finite map that a list of items builds by inserting them one by one. */
  ghost function MapBuild<K(!new), V>(items: seq<(K, V)>, eq: (K, K) -> bool): map<K, V> {
    if items == [] then map[]
    else
      var (k, v) := items[|items| - 1];
      MapInsert(MapBuild(items[..|items| - 1], eq), k, v, eq).0
  }

  /** Building from a list keeps the first value given for each key. */
  lemma {:induction false} MapBuildKeepsFirst<K(!new), V>(items: seq<(K, V)>, eq: (K, K) -> bool)
    requires Equivalence(eq)
    ensures KeepsFirst(items, eq, MapBuild(items, eq))
  {
    if items != [] {
      var init := items[..|items| - 1];
      var (k, v) := items[|items| - 1];
      assert items == init + [(k, v)];
      MapBuildKeepsFirst(init, eq);
      KeepsFirstStep(init, k, v, eq, MapBuild(init, eq));
    }
  }

  /** What the constructors of the sorted maps leave behind. */
  function SortedBuild<K, V>(items: seq<(K, V)>, lt: (K, K) -> bool, dflt: V): seq<(K, V)> {
    if items == [] then []
    else
      var (k, v) := items[|items| - 1];
      SortedStep(SortedBuild(items[..|items| - 1], lt, dflt), Emplace(k, v), lt, dflt).0
  }

  /** What the constructors of the unordered maps leave behind. */
  function UnorderedBuild<K(==), V>(items: seq<(K, V)>, dflt: V): seq<(K, V)> {
    if items == [] then []
    else
      var (k, v) := items[|items| - 1];
      UnorderedStep(UnorderedBuild(items[..|items| - 1], dflt), Emplace(k, v), dflt).0
  }

  /** Construction from a list sorts the keys and keeps the first value given for each. */
  lemma {:induction false} SortedBuildKeepsFirst<K(!new), V>(items: seq<(K, V)>, lt: (K, K) -> bool, dflt: V)
    requires StrictWeakOrder(lt)
    ensures Sorted(SortedBuild(items, lt, dflt), lt)
    ensures Lists(SortedBuild(items, lt, dflt), MapBuild(items, Equiv(lt)))
    ensures KeepsFirst(items, Equiv(lt), MapBuild(items, Equiv(lt)))
  {
    EquivIsEquivalence(lt);
    MapBuildKeepsFirst(items, Equiv(lt));
    if items != [] {
      var init := items[..|items| - 1];
      var (k, v) := items[|items| - 1];
      SortedBuildKeepsFirst(init, lt, dflt);
      SortedSimulates(SortedBuild(init, lt, dflt), MapBuild(init, Equiv(lt)), Emplace(k, v), lt, dflt);
    }
  }

  lemma {:induction false} UnorderedBuildKeepsFirst<K(!new), V>(items: seq<(K, V)>, dflt: V)
    ensures Lists(UnorderedBuild(items, dflt), MapBuild(items, Equal()))
    ensures KeepsFirst(items, Equal(), MapBuild(items, Equal()))
  {
    MapBuildKeepsFirst(items, Equal());
    if items != [] {
      var init := items[..|items| - 1];
      var (k, v) := items[|items| - 1];
      UnorderedBuildKeepsFirst(init, dflt);
      UnorderedSimulates(UnorderedBuild(init, dflt), MapBuild(init, Equal()), Emplace(k, v), dflt);
    }
  }
}
