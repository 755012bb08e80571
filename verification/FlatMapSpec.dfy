/** What the flat maps do, on sequences of pairs, and the finite map they all stand for. */
module FlatMapSpec {
  import opened Options
  import opened Ordering

  datatype Op<K, V> =
    | Insert(k: K, v: V)
    | Emplace(k: K, v: V)
    | TryEmplace(k: K, v: V)
    | InsertOrAssign(k: K, v: V)
    | Subscript(k: K)
    | Erase(k: K)
    | Find(k: K)

  // What a caller sees: the boolean or count of the call, the value that the returned iterator or
  // reference leads to (none for the end iterator), and the size afterwards.
  datatype Answer<V> = Answer(flag: bool, value: Option<V>, size: nat)

  // ---------------------------------------------------------------- the finite map

  /** The key of `m` that `eq` identifies with `k`, if there is one. */
  ghost function Stored<K(!new), V>(m: map<K, V>, eq: (K, K) -> bool, k: K): (r: Option<K>)
    ensures r.Some? ==> r.value in m && eq(r.value, k)
    ensures r.None? ==> forall x :: x in m ==> !eq(x, k)
  {
    if exists x :: x in m && eq(x, k) then
      var x :| x in m && eq(x, k);
      Some(x)
    else None
  }

  ghost function MapStep<K(!new), V>(m: map<K, V>, op: Op<K, V>, eq: (K, K) -> bool, dflt: V): (map<K, V>, Answer<V>) {
    match op
    case Insert(k, v) => MapInsert(m, k, v, eq)
    case Emplace(k, v) => MapInsert(m, k, v, eq)
    case TryEmplace(k, v) => MapInsert(m, k, v, eq)
    case InsertOrAssign(k, v) =>
      (match Stored(m, eq, k)
       case Some(x) => (m[x := v], Answer(false, Some(v), |m|))
       case None => MapInsert(m, k, v, eq))
    case Subscript(k) => MapInsert(m, k, dflt, eq)
    case Erase(k) =>
      (match Stored(m, eq, k)
       case Some(x) => (m - {x}, Answer(true, None, |m| - 1))
       case None => (m, Answer(false, None, |m|)))
    case Find(k) =>
      (match Stored(m, eq, k)
       case Some(x) => (m, Answer(true, Some(m[x]), |m|))
       case None => (m, Answer(false, None, |m|)))
  }

  ghost function MapInsert<K(!new), V>(m: map<K, V>, k: K, v: V, eq: (K, K) -> bool): (map<K, V>, Answer<V>) {
    match Stored(m, eq, k)
    case Some(x) => (m, Answer(false, Some(m[x]), |m|))
    case None => (m[k := v], Answer(true, Some(v), |m| + 1))
  }

  /** The value stored for the class of `k`. */
  ghost function ValueOf<K(!new), V>(m: map<K, V>, eq: (K, K) -> bool, k: K): Option<V> {
    match Stored(m, eq, k)
    case None => None
    case Some(x) => Some(m[x])
  }

  /** What the value for the operation's key becomes, from what it was. */
  ghost function Becomes<K, V>(op: Op<K, V>, was: Option<V>, dflt: V): Option<V> {
    match op
    case InsertOrAssign(_, v) => Some(v)
    case Subscript(_) => if was.Some? then was else Some(dflt)
    case Erase(_) => None
    case Find(_) => was
    case _ => if was.Some? then was else Some(op.v)
  }

  /** No two keys of the map are of one class. */
  ghost predicate OneOfEach<K(!new), V>(m: map<K, V>, eq: (K, K) -> bool) {
    forall x, y :: x in m && y in m && eq(x, y) ==> x == y
  }

  lemma StoredIs<K(!new), V>(m: map<K, V>, eq: (K, K) -> bool, k: K, x: K)
    requires Equivalence(eq) && OneOfEach(m, eq) && x in m && eq(x, k)
    ensures Stored(m, eq, k) == Some(x)
  {
    var r := Stored(m, eq, k);
    assert r.Some?;
    assert eq(k, r.value) && eq(x, r.value);
  }

  /** The answer tells what was there, what is there, and how many there are. */
  lemma MapStepAnswer<K(!new), V>(m: map<K, V>, op: Op<K, V>, eq: (K, K) -> bool, dflt: V)
    requires Equivalence(eq) && OneOfEach(m, eq)
    ensures var was := ValueOf(m, eq, op.k);
            var (m', a) := MapStep(m, op, eq, dflt);
            && OneOfEach(m', eq)
            && a.flag == (if op.Erase? || op.Find? then was.Some? else was.None?)
            && a.value == (if op.Erase? then None else Becomes(op, was, dflt))
            && a.size == |m'|
            && |m'| + (if was.Some? then 1 else 0) == |m| + (if Becomes(op, was, dflt).Some? then 1 else 0)
  {
    StepKeys(m, op, eq, dflt);
  }

  /** The value for the operation's own key becomes what it should, and every other key keeps its value. */
  lemma MapStepValue<K(!new), V>(m: map<K, V>, op: Op<K, V>, eq: (K, K) -> bool, dflt: V, k: K)
    requires Equivalence(eq) && OneOfEach(m, eq)
    ensures ValueOf(MapStep(m, op, eq, dflt).0, eq, k)
            == if eq(op.k, k) then Becomes(op, ValueOf(m, eq, op.k), dflt) else ValueOf(m, eq, k)
  {
    StepKeys(m, op, eq, dflt);
    var m' := MapStep(m, op, eq, dflt).0;
    if eq(op.k, k) {
      SameClass(m, eq, op.k, k);
      SameClass(m', eq, op.k, k);
      OwnValue(m, op, eq, dflt);
    } else {
      OtherValue(m, op, eq, dflt, k);
    }
  }

  lemma SameClass<K(!new), V>(m: map<K, V>, eq: (K, K) -> bool, k: K, l: K)
    requires Equivalence(eq) && OneOfEach(m, eq) && eq(k, l)
    ensures Stored(m, eq, k) == Stored(m, eq, l)
  {
    var r := Stored(m, eq, k);
    if r.Some? {
      StoredIs(m, eq, l, r.value);
    } else {
      assert forall x :: eq(x, l) ==> eq(l, x) && eq(k, x) && eq(x, k);
    }
  }

  lemma OwnValue<K(!new), V>(m: map<K, V>, op: Op<K, V>, eq: (K, K) -> bool, dflt: V)
    requires Equivalence(eq) && OneOfEach(m, eq)
    ensures ValueOf(MapStep(m, op, eq, dflt).0, eq, op.k) == Becomes(op, ValueOf(m, eq, op.k), dflt)
  {
    StepKeys(m, op, eq, dflt);
    var s, m' := Stored(m, eq, op.k), MapStep(m, op, eq, dflt).0;
    if s.Some? && !op.Erase? {
      StoredIs(m', eq, op.k, s.value);
    } else if s.None? && !op.Erase? && !op.Find? {
      StoredIs(m', eq, op.k, op.k);
    } else if s.Some? {
      Removed(m, m', eq, op.k, s.value);
    }
  }

  lemma Removed<K(!new), V>(m: map<K, V>, m': map<K, V>, eq: (K, K) -> bool, k: K, x: K)
    requires Equivalence(eq) && OneOfEach(m, eq) && x in m && eq(x, k) && m'.Keys == m.Keys - {x}
    ensures Stored(m', eq, k) == None
  {
    assert forall y :: y in m && eq(y, k) ==> eq(k, x) && y == x;
  }

  lemma OtherValue<K(!new), V>(m: map<K, V>, op: Op<K, V>, eq: (K, K) -> bool, dflt: V, k: K)
    requires Equivalence(eq) && OneOfEach(m, eq) && !eq(op.k, k)
    ensures ValueOf(MapStep(m, op, eq, dflt).0, eq, k) == ValueOf(m, eq, k)
  {
    StepKeys(m, op, eq, dflt);
    var s := Stored(m, eq, op.k);
    assert forall x :: eq(x, op.k) ==> eq(op.k, x);
    DifferAt(m, MapStep(m, op, eq, dflt).0, eq, k, if s.Some? then s.value else op.k);
  }

  /** Maps that differ at one key differ in the value of its class only. */
  lemma DifferAt<K(!new), V>(m: map<K, V>, m': map<K, V>, eq: (K, K) -> bool, k: K, x: K)
    requires Equivalence(eq) && OneOfEach(m, eq) && OneOfEach(m', eq) && !eq(x, k)
    requires forall y :: y != x ==> (y in m <==> y in m') && (y in m ==> m[y] == m'[y])
    ensures ValueOf(m', eq, k) == ValueOf(m, eq, k)
  {
    var t := Stored(m, eq, k);
    if t.Some? {
      StoredIs(m', eq, k, t.value);
    }
  }

  lemma StepKeys<K(!new), V>(m: map<K, V>, op: Op<K, V>, eq: (K, K) -> bool, dflt: V)
    requires Equivalence(eq) && OneOfEach(m, eq)
    ensures var s := Stored(m, eq, op.k);
            var m' := MapStep(m, op, eq, dflt).0;
            && OneOfEach(m', eq)
            && m'.Keys == (if op.Erase? then (if s.Some? then m.Keys - {s.value} else m.Keys)
                           else if op.Find? || s.Some? then m.Keys else m.Keys + {op.k})
            && |m'| == |m'.Keys| && |m| == |m.Keys|
  {
  }

  // ---------------------------------------------------------------- sequences of pairs

  function Keys<K, V>(s: seq<(K, V)>): (keys: seq<K>)
    ensures |keys| == |s| && forall i :: 0 <= i < |s| ==> keys[i] == s[i].0
  {
    seq(|s|, i requires 0 <= i < |s| => s[i].0)
  }

  function Values<K, V>(s: seq<(K, V)>): (values: seq<V>)
    ensures |values| == |s| && forall i :: 0 <= i < |s| ==> values[i] == s[i].1
  {
    seq(|s|, i requires 0 <= i < |s| => s[i].1)
  }

  function Zip<K, V>(keys: seq<K>, values: seq<V>): (s: seq<(K, V)>)
    requires |keys| == |values|
    ensures |s| == |keys| && forall i :: 0 <= i < |s| ==> s[i] == (keys[i], values[i])
    ensures Keys(s) == keys && Values(s) == values
  {
    seq(|keys|, i requires 0 <= i < |keys| => (keys[i], values[i]))
  }

  function InsertAt<T>(s: seq<T>, i: nat, x: T): (r: seq<T>)
    requires i <= |s|
    ensures |r| == |s| + 1
    ensures forall j :: 0 <= j < |r| ==> r[j] == if j < i then s[j] else if j == i then x else s[j - 1]
  {
    s[..i] + [x] + s[i..]
  }

  function RemoveAt<T>(s: seq<T>, i: nat): (r: seq<T>)
    requires i < |s|
    ensures |r| == |s| - 1
    ensures forall j :: 0 <= j < |r| ==> r[j] == if j < i then s[j] else s[j + 1]
  {
    s[..i] + s[i + 1..]
  }

  /** Working on parallel vectors position by position is working on the vector of pairs. */
  lemma ZipInsert<K, V>(keys: seq<K>, values: seq<V>, i: nat, k: K, v: V)
    requires |keys| == |values| && i <= |keys|
    ensures Zip(InsertAt(keys, i, k), InsertAt(values, i, v)) == InsertAt(Zip(keys, values), i, (k, v))
  {
  }

  lemma ZipAssign<K, V>(keys: seq<K>, values: seq<V>, i: nat, v: V)
    requires |keys| == |values| && i < |keys|
    ensures Zip(keys, values[i := v]) == Zip(keys, values)[i := (keys[i], v)]
  {
  }

  /** Erases by moving the last element into the hole. */
  function SwapRemove<T>(s: seq<T>, i: nat): (r: seq<T>)
    requires i < |s|
    ensures |r| == |s| - 1
    ensures forall j :: 0 <= j < |r| ==> r[j] == if j == i then s[|s| - 1] else s[j]
  {
    s[i := s[|s| - 1]][..|s| - 1]
  }

  /** Where a layout keeps the key that stands for `k`, or where it would go. */
  datatype Slot = Slot(pos: nat, found: bool)

  function SortedSlot<K, V>(s: seq<(K, V)>, k: K, lt: (K, K) -> bool): (r: Slot)
    ensures r.pos <= |s| && (r.found ==> r.pos < |s|)
  {
    var i := LowerBoundPos(Keys(s), k, lt);
    Slot(i, i < |s| && !lt(k, s[i].0))
  }

  function UnorderedSlot<K(==), V>(s: seq<(K, V)>, k: K): (r: Slot)
    ensures r.pos <= |s|
    ensures r.found <==> r.pos < |s|
    ensures r.found ==> s[r.pos].0 == k
    ensures forall i :: 0 <= i < r.pos ==> s[i].0 != k
    decreases |s|
  {
    if s == [] then Slot(0, false)
    else if s[0].0 == k then Slot(0, true)
    else
      var r := UnorderedSlot(s[1..], k);
      assert forall i :: 0 < i < |s| ==> s[i] == s[1..][i - 1];
      Slot(r.pos + 1, r.found)
  }

  lemma {:induction false} UnorderedSlotAt<K, V>(s: seq<(K, V)>, k: K, i: nat)
    requires i <= |s| && forall j :: 0 <= j < i ==> s[j].0 != k
    requires i < |s| ==> s[i].0 == k
    ensures UnorderedSlot(s, k) == Slot(i, i < |s|)
  {
    var r := UnorderedSlot(s, k);
    if i < |s| { assert s[i].0 == k; }
    if r.pos < |s| { assert s[r.pos].0 == k; }
  }

  /** One operation on a layout that erases with `erase`, given the slot of the operation's key. */
  function SlotStep<K, V>(s: seq<(K, V)>, op: Op<K, V>, slot: Slot, erased: seq<(K, V)>, dflt: V): (r: (seq<(K, V)>, Answer<V>))
    requires slot.pos <= |s| && (slot.found ==> slot.pos < |s|)
  {
    if slot.found then
      var (x, w) := s[slot.pos];
      match op
      case InsertOrAssign(_, v) => (s[slot.pos := (x, v)], Answer(false, Some(v), |s|))
      case Erase(_) => (erased, Answer(true, None, |s| - 1))
      case Find(_) => (s, Answer(true, Some(w), |s|))
      case _ => (s, Answer(false, Some(w), |s|))
    else if op.Erase? || op.Find? then (s, Answer(false, None, |s|))
    else
      var v := if op.Subscript? then dflt else op.v;
      (InsertAt(s, slot.pos, (op.k, v)), Answer(true, Some(v), |s| + 1))
  }

  function SortedStep<K, V>(s: seq<(K, V)>, op: Op<K, V>, lt: (K, K) -> bool, dflt: V): (seq<(K, V)>, Answer<V>) {
    var slot := SortedSlot(s, op.k, lt);
    SlotStep(s, op, slot, if slot.found then RemoveAt(s, slot.pos) else s, dflt)
  }

  function UnorderedStep<K(==), V>(s: seq<(K, V)>, op: Op<K, V>, dflt: V): (seq<(K, V)>, Answer<V>) {
    var slot := UnorderedSlot(s, op.k);
    SlotStep(s, op, slot, if slot.found then SwapRemove(s, slot.pos) else s, dflt)
  }

  /** The iterator at `pos` (the end iterator is |s|) shows the caller the answer `a`. */
  ghost predicate Shows<K, V>(s: seq<(K, V)>, pos: nat, a: Answer<V>) {
    && pos <= |s| == a.size
    && a.value == if pos < |s| then Some(s[pos].1) else None
  }

  // ---------------------------------------------------------------- abstraction

  /** No two positions hold keys that `eq` identifies. */
  ghost predicate Unique<K, V>(s: seq<(K, V)>, eq: (K, K) -> bool) {
    forall i, j :: 0 <= i < j < |s| ==> !eq(s[i].0, s[j].0) && !eq(s[j].0, s[i].0)
  }

  /** `s` lists exactly the pairs of `m`, each once. */
  ghost predicate Lists<K, V>(s: seq<(K, V)>, m: map<K, V>) {
    && (forall i :: 0 <= i < |s| ==> s[i].0 in m && m[s[i].0] == s[i].1)
    && (forall k :: k in m ==> exists i :: 0 <= i < |s| && s[i].0 == k)
    && (forall i, j :: 0 <= i < j < |s| ==> s[i].0 != s[j].0)
  }

  lemma {:induction false} DistinctSize<K>(keys: seq<K>)
    requires forall i, j :: 0 <= i < j < |keys| ==> keys[i] != keys[j]
    ensures |set k | k in keys| == |keys|
  {
    var ks := set k | k in keys;
    if keys != [] {
      var n := |keys| - 1;
      DistinctSize(keys[..n]);
      assert ks == (set k | k in keys[..n]) + {keys[n]};
    }
  }

  lemma ListsSize<K, V>(s: seq<(K, V)>, m: map<K, V>)
    requires Lists(s, m)
    ensures |m| == |s|
  {
    DistinctSize(Keys(s));
    forall k | k in m
      ensures k in Keys(s)
    {
      var i :| 0 <= i < |s| && s[i].0 == k;
      assert Keys(s)[i] == k;
    }
    assert m.Keys == set k | k in Keys(s);
    assert |m| == |m.Keys|;
  }

  ghost predicate Equivalence<K(!new)>(eq: (K, K) -> bool) {
    && (forall a :: eq(a, a))
    && (forall a, b :: eq(a, b) ==> eq(b, a))
    && (forall a, b, c :: eq(a, b) && eq(b, c) ==> eq(a, c))
  }

  /** The slot that a layout found for `k` is the right one. */
  ghost predicate SlotFits<K, V>(s: seq<(K, V)>, k: K, eq: (K, K) -> bool, slot: Slot) {
    && slot.pos <= |s|
    && (if slot.found then slot.pos < |s| && eq(s[slot.pos].0, k)
        else forall i :: 0 <= i < |s| ==> !eq(s[i].0, k))
  }

  lemma StoredAtSlot<K(!new), V>(s: seq<(K, V)>, m: map<K, V>, k: K, eq: (K, K) -> bool, slot: Slot)
    requires Equivalence(eq) && Lists(s, m) && Unique(s, eq) && SlotFits(s, k, eq, slot)
    ensures Stored(m, eq, k) == if slot.found then Some(s[slot.pos].0) else None
  {
    if slot.found {
      UniqueListsOneOfEach(s, m, eq);
      StoredIs(m, eq, k, s[slot.pos].0);
    }
  }

  lemma UniqueListsOneOfEach<K(!new), V>(s: seq<(K, V)>, m: map<K, V>, eq: (K, K) -> bool)
    requires Lists(s, m) && Unique(s, eq)
    ensures OneOfEach(m, eq)
  {
    forall x, y | x in m && y in m && eq(x, y)
      ensures x == y
    {
      var i :| 0 <= i < |s| && s[i].0 == x;
      var j :| 0 <= j < |s| && s[j].0 == y;
    }
  }

  lemma InsertAtLists<K, V>(s: seq<(K, V)>, m: map<K, V>, i: nat, k: K, v: V)
    requires Lists(s, m) && i <= |s| && k !in m
    ensures Lists(InsertAt(s, i, (k, v)), m[k := v])
  {
    var s', m' := InsertAt(s, i, (k, v)), m[k := v];
    forall j | 0 <= j < |s'|
      ensures s'[j].0 in m' && m'[s'[j].0] == s'[j].1
    {
      assert j != i ==> s'[j] == s[if j < i then j else j - 1];
    }
    forall x | x in m'
      ensures exists j :: 0 <= j < |s'| && s'[j].0 == x
    {
      InsertAtOccurs(s, m, i, k, v, x);
    }
    InsertAtDistinct(s, m, i, k, v);
  }

  lemma InsertAtOccurs<K, V>(s: seq<(K, V)>, m: map<K, V>, i: nat, k: K, v: V, x: K)
    requires Lists(s, m) && i <= |s| && (x == k || x in m)
    ensures exists j :: 0 <= j < |s| + 1 && InsertAt(s, i, (k, v))[j].0 == x
  {
    var s' := InsertAt(s, i, (k, v));
    if x == k {
      assert s'[i].0 == x;
    } else {
      var j :| 0 <= j < |s| && s[j].0 == x;
      assert s'[if j < i then j else j + 1] == s[j];
    }
  }

  lemma InsertAtDistinct<K, V>(s: seq<(K, V)>, m: map<K, V>, i: nat, k: K, v: V)
    requires Lists(s, m) && i <= |s| && k !in m
    ensures forall j, h :: 0 <= j < h < |s| + 1 ==> InsertAt(s, i, (k, v))[j].0 != InsertAt(s, i, (k, v))[h].0
  {
    var s' := InsertAt(s, i, (k, v));
    forall j, h | 0 <= j < h < |s'|
      ensures s'[j].0 != s'[h].0
    {
      var j', h' := if j < i then j else j - 1, if h < i then h else h - 1;
      if j == i {
        assert s'[h] == s[h'] && s[h'].0 in m;
      } else if h == i {
        assert s'[j] == s[j'] && s[j'].0 in m;
      } else {
        assert s'[j] == s[j'] && s'[h] == s[h'] && j' < h';
      }
    }
  }

  lemma AssignLists<K, V>(s: seq<(K, V)>, m: map<K, V>, i: nat, v: V)
    requires Lists(s, m) && i < |s|
    ensures Lists(s[i := (s[i].0, v)], m[s[i].0 := v])
  {
    var s', m' := s[i := (s[i].0, v)], m[s[i].0 := v];
    forall x | x in m'
      ensures exists j :: 0 <= j < |s'| && s'[j].0 == x
    {
      var j :| 0 <= j < |s| && s[j].0 == x;
      assert s'[j].0 == x;
    }
  }

  lemma RemoveAtLists<K, V>(s: seq<(K, V)>, m: map<K, V>, i: nat)
    requires Lists(s, m) && i < |s|
    ensures Lists(RemoveAt(s, i), m - {s[i].0})
  {
    var s' := RemoveAt(s, i);
    var from := (j: int) => if j < i then j else j + 1;
    var to := (j: int) => if j < i then j else j - 1;
    forall j | 0 <= j < |s'|
      ensures 0 <= from(j) < |s| && from(j) != i && s'[j] == s[from(j)] && to(from(j)) == j
    {
    }
    forall j | 0 <= j < |s| && j != i
      ensures 0 <= to(j) < |s'| && from(to(j)) == j
    {
    }
    ErasedLists(s, m, i, s', from, to);
  }

  /** `s'` keeps every element of `s` but the one at `i`: position j holds what was at from(j). */
  lemma ErasedLists<K, V>(s: seq<(K, V)>, m: map<K, V>, i: nat, s': seq<(K, V)>, from: int -> int, to: int -> int)
    requires Lists(s, m) && i < |s|
    requires forall j :: 0 <= j < |s'| ==> 0 <= from(j) < |s| && from(j) != i && s'[j] == s[from(j)] && to(from(j)) == j
    requires forall j :: 0 <= j < |s| && j != i ==> 0 <= to(j) < |s'| && from(to(j)) == j
    ensures Lists(s', m - {s[i].0})
  {
    var m' := m - {s[i].0};
    forall x | x in m'
      ensures exists j :: 0 <= j < |s'| && s'[j].0 == x
    {
      var j :| 0 <= j < |s| && s[j].0 == x;
      assert s'[to(j)] == s[from(to(j))];
    }
    forall j | 0 <= j < |s'|
      ensures s'[j].0 in m' && m'[s'[j].0] == s'[j].1
    {
      assert s[from(j)].0 != s[i].0;
    }
    forall j, h | 0 <= j < h < |s'|
      ensures s'[j].0 != s'[h].0
    {
      assert to(from(j)) != to(from(h));
    }
  }

  lemma SwapRemoveLists<K, V>(s: seq<(K, V)>, m: map<K, V>, i: nat)
    requires Lists(s, m) && i < |s|
    ensures Lists(SwapRemove(s, i), m - {s[i].0})
  {
    ErasedLists(s, m, i, SwapRemove(s, i), j => if j == i then |s| - 1 else j, j => if j == |s| - 1 then i else j);
  }

  /** Swap-with-last erase removes exactly the chosen element and keeps every other one. */
  lemma SwapRemoveConserves<T>(s: seq<T>, i: nat)
    requires i < |s|
    ensures multiset(SwapRemove(s, i)) == multiset(s) - multiset{s[i]}
  {
    var n := |s| - 1;
    if i == n {
      assert s == s[..n] + [s[n]];
      assert SwapRemove(s, i) == s[..n];
    } else {
      SwapRemoveParts(s, i);
      MoveLast(s[..i], s[i], s[i + 1..n], s[n]);
    }
  }

  lemma SwapRemoveParts<T>(s: seq<T>, i: nat)
    requires i < |s| - 1
    ensures s == s[..i] + [s[i]] + s[i + 1..|s| - 1] + [s[|s| - 1]]
    ensures SwapRemove(s, i) == s[..i] + [s[|s| - 1]] + s[i + 1..|s| - 1]
  {
  }

  lemma MoveLast<T>(a: seq<T>, x: T, b: seq<T>, y: T)
    ensures multiset(a + [y] + b) == multiset(a + [x] + b + [y]) - multiset{x}
  {
  }

  /** Erasing by closing the gap removes exactly the chosen element. */
  lemma RemoveAtConserves<T>(s: seq<T>, i: nat)
    requires i < |s|
    ensures multiset(RemoveAt(s, i)) == multiset(s) - multiset{s[i]}
  {
    assert s == s[..i] + ([s[i]] + s[i + 1..]);
  }

  /** With the right slot and a faithful erase, a step on a layout is the step on the finite map. */
  lemma SlotSimulates<K(!new), V>(s: seq<(K, V)>, m: map<K, V>, op: Op<K, V>, slot: Slot, erased: seq<(K, V)>, eq: (K, K) -> bool, dflt: V)
    requires Equivalence(eq) && Lists(s, m) && Unique(s, eq) && SlotFits(s, op.k, eq, slot)
    requires slot.found ==> Lists(erased, m - {s[slot.pos].0})
    ensures Lists(SlotStep(s, op, slot, erased, dflt).0, MapStep(m, op, eq, dflt).0)
    ensures SlotStep(s, op, slot, erased, dflt).1 == MapStep(m, op, eq, dflt).1
  {
    StoredAtSlot(s, m, op.k, eq, slot);
    ListsSize(s, m);
    if slot.found {
      FoundSimulates(s, m, op, slot, erased, eq, dflt);
    } else {
      NotFoundSimulates(s, m, op, slot, erased, eq, dflt);
    }
  }

  lemma FoundSimulates<K(!new), V>(s: seq<(K, V)>, m: map<K, V>, op: Op<K, V>, slot: Slot, erased: seq<(K, V)>, eq: (K, K) -> bool, dflt: V)
    requires Lists(s, m) && |m| == |s| && slot.found && slot.pos < |s|
    requires Stored(m, eq, op.k) == Some(s[slot.pos].0)
    requires Lists(erased, m - {s[slot.pos].0})
    ensures Lists(SlotStep(s, op, slot, erased, dflt).0, MapStep(m, op, eq, dflt).0)
    ensures SlotStep(s, op, slot, erased, dflt).1 == MapStep(m, op, eq, dflt).1
  {
    var (x, w) := s[slot.pos];
    assert m[x] == w;
    if op.InsertOrAssign? {
      AssignLists(s, m, slot.pos, op.v);
    }
  }

  lemma NotFoundSimulates<K(!new), V>(s: seq<(K, V)>, m: map<K, V>, op: Op<K, V>, slot: Slot, erased: seq<(K, V)>, eq: (K, K) -> bool, dflt: V)
    requires Lists(s, m) && |m| == |s| && !slot.found && slot.pos <= |s|
    requires Stored(m, eq, op.k).None? && eq(op.k, op.k)
    ensures Lists(SlotStep(s, op, slot, erased, dflt).0, MapStep(m, op, eq, dflt).0)
    ensures SlotStep(s, op, slot, erased, dflt).1 == MapStep(m, op, eq, dflt).1
  {
    assert op.k !in m;
    if !op.Erase? && !op.Find? {
      InsertAtLists(s, m, slot.pos, op.k, if op.Subscript? then dflt else op.v);
    }
  }
}
