/** The two sorted flat maps: one vector of pairs, or two parallel vectors. */
module SortedFlatMaps {
  import opened Ordering
  import opened FlatMapSpec
  import opened FlatMapSimulation

  /** flatmap: one vector of pairs, sorted by key. */
  class FlatMap<K(!new), V> {
    var values: seq<(K, V)>
    const lt: (K, K) -> bool
    const dflt: V  // what a default-constructed value holds

    ghost predicate Valid()
      reads this
    {
      StrictWeakOrder(lt) && Sorted(values, lt)
    }

    ghost function Items(): seq<(K, V)>
      reads this
    {
      values
    }

    ghost function Step(op: Op<K, V>): (seq<(K, V)>, Answer<V>)
      reads this
    {
      SortedStep(Items(), op, lt, dflt)
    }

    constructor (lt: (K, K) -> bool, dflt: V)
      requires StrictWeakOrder(lt)
      ensures Valid() && Items() == [] && this.lt == lt && this.dflt == dflt
    {
      this.values, this.lt, this.dflt := [], lt, dflt;
    }

    constructor FromRange(items: seq<(K, V)>, lt: (K, K) -> bool, dflt: V)
      requires StrictWeakOrder(lt)
      ensures Valid() && Items() == SortedBuild(items, lt, dflt) && this.lt == lt && this.dflt == dflt
    {
      this.values, this.lt, this.dflt := [], lt, dflt;
      new;
      for i := 0 to |items|
        invariant Valid() && Items() == SortedBuild(items[..i], lt, dflt)
      {
        var _, _ := Emplace(items[i].0, items[i].1);
        assert items[..i + 1][..i] == items[..i];
      }
      assert items[..|items|] == items;
    }

    method Clear()
      requires Valid()
      modifies this
      ensures Valid() && Items() == []
    {
      values := [];
    }

    method FindKey(k: K) returns (pos: nat, exact: bool)
      requires Valid()
      ensures Slot(pos, exact) == SortedSlot(Items(), k, lt)
      ensures IsLowerBound(Keys(Items()), k, lt, pos)
      ensures exact <==> exists i :: 0 <= i < |Items()| && Equiv(lt)(Items()[i].0, k)
    {
      SortedSlotFits(values, k, lt);
      pos := LowerBound(values, (p: (K, V)) => p.0, k, lt, Keys(values));
      exact := pos < |values| && !lt(k, values[pos].0);
    }

    method Insert(k: K, v: V) returns (pos: nat, inserted: bool)
      requires Valid()
      modifies this
      ensures Valid() && Items() == old(Step(Op.Insert(k, v))).0 && inserted == old(Step(Op.Insert(k, v))).1.flag
      ensures pos == old(SortedSlot(Items(), k, lt)).pos && Shows(Items(), pos, old(Step(Op.Insert(k, v))).1)
    {
      SortedStepKeepsOrder(values, Op.Insert(k, v), lt, dflt);
      var exact;
      pos, exact := FindKey(k);
      if exact {
        return pos, false;
      }
      if pos == |values| {
        values := values + [(k, v)];
      } else {
        values := InsertAt(values, pos, (k, v));
      }
      return pos, true;
    }

    method InsertOrAssign(k: K, v: V) returns (pos: nat, inserted: bool)
      requires Valid()
      modifies this
      ensures Valid() && Items() == old(Step(Op.InsertOrAssign(k, v))).0 && inserted == old(Step(Op.InsertOrAssign(k, v))).1.flag
      ensures pos == old(SortedSlot(Items(), k, lt)).pos && Shows(Items(), pos, old(Step(Op.InsertOrAssign(k, v))).1)
    {
      SortedStepKeepsOrder(values, Op.InsertOrAssign(k, v), lt, dflt);
      var exact;
      pos, exact := FindKey(k);
      if exact {
        values := values[pos := (values[pos].0, v)];
        return pos, false;
      }
      values := InsertAt(values, pos, (k, v));
      return pos, true;
    }

    method Emplace(k: K, v: V) returns (pos: nat, inserted: bool)
      requires Valid()
      modifies this
      ensures Valid() && Items() == old(Step(Op.Emplace(k, v))).0 && inserted == old(Step(Op.Emplace(k, v))).1.flag
      ensures pos == old(SortedSlot(Items(), k, lt)).pos && Shows(Items(), pos, old(Step(Op.Emplace(k, v))).1)
    {
      SortedStepKeepsOrder(values, Op.Emplace(k, v), lt, dflt);
      var exact;
      pos, exact := FindKey(k);
      if exact {
        return pos, false;
      }
      values := InsertAt(values, pos, (k, v));
      return pos, true;
    }

    method TryEmplace(k: K, v: V) returns (pos: nat, inserted: bool)
      requires Valid()
      modifies this
      ensures Valid() && Items() == old(Step(Op.TryEmplace(k, v))).0 && inserted == old(Step(Op.TryEmplace(k, v))).1.flag
      ensures pos == old(SortedSlot(Items(), k, lt)).pos && Shows(Items(), pos, old(Step(Op.TryEmplace(k, v))).1)
    {
      SortedStepKeepsOrder(values, Op.TryEmplace(k, v), lt, dflt);
      var exact;
      pos, exact := FindKey(k);
      if exact {
        return pos, false;
      }
      values := InsertAt(values, pos, (k, v));
      return pos, true;
    }

    /** operator[]: the position of the value that the returned reference leads to. */
    method Subscript(k: K) returns (pos: nat)
      requires Valid()
      modifies this
      ensures Valid() && Items() == old(Step(Op.Subscript(k))).0
      ensures pos == old(SortedSlot(Items(), k, lt)).pos && Shows(Items(), pos, old(Step(Op.Subscript(k))).1)
    {
      SortedStepKeepsOrder(values, Op.Subscript(k), lt, dflt);
      var exact;
      pos, exact := FindKey(k);
      if exact {
        return pos;
      }
      values := InsertAt(values, pos, (k, dflt));
    }

    method Find(k: K) returns (pos: nat)
      requires Valid()
      ensures Shows(Items(), pos, Step(Op.Find(k)).1) && (pos != |Items()| <==> Step(Op.Find(k)).1.flag)
      ensures Step(Op.Find(k)).0 == Items()
      ensures pos != |Items()| ==> Equiv(lt)(Items()[pos].0, k)
    {
      var exact;
      pos, exact := FindKey(k);
      if !exact {
        pos := |values|;
      }
    }

    method EraseAt(i: nat)
      requires Valid() && i < |Items()|
      modifies this
      ensures Valid() && Items() == RemoveAt(old(Items()), i)
    {
      RemoveKeepsOrder(Keys(values), i, lt);
      values := RemoveAt(values, i);
      assert Keys(values) == RemoveAt(old(Keys(values)), i);
    }

    method Erase(k: K) returns (count: nat)
      requires Valid()
      modifies this
      ensures Valid() && Items() == old(Step(Op.Erase(k))).0
      ensures count == (if old(Step(Op.Erase(k))).1.flag then 1 else 0) && |Items()| == old(Step(Op.Erase(k))).1.size
    {
      var pos, exact := FindKey(k);
      if !exact {
        return 0;
      }
      EraseAt(pos);
      return 1;
    }
  }

  /** split_flatmap: a sorted vector of keys and a parallel vector of values. */
  class SplitFlatMap<K(!new), V> {
    var keys: seq<K>
    var values: seq<V>
    const lt: (K, K) -> bool
    const dflt: V  // what a default-constructed value holds

    ghost predicate Valid()
      reads this
    {
      |keys| == |values| && StrictWeakOrder(lt) && StrictlyIncreasing(keys, lt)
    }

    ghost function Items(): seq<(K, V)>
      requires |keys| == |values|
      reads this
    {
      Zip(keys, values)
    }

    ghost function Step(op: Op<K, V>): (seq<(K, V)>, Answer<V>)
      requires |keys| == |values|
      reads this
    {
      SortedStep(Items(), op, lt, dflt)
    }

    constructor (lt: (K, K) -> bool, dflt: V)
      requires StrictWeakOrder(lt)
      ensures Valid() && Items() == [] && this.lt == lt && this.dflt == dflt
    {
      this.keys, this.values, this.lt, this.dflt := [], [], lt, dflt;
    }

    constructor FromRange(items: seq<(K, V)>, lt: (K, K) -> bool, dflt: V)
      requires StrictWeakOrder(lt)
      ensures Valid() && Items() == SortedBuild(items, lt, dflt) && this.lt == lt && this.dflt == dflt
    {
      this.keys, this.values, this.lt, this.dflt := [], [], lt, dflt;
      new;
      for i := 0 to |items|
        invariant Valid() && Items() == SortedBuild(items[..i], lt, dflt)
      {
        var _, _ := Emplace(items[i].0, items[i].1);
        assert items[..i + 1][..i] == items[..i];
      }
      assert items[..|items|] == items;
    }

    method Clear()
      requires Valid()
      modifies this
      ensures Valid() && Items() == []
    {
      keys, values := [], [];
    }

    method FindKey(k: K) returns (pos: nat, exact: bool)
      requires Valid()
      ensures Slot(pos, exact) == SortedSlot(Items(), k, lt)
      ensures IsLowerBound(Keys(Items()), k, lt, pos)
      ensures exact <==> exists i :: 0 <= i < |Items()| && Equiv(lt)(Items()[i].0, k)
    {
      SortedSlotFits(Items(), k, lt);
      pos := LowerBound(keys, (x: K) => x, k, lt, keys);
      exact := pos < |keys| && !lt(k, keys[pos]);
    }

    method Insert(k: K, v: V) returns (pos: nat, inserted: bool)
      requires Valid()
      modifies this
      ensures Valid() && Items() == old(Step(Op.Insert(k, v))).0 && inserted == old(Step(Op.Insert(k, v))).1.flag
      ensures pos == old(SortedSlot(Items(), k, lt)).pos && Shows(Items(), pos, old(Step(Op.Insert(k, v))).1)
    {
      SortedStepKeepsOrder(Items(), Op.Insert(k, v), lt, dflt);
      var exact;
      pos, exact := FindKey(k);
      if exact {
        return pos, false;
      }
      ZipInsert(keys, values, pos, k, v);
      values := InsertAt(values, pos, v);
      keys := InsertAt(keys, pos, k);
      return pos, true;
    }

    method InsertOrAssign(k: K, v: V) returns (pos: nat, inserted: bool)
      requires Valid()
      modifies this
      ensures Valid() && Items() == old(Step(Op.InsertOrAssign(k, v))).0 && inserted == old(Step(Op.InsertOrAssign(k, v))).1.flag
      ensures pos == old(SortedSlot(Items(), k, lt)).pos && Shows(Items(), pos, old(Step(Op.InsertOrAssign(k, v))).1)
    {
      SortedStepKeepsOrder(Items(), Op.InsertOrAssign(k, v), lt, dflt);
      var exact;
      pos, exact := FindKey(k);
      if exact {
        ZipAssign(keys, values, pos, v);
        values := values[pos := v];
        return pos, false;
      }
      ZipInsert(keys, values, pos, k, v);
      keys := InsertAt(keys, pos, k);
      values := InsertAt(values, pos, v);
      return pos, true;
    }

    method Emplace(k: K, v: V) returns (pos: nat, inserted: bool)
      requires Valid()
      modifies this
      ensures Valid() && Items() == old(Step(Op.Emplace(k, v))).0 && inserted == old(Step(Op.Emplace(k, v))).1.flag
      ensures pos == old(SortedSlot(Items(), k, lt)).pos && Shows(Items(), pos, old(Step(Op.Emplace(k, v))).1)
    {
      pos, inserted := Insert(k, v);
    }

    method TryEmplace(k: K, v: V) returns (pos: nat, inserted: bool)
      requires Valid()
      modifies this
      ensures Valid() && Items() == old(Step(Op.TryEmplace(k, v))).0 && inserted == old(Step(Op.TryEmplace(k, v))).1.flag
      ensures pos == old(SortedSlot(Items(), k, lt)).pos && Shows(Items(), pos, old(Step(Op.TryEmplace(k, v))).1)
    {
      SortedStepKeepsOrder(Items(), Op.TryEmplace(k, v), lt, dflt);
      var exact;
      pos, exact := FindKey(k);
      if exact {
        return pos, false;
      }
      ZipInsert(keys, values, pos, k, v);
      keys := InsertAt(keys, pos, k);
      values := InsertAt(values, pos, v);
      return pos, true;
    }

    /** operator[]: the position of the value that the returned reference leads to. */
    method Subscript(k: K) returns (pos: nat)
      requires Valid()
      modifies this
      ensures Valid() && Items() == old(Step(Op.Subscript(k))).0
      ensures pos == old(SortedSlot(Items(), k, lt)).pos && Shows(Items(), pos, old(Step(Op.Subscript(k))).1)
    {
      SortedStepKeepsOrder(Items(), Op.Subscript(k), lt, dflt);
      var exact;
      pos, exact := FindKey(k);
      if exact {
        return pos;
      }
      ZipInsert(keys, values, pos, k, dflt);
      keys := InsertAt(keys, pos, k);
      values := InsertAt(values, pos, dflt);
    }

    method Find(k: K) returns (pos: nat)
      requires Valid()
      ensures Shows(Items(), pos, Step(Op.Find(k)).1) && (pos != |Items()| <==> Step(Op.Find(k)).1.flag)
      ensures Step(Op.Find(k)).0 == Items()
      ensures pos != |Items()| ==> Equiv(lt)(Items()[pos].0, k)
    {
      var exact;
      pos, exact := FindKey(k);
      if !exact {
        pos := |keys|;
      }
    }

    method EraseAt(i: nat)
      requires Valid() && i < |Items()|
      modifies this
      ensures Valid() && Items() == RemoveAt(old(Items()), i)
    {
      RemoveKeepsOrder(keys, i, lt);
      values := RemoveAt(values, i);
      keys := RemoveAt(keys, i);
    }

    method Erase(k: K) returns (count: nat)
      requires Valid()
      modifies this
      ensures Valid() && Items() == old(Step(Op.Erase(k))).0
      ensures count == (if old(Step(Op.Erase(k))).1.flag then 1 else 0) && |Items()| == old(Step(Op.Erase(k))).1.size
    {
      var pos, exact := FindKey(k);
      if !exact {
        return 0;
      }
      EraseAt(pos);
      return 1;
    }
  }
}
