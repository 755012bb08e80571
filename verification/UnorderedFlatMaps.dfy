/** The two unordered flat maps: one vector of pairs, or two parallel vectors. */
module UnorderedFlatMaps {
  import opened FlatMapSpec
  import opened FlatMapSimulation

  /** unordered_flatmap: one vector of pairs, in no particular order. */
  class UnorderedFlatMap<K(!new, ==), V> {
    var values: seq<(K, V)>
    const dflt: V  // what a default-constructed value holds

    ghost predicate Valid()
      reads this
    {
      UniqueKeys(values)
    }

    ghost function Items(): seq<(K, V)>
      reads this
    {
      values
    }

    ghost function Step(op: Op<K, V>): (seq<(K, V)>, Answer<V>)
      reads this
    {
      UnorderedStep(Items(), op, dflt)
    }

    constructor (dflt: V)
      ensures Valid() && Items() == [] && this.dflt == dflt
    {
      this.values, this.dflt := [], dflt;
    }

    constructor FromRange(items: seq<(K, V)>, dflt: V)
      ensures Valid() && Items() == UnorderedBuild(items, dflt) && this.dflt == dflt
    {
      this.values, this.dflt := [], dflt;
      new;
      for i := 0 to |items|
        invariant Valid() && Items() == UnorderedBuild(items[..i], dflt)
      {
        var _, _ := Emplace(items[i].0, items[i].1);
        assert items[..i + 1][..i] == items[..i];
      }
      assert items[..|items|] == items;
    }

    method Clear()
      requires Valid()
      modifies this
      ensures Valid() && Items() == []
    {
      values := [];
    }

    method Find(k: K) returns (pos: nat)
      requires Valid()
      ensures Slot(pos, pos < |Items()|) == UnorderedSlot(Items(), k)
      ensures Shows(Items(), pos, Step(Op.Find(k)).1) && (pos != |Items()| <==> Step(Op.Find(k)).1.flag)
      ensures Step(Op.Find(k)).0 == Items()
      ensures pos != |Items()| ==> Items()[pos].0 == k
    {
      pos := 0;
      while pos < |values| && values[pos].0 != k
        invariant pos <= |values|
        invariant forall i :: 0 <= i < pos ==> values[i].0 != k
      {
        pos := pos + 1;
      }
      UnorderedSlotAt(Items(), k, pos);
    }

    method Insert(k: K, v: V) returns (pos: nat, inserted: bool)
      requires Valid()
      modifies this
      ensures Valid() && Items() == old(Step(Op.Insert(k, v))).0 && inserted == old(Step(Op.Insert(k, v))).1.flag
      ensures pos == old(UnorderedSlot(Items(), k)).pos && Shows(Items(), pos, old(Step(Op.Insert(k, v))).1)
    {
      UnorderedStepKeepsUnique(Items(), Op.Insert(k, v), dflt);
      pos := Find(k);
      if pos != |values| {
        return pos, false;
      }
      assert InsertAt(Items(), |values|, (k, v)) == Items() + [(k, v)];
      values := values + [(k, v)];
      return |values| - 1, true;
    }

    method InsertOrAssign(k: K, v: V) returns (pos: nat, inserted: bool)
      requires Valid()
      modifies this
      ensures Valid() && Items() == old(Step(Op.InsertOrAssign(k, v))).0 && inserted == old(Step(Op.InsertOrAssign(k, v))).1.flag
      ensures pos == old(UnorderedSlot(Items(), k)).pos && Shows(Items(), pos, old(Step(Op.InsertOrAssign(k, v))).1)
    {
      UnorderedStepKeepsUnique(Items(), Op.InsertOrAssign(k, v), dflt);
      pos := Find(k);
      if pos != |values| {
        values := values[pos := (values[pos].0, v)];
        return pos, false;
      }
      assert InsertAt(Items(), |values|, (k, v)) == Items() + [(k, v)];
      values := values + [(k, v)];
      return |values| - 1, true;
    }

    method Emplace(k: K, v: V) returns (pos: nat, inserted: bool)
      requires Valid()
      modifies this
      ensures Valid() && Items() == old(Step(Op.Emplace(k, v))).0 && inserted == old(Step(Op.Emplace(k, v))).1.flag
      ensures pos == old(UnorderedSlot(Items(), k)).pos && Shows(Items(), pos, old(Step(Op.Emplace(k, v))).1)
    {
      pos, inserted := Insert(k, v);
    }

    method TryEmplace(k: K, v: V) returns (pos: nat, inserted: bool)
      requires Valid()
      modifies this
      ensures Valid() && Items() == old(Step(Op.TryEmplace(k, v))).0 && inserted == old(Step(Op.TryEmplace(k, v))).1.flag
      ensures pos == old(UnorderedSlot(Items(), k)).pos && Shows(Items(), pos, old(Step(Op.TryEmplace(k, v))).1)
    {
      UnorderedStepKeepsUnique(Items(), Op.TryEmplace(k, v), dflt);
      pos := Find(k);
      if pos != |values| {
        return pos, false;
      }
      assert InsertAt(Items(), |values|, (k, v)) == Items() + [(k, v)];
      values := values + [(k, v)];
      return |values| - 1, true;
    }

    /** operator[]: the position of the value that the returned reference leads to. */
    method Subscript(k: K) returns (pos: nat)
      requires Valid()
      modifies this
      ensures Valid() && Items() == old(Step(Op.Subscript(k))).0
      ensures pos == old(UnorderedSlot(Items(), k)).pos && Shows(Items(), pos, old(Step(Op.Subscript(k))).1)
    {
      UnorderedStepKeepsUnique(Items(), Op.Subscript(k), dflt);
      pos := Find(k);
      if pos != |values| {
        return pos;
      }
      assert InsertAt(Items(), |values|, (k, dflt)) == Items() + [(k, dflt)];
      values := values + [(k, dflt)];
      return |values| - 1;
    }

    /** Moves the last pair into the hole, unless the last pair is the one to go. */
    method EraseAt(i: nat)
      requires Valid() && i < |Items()|
      modifies this
      ensures Valid() && Items() == SwapRemove(old(Items()), i)
      ensures multiset(Items()) == multiset(old(Items())) - multiset{old(Items()[i])}
    {
      SwapRemoveConserves(Items(), i);
      if i != |values| - 1 {
        values := values[i := values[|values| - 1]];
      }
      values := values[..|values| - 1];
    }

    method Erase(k: K) returns (count: nat)
      requires Valid()
      modifies this
      ensures Valid() && Items() == old(Step(Op.Erase(k))).0
      ensures count == (if old(Step(Op.Erase(k))).1.flag then 1 else 0) && |Items()| == old(Step(Op.Erase(k))).1.size
    {
      var pos := Find(k);
      if pos != |values| {
        EraseAt(pos);
        return 1;
      }
      return 0;
    }
  }

  /** unordered_split_flatmap: parallel vectors of keys and values. */
  class UnorderedSplitFlatMap<K(!new, ==), V> {
    var keys: seq<K>
    var values: seq<V>
    const dflt: V  // what a default-constructed value holds

    ghost predicate Valid()
      reads this
    {
      |keys| == |values| && UniqueKeys(Zip(keys, values))
    }

    ghost function Items(): seq<(K, V)>
      requires |keys| == |values|
      reads this
    {
      Zip(keys, values)
    }

    ghost function Step(op: Op<K, V>): (seq<(K, V)>, Answer<V>)
      requires |keys| == |values|
      reads this
    {
      UnorderedStep(Items(), op, dflt)
    }

    constructor (dflt: V)
      ensures Valid() && Items() == [] && this.dflt == dflt
    {
      this.keys, this.values, this.dflt := [], [], dflt;
    }

    constructor FromRange(items: seq<(K, V)>, dflt: V)
      ensures Valid() && Items() == UnorderedBuild(items, dflt) && this.dflt == dflt
    {
      this.keys, this.values, this.dflt := [], [], dflt;
      new;
      for i := 0 to |items|
        invariant Valid() && Items() == UnorderedBuild(items[..i], dflt)
      {
        var _, _ := Emplace(items[i].0, items[i].1);
        assert items[..i + 1][..i] == items[..i];
      }
      assert items[..|items|] == items;
    }

    method Clear()
      requires Valid()
      modifies this
      ensures Valid() && Items() == []
    {
      keys, values := [], [];
    }

    method Find(k: K) returns (pos: nat)
      requires Valid()
      ensures Slot(pos, pos < |Items()|) == UnorderedSlot(Items(), k)
      ensures Shows(Items(), pos, Step(Op.Find(k)).1) && (pos != |Items()| <==> Step(Op.Find(k)).1.flag)
      ensures Step(Op.Find(k)).0 == Items()
      ensures pos != |Items()| ==> Items()[pos].0 == k
    {
      pos := 0;
      while pos < |keys| && keys[pos] != k
        invariant pos <= |keys|
        invariant forall i :: 0 <= i < pos ==> keys[i] != k
      {
        pos := pos + 1;
      }
      UnorderedSlotAt(Items(), k, pos);
    }

    method Insert(k: K, v: V) returns (pos: nat, inserted: bool)
      requires Valid()
      modifies this
      ensures Valid() && Items() == old(Step(Op.Insert(k, v))).0 && inserted == old(Step(Op.Insert(k, v))).1.flag
      ensures pos == old(UnorderedSlot(Items(), k)).pos && Shows(Items(), pos, old(Step(Op.Insert(k, v))).1)
    {
      UnorderedStepKeepsUnique(Items(), Op.Insert(k, v), dflt);
      pos := Find(k);
      if pos != |keys| {
        return pos, false;
      }
      assert InsertAt(Items(), |values|, (k, v)) == Items() + [(k, v)];
      keys := keys + [k];
      values := values + [v];
      return |keys| - 1, true;
    }

    method InsertOrAssign(k: K, v: V) returns (pos: nat, inserted: bool)
      requires Valid()
      modifies this
      ensures Valid() && Items() == old(Step(Op.InsertOrAssign(k, v))).0 && inserted == old(Step(Op.InsertOrAssign(k, v))).1.flag
      ensures pos == old(UnorderedSlot(Items(), k)).pos && Shows(Items(), pos, old(Step(Op.InsertOrAssign(k, v))).1)
    {
      UnorderedStepKeepsUnique(Items(), Op.InsertOrAssign(k, v), dflt);
      pos := Find(k);
      if pos != |keys| {
        values := values[pos := v];
        return pos, false;
      }
      pos, inserted := Emplace(k, v);
    }

    method Emplace(k: K, v: V) returns (pos: nat, inserted: bool)
      requires Valid()
      modifies this
      ensures Valid() && Items() == old(Step(Op.Emplace(k, v))).0 && inserted == old(Step(Op.Emplace(k, v))).1.flag
      ensures pos == old(UnorderedSlot(Items(), k)).pos && Shows(Items(), pos, old(Step(Op.Emplace(k, v))).1)
    {
      pos, inserted := Insert(k, v);
    }

    method TryEmplace(k: K, v: V) returns (pos: nat, inserted: bool)
      requires Valid()
      modifies this
      ensures Valid() && Items() == old(Step(Op.TryEmplace(k, v))).0 && inserted == old(Step(Op.TryEmplace(k, v))).1.flag
      ensures pos == old(UnorderedSlot(Items(), k)).pos && Shows(Items(), pos, old(Step(Op.TryEmplace(k, v))).1)
    {
      UnorderedStepKeepsUnique(Items(), Op.TryEmplace(k, v), dflt);
      pos := Find(k);
      if pos != |keys| {
        return pos, false;
      }
      pos, inserted := Emplace(k, v);
    }

    /** operator[]: the position of the value that the returned reference leads to. */
    method Subscript(k: K) returns (pos: nat)
      requires Valid()
      modifies this
      ensures Valid() && Items() == old(Step(Op.Subscript(k))).0
      ensures pos == old(UnorderedSlot(Items(), k)).pos && Shows(Items(), pos, old(Step(Op.Subscript(k))).1)
    {
      UnorderedStepKeepsUnique(Items(), Op.Subscript(k), dflt);
      pos := Find(k);
      if pos != |keys| {
        return pos;
      }
      var _, _ := Emplace(k, dflt);
      return |values| - 1;
    }

    /** Moves the last pair into the hole, unless the last pair is the one to go. */
    method EraseAt(i: nat)
      requires Valid() && i < |Items()|
      modifies this
      ensures Valid() && Items() == SwapRemove(old(Items()), i)
      ensures multiset(Items()) == multiset(old(Items())) - multiset{old(Items()[i])}
    {
      SwapRemoveConserves(Items(), i);
      if i != |keys| - 1 {
        keys := keys[i := keys[|keys| - 1]];
        values := values[i := values[|values| - 1]];
      }
      keys := keys[..|keys| - 1];
      values := values[..|values| - 1];
    }

    method Erase(k: K) returns (count: nat)
      requires Valid()
      modifies this
      ensures Valid() && Items() == old(Step(Op.Erase(k))).0
      ensures count == (if old(Step(Op.Erase(k))).1.flag then 1 else 0) && |Items()| == old(Step(Op.Erase(k))).1.size
    {
      var pos := Find(k);
      if pos != |keys| {
        EraseAt(pos);
        return 1;
      }
      return 0;
    }
  }
}
