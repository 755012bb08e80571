/** Flag sets: a 32-bit word whose bit i stands for the i-th name of a table. */
module EnumSets {
  import opened Options
  import opened Bits

  /** Position of the first name equal to `s`, or the number of names. */
  function IndexOf(names: seq<string>, s: string): (i: nat)
    ensures i <= |names| && (i < |names| ==> names[i] == s)
    ensures forall j :: 0 <= j < i ==> names[j] != s
  {
    if names == [] || names[0] == s then 0
    else
      var i := IndexOf(names[1..], s);
      assert forall j :: 0 < j < |names| ==> names[j] == names[1..][j - 1];
      1 + i
  }

  /** The flag that a name stands for. */
  function FromString(names: seq<string>, s: string): Option<nat> {
    var i := IndexOf(names, s);
    if i < |names| then Some(Pow2(i)) else None
  }

  /** `x` fits in 32 bits. */
  predicate IsWord(x: nat) {
    x == 0 || HighBit(x) < 32
  }

  lemma Pow2EightMore(i: nat)
    ensures Pow2(i + 8) == 0x100 * Pow2(i)
  {
    assert Pow2(i + 2) == 4 * Pow2(i);
    assert Pow2(i + 4) == 4 * Pow2(i + 2);
    assert Pow2(i + 6) == 4 * Pow2(i + 4);
    assert Pow2(i + 8) == 4 * Pow2(i + 6);
  }

  lemma IsWordIff(x: nat)
    ensures IsWord(x) <==> x < 0x1_0000_0000
  {
    BelowPow2(x, 32);
    assert Pow2(0) == 1;
    Pow2EightMore(0);
    Pow2EightMore(8);
    Pow2EightMore(16);
    Pow2EightMore(24);
  }

  /** Leading zeros of a non-zero 32-bit word. */
  function Clz(x: nat): nat
    requires x > 0 && IsWord(x)
  {
    31 - HighBit(x)
  }

  /** The name of the highest flag of a non-empty set. */
  function ToString(names: seq<string>, e: nat): string
    requires |names| <= 32 && e > 0 && HighBit(e) < |names|
  {
    names[32 - Clz(e) - 1]
  }

  ghost predicate Distinct(names: seq<string>) {
    forall i, j :: 0 <= i < j < |names| ==> names[i] != names[j]
  }

  lemma HighBitOfPow2(i: nat)
    ensures HighBit(Pow2(i)) == i
  {
    HighBitIsHighest(Pow2(i));
    Pow2Bits(i, HighBit(Pow2(i)));
  }

  /** Printing a single flag and reading it back gives the flag. */
  lemma SingleFlagRoundTrip(names: seq<string>, i: nat)
    requires |names| <= 32 && Distinct(names) && i < |names|
    ensures HighBit(Pow2(i)) == i
    ensures ToString(names, Pow2(i)) == names[i]
    ensures FromString(names, ToString(names, Pow2(i))) == Some(Pow2(i))
  {
    HighBitOfPow2(i);
    IndexOfDistinct(names, i);
  }

  /** A set is named after its highest flag. */
  lemma ToStringIsHighest(names: seq<string>, e: nat, i: nat)
    requires |names| <= 32 && i < |names| && Bit(e, i) && forall j: nat :: j > i ==> !Bit(e, j)
    ensures e > 0 && HighBit(e) == i && ToString(names, e) == names[i]
  {
    if e == 0 { ZeroHasNoBits(i); }
    HighBitIsHighest(e);
  }

  lemma IndexOfDistinct(names: seq<string>, i: nat)
    requires Distinct(names) && i < |names|
    ensures IndexOf(names, names[i]) == i
  {
    var j := IndexOf(names, names[i]);
    if j < |names| { assert names[j] == names[i]; }
  }

  // ---------------------------------------------------------------- unions of flags

  /** flags |= v, for every v in turn, from the empty set. */
  function OrAll(fs: seq<nat>): nat {
    if fs == [] then 0 else BitOr(OrAll(fs[..|fs| - 1]), fs[|fs| - 1])
  }

  ghost predicate InSome(fs: seq<nat>, i: nat) {
    exists k :: 0 <= k < |fs| && Bit(fs[k], i)
  }

  lemma {:induction false} OrAllBits(fs: seq<nat>, i: nat)
    ensures Bit(OrAll(fs), i) <==> InSome(fs, i)
  {
    if fs == [] {
      ZeroHasNoBits(i);
    } else {
      var init, last := fs[..|fs| - 1], fs[|fs| - 1];
      OrAllBits(init, i);
      OrBits(OrAll(init), last, i);
      if InSome(fs, i) {
        var k :| 0 <= k < |fs| && Bit(fs[k], i);
        assert k < |init| ==> Bit(init[k], i);
      }
      if InSome(init, i) {
        var k :| 0 <= k < |init| && Bit(init[k], i);
        assert Bit(fs[k], i);
      }
    }
  }

  /** The union depends only on which flags occur, not on their order or multiplicity. */
  lemma OrAllOfSameFlags(fs: seq<nat>, gs: seq<nat>)
    requires forall f :: f in fs <==> f in gs
    ensures OrAll(fs) == OrAll(gs)
  {
    forall i: nat
      ensures Bit(OrAll(fs), i) <==> Bit(OrAll(gs), i)
    {
      OrAllBits(fs, i);
      OrAllBits(gs, i);
      if InSome(fs, i) {
        var k :| 0 <= k < |fs| && Bit(fs[k], i);
        assert fs[k] in gs;
      }
      if InSome(gs, i) {
        var k :| 0 <= k < |gs| && Bit(gs[k], i);
        assert gs[k] in fs;
      }
    }
    SameBitsEqual(OrAll(fs), OrAll(gs));
  }

  // ---------------------------------------------------------------- the iterator

  /** The flags that the iterator visits. */
  function FlagList(e: nat): seq<nat> {
    if e == 0 then []
    else
      HighBitIsHighest(e);
      [Pow2(HighBit(e))] + FlagList(e - Pow2(HighBit(e)))
  }

  class EnumSetIterator {
    var e: nat

    constructor (e: nat)
      requires IsWord(e)
      ensures this.e == e
    {
      this.e := e;
    }

    /** Clears the highest flag. The built-in that counts leading zeros is not defined at zero. */
    method Advance()
      requires e > 0 && IsWord(e)
      modifies this
      ensures IsWord(e) && e == old(e) - Pow2(HighBit(old(e)))
      ensures forall i: nat :: Bit(e, i) <==> Bit(old(e), i) && i != HighBit(old(e))
    {
      var hi1b := 32 - Clz(e) - 1;
      HighBitIsHighest(e);
      ClearBit(e, hi1b);
      forall i: nat
        ensures Bit(BitAndNot(e, Pow2(hi1b)), i) <==> Bit(e, i) && i != hi1b
      {
        AndNotBits(e, Pow2(hi1b), i);
        Pow2Bits(hi1b, i);
      }
      BelowPow2(e, hi1b + 1);
      BelowPow2(BitAndNot(e, Pow2(hi1b)), hi1b + 1);
      e := BitAndNot(e, Pow2(hi1b));
    }

    function Deref(): (f: nat)
      requires e > 0 && IsWord(e)
      reads this
      ensures f == Pow2(HighBit(e))
    {
      Pow2(32 - Clz(e) - 1)
    }
  }

  /** Runs the iterator to its end, which is the empty set. */
  method Enumerate(e: nat) returns (fs: seq<nat>)
    requires IsWord(e)
    ensures fs == FlagList(e)
  {
    fs := [];
    var it := new EnumSetIterator(e);
    while it.e != 0
      invariant fresh(it) && IsWord(it.e) && fs + FlagList(it.e) == FlagList(e)
      decreases it.e
    {
      HighBitIsHighest(it.e);
      ghost var rest := FlagList(it.e - Pow2(HighBit(it.e)));
      assert fs + ([Pow2(HighBit(it.e))] + rest) == (fs + [Pow2(HighBit(it.e))]) + rest;
      fs := fs + [it.Deref()];
      it.Advance();
    }
  }

  ghost predicate IsFlagOf(f: nat, e: nat) {
    exists i: nat :: f == Pow2(i) && Bit(e, i)
  }

  /** The iterator visits single flags in strictly decreasing order, and their union is the set. */
  lemma FlagListCorrect(e: nat)
    ensures OrAll(FlagList(e)) == e
    ensures forall k :: 0 <= k < |FlagList(e)| ==> IsFlagOf(FlagList(e)[k], e)
    ensures forall j, k :: 0 <= j < k < |FlagList(e)| ==> FlagList(e)[j] > FlagList(e)[k]
  {
    FlagListUnion(e);
    FlagListSingles(e);
    FlagListDecreases(e);
  }

  /** A non-empty set is its highest flag and the rest. */
  lemma HighestAndRest(e: nat)
    requires e > 0
    ensures Pow2(HighBit(e)) <= e && BitOr(Pow2(HighBit(e)), e - Pow2(HighBit(e))) == e
    ensures forall i: nat :: Bit(e - Pow2(HighBit(e)), i) ==> Bit(e, i)
  {
    var h := HighBit(e);
    HighBitIsHighest(e);
    ClearBit(e, h);
    forall i: nat
      ensures Bit(BitOr(Pow2(h), BitAndNot(e, Pow2(h))), i) <==> Bit(e, i)
      ensures Bit(BitAndNot(e, Pow2(h)), i) ==> Bit(e, i)
    {
      OrBits(Pow2(h), BitAndNot(e, Pow2(h)), i);
      AndNotBits(e, Pow2(h), i);
      Pow2Bits(h, i);
    }
    SameBitsEqual(BitOr(Pow2(h), BitAndNot(e, Pow2(h))), e);
  }

  lemma {:induction false} FlagListUnion(e: nat)
    ensures OrAll(FlagList(e)) == e
    decreases e
  {
    if e > 0 {
      HighestAndRest(e);
      FlagListUnion(e - Pow2(HighBit(e)));
      OrOfCons(Pow2(HighBit(e)), FlagList(e - Pow2(HighBit(e))));
    }
  }

  lemma {:induction false} FlagListSingles(e: nat)
    ensures forall k :: 0 <= k < |FlagList(e)| ==> IsFlagOf(FlagList(e)[k], e)
    decreases e
  {
    if e > 0 {
      var rest := e - Pow2(HighBit(e));
      HighestAndRest(e);
      HighBitIsHighest(e);
      FlagListSingles(rest);
      forall f | IsFlagOf(f, rest)
        ensures IsFlagOf(f, e)
      {
        var i: nat :| f == Pow2(i) && Bit(rest, i);
        assert Bit(e, i);
      }
      assert IsFlagOf(Pow2(HighBit(e)), e);
    }
  }

  lemma {:induction false} FlagListDecreases(e: nat)
    ensures forall j, k :: 0 <= j < k < |FlagList(e)| ==> FlagList(e)[j] > FlagList(e)[k]
    decreases e
  {
    if e > 0 {
      HighBitIsHighest(e);
      FlagListDecreases(e - Pow2(HighBit(e)));
      FlagsBelow(e - Pow2(HighBit(e)), Pow2(HighBit(e)));
    }
  }

  lemma {:induction false} FlagsBelow(e: nat, bound: nat)
    requires e < bound
    ensures forall k :: 0 <= k < |FlagList(e)| ==> FlagList(e)[k] < bound
    decreases e
  {
    if e > 0 {
      HighBitIsHighest(e);
      FlagsBelow(e - Pow2(HighBit(e)), bound);
    }
  }

  lemma InSomeOfCons(f: nat, fs: seq<nat>, i: nat)
    ensures InSome([f] + fs, i) <==> Bit(f, i) || InSome(fs, i)
  {
    var gs := [f] + fs;
    assert gs[0] == f;
    if InSome(gs, i) {
      var k :| 0 <= k < |gs| && Bit(gs[k], i);
      if k > 0 { assert gs[k] == fs[k - 1]; }
    }
    if InSome(fs, i) {
      var k :| 0 <= k < |fs| && Bit(fs[k], i);
      assert gs[k + 1] == fs[k];
    }
  }

  lemma OrOfCons(f: nat, fs: seq<nat>)
    ensures OrAll([f] + fs) == BitOr(f, OrAll(fs))
  {
    var gs, rest := [f] + fs, OrAll(fs);
    forall i: nat
      ensures Bit(OrAll(gs), i) <==> Bit(BitOr(f, rest), i)
    {
      OrAllBits(gs, i);
      OrAllBits(fs, i);
      OrBits(f, rest, i);
      InSomeOfCons(f, fs, i);
    }
    SameBitsEqual(OrAll(gs), BitOr(f, rest));
  }
}
