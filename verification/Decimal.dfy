/** Decimal numerals: reading them on 32-bit words, and printing numbers. */
module Decimal {
  import opened Words
  import opened Positional

  predicate IsDigit(c: char) {
    '0' <= c <= '9'
  }

  function DigitOf(c: char): (d: nat)
    requires IsDigit(c)
    ensures d < 10
  {
    c as int - '0' as int
  }

  /** The ten digits, and what they stand for. */
  lemma DecimalDigits(c: char, i: nat)
    ensures IsDigit(c) <==> c in "0123456789"
    ensures i < 10 ==> IsDigit("0123456789"[i]) && DigitOf("0123456789"[i]) == i
  {
    if IsDigit(c) { assert 48 <= c as int <= 57; }
  }

  predicate AllDigits(s: string) {
    forall i :: 0 <= i < |s| ==> IsDigit(s[i])
  }

  function DigitsOf(s: string): (ds: seq<nat>)
    requires AllDigits(s)
    ensures |ds| == |s| && AllBelow(ds, 10)
    ensures forall i :: 0 <= i < |s| ==> ds[i] == DigitOf(s[i])
  {
    seq(|s|, i requires 0 <= i < |s| => DigitOf(s[i]))
  }

  /** The number that a decimal numeral denotes. */
  function DecimalValue(s: string): nat
    requires AllDigits(s)
  {
    Value(DigitsOf(s), 10)
  }

  /** Powers of ten, on a word that wraps from 10^10 on. */
  method Pow10(n: nat) returns (ret: Word)
    ensures ret == Wrap(Pow(10, n))
  {
    ret := 1;
    var left: nat := n;
    while left > 0
      invariant left <= n && ret == Wrap(Pow(10, n - left))
    {
      left := left - 1;
      WrapMul(Pow(10, n - left - 1), 10);
      ret := Wrap(ret * 10);
    }
  }

  /** Adding one digit's share leaves the remaining digits to be added. */
  lemma SumStep(acc: Word, ds: seq<nat>, i: nat, share: Word)
    requires i < |ds| && share == Wrap(ds[i] * Pow(10, |ds| - i - 1))
    ensures Wrap(Wrap(acc + share) + Value(ds[i + 1..], 10)) == Wrap(acc + Value(ds[i..], 10))
  {
    var tail := ds[i..];
    assert tail[0] == ds[i] && tail[1..] == ds[i + 1..] && |tail| - 1 == |ds| - i - 1;
    AddShare(acc, ds[i] * Pow(10, |ds| - i - 1), Value(ds[i + 1..], 10));
  }

  /** A digit times a power of ten, on a word. */
  method Share(c: char, n: nat) returns (share: Word)
    requires IsDigit(c)
    ensures share == Wrap(DigitOf(c) * Pow(10, n))
  {
    var p := Pow10(n);
    WrapMul(Pow(10, n), DigitOf(c));
    share := Wrap(DigitOf(c) * p);
  }

  lemma AddShare(acc: Word, share: nat, rest: nat)
    ensures Wrap(Wrap(acc + Wrap(share)) + rest) == Wrap(acc + (share + rest))
  {
    WrapAdd(share, acc);
    WrapAdd(acc + share, rest);
  }

  /**
    Sums digit times power of ten, both wrapping. The length is compared with a 32-bit counter.
    The result is the value modulo 2^32, and the value itself whenever that fits.
  */
  method Strntou(str: string) returns (ret: Word)
    requires AllDigits(str) && |str| < 0x1_0000_0000
    ensures ret == Wrap(DecimalValue(str))
    ensures DecimalValue(str) < 0x1_0000_0000 ==> ret == DecimalValue(str)
  {
    ghost var ds := DigitsOf(str);
    ret := 0;
    assert ds[0..] == ds;
    for i := 0 to |str|
      invariant Wrap(ret + Value(ds[i..], 10)) == Wrap(Value(ds, 10))
    {
      var share := Share(str[i], |str| - i - 1);
      SumStep(ret, ds, i, share);
      ret := Wrap(ret + share);
    }
    assert ds[|str|..] == [];
  }

  /** std::to_string of an unsigned number. */
  function ToDecimal(x: nat): (s: string)
    ensures |s| > 0
  {
    var ds := ShortDigits(x, 10);
    seq(|ds|, i requires 0 <= i < |ds| => ('0' as int + ds[i]) as char)
  }

  lemma ToDecimalRoundTrip(x: nat)
    ensures AllDigits(ToDecimal(x)) && DecimalValue(ToDecimal(x)) == x
    ensures |ToDecimal(x)| > 1 ==> ToDecimal(x)[0] != '0'
  {
    ShortDigitsShort(x, 10);
    assert DigitsOf(ToDecimal(x)) == ShortDigits(x, 10);
    ShortDigitsValue(x, 10);
  }
}
