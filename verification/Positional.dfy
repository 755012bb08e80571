/** Positional numerals in any base: the digit k places from the right weighs base^k. */
module Positional {

  function Pow(b: nat, n: nat): nat {
    if n == 0 then 1 else b * Pow(b, n - 1)
  }

  function Value(ds: seq<nat>, b: nat): nat {
    if ds == [] then 0 else ds[0] * Pow(b, |ds| - 1) + Value(ds[1..], b)
  }

  ghost predicate AllBelow(ds: seq<nat>, b: nat) {
    forall i :: 0 <= i < |ds| ==> ds[i] < b
  }

  lemma {:induction false} PowPositive(b: nat, n: nat)
    requires b > 0
    ensures Pow(b, n) > 0
  {
    if n > 0 { PowPositive(b, n - 1); }
  }

  lemma {:induction false} PowMonotone(b: nat, m: nat, n: nat)
    requires b > 0 && m <= n
    ensures Pow(b, m) <= Pow(b, n)
  {
    if m < n {
      PowMonotone(b, m, n - 1);
      PowPositive(b, n - 1);
      assert Pow(b, n) == b * Pow(b, n - 1) >= 1 * Pow(b, n - 1);
    }
  }

  /** One step of Horner's scheme. */
  lemma {:induction false} ValueSnoc(ds: seq<nat>, d: nat, b: nat)
    ensures Value(ds + [d], b) == Value(ds, b) * b + d
  {
    if ds == [] {
      assert [d][1..] == [];
    } else {
      var p := Pow(b, |ds| - 1);
      ValueSnoc(ds[1..], d, b);
      assert (ds + [d])[1..] == ds[1..] + [d];
      MulAssoc(ds[0], b, p);
      Distribute(ds[0] * p, Value(ds[1..], b), b);
    }
  }

  lemma MulAssoc(a: nat, b: nat, p: nat)
    ensures a * (b * p) == (a * p) * b
  {
  }

  lemma Distribute(x: nat, y: nat, b: nat)
    ensures (x + y) * b == x * b + y * b
  {
  }

  lemma {:induction false} ValueBound(ds: seq<nat>, b: nat)
    requires AllBelow(ds, b)
    ensures Value(ds, b) < Pow(b, |ds|)
  {
    if ds != [] {
      ValueBound(ds[1..], b);
      TopDigitFits(ds[0], b, Pow(b, |ds| - 1));
    }
  }

  lemma TopDigitFits(d: nat, b: nat, p: nat)
    requires d < b
    ensures d * p + p <= b * p
  {
    assert (d + 1) * p <= b * p;
  }

  lemma {:induction false} ValueLeadingZeros(n: nat, ds: seq<nat>, b: nat)
    ensures Value(seq(n, i => 0) + ds, b) == Value(ds, b)
  {
    var z := seq(n, i => 0) + ds;
    if n == 0 {
      assert z == ds;
    } else {
      ValueLeadingZeros(n - 1, ds, b);
      assert z[1..] == seq(n - 1, i => 0) + ds;
    }
  }

  /** Division with remainder by a positive base, by repeated subtraction. */
  function Quot(x: nat, b: nat): (q: nat)
    requires b > 0
    ensures q <= x
    ensures x >= b >= 2 ==> q < x
  {
    if x < b then 0 else 1 + Quot(x - b, b)
  }

  function Rem(x: nat, b: nat): (r: nat)
    requires b > 0
    ensures r < b
  {
    if x < b then x else Rem(x - b, b)
  }

  lemma {:induction false} QuotRem(x: nat, b: nat)
    requires b > 0
    ensures x == Quot(x, b) * b + Rem(x, b)
  {
    if x >= b {
      QuotRem(x - b, b);
      Distribute(1, Quot(x - b, b), b);
    }
  }

  lemma {:induction false} QuotRemUnique(b: nat, q: nat, r: nat)
    requires r < b
    ensures Quot(q * b + r, b) == q && Rem(q * b + r, b) == r
  {
    if q > 0 {
      QuotRemUnique(b, q - 1, r);
      Distribute(1, q - 1, b);
    }
  }

  /** The low `n` digits of `x`, most significant first. */
  function LowDigits(x: nat, b: nat, n: nat): (ds: seq<nat>)
    requires b > 0
    ensures |ds| == n && forall i :: 0 <= i < n ==> ds[i] < b
  {
    if n == 0 then [] else LowDigits(Quot(x, b), b, n - 1) + [Rem(x, b)]
  }

  lemma {:induction false} LowDigitsValue(x: nat, b: nat, n: nat)
    requires b > 0 && x < Pow(b, n)
    ensures Value(LowDigits(x, b, n), b) == x
  {
    if n > 0 {
      QuotRem(x, b);
      QuotBelow(Quot(x, b), b, Pow(b, n - 1));
      LowDigitsValue(Quot(x, b), b, n - 1);
      ValueSnoc(LowDigits(Quot(x, b), b, n - 1), Rem(x, b), b);
    }
  }

  lemma QuotBelow(q: nat, b: nat, p: nat)
    requires q * b < b * p
    ensures q < p
  {
    if q >= p {
      MulMonotone(p, q, b);
    }
  }

  lemma MulMonotone(p: nat, q: nat, b: nat)
    requires p <= q
    ensures b * p <= q * b
  {
  }

  lemma {:induction false} LowDigitsOfValue(ds: seq<nat>, b: nat)
    requires b > 0 && AllBelow(ds, b)
    ensures LowDigits(Value(ds, b), b, |ds|) == ds
  {
    if ds != [] {
      var init, d := ds[..|ds| - 1], ds[|ds| - 1];
      assert ds == init + [d];
      ValueSnoc(init, d, b);
      QuotRemUnique(b, Value(init, b), d);
      LowDigitsOfValue(init, b);
    }
  }

  /** The shortest numeral of `x`. */
  function ShortDigits(x: nat, b: nat): (ds: seq<nat>)
    requires b >= 2
    ensures |ds| > 0 && forall i :: 0 <= i < |ds| ==> ds[i] < b
  {
    if x < b then [x] else ShortDigits(Quot(x, b), b) + [Rem(x, b)]
  }

  lemma {:induction false} ShortDigitsValue(x: nat, b: nat)
    requires b >= 2
    ensures Value(ShortDigits(x, b), b) == x
  {
    if x < b {
      assert [x][1..] == [];
    } else {
      ShortDigitsValue(Quot(x, b), b);
      ValueSnoc(ShortDigits(Quot(x, b), b), Rem(x, b), b);
      QuotRem(x, b);
    }
  }

  /** The shortest numeral has no leading zero. */
  lemma {:induction false} ShortDigitsShort(x: nat, b: nat)
    requires b >= 2
    ensures x > 0 ==> ShortDigits(x, b)[0] > 0
    ensures x < b ==> |ShortDigits(x, b)| == 1
  {
    if x >= b {
      assert Quot(x, b) > 0;
      ShortDigitsShort(Quot(x, b), b);
    }
  }
}
