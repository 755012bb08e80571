/** Arithmetic on 32-bit unsigned words. */
module Words {

  type Word = x: int | 0 <= x < 0x1_0000_0000

  /** The word that an unsigned result is reduced to. */
  function Wrap(x: nat): Word {
    x % 0x1_0000_0000
  }

  lemma WrapAddMultiple(x: nat, k: nat)
    ensures Wrap(x + 0x1_0000_0000 * k) == Wrap(x)
  {
  }

  lemma WrapAdd(x: nat, y: nat)
    ensures Wrap(Wrap(x) + y) == Wrap(x + y)
    ensures Wrap(x + Wrap(y)) == Wrap(x + y)
  {
    WrapAddMultiple(Wrap(x) + y, x / 0x1_0000_0000);
    WrapAddMultiple(x + Wrap(y), y / 0x1_0000_0000);
  }

  lemma WrapMul(x: nat, y: nat)
    ensures Wrap(Wrap(x) * y) == Wrap(x * y)
    ensures Wrap(y * Wrap(x)) == Wrap(y * x)
  {
    var q, r := x / 0x1_0000_0000, Wrap(x);
    assert (q * 0x1_0000_0000 + r) * y == 0x1_0000_0000 * (q * y) + r * y;
    WrapAddMultiple(r * y, q * y);
  }
}
