/** Bitwise operations on unsigned integers, bit by bit. */
module Bits {

  predicate Has(n: nat, bit: nat) { if bit == 0 then n % 2 == 1 else Has(n / 2, bit - 1) }

  /** `x & y`. */
  function And(x: nat, y: nat): nat
    decreases x
  {
    if x == 0 then 0 else 2 * And(x / 2, y / 2) + (if x % 2 == 1 && y % 2 == 1 then 1 else 0)
  }

  /** `x & ~y`. */
  function AndNot(x: nat, y: nat): nat
    decreases x
  {
    if x == 0 then 0 else 2 * AndNot(x / 2, y / 2) + (if x % 2 == 1 && y % 2 == 0 then 1 else 0)
  }

  /** `x | y`. */
  function Or(x: nat, y: nat): nat
    decreases x
  {
    if x == 0 then y else 2 * Or(x / 2, y / 2) + (if x % 2 == 1 || y % 2 == 1 then 1 else 0)
  }

  /** `1 << bit`. */
  function Power(bit: nat): (p: nat)
    ensures p > 0
  {
    if bit == 0 then 1 else 2 * Power(bit - 1)
  }

  lemma PowerOfSixteen(bits: nat)
    ensures Power(bits + 4) == 16 * Power(bits)
  {
    assert Power(bits + 4) == 2 * Power(bits + 3) == 4 * Power(bits + 2) == 8 * Power(bits + 1);
  }

  lemma {:induction false} HasZero(bit: nat)
    ensures !Has(0, bit)
  {
    if bit > 0 { HasZero(bit - 1); }
  }

  lemma {:induction false} HasPower(k: nat, bit: nat)
    ensures Has(Power(k), bit) <==> bit == k
  {
    if k == 0 {
      if bit > 0 { HasZero(bit - 1); }
    } else if bit > 0 {
      HasPower(k - 1, bit - 1);
    }
  }

  lemma {:induction false} HasAnd(x: nat, y: nat, bit: nat)
    ensures Has(And(x, y), bit) <==> Has(x, bit) && Has(y, bit)
    decreases bit
  {
    if x == 0 { HasZero(bit); }
    else if bit > 0 { HasAnd(x / 2, y / 2, bit - 1); }
  }

  lemma {:induction false} HasAndNot(x: nat, y: nat, bit: nat)
    ensures Has(AndNot(x, y), bit) <==> Has(x, bit) && !Has(y, bit)
    decreases bit
  {
    if x == 0 { HasZero(bit); }
    else if bit > 0 { HasAndNot(x / 2, y / 2, bit - 1); }
  }

  lemma {:induction false} HasOr(x: nat, y: nat, bit: nat)
    ensures Has(Or(x, y), bit) <==> Has(x, bit) || Has(y, bit)
    decreases bit
  {
    if x == 0 { HasZero(bit); }
    else if bit > 0 { HasOr(x / 2, y / 2, bit - 1); }
  }

  function Lowest(n: nat): nat
    requires n > 0
  {
    if n % 2 == 1 then 0 else 1 + Lowest(n / 2)
  }

  /** A number that is not zero has a bit; one that has a bit is not zero. */
  lemma {:induction false} HasLowest(n: nat)
    requires n > 0
    ensures Has(n, Lowest(n))
  {
    if n % 2 == 0 { HasLowest(n / 2); }
  }

  /** The number with exactly these bits. */
  function OrAll(bits: seq<nat>): nat { if bits == [] then 0 else Or(Power(bits[0]), OrAll(bits[1..])) }

  lemma {:induction false} HasOrAll(bits: seq<nat>, bit: nat)
    ensures Has(OrAll(bits), bit) <==> bit in bits
  {
    if bits == [] {
      HasZero(bit);
    } else {
      HasOr(Power(bits[0]), OrAll(bits[1..]), bit);
      HasPower(bits[0], bit);
      HasOrAll(bits[1..], bit);
    }
  }

  lemma HasNonzero(n: nat, bit: nat)
    requires Has(n, bit)
    ensures n != 0
  {
    HasZero(bit);
  }

  /** A number below a power of two has only bits below its exponent. */
  lemma {:induction false} HasBelow(n: nat, k: nat, bit: nat)
    requires n < Power(k) && Has(n, bit)
    ensures bit < k
  {
    if k == 0 {
      HasZero(bit);
      assert false;
    } else if bit > 0 {
      HasBelow(n / 2, k - 1, bit - 1);
    }
  }

  lemma {:induction false} OrBelow(x: nat, y: nat, k: nat)
    requires x < Power(k) && y < Power(k)
    ensures Or(x, y) < Power(k)
    decreases x, k
  {
    if x != 0 { OrBelow(x / 2, y / 2, k - 1); }
  }

  lemma {:induction false} PowerGrows(a: nat, b: nat)
    requires a <= b
    ensures Power(a) <= Power(b)
  {
    if a > 0 { PowerGrows(a - 1, b - 1); }
  }
}
