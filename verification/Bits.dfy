/** Bit operations of C's unsigned integers on natural numbers, bit by bit. */
module Bits {

  function Pow2(n: nat): (p: nat)
    ensures p >= 1
  {
    if n == 0 then 1 else 2 * Pow2(n - 1)
  }

  predicate Bit(x: nat, i: nat) {
    if i == 0 then x % 2 == 1 else Bit(x / 2, i - 1)
  }

  function And(x: nat, y: nat): nat {
    if x == 0 || y == 0 then 0 else 2 * And(x / 2, y / 2) + if x % 2 == 1 && y % 2 == 1 then 1 else 0
  }

  function Or(x: nat, y: nat): nat
    decreases x + y
  {
    if x == 0 && y == 0 then 0 else 2 * Or(x / 2, y / 2) + if x % 2 == 1 || y % 2 == 1 then 1 else 0
  }

  function Xor(x: nat, y: nat): nat
    decreases x + y
  {
    if x == 0 && y == 0 then 0 else 2 * Xor(x / 2, y / 2) + if x % 2 != y % 2 then 1 else 0
  }

  function Shr(x: nat, s: nat): (y: nat)
    ensures y <= x
  {
    if s == 0 then x else Shr(x / 2, s - 1)
  }

  function Shl(x: nat, s: nat): nat {
    if s == 0 then x else 2 * Shl(x, s - 1)
  }

  lemma {:induction false} BitOfZero(i: nat)
    ensures !Bit(0, i)
  {
    if i > 0 { BitOfZero(i - 1); }
  }

  lemma {:induction false} BitOfAnd(x: nat, y: nat, i: nat)
    ensures Bit(And(x, y), i) <==> Bit(x, i) && Bit(y, i)
  {
    if x == 0 || y == 0 { BitOfZero(i); }
    else if i > 0 { BitOfAnd(x / 2, y / 2, i - 1); }
  }

  lemma {:induction false} BitOfOr(x: nat, y: nat, i: nat)
    ensures Bit(Or(x, y), i) <==> Bit(x, i) || Bit(y, i)
    decreases i
  {
    if x == 0 && y == 0 { BitOfZero(i); }
    else if i > 0 { BitOfOr(x / 2, y / 2, i - 1); }
  }

  lemma {:induction false} BitOfXor(x: nat, y: nat, i: nat)
    ensures Bit(Xor(x, y), i) <==> Bit(x, i) != Bit(y, i)
    decreases i
  {
    if x == 0 && y == 0 { BitOfZero(i); }
    else if i > 0 { BitOfXor(x / 2, y / 2, i - 1); }
  }

  lemma {:induction false} BitOfShr(x: nat, s: nat, i: nat)
    ensures Bit(Shr(x, s), i) <==> Bit(x, s + i)
  {
    if s > 0 { BitOfShr(x / 2, s - 1, i); }
  }

  lemma {:induction false} BitOfShl(x: nat, s: nat, i: nat)
    ensures Bit(Shl(x, s), i) <==> s <= i && Bit(x, i - s)
  {
    if s > 0 && i > 0 { BitOfShl(x, s - 1, i - 1); }
  }

  /** Two bit fields side by side. */
  lemma {:induction false} BitOfSum(high: nat, low: nat, n: nat, i: nat)
    requires low < Pow2(n)
    ensures Bit(Shl(high, n) + low, i) <==> if i < n then Bit(low, i) else Bit(high, i - n)
  {
    if n > 0 {
      assert (2 * Shl(high, n - 1) + low) / 2 == Shl(high, n - 1) + low / 2;
      assert (2 * Shl(high, n - 1) + low) % 2 == low % 2;
      if i > 0 { BitOfSum(high, low / 2, n - 1, i - 1); }
    }
  }

  /** Two numbers with the same bits are the same number. */
  lemma {:induction false} SameBits(x: nat, y: nat)
    requires forall i: nat :: Bit(x, i) == Bit(y, i)
    ensures x == y
    decreases x + y
  {
    assert Bit(x, 0) == Bit(y, 0);
    if x > 0 || y > 0 {
      forall i: nat ensures Bit(x / 2, i) == Bit(y / 2, i) {
        assert Bit(x, i + 1) == Bit(y, i + 1);
      }
      SameBits(x / 2, y / 2);
    }
  }

  lemma {:induction false} NoHighBits(x: nat, n: nat, i: nat)
    requires x < Pow2(n) && n <= i
    ensures !Bit(x, i)
  {
    if n == 0 { BitOfZero(i); } else { NoHighBits(x / 2, n - 1, i - 1); }
  }

  lemma {:induction false} Below(x: nat, n: nat)
    requires forall i: nat :: n <= i ==> !Bit(x, i)
    ensures x < Pow2(n)
    decreases x, n
  {
    if n == 0 {
      forall i: nat ensures Bit(x, i) == Bit(0, i) { BitOfZero(i); }
      SameBits(x, 0);
    } else if x > 0 {
      forall i: nat | n - 1 <= i ensures !Bit(x / 2, i) { assert !Bit(x, i + 1); }
      Below(x / 2, n - 1);
    }
  }

  /** The number with exactly the n lowest bits set. */
  lemma {:induction false} BitOfMask(n: nat, i: nat)
    ensures Bit(Pow2(n) - 1, i) <==> i < n
  {
    if n == 0 { BitOfZero(i); }
    else if i > 0 {
      assert (Pow2(n) - 1) / 2 == Pow2(n - 1) - 1;
      BitOfMask(n - 1, i - 1);
    }
  }

  lemma {:induction false} ShlOne(s: nat)
    ensures Shl(1, s) == Pow2(s)
  {
    if s > 0 { ShlOne(s - 1); }
  }

  /** A single bit. */
  lemma BitOfPow2(t: nat, i: nat)
    ensures Bit(Pow2(t), i) <==> i == t
  {
    ShlOne(t);
    BitOfShl(1, t, i);
    if t < i { BitOfZero(i - t - 1); }
  }

  lemma {:induction false} Pow2Monotone(a: nat, b: nat)
    requires a <= b
    ensures Pow2(a) <= Pow2(b)
  {
    if a < b { Pow2Monotone(a, b - 1); }
  }

  lemma XorBelow(x: nat, y: nat, n: nat)
    requires x < Pow2(n) && y < Pow2(n)
    ensures Xor(x, y) < Pow2(n)
  {
    forall i: nat | n <= i ensures !Bit(Xor(x, y), i) {
      BitOfXor(x, y, i);
      NoHighBits(x, n, i);
      NoHighBits(y, n, i);
    }
    Below(Xor(x, y), n);
  }

  lemma OrBelow(x: nat, y: nat, n: nat)
    requires x < Pow2(n) && y < Pow2(n)
    ensures Or(x, y) < Pow2(n)
  {
    forall i: nat | n <= i ensures !Bit(Or(x, y), i) {
      BitOfOr(x, y, i);
      NoHighBits(x, n, i);
      NoHighBits(y, n, i);
    }
    Below(Or(x, y), n);
  }

  /** The n lowest bits of a number. */
  lemma {:induction false} BitOfMod(x: nat, n: nat, i: nat)
    ensures Bit(x % Pow2(n), i) <==> i < n && Bit(x, i)
  {
    if n == 0 { BitOfZero(i); }
    else {
      HalfOfMod(x, n);
      if i > 0 { BitOfMod(x / 2, n - 1, i - 1); }
    }
  }

  lemma HalfOfMod(x: nat, n: nat)
    requires n > 0
    ensures x % Pow2(n) / 2 == x / 2 % Pow2(n - 1) && x % Pow2(n) % 2 == x % 2
  {
    var p := Pow2(n - 1);
    var q, r := x / 2 / p, x / 2 % p;
    assert x / 2 == q * p + r;
    assert x == q * (2 * p) + (2 * r + x % 2);
    ModIs(x, 2 * p, q, 2 * r + x % 2);
  }

  lemma ModIs(x: nat, d: nat, q: nat, r: nat)
    requires r < d && x == q * d + r
    ensures x % d == r
  {
    var q', r' := x / d, x % d;
    assert x == q' * d + r';
    assert (q' - q) * d == q' * d - q * d == r - r';
    if q' > q { AtLeastOnce(q' - q, d); } else if q' < q { AtLeastOnce(q - q', d); }
  }

  lemma AtLeastOnce(k: nat, d: nat)
    requires k >= 1
    ensures k * d >= d
  {
    assert k * d == (k - 1) * d + d;
  }

  lemma {:induction false} ShrIsQuotient(x: nat, s: nat)
    ensures Shr(x, s) == x / Pow2(s)
  {
    if s > 0 {
      ShrIsQuotient(x / 2, s - 1);
      Halved(x, Pow2(s - 1));
    }
  }

  lemma Halved(x: nat, d: nat)
    requires d > 0
    ensures x / 2 / d == x / (2 * d)
  {
    var q, r := x / 2 / d, x / 2 % d;
    assert x / 2 == q * d + r;
    assert x == q * (2 * d) + (2 * r + x % 2);
    ModIs(x, 2 * d, q, 2 * r + x % 2);
    assert x == x / (2 * d) * (2 * d) + x % (2 * d);
    assert (q - x / (2 * d)) * (2 * d) == 0;
  }

  /** Fields that do not overlap may be added as well. */
  lemma XorDisjoint(high: nat, low: nat, n: nat)
    requires low < Pow2(n)
    ensures Xor(Shl(high, n), low) == Shl(high, n) + low
  {
    forall i: nat ensures Bit(Xor(Shl(high, n), low), i) == Bit(Shl(high, n) + low, i) {
      BitOfXor(Shl(high, n), low, i);
      BitOfShl(high, n, i);
      BitOfSum(high, low, n, i);
      if n <= i { NoHighBits(low, n, i); }
    }
    SameBits(Xor(Shl(high, n), low), Shl(high, n) + low);
  }

  lemma {:induction false} ShlIsProduct(x: nat, s: nat)
    ensures Shl(x, s) == x * Pow2(s)
  {
    if s > 0 {
      ShlIsProduct(x, s - 1);
      assert x * (2 * Pow2(s - 1)) == 2 * (x * Pow2(s - 1));
    }
  }
}
