/** One known value of MurmurHash3_x86_32, step by step: the five octets "hello" with the seed 0.  A wrong constant,
    rotation or octet order anywhere would show here. */
module MurmurExample {
  import opened Bits
  import opened Murmur

  // ---------- Working out the operations ----------

  /** Exclusive or of two hexadecimal digits, by arithmetic. */
  function XorDigit(x: nat, y: nat): nat {
    (if x / 8 != y / 8 then 8 else 0) + (if x / 4 % 2 != y / 4 % 2 then 4 else 0)
    + (if x / 2 % 2 != y / 2 % 2 then 2 else 0) + (if x % 2 != y % 2 then 1 else 0)
  }

  function Rest(x: nat, p: nat): nat
    requires p > 0
  {
    x % p
  }

  lemma XorSplits(x: nat, y: nat, n: nat, p: nat, z: nat, high: nat, low: nat)
    requires p == Pow2(n) && z == Xor(x, y) && high == Xor(Shr(x, n), Shr(y, n)) && low == Xor(Rest(x, p), Rest(y, p))
    ensures z == p * high + low
  {
    XorBelow(Rest(x, p), Rest(y, p), n);
    ShlIsProduct(high, n);
    forall i: nat ensures Bit(z, i) == Bit(Shl(high, n) + low, i) { XorSplitsAt(x, y, n, p, high, low, i); }
    SameBits(z, Shl(high, n) + low);
  }

  lemma XorSplitsAt(x: nat, y: nat, n: nat, p: nat, high: nat, low: nat, i: nat)
    requires p == Pow2(n) && high == Xor(Shr(x, n), Shr(y, n)) && low == Xor(Rest(x, p), Rest(y, p)) && low < p
    ensures Bit(Xor(x, y), i) == Bit(Shl(high, n) + low, i)
  {
    BitOfXor(x, y, i);
    BitOfSum(high, low, n, i);
    if i < n {
      BitOfXor(Rest(x, p), Rest(y, p), i);
      BitOfMod(x, n, i);
      BitOfMod(y, n, i);
    } else {
      BitOfXor(Shr(x, n), Shr(y, n), i - n);
      BitOfShr(x, n, i - n);
      BitOfShr(y, n, i - n);
    }
  }

  lemma XorOfBits(x: nat, y: nat, z: nat)
    requires x < 2 && y < 2 && z == Xor(x, y)
    ensures z == if x != y then 1 else 0
  {
    assert Xor(0, 0) == 0;
  }

  lemma XorOfPairs(x: nat, y: nat, z: nat)
    requires x < 4 && y < 4 && z == Xor(x, y)
    ensures z == (if x / 2 != y / 2 then 2 else 0) + (if x % 2 != y % 2 then 1 else 0)
  {
    var high, low := Xor(x / 2, y / 2), Xor(x % 2, y % 2);
    ShrIsQuotient(x, 1);
    ShrIsQuotient(y, 1);
    XorSplits(x, y, 1, 2, z, high, low);
    XorOfBits(x / 2, y / 2, high);
    XorOfBits(x % 2, y % 2, low);
  }

  lemma XorOfDigits(x: nat, y: nat, z: nat)
    requires x < 0x10 && y < 0x10 && z == Xor(x, y)
    ensures z == XorDigit(x, y)
  {
    var high, low := Xor(x / 4, y / 4), Xor(x % 4, y % 4);
    assert Pow2(2) == 4;
    ShrIsQuotient(x, 2);
    ShrIsQuotient(y, 2);
    XorSplits(x, y, 2, 4, z, high, low);
    XorOfPairs(x / 4, y / 4, high);
    XorOfPairs(x % 4, y % 4, low);
    Quarters(x);
    Quarters(y);
  }

  lemma Quarters(x: nat)
    requires x < 0x10
    ensures x / 4 / 2 == x / 8 && x % 4 / 2 == x / 2 % 2 && x % 4 % 2 == x % 2
  {
  }

  /** One digit more. */
  lemma XorOfMore(x: nat, y: nat, z: nat, x0: nat, y0: nat)
    requires z == Xor(x, y) && x0 < 0x10 && y0 < 0x10
    ensures Xor(0x10 * x + x0, 0x10 * y + y0) == 0x10 * z + XorDigit(x0, y0)
  {
    var a, b := 0x10 * x + x0, 0x10 * y + y0;
    assert a / 0x10 == x && a % 0x10 == x0 && b / 0x10 == y && b % 0x10 == y0;
    assert Pow2(4) == 0x10;
    ShrIsQuotient(a, 4);
    ShrIsQuotient(b, 4);
    XorSplits(a, b, 4, 0x10, Xor(a, b), z, Xor(x0, y0));
    XorOfDigits(x0, y0, Xor(x0, y0));
  }

  /** A rotation moves the upper part down and the lower part up. */
  lemma RotlByParts(x: Word, r: nat, up: nat, down: nat)
    requires 0 < r < 32 && up == Pow2(r) && down == Pow2(32 - r)
    ensures Rotl(x, r) == up * (x % down) + x / down
  {
    var high, low := x % down, x / down;
    LimitIsPow2();
    Pow2Sum(r, 32 - r);
    Quotient(x, up, down);
    ShlIsProduct(high, r);
    ShrIsQuotient(x, 32 - r);
    forall i: nat ensures Bit(Rotl(x, r), i) == Bit(Shl(high, r) + low, i) {
      BitOfRotl(x, r, i);
      BitOfSum(high, low, r, i);
      BitOfShr(x, 32 - r, i);
      if i >= r { BitOfMod(x, 32 - r, i - r); }
    }
    SameBits(Rotl(x, r), Shl(high, r) + low);
  }

  lemma {:induction false} Pow2Sum(a: nat, b: nat)
    ensures Pow2(a) * Pow2(b) == Pow2(a + b)
  {
    if a > 0 {
      Pow2Sum(a - 1, b);
      assert 2 * Pow2(a - 1) * Pow2(b) == 2 * (Pow2(a - 1) * Pow2(b));
    }
  }

  lemma Quotient(x: nat, p: nat, q: nat)
    requires q > 0 && x < p * q
    ensures x / q < p
  {
    var d := x / q;
    assert d * q <= x;
    if d >= p { AtLeast(d, p, q); }
  }

  lemma AtLeast(d: nat, p: nat, q: nat)
    requires d >= p
    ensures d * q >= p * q
  {
    assert d * q - p * q == (d - p) * q;
  }

  // ---------- The hash of five octets, worked out ----------

  function TimesBy(x: nat, c: nat): nat { x * c % 0x1_0000_0000 }

  function ScrambleBy(k: nat): nat {
    var a := TimesBy(k, 0xcc9e2d51);
    TimesBy(0x8000 * (a % 0x2_0000) + a / 0x2_0000, 0x1b873593)
  }

  lemma ScrambleIs(k: Word)
    ensures Scramble(k) == ScrambleBy(k)
  {
    var a := Times(k, C1);
    assert Pow2(15) == 0x8000 by { assert Pow2(8) == 0x100; }
    assert Pow2(17) == 0x2_0000 by { assert Pow2(16) == 2 * Pow2(15); }
    RotlByParts(a, 15, 0x8000, 0x2_0000);
  }

  function MixBy(h: nat, c: nat): nat {
    var x := Xor(h, c);
    (TimesBy(0x2000 * (x % 0x8_0000) + x / 0x8_0000, 5) + 0xe6546b64) % 0x1_0000_0000
  }

  lemma MixIs(h: Word, k: Word)
    ensures Mix(h, k) == MixBy(h, ScrambleBy(k))
  {
    ScrambleIs(k);
    MixOfWord(h, k, Xor32(h, Scramble(k)));
  }

  lemma MixOfWord(h: Word, k: Word, x: Word)
    requires x == Xor32(h, Scramble(k))
    ensures Mix(h, k) == (TimesBy(0x2000 * (x % 0x8_0000) + x / 0x8_0000, 5) + 0xe6546b64) % 0x1_0000_0000
  {
    TurnsBy13(x, 0x2000 * (x % 0x8_0000) + x / 0x8_0000);
  }

  lemma TurnsBy13(x: Word, y: nat)
    requires y == 0x2000 * (x % 0x8_0000) + x / 0x8_0000
    ensures Rotl(x, 13) == y
  {
    ShiftsArePow2();
    assert Pow2(17) == 2 * Pow2(16) && Pow2(18) == 2 * Pow2(17) && Pow2(19) == 2 * Pow2(18);
    RotlByParts(x, 13, 0x2000, 0x8_0000);
  }

  function FmixBy(h: nat): nat {
    var b := TimesBy(Xor(h, h / 0x1_0000), 0x85ebca6b);
    var d := TimesBy(Xor(b, b / 0x2000), 0xc2b2ae35);
    Xor(d, d / 0x1_0000)
  }

  lemma FmixIs(h: Word)
    ensures Fmix(h) == FmixBy(h)
  {
    var a := Fold16(h);
    var b := Times(a, F1);
    var c := Fold13(b);
    var d := Times(c, F2);
    FmixOfParts(h, a, b, c, d, Fold16(d));
  }

  lemma FmixOfParts(h: nat, a: nat, b: nat, c: nat, d: nat, r: nat)
    requires a == Xor(h, h / 0x1_0000) && b == TimesBy(a, 0x85ebca6b)
    requires c == Xor(b, b / 0x2000) && d == TimesBy(c, 0xc2b2ae35) && r == Xor(d, d / 0x1_0000)
    ensures FmixBy(h) == r
  {
  }

  /** One word and one octet, then the length. */
  function HashBy(word: nat, octet: nat, seed: nat): nat {
    FmixBy(Xor(Xor(MixBy(seed, ScrambleBy(word)), ScrambleBy(octet)), 5))
  }

  lemma TailOfFive(key: Key)
    requires |key| == 5
    ensures Tail(key) != [] && TailWord(Tail(key)) == key[4]
  {
    assert Tail(key) == [key[4]];
    TailWordIs(Tail(key));
  }

  lemma FinishIs(key: Key, h: Word)
    requires |key| == 5
    ensures Finish(key, h) == FmixBy(Xor(Xor(h, ScrambleBy(key[4])), 5))
  {
    TailOfFive(key);
    ScrambleIs(key[4]);
    var x := Xor32(h, Scramble(key[4]));
    FmixIs(Xor32(x, 5));
  }

  lemma HashOfFive(key: Key, seed: Word, word: nat)
    requires |key| == 5 && word == WordAt(key, 0)
    ensures Hash(key, seed) == HashBy(word, key[4], seed)
  {
    MixIs(seed, word);
    assert Body(key, seed, 0, 1) == Mix(Body(key, seed, 0, 0), word);
    FinishIs(key, Body(key, seed, 0, 1));
  }

  // ---------- The example ----------

  // The quantifiers over one value keep the verifier from working the functions out where only their values
  // are wanted.

  ghost predicate IsXor(x: nat, y: nat, z: nat) {
    forall v {:trigger Xor(v, y)} :: v == x ==> Xor(v, y) == z
  }

  ghost predicate IsDigit(x: nat, y: nat, z: nat) {
    forall v {:trigger XorDigit(v, y)} :: v == x ==> XorDigit(v, y) == z
  }

  ghost predicate IsScramble(k: nat, c: nat) {
    forall v {:trigger ScrambleBy(v)} :: v == k ==> ScrambleBy(v) == c
  }

  ghost predicate IsMix(h: nat, c: nat, r: nat) {
    forall v {:trigger MixBy(v, c)} :: v == h ==> MixBy(v, c) == r
  }

  ghost predicate IsFmix(h: nat, r: nat) {
    forall v {:trigger FmixBy(v)} :: v == h ==> FmixBy(v) == r
  }

  lemma Scrambled(k: nat, a: nat, b: nat, c: nat)
    requires a == k * 0xcc9e2d51 % 0x1_0000_0000
    requires b == 0x8000 * (a % 0x2_0000) + a / 0x2_0000
    requires c == b * 0x1b873593 % 0x1_0000_0000
    ensures IsScramble(k, c)
  {
    assert ScrambleBy(k) == c;
  }

  lemma Mixed(h: nat, c: nat, x: nat, y: nat, r: nat)
    requires IsXor(h, c, x) && y == 0x2000 * (x % 0x8_0000) + x / 0x8_0000
    requires r == (y * 5 % 0x1_0000_0000 + 0xe6546b64) % 0x1_0000_0000
    ensures IsMix(h, c, r)
  {
    assert Xor(h, c) == x;
    MixOfParts(h, c, x, y);
  }

  lemma MixOfParts(h: nat, c: nat, x: nat, y: nat)
    requires x == Xor(h, c) && y == 0x2000 * (x % 0x8_0000) + x / 0x8_0000
    ensures MixBy(h, c) == (TimesBy(y, 5) + 0xe6546b64) % 0x1_0000_0000
  {
  }

  lemma FinallyMixed(h: nat, h': nat, a: nat, b: nat, b': nat, c: nat, d: nat, d': nat, r: nat)
    requires h' == h / 0x1_0000 && IsXor(h, h', a) && b == a * 0x85ebca6b % 0x1_0000_0000
    requires b' == b / 0x2000 && IsXor(b, b', c) && d == c * 0xc2b2ae35 % 0x1_0000_0000
    requires d' == d / 0x1_0000 && IsXor(d, d', r)
    ensures IsFmix(h, r)
  {
    assert Xor(h, h') == a && Xor(b, b') == c && Xor(d, d') == r;
    FmixOfParts(h, a, b, c, d, r);
  }

  lemma HashOfParts(word: nat, octet: nat, seed: nat, v: nat, h: nat, w: nat, x: nat, y: nat, r: nat)
    requires IsScramble(word, v) && IsMix(seed, v, h) && IsScramble(octet, w) && IsXor(h, w, x) && IsXor(x, 5, y)
    requires IsFmix(y, r)
    ensures HashBy(word, octet, seed) == r
  {
    assert ScrambleBy(word) == v && MixBy(seed, v) == h && ScrambleBy(octet) == w;
    assert Xor(h, w) == x && Xor(x, 5) == y && FmixBy(y) == r;
  }

  lemma Nothing()
    ensures IsXor(0, 0, 0)
  {
    assert Xor(0, 0) == 0;
  }

  lemma More(x: nat, y: nat, z: nat, x0: nat, y0: nat, z0: nat, x': nat, y': nat, z': nat)
    requires x' == 0x10 * x + x0 && y' == 0x10 * y + y0 && z' == 0x10 * z + z0
    requires IsXor(x, y, z) && x0 < 0x10 && y0 < 0x10 && IsDigit(x0, y0, z0)
    ensures IsXor(x', y', z')
  {
    assert Xor(x, y) == z && XorDigit(x0, y0) == z0;
    XorOfMore(x, y, z, x0, y0);
  }

  lemma FirstDigits()
    ensures IsDigit(0, 10, 10) && IsDigit(0, 0, 0) && IsDigit(0, 14, 14) && IsDigit(0, 7, 7)
    ensures IsDigit(0, 4, 4) && IsDigit(0, 6, 6) && IsDigit(0, 5, 5)
  {
    assert XorDigit(0, 10) == 10;
    assert XorDigit(0, 0) == 0;
    assert XorDigit(0, 14) == 14;
    assert XorDigit(0, 7) == 7;
    assert XorDigit(0, 4) == 4;
    assert XorDigit(0, 6) == 6;
    assert XorDigit(0, 5) == 5;
  }

  lemma FirstXor()
    ensures IsXor(0, 0xa0ae7465, 0xa0ae7465)
  {
    Nothing();
    FirstDigits();
    More(0x0, 0x0, 0x0, 0, 10, 10, 0x0, 0xa, 0xa);
    More(0x0, 0xa, 0xa, 0, 0, 0, 0x0, 0xa0, 0xa0);
    More(0x0, 0xa0, 0xa0, 0, 10, 10, 0x0, 0xa0a, 0xa0a);
    More(0x0, 0xa0a, 0xa0a, 0, 14, 14, 0x0, 0xa0ae, 0xa0ae);
    More(0x0, 0xa0ae, 0xa0ae, 0, 7, 7, 0x0, 0xa0ae7, 0xa0ae7);
    More(0x0, 0xa0ae7, 0xa0ae7, 0, 4, 4, 0x0, 0xa0ae74, 0xa0ae74);
    More(0x0, 0xa0ae74, 0xa0ae74, 0, 6, 6, 0x0, 0xa0ae746, 0xa0ae746);
    More(0x0, 0xa0ae746, 0xa0ae746, 0, 5, 5, 0x0, 0xa0ae7465, 0xa0ae7465);
  }

  lemma SecondDigits()
    ensures IsDigit(14, 7, 9) && IsDigit(15, 3, 12) && IsDigit(1, 11, 10) && IsDigit(3, 12, 15)
    ensures IsDigit(14, 13, 3) && IsDigit(15, 0, 15) && IsDigit(12, 7, 11) && IsDigit(13, 14, 3)
  {
    assert XorDigit(14, 7) == 9;
    assert XorDigit(15, 3) == 12;
    assert XorDigit(1, 11) == 10;
    assert XorDigit(3, 12) == 15;
    assert XorDigit(14, 13) == 3;
    assert XorDigit(15, 0) == 15;
    assert XorDigit(12, 7) == 11;
    assert XorDigit(13, 14) == 3;
  }

  lemma SecondXor()
    ensures IsXor(0xef13efcd, 0x73bcd07e, 0x9caf3fb3)
  {
    Nothing();
    SecondDigits();
    More(0x0, 0x0, 0x0, 14, 7, 9, 0xe, 0x7, 0x9);
    More(0xe, 0x7, 0x9, 15, 3, 12, 0xef, 0x73, 0x9c);
    More(0xef, 0x73, 0x9c, 1, 11, 10, 0xef1, 0x73b, 0x9ca);
    More(0xef1, 0x73b, 0x9ca, 3, 12, 15, 0xef13, 0x73bc, 0x9caf);
    More(0xef13, 0x73bc, 0x9caf, 14, 13, 3, 0xef13e, 0x73bcd, 0x9caf3);
    More(0xef13e, 0x73bcd, 0x9caf3, 15, 0, 15, 0xef13ef, 0x73bcd0, 0x9caf3f);
    More(0xef13ef, 0x73bcd0, 0x9caf3f, 12, 7, 11, 0xef13efc, 0x73bcd07, 0x9caf3fb);
    More(0xef13efc, 0x73bcd07, 0x9caf3fb, 13, 14, 3, 0xef13efcd, 0x73bcd07e, 0x9caf3fb3);
  }

  lemma ThirdDigits()
    ensures IsDigit(9, 0, 9) && IsDigit(12, 0, 12) && IsDigit(10, 0, 10) && IsDigit(15, 0, 15)
    ensures IsDigit(3, 0, 3) && IsDigit(11, 0, 11) && IsDigit(3, 5, 6)
  {
    assert XorDigit(9, 0) == 9;
    assert XorDigit(12, 0) == 12;
    assert XorDigit(10, 0) == 10;
    assert XorDigit(15, 0) == 15;
    assert XorDigit(3, 0) == 3;
    assert XorDigit(11, 0) == 11;
    assert XorDigit(3, 5) == 6;
  }

  lemma ThirdXor()
    ensures IsXor(0x9caf3fb3, 5, 0x9caf3fb6)
  {
    Nothing();
    ThirdDigits();
    More(0x0, 0x0, 0x0, 9, 0, 9, 0x9, 0x0, 0x9);
    More(0x9, 0x0, 0x9, 12, 0, 12, 0x9c, 0x0, 0x9c);
    More(0x9c, 0x0, 0x9c, 10, 0, 10, 0x9ca, 0x0, 0x9ca);
    More(0x9ca, 0x0, 0x9ca, 15, 0, 15, 0x9caf, 0x0, 0x9caf);
    More(0x9caf, 0x0, 0x9caf, 3, 0, 3, 0x9caf3, 0x0, 0x9caf3);
    More(0x9caf3, 0x0, 0x9caf3, 15, 0, 15, 0x9caf3f, 0x0, 0x9caf3f);
    More(0x9caf3f, 0x0, 0x9caf3f, 11, 0, 11, 0x9caf3fb, 0x0, 0x9caf3fb);
    More(0x9caf3fb, 0x0, 0x9caf3fb, 3, 5, 6, 0x9caf3fb3, 0x5, 0x9caf3fb6);
  }

  lemma FourthDigits()
    ensures IsDigit(9, 0, 9) && IsDigit(12, 0, 12) && IsDigit(10, 0, 10) && IsDigit(15, 0, 15)
    ensures IsDigit(3, 9, 10) && IsDigit(15, 12, 3) && IsDigit(11, 10, 1) && IsDigit(6, 15, 9)
  {
    assert XorDigit(9, 0) == 9;
    assert XorDigit(12, 0) == 12;
    assert XorDigit(10, 0) == 10;
    assert XorDigit(15, 0) == 15;
    assert XorDigit(3, 9) == 10;
    assert XorDigit(15, 12) == 3;
    assert XorDigit(11, 10) == 1;
    assert XorDigit(6, 15) == 9;
  }

  lemma FourthXor()
    ensures IsXor(0x9caf3fb6, 0x9caf, 0x9cafa319)
  {
    Nothing();
    FourthDigits();
    More(0x0, 0x0, 0x0, 9, 0, 9, 0x9, 0x0, 0x9);
    More(0x9, 0x0, 0x9, 12, 0, 12, 0x9c, 0x0, 0x9c);
    More(0x9c, 0x0, 0x9c, 10, 0, 10, 0x9ca, 0x0, 0x9ca);
    More(0x9ca, 0x0, 0x9ca, 15, 0, 15, 0x9caf, 0x0, 0x9caf);
    More(0x9caf, 0x0, 0x9caf, 3, 9, 10, 0x9caf3, 0x9, 0x9cafa);
    More(0x9caf3, 0x9, 0x9cafa, 15, 12, 3, 0x9caf3f, 0x9c, 0x9cafa3);
    More(0x9caf3f, 0x9c, 0x9cafa3, 11, 10, 1, 0x9caf3fb, 0x9ca, 0x9cafa31);
    More(0x9caf3fb, 0x9ca, 0x9cafa31, 6, 15, 9, 0x9caf3fb6, 0x9caf, 0x9cafa319);
  }

  lemma FifthDigits()
    ensures IsDigit(12, 0, 12) && IsDigit(9, 0, 9) && IsDigit(0, 0, 0) && IsDigit(13, 6, 11)
    ensures IsDigit(14, 4, 10) && IsDigit(5, 8, 13) && IsDigit(7, 6, 1) && IsDigit(3, 15, 12)
  {
    assert XorDigit(12, 0) == 12;
    assert XorDigit(9, 0) == 9;
    assert XorDigit(0, 0) == 0;
    assert XorDigit(13, 6) == 11;
    assert XorDigit(14, 4) == 10;
    assert XorDigit(5, 8) == 13;
    assert XorDigit(7, 6) == 1;
    assert XorDigit(3, 15) == 12;
  }

  lemma FifthXor()
    ensures IsXor(0xc90de573, 0x6486f, 0xc90bad1c)
  {
    Nothing();
    FifthDigits();
    More(0x0, 0x0, 0x0, 12, 0, 12, 0xc, 0x0, 0xc);
    More(0xc, 0x0, 0xc, 9, 0, 9, 0xc9, 0x0, 0xc9);
    More(0xc9, 0x0, 0xc9, 0, 0, 0, 0xc90, 0x0, 0xc90);
    More(0xc90, 0x0, 0xc90, 13, 6, 11, 0xc90d, 0x6, 0xc90b);
    More(0xc90d, 0x6, 0xc90b, 14, 4, 10, 0xc90de, 0x64, 0xc90ba);
    More(0xc90de, 0x64, 0xc90ba, 5, 8, 13, 0xc90de5, 0x648, 0xc90bad);
    More(0xc90de5, 0x648, 0xc90bad, 7, 6, 1, 0xc90de57, 0x6486, 0xc90bad1);
    More(0xc90de57, 0x6486, 0xc90bad1, 3, 15, 12, 0xc90de573, 0x6486f, 0xc90bad1c);
  }

  lemma SixthDigits()
    ensures IsDigit(2, 0, 2) && IsDigit(4, 0, 4) && IsDigit(8, 0, 8) && IsDigit(11, 0, 11)
    ensures IsDigit(13, 2, 15) && IsDigit(14, 4, 10) && IsDigit(12, 8, 4) && IsDigit(12, 11, 7)
  {
    assert XorDigit(2, 0) == 2;
    assert XorDigit(4, 0) == 4;
    assert XorDigit(8, 0) == 8;
    assert XorDigit(11, 0) == 11;
    assert XorDigit(13, 2) == 15;
    assert XorDigit(14, 4) == 10;
    assert XorDigit(12, 8) == 4;
    assert XorDigit(12, 11) == 7;
  }

  lemma SixthXor()
    ensures IsXor(0x248bdecc, 0x248b, 0x248bfa47)
  {
    Nothing();
    SixthDigits();
    More(0x0, 0x0, 0x0, 2, 0, 2, 0x2, 0x0, 0x2);
    More(0x2, 0x0, 0x2, 4, 0, 4, 0x24, 0x0, 0x24);
    More(0x24, 0x0, 0x24, 8, 0, 8, 0x248, 0x0, 0x248);
    More(0x248, 0x0, 0x248, 11, 0, 11, 0x248b, 0x0, 0x248b);
    More(0x248b, 0x0, 0x248b, 13, 2, 15, 0x248bd, 0x2, 0x248bf);
    More(0x248bd, 0x2, 0x248bf, 14, 4, 10, 0x248bde, 0x24, 0x248bfa);
    More(0x248bde, 0x24, 0x248bfa, 12, 8, 4, 0x248bdec, 0x248, 0x248bfa4);
    More(0x248bdec, 0x248, 0x248bfa4, 12, 11, 7, 0x248bdecc, 0x248b, 0x248bfa47);
  }

  lemma ValueOfExample()
    ensures HashBy(0x6c6c6568, 0x6f, 0) == 0x248bfa47
  {
    Scrambled(0x6c6c6568, 0xd24f5de8, 0xaef46927, 0xa0ae7465);
    FirstXor();
    Mixed(0, 0xa0ae7465, 0xa0ae7465, 0xce8cb415, 0xef13efcd);
    Scrambled(0x6f, 0xb895a61f, 0xd30fdc4a, 0x73bcd07e);
    SecondXor();
    ThirdXor();
    EndOfExample();
    HashOfParts(0x6c6c6568, 0x6f, 0, 0xa0ae7465, 0xef13efcd, 0x73bcd07e, 0x9caf3fb3, 0x9caf3fb6, 0x248bfa47);
  }

  lemma EndOfExample()
    ensures IsFmix(0x9caf3fb6, 0x248bfa47)
  {
    FourthXor();
    FifthXor();
    SixthXor();
    FinallyMixed(0x9caf3fb6, 0x9caf, 0x9cafa319, 0xc90de573, 0x6486f, 0xc90bad1c, 0x248bdecc, 0x248b, 0x248bfa47);
  }

  /** The value of the example. */
  lemma HashOfExample(key: Key)
    requires key == [0x68, 0x65, 0x6c, 0x6c, 0x6f]
    ensures Hash(key, 0) == 0x248bfa47
  {
    ValueOfExample();
    HashOfFive(key, 0, 0x6c6c6568);
  }
}
