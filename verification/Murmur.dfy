/** MurmurHash3_x86_32 (lib/bloom/MurmurHash3.cpp), with words read low octet first: every step of the
    mixing can be undone, so keys that differ in one place never collide. */
module Murmur {
  import opened Bits

  const M: nat := 0x1_0000_0000

  type Octet = x: nat | x < 256
  type Word = x: nat | x < M

  // ---------- 32-bit operations ----------

  lemma LimitIsPow2()
    ensures M == Pow2(32)
  {
    assert Pow2(8) == 256;
    assert Pow2(16) == 65536;
    assert Pow2(24) == 0x100_0000;
  }

  function Xor32(x: Word, y: Word): Word {
    LimitIsPow2();
    XorBelow(x, y, 32);
    Xor(x, y)
  }

  function Rotl(x: Word, r: nat): Word
    requires 0 < r < 32
  {
    LimitIsPow2();
    OrBelow(Shl(x, r) % M, Shr(x, 32 - r), 32);
    Or(Shl(x, r) % M, Shr(x, 32 - r))
  }

  lemma BitOfRotl(x: Word, r: nat, i: nat)
    requires 0 < r < 32
    ensures Bit(Rotl(x, r), i) <==> i < 32 && Bit(x, if r <= i then i - r else i + 32 - r)
  {
    LimitIsPow2();
    BitOfOr(Shl(x, r) % M, Shr(x, 32 - r), i);
    BitOfMod(Shl(x, r), 32, i);
    BitOfShl(x, r, i);
    BitOfShr(x, 32 - r, i);
    if r <= i { NoHighBits(x, 32, i + 32 - r); }
  }

  /** A rotation is undone by the rest of the turn. */
  lemma UndoRotl(x: Word, r: nat)
    requires 0 < r < 32
    ensures Rotl(Rotl(x, r), 32 - r) == x
  {
    LimitIsPow2();
    forall i: nat ensures Bit(Rotl(Rotl(x, r), 32 - r), i) == Bit(x, i) {
      BitOfRotl(Rotl(x, r), 32 - r, i);
      if i >= 32 { NoHighBits(x, 32, i); }
      else { BitOfRotl(x, r, if 32 - r <= i then i - (32 - r) else i + r); }
    }
    SameBits(Rotl(Rotl(x, r), 32 - r), x);
  }

  lemma UndoXor(x: Word, y: Word)
    ensures Xor32(Xor32(x, y), y) == x && Xor32(x, Xor32(x, y)) == y
  {
    forall i: nat ensures Bit(Xor(Xor(x, y), y), i) == Bit(x, i) && Bit(Xor(x, Xor(x, y)), i) == Bit(y, i) {
      BitOfXor(x, y, i);
      BitOfXor(Xor(x, y), y, i);
      BitOfXor(x, Xor(x, y), i);
    }
    SameBits(Xor(Xor(x, y), y), x);
    SameBits(Xor(x, Xor(x, y)), y);
  }

  /** x ^ x >> 16 and x ^ x >> 13 */
  function Fold16(x: Word): Word { Xor32(x, x / 0x1_0000) }

  function Fold13(x: Word): Word { Xor32(x, x / 0x2000) }

  lemma ShiftsArePow2()
    ensures Pow2(13) == 0x2000 && Pow2(16) == 0x1_0000 && Pow2(26) == 0x400_0000
  {
    assert Pow2(8) == 256;
    assert Pow2(24) == 0x100_0000 by { assert Pow2(16) == 65536; }
  }

  lemma BitOfFold16(x: Word, i: nat)
    ensures Bit(Fold16(x), i) <==> Bit(x, i) != Bit(x, 16 + i)
  {
    ShiftsArePow2();
    BitOfXor(x, x / 0x1_0000, i);
    ShrIsQuotient(x, 16);
    BitOfShr(x, 16, i);
  }

  lemma BitOfFold13(x: Word, i: nat)
    ensures Bit(Fold13(x), i) <==> Bit(x, i) != Bit(x, 13 + i)
  {
    ShiftsArePow2();
    BitOfXor(x, x / 0x2000, i);
    ShrIsQuotient(x, 13);
    BitOfShr(x, 13, i);
  }

  /** The first is undone by folding once more, */
  lemma UndoFold16(x: Word)
    ensures Fold16(Fold16(x)) == x
  {
    LimitIsPow2();
    forall i: nat ensures Bit(Fold16(Fold16(x)), i) == Bit(x, i) {
      BitOfFold16(Fold16(x), i);
      BitOfFold16(x, i);
      BitOfFold16(x, 16 + i);
      NoHighBits(x, 32, 32 + i);
    }
    SameBits(Fold16(Fold16(x)), x);
  }

  /** the second needs three shifts to get rid of all bits. */
  function Unfold13(x: Word): Word { Xor32(Fold13(x), x / 0x400_0000) }

  lemma UndoFold13(x: Word)
    ensures Unfold13(Fold13(x)) == x && Fold13(Unfold13(x)) == x
  {
    forall i: nat ensures Bit(Unfold13(Fold13(x)), i) == Bit(x, i) && Bit(Fold13(Unfold13(x)), i) == Bit(x, i) {
      BitOfUnfold13(Fold13(x), i);
      BitOfFold13(x, i);
      BitOfFold13(x, 13 + i);
      BitOfFold13(x, 26 + i);
      BitOfFold13(Unfold13(x), i);
      BitOfUnfold13(x, i);
      BitOfUnfold13(x, 13 + i);
      LimitIsPow2();
      NoHighBits(x, 32, 39 + i);
    }
    SameBits(Unfold13(Fold13(x)), x);
    SameBits(Fold13(Unfold13(x)), x);
  }

  lemma BitOfUnfold13(y: Word, i: nat)
    ensures Bit(Unfold13(y), i) <==> ((Bit(y, i) != Bit(y, 13 + i)) != Bit(y, 26 + i))
  {
    ShiftsArePow2();
    BitOfXor(Fold13(y), y / 0x400_0000, i);
    ShrIsQuotient(y, 26);
    BitOfShr(y, 26, i);
    BitOfFold13(y, i);
  }

  // Multiplications by odd constants

  const C1: Word := 0xcc9e2d51
  const OVER_C1: Word := 0xdee13bb1
  const C2: Word := 0x1b873593
  const OVER_C2: Word := 0x56ed309b
  const F1: Word := 0x85ebca6b
  const OVER_F1: Word := 0xa5cb9243
  const F2: Word := 0xc2b2ae35
  const OVER_F2: Word := 0x7ed1b41d
  const OVER_5: Word := 0xcccccccd
  const N: Word := 0xe6546b64

  function Times(x: Word, c: Word): Word { x * c % M }

  /** d undoes c when their product is one more than a multiple of 2^32. */
  lemma UndoTimes(x: Word, c: Word, d: Word)
    requires c * d % M == 1
    ensures Times(Times(x, c), d) == x && Times(Times(x, d), c) == x
  {
    Product(x, c, d, c * d / M);
    assert d * c == c * d;
    Product(x, d, c, c * d / M);
  }

  lemma Inverses()
    ensures F1 * OVER_F1 % M == 1 && F2 * OVER_F2 % M == 1
    ensures C1 * OVER_C1 % M == 1 && C2 * OVER_C2 % M == 1 && 5 * OVER_5 % M == 1
  {
  }

  lemma Product(x: Word, c: Word, d: Word, k: nat)
    requires c * d == k * M + 1
    ensures Times(Times(x, c), d) == x
  {
    var q, r := x * c / M, x * c % M;
    assert x * c == q * M + r;
    assert x * c * d == x * (c * d);
    assert x * (k * M + 1) == x * k * M + x;
    assert (q * M + r) * d == q * d * M + r * d;
    ModAfter(x, x * k - q * d, r * d);
  }

  lemma ModAfter(x: Word, t: int, y: int)
    requires y == x + t * M
    ensures y % M == x
  {
  }

  function Plus(x: Word, y: Word): Word { (x + y) % M }

  function Minus(x: Word, y: Word): Word { (x - y) % M }

  lemma UndoPlus(x: Word, y: Word)
    ensures Minus(Plus(x, y), y) == x && Plus(Minus(x, y), y) == x
  {
  }

  function Times5Plus(x: Word): Word { Plus(Times(x, 5), N) }

  function MinusOver5(x: Word): Word { Times(Minus(x, N), OVER_5) }

  lemma Undo5(x: Word)
    ensures MinusOver5(Times5Plus(x)) == x && Times5Plus(MinusOver5(x)) == x
  {
    Inverses();
    UndoTimes(x, 5, OVER_5);
    UndoTimes(Minus(x, N), 5, OVER_5);
    UndoPlus(Times(x, 5), N);
    UndoPlus(x, N);
  }

  // ---------- The mixing ----------

  /** The words of the key are scrambled before they are mixed in. */
  function Scramble(k: Word): Word { Times(Rotl(Times(k, C1), 15), C2) }

  function Unscramble(k: Word): Word { Times(Rotl(Times(k, OVER_C2), 17), OVER_C1) }

  function Mix(h: Word, k: Word): Word { Times5Plus(Rotl(Xor32(h, Scramble(k)), 13)) }

  function Unmix(h: Word, k: Word): Word { Xor32(Rotl(MinusOver5(h), 19), Scramble(k)) }

  /** The word that leads from h to h'. */
  function Between(h: Word, h': Word): Word { Unscramble(Xor32(h, Rotl(MinusOver5(h'), 19))) }

  // Its first two lines, the next two, and how they are undone

  function First(h: Word): Word { Times(Fold16(h), F1) }

  function Unfirst(h: Word): Word { Fold16(Times(h, OVER_F1)) }

  function Second(h: Word): Word { Times(Fold13(h), F2) }

  function Unsecond(h: Word): Word { Unfold13(Times(h, OVER_F2)) }

  function Fmix(h: Word): Word { Fold16(Second(First(h))) }

  function Unfmix(h: Word): Word { Unfirst(Unsecond(Fold16(h))) }

  lemma UndoFirst(h: Word)
    ensures Unfirst(First(h)) == h && First(Unfirst(h)) == h
  {
    Inverses();
    UndoTimes(Fold16(h), F1, OVER_F1);
    UndoFold16(h);
    UndoFold16(Times(h, OVER_F1));
    UndoTimes(h, F1, OVER_F1);
  }

  lemma UndoSecond(h: Word)
    ensures Unsecond(Second(h)) == h && Second(Unsecond(h)) == h
  {
    Inverses();
    UndoTimes(Fold13(h), F2, OVER_F2);
    UndoFold13(h);
    UndoFold13(Times(h, OVER_F2));
    UndoTimes(h, F2, OVER_F2);
  }

  /** The final mix is a bijection. */
  lemma FmixIsBijective(h: Word)
    ensures Unfmix(Fmix(h)) == h && Fmix(Unfmix(h)) == h
  {
    UndoFold16(Second(First(h)));
    UndoSecond(First(h));
    UndoFirst(h);
    UndoFirst(Unsecond(Fold16(h)));
    UndoSecond(Fold16(h));
    UndoFold16(h);
  }

  lemma ScrambleIsBijective(k: Word)
    ensures Unscramble(Scramble(k)) == k && Scramble(Unscramble(k)) == k
  {
    Inverses();
    UndoTimes(Rotl(Times(k, C1), 15), C2, OVER_C2);
    UndoRotl(Times(k, C1), 15);
    UndoTimes(k, C1, OVER_C1);
    UndoTimes(Rotl(Times(k, OVER_C2), 17), C1, OVER_C1);
    UndoRotl(Times(k, OVER_C2), 17);
    UndoTimes(k, C2, OVER_C2);
  }

  /** One step of the body can be undone in the state as well as in the word. */
  lemma MixIsBijective(h: Word, k: Word)
    ensures Unmix(Mix(h, k), k) == h && Mix(Unmix(h, k), k) == h
    ensures Between(h, Mix(h, k)) == k
  {
    var x := Xor32(h, Scramble(k));
    Undo5(Rotl(x, 13));
    UndoRotl(x, 13);
    UndoXor(h, Scramble(k));
    ScrambleIsBijective(k);
    var y := Rotl(MinusOver5(h), 19);
    UndoXor(y, Scramble(k));
    UndoRotl(MinusOver5(h), 19);
    Undo5(h);
  }

  lemma BetweenLeads(h: Word, h': Word)
    ensures Mix(h, Between(h, h')) == h'
  {
    var y := Rotl(MinusOver5(h'), 19);
    ScrambleIsBijective(Xor32(h, y));
    UndoXor(h, y);
    UndoRotl(MinusOver5(h'), 19);
    Undo5(h');
  }

  // ---------- The hash ----------

  type Key = key: seq<Octet> | |key| < 0x8000_0000

  /** getblock */
  function WordAt(key: seq<Octet>, i: nat): Word
    requires 4 * i + 4 <= |key|
  {
    key[4 * i] as nat + 0x100 * (key[4 * i + 1] as nat)
    + 0x1_0000 * (key[4 * i + 2] as nat) + 0x100_0000 * (key[4 * i + 3] as nat)
  }

  /** The state after the words m to n - 1, from state h on. */
  function Body(key: Key, h: Word, m: nat, n: nat): Word
    requires m <= n <= |key| / 4
    decreases n - m
  {
    if m == n then h else Mix(Body(key, h, m, n - 1), WordAt(key, n - 1))
  }

  function Unbody(key: Key, h: Word, m: nat, n: nat): Word
    requires m <= n <= |key| / 4
    decreases n - m
  {
    if m == n then h else Unbody(key, Unmix(h, WordAt(key, n - 1)), m, n - 1)
  }

  function Tail(key: seq<Octet>): (tail: seq<Octet>)
    ensures |tail| < 4
  {
    key[|key| / 4 * 4..]
  }

  /** The switch over the one to three octets of the tail, falling through. */
  function TailWord(tail: seq<Octet>): Word
    requires |tail| < 4
  {
    var k := if |tail| == 3 then Xor32(0, Shifted(tail[2], 16)) else 0;
    var k := if |tail| >= 2 then Xor32(k, Shifted(tail[1], 8)) else k;
    if |tail| >= 1 then Xor32(k, tail[0]) else k
  }

  function Shifted(o: Octet, s: nat): Word
    requires s <= 16
  {
    ShiftFits(o, s);
    Shl(o, s)
  }

  lemma ShiftFits(o: Octet, s: nat)
    requires s <= 16
    ensures Shl(o, s) <= 255 * 0x1_0000
  {
    ShlIsProduct(o, s);
    Pow2Monotone(s, 16);
    ShiftsArePow2();
    ProductFits(o, Pow2(s), 255, 0x1_0000);
  }

  lemma ProductFits(x: nat, y: nat, a: nat, b: nat)
    requires x <= a && y <= b
    ensures x * y <= a * b
  {
    assert x * y <= a * y <= a * b;
  }

  function TailOctet(tail: seq<Octet>, k: nat): Octet { if k < |tail| then tail[k] else 0 }

  lemma TailWordIs(tail: seq<Octet>)
    requires |tail| < 4
    ensures TailWord(tail) == TailOctet(tail, 0) + 0x100 * TailOctet(tail, 1) + 0x1_0000 * TailOctet(tail, 2)
  {
    ShiftsArePow2();
    if |tail| >= 1 { XorZero(tail[0]); }
    if |tail| == 2 { TwoOctets(tail[1], tail[0]); }
    if |tail| == 3 { ThreeOctets(tail[2], tail[1], tail[0]); }
  }

  lemma XorZero(x: Word)
    ensures Xor32(0, x) == x
  {
    ShlIsProduct(0, 32);
    LimitIsPow2();
    XorDisjoint(0, x, 32);
  }

  lemma TwoOctets(b: Octet, a: Octet)
    ensures Xor32(Xor32(0, Shifted(b, 8)), a) == 0x100 * (b as nat) + a
  {
    assert Pow2(8) == 0x100;
    ShlIsProduct(b, 8);
    XorZero(Shifted(b, 8));
    XorDisjoint(b, a, 8);
  }

  lemma ThreeOctets(c: Octet, b: Octet, a: Octet)
    ensures Xor32(Xor32(Xor32(0, Shifted(c, 16)), Shifted(b, 8)), a) == 0x1_0000 * (c as nat) + 0x100 * (b as nat) + a
  {
    ShiftsArePow2();
    assert Pow2(8) == 0x100;
    ShlIsProduct(c, 16);
    ShlIsProduct(b, 8);
    XorZero(Shifted(c, 16));
    XorDisjoint(c, Shl(b, 8), 16);
    ShlIsProduct(0x100 * (c as nat) + b, 8);
    XorDisjoint(0x100 * (c as nat) + b, a, 8);
  }

  /** Behind the body: the tail, the length and the final mix. */
  function Finish(key: Key, h: Word): Word {
    var h := if Tail(key) == [] then h else Xor32(h, Scramble(TailWord(Tail(key))));
    Fmix(Xor32(h, |key|))
  }

  function Unfinish(key: Key, v: Word): Word {
    var h := Xor32(Unfmix(v), |key|);
    if Tail(key) == [] then h else Xor32(h, Scramble(TailWord(Tail(key))))
  }

  function Hash(key: Key, seed: Word): Word {
    Finish(key, Body(key, seed, 0, |key| / 4))
  }

  lemma {:induction false} BodyUndone(key: Key, h: Word, m: nat, n: nat, x: Word)
    requires m <= n <= |key| / 4 && x == Body(key, h, m, n)
    ensures Unbody(key, x, m, n) == h
    decreases n - m
  {
    if m < n {
      var b, w := Body(key, h, m, n - 1), WordAt(key, n - 1);
      MixIsBijective(b, w);
      BodyUndone(key, h, m, n - 1, b);
      UnbodyNext(key, x, m, n, w, b);
    }
  }

  lemma UnbodyNext(key: Key, x: Word, m: nat, n: nat, w: Word, b: Word)
    requires m < n <= |key| / 4 && w == WordAt(key, n - 1) && b == Unmix(x, w)
    ensures Unbody(key, x, m, n) == Unbody(key, b, m, n - 1)
  {
  }

  lemma {:induction false} BodyReaches(key: Key, h: Word, m: nat, n: nat)
    requires m <= n <= |key| / 4
    ensures Body(key, Unbody(key, h, m, n), m, n) == h
    decreases n - m
  {
    if m < n {
      BodyReaches(key, Unmix(h, WordAt(key, n - 1)), m, n - 1);
      MixIsBijective(h, WordAt(key, n - 1));
    }
  }

  lemma FinishUndone(key: Key, h: Word)
    ensures Unfinish(key, Finish(key, h)) == h && Finish(key, Unfinish(key, h)) == h
  {
    var t := Scramble(TailWord(Tail(key)));
    var x := if Tail(key) == [] then h else Xor32(h, t);
    FmixIsBijective(Xor32(x, |key|));
    UndoXor(x, |key|);
    UndoXor(h, t);
    var y := Xor32(Unfmix(h), |key|);
    UndoXor(y, t);
    UndoXor(Unfmix(h), |key|);
    FmixIsBijective(h);
  }

  /** For each key the hash is a bijection between seeds and hash values, */
  lemma SeedIsRecovered(key: Key, seed: Word, v: Word)
    ensures Hash(key, seed) == v <==> seed == Unbody(key, Unfinish(key, v), 0, |key| / 4)
  {
    var n := |key| / 4;
    BodyUndone(key, seed, 0, n, Body(key, seed, 0, n));
    FinishUndone(key, Body(key, seed, 0, n));
    BodyReaches(key, Unfinish(key, v), 0, n);
    FinishUndone(key, v);
  }

  /** so different seeds hash a key differently. */
  lemma SeedsDiffer(key: Key, seed: Word, other: Word)
    requires seed != other
    ensures Hash(key, seed) != Hash(key, other)
  {
    SeedIsRecovered(key, seed, Hash(key, seed));
    SeedIsRecovered(key, other, Hash(key, seed));
  }

  /** Keys of one length that are the same but for word i. */
  ghost predicate SameBut(key: Key, other: Key, i: nat) {
    && |key| == |other| && i < |key| / 4
    && forall p :: 0 <= p < |key| && p / 4 != i ==> key[p] == other[p]
  }

  lemma SameWord(key: Key, other: Key, i: nat, j: nat)
    requires SameBut(key, other, i) && j < |key| / 4 && j != i
    ensures WordAt(key, j) == WordAt(other, j)
  {
    assert (4 * j) / 4 == j && (4 * j + 1) / 4 == j && (4 * j + 2) / 4 == j && (4 * j + 3) / 4 == j;
  }

  lemma {:induction false} SameBody(key: Key, other: Key, h: Word, m: nat, n: nat)
    requires m <= n <= |key| / 4 && |key| == |other|
    requires forall j {:trigger WordAt(other, j)} :: m <= j < n ==> WordAt(key, j) == WordAt(other, j)
    ensures Body(key, h, m, n) == Body(other, h, m, n)
    decreases n - m
  {
    if m < n {
      SameBody(key, other, h, m, n - 1);
      assert WordAt(key, n - 1) == WordAt(other, n - 1);
    }
  }

  lemma BodyElsewhere(key: Key, other: Key, i: nat, h: Word, m: nat, n: nat)
    requires SameBut(key, other, i) && m <= n <= |key| / 4 && !(m <= i < n)
    ensures Body(key, h, m, n) == Body(other, h, m, n)
  {
    forall j | m <= j < n ensures WordAt(key, j) == WordAt(other, j) { SameWord(key, other, i, j); }
    SameBody(key, other, h, m, n);
  }

  lemma SameTail(key: Key, other: Key, i: nat)
    requires SameBut(key, other, i)
    ensures Tail(key) == Tail(other)
  {
    forall p | |key| / 4 * 4 <= p < |key| ensures key[p] == other[p] { }
  }

  lemma {:induction false} BodyJoins(key: Key, h: Word, l: nat, m: nat, n: nat)
    requires l <= m <= n <= |key| / 4
    ensures Body(key, h, l, n) == Body(key, Body(key, h, l, m), m, n)
    decreases n - m
  {
    if m < n { BodyJoins(key, h, l, m, n - 1); }
  }

  /** The one value of word i for which a key like this one hashes to v. */
  function WordFor(key: Key, i: nat, seed: Word, v: Word): Word
    requires i < |key| / 4
  {
    Between(Body(key, seed, 0, i), Unbody(key, Unfinish(key, v), i + 1, |key| / 4))
  }

  /** For a given seed and the rest of the key the hash is a bijection between the values of one word and
      the hash values, */
  lemma WordIsRecovered(key: Key, other: Key, i: nat, seed: Word, v: Word)
    requires SameBut(key, other, i)
    ensures Hash(other, seed) == v <==> WordAt(other, i) == WordFor(key, i, seed, v)
  {
    var n, w := |key| / 4, WordAt(other, i);
    var before := Body(key, seed, 0, i);
    var after, target := Mix(before, w), Unbody(key, Unfinish(key, v), i + 1, n);
    BodyElsewhere(key, other, i, seed, 0, i);
    BodyElsewhere(key, other, i, after, i + 1, n);
    SameTail(key, other, i);
    BodyJoins(other, seed, 0, i + 1, n);
    assert Hash(other, seed) == Finish(key, Body(key, after, i + 1, n));
    BodyUndone(key, after, i + 1, n, Body(key, after, i + 1, n));
    FinishUndone(key, Body(key, after, i + 1, n));
    BodyReaches(key, Unfinish(key, v), i + 1, n);
    FinishUndone(key, v);
    MixIsBijective(before, w);
    BetweenLeads(before, target);
  }

  /** so keys that differ in one word only never collide. */
  lemma WordsDiffer(key: Key, other: Key, i: nat, seed: Word)
    requires SameBut(key, other, i)
    ensures Hash(key, seed) == Hash(other, seed) <==> WordAt(key, i) == WordAt(other, i)
  {
    WordIsRecovered(key, key, i, seed, Hash(key, seed));
    WordIsRecovered(key, other, i, seed, Hash(key, seed));
  }

  lemma WordsAgree(key: Key, other: Key, i: nat)
    requires |key| == |other| && i < |key| / 4
    ensures WordAt(key, i) == WordAt(other, i) <==> forall p :: 4 * i <= p < 4 * i + 4 ==> key[p] == other[p]
  {
    var a, b := key[4 * i..4 * i + 4], other[4 * i..4 * i + 4];
    if WordAt(key, i) == WordAt(other, i) {
      FourDigits(a[0], a[1], a[2], a[3], b[0], b[1], b[2], b[3]);
      forall p | 4 * i <= p < 4 * i + 4 ensures key[p] == other[p] {
        assert key[p] == a[p - 4 * i] && other[p] == b[p - 4 * i];
      }
    }
  }

  lemma FourDigits(a: Octet, b: Octet, c: Octet, d: Octet, a': Octet, b': Octet, c': Octet, d': Octet)
    requires a as nat + 0x100 * (b as nat) + 0x1_0000 * (c as nat) + 0x100_0000 * (d as nat) ==
             a' as nat + 0x100 * (b' as nat) + 0x1_0000 * (c' as nat) + 0x100_0000 * (d' as nat)
    ensures a == a' && b == b' && c == c' && d == d'
  {
    LowDigit(a, b + 0x100 * (c as nat) + 0x1_0000 * (d as nat), a', b' + 0x100 * (c' as nat) + 0x1_0000 * (d' as nat));
    LowDigit(b, c + 0x100 * (d as nat), b', c' + 0x100 * (d' as nat));
    LowDigit(c, d, c', d');
  }

  lemma LowDigit(a: Octet, x: nat, b: Octet, y: nat)
    requires a as nat + 0x100 * x == b as nat + 0x100 * y
    ensures a == b && x == y
  {
  }

  /** The same holds for the tail. */
  lemma TailsDiffer(key: Key, other: Key, seed: Word)
    requires |key| == |other| && key[..|key| / 4 * 4] == other[..|key| / 4 * 4]
    ensures Hash(key, seed) == Hash(other, seed) <==> key == other
  {
    var n := |key| / 4;
    assert key == key[..n * 4] + Tail(key) && other == other[..n * 4] + Tail(other);
    SameFront(key, other, seed, n);
    var h, v := Body(key, seed, 0, n), Hash(key, seed);
    if Hash(other, seed) == v && Tail(key) != [] {
      var k, l := Scramble(TailWord(Tail(key))), Scramble(TailWord(Tail(other)));
      FmixIsBijective(Xor32(Xor32(h, k), |key|));
      FmixIsBijective(Xor32(Xor32(h, l), |key|));
      UndoXor(Xor32(h, k), |key|);
      UndoXor(Xor32(h, l), |key|);
      UndoXor(h, k);
      UndoXor(h, l);
      ScrambleIsBijective(TailWord(Tail(key)));
      ScrambleIsBijective(TailWord(Tail(other)));
      TailsAgree(Tail(key), Tail(other));
    }
  }

  lemma TailsAgree(tail: seq<Octet>, other: seq<Octet>)
    requires |tail| == |other| < 4 && TailWord(tail) == TailWord(other)
    ensures tail == other
  {
    TailWordIs(tail);
    TailWordIs(other);
    FourDigits(TailOctet(tail, 0), TailOctet(tail, 1), TailOctet(tail, 2), 0,
               TailOctet(other, 0), TailOctet(other, 1), TailOctet(other, 2), 0);
  }

  lemma SameFront(key: Key, other: Key, seed: Word, n: nat)
    requires |key| == |other| && n <= |key| / 4 && key[..n * 4] == other[..n * 4]
    ensures Body(key, seed, 0, n) == Body(other, seed, 0, n)
  {
    forall j | 0 <= j < n ensures WordAt(key, j) == WordAt(other, j) {
      forall p | 4 * j <= p < 4 * j + 4 ensures key[p] == other[p] {
        assert key[p] == key[..n * 4][p] == other[..n * 4][p];
      }
      WordsAgree(key, other, j);
    }
    SameBody(key, other, seed, 0, n);
  }

  /** The hash function of the library. */
  method MurmurHash3_x86_32(key: Key, seed: Word) returns (out: Word)
    ensures out == Hash(key, seed)
  {
    var nblocks := |key| / 4;
    var h1 := seed;
    var i: int := -nblocks;
    while i != 0
      invariant -nblocks <= i <= 0 && h1 == Body(key, seed, 0, nblocks + i)
      decreases -i
    {
      var k1 := WordAt(key, nblocks + i);
      k1 := Times(k1, C1);
      k1 := Rotl(k1, 15);
      k1 := Times(k1, C2);
      h1 := Xor32(h1, k1);
      h1 := Rotl(h1, 13);
      h1 := Plus(Times(h1, 5), N);
      i := i + 1;
    }
    var tail := key[nblocks * 4..];
    var k1: Word := 0;
    if |tail| == 3 { k1 := Xor32(k1, Shifted(tail[2], 16)); }
    if |tail| >= 2 { k1 := Xor32(k1, Shifted(tail[1], 8)); }
    if |tail| >= 1 {
      k1 := Xor32(k1, tail[0]);
      k1 := Times(k1, C1);
      k1 := Rotl(k1, 15);
      k1 := Times(k1, C2);
      h1 := Xor32(h1, k1);
    }
    h1 := Xor32(h1, |key|);
    out := FinalMix(h1);
  }

  method FinalMix(h: Word) returns (r: Word)
    ensures r == Fmix(h)
  {
    r := Xor32(h, h / 0x1_0000);
    r := Times(r, F1);
    r := Xor32(r, r / 0x2000);
    r := Times(r, F2);
    r := Xor32(r, r / 0x1_0000);
  }
}
