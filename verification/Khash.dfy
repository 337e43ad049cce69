/** The k-fold hash (lib/bloom/khash.h, khash.cpp): indices are cut out of a chain of 192-bit digests,
    across word and digest boundaries, optionally without repeats.  hashlittle2 is a parameter. */
module Khashing {
  import opened Bits

  const HASH_INTEGERS: nat := 6
  const HASH_BITS: nat := 192

  type Word = x: nat | x < 0x1_0000_0000
  type Bytes = seq<nat>

  /** hashlittle2: the two seeds are overwritten by the two results. */
  type PairHash = (Bytes, Word, Word) -> (Word, Word)

  datatype Params = Params(nhash: nat, shash: nat, norep: bool) {
    /** The asserts of the constructor. */
    predicate Allowed() {
      1 <= nhash && 1 <= shash < 32 && (norep ==> nhash <= Pow2(shash))
    }
  }

  // ---------- The digest stream ----------

  /** Where indices are cut from: bit p of an unbounded row of bits. */
  type Stream = nat -> bool

  function Rehash(hash: PairHash, input: Bytes, d: seq<Word>): (d': seq<Word>)
    requires |d| == HASH_INTEGERS
    ensures |d'| == HASH_INTEGERS
  {
    var (a, b) := hash(input, d[0], d[1]);
    var (c, e) := hash(input, d[2], d[3]);
    var (f, g) := hash(input, d[4], d[5]);
    [a, b, c, e, f, g]
  }

  function Digest(hash: PairHash, input: Bytes, n: nat): (d: seq<Word>)
    ensures |d| == HASH_INTEGERS
  {
    if n == 0 then Rehash(hash, input, [1, 2, 3, 4, 5, 6]) else Rehash(hash, input, Digest(hash, input, n - 1))
  }

  /** Each pair of words is the pair hash of the input, seeded with the same pair of the digest before, and
      first with 1 and 2, 3 and 4, 5 and 6. */
  lemma DigestPairs(hash: PairHash, input: Bytes, n: nat, i: nat)
    requires i < 3
    ensures var d := Digest(hash, input, n);
            (d[2 * i], d[2 * i + 1]) ==
              if n == 0 then hash(input, 2 * i + 1, 2 * i + 2)
              else hash(input, Digest(hash, input, n - 1)[2 * i], Digest(hash, input, n - 1)[2 * i + 1])
  {
  }

  /** D0, D1, D2, ... written one after the other, low bits of low words first. */
  function Chain(hash: PairHash, input: Bytes): Stream {
    (p: nat) => Bit(Digest(hash, input, p / HASH_BITS)[p % HASH_BITS / 32], p % 32)
  }

  /** One digest; nothing follows it. */
  function Given(words: seq<Word>): Stream {
    (p: nat) => p / 32 < |words| && Bit(words[p / 32], p % 32)
  }

  /** The n stream bits from `from` on, as a number. */
  function Chunk(src: Stream, from: nat, n: nat): nat
    decreases n
  {
    if n == 0 then 0 else 2 * Chunk(src, from + 1, n - 1) + if src(from) then 1 else 0
  }

  lemma {:induction false} BitOfChunk(src: Stream, from: nat, n: nat, j: nat)
    ensures Bit(Chunk(src, from, n), j) <==> j < n && src(from + j)
    decreases n
  {
    if n == 0 { BitOfZero(j); }
    else if j > 0 { BitOfChunk(src, from + 1, n - 1, j - 1); }
  }

  lemma {:induction false} ChunkBelow(src: Stream, from: nat, n: nat)
    ensures Chunk(src, from, n) < Pow2(n)
    decreases n
  {
    if n > 0 { ChunkBelow(src, from + 1, n - 1); }
  }

  /** Where the n-th chunk of s bits begins. */
  function Offset(n: nat, s: nat): nat {
    if n == 0 then 0 else Offset(n - 1, s) + s
  }

  lemma {:induction false} OffsetIsProduct(n: nat, s: nat)
    ensures Offset(n, s) == n * s
  {
    if n > 0 {
      OffsetIsProduct(n - 1, s);
      assert n * s == (n - 1) * s + s;
    }
  }

  lemma {:induction false} OffsetsGrow(m: nat, n: nat, s: nat)
    requires m <= n
    ensures Offset(m, s) <= Offset(n, s)
  {
    if m < n { OffsetsGrow(m, n - 1, s); }
  }

  /** The i-th chunk of shash bits. */
  function Cut(src: Stream, p: Params, i: nat): nat {
    Chunk(src, Offset(i, p.shash), p.shash)
  }

  /** What it is of a chain: 192 bits of each digest in turn, 32 of each word, the low ones first; */
  lemma CutOfChain(hash: PairHash, input: Bytes, p: Params, i: nat, j: nat)
    ensures var q := i * p.shash + j;
            Bit(Cut(Chain(hash, input), p, i), j) <==>
              j < p.shash && Bit(Digest(hash, input, q / 192)[q % 192 / 32], q % 32)
  {
    OffsetIsProduct(i, p.shash);
    BitOfChunk(Chain(hash, input), i * p.shash, p.shash, j);
  }

  /** and of one given digest. */
  lemma CutOfGiven(words: seq<Word>, p: Params, i: nat, j: nat)
    ensures var q := i * p.shash + j;
            Bit(Cut(Given(words), p, i), j) <==> j < p.shash && q < 32 * |words| && Bit(words[q / 32], q % 32)
  {
    OffsetIsProduct(i, p.shash);
    BitOfChunk(Given(words), i * p.shash, p.shash, j);
  }

  /** The values kept after cutting n chunks of shash bits: all of them, or each at its first appearance. */
  function Selected(src: Stream, p: Params, n: nat): seq<nat> {
    if n == 0 then []
    else
      var before, v := Selected(src, p, n - 1), Cut(src, p, n - 1);
      if p.norep && v in before then before else before + [v]
  }

  /** n chunks yield all indices wanted. */
  ghost predicate Enough(src: Stream, p: Params, n: nat) {
    |Selected(src, p, n)| >= p.nhash
  }

  ghost predicate Completes(src: Stream, p: Params) {
    exists n: nat :: Enough(src, p, n)
  }

  /** s is the outcome of the extraction. */
  ghost predicate IsOutcome(src: Stream, p: Params, s: seq<nat>) {
    |s| == p.nhash && exists n: nat :: Selected(src, p, n) == s
  }

  lemma {:induction false} SelectedGrows(src: Stream, p: Params, m: nat, n: nat)
    requires m <= n
    ensures Selected(src, p, m) <= Selected(src, p, n)
  {
    if m < n { SelectedGrows(src, p, m, n - 1); }
  }

  lemma {:induction false} SelectedLength(src: Stream, p: Params, n: nat)
    ensures |Selected(src, p, n)| <= n && (!p.norep ==> |Selected(src, p, n)| == n)
  {
    if n > 0 { SelectedLength(src, p, n - 1); }
  }

  /** There is one outcome at most. */
  lemma OutcomeIsUnique(src: Stream, p: Params, s: seq<nat>, t: seq<nat>)
    requires IsOutcome(src, p, s) && IsOutcome(src, p, t)
    ensures s == t
  {
    var m: nat :| Selected(src, p, m) == s;
    var n: nat :| Selected(src, p, n) == t;
    if m <= n { SelectedGrows(src, p, m, n); } else { SelectedGrows(src, p, n, m); }
  }

  /** The outcome when repeats are allowed: index k is bits [k*shash, (k+1)*shash) of the stream. */
  lemma {:induction false} SlicesAreExact(src: Stream, p: Params, n: nat, k: nat, j: nat)
    requires !p.norep && k < n && |Selected(src, p, n)| == n
    ensures Bit(Selected(src, p, n)[k], j) <==> j < p.shash && src(k * p.shash + j)
  {
    SelectedLength(src, p, n - 1);
    OffsetIsProduct(k, p.shash);
    if k == n - 1 { BitOfChunk(src, Offset(k, p.shash), p.shash, j); } else { SlicesAreExact(src, p, n - 1, k, j); }
  }

  ghost predicate Distinct(s: seq<nat>) {
    forall a, b :: 0 <= a < b < |s| ==> s[a] != s[b]
  }

  /** Without repeats: the values are distinct, every chunk cut is among them, */
  lemma {:induction false} SelectedAreDistinct(src: Stream, p: Params, n: nat)
    requires p.norep
    ensures Distinct(Selected(src, p, n))
  {
    if n > 0 {
      SelectedAreDistinct(src, p, n - 1);
      var before, s := Selected(src, p, n - 1), Selected(src, p, n);
      if s != before {
        forall a, b | 0 <= a < b < |s| ensures s[a] != s[b] { assert s[a] == before[a] && before[a] in before; }
      }
    }
  }

  lemma {:induction false} SelectedMissNothing(src: Stream, p: Params, n: nat, i: nat)
    requires i < n
    ensures Cut(src, p, i) in Selected(src, p, n)
  {
    if i < n - 1 {
      SelectedMissNothing(src, p, n - 1, i);
      SelectedGrows(src, p, n - 1, n);
    }
  }

  /** and they come in the order in which they first appear in the stream. */
  lemma {:induction false} SelectedAreFirsts(src: Stream, p: Params, n: nat, a: nat) returns (i: nat)
    requires p.norep && a < |Selected(src, p, n)|
    ensures i < n && Cut(src, p, i) == Selected(src, p, n)[a] && Selected(src, p, i) == Selected(src, p, n)[..a]
    ensures forall h :: 0 <= h < i ==> Cut(src, p, h) != Cut(src, p, i)
  {
    var before := Selected(src, p, n - 1);
    if a < |before| {
      i := SelectedAreFirsts(src, p, n - 1, a);
      assert Selected(src, p, n)[..a] == before[..a];
    } else {
      i := n - 1;
      forall h | 0 <= h < i ensures Cut(src, p, h) != Cut(src, p, i) { SelectedMissNothing(src, p, n - 1, h); }
    }
  }

  // ---------- Cutting one chunk out of words ----------

  function Bitmask(bit: nat): nat
    requires bit <= 32
  {
    ShlOne(bit);
    if bit == 0 then 0 else if bit == 32 then 0xFFFFFFFF else And(Shl(1, bit) - 1, 0xFFFFFFFF)
  }

  lemma BitmaskIsMask(bit: nat)
    requires bit <= 32
    ensures Bitmask(bit) == Pow2(bit) - 1
  {
    assert Pow2(32) == 0x1_0000_0000 by { Pow2Of32(); }
    if 0 < bit < 32 {
      ShlOne(bit);
      forall i: nat ensures Bit(Bitmask(bit), i) == Bit(Pow2(bit) - 1, i) {
        BitOfAnd(Pow2(bit) - 1, Pow2(32) - 1, i);
        BitOfMask(bit, i);
        BitOfMask(32, i);
      }
      SameBits(Bitmask(bit), Pow2(bit) - 1);
    }
  }

  lemma Pow2Of32()
    ensures Pow2(32) == 0x1_0000_0000
  {
    assert Pow2(8) == 256;
    assert Pow2(16) == 65536;
    assert Pow2(24) == 0x100_0000;
  }

  /** The bits of one word from bit `at` on, cut to n. */
  lemma LowPart(w: Word, at: nat, n: nat, j: nat)
    requires at < 32 && n <= 32
    ensures Bit(And(Shr(w, at), Bitmask(n)), j) <==> j < n && at + j < 32 && Bit(w, at + j)
  {
    BitmaskIsMask(n);
    BitOfAnd(Shr(w, at), Pow2(n) - 1, j);
    BitOfShr(w, at, j);
    BitOfMask(n, j);
    if at + j >= 32 { Pow2Of32(); NoHighBits(w, 32, at + j); }
  }

  /** The n lowest bits of a word, moved up by s. */
  lemma HighPart(w: Word, n: nat, s: nat, j: nat)
    requires n <= 32
    ensures Bit(Shl(And(w, Bitmask(n)), s), j) <==> s <= j < s + n && Bit(w, j - s)
  {
    BitmaskIsMask(n);
    BitOfShl(And(w, Pow2(n) - 1), s, j);
    if s <= j {
      BitOfAnd(w, Pow2(n) - 1, j - s);
      BitOfMask(n, j - s);
    }
  }

  /** The n stream bits from pos on are the bits of w from `at` on, then those of the next word. */
  ghost predicate Shows(src: Stream, pos: nat, n: nat, w: Word, next: Word, at: nat)
    requires at < 32
  {
    forall q :: pos <= q < pos + n ==>
      src(q) == if at + q - pos < 32 then Bit(w, at + q - pos) else Bit(next, at + q - pos - 32)
  }

  /** A chunk inside one word. */
  lemma CutInside(src: Stream, pos: nat, w: Word, next: Word, at: nat, n: nat)
    requires at < 32 && n < 32 && at + n <= 32
    requires Shows(src, pos, n, w, next, at)
    ensures And(Shr(w, at), Bitmask(n)) == Chunk(src, pos, n)
  {
    forall j: nat ensures Bit(And(Shr(w, at), Bitmask(n)), j) == Bit(Chunk(src, pos, n), j) {
      LowPart(w, at, n, j);
      BitOfChunk(src, pos, n, j);
    }
    SameBits(And(Shr(w, at), Bitmask(n)), Chunk(src, pos, n));
  }

  /** A chunk that runs over into the next word. */
  lemma CutAcross(src: Stream, pos: nat, w: Word, next: Word, at: nat, n: nat, carry: nat)
    requires at < 32 && n < 32 && carry == at + n - 32
    requires Shows(src, pos, n, w, next, at)
    ensures Or(And(Shr(w, at), Bitmask(n)), Shl(And(next, Bitmask(carry)), n - carry)) == Chunk(src, pos, n)
  {
    var low, high := And(Shr(w, at), Bitmask(n)), Shl(And(next, Bitmask(carry)), n - carry);
    forall j: nat ensures Bit(Or(low, high), j) == Bit(Chunk(src, pos, n), j) {
      BitOfOr(low, high, j);
      LowPart(w, at, n, j);
      HighPart(next, carry, n - carry, j);
      BitOfChunk(src, pos, n, j);
    }
    SameBits(Or(low, high), Chunk(src, pos, n));
  }

  /** Where a stream position lies: digest, word and bit. */
  lemma Locate(r: nat, blk: nat, e: nat)
    requires blk < HASH_INTEGERS && e < 32
    ensures var q := HASH_BITS * r + 32 * blk + e;
            q / HASH_BITS == r && q % HASH_BITS == 32 * blk + e && q % HASH_BITS / 32 == blk && q % 32 == e
  {
    var q := HASH_BITS * r + 32 * blk + e;
    assert q % 32 == (32 * (6 * r + blk) + e) % 32;
  }

  /** The word behind word blk of digest r. */
  function WordAfter(hash: PairHash, input: Bytes, r: nat, blk: nat): Word
    requires blk < HASH_INTEGERS
  {
    if blk == HASH_INTEGERS - 1 then Digest(hash, input, r + 1)[0] else Digest(hash, input, r)[blk + 1]
  }

  lemma ChainShowsAt(hash: PairHash, input: Bytes, r: nat, blk: nat, e: nat)
    requires blk < HASH_INTEGERS && e < 64
    ensures Chain(hash, input)(HASH_BITS * r + 32 * blk + e) ==
            if e < 32 then Bit(Digest(hash, input, r)[blk], e) else Bit(WordAfter(hash, input, r, blk), e - 32)
  {
    if e < 32 { Locate(r, blk, e); }
    else if blk == HASH_INTEGERS - 1 { Locate(r + 1, 0, e - 32); }
    else { Locate(r, blk + 1, e - 32); }
  }

  lemma ChainShows(hash: PairHash, input: Bytes, r: nat, blk: nat, at: nat, n: nat, pos: nat)
    requires blk < HASH_INTEGERS && at < 32 && n < 32 && pos == HASH_BITS * r + 32 * blk + at
    ensures Shows(Chain(hash, input), pos, n, Digest(hash, input, r)[blk], WordAfter(hash, input, r, blk), at)
  {
    var w, next := Digest(hash, input, r)[blk], WordAfter(hash, input, r, blk);
    forall q: nat | pos <= q < pos + n
      ensures Chain(hash, input)(q) == if at + q - pos < 32 then Bit(w, at + q - pos) else Bit(next, at + q - pos - 32)
    {
      var e := at + q - pos;
      assert q == HASH_BITS * r + 32 * blk + e;
      ChainShowsAt(hash, input, r, blk, e);
    }
  }

  /** The two-part expression of compute is the next chunk of the chain. */
  lemma ChunkOfWords(hash: PairHash, input: Bytes, r: nat, ptr: nat, n: nat, pos: nat)
    requires ptr < HASH_BITS && n < 32 && pos == HASH_BITS * r + ptr
    ensures Chunk(Chain(hash, input), pos, n) ==
            TwoParts(Digest(hash, input, r)[ptr / 32], WordAfter(hash, input, r, ptr / 32), ptr % 32, n)
  {
    ChainShows(hash, input, r, ptr / 32, ptr % 32, n, pos);
    TwoPartsShown(Chain(hash, input), pos, Digest(hash, input, r)[ptr / 32],
                  WordAfter(hash, input, r, ptr / 32), ptr % 32, n);
  }

  function TwoParts(w: Word, next: Word, at: nat, n: nat): nat
    requires at < 32 && n < 32
  {
    var low, carry := And(Shr(w, at), Bitmask(n)), at + n - 32;
    if carry > 0 then Or(low, Shl(And(next, Bitmask(carry)), n - carry)) else low
  }

  lemma TwoPartsShown(src: Stream, pos: nat, w: Word, next: Word, at: nat, n: nat)
    requires at < 32 && n < 32 && Shows(src, pos, n, w, next, at)
    ensures Chunk(src, pos, n) == TwoParts(w, next, at, n)
  {
    if at + n > 32 { CutAcross(src, pos, w, next, at, n, at + n - 32); } else { CutInside(src, pos, w, next, at, n); }
  }

  lemma GivenShows(words: seq<Word>, ptr: nat, n: nat)
    requires |words| == HASH_INTEGERS && ptr < HASH_BITS && n < 32 && ptr + n <= HASH_BITS
    ensures var blk := ptr / 32;
            Shows(Given(words), ptr, n, words[blk], if blk == HASH_INTEGERS - 1 then 0 else words[blk + 1], ptr % 32)
  {
    var src, blk, at := Given(words), ptr / 32, ptr % 32;
    forall q: nat | ptr <= q < ptr + n
      ensures src(q) == if at + q - ptr < 32 then Bit(words[blk], at + q - ptr)
                        else Bit(if blk == HASH_INTEGERS - 1 then 0 else words[blk + 1], at + q - ptr - 32)
    {
    }
  }

  /** The wanted indices are all inside the first 192 bits. */
  ghost predicate Fits(src: Stream, p: Params) {
    exists n: nat :: Offset(n, p.shash) <= HASH_BITS && Enough(src, p, n)
  }

  lemma NoMoreFit(src: Stream, p: Params, c: nat)
    requires |Selected(src, p, c)| < p.nhash && Offset(c + 1, p.shash) > HASH_BITS
    ensures !Fits(src, p)
  {
    forall n: nat | Offset(n, p.shash) <= HASH_BITS ensures !Enough(src, p, n) {
      if n > c { OffsetsGrow(c + 1, n, p.shash); assert false; }
      SelectedGrows(src, p, n, c);
    }
  }

  ghost predicate Short(src: Stream, p: Params, c: nat) {
    |Selected(src, p, c)| < p.nhash
  }

  /** Less than `last` chunks have been cut as long as values are missing. */
  ghost predicate Bounded(src: Stream, p: Params, last: nat) {
    forall c: nat {:trigger Short(src, p, c)} :: Short(src, p, c) ==> c < last
  }

  lemma EnoughBounds(src: Stream, p: Params, last: nat)
    requires Enough(src, p, last)
    ensures Bounded(src, p, last)
  {
    forall c: nat | Short(src, p, c) ensures c < last {
      if last <= c { SelectedGrows(src, p, last, c); }
    }
  }

  // ---------- The class ----------

  class Khash {
    const params: Params
    const hash: PairHash
    const res: array<nat>   // digests in res[1..nhash]

    ghost predicate Ready() {
      params.Allowed() && res.Length == params.nhash + 1
    }

    ghost function Indices(): seq<nat>
      reads res
    {
      if res.Length == 0 then [] else res[1..]
    }

    constructor (params: Params, hash: PairHash)
      requires params.Allowed()
      ensures Ready() && this.params == params && this.hash == hash && fresh(res)
    {
      this.params := params;
      this.hash := hash;
      res := new nat[params.nhash + 1];
    }

    method H(k: nat) returns (d: nat)
      requires Ready() && 1 <= k <= params.nhash
      ensures d == Indices()[k - 1]
    {
      d := res[k];
    }

    /** The scan for a repeat of res[k], which lowers its own bound when it finds one: the value at the
        bound is then a different one, and no second repeat can be met. */
    method SkipRepeat(k: nat) returns (k': nat)
      requires 1 <= k < res.Length
      requires Distinct(res[1..k])
      ensures k' == if res[k] in res[1..k] then k - 1 else k
    {
      k' := k;
      var i := 1;
      while i < k'
        invariant 1 <= i && k - 1 <= k' <= k && i <= k
        invariant k' == k ==> res[k] !in res[1..i]
        invariant k' < k ==> res[k] in res[1..k]
      {
        assert k' < k && i < k' ==> res[1..k][i - 1] != res[1..k][k' - 1];
        if res[i] == res[k'] { k' := k' - 1; }
        i := i + 1;
      }
    }

    /** One index cut from a given digest at ptr. */
    method CutGiven(msgdig: seq<Word>, ptr: nat, k: nat, ghost pos: nat)
      requires pos == ptr && Ready() && 1 <= k <= params.nhash
      requires |msgdig| == HASH_INTEGERS && ptr + params.shash <= HASH_BITS
      modifies res
      ensures res[k] == Chunk(Given(msgdig), pos, params.shash) && res[1..k] == old(res[1..k])
    {
      var blk, at := ptr / 32, ptr % 32;
      GivenShows(msgdig, ptr, params.shash);
      res[k] := And(Shr(msgdig[blk], at), Bitmask(params.shash));
      var carry := at + params.shash - 32;
      if carry > 0 {
        CutAcross(Given(msgdig), ptr, msgdig[blk], msgdig[blk + 1], at, params.shash, carry);
        blk := blk + 1;
        res[k] := Or(res[k], Shl(And(msgdig[blk], Bitmask(carry)), params.shash - carry));
      } else {
        CutInside(Given(msgdig), ptr, msgdig[blk], if blk == HASH_INTEGERS - 1 then 0 else msgdig[blk + 1],
                  at, params.shash);
      }
    }

    /** split: indices out of one given digest.  ok is false when the assert on ptr fails, after a look
        at the word behind the digest. */
    method Split(msgdig: seq<Word>) returns (ok: bool)
      requires Ready() && |msgdig| == HASH_INTEGERS
      modifies res
      ensures ok ==> IsOutcome(Given(msgdig), params, Indices())
      ensures ok <==> Fits(Given(msgdig), params)
    {
      ghost var src, c := Given(msgdig), 0;
      var ptr, k := 0, 1;
      while k <= params.nhash
        invariant 1 <= k <= params.nhash + 1 && ptr == Offset(c, params.shash) <= HASH_BITS
        invariant res[1..k] == Selected(src, params, c)
        decreases HASH_BITS - ptr
      {
        if ptr + params.shash > HASH_BITS {
          NoMoreFit(src, params, c);
          return false;
        }
        ptr, k := SplitNext(msgdig, ptr, k, c);
        c := c + 1;
      }
      ok := true;
      assert Indices() == Selected(src, params, c) && Enough(src, params, c);
    }

    method SplitNext(msgdig: seq<Word>, ptr: nat, k: nat, ghost c: nat) returns (ptr': nat, k': nat)
      requires Ready() && 1 <= k <= params.nhash && |msgdig| == HASH_INTEGERS
      requires ptr == Offset(c, params.shash) && ptr + params.shash <= HASH_BITS
      requires res[1..k] == Selected(Given(msgdig), params, c)
      modifies res
      ensures ptr' == ptr + params.shash == Offset(c + 1, params.shash)
      ensures 1 <= k' <= params.nhash + 1 && res[1..k'] == Selected(Given(msgdig), params, c + 1)
    {
      CutGiven(msgdig, ptr, k, ptr);
      k' := Keep(k, Given(msgdig), c);
      ptr' := ptr + params.shash;
    }

    /** The end of both loops: the value cut last is kept, or dropped when it is a repeat. */
    method Keep(k: nat, ghost src: Stream, ghost c: nat) returns (k': nat)
      requires Ready() && 1 <= k <= params.nhash
      requires res[1..k] == Selected(src, params, c) && res[k] == Cut(src, params, c)
      ensures 1 <= k' <= params.nhash + 1 && res[1..k'] == Selected(src, params, c + 1)
    {
      k' := k;
      if params.norep {
        SelectedAreDistinct(src, params, c);
        k' := SkipRepeat(k);
      }
      k' := k' + 1;
      assert res[1..k + 1] == res[1..k] + [res[k]];
    }
  
    /** Three calls of hashlittle2, each overwriting its own pair of words. */
    method Refill(input: Bytes, msgdig: seq<Word>) returns (d: seq<Word>)
      requires |msgdig| == HASH_INTEGERS
      ensures d == Rehash(hash, input, msgdig) && |d| == 6
      ensures (d[0], d[1]) == hash(input, msgdig[0], msgdig[1])
      ensures (d[2], d[3]) == hash(input, msgdig[2], msgdig[3])
      ensures (d[4], d[5]) == hash(input, msgdig[4], msgdig[5])
    {
      d := msgdig;
      var r := hash(input, d[0], d[1]);
      d := d[0 := r.0][1 := r.1];
      r := hash(input, d[2], d[3]);
      d := d[2 := r.0][3 := r.1];
      r := hash(input, d[4], d[5]);
      d := d[4 := r.0][5 := r.1];
    }

    /** The second half of a cut: the bits that lie in the word behind `blk`. */
    method CutRest(input: Bytes, msgdig: seq<Word>, blk: int, carry: int, k: nat,
                    ghost r: nat, ghost ptr: nat, ghost pos: nat)
      requires Ready() && 1 <= k <= params.nhash && |msgdig| == HASH_INTEGERS
      requires pos == HASH_BITS * r + ptr && ptr < HASH_BITS && carry == ptr % 32 + params.shash - 32
      requires res[k] == And(Shr(Digest(hash, input, r)[ptr / 32], ptr % 32), Bitmask(params.shash))
      requires -1 <= blk < HASH_INTEGERS
      requires carry > 0 ==> blk + 1 < HASH_INTEGERS && msgdig[blk + 1] == WordAfter(hash, input, r, ptr / 32)
      modifies res
      ensures res[k] == Chunk(Chain(hash, input), pos, params.shash) && res[1..k] == old(res[1..k])
    {
      ChunkOfWords(hash, input, r, ptr, params.shash, pos);
      if carry > 0 { res[k] := Or(res[k], Shl(And(msgdig[blk + 1], Bitmask(carry)), params.shash - carry)); }
    }

    /** One index cut from the chain at ptr, taking the next digest on the way when this one is used up. */
    method CutChain(input: Bytes, msgdig: seq<Word>, ptr: nat, k: nat, ghost r: nat, ghost pos: nat)
      returns (d: seq<Word>, ptr': nat)
      requires Ready() && 1 <= k <= params.nhash
      requires ptr < HASH_BITS && msgdig == Digest(hash, input, r) && pos == HASH_BITS * r + ptr
      modifies res
      ensures res[k] == Chunk(Chain(hash, input), pos, params.shash) && res[1..k] == old(res[1..k])
      ensures ptr' < HASH_BITS
      ensures if ptr + params.shash < HASH_BITS then ptr' == ptr + params.shash && d == msgdig
              else ptr' == ptr + params.shash - HASH_BITS && d == Digest(hash, input, r + 1)
    {
      var blk: int, at, p := ptr / 32, ptr % 32, ptr as int;
      d := msgdig;
      res[k] := And(Shr(d[blk], at), Bitmask(params.shash));
      var carry := at + params.shash - 32;
      if carry >= 0 && blk == HASH_INTEGERS - 1 {
        d := Refill(input, d);
        p := p - HASH_BITS;
        blk := -1;
      }
      CutRest(input, d, blk, carry, k, r, ptr, pos);
      p := p + params.shash;
      assert 0 <= p <= HASH_BITS;
      ptr' := p;
    }

    /** c chunks have been cut from the chain of the input, the last digest made being number r. */
    ghost predicate CutSoFar(input: Bytes, msgdig: seq<Word>, ptr: nat, k: nat, c: nat, r: nat)
      reads res
    {
      && Ready() && 1 <= k <= params.nhash + 1
      && ptr < HASH_BITS && Offset(c, params.shash) == HASH_BITS * r + ptr
      && msgdig == Digest(hash, input, r)
      && res[1..k] == Selected(Chain(hash, input), params, c)
    }

    method CutNext(input: Bytes, msgdig: seq<Word>, ptr: nat, k: nat, ghost c: nat, ghost r: nat, ghost last: nat)
      returns (d: seq<Word>, ptr': nat, k': nat, ghost r': nat)
      requires CutSoFar(input, msgdig, ptr, k, c, r) && k <= params.nhash
      requires Bounded(Chain(hash, input), params, last)
      modifies res
      ensures CutSoFar(input, d, ptr', k', c + 1, r') && c < last
    {
      assert Short(Chain(hash, input), params, c);
      d, ptr' := CutChain(input, msgdig, ptr, k, r, Offset(c, params.shash));
      r' := if ptr + params.shash < HASH_BITS then r else r + 1;
      k' := Keep(k, Chain(hash, input), c);
    }

    method FirstDigest(input: Bytes) returns (d: seq<Word>)
      requires Ready()
      ensures CutSoFar(input, d, 0, 1, 0, 0)
    {
      d := Refill(input, [1, 2, 3, 4, 5, 6]);
    }

    /** The loop of compute; c is how many chunks it cuts. */
    method Extract(input: Bytes, ghost last: nat) returns (ghost c: nat)
      requires Ready() && Bounded(Chain(hash, input), params, last)
      modifies res
      ensures res[1..params.nhash + 1] == Selected(Chain(hash, input), params, c)
    {
      ghost var r: nat := 0;
      c := 0;
      var msgdig := FirstDigest(input);
      var ptr: nat, k: nat := 0, 1;
      while k <= params.nhash
        invariant c <= last && CutSoFar(input, msgdig, ptr, k, c, r)
        decreases last - c
      {
        msgdig, ptr, k, r := CutNext(input, msgdig, ptr, k, c, r, last);
        c := c + 1;
      }
    }

    /** compute: the indices of an input.  It returns exactly when the chain has enough of them. */
    method Compute(input: Bytes)
      requires Ready() && input != [] && Completes(Chain(hash, input), params)
      modifies res
      ensures IsOutcome(Chain(hash, input), params, Indices())
    {
      ghost var last: nat :| Enough(Chain(hash, input), params, last);
      EnoughBounds(Chain(hash, input), params, last);
      ghost var c := Extract(input, last);
      assert Indices() == Selected(Chain(hash, input), params, c);
    }
  }

  // ---------- When compute returns ----------

  /** The constructor's assert is meant to exclude an endless extraction without repeats.  For an arbitrary
      pair hash it does not: one that always yields zero offers a single index however long its chain. */
  lemma ConstantHashNeverCompletes(input: Bytes)
    ensures var p := Params(2, 8, true); p.Allowed() && !Completes(Chain(ZeroHash, input), p)
  {
    var p := Params(2, 8, true);
    assert Pow2(8) == 256;
    forall n: nat ensures !Enough(Chain(ZeroHash, input), p, n) {
      forall i: nat | i < n ensures Cut(Chain(ZeroHash, input), p, i) == 0 { ZeroCut(input, p, i); }
      OnlyOneSelected(Chain(ZeroHash, input), p, 0, n);
    }
  }

  /** Where all chunks are one value, that value is all a selection without repeats keeps. */
  lemma {:induction false} OnlyOneSelected(src: Stream, p: Params, v: nat, n: nat)
    requires p.norep && forall i: nat {:trigger Cut(src, p, i)} :: i < n ==> Cut(src, p, i) == v
    ensures Selected(src, p, n) == if n == 0 then [] else [v]
  {
    if n > 0 {
      OnlyOneSelected(src, p, v, n - 1);
      assert Cut(src, p, n - 1) == v;
    }
  }

  lemma ZeroCut(input: Bytes, p: Params, i: nat)
    ensures Cut(Chain(ZeroHash, input), p, i) == 0
  {
    ZeroChunks(input, Offset(i, p.shash), p.shash);
  }

  function ZeroHash(input: Bytes, x: Word, y: Word): (Word, Word) { (0, 0) }

  lemma {:induction false} ZeroChunks(input: Bytes, from: nat, n: nat)
    ensures Chunk(Chain(ZeroHash, input), from, n) == 0
    decreases n
  {
    if n > 0 {
      BitOfZero(from % 32);
      assert Digest(ZeroHash, input, from / HASH_BITS) == [0, 0, 0, 0, 0, 0];
      ZeroChunks(input, from + 1, n - 1);
    }
  }

  /** With repeats allowed the extraction always completes, after nhash chunks. */
  lemma RepeatsAlwaysComplete(src: Stream, p: Params)
    requires !p.norep
    ensures Completes(src, p)
  {
    SelectedLength(src, p, p.nhash);
    assert Enough(src, p, p.nhash);
  }

  /** Distinct members of t are not more than t is long. */
  lemma {:induction false} DistinctFit(s: seq<nat>, t: seq<nat>)
    requires Distinct(s) && forall a :: 0 <= a < |s| ==> s[a] in t
    ensures |s| <= |t|
  {
    if s != [] {
      var last := s[|s| - 1];
      var i :| 0 <= i < |t| && t[i] == last;
      var init, t' := s[..|s| - 1], t[..i] + t[i + 1..];
      forall a | 0 <= a < |init| ensures init[a] in t' {
        var k :| 0 <= k < |t| && t[k] == s[a];
        assert t[k] == if k < i then t'[k] else t'[k - 1];
      }
      DistinctFit(init, t');
    }
  }

  // ---------- What decides whether it does ----------

  /** What the extraction knows of its chain before chunk n: the digest and the bit it has come to. */
  datatype Place = Place(digest: seq<Word>, ptr: nat)

  function PlaceAt(hash: PairHash, input: Bytes, shash: nat, n: nat): (q: Place)
    ensures |q.digest| == HASH_INTEGERS && q.ptr < HASH_BITS
  {
    Place(Digest(hash, input, Offset(n, shash) / HASH_BITS), Offset(n, shash) % HASH_BITS)
  }

  lemma {:induction false} SameDigestsFollow(hash: PairHash, input: Bytes, r: nat, t: nat, m: nat)
    requires Digest(hash, input, r) == Digest(hash, input, t)
    ensures Digest(hash, input, r + m) == Digest(hash, input, t + m)
  {
    if m > 0 { SameDigestsFollow(hash, input, r, t, m - 1); }
  }

  lemma ChainAt(hash: PairHash, input: Bytes, r: nat, m: nat, e: nat, q: nat)
    requires e < HASH_BITS && q == HASH_BITS * r + (HASH_BITS * m + e)
    ensures Chain(hash, input)(q) == Bit(Digest(hash, input, r + m)[e / 32], e % 32)
  {
    assert q == HASH_BITS * (r + m) + e;
    assert q == 32 * (6 * (r + m)) + e;
  }

  /** From one place the chain goes on in one way. */
  lemma SameBitsFollow(hash: PairHash, input: Bytes, r: nat, t: nat, x: nat, a: nat, b: nat)
    requires Digest(hash, input, r) == Digest(hash, input, t) && a == HASH_BITS * r + x && b == HASH_BITS * t + x
    ensures Chain(hash, input)(a) == Chain(hash, input)(b)
  {
    var m, e := x / HASH_BITS, x % HASH_BITS;
    SameDigestsFollow(hash, input, r, t, m);
    ChainAt(hash, input, r, m, e, a);
    ChainAt(hash, input, t, m, e, b);
  }

  lemma {:induction false} SameChunksFollow(hash: PairHash, input: Bytes, r: nat, t: nat, x: nat,
                                           a: nat, b: nat, n: nat)
    requires Digest(hash, input, r) == Digest(hash, input, t) && a == HASH_BITS * r + x && b == HASH_BITS * t + x
    ensures Chunk(Chain(hash, input), a, n) == Chunk(Chain(hash, input), b, n)
    decreases n
  {
    if n > 0 {
      SameBitsFollow(hash, input, r, t, x, a, b);
      SameChunksFollow(hash, input, r, t, x + 1, a + 1, b + 1, n - 1);
    }
  }

  lemma {:induction false} OffsetsAdd(m: nat, k: nat, s: nat)
    ensures Offset(m + k, s) == Offset(m, s) + Offset(k, s)
  {
    if k > 0 { OffsetsAdd(m, k - 1, s); }
  }

  lemma SameCutsFollow(hash: PairHash, input: Bytes, p: Params, i: nat, j: nat, k: nat)
    requires PlaceAt(hash, input, p.shash, i) == PlaceAt(hash, input, p.shash, j)
    ensures Cut(Chain(hash, input), p, i + k) == Cut(Chain(hash, input), p, j + k)
  {
    var s := p.shash;
    var r, t, ptr := Offset(i, s) / HASH_BITS, Offset(j, s) / HASH_BITS, Offset(i, s) % HASH_BITS;
    OffsetsAdd(i, k, s);
    OffsetsAdd(j, k, s);
    SameChunksFollow(hash, input, r, t, ptr + Offset(k, s), Offset(i + k, s), Offset(j + k, s), s);
  }

  /** From chunk i and from chunk j on the same chunks are cut. */
  ghost predicate CutAlike(src: Stream, p: Params, i: nat, j: nat, k: nat) {
    Cut(src, p, i + k) == Cut(src, p, j + k)
  }

  /** Then, behind chunk j, the extraction meets none it has not met. */
  lemma {:induction false} NothingNew(src: Stream, p: Params, i: nat, j: nat, n: nat)
    requires p.norep && i < j <= n && forall k: nat :: CutAlike(src, p, i, j, k)
    ensures Selected(src, p, n) == Selected(src, p, j)
  {
    if n > j {
      NothingNew(src, p, i, j, n - 1);
      assert CutAlike(src, p, i, j, n - 1 - j);
      SelectedMissNothing(src, p, n - 1, i + (n - 1 - j));
    }
  }

  lemma AlikeDecides(src: Stream, p: Params, i: nat, j: nat)
    requires p.norep && i < j && forall k: nat :: CutAlike(src, p, i, j, k)
    ensures Completes(src, p) <==> Enough(src, p, j)
  {
    if n: nat :| Enough(src, p, n) {
      if n <= j { SelectedGrows(src, p, n, j); } else { NothingNew(src, p, i, j, n); }
    }
  }

  /** A place met twice decides: the extraction completes if and only if it has enough by the second time. */
  lemma ReturnDecides(hash: PairHash, input: Bytes, p: Params, i: nat, j: nat)
    requires p.norep && i < j && PlaceAt(hash, input, p.shash, i) == PlaceAt(hash, input, p.shash, j)
    ensures Completes(Chain(hash, input), p) <==> Enough(Chain(hash, input), p, j)
  {
    forall k: nat ensures CutAlike(Chain(hash, input), p, i, j, k) { SameCutsFollow(hash, input, p, i, j, k); }
    AlikeDecides(Chain(hash, input), p, i, j);
  }

  // There are finitely many places

  function Limit(n: nat): (l: nat)
    ensures l >= 1
  {
    if n == 0 then 1 else 0x1_0000_0000 * Limit(n - 1)
  }

  /** Words as the digits of one number. */
  function Number(ws: seq<Word>): (x: nat)
    ensures x < Limit(|ws|)
  {
    if ws == [] then 0 else ws[0] + 0x1_0000_0000 * Number(ws[1..])
  }

  lemma {:induction false} NumberDecides(a: seq<Word>, b: seq<Word>)
    requires |a| == |b| && Number(a) == Number(b)
    ensures a == b
  {
    if a != [] {
      LowestDigit(a[0], Number(a[1..]), b[0], Number(b[1..]));
      NumberDecides(a[1..], b[1..]);
      assert a == [a[0]] + a[1..] && b == [b[0]] + b[1..];
    }
  }

  lemma LowestDigit(d: Word, x: nat, e: Word, y: nat)
    requires d + 0x1_0000_0000 * x == e + 0x1_0000_0000 * y
    ensures d == e && x == y
  {
  }

  function Places(): nat { HASH_BITS * Limit(HASH_INTEGERS) }

  function Code(q: Place): (x: nat)
    requires |q.digest| == HASH_INTEGERS && q.ptr < HASH_BITS
    ensures x < Places()
  {
    q.ptr + HASH_BITS * Number(q.digest)
  }

  lemma CodeDecides(q: Place, q': Place)
    requires |q.digest| == |q'.digest| == HASH_INTEGERS && q.ptr < HASH_BITS
    requires q'.ptr < HASH_BITS && Code(q) == Code(q')
    ensures q == q'
  {
    LowestPlace(q.ptr, Number(q.digest), q'.ptr, Number(q'.digest));
    NumberDecides(q.digest, q'.digest);
  }

  lemma LowestPlace(d: nat, x: nat, e: nat, y: nat)
    requires d < HASH_BITS && e < HASH_BITS && d + HASH_BITS * x == e + HASH_BITS * y
    ensures d == e && x == y
  {
  }

  function Values(f: nat -> nat, n: nat): (s: seq<nat>)
    ensures |s| == n && forall k :: 0 <= k < n ==> s[k] == f(k)
  {
    if n == 0 then [] else Values(f, n - 1) + [f(n - 1)]
  }

  /** Among b + 1 values below b two are the same. */
  lemma Pigeonhole(f: nat -> nat, b: nat) returns (i: nat, j: nat)
    requires forall n: nat :: n <= b ==> f(n) < b
    ensures i < j <= b && f(i) == f(j)
  {
    var s, t := Values(f, b + 1), Values((n: nat) => n, b);
    forall a | 0 <= a < |s| ensures s[a] in t { assert t[f(a)] == s[a]; }
    if Distinct(s) { DistinctFit(s, t); }
    i, j :| 0 <= i < j < |s| && s[i] == s[j];
  }

  /** Whether the extraction completes is settled by an explicit number of chunks, for every pair hash. */
  lemma CompletesWithinPlaces(hash: PairHash, input: Bytes, p: Params)
    requires p.norep
    ensures Completes(Chain(hash, input), p) <==> Enough(Chain(hash, input), p, Places())
  {
    var i, j := Pigeonhole(n => Code(PlaceAt(hash, input, p.shash, n)), Places());
    CodeDecides(PlaceAt(hash, input, p.shash, i), PlaceAt(hash, input, p.shash, j));
    ReturnDecides(hash, input, p, i, j);
    SelectedGrows(Chain(hash, input), p, j, Places());
  }
}
