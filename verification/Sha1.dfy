/** Streaming SHA-1 (lib/bloom/sha1.h, sha1.cpp) against the standard, FIPS PUB 180-1. */
module Sha1 {

  type Octet = bv8
  type Word = bv32

  // ---------- The standard ----------

  function Rotl(n: bv6, x: Word): Word
    requires 0 < n < 32
  {
    (x << n) | (x >> (32 - n))
  }

  function Choose(b: Word, c: Word, d: Word): Word { (b & c) | (!b & d) }

  function Parity(b: Word, c: Word, d: Word): Word { b ^ c ^ d }

  function Majority(b: Word, c: Word, d: Word): Word { (b & c) | (b & d) | (c & d) }

  /** Section 5: the logical functions, */
  function F(t: nat, b: Word, c: Word, d: Word): Word {
    if t < 20 then Choose(b, c, d) else if t < 40 then Parity(b, c, d)
    else if t < 60 then Majority(b, c, d) else Parity(b, c, d)
  }

  /** section 6: and the constants of step t. */
  function K(t: nat): Word {
    if t < 20 then 0x5A827999 else if t < 40 then 0x6ED9EBA1 else if t < 60 then 0x8F1BBCDC else 0xCA62C1D6
  }

  datatype State = State(a: Word, b: Word, c: Word, d: Word, e: Word)

  const INITIAL: State := State(0x67452301, 0xEFCDAB89, 0x98BADCFE, 0x10325476, 0xC3D2E1F0)

  function WordOf(b: seq<Octet>, at: nat): Word
    requires at + 4 <= |b|
  {
    FourOctets(b[at], b[at + 1], b[at + 2], b[at + 3])
  }

  function FourOctets(o: Octet, p: Octet, q: Octet, r: Octet): Word {
    ((o as bv32) << 24) | ((p as bv32) << 16) | ((q as bv32) << 8) | (r as bv32)
  }

  /** The 16 words of the block that begins at `at`. */
  function Words(b: seq<Octet>, at: nat): (words: seq<Word>)
    requires at + 64 <= |b|
    ensures |words| == 16
  {
    seq(16, i requires 0 <= i < 16 => WordOf(b, at + 4 * i))
  }

  function Mixed(w: Word, x: Word, y: Word, z: Word): Word { Rotl(1, w ^ x ^ y ^ z) }

  /** Section 7: word t of the schedule, */
  function W(words: seq<Word>, t: nat): Word
    requires |words| == 16
  {
    if t < 16 then words[t] else Mixed(W(words, t - 3), W(words, t - 8), W(words, t - 14), W(words, t - 16))
  }

  /** all of it, */
  lemma Scheduled(words: seq<Word>) returns (all: seq<Word>)
    requires |words| == 16
    ensures |all| == 80 && all[..16] == words && forall j :: 0 <= j < 80 ==> all[j] == W(words, j)
    ensures forall t {:trigger Follows(all, t)} :: 16 <= t < 80 ==> Follows(all, t)
  {
    all := seq(80, j requires 0 <= j < 80 => W(words, j));
  }

  predicate BitOf(x: Word, i: bv6)
    requires i < 32
  {
    x & ((1 as Word) << i) != 0
  }

  /** Bit i of r is the parity of the bits one place lower, around the word, of four others. */
  ghost predicate IsParity(w: Word, x: Word, y: Word, z: Word, r: Word) {
    forall i: bv6 {:trigger BitOf(r, i)} :: i < 32 ==>
      var j := (i + 31) & 31;
      BitOf(r, i) == (((BitOf(w, j) != BitOf(x, j)) != BitOf(y, j)) != BitOf(z, j))
  }

  /** So is word t of the schedule. */
  ghost predicate ParityAt(all: seq<Word>, t: nat)
    requires 16 <= t < |all|
  {
    IsParity(all[t - 3], all[t - 8], all[t - 14], all[t - 16], all[t])
  }

  lemma ParityOfMixed(w: Word, x: Word, y: Word, z: Word)
    ensures IsParity(w, x, y, z, Mixed(w, x, y, z))
  {
    forall i: bv6 | i < 32
      ensures var j := (i + 31) & 31;
              BitOf(Mixed(w, x, y, z), i) == (((BitOf(w, j) != BitOf(x, j)) != BitOf(y, j)) != BitOf(z, j))
    {
      ParityOfBit(w, x, y, z, i, (i + 31) & 31);
    }
  }

  lemma ParityOfBit(w: Word, x: Word, y: Word, z: Word, i: bv6, j: bv6)
    requires i < 32 && j == (i + 31) & 31
    ensures BitOf(Mixed(w, x, y, z), i) == (((BitOf(w, j) != BitOf(x, j)) != BitOf(y, j)) != BitOf(z, j))
  {
    ParityOfXor(w, x, y, z, j);
    BitOfRotl(w ^ x ^ y ^ z, i, j);
  }

  lemma BitOfRotl(x: Word, i: bv6, j: bv6)
    requires i < 32 && j == (i + 31) & 31
    ensures BitOf(Rotl(1, x), i) == BitOf(x, j)
  {
  }

  lemma ParityOfXor(w: Word, x: Word, y: Word, z: Word, j: bv6)
    requires j < 32
    ensures BitOf(w ^ x ^ y ^ z, j) == (((BitOf(w, j) != BitOf(x, j)) != BitOf(y, j)) != BitOf(z, j))
  {
  }

  lemma FollowsByParity(all: seq<Word>, t: nat)
    requires 16 <= t < |all| && Follows(all, t)
    ensures ParityAt(all, t)
  {
    ParityOfMixed(all[t - 3], all[t - 8], all[t - 14], all[t - 16]);
  }

  ghost predicate Follows(all: seq<Word>, t: nat)
    requires 16 <= t < |all|
  {
    all[t] == Mixed(all[t - 3], all[t - 8], all[t - 14], all[t - 16])
  }

  function Temp(a: Word, f: Word, e: Word, w: Word, k: Word): Word { Rotl(5, a) + f + e + w + k }

  function Step(s: State, t: nat, w: Word): State {
    State(Temp(s.a, F(t, s.b, s.c, s.d), s.e, w, K(t)), s.a, Rotl(30, s.b), s.c, s.d)
  }

  function Rounds(h: State, words: seq<Word>, t: nat): State
    requires |words| == 16
  {
    if t == 0 then h else Step(Rounds(h, words, t - 1), t - 1, W(words, t - 1))
  }

  function Plus(x: Word, y: Word): Word { x + y }

  function Sum(h: State, s: State): State {
    State(Plus(h.a, s.a), Plus(h.b, s.b), Plus(h.c, s.c), Plus(h.d, s.d), Plus(h.e, s.e)) }

  /** the 80 steps on one block, five for each word, */
  function Compress(h: State, words: seq<Word>): State
    requires |words| == 16
  {
    Sum(h, Rounds(h, words, 5 * |words|))
  }

  /** and the first n blocks. */
  function Hash(b: seq<Octet>, n: nat): State
    requires 64 * n <= |b|
  {
    if n == 0 then INITIAL else Compress(Hash(b, n - 1), Words(b, 64 * (n - 1)))
  }

  /** Section 4: how many zero octets follow the first padding octet. */
  function Zeros(len: nat): nat { (119 - len % 64) % 64 }

  function Put32(x: nat): seq<Octet> {
    [(x / 0x100_0000 % 0x100) as bv8, (x / 0x1_0000 % 0x100) as bv8, (x / 0x100 % 0x100) as bv8, (x % 0x100) as bv8]
  }

  function Pad(m: seq<Octet>): seq<Octet> {
    m + [0x80] + seq(Zeros(|m|), _ => 0) + Put32(8 * |m| / WORD_LIMIT) + Put32(8 * |m| % WORD_LIMIT)
  }

  lemma PadLength(m: seq<Octet>)
    ensures |Pad(m)| == |m| + 9 + Zeros(|m|)
  {
  }

  /** They are the fewest that fill up a block. */
  lemma ZerosAreLeast(len: nat, k: nat)
    ensures (len + 9 + Zeros(len)) % 64 == 0
    ensures (len + 9 + k) % 64 == 0 ==> Zeros(len) <= k
  {
    var q, r := len / 64, len % 64;
    ZerosOf(q, r);
    var all := q + if r <= 55 then 1 else 2;
    assert len + 9 + Zeros(len) == 64 * all;
    if (len + 9 + k) % 64 == 0 {
      var p := (len + 9 + k) / 64;
      assert len + 9 + k == 64 * p;
    }
  }

  lemma ZerosOf(q: nat, r: nat)
    requires r < 64
    ensures Zeros(64 * q + r) == if r <= 55 then 55 - r else 119 - r
  {
    assert (64 * q + r) % 64 == r;
    if r <= 55 { assert 119 - r == 64 + (55 - r); }
  }

  function Digest(m: seq<Octet>): State {
    PadLength(m);
    ZerosAreLeast(|m|, 0);
    Hash(Pad(m), |Pad(m)| / 64)
  }

  // ---------- Blocks are looked at one by one ----------

  lemma SameWords(b: seq<Octet>, at: nat, c: seq<Octet>, to: nat)
    requires at + 64 <= |b| && to + 64 <= |c| && b[at..at + 64] == c[to..to + 64]
    ensures Words(b, at) == Words(c, to)
  {
    var v, w := Words(b, at), Words(c, to);
    forall i | 0 <= i < 16 ensures v[i] == w[i] { SameWord(b, at, c, to, i); }
    assert v == w;
  }

  lemma SameWord(b: seq<Octet>, at: nat, c: seq<Octet>, to: nat, i: nat)
    requires i < 16 && at + 64 <= |b| && to + 64 <= |c| && b[at..at + 64] == c[to..to + 64]
    ensures Words(b, at)[i] == Words(c, to)[i]
  {
    SameOctet(b, at, c, to, 4 * i);
    SameOctet(b, at, c, to, 4 * i + 1);
    SameOctet(b, at, c, to, 4 * i + 2);
    SameOctet(b, at, c, to, 4 * i + 3);
  }

  lemma SameOctet(b: seq<Octet>, at: nat, c: seq<Octet>, to: nat, k: nat)
    requires k < 64 && at + 64 <= |b| && to + 64 <= |c| && b[at..at + 64] == c[to..to + 64]
    ensures b[at + k] == c[to + k]
  {
    assert b[at + k] == b[at..at + 64][k] && c[to + k] == c[to..to + 64][k];
  }

  lemma {:induction false} HashPrefix(b: seq<Octet>, c: seq<Octet>, n: nat)
    requires 64 * n <= |b| && 64 * n <= |c| && b[..64 * n] == c[..64 * n]
    ensures Hash(b, n) == Hash(c, n)
  {
    if n > 0 {
      var at := 64 * (n - 1);
      assert b[..at] == b[..64 * n][..at] && c[..at] == c[..64 * n][..at];
      assert b[at..at + 64] == b[..64 * n][at..] && c[at..at + 64] == c[..64 * n][at..];
      HashPrefix(b, c, n - 1);
      SameWords(b, at, c, at);
    }
  }

  lemma DigestIs(m: seq<Octet>, all: nat)
    requires |Pad(m)| == 64 * all
    ensures Digest(m) == Hash(Pad(m), all)
  {
    WholeBlocks(|Pad(m)|, all);
  }

  lemma WholeBlocks(len: nat, all: nat)
    requires len == 64 * all
    ensures len / 64 == all
  {
  }

  /** The octets of the padded message behind the last whole block. */
  lemma PadTail(m: seq<Octet>, n: nat, i: nat, high: nat, low: nat)
    requires |m| == 64 * n + i && i < 64 && WORD_LIMIT * high + low == 8 * |m| && low < WORD_LIMIT
    ensures 64 * n <= |Pad(m)| && Pad(m)[..64 * n] == m[..64 * n]
    ensures Pad(m)[64 * n..] ==
            m[64 * n..] + [0x80] + (seq(if i <= 55 then 55 - i else 119 - i, _ => 0) + (Put32(high) + Put32(low)))
    ensures |Pad(m)| == 64 * if i <= 55 then n + 1 else n + 2
  {
    ZerosOf(n, i);
    PadLength(m);
    assert 8 * |m| / WORD_LIMIT == high && 8 * |m| % WORD_LIMIT == low;
    var rest := [0x80] + (seq(Zeros(|m|), _ => 0) + (Put32(high) + Put32(low)));
    assert Pad(m) == m + rest;
    assert (m + rest)[64 * n..] == m[64 * n..] + rest;
    assert (m + rest)[..64 * n] == m[..64 * n];
  }

  lemma BlockAt(m: seq<Octet>, at: nat, first: seq<Octet>, rest: seq<Octet>)
    requires at <= |m| && m[at..] == first + rest && |first| == 64
    ensures |m| >= at + 64 && m[at..at + 64] == first && m[at + 64..] == rest
  {
    assert m[at..at + 64] == m[at..][..64] && m[at + 64..] == m[at..][64..];
  }

  // ---------- The class ----------

  const WORD_LIMIT: nat := 0x1_0000_0000
  const LONGEST: nat := 0x2000_0000_0000_0000   // 2^61 octets, 2^64 bits

  class SHA1 {
    const H: array<Word>
    const block: array<Octet>
    var index: nat
    var lengthLow: nat
    var lengthHigh: nat
    var computed: bool
    var corrupted: bool
    ghost var msg: seq<Octet>   // taken in so far
    ghost var blocks: nat       // whole blocks among it, already processed

    ghost function Chaining(): State
      requires H.Length == 5
      reads H
    {
      State(H[0], H[1], H[2], H[3], H[4])
    }

    /** The blocks processed and the octets in the buffer add up to the message, */
    ghost predicate Buffered()
      requires H.Length == 5 && block.Length == 64
      reads this, H, block
    {
      && index <= 64 && |msg| == 64 * blocks + index
      && Chaining() == Hash(msg, blocks) && block[..index] == msg[64 * blocks..]
    }

    /** and its bits are counted. */
    ghost predicate Counted()
      reads this
    {
      WORD_LIMIT * lengthHigh + lengthLow == 8 * |msg| && lengthLow < WORD_LIMIT && lengthHigh < WORD_LIMIT
    }

    ghost predicate Streaming()
      requires H.Length == 5 && block.Length == 64
      reads this, H, block
    {
      index < 64 && Buffered() && Counted()
    }

    ghost predicate Valid()
      reads this, H, block
    {
      && H.Length == 5 && block.Length == 64 && index < 64
      && (!corrupted ==> if computed then Chaining() == Digest(msg) else Streaming())
    }

    constructor ()
      ensures Valid() && !corrupted && !computed && msg == [] && fresh(H) && fresh(block)
    {
      H := new Word[5];
      block := new Octet[64];
      new;
      Reset();
    }

    method Reset()
      requires H.Length == 5 && block.Length == 64
      modifies this, H
      ensures Valid() && !corrupted && !computed && msg == []
    {
      lengthLow, lengthHigh, index := 0, 0, 0;
      H[0], H[1], H[2], H[3], H[4] := 0x67452301, 0xEFCDAB89, 0x98BADCFE, 0x10325476, 0xC3D2E1F0;
      computed, corrupted := false, false;
      msg, blocks := [], 0;
    }

    method Schedule(ghost words: seq<Word>) returns (w: array<Word>)
      requires block.Length == 64 && words == Words(block[..], 0)
      ensures fresh(w) && w.Length == 80 && forall j :: 0 <= j < 80 ==> w[j] == W(words, j)
      ensures w[..16] == words && forall t {:trigger ParityAt(w[..], t)} :: 16 <= t < 80 ==> ParityAt(w[..], t)
    {
      ghost var all := Scheduled(words);
      w := new Word[80];
      FirstWords(w, words);
      assert w[..16] == all[..16];
      LaterWords(w, all);
      forall j | 0 <= j < 80 ensures w[j] == W(words, j) { assert w[..][j] == all[j]; }
      forall t | 16 <= t < 80 ensures ParityAt(w[..], t) { FollowsByParity(all, t); }
    }

    method LaterWords(w: array<Word>, ghost all: seq<Word>)
      requires w.Length == |all| == 80 && w[..16] == all[..16]
      requires forall t {:trigger Follows(all, t)} :: 16 <= t < 80 ==> Follows(all, t)
      modifies w
      ensures w[..] == all
    {
      for t := 16 to 80
        invariant w[..t] == all[..t]
      {
        NextWord(w, t, all);
      }
    }

    method NextWord(w: array<Word>, t: nat, ghost all: seq<Word>)
      requires 16 <= t < w.Length == |all| && w[..t] == all[..t] && Follows(all, t)
      modifies w
      ensures w[..t + 1] == all[..t + 1]
    {
      ghost var known := w[..t];
      var a, b, c, d := w[t - 3], w[t - 8], w[t - 14], w[t - 16];
      assert known[t - 3] == a && known[t - 8] == b && known[t - 14] == c && known[t - 16] == d;
      w[t] := Mixed(a, b, c, d);
      assert w[..t] == known;
    }

    method FirstWords(w: array<Word>, ghost words: seq<Word>)
      requires block.Length == 64 && words == Words(block[..], 0) && w.Length == 80
      modifies w
      ensures forall j :: 0 <= j < 16 ==> w[j] == words[j]
    {
      for t := 0 to 16
        invariant forall j :: 0 <= j < t ==> w[j] == words[j]
      {
        var word := LoadWord(4 * t);
        assert words[t] == WordOf(block[..], 0 + 4 * t);
        w[t] := word;
      }
    }

    method LoadWord(at: nat) returns (word: Word)
      requires at + 4 <= block.Length
      ensures word == WordOf(block[..], at)
    {
      word := (block[at] as bv32) << 24;
      word := word | ((block[at + 1] as bv32) << 16);
      word := word | ((block[at + 2] as bv32) << 8);
      word := word | (block[at + 3] as bv32);
    }

    method ProcessMessageBlock()
      requires H.Length == 5 && block.Length == 64
      modifies this`index, H
      ensures index == 0 && Chaining() == Compress(old(Chaining()), Words(block[..], 0))
    {
      ghost var h, words := Chaining(), Words(block[..], 0);
      var w := Schedule(words);
      var a, b, c, d, e := H[0], H[1], H[2], H[3], H[4];
      for t := 0 to 20
        invariant State(a, b, c, d, e) == Rounds(h, words, t)
      {
        var temp := Temp(a, Choose(b, c, d), e, w[t], 0x5A827999);
        a, b, c, d, e := temp, a, Rotl(30, b), c, d;
      }
      for t := 20 to 40
        invariant State(a, b, c, d, e) == Rounds(h, words, t)
      {
        var temp := Temp(a, Parity(b, c, d), e, w[t], 0x6ED9EBA1);
        a, b, c, d, e := temp, a, Rotl(30, b), c, d;
      }
      for t := 40 to 60
        invariant State(a, b, c, d, e) == Rounds(h, words, t)
      {
        var temp := Temp(a, Majority(b, c, d), e, w[t], 0x8F1BBCDC);
        a, b, c, d, e := temp, a, Rotl(30, b), c, d;
      }
      for t := 60 to 80
        invariant State(a, b, c, d, e) == Rounds(h, words, t)
      {
        var temp := Temp(a, Parity(b, c, d), e, w[t], 0xCA62C1D6);
        a, b, c, d, e := temp, a, Rotl(30, b), c, d;
      }
      AddToChain(a, b, c, d, e);
      index := 0;
    }

    method AddToChain(a: Word, b: Word, c: Word, d: Word, e: Word)
      requires H.Length == 5
      modifies H
      ensures Chaining() == Sum(old(Chaining()), State(a, b, c, d, e))
    {
      H[0] := Plus(H[0], a);
      H[1] := Plus(H[1], b);
      H[2] := Plus(H[2], c);
      H[3] := Plus(H[3], d);
      H[4] := Plus(H[4], e);
    }

    /** The length of the message grows by eight bits. */
    method CountOctet()
      requires !corrupted && lengthLow < WORD_LIMIT && lengthHigh < WORD_LIMIT && lengthLow % 8 == 0
      modifies this`lengthLow, this`lengthHigh, this`corrupted
      ensures corrupted == (WORD_LIMIT * old(lengthHigh) + old(lengthLow) + 8 == 8 * LONGEST)
      ensures !corrupted ==> WORD_LIMIT * lengthHigh + lengthLow == WORD_LIMIT * old(lengthHigh) + old(lengthLow) + 8
      ensures lengthLow < WORD_LIMIT && lengthHigh < WORD_LIMIT
    {
      lengthLow := (lengthLow + 8) % WORD_LIMIT;
      if lengthLow == 0 {
        lengthHigh := (lengthHigh + 1) % WORD_LIMIT;
        if lengthHigh == 0 { corrupted := true; }
      }
    }

    /** One more octet in the block buffer. */
    method Store(o: Octet)
      requires block.Length == 64 && index < 64
      modifies this`index, block
      ensures index == old(index) + 1 && block[..index] == old(block[..index]) + [o]
    {
      ghost var rest := block[..index];
      block[index] := o;
      index := index + 1;
      assert block[..index] == rest + [o];
    }

    method TakeOctet(o: Octet)
      requires H.Length == 5 && block.Length == 64 && Streaming() && !corrupted
      modifies this`index, this`lengthLow, this`lengthHigh, this`corrupted, this`msg, block
      ensures Buffered() && msg == old(msg) + [o]
      ensures corrupted == (|msg| == LONGEST) && (!corrupted ==> Counted())
    {
      ghost var was := msg;
      Store(o);
      CountOctet();
      msg := msg + [o];
      HashPrefix(was, msg, blocks);
      assert msg[64 * blocks..] == was[64 * blocks..] + [o];
    }

    /** The body of the loop of Input. */
    method InputOctet(o: Octet)
      requires Valid() && !computed && !corrupted
      modifies this, H, block
      ensures Valid() && !computed && corrupted == (|old(msg)| + 1 == LONGEST)
      ensures msg == old(msg) + [o]
    {
      TakeOctet(o);
      if index == 64 { FullBlock(); }
    }

    method FullBlock()
      requires H.Length == 5 && block.Length == 64 && Buffered() && index == 64
      modifies this`index, this`blocks, H
      ensures Buffered() && index == 0
    {
      assert block[..] == block[..64] && msg[64 * blocks..64 * blocks + 64] == msg[64 * blocks..];
      NextBlock();
      assert msg[64 * blocks..] == [];
    }

    /** A block is full. */
    method NextBlock()
      requires H.Length == 5 && block.Length == 64 && |msg| >= 64 * blocks + 64
      requires Chaining() == Hash(msg, blocks) && block[..] == msg[64 * blocks..64 * blocks + 64]
      modifies this`index, this`blocks, H
      ensures index == 0 && blocks == old(blocks) + 1 && Chaining() == Hash(msg, blocks)
    {
      assert block[0..0 + 64] == block[..];
      SameWords(block[..], 0, msg, 64 * blocks);
      ProcessMessageBlock();
      blocks := blocks + 1;
    }

    /** After an empty input nothing has changed; input behind a result, or reaching the longest message
        there may be, spoils the object. */
    method Input(octets: seq<Octet>)
      requires Valid()
      modifies this, H, block
      ensures Valid() && computed == old(computed)
      ensures corrupted <==> old(corrupted) || (octets != [] && (old(computed) || |old(msg)| + |octets| >= LONGEST))
      ensures !corrupted ==> msg == old(msg) + octets
    {
      if octets == [] { return; }
      if computed || corrupted {
        corrupted := true;
        return;
      }
      var i := 0;
      while i < |octets| && !corrupted
        invariant 0 <= i <= |octets| && Valid() && !computed
        invariant msg == old(msg) + octets[..i] && (corrupted <==> |msg| >= LONGEST)
      {
        InputOctet(octets[i]);
        i := i + 1;
      }
    }

    /** The rest of the block from index on, up to n, is filled with zeros. */
    method FillZeros(n: nat)
      requires block.Length == 64 && index <= n <= 64
      modifies this`index, block
      ensures index == n && block[..n] == old(block[..index]) + seq(n - old(index), _ => 0)
    {
      ghost var was, from := block[..index], index;
      while index < n
        invariant from <= index <= n && block[..index] == was + seq(index - from, _ => 0)
      {
        block[index] := 0;
        index := index + 1;
      }
    }

    method StoreLength()
      requires block.Length == 64 && lengthHigh < WORD_LIMIT && lengthLow < WORD_LIMIT
      modifies block
      ensures block[..] == old(block[..56]) + Put32(lengthHigh) + Put32(lengthLow)
    {
      ghost var front := block[..56];
      StoreWord(56, lengthHigh);
      assert block[..60] == front + Put32(lengthHigh);
      StoreWord(60, lengthLow);
      assert block[..] == block[..60] + block[60..64];
    }

    method StoreWord(at: nat, x: nat)
      requires at + 4 <= block.Length
      modifies block
      ensures block[at..at + 4] == Put32(x) && block[..at] == old(block[..at])
    {
      var octets := Put32(x);
      block[at] := octets[0];
      block[at + 1] := octets[1];
      block[at + 2] := octets[2];
      block[at + 3] := octets[3];
    }

    /** What is left to be processed of a padded message. */
    ghost predicate Padded(zeros: nat)
      requires H.Length == 5 && block.Length == 64
      reads this, H, block
    {
      && index <= 64 && lengthHigh < WORD_LIMIT && lengthLow < WORD_LIMIT
      && 64 * blocks <= |msg| && Chaining() == Hash(msg, blocks)
      && msg[64 * blocks..] == block[..index] + Rest(zeros)
    }

    ghost function Rest(zeros: nat): seq<Octet>
      reads this`lengthHigh, this`lengthLow
    {
      seq(zeros, _ => 0) + (Put32(lengthHigh) + Put32(lengthLow))
    }

    /** The length fits in this block. */
    method LastBlock()
      requires H.Length == 5 && block.Length == 64 && index <= 56 && Padded(56 - index)
      modifies this`index, this`blocks, H, block
      ensures index == 0 && |msg| == 64 * blocks && Chaining() == Hash(msg, blocks)
    {
      ghost var front, zeros, length := block[..index], seq(56 - index, _ => 0), Put32(lengthHigh) + Put32(lengthLow);
      assert front + (zeros + length) == (front + zeros) + length;
      FillZeros(56);
      assert block[..56] == front + zeros;
      StoreLength();
      BlockAt(msg, 64 * blocks, block[..], []);
      NextBlock();
    }

    /** It does not. */
    method LastButOne()
      requires H.Length == 5 && block.Length == 64 && index <= 64 && Padded(120 - index)
      modifies this`index, this`blocks, H, block
      ensures index == 0 && Padded(56)
    {
      ghost var front, rest, zeros := block[..index], Rest(56), seq(64 - index, _ => 0);
      assert Rest(120 - index) == zeros + rest;
      assert front + (zeros + rest) == (front + zeros) + rest;
      FillZeros(64);
      assert block[..] == block[..64] == front + zeros;
      BlockAt(msg, 64 * blocks, block[..], rest);
      NextBlock();
      assert block[..index] == [];
    }

    /** The padding goes through the block buffer: in this block if the length still fits, else in two. */
    method PadMessage()
      requires H.Length == 5 && block.Length == 64 && Streaming()
      modifies this`index, this`blocks, this`msg, H, block
      ensures index == 0 && msg == old(msg) && Chaining() == Digest(msg)
    {
      ghost var m, padded := msg, Pad(msg);
      PadTail(m, blocks, index, lengthHigh, lengthLow);
      HashPrefix(m, padded, blocks);
      msg := padded;
      if index > 55 {
        MarkAs(119 - index);
        LastButOne();
        LastBlock();
      } else {
        MarkAs(55 - index);
        LastBlock();
      }
      DigestIs(m, blocks);
      msg := m;
    }

    /** The end of the message is marked by a single one bit, with the padding before it and behind it. */
    method MarkAs(ghost zeros: nat)
      requires H.Length == 5 && block.Length == 64 && index < 64 && lengthHigh < WORD_LIMIT && lengthLow < WORD_LIMIT
      requires 64 * blocks <= |msg| && Chaining() == Hash(msg, blocks)
      requires msg[64 * blocks..] == block[..index] + [0x80] + Rest(zeros)
      modifies this`index, block
      ensures index == old(index) + 1 && Padded(zeros)
    {
      Store(0x80);
    }

    /** The digest of all that was put in; asked for again it is the same. */
    method Result() returns (ok: bool, digest: State)
      requires Valid()
      modifies this, H, block
      ensures Valid() && corrupted == old(corrupted) && msg == old(msg) && ok == !corrupted
      ensures ok ==> computed && digest == Digest(msg)
    {
      if corrupted { return false, INITIAL; }
      if !computed {
        PadMessage();
        computed := true;
      }
      return true, State(H[0], H[1], H[2], H[3], H[4]);
    }
  }

  // ---------- However the message is cut ----------

  function Joined(pieces: seq<seq<Octet>>): seq<Octet> {
    if pieces == [] then [] else Joined(pieces[..|pieces| - 1]) + pieces[|pieces| - 1]
  }

  /** The digest of a message given in any pieces is the one the standard defines, and there is one unless
      the message is too long.  Asking twice makes no difference. */
  method HashPieces(pieces: seq<seq<Octet>>) returns (ok: bool, digest: State)
    ensures ok <==> |Joined(pieces)| < 0x2000_0000_0000_0000
    ensures ok ==> digest == Digest(Joined(pieces))
  {
    var sha := new SHA1();
    for i := 0 to |pieces|
      invariant sha.Valid() && !sha.computed && fresh(sha) && fresh(sha.H) && fresh(sha.block)
      invariant sha.corrupted <==> |Joined(pieces[..i])| >= LONGEST
      invariant !sha.corrupted ==> sha.msg == Joined(pieces[..i])
    {
      assert pieces[..i + 1][..i] == pieces[..i];
      sha.Input(pieces[i]);
    }
    assert pieces[..|pieces|] == pieces;
    var first, once := sha.Result();
    ok, digest := sha.Result();
    assert ok == first && (ok ==> digest == once);
  }
}
