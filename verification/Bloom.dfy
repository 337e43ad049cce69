/** The Bloom filter (lib/bloom/bloom.h, bloom.cpp): a packed bit array with an exact count of zeros. */
module Bloom {
  import opened Bits
  import opened Khashing

  // ---------- One index in the packed array ----------

  /** Bytes needed for 2^shash bits. */
  function ArraySize(shash: nat): (size: nat)
    ensures size >= 1
  {
    if shash < 3 then 1 else Pow2(shash - 3)
  }

  lemma {:induction false} Eighths(shash: nat)
    ensures shash >= 3 ==> Pow2(shash) == 8 * Pow2(shash - 3)
    ensures shash < 3 ==> Pow2(shash) <= 4
    ensures Pow2(shash) <= 8 * ArraySize(shash)
  {
    if shash >= 3 {
      assert Pow2(shash - 1) == 2 * Pow2(shash - 2) && Pow2(shash - 2) == 2 * Pow2(shash - 3);
    }
  }

  lemma ByteAndBit(v: nat)
    ensures Shr(v, 3) == v / 8 && And(v, Bitmask(3)) == v % 8
  {
    assert Pow2(3) == 8;
    ShrIsQuotient(v, 3);
    BitmaskIsMask(3);
    forall i: nat ensures Bit(And(v, 7), i) == Bit(v % 8, i) {
      BitOfAnd(v, 7, i);
      BitOfMask(3, i);
      BitOfMod(v, 3, i);
    }
    SameBits(And(v, 7), v % 8);
  }

  lemma TestsBit(x: nat, t: nat)
    ensures And(x, Shl(1, t)) == 0 <==> !Bit(x, t)
  {
    ShlOne(t);
    BitOfAnd(x, Pow2(t), t);
    BitOfPow2(t, t);
    if !Bit(x, t) {
      forall i: nat ensures Bit(And(x, Pow2(t)), i) == Bit(0, i) {
        BitOfAnd(x, Pow2(t), i);
        BitOfPow2(t, i);
        BitOfZero(i);
      }
      SameBits(And(x, Pow2(t)), 0);
    } else {
      BitOfZero(t);
    }
  }

  lemma SetsBit(x: nat, t: nat, i: nat)
    ensures Bit(Or(x, Shl(1, t)), i) <==> Bit(x, i) || i == t
  {
    ShlOne(t);
    BitOfOr(x, Pow2(t), i);
    BitOfPow2(t, i);
  }

  lemma StaysAByte(x: nat, t: nat)
    requires x < 256 && t < 8
    ensures Or(x, Shl(1, t)) < 256
  {
    assert Pow2(8) == 256;
    forall i: nat | 8 <= i ensures !Bit(Or(x, Shl(1, t)), i) {
      SetsBit(x, t, i);
      NoHighBits(x, 8, i);
    }
    Below(Or(x, Shl(1, t)), 8);
  }

  /** The first n bits of the array are set for the members of `bits` and clear for the others. */
  ghost predicate Upholds(m: seq<nat>, bits: set<nat>, n: nat)
    requires n <= 8 * |m|
  {
    n == 0 || (Upholds(m, bits, n - 1) && (n - 1 in bits <==> Bit(m[(n - 1) / 8], (n - 1) % 8)))
  }

  ghost predicate AllBytes(m: seq<nat>, n: nat)
    requires n <= |m|
  {
    n == 0 || (AllBytes(m, n - 1) && m[n - 1] < 256)
  }

  /** What the array stores. */
  ghost predicate Represents(m: seq<nat>, bits: set<nat>) {
    Upholds(m, bits, 8 * |m|) && AllBytes(m, |m|)
  }

  lemma {:induction false} UpholdsAt(m: seq<nat>, bits: set<nat>, n: nat, v: nat)
    requires v < n <= 8 * |m| && Upholds(m, bits, n)
    ensures v in bits <==> Bit(m[v / 8], v % 8)
  {
    if v < n - 1 { UpholdsAt(m, bits, n - 1, v); }
  }

  /** Setting bit v of the array puts v into the set and disturbs no other index. */
  lemma {:induction false} SetUpholds(m: seq<nat>, bits: set<nat>, v: nat, n: nat)
    requires v < 8 * |m| && n <= 8 * |m| && Upholds(m, bits, n)
    ensures Upholds(m[v / 8 := Or(m[v / 8], Shl(1, v % 8))], bits + {v}, n)
  {
    if n > 0 {
      SetUpholds(m, bits, v, n - 1);
      var u := n - 1;
      SetsBit(m[v / 8], v % 8, u % 8);
      SamePlace(u, v);
    }
  }

  lemma SamePlace(u: nat, v: nat)
    ensures u == v <==> u / 8 == v / 8 && u % 8 == v % 8
  {
  }

  lemma {:induction false} SetKeepsBytes(m: seq<nat>, b: nat, t: nat, n: nat)
    requires b < |m| && n <= |m| && t < 8 && AllBytes(m, n)
    ensures AllBytes(m[b := Or(m[b], Shl(1, t))], n)
  {
    if n > 0 {
      SetKeepsBytes(m, b, t, n - 1);
      if b == n - 1 { StaysAByte(m[b], t); }
    }
  }

  lemma SetsIndex(m: seq<nat>, bits: set<nat>, v: nat)
    requires Represents(m, bits) && v < 8 * |m|
    ensures And(m[v / 8], Shl(1, v % 8)) == 0 <==> v !in bits
    ensures Represents(m[v / 8 := Or(m[v / 8], Shl(1, v % 8))], bits + {v})
  {
    UpholdsAt(m, bits, 8 * |m|, v);
    TestsBit(m[v / 8], v % 8);
    SetUpholds(m, bits, v, 8 * |m|);
    SetKeepsBytes(m, v / 8, v % 8, |m|);
  }

  lemma {:induction false} ClearUpholds(m: seq<nat>, n: nat)
    requires n <= 8 * |m| && forall b :: 0 <= b < |m| ==> m[b] == 0
    ensures Upholds(m, {}, n)
  {
    if n > 0 { ClearUpholds(m, n - 1); BitOfZero((n - 1) % 8); }
  }

  lemma {:induction false} ClearBytes(m: seq<nat>, n: nat)
    requires n <= |m| && forall b :: 0 <= b < |m| ==> m[b] == 0
    ensures AllBytes(m, n)
  {
    if n > 0 { ClearBytes(m, n - 1); }
  }

  /** The set of the first n values. */
  function Upto(s: seq<nat>, n: nat): set<nat>
    requires n <= |s|
  {
    if n == 0 then {} else Upto(s, n - 1) + {s[n - 1]}
  }

  function Elements(s: seq<nat>): set<nat> { Upto(s, |s|) }

  lemma {:induction false} UptoMeans(s: seq<nat>, n: nat, x: nat)
    requires n <= |s|
    ensures x in Upto(s, n) <==> exists i :: 0 <= i < n && s[i] == x
  {
    if n > 0 { UptoMeans(s, n - 1, x); }
  }

  lemma ElementsAre(s: seq<nat>)
    ensures forall x :: x in Elements(s) <==> x in s
  {
    forall x ensures x in Elements(s) <==> x in s { UptoMeans(s, |s|, x); }
  }

  lemma {:induction false} OutcomesBelow(src: Stream, p: Params, n: nat, x: nat)
    requires x in Selected(src, p, n)
    ensures x < Pow2(p.shash)
  {
    if x in Selected(src, p, n - 1) { OutcomesBelow(src, p, n - 1, x); }
    else { ChunkBelow(src, Offset(n - 1, p.shash), p.shash); }
  }

  lemma OutcomeBelow(src: Stream, p: Params, s: seq<nat>)
    requires IsOutcome(src, p, s)
    ensures forall i :: 0 <= i < |s| ==> s[i] < Pow2(p.shash)
  {
    var n: nat :| Selected(src, p, n) == s;
    forall i | 0 <= i < |s| ensures s[i] < Pow2(p.shash) { OutcomesBelow(src, p, n, s[i]); }
  }

  lemma Widening(a: set<nat>, b: set<nat>)
    requires a <= b
    ensures |a| <= |b| && (|a| == |b| <==> a == b)
  {
    var more := b - a;
    assert b == a + more;
    assert |b| == |a| + |more|;
  }

  // ---------- The serialised form ----------

  const INT_LIMIT: nat := 0x8000_0000

  /** The four bytes of an int, low byte first. */
  function IntBytes(x: nat): (bs: seq<nat>)
    ensures |bs| == 4
  {
    [x % 256, x / 256 % 256, x / 0x1_0000 % 256, x / 0x100_0000 % 256]
  }

  /** The int those bytes are, negative from 2^31 on. */
  function IntFrom(bs: seq<nat>): int
    requires |bs| == 4
  {
    var u := bs[0] + 0x100 * bs[1] + 0x1_0000 * bs[2] + 0x100_0000 * bs[3];
    if u < INT_LIMIT then u else u - 2 * INT_LIMIT
  }

  lemma IntRoundTrip(x: nat)
    requires x < INT_LIMIT
    ensures IntFrom(IntBytes(x)) == x
  {
    var a, b, c := x / 0x100, x / 0x1_0000, x / 0x100_0000;
    assert x == 0x100 * a + x % 0x100;
    assert a == 0x100 * b + a % 0x100;
    assert b == 0x100 * c + b % 0x100;
  }

  function Image(p: Params, m: seq<nat>): seq<nat> {
    IntBytes(p.nhash) + IntBytes(p.shash) + m
  }

  /** What deserialize makes of a buffer: NULL, a failed assert or a shift out of range, or the
      parameters of the new filter and the bytes copied into it. */
  datatype Parsed = NoFilter | Broken | Fields(params: Params, bytes: seq<nat>)

  function Parse(buffer: seq<nat>): Parsed {
    if |buffer| < 8 then NoFilter
    else
      var nhash, shash := IntFrom(buffer[..4]), IntFrom(buffer[4..8]);
      if shash < 0 || shash > 31 then Broken                 // 1 << shash is undefined
      else if shash == 31 then NoFilter                      // (1 << 31)/8 is negative, huge as a size_t
      else
        var size := Pow2(shash) / 8;
        if |buffer| - 8 < size then NoFilter
        else if nhash < 1 || !Params(nhash, shash, true).Allowed() then Broken
        else Fields(Params(nhash, shash, true), buffer[8..8 + size])
  }

  /** What the new array holds after the copy: for less than eight bits nothing is copied into it. */
  function Restored(p: Params, bytes: seq<nat>): seq<nat> {
    if bytes == [] then [0] else bytes
  }

  /** Reading back what serialize wrote gives the same array for 3 to 30 bits of index.  Smaller filters
      come back cleared, a 31-bit one not at all, and one built with repeats may fail the assert. */
  lemma ImageRoundTrip(p: Params, m: seq<nat>)
    requires p.Allowed() && p.nhash < INT_LIMIT && |m| == ArraySize(p.shash)
    ensures var r := Parse(Image(p, m));
            (r.Fields? && r.params == p.(norep := true) && Restored(r.params, r.bytes) == m) <==>
            p.shash <= 30 && (p.shash >= 3 || m == [0]) && p.nhash <= Pow2(p.shash)
    ensures p.shash == 31 ==> Parse(Image(p, m)).NoFilter?
    ensures p.shash <= 30 && p.nhash <= Pow2(p.shash) ==> Parse(Image(p, m)).Fields?
  {
    var image := Image(p, m);
    assert image[..4] == IntBytes(p.nhash) && image[4..8] == IntBytes(p.shash) && image[8..] == m;
    IntRoundTrip(p.nhash);
    IntRoundTrip(p.shash);
    Eighths(p.shash);
    if p.shash >= 3 {
      assert Pow2(p.shash) / 8 == |m|;
      assert image[8..8 + |m|] == m;
    } else {
      assert Pow2(p.shash) / 8 == 0;
    }
  }

  /** The image is the two ints, their low octets first, and the array. */
  lemma ImageOctets(p: Params, m: seq<nat>)
    requires p.nhash < INT_LIMIT && p.shash < 32
    ensures var b := Image(p, m);
            && |b| == 8 + |m| && b[8..] == m && (forall i :: 0 <= i < 8 ==> b[i] < 256)
            && b[0] + 0x100 * b[1] + 0x1_0000 * b[2] + 0x100_0000 * b[3] == p.nhash
            && b[4] == p.shash && b[5] == b[6] == b[7] == 0
  {
    IntRoundTrip(p.nhash);
  }

  /** A buffer longer than the image is read as the image. */
  lemma ImageIsEnough(p: Params, m: seq<nat>, rest: seq<nat>)
    requires p.Allowed() && p.nhash < INT_LIMIT && |m| == ArraySize(p.shash)
    ensures Parse(Image(p, m) + rest) == Parse(Image(p, m))
  {
    var image, all := Image(p, m), Image(p, m) + rest;
    assert image[..4] == IntBytes(p.nhash) == all[..4] && image[4..8] == IntBytes(p.shash) == all[4..8];
    IntRoundTrip(p.nhash);
    IntRoundTrip(p.shash);
    Eighths(p.shash);
    var size := Pow2(p.shash) / 8;
    assert size <= |m|;
    assert all[8..8 + size] == image[8..8 + size];
  }

  /** A buffer cut short is none. */
  lemma ImageIsNeeded(p: Params, m: seq<nat>, n: nat)
    requires p.Allowed() && 3 <= p.shash && p.nhash < INT_LIMIT && |m| == ArraySize(p.shash) && n < 8 + |m|
    ensures Parse(Image(p, m)[..n]).NoFilter?
  {
    var image := Image(p, m);
    if n >= 8 {
      assert image[..n][..4] == IntBytes(p.nhash) && image[..n][4..8] == IntBytes(p.shash);
      IntRoundTrip(p.nhash);
      IntRoundTrip(p.shash);
      Eighths(p.shash);
    }
  }

  lemma IntRead(bs: seq<nat>)
    requires |bs| == 4 && (forall i :: 0 <= i < 4 ==> bs[i] < 256) && IntFrom(bs) >= 0
    ensures IntBytes(IntFrom(bs)) == bs
  {
    var x := IntFrom(bs);
    assert x == bs[0] + 0x100 * (bs[1] + 0x100 * (bs[2] + 0x100 * bs[3]));
    assert x / 0x100 == bs[1] + 0x100 * (bs[2] + 0x100 * bs[3]);
    assert x / 0x1_0000 == bs[2] + 0x100 * bs[3];
    assert x / 0x100_0000 == bs[3];
  }

  /** A filter is read from exactly the buffers that begin with the image of its parameters and array. */
  lemma ParsedIsImage(buffer: seq<nat>)
    requires forall i :: 0 <= i < |buffer| ==> buffer[i] < 256
    requires Parse(buffer).Fields?
    ensures var r := Parse(buffer);
            && r.params.norep && r.params.Allowed() && r.params.shash <= 30
            && |r.bytes| == Pow2(r.params.shash) / 8 && Image(r.params, r.bytes) <= buffer
  {
    var r := Parse(buffer);
    IntRead(buffer[..4]);
    IntRead(buffer[4..8]);
    assert Image(r.params, r.bytes) == buffer[..8 + |r.bytes|];
  }

  // ---------- Whole runs ----------

  /** An operation on the filter, and what it does to the stored indices. */
  datatype Op = Insertion(input: Bytes) | Bits(digest: seq<Word>) | Clearing
  datatype Change = Added(idx: set<nat>) | Cleared

  ghost predicate Runnable(p: Params, hash: PairHash, op: Op) {
    match op
    case Insertion(input) => input != [] && Completes(Chain(hash, input), p)
    case Bits(digest) => |digest| == HASH_INTEGERS && Fits(Given(digest), p)
    case Clearing => true
  }

  /** The change is the one the operation stands for: its indices are the outcome of its stream. */
  ghost predicate ChangeOf(p: Params, hash: PairHash, op: Op, c: Change) {
    match op
    case Clearing => c.Cleared?
    case Insertion(input) => exists s :: IsOutcome(Chain(hash, input), p, s) && c == Added(Elements(s))
    case Bits(digest) => exists s :: IsOutcome(Given(digest), p, s) && c == Added(Elements(s))
  }

  /** The union of all that was added by the first n changes since the last clear. */
  function Stored(cs: seq<Change>, n: nat): set<nat>
    requires n <= |cs|
  {
    if n == 0 then {}
    else match cs[n - 1] case Added(idx) => Stored(cs, n - 1) + idx case Cleared => {}
  }

  /** An element put in is found after every later change up to a clear. */
  lemma {:induction false} FoundUntilCleared(cs: seq<Change>, i: nat, n: nat)
    requires i < n <= |cs| && cs[i].Added? && forall k :: i <= k < n ==> !cs[k].Cleared?
    ensures cs[i].idx <= Stored(cs, n)
  {
    if i < n - 1 { FoundUntilCleared(cs, i, n - 1); }
  }

  // ---------- The class ----------

  /** What deserialize gives: NULL, a failed assert (or a shift out of range), or a filter. */
  datatype Loading = Null | Aborted | Loaded(filter: BloomFilter)

  class BloomFilter {
    const h: Khash
    const mmax: nat
    const m: array<nat>
    var numZeros: int
    ghost var bits: set<nat>   // the indices whose bit is set

    /** The array stores `bits`, all of them among the 2^shash. */
    ghost predicate Sound()
      reads this, m
    {
      && h.Ready() && h.res != m
      && mmax == Pow2(h.params.shash) && m.Length == ArraySize(h.params.shash)
      && Represents(m[..], bits) && forall v :: v in bits ==> v < mmax
    }

    /** The zero counter is exact. */
    ghost predicate Counted()
      reads this
    {
      numZeros == mmax - |bits|
    }

    constructor (params: Params, hash: PairHash)
      requires params.Allowed()
      ensures Sound() && Counted() && bits == {} && forall b :: 0 <= b < m.Length ==> m[b] == 0
      ensures h.params == params && h.hash == hash && fresh(h) && fresh(h.res) && fresh(m)
    {
      h := new Khash(params, hash);
      mmax := Pow2(params.shash);
      m := new nat[ArraySize(params.shash)];
      new;
      Clear();
    }

    method Clear()
      requires h.Ready() && h.res != m && mmax == Pow2(h.params.shash) && m.Length == ArraySize(h.params.shash)
      modifies this, m
      ensures Sound() && Counted() && bits == {} && forall b :: 0 <= b < m.Length ==> m[b] == 0
    {
      var i := 0;
      while i < m.Length
        modifies m
        invariant 0 <= i <= m.Length && forall b :: 0 <= b < i ==> m[b] == 0
      {
        m[i] := 0;
        i := i + 1;
      }
      numZeros := mmax;
      bits := {};
      ClearUpholds(m[..], 8 * m.Length);
      ClearBytes(m[..], m.Length);
    }

    /** One round of the loop of insert and set_bits. */
    method SetIndex(d: nat) returns (extra: bool)
      requires Sound() && d < mmax
      modifies this`bits, m
      ensures Sound() && bits == old(bits) + {d} && extra == (d !in old(bits))
      ensures |bits| == |old(bits)| + if extra then 1 else 0
      ensures d / 8 < m.Length && Bit(m[d / 8], d % 8)
    {
      var b, t := Shr(d, 3), And(d, Bitmask(3));
      ByteAndBit(d);
      Eighths(h.params.shash);
      assert b < m.Length && t < 8;
      SetsIndex(m[..], bits, d);
      extra := And(m[b], Shl(1, t)) == 0;
      if extra {
        ghost var was := m[..];
        m[b] := Or(m[b], Shl(1, t));
        bits := bits + {d};
        assert m[..] == was[b := Or(was[b], Shl(1, t))];
      } else {
        assert bits == bits + {d};
      }
      UpholdsAt(m[..], bits, 8 * m.Length, d);
    }

    /** The loop of insert and set_bits counts the bits it sets. */
    method SetEach() returns (extraOnes: nat)
      requires Sound() && InRange(h.Indices())
      modifies this`bits, m
      ensures Sound() && bits == old(bits) + Elements(h.Indices())
      ensures extraOnes == |bits| - |old(bits)|
    {
      ghost var idx := h.Indices();
      var i := 1;
      extraOnes := 0;
      while i <= h.params.nhash
        invariant 1 <= i <= h.params.nhash + 1
        invariant Sound() && bits == old(bits) + Upto(idx, i - 1)
        invariant extraOnes == |bits| - |old(bits)|
      {
        var d := h.H(i);
        var extra := SetIndex(d);
        if extra { extraOnes := extraOnes + 1; }
        i := i + 1;
      }
    }

    /** Behind it the zeros are counted down, and the caller is told whether anything changed. */
    method SetAll() returns (changed: bool)
      requires Sound() && InRange(h.Indices())
      modifies this, m
      ensures Sound() && bits == old(bits) + Elements(h.Indices())
      ensures old(Counted()) ==> Counted()
      ensures changed <==> !(Elements(h.Indices()) <= old(bits))
      ensures forall x :: x in bits <==> x in old(bits) || x in h.Indices()
    {
      ElementsAre(h.Indices());
      ghost var was := bits;
      var extraOnes := SetEach();
      Widening(was, bits);
      if extraOnes == 0 { return false; }
      numZeros := numZeros - extraOnes;
      return true;
    }

    ghost predicate InRange(idx: seq<nat>) {
      forall i :: 0 <= i < |idx| ==> idx[i] < mmax
    }

    /** The loop of check and check_bits: the bits at all computed indices are set already. */
    method TestAll() returns (all: bool)
      requires Sound() && InRange(h.Indices())
      ensures all <==> Elements(h.Indices()) <= bits
      ensures all <==> forall x :: x in h.Indices() ==> x in bits
    {
      ElementsAre(h.Indices());
      ghost var idx := h.Indices();
      var i := 1;
      while i <= h.params.nhash
        invariant 1 <= i <= h.params.nhash + 1
        invariant Upto(idx, i - 1) <= bits
      {
        var d := h.H(i);
        var b, t := Shr(d, 3), And(d, Bitmask(3));
        ByteAndBit(d);
        Eighths(h.params.shash);
        assert b < m.Length && t < 8;
        TestsBit(m[b], t);
        UpholdsAt(m[..], bits, 8 * m.Length, d);
        if And(m[b], Shl(1, t)) == 0 {
          UptoMeans(idx, |idx|, d);
          return false;
        }
        i := i + 1;
      }
      return true;
    }

    /** Extraction for an input, as both insert and check begin. */
    method ComputeIndices(input: Bytes)
      requires Sound() && input != [] && Completes(Chain(h.hash, input), h.params)
      modifies h.res
      ensures Sound() && IsOutcome(Chain(h.hash, input), h.params, h.Indices()) && InRange(h.Indices())
    {
      h.Compute(input);
      OutcomeBelow(Chain(h.hash, input), h.params, h.Indices());
    }

    method Insert(input: Bytes) returns (changed: bool)
      requires Sound() && input != [] && Completes(Chain(h.hash, input), h.params)
      modifies this, m, h.res
      ensures Sound() && IsOutcome(Chain(h.hash, input), h.params, h.Indices())
      ensures bits == old(bits) + Elements(h.Indices())
      ensures old(Counted()) ==> Counted()
      ensures changed <==> !(Elements(h.Indices()) <= old(bits))
      ensures forall x :: x in bits <==> x in old(bits) || x in h.Indices()
    {
      ComputeIndices(input);
      changed := SetAll();
    }

    method Check(input: Bytes) returns (found: bool)
      requires Sound() && input != [] && Completes(Chain(h.hash, input), h.params)
      modifies h.res
      ensures Sound() && IsOutcome(Chain(h.hash, input), h.params, h.Indices())
      ensures found == (Elements(h.Indices()) <= bits)
      ensures found <==> forall x :: x in h.Indices() ==> x in bits
    {
      ComputeIndices(input);
      found := TestAll();
    }

    /** split of a caller's digest; the caller has to see to it that split's assert holds. */
    method SplitIndices(digest: seq<Word>)
      requires Sound() && |digest| == HASH_INTEGERS && Fits(Given(digest), h.params)
      modifies h.res
      ensures Sound() && IsOutcome(Given(digest), h.params, h.Indices()) && InRange(h.Indices())
    {
      var ok := h.Split(digest);
      OutcomeBelow(Given(digest), h.params, h.Indices());
    }

    method SetBits(digest: seq<Word>) returns (changed: bool)
      requires Sound() && |digest| == HASH_INTEGERS && Fits(Given(digest), h.params)
      modifies this, m, h.res
      ensures Sound() && IsOutcome(Given(digest), h.params, h.Indices())
      ensures bits == old(bits) + Elements(h.Indices())
      ensures old(Counted()) ==> Counted()
      ensures changed <==> !(Elements(h.Indices()) <= old(bits))
      ensures forall x :: x in bits <==> x in old(bits) || x in h.Indices()
    {
      SplitIndices(digest);
      changed := SetAll();
    }

    method CheckBits(digest: seq<Word>) returns (found: bool)
      requires Sound() && |digest| == HASH_INTEGERS && Fits(Given(digest), h.params)
      modifies h.res
      ensures Sound() && IsOutcome(Given(digest), h.params, h.Indices())
      ensures found == (Elements(h.Indices()) <= bits)
      ensures found <==> forall x :: x in h.Indices() ==> x in bits
    {
      SplitIndices(digest);
      found := TestAll();
    }

    method Perform(op: Op) returns (ghost c: Change)
      requires Sound() && Runnable(h.params, h.hash, op)
      modifies this, m, h.res
      ensures Sound() && ChangeOf(h.params, h.hash, op, c)
      ensures bits == (match c case Added(idx) => old(bits) + idx case Cleared => {})
      ensures old(Counted()) ==> Counted()
    {
      match op {
        case Insertion(input) => var _ := Insert(input); c := Added(Elements(h.Indices()));
        case Bits(digest) => var _ := SetBits(digest); c := Added(Elements(h.Indices()));
        case Clearing => Clear(); c := Cleared;
      }
    }

    /** -1 when the buffer is too small, else the number of bytes written at its front. */
    method Serialize(buffer: array<nat>, maxLen: nat) returns (written: int)
      requires Sound() && maxLen <= buffer.Length && buffer != m && buffer != h.res
      modifies buffer
      ensures Sound()
      ensures maxLen < m.Length + 8 ==> written == -1 && buffer[..] == old(buffer[..])
      ensures maxLen >= m.Length + 8 ==>
                written == m.Length + 8 && buffer[..] == Image(h.params, m[..]) + old(buffer[..])[written..]
    {
      if maxLen < m.Length + 8 { return -1; }
      ghost var rest := buffer[m.Length + 8..];
      var header := IntBytes(h.params.nhash) + IntBytes(h.params.shash);
      forall i | 0 <= i < 8 { buffer[i] := header[i]; }
      forall i | 0 <= i < m.Length { buffer[8 + i] := m[i]; }
      written := m.Length + 8;
      assert buffer[..8] == header && buffer[8..8 + m.Length] == m[..] && buffer[8 + m.Length..] == rest;
      assert buffer[..] == buffer[..8] + buffer[8..8 + m.Length] + buffer[8 + m.Length..];
    }

    static method Deserialize(buffer: seq<nat>, hash: PairHash) returns (r: Loading)
      ensures r.Null? == Parse(buffer).NoFilter? && r.Aborted? == Parse(buffer).Broken?
      ensures r.Loaded? ==> var f, fields := r.filter, Parse(buffer);
                && fresh(f) && fresh(f.m) && fresh(f.h) && fresh(f.h.res)
                && f.h.hash == hash && f.h.params == fields.params
                && f.m[..] == Restored(fields.params, fields.bytes) && f.numZeros == f.mmax
                && f.h.Ready() && f.h.res != f.m
                && f.mmax == Pow2(f.h.params.shash) && f.m.Length == ArraySize(f.h.params.shash)
    {
      var fields := Parse(buffer);
      match fields
      case NoFilter => return Null;
      case Broken => return Aborted;
      case Fields(params, bytes) =>
        var f := new BloomFilter(params, hash);
        Eighths(params.shash);
        assert |bytes| <= f.m.Length;
        forall i | 0 <= i < |bytes| { f.m[i] := bytes[i]; }
        assert bytes == [] ==> params.shash < 3;
        assert bytes != [] ==> |bytes| == f.m.Length && f.m[..] == bytes;
        r := Loaded(f);
    }

    /** A copy sent through its serialised form answers every check as the original does; only its zero
        counter starts afresh, and is right exactly when no bit is set. */
    method Copy() returns (f: BloomFilter)
      requires Sound() && h.params.norep && 3 <= h.params.shash <= 30 && h.params.nhash < INT_LIMIT
      ensures fresh(f) && f.h.params == h.params && f.h.hash == h.hash && f.m[..] == m[..]
      ensures f.Sound() && f.bits == bits
      ensures f.Counted() <==> bits == {}
    {
      var buffer := new nat[m.Length + 8];
      var n := Serialize(buffer, buffer.Length);
      ImageRoundTrip(h.params, m[..]);
      assert buffer[..] == Image(h.params, m[..]);
      var r := Deserialize(buffer[..], h.hash);
      f := r.filter;
      f.bits := bits;
    }
  }

  ghost function CanRun(p: Params, hash: PairHash): Op -> bool { op => Runnable(p, hash, op) }

  ghost predicate All<T>(can: T -> bool, xs: seq<T>, n: nat)
    requires n <= |xs|
  {
    n == 0 || (All(can, xs, n - 1) && can(xs[n - 1]))
  }

  ghost predicate AllChanges(p: Params, hash: PairHash, ops: seq<Op>, cs: seq<Change>, n: nat)
    requires n <= |ops| && n <= |cs|
  {
    n == 0 || (AllChanges(p, hash, ops, cs, n - 1) && ChangeOf(p, hash, ops[n - 1], cs[n - 1]))
  }

  lemma {:induction false} AllAt<T>(can: T -> bool, xs: seq<T>, n: nat, i: nat)
    requires i < n <= |xs| && All(can, xs, n)
    ensures can(xs[i])
  {
    if i < n - 1 { AllAt(can, xs, n - 1, i); }
  }

  /** The records of the first n changes do not depend on what follows them. */
  lemma {:induction false} OneMoreChange(p: Params, hash: PairHash, ops: seq<Op>, cs: seq<Change>, c: Change, n: nat)
    requires n <= |ops| && n <= |cs|
    ensures AllChanges(p, hash, ops, cs, n) == AllChanges(p, hash, ops, cs + [c], n)
    ensures Stored(cs, n) == Stored(cs + [c], n)
  {
    if n > 0 { OneMoreChange(p, hash, ops, cs, c, n - 1); }
  }

  /** The filter holds what the first n operations stand for. */
  ghost predicate Replayed(f: BloomFilter, ops: seq<Op>, cs: seq<Change>, n: nat)
    requires n == |cs| <= |ops|
    reads f, f.m
  {
    f.Sound() && f.Counted() && AllChanges(f.h.params, f.h.hash, ops, cs, n) && f.bits == Stored(cs, n)
  }

  method ReplayNext(f: BloomFilter, ops: seq<Op>, i: nat, ghost cs: seq<Change>) returns (ghost c: Change)
    requires i == |cs| < |ops| && Replayed(f, ops, cs, i) && All(CanRun(f.h.params, f.h.hash), ops, |ops|)
    modifies f, f.m, f.h.res
    ensures Replayed(f, ops, cs + [c], i + 1)
  {
    AllAt(CanRun(f.h.params, f.h.hash), ops, |ops|, i);
    c := f.Perform(ops[i]);
    OneMoreChange(f.h.params, f.h.hash, ops, cs, c, i);
  }

  /** Any run that begins with an empty filter ends with exactly the indices its operations stand for,
      and an exact count of the other bits. */
  method Replay(f: BloomFilter, ops: seq<Op>) returns (ghost cs: seq<Change>)
    requires f.Sound() && f.Counted() && f.bits == {} && All(CanRun(f.h.params, f.h.hash), ops, |ops|)
    modifies f, f.m, f.h.res
    ensures |cs| == |ops| && AllChanges(f.h.params, f.h.hash, ops, cs, |ops|)
    ensures f.Sound() && f.Counted() && f.bits == Stored(cs, |cs|)
  {
    cs := [];
    var i := 0;
    while i < |ops|
      invariant i == |cs| <= |ops| && Replayed(f, ops, cs, i)
    {
      ghost var c := ReplayNext(f, ops, i, cs);
      cs := cs + [c];
      i := i + 1;
    }
  }
}
