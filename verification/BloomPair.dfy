/** The aging pair of Bloom filters (lib/bloom/bloompair.h, bloompair.cpp): both learn, one answers; at a
    swap the answering one is emptied and the roles change, down a chain of slaves. */
module BloomPair {
  import opened Bits
  import opened Khashing
  import opened Bloom

  // ---------- The history of one pair ----------

  /** The indices held by the two filters. */
  datatype Gen = Gen(learning: set<nat>, detecting: set<nat>)

  /** What happens to one pair: an element is put in, it swaps (by itself or with its master), clear. */
  datatype Event = Put(idx: set<nat>) | Swapped | Wiped

  function Step(g: Gen, e: Event): Gen {
    match e
    case Put(idx) => Gen(g.learning + idx, g.detecting + idx)
    case Swapped => Gen({}, g.learning)
    case Wiped => Gen({}, {})
  }

  function After(es: seq<Event>): Gen {
    if es == [] then Gen({}, {}) else Step(After(es[..|es| - 1]), es[|es| - 1])
  }

  function Swaps(es: seq<Event>): nat {
    if es == [] then 0 else Swaps(es[..|es| - 1]) + if es[|es| - 1].Swapped? then 1 else 0
  }

  /** Element i was put in, and since then the pair was not cleared and swapped fewer than n times. */
  ghost predicate Within(es: seq<Event>, n: nat, i: nat) {
    && i < |es| && es[i].Put?
    && (forall k :: i < k < |es| ==> !es[k].Wiped?)
    && Swaps(es[i + 1..]) < n
  }

  lemma WithinLonger(es: seq<Event>, e: Event, n: nat, i: nat)
    requires i < |es|
    ensures Within(es + [e], n, i) <==>
            !e.Wiped? && if e.Swapped? then n > 0 && Within(es, n - 1, i) else Within(es, n, i)
  {
    var more := es + [e];
    assert more[i + 1..] == es[i + 1..] + [e];
    assert (es[i + 1..] + [e])[..|es| - i - 1] == es[i + 1..];
    if Within(more, n, i) {
      assert more[|es|] == e && !e.Wiped?;
      forall k | i < k < |es| ensures !es[k].Wiped? { assert more[k] == es[k]; }
    }
  }

  /** A window of n generations: x is among the indices of an element put in within it. */
  ghost predicate Recent(es: seq<Event>, n: nat, x: nat) {
    exists i: nat :: Within(es, n, i) && x in es[i].idx
  }

  lemma RecentStep(es: seq<Event>, e: Event, n: nat, x: nat)
    ensures Recent(es + [e], n, x) <==>
            match e
            case Put(idx) => Recent(es, n, x) || (n > 0 && x in idx)
            case Swapped => n > 0 && Recent(es, n - 1, x)
            case Wiped => false
  {
    var more := es + [e];
    if Recent(more, n, x) {
      var i: nat :| Within(more, n, i) && x in more[i].idx;
      if i < |es| { WithinLonger(es, e, n, i); assert more[i] == es[i]; }
    }
    if n > 0 && e.Put? && x in e.idx {
      assert more[|es| + 1..] == [];
      assert Within(more, n, |es|) && x in more[|es|].idx;
    }
    if e.Put? && Recent(es, n, x) {
      var i: nat :| Within(es, n, i) && x in es[i].idx;
      WithinLonger(es, e, n, i);
      assert Within(more, n, i) && x in more[i].idx;
    }
    if e.Swapped? && n > 0 && Recent(es, n - 1, x) {
      var i: nat :| Within(es, n - 1, i) && x in es[i].idx;
      WithinLonger(es, e, n, i);
      assert Within(more, n, i) && x in more[i].idx;
    }
  }

  lemma NothingIsRecent(es: seq<Event>, x: nat)
    ensures !Recent(es, 0, x)
  {
  }

  /** Two generations: after any history the learning filter holds exactly what was put in since the
      last swap or clear, the detecting one what was put in since the last but one. */
  lemma {:induction false} TwoGenerations(es: seq<Event>, x: nat)
    ensures x in After(es).learning <==> Recent(es, 1, x)
    ensures x in After(es).detecting <==> Recent(es, 2, x)
    decreases |es|
  {
    if es != [] {
      var before, e := es[..|es| - 1], es[|es| - 1];
      assert es == before + [e];
      TwoGenerations(before, x);
      RecentStep(before, e, 1, x);
      RecentStep(before, e, 2, x);
      NothingIsRecent(before, x);
    }
  }

  /** So the learning filter never knows more than the detecting one, */
  lemma LearningInDetecting(es: seq<Event>)
    ensures After(es).learning <= After(es).detecting
  {
    forall x | x in After(es).learning ensures x in After(es).detecting {
      TwoGenerations(es, x);
      var i: nat :| Within(es, 1, i) && x in es[i].idx;
      assert Within(es, 2, i);
    }
  }

  /** and an element is detected until the second swap after it went in, or a clear. */
  lemma DetectedUntilSecondSwap(es: seq<Event>, i: nat)
    requires i < |es| && es[i].Put? && Swaps(es[i + 1..]) <= 1 && forall k :: i < k < |es| ==> !es[k].Wiped?
    ensures es[i].idx <= After(es).detecting
  {
    forall x | x in es[i].idx ensures x in After(es).detecting {
      assert Within(es, 2, i);
      TwoGenerations(es, x);
    }
  }

  /** At the second swap it is forgotten, unless some other recent element shares an index. */
  lemma ForgottenAtSecondSwap(es: seq<Event>, x: nat)
    requires forall i :: 0 <= i < |es| && es[i].Put? && x in es[i].idx ==> Swaps(es[i + 1..]) >= 2
    ensures x !in After(es).detecting
  {
    TwoGenerations(es, x);
  }

  // ---------- A chain of pairs ----------

  /** A call on the pair at pos, which swaps it and all its slaves or not. */
  datatype Call = Call(pos: nat, event: Event, swap: bool)

  type History = seq<Event>

  /** What a pair is made of, and all that ever happened to it. */
  datatype Make = Make(params: Params, hash: PairHash)
  datatype Track = Track(make: Make, es: History)

  function More(t: Track, es: History): Track { t.(es := t.es + es) }

  /** All pairs have swapped. */
  function Aged(chain: seq<Track>): (chain': seq<Track>)
    ensures |chain'| == |chain| && forall j :: 0 <= j < |chain| ==> chain'[j] == More(chain[j], [Swapped])
  {
    seq(|chain|, j requires 0 <= j < |chain| => More(chain[j], [Swapped]))
  }

  lemma AgedFrom(chain: seq<Track>, chain': seq<Track>)
    requires chain != [] && chain' != [] && chain'[0] == More(chain[0], [Swapped]) && chain'[1..] == Aged(chain[1..])
    ensures chain' == Aged(chain)
  {
    assert chain == [chain[0]] + chain[1..] && chain' == [chain'[0]] + chain'[1..];
  }

  /** What a call is for the pair at j: its own event, and a swap of it or of a master. */
  function Seen(c: Call, j: nat): History {
    (if c.pos == j then [c.event] else []) + (if c.swap && c.pos <= j then [Swapped] else [])
  }

  function ChainStep(chain: seq<Track>, c: Call): (chain': seq<Track>)
    ensures |chain'| == |chain| && forall j :: 0 <= j < |chain| ==> chain'[j] == More(chain[j], Seen(c, j))
  {
    seq(|chain|, j requires 0 <= j < |chain| => More(chain[j], Seen(c, j)))
  }

  /** The chain after some calls, whatever it was before. */
  function ChainFrom(chain: seq<Track>, calls: seq<Call>): (chain': seq<Track>)
    ensures |chain'| == |chain|
  {
    if calls == [] then chain else ChainStep(ChainFrom(chain, calls[..|calls| - 1]), calls[|calls| - 1])
  }

  /** The part of the pair at j in a run: its own calls, and the swaps of every master up the chain. */
  function Local(calls: seq<Call>, j: nat): History {
    if calls == [] then [] else Local(calls[..|calls| - 1], j) + Seen(calls[|calls| - 1], j)
  }

  /** Each pair of a chain goes its own way, so the laws above hold at every depth and from any start. */
  lemma {:induction false} ChainAgesLocally(chain: seq<Track>, calls: seq<Call>, j: nat)
    requires j < |chain|
    ensures ChainFrom(chain, calls)[j] == More(chain[j], Local(calls, j))
    decreases |calls|
  {
    if calls != [] {
      var before, c := calls[..|calls| - 1], calls[|calls| - 1];
      ChainAgesLocally(chain, before, j);
      assert (chain[j].es + Local(before, j)) + Seen(c, j) == chain[j].es + Local(calls, j);
    }
  }

  lemma CallOnHead(chain: seq<Track>, mid: seq<Track>, e: Event)
    requires chain != [] && mid == [More(chain[0], [e])] + chain[1..]
    ensures ChainStep(chain, Call(0, e, false)) == mid && ChainStep(chain, Call(0, e, true)) == Aged(mid)
  {
    var c, d := Call(0, e, false), Call(0, e, true);
    forall j | 0 <= j < |chain|
      ensures ChainStep(chain, c)[j] == mid[j] && ChainStep(chain, d)[j] == More(mid[j], [Swapped]) {
      assert chain[j].es + Seen(c, j) == mid[j].es && chain[j].es + Seen(d, j) == mid[j].es + [Swapped];
    }
  }

  /** A call on one pair leaves its masters alone and is a call on the head of what hangs below. */
  lemma CallBelow(chain: seq<Track>, c: Call)
    requires chain != [] && c.pos > 0
    ensures ChainStep(chain, c) == [chain[0]] + ChainStep(chain[1..], c.(pos := c.pos - 1))
  {
    var below := c.(pos := c.pos - 1);
    assert chain[0].es + Seen(c, 0) == chain[0].es;
    forall j | 1 <= j < |chain| ensures ChainStep(chain, c)[j] == ChainStep(chain[1..], below)[j - 1] {
      assert Seen(c, j) == Seen(below, j - 1);
    }
  }

  function Makes(chain: seq<Track>): (makes: seq<Make>)
    ensures |makes| == |chain| && forall j :: 0 <= j < |makes| ==> makes[j] == chain[j].make
  {
    seq(|chain|, j requires 0 <= j < |chain| => chain[j].make)
  }

  /** An element put in at place n of a longer history is detected until its second swap, or a clear. */
  lemma DetectedBehind(es: History, more: History, idx: set<nat>)
    requires Swaps(more) <= 1 && forall k :: 0 <= k < |more| ==> !more[k].Wiped?
    ensures idx <= After(es + [Put(idx)] + more).detecting
  {
    var all, i := es + [Put(idx)] + more, |es|;
    assert all[i + 1..] == more;
    forall k | i < k < |all| ensures !all[k].Wiped? { assert all[k] == more[k - i - 1]; }
    DetectedUntilSecondSwap(all, i);
  }

  /** What the pair at j goes through after the call c on it. */
  function Since(c: Call, calls: seq<Call>, j: nat): History {
    (if c.swap then [Swapped] else []) + Local(calls, j)
  }

  /** One swap at most, and no clear. */
  ghost predicate Untouched(es: History) {
    Swaps(es) <= 1 && forall k :: 0 <= k < |es| ==> !es[k].Wiped?
  }

  lemma DetectedAfter(chain: seq<Track>, c: Call, calls: seq<Call>, j: nat)
    requires j < |chain| && c.pos == j && c.event.Put?
    requires Untouched(Since(c, calls, j))
    ensures c.event.idx <= After(ChainFrom(ChainStep(chain, c), calls)[j].es).detecting
  {
    var es := chain[j].es;
    ChainAgesLocally(ChainStep(chain, c), calls, j);
    assert (es + Seen(c, j)) + Local(calls, j) == es + [c.event] + Since(c, calls, j);
    DetectedBehind(es, Since(c, calls, j), c.event.idx);
  }

  // ---------- The indices of an element ----------

  /** The indices an element stands for, when its extraction completes. */
  ghost function IndexSet(src: Stream, p: Params): set<nat> {
    if s :| IsOutcome(src, p, s) then Elements(s) else {}
  }

  lemma IndexSetIs(src: Stream, p: Params, s: seq<nat>)
    requires IsOutcome(src, p, s)
    ensures IndexSet(src, p) == Elements(s)
  {
    var t :| IsOutcome(src, p, t) && IndexSet(src, p) == Elements(t);
    OutcomeIsUnique(src, p, s, t);
  }

  /** What an operation means for the pair it is called on. */
  ghost function EventOf(p: Params, hash: PairHash, op: Op): Event {
    match op
    case Insertion(input) => Put(IndexSet(Chain(hash, input), p))
    case Bits(digest) => Put(IndexSet(Given(digest), p))
    case Clearing => Wiped
  }

  /** The operation's extraction ends for filters of this make: no more than Runnable(..., op).  The
      quantifier over the one value op keeps the verifier from unfolding Runnable until a proof asserts
      it for that op, which is done where it is needed. */
  ghost predicate CanDo(make: Make, op: Op) {
    forall o {:trigger Runnable(make.params, make.hash, o)} :: o == op ==> Runnable(make.params, make.hash, o)
  }

  /** And e is what it means for them; with the same device for EventOf. */
  ghost predicate Means(make: Make, op: Op, e: Event) {
    forall o {:trigger EventOf(make.params, make.hash, o)} ::
      o == op ==> Runnable(make.params, make.hash, o) && e == EventOf(make.params, make.hash, o)
  }

  /** The operations that can be made on the pairs of a chain, each given with the place of its pair. */
  ghost function CanPerform(makes: seq<Make>): ((nat, Op)) -> bool {
    (job: (nat, Op)) => job.0 < |makes| && CanDo(makes[job.0], job.1)
  }

  /** The first n calls are those operations. */
  ghost predicate AllCalls(makes: seq<Make>, jobs: seq<(nat, Op)>, calls: seq<Call>, n: nat)
    requires n <= |jobs| && n <= |calls|
  {
    n == 0 || (AllCalls(makes, jobs, calls, n - 1) && IsCall(makes, jobs[n - 1], calls[n - 1]))
  }

  ghost predicate IsCall(makes: seq<Make>, job: (nat, Op), c: Call) {
    c.pos == job.0 < |makes| && Means(makes[job.0], job.1, c.event)
  }

  lemma {:induction false} OneMoreCall(makes: seq<Make>, jobs: seq<(nat, Op)>, calls: seq<Call>, c: Call, n: nat)
    requires n <= |jobs| && n <= |calls|
    ensures AllCalls(makes, jobs, calls, n) == AllCalls(makes, jobs, calls + [c], n)
  {
    if n > 0 { OneMoreCall(makes, jobs, calls, c, n - 1); }
  }

  lemma HasMeaning(make: Make, op: Op) returns (e: Event)
    requires CanDo(make, op)
    ensures Means(make, op, e) && !e.Swapped?
  {
    e := EventOf(make.params, make.hash, op);
    assert Runnable(make.params, make.hash, op);
  }

  lemma MeansPut(make: Make, input: Bytes, e: Event)
    requires Means(make, Insertion(input), e)
    ensures e == Put(IndexSet(Chain(make.hash, input), make.params))
  {
    assert e == EventOf(make.params, make.hash, Insertion(input));
  }

  // ---------- The class ----------

  class Pair {
    const params: Params
    const hash: PairHash
    var learning: BloomFilter
    var detecting: BloomFilter
    var threshold: real
    const initial: real                        // m / sqrt 2
    const rescale: (real, int, int) -> real    // the new threshold, from the old one, m and the zeros detected with
    const slave: Pair?
    ghost const Mine: set<object>              // the pair and its filters
    ghost const Repr: set<object>              // the pair, its filters and all its slaves
    ghost var past: seq<Track>                 // all that ever happened to the pair and to each of its slaves

    ghost function Parts(): set<object>
      reads this
    {
      {this, learning, learning.m, learning.h.res, detecting, detecting.m, detecting.h.res}
    }

    /** Two separate filters of the same make. */
    ghost predicate Twins()
      reads this
    {
      && learning != detecting && learning.m != detecting.m && learning.h.res != detecting.h.res
      && learning.m != detecting.h.res && detecting.m != learning.h.res
      && learning.h.params == params && learning.h.hash == hash
      && detecting.h.params == params && detecting.h.hash == hash
    }

    /** The two filters are in order, and the learner knows no more than the other. */
    ghost predicate Own()
      reads this, learning, learning.m, detecting, detecting.m
    {
      && Parts() <= Mine
      && Twins() && learning.bits <= detecting.bits
      && learning.Sound() && learning.Counted() && detecting.Sound() && detecting.Counted()
    }

    /** The state is what the history makes it. */
    ghost predicate Tells(es: History)
      reads this, learning, detecting
    {
      After(es) == Now() && threshold == Level(es)
    }

    ghost predicate Valid()
      reads this, Repr
      decreases Repr
    {
      && Parts() <= Mine <= Repr && Own() && past != [] && past[0].make == Make(params, hash) && Tells(past[0].es)
      && (slave == null ==> |past| == 1)
      && (slave != null ==> slave in slave.Repr && slave.Repr <= Repr && Mine !! slave.Repr && past[1..] == slave.past)
      && (forall q: Pair? {:trigger q.Valid()} :: q == slave && q != null ==> q.Valid())
    }

    ghost function Now(): Gen
      reads this, learning, detecting
    {
      Gen(learning.bits, detecting.bits)
    }

    /** The zeros left beside some indices. */
    ghost function ZerosBeside(bits: set<nat>): int { Pow2(params.shash) - |bits| }

    /** The new threshold after detecting with some indices. */
    ghost function Rescaled(t: real, bits: set<nat>): real { rescale(t, Pow2(params.shash), ZerosBeside(bits)) }

    /** The threshold at the end of a history. */
    ghost function Level(es: History): real {
      if es == [] then initial
      else
        var before := es[..|es| - 1];
        match es[|es| - 1]
        case Put(_) => Level(before)
        case Swapped => Rescaled(Level(before), After(before).detecting)
        case Wiped => initial
    }

    lemma TellsMore(es: History, e: Event)
      ensures After(es + [e]) == Step(After(es), e)
      ensures Level(es + [e]) == match e
                                 case Put(_) => Level(es)
                                 case Swapped => Rescaled(Level(es), After(es).detecting)
                                 case Wiped => initial
    {
      assert (es + [e])[..|es|] == es;
    }

    static method TwoFilters(params: Params, hash: PairHash, ghost apart: set<object>)
      returns (l: BloomFilter, d: BloomFilter)
      requires params.Allowed() && params.norep
      ensures fresh({l, l.m, l.h.res, d, d.m, d.h.res}) && {l, l.m, l.h.res, d, d.m, d.h.res} !! apart
      ensures l != d && l.m != d.m && l.h.res != d.h.res && l.m != d.h.res && d.m != l.h.res
      ensures l.h.params == params && l.h.hash == hash && l.Sound() && l.Counted() && l.bits == {}
      ensures d.h.params == params && d.h.hash == hash && d.Sound() && d.Counted() && d.bits == {}
    {
      l := new BloomFilter(params, hash);
      d := new BloomFilter(params, hash);
    }

    constructor (params: Params, hash: PairHash, slave: Pair?, initial: real, rescale: (real, int, int) -> real)
      requires params.Allowed() && params.norep
      requires forall q: Pair? {:trigger q.Valid()} :: q == slave && q != null ==> q.Valid()
      ensures Valid() && this.slave == slave && this.params == params && this.hash == hash && this.initial == initial
      ensures past == [Track(Make(params, hash), [])] + if slave == null then [] else slave.past
    {
      var l, d := TwoFilters(params, hash, if slave == null then {} else slave.Repr);
      this.params, this.hash := params, hash;
      learning, detecting := l, d;
      this.initial, this.rescale, this.slave, threshold := initial, rescale, slave, initial;
      Mine := {this, l, l.m, l.h.res, d, d.m, d.h.res};
      Repr := {this, l, l.m, l.h.res, d, d.m, d.h.res} + if slave == null then {} else slave.Repr;
      past := [Track(Make(params, hash), [])] + if slave == null then [] else slave.past;
      new;
      assert slave != null ==> old(slave.Valid());
    }

    /** The filters change roles and the new learner is emptied. */
    method Exchange()
      requires Own()
      modifies Mine
      ensures Own() && past == old(past) && Now() == Step(old(Now()), Swapped)
      ensures threshold == rescale(old(threshold), Pow2(params.shash), ZerosBeside(old(detecting.bits)))
    {
      var b := detecting;
      var dd := b.numZeros;
      detecting := learning;
      learning := b;
      learning.Clear();
      threshold := rescale(threshold, learning.mmax, dd);
    }

    /** Changes to the pair itself, told by one more event, leave the chain in order. */
    twostate lemma StillValid(e: Event)
      requires old(Valid()) && Own() && past == [More(old(past)[0], [e])] + old(past)[1..]
      requires Now() == Step(old(Now()), e)
      requires threshold == match e
                            case Put(_) => old(threshold)
                            case Swapped => Rescaled(old(threshold), old(detecting.bits))
                            case Wiped => initial
      requires slave != null ==> unchanged(slave.Repr)
      ensures Valid()
    {
      TellsMore(old(past)[0].es, e);
    }

    method TurnOver()
      requires Valid()
      modifies Mine
      ensures Valid() && past == [More(old(past)[0], [Swapped])] + old(past)[1..]
    {
      past := [More(past[0], [Swapped])] + past[1..];
      Exchange();
      StillValid(Swapped);
    }

    method SwapSlave()
      requires Valid() && slave != null
      modifies this`past, slave.Repr
      ensures Valid() && past == [old(past)[0]] + Aged(old(past)[1..])
      decreases Repr, 0
    {
      slave.Swap();
      past := [past[0]] + slave.past;
    }

    /** A swap is passed on to all slaves. */
    method Swap()
      requires Valid()
      modifies Repr
      ensures Valid() && past == Aged(old(past))
      decreases Repr, 1
    {
      ghost var chain := past;
      TurnOver();
      if slave != null { SwapSlave(); }
      AgedFrom(chain, past);
    }

    /** Swap when the learner has too few zeros left. */
    method AgeIfFull() returns (swapped: bool)
      requires Valid()
      modifies Repr
      ensures Valid() && past == if swapped then Aged(old(past)) else old(past)
      ensures swapped <==> ZerosBeside(old(learning.bits)) as real < old(threshold)
    {
      swapped := learning.numZeros as real < threshold;
      if swapped { Swap(); }
    }

    method InsertBoth(input: Bytes) returns (isNew: bool)
      requires Own() && Runnable(params, hash, Insertion(input))
      modifies learning, learning.m, learning.h.res, detecting, detecting.m, detecting.h.res
      ensures Own() && Now() == Step(old(Now()), EventOf(params, hash, Insertion(input)))
      ensures isNew <==> !(IndexSet(Chain(hash, input), params) <= old(detecting.bits))
    {
      var learned := learning.Insert(input);
      IndexSetIs(Chain(hash, input), params, learning.h.Indices());
      isNew := detecting.Insert(input);
      IndexSetIs(Chain(hash, input), params, detecting.h.Indices());
      assert !isNew || learned;
    }

    method SetBoth(digest: seq<Word>) returns (isNew: bool)
      requires Own() && Runnable(params, hash, Bits(digest))
      modifies learning, learning.m, learning.h.res, detecting, detecting.m, detecting.h.res
      ensures Own() && Now() == Step(old(Now()), EventOf(params, hash, Bits(digest)))
      ensures isNew <==> !(IndexSet(Given(digest), params) <= old(detecting.bits))
    {
      var learned := learning.SetBits(digest);
      IndexSetIs(Given(digest), params, learning.h.Indices());
      isNew := detecting.SetBits(digest);
      IndexSetIs(Given(digest), params, detecting.h.Indices());
      assert !isNew || learned;
    }

    method ClearBoth()
      requires Own()
      modifies this`threshold, learning, learning.m, detecting, detecting.m
      ensures Own() && Now() == Gen({}, {}) && threshold == initial
    {
      learning.Clear();
      detecting.Clear();
      threshold := initial;
    }

    /** What each of these does to the pair alone. */
    method UpdateBoth(op: Op, ghost e: Event) returns (isNew: bool)
      requires Own() && Means(Make(params, hash), op, e)
      modifies Mine
      ensures Own() && past == old(past) && Now() == Step(old(Now()), e)
      ensures isNew == News(e, old(detecting.bits)) && threshold == if e.Wiped? then initial else old(threshold)
    {
      assert e == EventOf(Make(params, hash).params, Make(params, hash).hash, op);
      match op {
        case Insertion(input) => isNew := InsertBoth(input);
        case Bits(digest) => isNew := SetBoth(digest);
        case Clearing => ClearBoth(); isNew := false;
      }
    }

    method Update(op: Op, ghost e: Event) returns (isNew: bool)
      requires Valid() && Means(Make(params, hash), op, e) && !e.Swapped?
      modifies Mine
      ensures Valid() && past == [More(old(past)[0], [e])] + old(past)[1..]
      ensures isNew == News(e, old(detecting.bits)) && threshold == if e.Wiped? then initial else old(threshold)
      ensures Now() == Step(old(Now()), e)
    {
      past := [More(past[0], [e])] + past[1..];
      isNew := UpdateBoth(op, e);
      StillValid(e);
    }

    ghost predicate News(e: Event, known: set<nat>) { e.Put? && !(e.idx <= known) }

    /** True iff the element was not detected before. */
    method Add(input: Bytes) returns (isNew: bool, ghost c: Call)
      requires Valid() && CanDo(Make(params, hash), Insertion(input))
      modifies Repr
      ensures Valid() && c.pos == 0 && c.event == Put(IndexSet(Chain(hash, input), params))
      ensures past == ChainStep(old(past), c)
      ensures c.swap <==> ZerosBeside(old(learning.bits) + c.event.idx) as real < old(threshold)
      ensures isNew <==> !(IndexSet(Chain(hash, input), params) <= old(detecting.bits))
    {
      ghost var chain, e := past, EventOf(params, hash, Insertion(input));
      assert Runnable(params, hash, Insertion(input));
      isNew := Update(Insertion(input), e);
      CallOnHead(chain, past, e);
      var swapped := AgeIfFull();
      c := Call(0, e, swapped);
    }

    method SetBits(digest: seq<Word>) returns (isNew: bool, ghost c: Call)
      requires Valid() && CanDo(Make(params, hash), Bits(digest))
      modifies Repr
      ensures Valid() && c.pos == 0 && c.event == Put(IndexSet(Given(digest), params))
      ensures past == ChainStep(old(past), c)
      ensures c.swap <==> ZerosBeside(old(learning.bits) + c.event.idx) as real < old(threshold)
      ensures isNew <==> !(IndexSet(Given(digest), params) <= old(detecting.bits))
    {
      ghost var chain, e := past, EventOf(params, hash, Bits(digest));
      assert Runnable(params, hash, Bits(digest));
      isNew := Update(Bits(digest), e);
      CallOnHead(chain, past, e);
      var swapped := AgeIfFull();
      c := Call(0, e, swapped);
    }

    /** Clears this pair, not its slaves. */
    method Clear() returns (ghost c: Call)
      requires Valid()
      modifies Repr
      ensures Valid() && c == Call(0, Wiped, false) && past == ChainStep(old(past), c) && threshold == initial
    {
      ghost var chain := past;
      assert Means(Make(params, hash), Clearing, Wiped);
      var _ := Update(Clearing, Wiped);
      CallOnHead(chain, past, Wiped);
      c := Call(0, Wiped, false);
    }

    /** Looking things up changes nothing of this. */
    twostate lemma Unmoved()
      requires old(Valid()) && Own() && past == old(past) && Now() == old(Now()) && threshold == old(threshold)
      requires slave != null ==> unchanged(slave.Repr)
      ensures Valid()
    {
    }

    method CheckOwn(input: Bytes) returns (found: bool)
      requires Own() && CanDo(Make(params, hash), Insertion(input))
      modifies detecting.h.res
      ensures Own() && Now() == old(Now())
      ensures found <==> IndexSet(Chain(hash, input), params) <= detecting.bits
    {
      assert Runnable(params, hash, Insertion(input));
      found := detecting.Check(input);
      IndexSetIs(Chain(hash, input), params, detecting.h.Indices());
    }

    method Check(input: Bytes) returns (found: bool)
      requires Valid() && CanDo(Make(params, hash), Insertion(input))
      modifies Mine
      ensures Valid() && past == old(past)
      ensures found <==> IndexSet(Chain(hash, input), params) <= After(past[0].es).detecting
    {
      found := CheckOwn(input);
      Unmoved();
    }

    method CheckBits(digest: seq<Word>) returns (found: bool)
      requires Own() && CanDo(Make(params, hash), Bits(digest))
      modifies detecting.h.res
      ensures Own() && Now() == old(Now())
      ensures found <==> IndexSet(Given(digest), params) <= detecting.bits
    {
      assert Runnable(params, hash, Bits(digest));
      found := detecting.CheckBits(digest);
      IndexSetIs(Given(digest), params, detecting.h.Indices());
    }

    /** The call a user makes on a pair. */
    method Perform(op: Op, ghost e: Event) returns (ghost c: Call)
      requires Valid() && Means(Make(params, hash), op, e)
      modifies Repr
      ensures Valid() && c.pos == 0 && c.event == e && past == ChainStep(old(past), c)
    {
      assert e == EventOf(Make(params, hash).params, Make(params, hash).hash, op);
      match op {
        case Insertion(input) => var _, call := Add(input); c := call;
        case Bits(digest) => var _, call := SetBits(digest); c := call;
        case Clearing => c := Clear();
      }
    }

    method PerformOnSlave(k: nat, op: Op, ghost e: Event) returns (ghost c: Call)
      requires Valid() && 0 < k < |past| && Means(past[k].make, op, e)
      modifies this`past, slave.Repr
      ensures Valid() && c.pos == k - 1 && c.event == e && past == [old(past)[0]] + ChainStep(old(past)[1..], c)
      decreases Repr, 0
    {
      ghost var head := past[0];
      assert past[1..] == slave.past && past[1..][k - 1] == past[k];
      c := slave.PerformAt(k - 1, op, e);
      past := [head] + slave.past;
      assert past[1..] == slave.past;
    }

    /** A call on the pair k places down the chain is seen from its head as one step of the chain. */
    method PerformAt(k: nat, op: Op, ghost e: Event) returns (ghost c: Call)
      requires Valid() && k < |past| && Means(past[k].make, op, e)
      modifies Repr
      ensures Valid() && c.pos == k && c.event == e && past == ChainStep(old(past), c)
      decreases Repr, 1
    {
      if k == 0 {
        c := Perform(op, e);
      } else {
        c := PerformOnSlave(k, op, e);
        c := c.(pos := k);
        CallBelow(old(past), c);
      }
    }

    method CheckOnSlave(k: nat, input: Bytes) returns (found: bool)
      requires Valid() && 0 < k < |past| && CanDo(past[k].make, Insertion(input))
      modifies this`past, slave.Repr
      ensures Valid() && past == old(past)
      ensures found <==> IndexSet(Chain(past[k].make.hash, input), past[k].make.params) <= After(past[k].es).detecting
      decreases Repr, 0
    {
      found := slave.CheckAt(k - 1, input);
    }

    /** A look at the pair k places down the chain. */
    method CheckAt(k: nat, input: Bytes) returns (found: bool)
      requires Valid() && k < |past| && CanDo(past[k].make, Insertion(input))
      modifies Repr
      ensures Valid() && past == old(past)
      ensures found <==> IndexSet(Chain(past[k].make.hash, input), past[k].make.params) <= After(past[k].es).detecting
      decreases Repr, 1
    {
      if k == 0 { found := Check(input); } else { found := CheckOnSlave(k, input); }
    }

    method PerformNext(jobs: seq<(nat, Op)>, i: nat, ghost makes: seq<Make>, ghost calls: seq<Call>)
      returns (ghost c: Call)
      requires Valid() && i == |calls| < |jobs| && makes == Makes(past)
      requires All(CanPerform(makes), jobs, |jobs|) && AllCalls(makes, jobs, calls, i)
      modifies Repr
      ensures Valid() && past == ChainStep(old(past), c) && AllCalls(makes, jobs, calls + [c], i + 1)
    {
      AllAt(CanPerform(makes), jobs, |jobs|, i);
      ghost var e := HasMeaning(makes[jobs[i].0], jobs[i].1);
      c := PerformAt(jobs[i].0, jobs[i].1, e);
      OneMoreCall(makes, jobs, calls, c, i);
    }

    /** Any run: operations on any pairs of the chain in any order. */
    method PerformAll(jobs: seq<(nat, Op)>) returns (ghost calls: seq<Call>)
      requires Valid() && All(CanPerform(Makes(past)), jobs, |jobs|)
      modifies Repr
      ensures Valid() && past == ChainFrom(old(past), calls)
      ensures |calls| == |jobs| && AllCalls(Makes(old(past)), jobs, calls, |jobs|)
    {
      ghost var makes := Makes(past);
      calls := [];
      var i := 0;
      while i < |jobs|
        invariant i == |calls| <= |jobs| && Valid() && past == ChainFrom(old(past), calls)
        invariant makes == Makes(past) && AllCalls(makes, jobs, calls, i)
      {
        ghost var c := PerformNext(jobs, i, makes, calls);
        assert (calls + [c])[..i] == calls;
        calls := calls + [c];
        i := i + 1;
      }
    }

    method AddThenPerform(j: nat, input: Bytes, jobs: seq<(nat, Op)>) returns (ghost c: Call, ghost calls: seq<Call>)
      requires Valid() && j < |past| && CanDo(past[j].make, Insertion(input))
      requires All(CanPerform(Makes(past)), jobs, |jobs|)
      modifies Repr
      ensures Valid() && past == ChainFrom(ChainStep(old(past), c), calls)
      ensures IsCall(Makes(old(past)), (j, Insertion(input)), c)
      ensures |calls| == |jobs| && AllCalls(Makes(old(past)), jobs, calls, |jobs|)
    {
      ghost var start := past;
      ghost var e := HasMeaning(past[j].make, Insertion(input));
      c := PerformAt(j, Insertion(input), e);
      assert Makes(past) == Makes(start);
      calls := PerformAll(jobs);
    }

    /** An element added to a pair anywhere in the chain is found there after any run, as long as that pair
        has not swapped twice since, the swap at its own adding included, nor been cleared. */
    method AddedIsFound(j: nat, input: Bytes, jobs: seq<(nat, Op)>)
      returns (found: bool, ghost c: Call, ghost calls: seq<Call>)
      requires Valid() && j < |past| && CanDo(past[j].make, Insertion(input))
      requires All(CanPerform(Makes(past)), jobs, |jobs|)
      modifies Repr
      ensures Valid() && past == ChainFrom(ChainStep(old(past), c), calls)
      ensures IsCall(Makes(old(past)), (j, Insertion(input)), c)
      ensures |calls| == |jobs| && AllCalls(Makes(old(past)), jobs, calls, |jobs|)
      ensures Untouched(Since(c, calls, j)) ==> found
    {
      ghost var start, make := past, past[j].make;
      c, calls := AddThenPerform(j, input, jobs);
      ChainAgesLocally(ChainStep(start, c), calls, j);
      found := CheckAt(j, input);
      MeansPut(make, input, c.event);
      if Untouched(Since(c, calls, j)) { DetectedAfter(start, c, calls, j); }
    }
  }
}
