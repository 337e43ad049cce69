/** What one turn of an active block hands over (core/block/Block.cpp, run), as a function of what its gates
    were given and when. */
module BlockTurn {
  import opened Wrappers

  const MAX_MSG_DEQUEUE: nat := 10

  /** Messages and timers by identity. */
  datatype Message = Message(id: nat)
  datatype Timer = Timer(id: nat)

  /** What a block's own handlers get to see, in order. */
  datatype Event = TimerFired(timer: Timer) | Received(gate: nat, message: Message) | AsyncWork

  /** A message delivered to a gate while the block had seen `during` events. */
  datatype Delivery = Delivery(message: Message, during: nat)

  function Messages(ds: seq<Delivery>): (ms: seq<Message>)
    ensures |ms| == |ds| && forall j :: 0 <= j < |ds| ==> ms[j] == ds[j].message
  {
    seq(|ds|, j requires 0 <= j < |ds| => ds[j].message)
  }

  function Fired(ts: seq<Timer>): (es: seq<Event>)
    ensures |es| == |ts| && forall i :: 0 <= i < |es| ==> es[i] == TimerFired(ts[i])
  {
    seq(|ts|, i requires 0 <= i < |ts| => TimerFired(ts[i]))
  }

  // ---------- One gate ----------

  /** How many of a gate's messages a loop takes, from the one at t on and up to the one at `stop`, when the
      block has seen `base` events: each must have been delivered by the time the loop asks for it. */
  function Count(ds: seq<Delivery>, t: nat, base: nat, stop: nat): (m: nat)
    requires t <= |ds| && t <= stop
    ensures t + m <= stop && t + m <= |ds|
    decreases stop - t
  {
    if t == stop || t == |ds| || ds[t].during > base then 0 else 1 + Count(ds, t + 1, base + 1, stop)
  }

  /** What a turn takes of a gate of which t messages were taken before. */
  function Share(ds: seq<Delivery>, t: nat, base: nat): (m: nat)
    requires t <= |ds|
    ensures m <= MAX_MSG_DEQUEUE && t + m <= |ds|
  {
    Count(ds, t, base, t + MAX_MSG_DEQUEUE)
  }

  /** The first n of them were there in time. */
  ghost predicate InTime(ds: seq<Delivery>, t: nat, base: nat, n: nat) {
    t + n <= |ds| && forall j :: t <= j < t + n ==> ds[j].during <= base + (j - t)
  }

  /** They were all that is allowed, or there was no other in time. */
  ghost predicate IsCount(ds: seq<Delivery>, t: nat, base: nat, stop: nat, m: nat) {
    t + m <= stop && InTime(ds, t, base, m) && (t + m == stop || t + m == |ds| || ds[t + m].during > base + m)
  }

  lemma {:induction false} CountFrom(ds: seq<Delivery>, t: nat, base: nat, stop: nat, m: nat)
    requires t <= |ds| && IsCount(ds, t, base, stop, m)
    ensures Count(ds, t, base, stop) == m
    decreases m
  {
    if m > 0 { CountFrom(ds, t + 1, base + 1, stop, m - 1); }
  }

  lemma {:induction false} CountHolds(ds: seq<Delivery>, t: nat, base: nat, stop: nat)
    requires t <= |ds| && t <= stop
    ensures IsCount(ds, t, base, stop, Count(ds, t, base, stop))
    decreases stop - t
  {
    if Count(ds, t, base, stop) > 0 { CountHolds(ds, t + 1, base + 1, stop); }
  }

  lemma ShareIs(ds: seq<Delivery>, t: nat, base: nat, m: nat)
    requires t <= |ds|
    ensures Share(ds, t, base) == m <==> IsCount(ds, t, base, t + MAX_MSG_DEQUEUE, m)
  {
    CountHolds(ds, t, base, t + MAX_MSG_DEQUEUE);
    if IsCount(ds, t, base, t + MAX_MSG_DEQUEUE, m) { CountFrom(ds, t, base, t + MAX_MSG_DEQUEUE, m); }
  }

  /** The next m messages of a gate, as the block sees them. */
  function Served(gate: nat, ds: seq<Delivery>, t: nat, m: nat): (es: seq<Event>)
    requires t + m <= |ds|
    ensures |es| == m && forall j :: 0 <= j < m ==> es[j] == Received(gate, ds[t + j].message)
  {
    seq(m, j requires 0 <= j < m => Received(gate, ds[t + j].message))
  }

  /** The gate has been given what it had been given, and perhaps more after n events. */
  ghost predicate LaterAt(ds: seq<Delivery>, ds': seq<Delivery>, n: nat) {
    ds <= ds' && forall j :: |ds| <= j < |ds'| ==> ds'[j].during >= n
  }

  /** What comes in behind the loop makes no difference to it. */
  lemma ShareStays(gate: nat, ds: seq<Delivery>, ds': seq<Delivery>, t: nat, base: nat, m: nat)
    requires t <= |ds| && m == Share(ds, t, base) && LaterAt(ds, ds', base + m + 1)
    ensures Share(ds', t, base) == m && Served(gate, ds', t, m) == Served(gate, ds, t, m)
  {
    ShareIs(ds, t, base, m);
    ShareIs(ds', t, base, m);
  }

  lemma OneMoreServed(gate: nat, ds: seq<Delivery>, ds': seq<Delivery>, t: nat, base: nat, n: nat)
    requires t + n < |ds| && ds <= ds' && InTime(ds, t, base, n) && ds[t + n].during <= base + n
    ensures InTime(ds', t, base, n + 1)
    ensures Served(gate, ds', t, n + 1) == Served(gate, ds, t, n) + [Received(gate, ds[t + n].message)]
  {
  }

  ghost predicate MadeBy(ds: seq<Delivery>, n: nat) {
    forall j :: 0 <= j < |ds| ==> ds[j].during <= n
  }

  // ---------- All gates ----------

  /** What the gates were given, ever, and how much of it was taken. */
  ghost predicate Fits(gs: seq<seq<Delivery>>, ts: seq<nat>) {
    |gs| == |ts| && forall k :: 0 <= k < |gs| ==> ts[k] <= |gs[k]|
  }

  /** What a turn hands over of the first n gates, gate by gate, that begins with them when the block has
      seen `base` events. */
  function HandedOver(gs: seq<seq<Delivery>>, ts: seq<nat>, base: nat, n: nat): seq<Event>
    requires Fits(gs, ts) && n <= |gs|
  {
    if n == 0 then []
    else
      var before := HandedOver(gs, ts, base, n - 1);
      before + Served(n - 1, gs[n - 1], ts[n - 1], Share(gs[n - 1], ts[n - 1], base + |before|))
  }

  /** How much of gate k that is. */
  function Taken(gs: seq<seq<Delivery>>, ts: seq<nat>, base: nat, k: nat): (n: nat)
    requires Fits(gs, ts) && k < |gs|
    ensures n <= MAX_MSG_DEQUEUE && ts[k] + n <= |gs[k]|
  {
    Share(gs[k], ts[k], base + |HandedOver(gs, ts, base, k)|)
  }

  lemma HandedNext(gs: seq<seq<Delivery>>, ts: seq<nat>, base: nat, n: nat, before: seq<Event>, m: nat)
    requires Fits(gs, ts) && n < |gs| && before == HandedOver(gs, ts, base, n)
    requires m == Share(gs[n], ts[n], base + |before|)
    ensures Taken(gs, ts, base, n) == m && ts[n] + m <= |gs[n]|
    ensures HandedOver(gs, ts, base, n + 1) == before + Served(n, gs[n], ts[n], m)
  {
  }

  lemma WaitingIsServed(was: seq<Delivery>, gs: seq<seq<Delivery>>, ts: seq<nat>, base: nat, k: nat)
    requires Fits(gs, ts) && k < |gs| && ts[k] <= |was| && was <= gs[k] && MadeBy(was, base)
    ensures Taken(gs, ts, base, k) >= Min(MAX_MSG_DEQUEUE, |was| - ts[k])
    ensures gs[k] == was ==> Taken(gs, ts, base, k) == Min(MAX_MSG_DEQUEUE, |was| - ts[k])
  {
    var begins := base + |HandedOver(gs, ts, base, k)|;
    ShareIs(gs[k], ts[k], begins, Taken(gs, ts, base, k));
  }

  /** A turn goes from gate to gate in the order of their numbers. */
  lemma {:induction false} GatesInOrder(gs: seq<seq<Delivery>>, ts: seq<nat>, base: nat, n: nat, i: nat, j: nat)
    requires Fits(gs, ts) && n <= |gs| && i <= j < |HandedOver(gs, ts, base, n)|
    ensures var es := HandedOver(gs, ts, base, n);
            es[i].Received? && es[j].Received? && es[i].gate <= es[j].gate < n
  {
    if n > 0 {
      var before := HandedOver(gs, ts, base, n - 1);
      if j < |before| { GatesInOrder(gs, ts, base, n - 1, i, j); }
      else if i < |before| { GatesInOrder(gs, ts, base, n - 1, i, i); }
    }
  }

  ghost predicate Later(gs: seq<seq<Delivery>>, gs': seq<seq<Delivery>>, n: nat) {
    |gs'| == |gs| && forall k {:trigger LaterAt(gs[k], gs'[k], n)} :: 0 <= k < |gs| ==> LaterAt(gs[k], gs'[k], n)
  }

  lemma LaterOn(a: seq<seq<Delivery>>, b: seq<seq<Delivery>>, c: seq<seq<Delivery>>, m: nat, n: nat)
    requires m <= n && Later(a, b, m) && Later(b, c, n)
    ensures Later(a, c, m)
  {
    forall k | 0 <= k < |a| ensures LaterAt(a[k], c[k], m) {
      assert LaterAt(a[k], b[k], m) && LaterAt(b[k], c[k], n);
      forall j | |a[k]| <= j < |c[k]| ensures c[k][j].during >= m { if j < |b[k]| { assert c[k][j] == b[k][j]; } }
    }
  }

  lemma Sooner(gs: seq<seq<Delivery>>, gs': seq<seq<Delivery>>, m: nat, n: nat)
    requires m <= n && Later(gs, gs', n)
    ensures Later(gs, gs', m)
  {
    forall k | 0 <= k < |gs| ensures LaterAt(gs[k], gs'[k], m) { assert LaterAt(gs[k], gs'[k], n); }
  }

  lemma OneGiven(gs: seq<seq<Delivery>>, gs': seq<seq<Delivery>>, i: nat, d: Delivery)
    requires i < |gs| && gs' == gs[i := gs[i] + [d]]
    ensures Later(gs, gs', d.during)
  {
  }

  lemma FitsLater(gs: seq<seq<Delivery>>, gs': seq<seq<Delivery>>, ts: seq<nat>, n: nat)
    requires Fits(gs, ts) && Later(gs, gs', n)
    ensures Fits(gs', ts)
  {
    forall k | 0 <= k < |gs| ensures ts[k] <= |gs'[k]| { assert LaterAt(gs[k], gs'[k], n); }
  }

  /** gs' will do for gs as far as the first n gates are concerned. */
  ghost predicate SameTurn(gs: seq<seq<Delivery>>, gs': seq<seq<Delivery>>, ts: seq<nat>, base: nat, n: nat)
    requires Fits(gs, ts) && Fits(gs', ts) && n <= |gs|
  {
    && HandedOver(gs', ts, base, n) == HandedOver(gs, ts, base, n)
    && (forall k {:trigger Taken(gs', ts, base, k)} :: 0 <= k < n ==>
          Taken(gs', ts, base, k) == Taken(gs, ts, base, k))
  }

  /** What comes in once n gates are done does not change what they handed over. */
  lemma {:induction false} HandedStays(gs: seq<seq<Delivery>>, gs': seq<seq<Delivery>>, ts: seq<nat>, base: nat, n: nat,
                                       all: seq<Event>)
    requires Fits(gs, ts) && Fits(gs', ts) && n <= |gs| && all == HandedOver(gs, ts, base, n)
    requires Later(gs, gs', base + |all| + 1)
    ensures SameTurn(gs, gs', ts, base, n)
  {
    if n > 0 {
      var k, before := n - 1, HandedOver(gs, ts, base, n - 1);
      HandedNext(gs, ts, base, k, before, Taken(gs, ts, base, k));
      Sooner(gs, gs', base + |before| + 1, base + |all| + 1);
      HandedStays(gs, gs', ts, base, k, before);
      assert LaterAt(gs[k], gs'[k], base + |all| + 1);
      SameTurnNext(gs, gs', ts, base, k, before, Taken(gs, ts, base, k));
    }
  }

  lemma SameTurnNext(gs: seq<seq<Delivery>>, gs': seq<seq<Delivery>>, ts: seq<nat>, base: nat, k: nat,
                     before: seq<Event>, m: nat)
    requires Fits(gs, ts) && Fits(gs', ts) && k < |gs| && SameTurn(gs, gs', ts, base, k)
    requires before == HandedOver(gs, ts, base, k) && m == Share(gs[k], ts[k], base + |before|)
    requires LaterAt(gs[k], gs'[k], base + |before| + m + 1)
    ensures SameTurn(gs, gs', ts, base, k + 1)
  {
    ShareStays(k, gs[k], gs'[k], ts[k], base + |before|, m);
    HandedNext(gs, ts, base, k, before, m);
    HandedNext(gs', ts, base, k, before, m);
  }

  // ---------- A turn under way ----------

  /** A turn that began with the gates given gs and drained up to ts, and with the log at start, has drained
      the first n of them; they are given gs' and drained up to ts' by now. */
  ghost predicate Drained(gs: seq<seq<Delivery>>, ts: seq<nat>, start: seq<Event>, n: nat,
                          gs': seq<seq<Delivery>>, ts': seq<nat>, log: seq<Event>) {
    && Later(gs, gs', |start| + 1) && Fits(gs', ts) && |ts'| == |ts| && n <= |ts|
    && log == start + HandedOver(gs', ts, |start|, n)
    && (forall k {:trigger Taken(gs', ts, |start|, k)} :: 0 <= k < n ==> ts'[k] == ts[k] + Taken(gs', ts, |start|, k))
    && (forall k {:trigger ts'[k]} :: n <= k < |ts| ==> ts'[k] == ts[k])
  }

  lemma DrainedLater(gs: seq<seq<Delivery>>, ts: seq<nat>, start: seq<Event>, n: nat,
                     mid: seq<seq<Delivery>>, gs': seq<seq<Delivery>>, ts': seq<nat>, log: seq<Event>)
    requires Drained(gs, ts, start, n, mid, ts', log) && Later(mid, gs', |log| + 1)
    ensures Drained(gs, ts, start, n, gs', ts', log)
  {
    LaterOn(gs, mid, gs', |start| + 1, |log| + 1);
    FitsLater(mid, gs', ts, |log| + 1);
    HandedStays(mid, gs', ts, |start|, n, HandedOver(mid, ts, |start|, n));
    forall k | 0 <= k < n ensures ts'[k] == ts[k] + Taken(gs', ts, |start|, k) {
      assert ts'[k] == ts[k] + Taken(mid, ts, |start|, k);
    }
  }

  lemma DrainedNext(gs: seq<seq<Delivery>>, ts: seq<nat>, start: seq<Event>, i: nat,
                    gs': seq<seq<Delivery>>, ts': seq<nat>, log: seq<Event>, m: nat)
    requires Drained(gs, ts, start, i, gs', ts', log) && i < |ts| && m == Share(gs'[i], ts[i], |log|)
    ensures ts'[i] == ts[i] && ts[i] + m <= |gs'[i]|
    ensures Drained(gs, ts, start, i + 1, gs', ts'[i := ts[i] + m], log + Served(i, gs'[i], ts[i], m))
  {
    var before := HandedOver(gs', ts, |start|, i);
    HandedNext(gs', ts, |start|, i, before, m);
    assert start + (before + Served(i, gs'[i], ts[i], m)) == log + Served(i, gs'[i], ts[i], m);
  }

  /** What a turn is: log, gs and ts say what the block had seen, what its gates had been given and what was
      taken of them before; log', gs' and ts' say it behind the turn; timers were queued. */
  ghost predicate Turn(timers: seq<Timer>, log: seq<Event>, gs: seq<seq<Delivery>>, ts: seq<nat>,
                       log': seq<Event>, gs': seq<seq<Delivery>>, ts': seq<nat>) {
    && Later(gs, gs', |log| + 1) && Fits(gs', ts) && |ts'| == |ts|
    && var start := log + Fired(timers);
    && log' == start + HandedOver(gs', ts, |start|, |ts|) + [AsyncWork]
    && forall k {:trigger Taken(gs', ts, |start|, k)} :: 0 <= k < |ts| ==> ts'[k] == ts[k] + Taken(gs', ts, |start|, k)
  }

  lemma TurnEnds(timers: seq<Timer>, log: seq<Event>, gs: seq<seq<Delivery>>, ts: seq<nat>,
                 start: seq<Event>, mid: seq<seq<Delivery>>, gs': seq<seq<Delivery>>, ts': seq<nat>, log': seq<Event>)
    requires start == log + Fired(timers) && Later(gs, mid, |log| + 1)
    requires Drained(mid, ts, start, |ts|, gs', ts', log')
    ensures Turn(timers, log, gs, ts, log' + [AsyncWork], gs', ts')
  {
    LaterOn(gs, mid, gs', |log| + 1, |start| + 1);
  }

  /** Of each gate a turn serves at least what was waiting before it, ten messages at most; if the gate is
      given nothing meanwhile, exactly that. */
  lemma TurnServesWaiting(timers: seq<Timer>, log: seq<Event>, gs: seq<seq<Delivery>>, ts: seq<nat>,
                          log': seq<Event>, gs': seq<seq<Delivery>>, ts': seq<nat>, k: nat)
    requires Fits(gs, ts) && k < |gs| && MadeBy(gs[k], |log|) && Turn(timers, log, gs, ts, log', gs', ts')
    ensures ts[k] + Min(10, |gs[k]| - ts[k]) <= ts'[k] <= ts[k] + 10
    ensures gs'[k] == gs[k] ==> ts'[k] == ts[k] + Min(10, |gs[k]| - ts[k])
  {
    var base := |log + Fired(timers)|;
    assert LaterAt(gs[k], gs'[k], |log| + 1);
    WaitingIsServed(gs[k], gs', ts, base, k);
    assert ts'[k] == ts[k] + Taken(gs', ts, base, k);
  }

  // ---------- Over many turns ----------

  /** What the block has seen of a gate. */
  function FromGate(log: seq<Event>, gate: nat): seq<Message> { FirstFromGate(log, gate, |log|) }

  function FirstFromGate(log: seq<Event>, gate: nat, n: nat): seq<Message>
    requires n <= |log|
  {
    if n == 0 then []
    else
      var before, e := FirstFromGate(log, gate, n - 1), log[n - 1];
      if e.Received? && e.gate == gate then before + [e.message] else before
  }

  lemma {:induction false} FromSame(a: seq<Event>, b: seq<Event>, gate: nat, n: nat)
    requires n <= |a| && n <= |b| && forall i :: 0 <= i < n ==> a[i] == b[i]
    ensures FirstFromGate(a, gate, n) == FirstFromGate(b, gate, n)
  {
    if n > 0 { FromSame(a, b, gate, n - 1); }
  }

  lemma {:induction false} FromTwo(a: seq<Event>, b: seq<Event>, all: seq<Event>, gate: nat, n: nat)
    requires n <= |b| && all == a + b
    ensures FirstFromGate(all, gate, |a| + n) == FromGate(a, gate) + FirstFromGate(b, gate, n)
  {
    if n == 0 { FromSame(all, a, gate, |a|); } else { FromTwo(a, b, all, gate, n - 1); }
  }

  lemma FromBoth(a: seq<Event>, b: seq<Event>, all: seq<Event>, gate: nat)
    requires all == a + b
    ensures FromGate(all, gate) == FromGate(a, gate) + FromGate(b, gate)
  {
    FromTwo(a, b, all, gate, |b|);
  }

  lemma {:induction false} FromServed(i: nat, ds: seq<Delivery>, t: nat, m: nat, gate: nat, n: nat)
    requires t + m <= |ds| && n <= m
    ensures FirstFromGate(Served(i, ds, t, m), gate, n) == if gate == i then Messages(ds[t..t + n]) else []
  {
    if n > 0 {
      FromServed(i, ds, t, m, gate, n - 1);
      assert ds[t..t + n] == ds[t..t + n - 1] + [ds[t + n - 1]];
    }
  }

  lemma {:induction false} FromOthers(es: seq<Event>, gate: nat, n: nat)
    requires n <= |es| && forall i :: 0 <= i < n ==> !es[i].Received?
    ensures FirstFromGate(es, gate, n) == []
  {
    if n > 0 { FromOthers(es, gate, n - 1); }
  }

  /** Events of other kinds add nothing. */
  lemma FromNone(a: seq<Event>, b: seq<Event>, all: seq<Event>, gate: nat)
    requires all == a + b && forall i :: 0 <= i < |b| ==> !b[i].Received?
    ensures FromGate(all, gate) == FromGate(a, gate)
  {
    FromBoth(a, b, all, gate);
    FromOthers(b, gate, |b|);
  }

  /** The messages of gate k that a turn takes. */
  function Part(gs: seq<seq<Delivery>>, ts: seq<nat>, base: nat, k: nat): seq<Message>
    requires Fits(gs, ts) && k < |gs|
  {
    Messages(gs[k][ts[k]..ts[k] + Taken(gs, ts, base, k)])
  }

  /** The first n gates hand over what was taken of them. */
  lemma {:induction false} FromHanded(gs: seq<seq<Delivery>>, ts: seq<nat>, base: nat, n: nat, gate: nat,
                                      all: seq<Event>)
    requires Fits(gs, ts) && n <= |gs| && all == HandedOver(gs, ts, base, n)
    ensures FromGate(all, gate) == if gate < n then Part(gs, ts, base, gate) else []
  {
    if n > 0 {
      var k, before := n - 1, HandedOver(gs, ts, base, n - 1);
      FromHanded(gs, ts, base, k, gate, before);
      FromHandedNext(gs, ts, base, k, gate, before, all, Taken(gs, ts, base, k));
    }
  }

  lemma FromHandedNext(gs: seq<seq<Delivery>>, ts: seq<nat>, base: nat, k: nat, gate: nat,
                       before: seq<Event>, all: seq<Event>, m: nat)
    requires Fits(gs, ts) && k < |gs| && before == HandedOver(gs, ts, base, k) && all == HandedOver(gs, ts, base, k + 1)
    requires m == Taken(gs, ts, base, k)
    ensures FromGate(all, gate) == FromGate(before, gate) + if gate == k then Part(gs, ts, base, k) else []
  {
    HandedNext(gs, ts, base, k, before, m);
    FromServed(k, gs[k], ts[k], m, gate, m);
    FromBoth(before, Served(k, gs[k], ts[k], m), all, gate);
  }

  /** The block has seen of each gate what was taken: the messages given first, in their order, each once. */
  ghost predicate Faithful(log: seq<Event>, gs: seq<seq<Delivery>>, ts: seq<nat>)
    requires Fits(gs, ts)
  {
    forall k: nat {:trigger FaithfulAt(log, gs, ts, k)} :: FaithfulAt(log, gs, ts, k)
  }

  ghost predicate FaithfulAt(log: seq<Event>, gs: seq<seq<Delivery>>, ts: seq<nat>, k: nat)
    requires Fits(gs, ts)
  {
    FromGate(log, k) == if k < |gs| then Messages(gs[k][..ts[k]]) else []
  }

  /** A block without gates has seen nothing of any, and a gate added later begins with nothing. */
  lemma NoGates()
    ensures Faithful([], [], [])
  {
  }

  lemma OneMoreGate(log: seq<Event>, gs: seq<seq<Delivery>>, ts: seq<nat>)
    requires Fits(gs, ts) && Faithful(log, gs, ts)
    ensures Fits(gs + [[]], ts + [0]) && Faithful(log, gs + [[]], ts + [0])
  {
    assert Fits(gs + [[]], ts + [0]);
    forall k: nat ensures FaithfulAt(log, gs + [[]], ts + [0], k) { assert FaithfulAt(log, gs, ts, k); }
  }

  /** More deliveries do not change that. */
  lemma FaithfulLater(log: seq<Event>, gs: seq<seq<Delivery>>, gs': seq<seq<Delivery>>, ts: seq<nat>, n: nat)
    requires Fits(gs, ts) && Fits(gs', ts) && Faithful(log, gs, ts) && Later(gs, gs', n)
    ensures Faithful(log, gs', ts)
  {
    forall k: nat ensures FaithfulAt(log, gs', ts, k) {
      assert FaithfulAt(log, gs, ts, k);
      if k < |gs| { assert LaterAt(gs[k], gs'[k], n) && gs'[k][..ts[k]] == gs[k][..ts[k]]; }
    }
  }

  /** A turn keeps it. */
  lemma TurnIsFaithful(timers: seq<Timer>, log: seq<Event>, gs: seq<seq<Delivery>>, ts: seq<nat>,
                       log': seq<Event>, gs': seq<seq<Delivery>>, ts': seq<nat>)
    requires Turn(timers, log, gs, ts, log', gs', ts') && Fits(gs, ts) && Fits(gs', ts') && Faithful(log, gs, ts)
    ensures Faithful(log', gs', ts')
  {
    var start := log + Fired(timers);
    FaithfulLater(log, gs, gs', ts, |log| + 1);
    forall k: nat ensures FaithfulAt(log', gs', ts', k) {
      var handed := HandedOver(gs', ts, |start|, |ts|);
      FromTurn(log, start, Fired(timers), handed, log', k);
      FromHanded(gs', ts, |start|, |ts|, k, handed);
      assert FaithfulAt(log, gs', ts, k);
      if k < |gs'| { GateIsFaithful(log, gs', ts, ts', k, Taken(gs', ts, |start|, k), log'); }
    }
  }

  lemma GateIsFaithful(log: seq<Event>, gs: seq<seq<Delivery>>, ts: seq<nat>, ts': seq<nat>, k: nat, m: nat,
                       log': seq<Event>)
    requires Fits(gs, ts) && Fits(gs, ts') && k < |gs| && FaithfulAt(log, gs, ts, k) && ts'[k] == ts[k] + m
    requires FromGate(log', k) == FromGate(log, k) + Messages(gs[k][ts[k]..ts[k] + m])
    ensures FaithfulAt(log', gs, ts', k)
  {
    PartsJoin(gs[k], ts[k], m);
  }

  lemma PartsJoin(ds: seq<Delivery>, t: nat, m: nat)
    requires t + m <= |ds|
    ensures Messages(ds[..t]) + Messages(ds[t..t + m]) == Messages(ds[..t + m])
  {
  }

  lemma FromTurn(log: seq<Event>, start: seq<Event>, fired: seq<Event>, handed: seq<Event>, log': seq<Event>, gate: nat)
    requires start == log + fired && forall i :: 0 <= i < |fired| ==> !fired[i].Received?
    requires log' == start + handed + [AsyncWork]
    ensures FromGate(log', gate) == FromGate(log, gate) + FromGate(handed, gate)
  {
    FromNone(log, fired, start, gate);
    FromBoth(start, handed, start + handed, gate);
    FromNone(start + handed, [AsyncWork], log', gate);
  }

  /** What a block had seen, and its gates had been given and taken, at one moment. */
  datatype Moment = Moment(log: seq<Event>, gs: seq<seq<Delivery>>, ts: seq<nat>)

  /** One turn, from one moment to the next. */
  datatype OneTurn = OneTurn(timers: seq<Timer>, before: Moment, after: Moment)

  ghost predicate IsTurn(x: OneTurn) {
    && Fits(x.before.gs, x.before.ts) && Fits(x.after.gs, x.after.ts)
    && Turn(x.timers, x.before.log, x.before.gs, x.before.ts, x.after.log, x.after.gs, x.after.ts)
  }

  /** Between two turns gates may be given more, and nothing else happens. */
  ghost predicate Waits(a: Moment, b: Moment) {
    b.log == a.log && b.ts == a.ts && Later(a.gs, b.gs, |a.log|)
  }

  /** Those turns lead from the first moment to the last. */
  ghost predicate Turns(xs: seq<OneTurn>, first: Moment, last: Moment) {
    && (forall j {:trigger IsTurn(xs[j])} :: 0 <= j < |xs| ==> IsTurn(xs[j]))
    && (forall i, j {:trigger Waits(xs[i].after, xs[j].before)} :: 0 <= i < |xs| && j == i + 1 < |xs| ==>
          Waits(xs[i].after, xs[j].before))
    && if xs == [] then last == first else Waits(first, xs[0].before) && xs[|xs| - 1].after == last
  }

  lemma OneMoreTurn(xs: seq<OneTurn>, x: OneTurn, first: Moment, last: Moment)
    requires Turns(xs, first, last) && IsTurn(x) && Waits(last, x.before)
    ensures Turns(xs + [x], first, x.after)
  {
    var all := xs + [x];
    forall j | 0 <= j < |all| ensures IsTurn(all[j]) { assert j < |xs| ==> IsTurn(xs[j]); }
    forall i, j | 0 <= i < |all| && j == i + 1 < |all| ensures Waits(all[i].after, all[j].before) {
      assert j < |xs| ==> Waits(xs[i].after, xs[j].before);
    }
  }
}
