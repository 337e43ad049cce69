/** Input gates and the run loop of an active block (core/block/InGate.hpp, InGate.cpp, Block.cpp). */
module Block {
  import opened Wrappers
  import opened BlockTurn
  import DBQueue

  const QUEUE_LENGTH: nat := 1024

  class InGate {
    const queue: DBQueue.Queue<Message>
    const index: nat

    constructor (index: nat)
      ensures queue.Valid() && queue.Contents() == [] && queue.qlen == QUEUE_LENGTH
      ensures fresh(queue) && fresh(queue.valid) && fresh(queue.payload) && this.index == index
    {
      this.index := index;
      queue := new DBQueue.Queue<Message>(QUEUE_LENGTH);
    }

    method Dequeue() returns (m: Option<Message>)
      requires queue.Valid()
      modifies queue, queue.valid, queue.payload
      ensures queue.Valid()
      ensures m.Some? == (old(queue.Contents()) != [])
      ensures m.Some? ==> m.value == old(queue.Contents())[0] && queue.Contents() == old(queue.Contents())[1..]
      ensures m.None? ==> queue.Contents() == []
    {
      m := queue.Pop();
    }
  }

  /** The two queues share no part. */
  predicate Apart(a: DBQueue.Queue<Message>, b: DBQueue.Queue<Message>) {
    a != b && a.valid != b.valid && a.payload != b.payload
  }

  ghost predicate AllApart(gs: seq<InGate>) {
    forall i, j {:trigger Apart(gs[i].queue, gs[j].queue)} :: 0 <= i < j < |gs| ==> Apart(gs[i].queue, gs[j].queue)
  }

  lemma TwoApart(gs: seq<InGate>, i: nat, k: nat)
    requires AllApart(gs) && i < |gs| && k < |gs| && i != k
    ensures Apart(gs[k].queue, gs[i].queue)
  {
    if k < i {
      assert Apart(gs[k].queue, gs[i].queue);
    } else {
      assert Apart(gs[i].queue, gs[k].queue);
    }
  }

  lemma OneMoreApart(gs: seq<InGate>, g: InGate)
    requires AllApart(gs) && forall k :: 0 <= k < |gs| ==> Apart(gs[k].queue, g.queue)
    ensures AllApart(gs + [g])
  {
    var all := gs + [g];
    forall i, j | 0 <= i < j < |all| ensures Apart(all[i].queue, all[j].queue) {
      assert Apart(gs[i].queue, if j < |gs| then gs[j].queue else g.queue);
    }
  }

  /** The queue of a gate holds what the gate was given, but for the first t messages, which were taken. */
  ghost predicate Keeps(q: DBQueue.Queue<Message>, ds: seq<Delivery>, t: nat)
    reads q, q.valid, q.payload
  {
    t <= |ds| && q.Valid() && q.Contents() == Messages(ds[t..])
  }

  predicate Owned(q: DBQueue.Queue<Message>, parts: set<object>) {
    q in parts && q.valid in parts && q.payload in parts
  }

  class Block {
    var gates: seq<InGate>
    var timers: seq<Timer>
    var handled: seq<Event>
    ghost var queues: set<object>            // the queues of all gates, with their arrays
    ghost var given: seq<seq<Delivery>>      // what each gate was given, ever
    ghost var taken: seq<nat>                // how much of it was taken

    ghost predicate Holds(i: nat)
      requires i < |gates| && i < |given| && i < |taken|
      reads this`gates, this`given, this`taken, gates[i].queue, gates[i].queue.valid, gates[i].queue.payload
    {
      Keeps(gates[i].queue, given[i], taken[i])
    }

    /** Deliveries have been made by now. */
    ghost predicate Made()
      reads this`given, this`handled
    {
      forall k {:trigger given[k]} :: 0 <= k < |given| ==> MadeBy(given[k], |handled|)
    }

    ghost predicate Valid()
      reads this`gates, this`queues, this`given, this`taken, this`handled, queues
    {
      && this !in queues && |gates| == |given| && Fits(given, taken) && Made()
      && (forall i {:trigger Holds(i)} :: 0 <= i < |gates| ==> Owned(gates[i].queue, queues) && Holds(i))
      && AllApart(gates)
    }

    constructor ()
      ensures Valid() && gates == [] && timers == [] && handled == [] && Faithful(handled, given, taken)
    {
      NoGates();
      gates, timers, handled, queues, given, taken := [], [], [], {}, [], [];
    }

    method NewGate() returns (gate: InGate)
      requires Valid()
      ensures Valid() && gate.queue.Valid() && gate.queue.Contents() == [] && gate.queue.qlen == 1024
      ensures forall k :: 0 <= k < |gates| ==> Apart(gates[k].queue, gate.queue)
    {
      gate := new InGate(|gates|);
      forall k | 0 <= k < |gates| ensures Apart(gates[k].queue, gate.queue) { assert Holds(k); }
    }

    method Append(gate: InGate)
      requires Valid() && gate.queue.Valid() && gate.queue.Contents() == []
      requires forall k :: 0 <= k < |gates| ==> Apart(gates[k].queue, gate.queue)
      modifies this`gates, this`queues, this`given, this`taken
      ensures Valid() && gates == old(gates) + [gate] && given == old(given) + [[]] && taken == old(taken) + [0]
    {
      ghost var before, id := gates, |gates|;
      gates := gates + [gate];
      queues := queues + {gate.queue, gate.queue.valid, gate.queue.payload};
      given, taken := given + [[]], taken + [0];
      forall k | 0 <= k < id ensures Owned(gates[k].queue, queues) && Holds(k) {
        assert gates[k] == before[k] && old(Holds(k));
      }
      assert gates[id] == gate && Holds(id);
      OneMoreApart(before, gate);
    }

    method RegisterInputGate() returns (id: nat)
      requires Valid()
      modifies this`gates, this`queues, this`given, this`taken
      ensures Valid() && id == old(|gates|) && |gates| == id + 1 && gates[..id] == old(gates)
      ensures gates[id].queue.qlen == 1024
      ensures given == old(given) + [[]] && taken == old(taken) + [0]
      ensures old(Faithful(handled, given, taken)) ==> Faithful(handled, given, taken)
    {
      if Faithful(handled, given, taken) { OneMoreGate(handled, given, taken); }
      id := |gates|;
      var gate := NewGate();
      Append(gate);
    }

    /** The queues of two gates share no part. */
    lemma GatesApart(i: nat, k: nat)
      requires Valid() && i < |gates| && k < |gates| && i != k
      ensures Apart(gates[k].queue, gates[i].queue) && Holds(k)
    {
      TwoApart(gates, i, k);
      assert Holds(k);
    }

    /** The next message of one gate. */
    method Take(i: nat) returns (m: Option<Message>)
      requires Valid() && i < |gates|
      modifies this`taken, queues
      ensures Valid() && (m.Some? <==> old(taken)[i] < |given[i]|)
      ensures m.Some? ==> m.value == given[i][old(taken)[i]].message
      ensures taken == if m.None? then old(taken) else old(taken)[i := old(taken)[i] + 1]
    {
      assert Holds(i);
      forall k | 0 <= k < |gates| && k != i ensures Apart(gates[k].queue, gates[i].queue) && Holds(k) {
        GatesApart(i, k);
      }
      m := gates[i].Dequeue();
      if m.Some? { taken := taken[i := taken[i] + 1]; }
      forall k | 0 <= k < |gates| && k != i ensures Owned(gates[k].queue, queues) && Holds(k) {
        assert Apart(gates[k].queue, gates[i].queue) && old(Holds(k));
      }
    }

    /** InGate::receive of an active block: a message is delivered to one gate, or lost if its queue is full. */
    method Deliver(i: nat, m: Message) returns (ok: bool)
      requires Valid() && i < |gates|
      modifies this`given, queues
      ensures Valid()
      ensures given == if ok then old(given)[i := old(given)[i] + [Delivery(m, |handled|)]] else old(given)
      ensures ok <==> old(|gates[i].queue.waiting|) < gates[i].queue.qlen
    {
      assert Holds(i);
      forall k | 0 <= k < |gates| && k != i ensures Apart(gates[k].queue, gates[i].queue) && Holds(k) {
        GatesApart(i, k);
      }
      ok := gates[i].queue.Push(m);
      if ok {
        assert (given[i] + [Delivery(m, |handled|)])[taken[i]..] == given[i][taken[i]..] + [Delivery(m, |handled|)];
        given := given[i := given[i] + [Delivery(m, |handled|)]];
      }
      forall k | 0 <= k < |gates| && k != i ensures Owned(gates[k].queue, queues) && Holds(k) {
        assert Apart(gates[k].queue, gates[i].queue) && old(Holds(k));
      }
    }

    /** A handler of the block sees an event.  It may deliver anything to any gate, its own block's included. */
    method Handle(e: Event)
      requires Valid()
      modifies this`handled, this`given, queues
      ensures Valid() && handled == old(handled) + [e] && Later(old(given), given, |handled|)
    {
      handled := handled + [e];
      forall k | 0 <= k < |gates| ensures Owned(gates[k].queue, queues) && Holds(k) { assert old(Holds(k)); }
      if gates == [] { return; }
      var more: nat :| true;
      for j := 0 to more
        invariant Valid() && handled == old(handled) + [e] && Later(old(given), given, |handled|)
      {
        var i: nat :| i < |gates|;
        var m: Message :| true;
        ghost var before := given;
        var ok := Deliver(i, m);
        if ok { OneGiven(before, given, i, Delivery(m, |handled|)); }
        LaterOn(old(given), before, given, |handled|, |handled|);
      }
    }

    method HandleTimers()
      requires Valid()
      modifies this`timers, this`handled, this`given, queues
      ensures Valid() && timers == [] && handled == old(handled) + Fired(old(timers))
      ensures Later(old(given), given, |old(handled)| + 1)
    {
      ghost var ts := timers;
      while timers != []
        invariant Valid() && Later(old(given), given, |old(handled)| + 1)
        invariant |timers| <= |ts| && timers == ts[|ts| - |timers|..]
        invariant handled == old(handled) + Fired(ts[..|ts| - |timers|])
        decreases |timers|
      {
        var t := timers[0];
        timers := timers[1..];
        ghost var before := given;
        Handle(TimerFired(t));
        LaterOn(old(given), before, given, |old(handled)| + 1, |handled|);
      }
      assert ts[..|ts|] == ts;
    }

    /** One round of the inner loop. */
    method DrainOne(i: nat) returns (more: bool)
      requires Valid() && i < |gates|
      modifies this`handled, this`given, this`taken, queues
      ensures Valid() && (more <==> old(taken)[i] < |old(given)[i]|)
      ensures more ==> taken == old(taken)[i := old(taken)[i] + 1] && Later(old(given), given, |handled|)
      ensures more ==> handled == old(handled) + [Received(i, old(given)[i][old(taken)[i]].message)]
      ensures !more ==> taken == old(taken) && given == old(given) && handled == old(handled)
    {
      var m := Take(i);
      if m.None? { return false; }
      Handle(Received(i, m.value));
      return true;
    }

    /** Block::run's inner loop. */
    method DrainGate(i: nat) returns (ghost n: nat)
      requires Valid() && i < |gates|
      modifies this`handled, this`given, this`taken, queues
      ensures Valid() && Later(old(given), given, |old(handled)| + 1) && old(taken)[i] <= |given[i]|
      ensures n == Share(given[i], old(taken)[i], |old(handled)|) && taken == old(taken)[i := old(taken)[i] + n]
      ensures handled == old(handled) + Served(i, given[i], old(taken)[i], n)
    {
      ghost var t, base := taken[i], |handled|;
      var count := 0;
      while count < MAX_MSG_DEQUEUE
        invariant count <= MAX_MSG_DEQUEUE && Valid() && Later(old(given), given, base + 1)
        invariant taken == old(taken)[i := t + count] && InTime(given[i], t, base, count)
        invariant handled == old(handled) + Served(i, given[i], t, count)
      {
        ghost var before := given;
        assert MadeBy(given[i], |handled|);
        var more := DrainOne(i);
        if !more { break; }
        LaterOn(old(given), before, given, base + 1, |handled|);
        assert LaterAt(before[i], given[i], |handled|);
        OneMoreServed(i, before[i], given[i], t, base, count);
        count := count + 1;
      }
      n := count;
      ShareIs(given[i], t, base, n);
    }

    /** The gates are drained in their order. */
    ghost predicate DrainedSince(gs: seq<seq<Delivery>>, ts: seq<nat>, start: seq<Event>, n: nat)
      reads this`handled, this`given, this`taken
    {
      Drained(gs, ts, start, n, given, taken, handled)
    }

    method DrainNext(i: nat, ghost gs: seq<seq<Delivery>>, ghost ts: seq<nat>, ghost start: seq<Event>)
      requires Valid() && i < |gates| && DrainedSince(gs, ts, start, i)
      modifies this`handled, this`given, this`taken, queues
      ensures Valid() && DrainedSince(gs, ts, start, i + 1)
    {
      ghost var before, was, log := given, taken, handled;
      ghost var n := DrainGate(i);
      DrainedLater(gs, ts, start, i, before, given, was, log);
      DrainedNext(gs, ts, start, i, given, was, log, n);
    }

    method DrainGates(ghost start: seq<Event>)
      requires Valid() && start == handled
      modifies this`handled, this`given, this`taken, queues
      ensures Valid() && Drained(old(given), old(taken), start, |gates|, given, taken, handled)
    {
      ghost var gs, ts := given, taken;
      var i := 0;
      while i < |gates|
        invariant i <= |gates| && Valid() && DrainedSince(gs, ts, start, i)
      {
        DrainNext(i, gs, ts, start);
        i := i + 1;
      }
    }

    /** One turn: all queued timers, then at most ten messages of each gate in order, then the block's own work.
        Handlers may feed the block's gates at any time. */
    method Run()
      requires Valid()
      modifies this`timers, this`handled, this`given, this`taken, queues
      ensures Valid() && timers == []
      ensures Turn(old(timers), old(handled), old(given), old(taken), handled, given, taken)
      ensures Fits(given, old(taken)) && |taken| == |old(taken)|
      ensures var start := old(handled) + Fired(old(timers));
              handled == start + HandedOver(given, old(taken), |start|, |taken|) + [AsyncWork]
    {
      HandleTimers();
      ghost var gs, ts, start := given, taken, handled;
      DrainGates(start);
      ghost var mid, log := given, handled;
      Handle(AsyncWork);
      DrainedLater(gs, ts, start, |ts|, mid, given, taken, log);
      TurnEnds(old(timers), old(handled), old(given), ts, start, gs, given, taken, log);
    }

    ghost function Present(): Moment
      reads this
    {
      Moment(handled, given, taken)
    }

    /** Any number of turns, with any deliveries and timers in between. */
    method RunTurns(turns: nat) returns (ghost xs: seq<OneTurn>)
      requires Valid() && Faithful(handled, given, taken)
      modifies this`timers, this`handled, this`given, this`taken, queues
      ensures Valid() && Faithful(handled, given, taken)
      ensures |xs| == turns && Turns(xs, old(Present()), Present())
    {
      xs := [];
      for j := 0 to turns
        invariant Valid() && Faithful(handled, given, taken)
        invariant |xs| == j && Turns(xs, old(Present()), Present())
      {
        ghost var present := Present();
        ghost var x := RunTurn();
        OneMoreTurn(xs, x, old(Present()), present);
        xs := xs + [x];
      }
    }

    method RunTurn() returns (ghost x: OneTurn)
      requires Valid() && Faithful(handled, given, taken)
      modifies this`timers, this`handled, this`given, this`taken, queues
      ensures Valid() && Faithful(handled, given, taken)
      ensures IsTurn(x) && Waits(old(Present()), x.before) && x.after == Present()
    {
      Arrivals();
      ghost var queued, before := timers, Present();
      Run();
      TurnIsFaithful(queued, before.log, before.gs, before.ts, handled, given, taken);
      x := OneTurn(queued, before, Present());
    }

    method Arrivals()
      requires Valid() && Faithful(handled, given, taken)
      modifies this`timers, this`given, queues
      ensures Valid() && Faithful(handled, given, taken) && Later(old(given), given, |handled|)
    {
      var queued: seq<Timer> :| true;
      timers := timers + queued;
      if gates == [] { return; }
      var more: nat :| true;
      for j := 0 to more
        invariant Valid() && Faithful(handled, given, taken) && Later(old(given), given, |handled|)
      {
        var i: nat :| i < |gates|;
        var m: Message :| true;
        ghost var before := given;
        var ok := Deliver(i, m);
        if ok {
          OneGiven(before, given, i, Delivery(m, |handled|));
          FaithfulLater(handled, before, given, taken, |handled|);
          LaterOn(old(given), before, given, |handled|, |handled|);
        }
      }
    }
  }
}
