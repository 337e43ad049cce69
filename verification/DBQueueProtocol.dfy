/** The double-buffered queue as a concurrent protocol (core/block/DBQueue.hpp).

    Any number of producers and one consumer take turns; a turn runs up to and including the next
    access to a shared word (`m_full`, `m_pointer`, a `valid` flag or a payload).  Every interleaving
    is a `seq<Step>`, and the results are about all of them.  Steps are sequentially consistent.

    The pushed values are abstracted to names: `Msg(p, n)` is the argument of the n-th push of
    producer p.  `epoch`, `base`, `accepted`, `delivered` and `lost` are a record of the run: no step
    reads them to decide anything. */
module DBQueueProtocol {
  import opened Wrappers

  const SLOT_LIMIT: nat := 0x4000_0000   // slot numbers live below bit 30
  const WORD: nat := 0x1_0000_0000       // m_pointer is a 32-bit word
  const SPINS: nat := 100                // looks at one slot before it is skipped

  datatype Msg = Msg(pid: nat, n: nat)

  /** Where a producer stands inside push.  The last three hold a ticket: queue and slot taken from
      m_pointer, and `t`, the position of the ticket among all accepted ones. */
  datatype ProducerPc =
    | Idle
    | LoadFull
    | FetchTicket
    | SetFull(q: nat, slot: nat, t: nat)
    | WritePayload(q: nat, slot: nat, t: nat)
    | WriteValid(q: nat, slot: nat, t: nat)
    | Aborted   // assert((cur_queue==0)||(cur_queue==1)) failed

  /** `answers[n]` is what the n-th push returned: Some(ticket) for true, None for false. */
  datatype Producer = Producer(pc: ProducerPc, answers: seq<Option<nat>>)

  /** Where the consumer stands inside pop.  `again` tells the second call of consume from the first. */
  datatype ConsumerPc =
    | Rest
    | Scan(again: bool, tries: nat)
    | Take(index: nat)
    | Clear(i: nat)
    | ClearFull

  /** An accepted push: the swap epoch, the buffer and the slot it was given. */
  datatype Ticket = Ticket(epoch: nat, q: nat, slot: nat, msg: Msg)

  datatype State = State(
    qlen: nat,
    valid: seq<bool>, payload: seq<Option<Msg>>,   // both buffers, one after the other
    pointer: nat, full: bool,
    read: nat, consumerQ: nat, fullSlots: nat,
    consumer: ConsumerPc,
    producers: seq<Producer>,
    epoch: nat, base: nat,
    accepted: seq<Ticket>, delivered: seq<Option<Msg>>, lost: seq<Msg>)

  /** `Stale(b)` is not a step of the program: it lets m_full hold any value at any moment, so what is
      proved of schedules with it holds whatever m_full happens to say. */
  datatype Step = Produce(p: nat) | Consume | Stale(b: bool)

  function Loc(qlen: nat, q: nat, i: nat): (l: nat)
    requires q < 2 && i < qlen
    ensures l < 2 * qlen
  {
    if q == 0 then i else qlen + i
  }

  predicate InFlight(pc: ProducerPc) {
    pc.SetFull? || pc.WritePayload? || pc.WriteValid?
  }

  /** Every index the program uses is inside the arrays. */
  ghost predicate InBounds(s: State) {
    && 1 <= s.qlen
    && |s.valid| == 2 * s.qlen && |s.payload| == 2 * s.qlen
    && s.consumerQ < 2 && s.read <= s.fullSlots <= s.qlen
    && (s.consumer.Take? ==> s.consumer.index < s.fullSlots)
    && (s.consumer.Clear? ==> s.consumer.i <= s.fullSlots)
    && (forall p :: 0 <= p < |s.producers| && InFlight(s.producers[p].pc) ==>
          s.producers[p].pc.q < 2 && s.producers[p].pc.slot < s.qlen)
  }

  function Init(qlen: nat, count: nat): (s: State)
    requires 1 <= qlen
    ensures InBounds(s)
  {
    State(qlen, seq(2 * qlen, i => false), seq(2 * qlen, i => None), 0, false, 0, 1, 0, Rest,
          seq(count, i => Producer(Idle, [])), 0, 0, [], [], [])
  }

  // ---------- The steps ----------

  function At(s: State, p: nat, pc: ProducerPc): State
    requires p < |s.producers|
  {
    s.(producers := s.producers[p := s.producers[p].(pc := pc)])
  }

  function Answer(s: State, p: nat, answer: Option<nat>): State
    requires p < |s.producers|
  {
    s.(producers := s.producers[p := Producer(Idle, s.producers[p].answers + [answer])])
  }

  function Current(s: State, p: nat): Msg
    requires p < |s.producers|
  {
    Msg(p, |s.producers[p].answers|)
  }

  /** The fetch_add, and the branches decided by the word it returned. */
  function Fetch(s: State, p: nat): (s': State)
    requires InBounds(s) && p < |s.producers|
    ensures InBounds(s') && s'.qlen == s.qlen && |s'.producers| == |s.producers|
  {
    var q, slot := s.pointer / SLOT_LIMIT, s.pointer % SLOT_LIMIT;
    var s1 := s.(pointer := (s.pointer + 1) % WORD);
    if q >= 2 then At(s1, p, Aborted)
    else if slot >= s.qlen then Answer(s1, p, None)
    else
      var s2 := s1.(accepted := s.accepted + [Ticket(s.epoch, q, slot, Current(s, p))]);
      At(s2, p, if slot == s.qlen - 1 then SetFull(q, slot, |s.accepted|) else WritePayload(q, slot, |s.accepted|))
  }

  /** The payload assignment: what the slot still held is destroyed. */
  function Store(s: State, p: nat): (s': State)
    requires InBounds(s) && p < |s.producers| && s.producers[p].pc.WritePayload?
    ensures InBounds(s') && s'.qlen == s.qlen && |s'.producers| == |s.producers|
  {
    var pc := s.producers[p].pc;
    var l := Loc(s.qlen, pc.q, pc.slot);
    At(s.(payload := s.payload[l := Some(Current(s, p))],
          lost := s.lost + if s.payload[l].Some? then [s.payload[l].value] else []),
       p, WriteValid(pc.q, pc.slot, pc.t))
  }

  function Publish(s: State, p: nat): (s': State)
    requires InBounds(s) && p < |s.producers| && s.producers[p].pc.WriteValid?
    ensures InBounds(s') && s'.qlen == s.qlen && |s'.producers| == |s.producers|
  {
    var pc := s.producers[p].pc;
    Answer(s.(valid := s.valid[Loc(s.qlen, pc.q, pc.slot) := true]), p, Some(pc.t))
  }

  function ProducerStep(s: State, p: nat): (s': State)
    requires InBounds(s) && p < |s.producers|
    ensures InBounds(s') && s'.qlen == s.qlen && |s'.producers| == |s.producers|
  {
    match s.producers[p].pc
    case Idle => At(s, p, LoadFull)
    case LoadFull => if s.full then Answer(s, p, None) else At(s, p, FetchTicket)
    case FetchTicket => Fetch(s, p)
    case SetFull(q, slot, t) => At(s.(full := true), p, WritePayload(q, slot, t))
    case WritePayload(_, _, _) => Store(s, p)
    case WriteValid(_, _, _) => Publish(s, p)
    case Aborted => s
  }

  /** One look at the next slot of the consumer's batch, or the end of that batch. */
  function Look(s: State): (s': State)
    requires InBounds(s) && s.consumer.Scan?
    ensures InBounds(s') && s'.qlen == s.qlen && |s'.producers| == |s.producers|
  {
    var c := s.consumer;
    if s.read < s.fullSlots then
      if s.valid[Loc(s.qlen, s.consumerQ, s.read)] then s.(consumer := Take(s.read), read := s.read + 1)
      else if c.tries + 1 < SPINS then s.(consumer := Scan(c.again, c.tries + 1))
      else s.(consumer := Scan(c.again, 0), read := s.read + 1)
    else s.(consumer := if c.again then Rest else Clear(0))
  }

  function Deliver(s: State): (s': State)
    requires InBounds(s) && s.consumer.Take?
    ensures InBounds(s') && s'.qlen == s.qlen && |s'.producers| == |s.producers|
  {
    var l := Loc(s.qlen, s.consumerQ, s.consumer.index);
    s.(payload := s.payload[l := None], delivered := s.delivered + [s.payload[l]], consumer := Rest)
  }

  /** The exchange of m_pointer, with the consumer's own variables that are set around it. */
  function Swap(s: State): (s': State)
    requires InBounds(s)
    ensures InBounds(s') && s'.qlen == s.qlen && |s'.producers| == |s.producers|
  {
    var taken := s.pointer % SLOT_LIMIT;
    s.(pointer := s.consumerQ * SLOT_LIMIT,
       consumerQ := if s.consumerQ == 0 then 1 else 0,
       fullSlots := if taken < s.qlen then taken else s.qlen,
       read := 0, consumer := ClearFull,
       epoch := s.epoch + 1, base := s.base + s.fullSlots)
  }

  function ConsumerStep(s: State): (s': State)
    requires InBounds(s)
    ensures InBounds(s') && s'.qlen == s.qlen && |s'.producers| == |s.producers|
  {
    match s.consumer
    case Rest => s.(consumer := Scan(false, 0))
    case Scan(_, _) => Look(s)
    case Take(_) => Deliver(s)
    case Clear(i) =>
      if i < s.fullSlots then s.(valid := s.valid[Loc(s.qlen, s.consumerQ, i) := false], consumer := Clear(i + 1))
      else Swap(s)
    case ClearFull => s.(full := false, consumer := Scan(true, 0))
  }

  function Apply(s: State, step: Step): (s': State)
    requires InBounds(s)
    ensures InBounds(s') && s'.qlen == s.qlen && |s'.producers| == |s.producers|
  {
    match step
    case Produce(p) => if p < |s.producers| then ProducerStep(s, p) else s
    case Consume => ConsumerStep(s)
    case Stale(b) => s.(full := b)
  }

  function Run(s: State, schedule: seq<Step>): (s': State)
    requires InBounds(s)
    ensures InBounds(s') && s'.qlen == s.qlen && |s'.producers| == |s.producers|
    decreases |schedule|
  {
    if schedule == [] then s
    else Apply(Run(s, schedule[..|schedule| - 1]), schedule[|schedule| - 1])
  }

  // ---------- The runs in which the queue promises order ----------

  /** The consumer skips a slot nobody has published after a hundred looks. */
  predicate GivesUp(s: State, step: Step)
    requires InBounds(s)
  {
    && step.Consume? && s.consumer.Scan? && s.read < s.fullSlots
    && !s.valid[Loc(s.qlen, s.consumerQ, s.read)] && s.consumer.tries + 1 >= SPINS
  }

  /** The step takes the ticket whose successor would run into the queue bits. */
  predicate Overflows(s: State, step: Step) {
    && step.Produce? && step.p < |s.producers| && s.producers[step.p].pc.FetchTicket?
    && s.pointer % SLOT_LIMIT == SLOT_LIMIT - 1
  }

  predicate Clean(s: State, schedule: seq<Step>)
    requires InBounds(s)
    decreases |schedule|
  {
    schedule == [] ||
    var before, step := schedule[..|schedule| - 1], schedule[|schedule| - 1];
    Clean(s, before) && !GivesUp(Run(s, before), step) && !Overflows(Run(s, before), step)
  }

  // ---------- The invariant ----------

  /** Tickets handed out on the producers' buffer since the last swap. */
  function Taken(s: State): nat { s.pointer % SLOT_LIMIT }

  /** First ticket of the producers' batch. */
  function Mid(s: State): nat { s.base + s.fullSlots }

  /** First ticket of the consumer's batch whose message has not been moved out. */
  function Front(s: State): int { s.base + s.read - if s.consumer.Take? then 1 else 0 }

  predicate Holds(s: State, p: nat, t: nat) {
    p < |s.producers| && InFlight(s.producers[p].pc) && s.producers[p].pc.t == t
  }

  predicate Published(s: State, t: nat)
    requires t < |s.accepted|
  {
    !Holds(s, s.accepted[t].msg.pid, t)
  }

  ghost predicate Words(s: State) {
    && s.qlen < SLOT_LIMIT
    && s.pointer == (1 - s.consumerQ) * SLOT_LIMIT + Taken(s)
    && |s.accepted| == Mid(s) + Min(Taken(s), s.qlen)
    && (s.consumer.Take? ==> s.consumer.index + 1 == s.read)
    && (s.consumer.Clear? ==> s.read == s.fullSlots)
    && (s.consumer.ClearFull? ==> s.read == 0)
    && (s.consumer.Scan? && s.consumer.again ==> s.read == 0)
  }

  ghost predicate Tickets(s: State) {
    && |s.accepted| >= Mid(s)
    && (forall t :: 0 <= t < s.base ==> s.accepted[t].epoch + 1 < s.epoch)
    && (forall t :: s.base <= t < Mid(s) ==>
          s.accepted[t].epoch + 1 == s.epoch && s.accepted[t].q == s.consumerQ && s.accepted[t].slot == t - s.base)
    && (forall t :: Mid(s) <= t < |s.accepted| ==>
          s.accepted[t].epoch == s.epoch && s.accepted[t].q == 1 - s.consumerQ && s.accepted[t].slot == t - Mid(s))
  }

  /** Every producer inside push holds a ticket of the two live batches, one not yet delivered. */
  ghost predicate Owns(s: State, p: nat)
    requires p < |s.producers| && InFlight(s.producers[p].pc)
  {
    var pc := s.producers[p].pc;
    && s.base + s.read <= pc.t < |s.accepted|
    && s.accepted[pc.t].msg == Current(s, p)
    && pc.q == s.accepted[pc.t].q && pc.slot == s.accepted[pc.t].slot
  }

  ghost predicate Owners(s: State) {
    forall p :: 0 <= p < |s.producers| ==>
      !s.producers[p].pc.Aborted? && (InFlight(s.producers[p].pc) ==> Owns(s, p))
  }

  /** The answers given so far and the tickets recorded agree. */
  ghost predicate Booked(s: State, t: nat)
    requires t < |s.accepted|
  {
    var m := s.accepted[t].msg;
    && m.pid < |s.producers|
    && (if Holds(s, m.pid, t) then m.n == |s.producers[m.pid].answers|
        else m.n < |s.producers[m.pid].answers| && s.producers[m.pid].answers[m.n] == Some(t))
  }

  ghost predicate Answered(s: State, p: nat, n: nat)
    requires p < |s.producers| && n < |s.producers[p].answers|
  {
    s.producers[p].answers[n].Some? ==>
      var t := s.producers[p].answers[n].value;
      t < |s.accepted| && s.accepted[t].msg == Msg(p, n)
  }

  ghost predicate Books(s: State) {
    && (forall t :: 0 <= t < |s.accepted| ==> Booked(s, t))
    && (forall p, n :: 0 <= p < |s.producers| && 0 <= n < |s.producers[p].answers| ==> Answered(s, p, n))
  }

  /** A slot with a live ticket: valid says whether it was published, the payload what was. */
  ghost predicate Kept(s: State, t: nat)
    requires InBounds(s) && t < |s.accepted| && s.accepted[t].q < 2 && s.accepted[t].slot < s.qlen
  {
    var l := Loc(s.qlen, s.accepted[t].q, s.accepted[t].slot);
    && s.accepted[t].msg.pid < |s.producers|
    && (s.valid[l] <==> Published(s, t))
    && (Published(s, t) || s.producers[s.accepted[t].msg.pid].pc.WriteValid? ==>
          s.payload[l] == Some(s.accepted[t].msg))
  }

  /** Index l lies in a part of the buffers that the two live batches use. */
  predicate InUse(s: State, l: nat) {
    var q, i := if l < s.qlen then 0 else 1, if l < s.qlen then l else l - s.qlen;
    if q == s.consumerQ then i < s.fullSlots && (s.consumer.Clear? ==> s.consumer.i <= i)
    else i < |s.accepted| - Mid(s)
  }

  /** The slots of both batches hold what was pushed into them; all others are free. */
  ghost predicate Slots(s: State)
    requires InBounds(s) && Words(s) && Tickets(s) && Books(s) && Front(s) >= s.base
  {
    && (forall t :: Front(s) <= t < |s.accepted| ==> Kept(s, t))
    && (forall l :: 0 <= l < 2 * s.qlen && s.valid[l] ==> InUse(s, l))
  }

  ghost predicate Deliveries(s: State) {
    && |s.delivered| == Front(s) && |s.delivered| <= |s.accepted|
    && (forall t :: 0 <= t < |s.delivered| ==> s.delivered[t] == Some(s.accepted[t].msg))
  }

  ghost predicate Inv(s: State) {
    InBounds(s) && Words(s) && Tickets(s) && Owners(s) && Books(s) && Slots(s) && Deliveries(s)
  }

  lemma InitInv(qlen: nat, count: nat)
    requires 1 <= qlen < SLOT_LIMIT
    ensures Inv(Init(qlen, count))
  {
  }

  lemma StaleKeepsInv(s: State, b: bool)
    requires Inv(s)
    ensures Inv(s.(full := b))
  {
    var s' := s.(full := b);
    SameBooks(s, s');
    forall t | Front(s) <= t < |s.accepted| ensures Kept(s', t) { assert Kept(s, t); }
    forall q | 0 <= q < |s.producers| && InFlight(s'.producers[q].pc) ensures Owns(s', q) { assert Owns(s, q); }
  }

  // ---------- Every step keeps it ----------

  /** A producer moves between points of push where it holds no ticket, or keeps its ticket. */
  predicate Moves(was: ProducerPc, pc: ProducerPc) {
    || (!InFlight(was) && !InFlight(pc) && !pc.Aborted?)
    || (InFlight(was) && InFlight(pc) && (was.q, was.slot, was.t) == (pc.q, pc.slot, pc.t)
        && was.WriteValid? == pc.WriteValid?)
  }

  /** The books stay right while every producer keeps its answers and the ticket it holds, if any. */
  lemma SameHolders(s: State, s': State)
    requires Books(s) && s'.accepted == s.accepted && |s'.producers| == |s.producers|
    requires forall q :: 0 <= q < |s.producers| ==>
               var was, pc := s.producers[q].pc, s'.producers[q].pc;
               && s'.producers[q].answers == s.producers[q].answers
               && InFlight(pc) == InFlight(was) && (InFlight(was) ==> pc.t == was.t)
    ensures Books(s')
  {
    forall t | 0 <= t < |s.accepted| ensures Booked(s', t) { assert Booked(s, t); }
    forall q, n | 0 <= q < |s.producers| && 0 <= n < |s'.producers[q].answers| ensures Answered(s', q, n) {
      assert Answered(s, q, n);
    }
  }

  lemma AtKeepsInv(s: State, p: nat, pc: ProducerPc)
    requires Inv(s) && p < |s.producers| && Moves(s.producers[p].pc, pc)
    ensures Inv(At(s, p, pc))
  {
    var s' := At(s, p, pc);
    SameHolders(s, s');
    forall q | 0 <= q < |s.producers| && InFlight(s'.producers[q].pc) ensures Owns(s', q) { assert Owns(s, q); }
    forall t | Front(s) <= t < |s.accepted| ensures Kept(s', t) { assert Kept(s, t); }
  }

  lemma RejectKeepsInv(s: State, p: nat)
    requires Inv(s) && p < |s.producers| && !InFlight(s.producers[p].pc)
    ensures Inv(Answer(s, p, None))
  {
    var s' := Answer(s, p, None);
    forall t | 0 <= t < |s.accepted| ensures Booked(s', t) { assert Booked(s, t); }
    forall q, n | 0 <= q < |s.producers| && 0 <= n < |s'.producers[q].answers| ensures Answered(s', q, n) {
      if q != p || n < |s.producers[p].answers| { assert Answered(s, q, n); }
    }
    forall q | 0 <= q < |s.producers| && InFlight(s'.producers[q].pc) ensures Owns(s', q) { assert Owns(s, q); }
    forall t | Front(s) <= t < |s.accepted| ensures Kept(s', t) { assert Kept(s, t); }
  }

  /** The fetch_add stays inside the slot bits, so the queue bit it returns is the producers' one. */
  lemma FetchWord(s: State)
    requires Words(s) && s.consumerQ < 2 && Taken(s) + 1 < SLOT_LIMIT
    ensures s.pointer / SLOT_LIMIT == 1 - s.consumerQ
    ensures (s.pointer + 1) % WORD == s.pointer + 1
    ensures (s.pointer + 1) % SLOT_LIMIT == Taken(s) + 1
  {
  }

  lemma PointerKeepsInv(s: State)
    requires Inv(s) && s.qlen <= Taken(s) && Taken(s) + 1 < SLOT_LIMIT
    ensures Inv(s.(pointer := s.pointer + 1))
  {
    FetchWord(s);
    var s1 := s.(pointer := s.pointer + 1);
    SameBooks(s, s1);
    forall q | 0 <= q < |s.producers| && InFlight(s.producers[q].pc) ensures Owns(s1, q) { assert Owns(s, q); }
    forall t | Front(s) <= t < |s.accepted| ensures Kept(s1, t) { assert Kept(s, t); }
  }

  lemma LateFetchKeepsInv(s: State, p: nat)
    requires Inv(s) && p < |s.producers| && s.producers[p].pc.FetchTicket?
    requires s.qlen <= Taken(s) && Taken(s) + 1 < SLOT_LIMIT
    ensures Inv(Fetch(s, p))
  {
    FetchWord(s);
    PointerKeepsInv(s);
    RejectKeepsInv(s.(pointer := s.pointer + 1), p);
  }

  lemma FetchKeepsInv(s: State, p: nat)
    requires Inv(s) && p < |s.producers| && s.producers[p].pc.FetchTicket?
    requires Taken(s) < s.qlen && Taken(s) + 1 < SLOT_LIMIT
    ensures Inv(Fetch(s, p))
  {
    var s' := Fetch(s, p);
    FetchTickets(s, p);
    FetchBooks(s, p);
    FetchSlots(s, p);
    forall q | 0 <= q < |s.producers| && InFlight(s'.producers[q].pc) ensures Owns(s', q) {
      if q != p { assert Owns(s, q); }
    }
  }

  lemma FetchTickets(s: State, p: nat)
    requires Inv(s) && p < |s.producers| && s.producers[p].pc.FetchTicket?
    requires Taken(s) < s.qlen && Taken(s) + 1 < SLOT_LIMIT
    ensures var s' := Fetch(s, p); Words(s') && Tickets(s') && Front(s') == Front(s)
    ensures var pc := Fetch(s, p).producers[p].pc;
            InFlight(pc) && (pc.q, pc.slot, pc.t) == (1 - s.consumerQ, Taken(s), |s.accepted|)
  {
    FetchWord(s);
  }

  lemma FetchSlots(s: State, p: nat)
    requires Inv(s) && p < |s.producers| && s.producers[p].pc.FetchTicket?
    requires Taken(s) < s.qlen && Taken(s) + 1 < SLOT_LIMIT
    ensures var s' := Fetch(s, p);
            forall t :: Front(s) <= t < |s'.accepted| ==>
              InBounds(s') && s'.accepted[t].q < 2 && s'.accepted[t].slot < s.qlen && Kept(s', t)
    ensures var s' := Fetch(s, p); forall l :: 0 <= l < 2 * s.qlen && s'.valid[l] ==> InUse(s', l)
  {
    FetchWord(s);
    var s', t' := Fetch(s, p), |s.accepted|;
    assert s'.accepted[t'] == Ticket(s.epoch, 1 - s.consumerQ, Taken(s), Current(s, p));
    assert !InUse(s, Loc(s.qlen, 1 - s.consumerQ, Taken(s)));
    forall t | Front(s) <= t < |s'.accepted|
      ensures s'.accepted[t].q < 2 && s'.accepted[t].slot < s.qlen && Kept(s', t)
    {
      if t < t' { assert Kept(s, t) && Booked(s, t); }
    }
  }

  lemma FetchBooks(s: State, p: nat)
    requires Inv(s) && p < |s.producers| && s.producers[p].pc.FetchTicket?
    requires Taken(s) < s.qlen && Taken(s) + 1 < SLOT_LIMIT
    ensures Books(Fetch(s, p))
  {
    FetchWord(s);
    var s' := Fetch(s, p);
    forall t | 0 <= t < |s'.accepted| ensures Booked(s', t) { if t < |s.accepted| { assert Booked(s, t); } }
    forall q, n | 0 <= q < |s.producers| && 0 <= n < |s'.producers[q].answers| ensures Answered(s', q, n) {
      assert Answered(s, q, n);
    }
  }

  /** Two tickets of the live batches never share a slot. */
  lemma CellsDiffer(s: State, t: nat, u: nat)
    requires InBounds(s) && Words(s) && Tickets(s)
    requires s.base <= t < |s.accepted| && s.base <= u < |s.accepted| && t != u
    ensures s.accepted[t].q != s.accepted[u].q || s.accepted[t].slot != s.accepted[u].slot
  {
  }

  lemma StoreKeepsInv(s: State, p: nat)
    requires Inv(s) && p < |s.producers| && s.producers[p].pc.WritePayload?
    ensures Inv(Store(s, p))
  {
    var s', mine := Store(s, p), s.producers[p].pc.t;
    assert Owns(s, p);
    SameHolders(s, s');
    forall q | 0 <= q < |s.producers| && InFlight(s'.producers[q].pc) ensures Owns(s', q) { assert Owns(s, q); }
    forall t | Front(s) <= t < |s.accepted| ensures Kept(s', t) {
      assert Kept(s, t);
      if t != mine { CellsDiffer(s, t, mine); }
    }
  }

  lemma PublishKeepsInv(s: State, p: nat)
    requires Inv(s) && p < |s.producers| && s.producers[p].pc.WriteValid?
    ensures Inv(Publish(s, p))
  {
    var s' := Publish(s, p);
    PublishBooks(s, p);
    PublishSlots(s, p);
    forall q | 0 <= q < |s.producers| && InFlight(s'.producers[q].pc) ensures Owns(s', q) { assert Owns(s, q); }
  }

  lemma PublishSlots(s: State, p: nat)
    requires Inv(s) && p < |s.producers| && s.producers[p].pc.WriteValid?
    ensures var s' := Publish(s, p);
            forall t :: Front(s) <= t < |s.accepted| ==>
              s.accepted[t].q < 2 && s.accepted[t].slot < s.qlen && Kept(s', t)
    ensures var s' := Publish(s, p); forall l :: 0 <= l < 2 * s.qlen && s'.valid[l] ==> InUse(s', l)
  {
    var s', mine := Publish(s, p), s.producers[p].pc.t;
    assert Owns(s, p);
    forall t | Front(s) <= t < |s.accepted|
      ensures s.accepted[t].q < 2 && s.accepted[t].slot < s.qlen && Kept(s', t)
    {
      assert Kept(s, t) && Booked(s, t);
      if t != mine { CellsDiffer(s, t, mine); }
    }
  }

  lemma PublishBooks(s: State, p: nat)
    requires Inv(s) && p < |s.producers| && s.producers[p].pc.WriteValid?
    ensures Books(Publish(s, p))
  {
    var s', mine := Publish(s, p), s.producers[p].pc.t;
    assert Owns(s, p) && Booked(s, mine);
    forall t | 0 <= t < |s.accepted| ensures Booked(s', t) { assert Booked(s, t); }
    forall q, n | 0 <= q < |s.producers| && 0 <= n < |s'.producers[q].answers| ensures Answered(s', q, n) {
      if q != p || n < |s.producers[p].answers| { assert Answered(s, q, n); }
    }
  }

  lemma ProducerKeepsInv(s: State, p: nat)
    requires Inv(s) && p < |s.producers| && !Overflows(s, Produce(p))
    ensures Inv(ProducerStep(s, p))
  {
    match s.producers[p].pc
    case Idle => AtKeepsInv(s, p, LoadFull);
    case LoadFull => if s.full { RejectKeepsInv(s, p); } else { AtKeepsInv(s, p, FetchTicket); }
    case FetchTicket => if Taken(s) < s.qlen { FetchKeepsInv(s, p); } else { LateFetchKeepsInv(s, p); }
    case SetFull(q, slot, t) =>
      StaleKeepsInv(s, true);
      AtKeepsInv(s.(full := true), p, WritePayload(q, slot, t));
    case WritePayload(_, _, _) => StoreKeepsInv(s, p);
    case WriteValid(_, _, _) => PublishKeepsInv(s, p);
    case Aborted =>
  }

  /** The consumer moves without touching a slot. */
  lemma ConsumerAtKeepsInv(s: State, s': State)
    requires Inv(s) && !s.consumer.Take? && !s.consumer.Clear?
    requires s' == s.(consumer := s'.consumer, read := s'.read)
    requires InBounds(s') && Words(s') && s.read <= s'.read
    requires Front(s') == Front(s) && (s'.consumer.Clear? ==> s'.consumer.i == 0)
    requires s'.read > s.read ==> s'.read == s.read + 1 && s.read < s.fullSlots && Published(s, s.base + s.read)
    ensures Inv(s')
  {
    SameBooks(s, s');
    forall q | 0 <= q < |s.producers| && InFlight(s.producers[q].pc) ensures Owns(s', q) { assert Owns(s, q); }
    forall t | Front(s) <= t < |s.accepted| ensures Kept(s', t) { assert Kept(s, t); }
  }

  lemma LookKeepsInv(s: State)
    requires Inv(s) && s.consumer.Scan? && !GivesUp(s, Consume)
    ensures Inv(Look(s))
  {
    if s.read < s.fullSlots { assert Kept(s, s.base + s.read); }
    ConsumerAtKeepsInv(s, Look(s));
  }

  /** The slot about to be emptied holds the message of its ticket, and nobody else can touch it. */
  lemma TakeFindsTicket(s: State)
    requires Inv(s) && s.consumer.Take?
    ensures s.payload[Loc(s.qlen, s.consumerQ, s.consumer.index)] == Some(s.accepted[|s.delivered|].msg)
  {
    var t := Front(s);
    assert Kept(s, t) && Booked(s, t);
    assert Published(s, t);
  }

  lemma DeliverKeepsInv(s: State)
    requires Inv(s) && s.consumer.Take?
    ensures Inv(Deliver(s))
  {
    var s', mine := Deliver(s), Front(s);
    TakeFindsTicket(s);
    SameBooks(s, s');
    forall q | 0 <= q < |s.producers| && InFlight(s.producers[q].pc) ensures Owns(s', q) { assert Owns(s, q); }
    forall t | Front(s') <= t < |s.accepted| ensures Kept(s', t) {
      assert Kept(s, t);
      CellsDiffer(s, t, mine);
    }
  }

  lemma ClearKeepsInv(s: State)
    requires Inv(s) && s.consumer.Clear? && s.consumer.i < s.fullSlots
    ensures Inv(ConsumerStep(s))
  {
    var s' := ConsumerStep(s);
    SameBooks(s, s');
    forall q | 0 <= q < |s.producers| && InFlight(s.producers[q].pc) ensures Owns(s', q) { assert Owns(s, q); }
    forall t | Front(s') <= t < |s.accepted| ensures Kept(s', t) { assert Kept(s, t); }
  }

  lemma SwapKeepsInv(s: State)
    requires Inv(s) && s.consumer.Clear? && s.consumer.i == s.fullSlots
    ensures Inv(Swap(s))
  {
    var s' := Swap(s);
    assert Words(s') && Tickets(s');
    SameBooks(s, s');
    forall q | 0 <= q < |s.producers| && InFlight(s.producers[q].pc) ensures Owns(s', q) { assert Owns(s, q); }
    forall t | Front(s') <= t < |s.accepted| ensures Kept(s', t) { assert Kept(s, t); }
    forall l | 0 <= l < 2 * s.qlen && s.valid[l] ensures InUse(s', l) { assert InUse(s, l); }
  }

  lemma ConsumerKeepsInv(s: State)
    requires Inv(s) && !GivesUp(s, Consume)
    ensures Inv(ConsumerStep(s))
  {
    match s.consumer
    case Rest => ConsumerAtKeepsInv(s, ConsumerStep(s));
    case Scan(_, _) => LookKeepsInv(s);
    case Take(_) => DeliverKeepsInv(s);
    case Clear(i) => if i < s.fullSlots { ClearKeepsInv(s); } else { SwapKeepsInv(s); }
    case ClearFull =>
      StaleKeepsInv(s, false);
      ConsumerAtKeepsInv(s.(full := false), ConsumerStep(s));
  }

  lemma {:induction false} RunKeepsInv(s: State, schedule: seq<Step>)
    requires Inv(s) && Clean(s, schedule)
    ensures Inv(Run(s, schedule))
    decreases |schedule|
  {
    if schedule != [] {
      var before, step := schedule[..|schedule| - 1], schedule[|schedule| - 1];
      RunKeepsInv(s, before);
      var mid := Run(s, before);
      match step
      case Produce(p) => if p < |mid.producers| { ProducerKeepsInv(mid, p); }
      case Consume => ConsumerKeepsInv(mid);
      case Stale(b) => StaleKeepsInv(mid, b);
    }
  }

  lemma SameBooks(s: State, s': State)
    requires Books(s) && s'.accepted == s.accepted && s'.producers == s.producers
    ensures Books(s')
    ensures forall t :: 0 <= t < |s.accepted| ==> Published(s', t) == Published(s, t)
  {
    forall t | 0 <= t < |s.accepted| ensures Booked(s', t) && Published(s', t) == Published(s, t) {
      assert Booked(s, t);
    }
    forall p, n | 0 <= p < |s.producers| && 0 <= n < |s.producers[p].answers| ensures Answered(s', p, n) {
      assert Answered(s, p, n);
    }
  }

  // ---------- What the runs promise ----------

  predicate Before(a: Ticket, b: Ticket) {
    a.epoch < b.epoch || (a.epoch == b.epoch && a.slot < b.slot)
  }

  /** Tickets are recorded by swap epoch and slot, and each producer's in the order of its pushes. */
  ghost predicate Ordered(accepted: seq<Ticket>) {
    forall t, u :: 0 <= t < u < |accepted| ==>
      Before(accepted[t], accepted[u]) &&
      (accepted[t].msg.pid == accepted[u].msg.pid ==> accepted[t].msg.n < accepted[u].msg.n)
  }

  lemma FetchKeepsOrder(s: State, p: nat)
    requires Inv(s) && Ordered(s.accepted) && p < |s.producers| && s.producers[p].pc.FetchTicket?
    requires Taken(s) + 1 < SLOT_LIMIT
    ensures Ordered(Fetch(s, p).accepted)
  {
    FetchWord(s);
    forall t | 0 <= t < |s.accepted| && s.accepted[t].msg.pid == p
      ensures s.accepted[t].msg.n < Current(s, p).n
    {
      assert Booked(s, t);
    }
  }

  lemma {:induction false} RunKeepsOrder(s: State, schedule: seq<Step>)
    requires Inv(s) && Clean(s, schedule) && Ordered(s.accepted)
    ensures Ordered(Run(s, schedule).accepted)
    decreases |schedule|
  {
    if schedule != [] {
      var before, step := schedule[..|schedule| - 1], schedule[|schedule| - 1];
      RunKeepsOrder(s, before);
      RunKeepsInv(s, before);
      StepKeepsOrder(Run(s, before), step);
    }
  }

  lemma StepKeepsOrder(s: State, step: Step)
    requires Inv(s) && Ordered(s.accepted) && !Overflows(s, step)
    ensures Ordered(Apply(s, step).accepted)
  {
    if step.Produce? && step.p < |s.producers| && s.producers[step.p].pc.FetchTicket? { FetchKeepsOrder(s, step.p); }
  }

  /** Exactly once and in order: whatever the interleaving, the popped messages are the first of the
      accepted pushes, taken by swap epoch and slot; a producer's own pushes keep their order. */
  lemma ExactlyOnceInOrder(qlen: nat, count: nat, schedule: seq<Step>)
    requires 1 <= qlen < SLOT_LIMIT && Clean(Init(qlen, count), schedule)
    ensures var s := Run(Init(qlen, count), schedule);
            && Ordered(s.accepted)
            && |s.delivered| <= |s.accepted|
            && forall t :: 0 <= t < |s.delivered| ==> s.delivered[t] == Some(s.accepted[t].msg)
  {
    InitInv(qlen, count);
    RunKeepsInv(Init(qlen, count), schedule);
    RunKeepsOrder(Init(qlen, count), schedule);
  }

  /** push returns true exactly for the messages that got a ticket: no accepted message is refused to
      its caller, no refused message is ever delivered. */
  lemma AnswersTellTheTruth(qlen: nat, count: nat, schedule: seq<Step>, p: nat, n: nat)
    requires 1 <= qlen < SLOT_LIMIT && Clean(Init(qlen, count), schedule)
    requires p < count && n < |Run(Init(qlen, count), schedule).producers[p].answers|
    ensures var s := Run(Init(qlen, count), schedule);
            s.producers[p].answers[n].Some? <==> exists t :: 0 <= t < |s.accepted| && s.accepted[t].msg == Msg(p, n)
  {
    InitInv(qlen, count);
    RunKeepsInv(Init(qlen, count), schedule);
    var s := Run(Init(qlen, count), schedule);
    assert Answered(s, p, n);
    forall t | 0 <= t < |s.accepted| && s.accepted[t].msg == Msg(p, n) ensures s.producers[p].answers[n].Some? {
      assert Booked(s, t);
    }
  }

  predicate SameSlot(pc: ProducerPc, other: ProducerPc) {
    InFlight(pc) && InFlight(other) && pc.q == other.q && pc.slot == other.slot
  }

  /** No two producers own one slot, the consumer moves no payload a producer may still write, it
      clears flags only of a buffer no producer is in, and the queue bit is always its opposite.
      Schedules may contain Stale steps, so m_full plays no part in this. */
  lemma SlotsAreExclusive(qlen: nat, count: nat, schedule: seq<Step>)
    requires 1 <= qlen < SLOT_LIMIT && Clean(Init(qlen, count), schedule)
    ensures var s := Run(Init(qlen, count), schedule);
            && s.pointer / SLOT_LIMIT == 1 - s.consumerQ
            && (forall p, r :: 0 <= p < r < |s.producers| ==> !SameSlot(s.producers[p].pc, s.producers[r].pc))
            && (forall p :: 0 <= p < |s.producers| && InFlight(s.producers[p].pc) ==>
                  var pc := s.producers[p].pc;
                  && (s.consumer.Take? ==> (pc.q, pc.slot) != (s.consumerQ, s.consumer.index))
                  && (s.consumer.Clear? ==> pc.q != s.consumerQ))
            && (forall p :: 0 <= p < |s.producers| ==> !s.producers[p].pc.Aborted?)
  {
    InitInv(qlen, count);
    RunKeepsInv(Init(qlen, count), schedule);
    var s := Run(Init(qlen, count), schedule);
    forall p, r | 0 <= p < r < |s.producers| && InFlight(s.producers[p].pc) && InFlight(s.producers[r].pc)
      ensures (s.producers[p].pc.q, s.producers[p].pc.slot) != (s.producers[r].pc.q, s.producers[r].pc.slot)
    {
      assert Owns(s, p) && Owns(s, r);
      CellsDiffer(s, s.producers[p].pc.t, s.producers[r].pc.t);
    }
    forall p | 0 <= p < |s.producers| && InFlight(s.producers[p].pc)
      ensures s.consumer.Take? ==> (s.producers[p].pc.q, s.producers[p].pc.slot) != (s.consumerQ, s.consumer.index)
      ensures s.consumer.Clear? ==> s.producers[p].pc.q != s.consumerQ
    {
      assert Owns(s, p);
    }
  }

  // ---------- Refinement of an atomic FIFO ----------

  function Messages(tickets: seq<Ticket>): (ms: seq<Msg>)
    ensures |ms| == |tickets| && forall i :: 0 <= i < |ms| ==> ms[i] == tickets[i].msg
  {
    if tickets == [] then [] else Messages(tickets[..|tickets| - 1]) + [tickets[|tickets| - 1].msg]
  }

  /** The queue a client sees: accepted and not yet delivered. */
  function Pending(s: State): seq<Msg>
    requires |s.delivered| <= |s.accepted|
  {
    Messages(s.accepted[|s.delivered|..])
  }

  /** Each step either leaves that queue alone, appends the pusher's message (at its fetch_add), or
      removes the head and delivers it; an exchange that finds no ticket happens on an empty queue. */
  lemma StepsRefineFifo(s: State, step: Step)
    requires Inv(s) && !GivesUp(s, step) && !Overflows(s, step)
    ensures var s' := Apply(s, step);
            && |s'.delivered| <= |s'.accepted|
            && if |s'.accepted| > |s.accepted| then
                 && step.Produce? && step.p < |s.producers|
                 && Pending(s') == Pending(s) + [Current(s, step.p)] && s'.delivered == s.delivered
               else if |s'.delivered| > |s.delivered| then
                 && step.Consume? && Pending(s) != []
                 && Pending(s') == Pending(s)[1..] && s'.delivered == s.delivered + [Some(Pending(s)[0])]
               else Pending(s') == Pending(s)
    ensures step.Consume? && s.consumer.Clear? && s.consumer.i == s.fullSlots && Taken(s) == 0 ==> Pending(s) == []
  {
    if step.Produce? && step.p < |s.producers| && s.producers[step.p].pc.FetchTicket? {
      FetchEnqueues(s, step.p);
    } else if step.Consume? && s.consumer.Take? {
      TakeDequeues(s);
    } else if !step.Produce? || step.p < |s.producers| {
      OthersLeaveFifo(s, step);
    }
  }

  lemma OthersLeaveFifo(s: State, step: Step)
    requires InBounds(s) && (step.Consume? ==> !s.consumer.Take?)
    requires step.Produce? ==> step.p < |s.producers| && !s.producers[step.p].pc.FetchTicket?
    ensures var s' := Apply(s, step); s'.accepted == s.accepted && s'.delivered == s.delivered
  {
  }

  lemma FetchEnqueues(s: State, p: nat)
    requires |s.delivered| <= |s.accepted| && InBounds(s) && p < |s.producers| && s.producers[p].pc.FetchTicket?
    ensures var s' := Fetch(s, p);
            s'.delivered == s.delivered &&
            if |s'.accepted| > |s.accepted| then Pending(s') == Pending(s) + [Current(s, p)]
            else s'.accepted == s.accepted
  {
  }

  lemma TakeDequeues(s: State)
    requires Inv(s) && s.consumer.Take?
    ensures Pending(s) != [] && var s' := Deliver(s);
            && s'.accepted == s.accepted && |s'.delivered| <= |s.accepted|
            && Pending(s') == Pending(s)[1..] && s'.delivered == s.delivered + [Some(Pending(s)[0])]
  {
    TakeFindsTicket(s);
    assert s.accepted[|s.delivered|].msg == Pending(s)[0];
  }

  /** A pop that returns false had delivered everything accepted before its own exchange. */
  lemma EmptyAnswerIsRight(s: State)
    requires Inv(s) && s.consumer.Scan? && s.consumer.again && ConsumerStep(s).consumer.Rest?
    ensures s.fullSlots == 0 && |s.delivered| == s.base
    ensures forall t :: |s.delivered| <= t < |s.accepted| ==> s.accepted[t].epoch == s.epoch
  {
  }

  // ---------- Nothing stays behind ----------

  /** Steps the consumer still needs before its next delivery. */
  function Distance(s: State): nat
    requires InBounds(s)
  {
    if s.consumer.Take? then 0
    else if s.read < s.fullSlots then (if s.consumer.Scan? then 1 else 2)
    else
      match s.consumer
      case Clear(i) => 4 + s.fullSlots - i
      case Scan(again, _) => if again then s.fullSlots + 7 else s.fullSlots + 5
      case Rest => s.fullSlots + 6
      case _ => s.fullSlots + 8
  }

  /** After k steps of the consumer alone, all that s had accepted has been popped. */
  ghost predicate DrainedBy(s: State, k: nat)
    requires InBounds(s)
  {
    var s' := Run(s, seq(k, _ => Consume));
    s'.accepted == s.accepted && |s'.delivered| == |s'.accepted|
  }

  lemma ConsumerAdvances(s: State)
    requires Inv(s) && |s.delivered| < |s.accepted|
    requires forall p :: 0 <= p < |s.producers| ==> !InFlight(s.producers[p].pc)
    ensures !GivesUp(s, Consume)
    ensures var s' := ConsumerStep(s);
            && s'.accepted == s.accepted && s'.producers == s.producers
            && (|s'.delivered| == |s.delivered| + 1 || (s'.delivered == s.delivered && Distance(s') < Distance(s)))
  {
    if s.consumer.Scan? && s.read < s.fullSlots { assert Kept(s, s.base + s.read); }
  }

  /** Once the producers are done, the consumer alone delivers all that was accepted. */
  lemma {:induction false} ConsumerDrains(s: State)
    requires Inv(s) && forall p :: 0 <= p < |s.producers| ==> !InFlight(s.producers[p].pc)
    ensures exists k: nat :: DrainedBy(s, k)
    decreases |s.accepted| - |s.delivered|, Distance(s)
  {
    if |s.delivered| == |s.accepted| {
      assert DrainedBy(s, 0);
    } else {
      ConsumerAdvances(s);
      ConsumerKeepsInv(s);
      var s1 := ConsumerStep(s);
      ConsumerDrains(s1);
      var k: nat :| DrainedBy(s1, k);
      DrainsOneLater(s, k);
    }
  }

  lemma DrainsOneLater(s: State, k: nat)
    requires InBounds(s) && DrainedBy(ConsumerStep(s), k) && ConsumerStep(s).accepted == s.accepted
    ensures DrainedBy(s, k + 1)
  {
    assert seq(k + 1, _ => Consume) == [Consume] + seq(k, _ => Consume);
    RunSplits(s, [Consume], seq(k, _ => Consume));
    assert [Consume][..0] == [];
    assert Run(s, [Consume]) == Apply(Run(s, []), Consume);
  }

  lemma {:induction false} RunSplits(s: State, a: seq<Step>, b: seq<Step>)
    requires InBounds(s)
    ensures Run(s, a + b) == Run(Run(s, a), b)
    decreases |b|
  {
    if b == [] {
      assert a + b == a;
    } else {
      var b' := b[..|b| - 1];
      assert (a + b)[..|a + b| - 1] == a + b';
      RunSplits(s, a, b');
    }
  }

  // ---------- Every schedule: a message is in one place ----------

  predicate Started(s: State, m: Msg) {
    && m.pid < |s.producers|
    && (m.n < |s.producers[m.pid].answers| || (m.n == |s.producers[m.pid].answers| && !s.producers[m.pid].pc.Idle?))
  }

  function InHand(s: State, m: Msg): nat {
    if m.pid < |s.producers| && m == Current(s, m.pid)
       && !s.producers[m.pid].pc.Idle? && !s.producers[m.pid].pc.WriteValid? then 1
    else 0
  }

  function Refused(s: State, m: Msg): nat {
    if m.pid < |s.producers| && m.n < |s.producers[m.pid].answers| && s.producers[m.pid].answers[m.n].None? then 1
    else 0
  }

  /** Copies of m: with its producer, given back, in a slot, popped, or destroyed in a slot. */
  function Copies(s: State, m: Msg): nat {
    InHand(s, m) + Refused(s, m) + multiset(s.payload)[Some(m)] + multiset(s.delivered)[Some(m)] + multiset(s.lost)[m]
  }

  lemma StoreConserves(s: State, p: nat, m: Msg)
    requires InBounds(s) && p < |s.producers| && s.producers[p].pc.WritePayload?
    ensures var s' := Store(s, p); Copies(s', m) == Copies(s, m) && (Started(s', m) <==> Started(s, m))
  {
  }

  lemma FetchConserves(s: State, p: nat, m: Msg)
    requires InBounds(s) && p < |s.producers| && s.producers[p].pc.FetchTicket?
    ensures var s' := Fetch(s, p); Copies(s', m) == Copies(s, m) && (Started(s', m) <==> Started(s, m))
  {
    var s' := Fetch(s, p);
    if s.pointer / SLOT_LIMIT < 2 && s.pointer % SLOT_LIMIT >= s.qlen {
      HandedBack(s, s', p, m);
    } else {
      KeptInHand(s, s', p, m);
    }
  }

  lemma KeptInHand(s: State, s': State, p: nat, m: Msg)
    requires p < |s.producers| && !s.producers[p].pc.Idle? && !s.producers[p].pc.WriteValid?
    requires s' == s.(producers := s'.producers, pointer := s'.pointer, accepted := s'.accepted)
    requires |s'.producers| == |s.producers|
    requires s'.producers == s.producers[p := s.producers[p].(pc := s'.producers[p].pc)]
    requires !s'.producers[p].pc.Idle? && !s'.producers[p].pc.WriteValid?
    ensures Copies(s', m) == Copies(s, m) && (Started(s', m) <==> Started(s, m))
  {
  }

  lemma HandedBack(s: State, s': State, p: nat, m: Msg)
    requires p < |s.producers| && !s.producers[p].pc.Idle? && !s.producers[p].pc.WriteValid?
    requires s' == Answer(s.(pointer := s'.pointer), p, None)
    ensures Copies(s', m) == Copies(s, m) && (Started(s', m) <==> Started(s, m))
  {
  }

  lemma ProducerConserves(s: State, p: nat, m: Msg)
    requires InBounds(s) && p < |s.producers| && Copies(s, m) == if Started(s, m) then 1 else 0
    ensures var s' := ProducerStep(s, p); Copies(s', m) == if Started(s', m) then 1 else 0
  {
    match s.producers[p].pc
    case FetchTicket => FetchConserves(s, p, m);
    case WritePayload(_, _, _) => StoreConserves(s, p, m);
    case _ =>
  }

  lemma DeliverConserves(s: State, m: Msg)
    requires InBounds(s) && s.consumer.Take?
    ensures Copies(Deliver(s), m) == Copies(s, m)
  {
  }

  lemma ConsumerConserves(s: State, m: Msg)
    requires InBounds(s)
    ensures var s' := ConsumerStep(s); Copies(s', m) == Copies(s, m) && (Started(s', m) <==> Started(s, m))
  {
    if s.consumer.Take? { DeliverConserves(s, m); } else { ConsumerKeepsPlaces(s); }
  }

  lemma ConsumerKeepsPlaces(s: State)
    requires InBounds(s) && !s.consumer.Take?
    ensures var s' := ConsumerStep(s);
            s'.payload == s.payload && s'.delivered == s.delivered && s'.lost == s.lost && s'.producers == s.producers
  {
  }

  /** At most once on every schedule, skipped slots and all: a started push is in exactly one place
      and nothing else is anywhere, so no message is popped twice and none is invented. */
  lemma {:induction false} EveryMessageInOnePlace(qlen: nat, count: nat, schedule: seq<Step>, m: Msg)
    requires 1 <= qlen
    ensures var s := Run(Init(qlen, count), schedule);
            Copies(s, m) == if Started(s, m) then 1 else 0
    decreases |schedule|
  {
    var s0 := Init(qlen, count);
    if schedule == [] {
      assert Some(m) !in s0.payload;
    } else {
      var before, step := schedule[..|schedule| - 1], schedule[|schedule| - 1];
      EveryMessageInOnePlace(qlen, count, before, m);
      var mid := Run(s0, before);
      match step
      case Produce(p) => if p < |mid.producers| { ProducerConserves(mid, p, m); }
      case Consume => ConsumerConserves(mid, m);
      case Stale(b) =>
    }
  }
}
