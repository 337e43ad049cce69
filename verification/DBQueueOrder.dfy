/** When the queue keeps its order: exactly as long as no slot is skipped and no ticket count runs into
    the queue bits.  After either, the program can go on, without doing so again, to deliver a message
    in the place of another. */
module DBQueueOrder {
  import opened Wrappers
  import opened DBQueueProtocol

  /** What has been popped is what was accepted first. */
  ghost predicate InOrder(s: State) {
    |s.delivered| <= |s.accepted| && forall t :: 0 <= t < |s.delivered| ==> s.delivered[t] == Some(s.accepted[t].msg)
  }

  /** In place t, where accepted message t belongs, a message accepted later was delivered. */
  ghost predicate Displaced(s: State, t: nat, u: nat) {
    && t < u < |s.accepted| && t < |s.delivered|
    && s.delivered[t] == Some(s.accepted[u].msg) && s.accepted[u].msg != s.accepted[t].msg
  }

  lemma DisplacedIsNotInOrder(s: State, t: nat, u: nat)
    requires Displaced(s, t, u)
    ensures !InOrder(s)
  {
  }

  /** Stale steps are not the program's. */
  predicate OwnSteps(schedule: seq<Step>) {
    forall i :: 0 <= i < |schedule| ==> !schedule[i].Stale?
  }

  predicate Bad(s: State, step: Step)
    requires InBounds(s)
  {
    GivesUp(s, step) || Overflows(s, step)
  }

  /** Some steps, the last one outermost. */
  datatype Path = Here | Then(path: Path, step: Step)

  function End(s0: State, path: Path): (s: State)
    requires InBounds(s0)
    ensures InBounds(s)
  {
    match path case Here => s0 case Then(before, step) => Apply(End(s0, before), step)
  }

  /** They are the program's own, and none of them is bad. */
  predicate Good(s0: State, path: Path)
    requires InBounds(s0)
  {
    path.Then? ==> Good(s0, path.path) && !path.step.Stale? && !Bad(End(s0, path.path), path.step)
  }

  ghost predicate Leads(s0: State, s: State)
    requires InBounds(s0)
  {
    exists path :: Good(s0, path) && End(s0, path) == s
  }

  lemma LeadsHere(s: State)
    requires InBounds(s)
    ensures Leads(s, s)
  {
    assert Good(s, Here) && End(s, Here) == s;
  }

  lemma LeadsNext(s0: State, s: State, step: Step)
    requires InBounds(s0) && InBounds(s) && Leads(s0, s) && !step.Stale? && !Bad(s, step)
    ensures Leads(s0, Apply(s, step))
  {
    var path :| Good(s0, path) && End(s0, path) == s;
    assert Good(s0, Then(path, step)) && End(s0, Then(path, step)) == Apply(s, step);
  }

  function Joined(a: Path, b: Path): Path {
    match b case Here => a case Then(before, step) => Then(Joined(a, before), step)
  }

  lemma {:induction false} JoinedLeads(s0: State, a: Path, b: Path)
    requires InBounds(s0) && Good(s0, a) && Good(End(s0, a), b)
    ensures Good(s0, Joined(a, b)) && End(s0, Joined(a, b)) == End(End(s0, a), b)
  {
    if b.Then? { JoinedLeads(s0, a, b.path); }
  }

  lemma LeadsThrough(s0: State, s1: State, s2: State)
    requires InBounds(s0) && InBounds(s1) && Leads(s0, s1) && Leads(s1, s2)
    ensures Leads(s0, s2)
  {
    var a :| Good(s0, a) && End(s0, a) == s1;
    var b :| Good(s1, b) && End(s1, b) == s2;
    JoinedLeads(s0, a, b);
  }

  lemma {:induction false} PathKeepsInv(s0: State, path: Path)
    requires Inv(s0) && Good(s0, path)
    ensures Inv(End(s0, path))
  {
    if path.Then? {
      PathKeepsInv(s0, path.path);
      StepKeepsInv(End(s0, path.path), path.step);
    }
  }

  lemma LeadsKeepsInv(s0: State, s: State)
    requires Inv(s0) && Leads(s0, s)
    ensures Inv(s)
  {
    var path :| Good(s0, path) && End(s0, path) == s;
    PathKeepsInv(s0, path);
  }

  /** What was accepted stays accepted. */
  lemma AcceptedStays(s: State, step: Step)
    requires InBounds(s)
    ensures s.accepted <= Apply(s, step).accepted
  {
  }

  lemma {:induction false} PathKeepsAccepted(s0: State, path: Path)
    requires InBounds(s0)
    ensures s0.accepted <= End(s0, path).accepted
  {
    if path.Then? {
      PathKeepsAccepted(s0, path.path);
      AcceptedStays(End(s0, path.path), path.step);
    }
  }

  lemma LeadsKeepsAccepted(s0: State, s: State)
    requires InBounds(s0) && Leads(s0, s)
    ensures s0.accepted <= s.accepted
  {
    var path :| Good(s0, path) && End(s0, path) == s;
    PathKeepsAccepted(s0, path);
  }

  function Steps(path: Path): seq<Step> {
    match path case Here => [] case Then(before, step) => Steps(before) + [step]
  }

  lemma {:induction false} PathIsRun(s0: State, path: Path)
    requires InBounds(s0)
    ensures Run(s0, Steps(path)) == End(s0, path)
    ensures Good(s0, path) <==> Clean(s0, Steps(path)) && OwnSteps(Steps(path))
  {
    if path.Then? {
      var before := Steps(path.path);
      PathIsRun(s0, path.path);
      assert (before + [path.step])[..|before|] == before;
      assert OwnSteps(before + [path.step]) <==> OwnSteps(before) && !path.step.Stale? by {
        assert forall i :: 0 <= i < |before| ==> (before + [path.step])[i] == before[i];
        assert (before + [path.step])[|before|] == path.step;
      }
    }
  }

  lemma {:induction false} HasPath(schedule: seq<Step>) returns (path: Path)
    ensures Steps(path) == schedule
    decreases |schedule|
  {
    if schedule == [] { return Here; }
    path := HasPath(schedule[..|schedule| - 1]);
    path := Then(path, schedule[|schedule| - 1]);
  }

  /** One state leads to another when some clean schedule of the program's own steps does. */
  lemma LeadsMeans(s0: State, s: State)
    requires InBounds(s0)
    ensures Leads(s0, s) <==> exists schedule :: OwnSteps(schedule) && Clean(s0, schedule) && Run(s0, schedule) == s
  {
    if Leads(s0, s) {
      var path :| Good(s0, path) && End(s0, path) == s;
      PathIsRun(s0, path);
    }
    if schedule :| OwnSteps(schedule) && Clean(s0, schedule) && Run(s0, schedule) == s {
      var path := HasPath(schedule);
      PathIsRun(s0, path);
    }
  }

  // ---------- One step ----------

  lemma StepKeepsInv(s: State, step: Step)
    requires Inv(s) && !Bad(s, step)
    ensures Inv(Apply(s, step))
  {
    match step
    case Produce(p) => if p < |s.producers| { ProducerKeepsInv(s, p); }
    case Consume => ConsumerKeepsInv(s);
    case Stale(b) => StaleKeepsInv(s, b);
  }

  /** A step keeps the invariant exactly when it is not a bad one. */
  lemma KeptExactly(s: State, step: Step)
    requires Inv(s)
    ensures Inv(Apply(s, step)) <==> !Bad(s, step)
  {
    if !Bad(s, step) { StepKeepsInv(s, step); }
    else if GivesUp(s, step) { SkipBreaksInv(s); }
    else { OverflowWord(s, step.p); }
  }

  lemma SkipBreaksInv(s: State)
    requires Inv(s) && GivesUp(s, Consume)
    ensures !Inv(ConsumerStep(s))
  {
    assert Front(ConsumerStep(s)) == Front(s) + 1 && ConsumerStep(s).delivered == s.delivered;
  }

  lemma OverflowWord(s: State, p: nat)
    requires Inv(s) && Overflows(s, Produce(p))
    ensures var s' := Fetch(s, p);
            && s' == Answer(s.(pointer := (2 - s.consumerQ) * SLOT_LIMIT), p, None)
            && Taken(s') == 0 && s'.pointer / SLOT_LIMIT == 2 - s.consumerQ && !Inv(s')
  {
    assert s.pointer == (2 - s.consumerQ) * SLOT_LIMIT - 1;
    assert s.pointer / SLOT_LIMIT == 1 - s.consumerQ;
  }

  // ---------- All tickets are used up ----------

  /** Producers alone have been at work, and none has taken a ticket. */
  predicate Written(s: State, s': State) {
    s' == s.(valid := s'.valid, payload := s'.payload, full := s'.full, lost := s'.lost, producers := s'.producers)
  }

  function Left(pc: ProducerPc): nat {
    match pc case SetFull(_, _, _) => 3 case WritePayload(_, _, _) => 2 case WriteValid(_, _, _) => 1 case _ => 0
  }

  /** Producer p goes on until it has published. */
  function Finished(s: State, p: nat): (s': State)
    requires InBounds(s) && p < |s.producers|
    ensures InBounds(s') && s'.qlen == s.qlen && |s'.producers| == |s.producers|
    decreases Left(s.producers[p].pc)
  {
    if InFlight(s.producers[p].pc) then Finished(ProducerStep(s, p), p) else s
  }

  /** So do the first n. */
  function AllFinished(s: State, n: nat): (s': State)
    requires InBounds(s) && n <= |s.producers|
    ensures InBounds(s') && s'.qlen == s.qlen && |s'.producers| == |s.producers|
  {
    if n == 0 then s else Finished(AllFinished(s, n - 1), n - 1)
  }

  lemma {:induction false} FinishedWrites(s: State, p: nat)
    requires InBounds(s) && p < |s.producers|
    ensures var s' := Finished(s, p); Written(s, s') && s'.producers == s.producers[p := s'.producers[p]]
    ensures Finished(s, p).producers[p].pc == if InFlight(s.producers[p].pc) then Idle else s.producers[p].pc
    decreases Left(s.producers[p].pc)
  {
    if InFlight(s.producers[p].pc) { FinishedWrites(ProducerStep(s, p), p); }
  }

  lemma {:induction false} AllFinishedWrites(s: State, n: nat)
    requires InBounds(s) && n <= |s.producers|
    ensures Written(s, AllFinished(s, n))
    ensures forall q :: 0 <= q < |s.producers| ==>
              AllFinished(s, n).producers[q].pc ==
                if q < n && InFlight(s.producers[q].pc) then Idle else s.producers[q].pc
  {
    if n > 0 {
      AllFinishedWrites(s, n - 1);
      FinishedWrites(AllFinished(s, n - 1), n - 1);
    }
  }

  lemma {:induction false} FinishedLeads(s: State, p: nat)
    requires InBounds(s) && p < |s.producers|
    ensures Leads(s, Finished(s, p))
    decreases Left(s.producers[p].pc)
  {
    LeadsHere(s);
    if InFlight(s.producers[p].pc) {
      LeadsNext(s, s, Produce(p));
      FinishedLeads(ProducerStep(s, p), p);
      LeadsThrough(s, ProducerStep(s, p), Finished(s, p));
    }
  }

  lemma {:induction false} AllFinishedLeads(s: State, n: nat, s': State)
    requires InBounds(s) && n <= |s.producers| && s' == AllFinished(s, n)
    ensures Leads(s, s')
  {
    if n == 0 {
      LeadsHere(s);
    } else {
      var mid := AllFinished(s, n - 1);
      AllFinishedLeads(s, n - 1, mid);
      FinishedLeads(mid, n - 1);
      LeadsThrough(s, mid, s');
    }
  }

  /** The two states differ only in words no producer with a ticket looks at. */
  predicate Alike(s: State, s2: State) {
    s2 == s.(read := s2.read, consumer := s2.consumer, pointer := s2.pointer)
  }

  lemma {:induction false} FinishedAlike(s: State, s2: State, p: nat)
    requires InBounds(s) && InBounds(s2) && Alike(s, s2) && p < |s.producers|
    ensures Finished(s2, p) == Finished(s, p).(read := s2.read, consumer := s2.consumer, pointer := s2.pointer)
    decreases Left(s.producers[p].pc)
  {
    if InFlight(s.producers[p].pc) { FinishedAlike(ProducerStep(s, p), ProducerStep(s2, p), p); }
  }

  lemma {:induction false} AllFinishedAlike(s: State, s2: State, n: nat)
    requires InBounds(s) && InBounds(s2) && Alike(s, s2) && n <= |s.producers|
    ensures AllFinished(s2, n) == AllFinished(s, n).(read := s2.read, consumer := s2.consumer, pointer := s2.pointer)
  {
    if n > 0 {
      AllFinishedAlike(s, s2, n - 1);
      FinishedAlike(AllFinished(s, n - 1), AllFinished(s2, n - 1), n - 1);
    }
  }

  ghost predicate NoneInFlight(s: State) {
    forall p :: 0 <= p < |s.producers| ==> !InFlight(s.producers[p].pc)
  }

  // ---------- There is always a next delivery ----------

  lemma FinishedInv(s: State) returns (f: State)
    requires Inv(s)
    ensures f == AllFinished(s, |s.producers|) && Inv(f) && NoneInFlight(f) && Leads(s, f) && Written(s, f)
    ensures forall q :: 0 <= q < |s.producers| ==>
              f.producers[q].pc == if InFlight(s.producers[q].pc) then Idle else s.producers[q].pc
  {
    f := AllFinished(s, |s.producers|);
    AllFinishedLeads(s, |s.producers|, f);
    AllFinishedWrites(s, |s.producers|);
    LeadsKeepsInv(s, f);
  }

  /** The consumer alone delivers what was accepted. */
  lemma {:induction false} Drains(s: State) returns (s': State)
    requires Inv(s) && NoneInFlight(s)
    ensures Leads(s, s') && Inv(s') && s'.accepted == s.accepted
    ensures s'.producers == s.producers && |s'.delivered| == |s'.accepted|
    decreases |s.accepted| - |s.delivered|, Distance(s)
  {
    LeadsHere(s);
    if |s.delivered| == |s.accepted| { return s; }
    ConsumerAdvances(s);
    ConsumerKeepsInv(s);
    LeadsNext(s, s, Consume);
    s' := Drains(ConsumerStep(s));
    LeadsThrough(s, ConsumerStep(s), s');
  }

  function UntilOpen(s: State): nat {
    match s.consumer
    case ClearFull => 1
    case Clear(i) => if i <= s.fullSlots then 2 + s.fullSlots - i else 0
    case Scan(again, _) => if again then 5 + s.fullSlots else 3 + s.fullSlots
    case _ => 4 + s.fullSlots
  }

  lemma OpensStep(s: State)
    requires Inv(s) && |s.delivered| == |s.accepted|
    ensures !Bad(s, Consume)
    ensures var s' := ConsumerStep(s);
            && s'.accepted == s.accepted && s'.delivered == s.delivered && s'.producers == s.producers
            && (!s'.full || UntilOpen(s') < UntilOpen(s))
  {
    assert !s.consumer.Take? && s.read == s.fullSlots && Taken(s) == 0;
  }

  /** An empty queue is opened again by the consumer's next exchange. */
  lemma {:induction false} Opens(s: State) returns (s': State)
    requires Inv(s) && |s.delivered| == |s.accepted|
    ensures Leads(s, s') && Inv(s') && s'.accepted == s.accepted && s'.delivered == s.delivered
    ensures s'.producers == s.producers && !s'.full
    decreases if s.full then UntilOpen(s) + 1 else 0
  {
    LeadsHere(s);
    if !s.full { return s; }
    OpensStep(s);
    ConsumerKeepsInv(s);
    LeadsNext(s, s, Consume);
    s' := Opens(ConsumerStep(s));
    LeadsThrough(s, ConsumerStep(s), s');
  }

  /** An idle producer finds the queue open. */
  lemma Asks(s: State, p: nat) returns (s': State)
    requires InBounds(s) && !s.full && p < |s.producers| && s.producers[p].pc.Idle?
    ensures Leads(s, s') && s' == At(At(s, p, LoadFull), p, FetchTicket) && InBounds(s')
  {
    LeadsHere(s);
    LeadsNext(s, s, Produce(p));
    LeadsNext(s, At(s, p, LoadFull), Produce(p));
    s' := At(At(s, p, LoadFull), p, FetchTicket);
  }

  lemma FetchWorks(s: State, p: nat)
    requires Inv(s) && Taken(s) == 0 && p < |s.producers| && s.producers[p].pc.FetchTicket?
    ensures !Bad(s, Produce(p)) && InBounds(Fetch(s, p)) && Inv(Fetch(s, p))
    ensures var s' := Fetch(s, p);
            && |s'.producers| == |s.producers| && s'.producers == s.producers[p := s'.producers[p]]
            && s'.delivered == s.delivered && |s'.accepted| == |s.accepted| + 1
  {
    FetchKeepsInv(s, p);
  }

  /** It gets a ticket. */
  lemma Fetches(s: State, p: nat) returns (s': State)
    requires Inv(s) && Taken(s) == 0 && !s.full && p < |s.producers| && s.producers[p].pc.Idle?
    ensures Leads(s, s') && Inv(s') && s'.delivered == s.delivered && |s'.accepted| == |s.accepted| + 1
    ensures |s'.producers| == |s.producers|
    ensures forall q :: 0 <= q < |s.producers| && q != p ==> s'.producers[q] == s.producers[q]
  {
    AtKeepsInv(s, p, LoadFull);
    AtKeepsInv(At(s, p, LoadFull), p, FetchTicket);
    var s1 := Asks(s, p);
    FetchWorks(s1, p);
    LeadsNext(s, s1, Produce(p));
    s' := Fetch(s1, p);
  }

  /** It pushes. */
  lemma Pushes(s: State, p: nat) returns (s': State)
    requires Inv(s) && NoneInFlight(s) && |s.delivered| == |s.accepted| && !s.full
    requires p < |s.producers| && s.producers[p].pc.Idle?
    ensures Leads(s, s') && Inv(s') && NoneInFlight(s') && s'.delivered == s.delivered
    ensures |s'.accepted| == |s.accepted| + 1
  {
    assert Taken(s) == 0 by { assert !s.consumer.Take?; }
    var s1 := Fetches(s, p);
    FinishedLeads(s1, p);
    FinishedWrites(s1, p);
    s' := Finished(s1, p);
    LeadsKeepsInv(s1, s');
    LeadsThrough(s, s1, s');
  }

  /** From any sound state with an idle producer the program can deliver once more. */
  lemma NextDelivery(s: State, p: nat) returns (s': State)
    requires Inv(s) && p < |s.producers| && s.producers[p].pc.Idle?
    ensures Leads(s, s') && Inv(s') && |s'.delivered| > |s.delivered|
  {
    var s1 := FinishedInv(s);
    s' := Drains(s1);
    LeadsThrough(s, s1, s');
    if |s'.delivered| == |s.delivered| {
      var s2 := Opens(s');
      LeadsThrough(s, s', s2);
      var s3 := Pushes(s2, p);
      LeadsThrough(s, s2, s3);
      s' := Drains(s3);
      LeadsThrough(s, s3, s');
    }
  }

  // ---------- After a skip ----------

  /** b is a, but for a delivery at position d that never was: its message may still be in slot l. */
  ghost predicate Gap(a: State, b: State, d: nat, l: nat) {
    && b == a.(payload := b.payload, delivered := b.delivered, lost := b.lost)
    && d < |a.delivered| && b.delivered == a.delivered[..d] + a.delivered[d + 1..]
    && |b.payload| == |a.payload| && l < |a.payload|
    && (forall k :: 0 <= k < |a.payload| && k != l ==> b.payload[k] == a.payload[k])
    && (b.payload[l] == a.payload[l] || a.payload[l] == None)
  }

  lemma GapDelivers(a: State, b: State, d: nat, l: nat)
    requires Inv(a) && InBounds(b) && Gap(a, b, d, l) && a.consumer.Take?
    ensures Gap(Deliver(a), Deliver(b), d, l)
  {
    TakeFindsTicket(a);
    var x := a.payload[Loc(a.qlen, a.consumerQ, a.consumer.index)];
    assert (a.delivered + [x])[..d] == a.delivered[..d];
    assert (a.delivered + [x])[d + 1..] == a.delivered[d + 1..] + [x];
  }

  lemma GapStores(a: State, b: State, d: nat, l: nat, p: nat)
    requires InBounds(a) && InBounds(b) && Gap(a, b, d, l) && p < |a.producers| && a.producers[p].pc.WritePayload?
    ensures Gap(Store(a, p), Store(b, p), d, l)
  {
  }

  lemma GapFetches(a: State, b: State, d: nat, l: nat, p: nat)
    requires InBounds(a) && InBounds(b) && Gap(a, b, d, l) && p < |a.producers| && a.producers[p].pc.FetchTicket?
    ensures Gap(Fetch(a, p), Fetch(b, p), d, l)
  {
  }

  lemma GapProduces(a: State, b: State, d: nat, l: nat, p: nat)
    requires InBounds(a) && InBounds(b) && Gap(a, b, d, l) && p < |a.producers|
    ensures Gap(ProducerStep(a, p), ProducerStep(b, p), d, l)
  {
    match a.producers[p].pc
    case FetchTicket => GapFetches(a, b, d, l, p);
    case WritePayload(_, _, _) => GapStores(a, b, d, l, p);
    case _ =>
  }

  lemma GapConsumes(a: State, b: State, d: nat, l: nat)
    requires InBounds(a) && InBounds(b) && Gap(a, b, d, l) && !a.consumer.Take?
    ensures Gap(ConsumerStep(a), ConsumerStep(b), d, l)
  {
    match a.consumer
    case Scan(_, _) => GapLooks(a, b, d, l);
    case _ =>
  }

  lemma GapLooks(a: State, b: State, d: nat, l: nat)
    requires InBounds(a) && InBounds(b) && Gap(a, b, d, l) && a.consumer.Scan?
    ensures Gap(Look(a), Look(b), d, l)
  {
  }

  /** The two states take the same steps. */
  lemma GapStep(a: State, b: State, d: nat, l: nat, step: Step)
    requires Inv(a) && InBounds(b) && Gap(a, b, d, l)
    ensures Bad(b, step) == Bad(a, step) && Gap(Apply(a, step), Apply(b, step), d, l)
  {
    match step
    case Produce(p) => if p < |a.producers| { GapProduces(a, b, d, l, p); }
    case Consume => if a.consumer.Take? { GapDelivers(a, b, d, l); } else { GapConsumes(a, b, d, l); }
    case Stale(_) =>
  }

  lemma {:induction false} GapRun(a: State, b: State, d: nat, l: nat, path: Path)
    requires Inv(a) && InBounds(b) && Gap(a, b, d, l) && Good(a, path)
    ensures Good(b, path) && Gap(End(a, path), End(b, path), d, l)
  {
    if path.Then? {
      GapRun(a, b, d, l, path.path);
      PathKeepsInv(a, path.path);
      GapStep(End(a, path.path), End(b, path.path), d, l, path.step);
    }
  }

  lemma MessagesDiffer(s: State, t: nat, u: nat)
    requires Books(s) && t < |s.accepted| && u < |s.accepted| && t != u
    ensures s.accepted[t].msg != s.accepted[u].msg
  {
    assert Booked(s, t) && Booked(s, u);
  }

  /** Behind the gap the next delivery is another message. */
  lemma GapShows(a: State, b: State, d: nat, l: nat)
    requires Inv(a) && Gap(a, b, d, l) && d + 1 < |a.delivered|
    ensures Displaced(b, d, d + 1)
  {
    MessagesDiffer(a, d, d + 1);
    assert b.delivered[d] == a.delivered[d + 1];
  }

  /** State o leads to b, which but for the delivery at its end is the sound state a with p idle. */
  ghost predicate Aligned(o: State, a: State, b: State, d: nat, l: nat, p: nat) {
    && InBounds(o) && Leads(o, b) && Inv(a) && InBounds(b) && Gap(a, b, d, l) && |a.delivered| == d + 1
    && p < |a.producers| && a.producers[p].pc.Idle?
  }

  /** From such a gap the program can make it show. */
  lemma GapLeads(o: State, a: State, b: State, d: nat, l: nat, p: nat) returns (s': State)
    requires Aligned(o, a, b, d, l, p)
    ensures Leads(o, s') && Displaced(s', d, d + 1)
  {
    var a' := NextDelivery(a, p);
    var path :| Good(a, path) && End(a, path) == a';
    GapRun(a, b, d, l, path);
    s' := End(b, path);
    GapShows(a', s', d, l);
    LeadsThrough(o, b, s');
  }

  /** The holder of a skipped slot. */
  lemma Holder(s: State) returns (p: nat)
    requires Inv(s) && GivesUp(s, Consume)
    ensures p < |s.producers| && InFlight(s.producers[p].pc) && |s.delivered| == s.base + s.read < |s.accepted|
  {
    assert Kept(s, Front(s));
    p := s.accepted[Front(s)].msg.pid;
  }

  /** With all producers done, that slot is read like any other. */
  lemma Reads(f: State) returns (a: State)
    requires Inv(f) && NoneInFlight(f) && f.consumer.Scan? && f.read < f.fullSlots
    ensures Inv(a) && Loc(f.qlen, f.consumerQ, f.read) < |f.payload|
    ensures var l := Loc(f.qlen, f.consumerQ, f.read);
            && f.payload[l].Some? && |f.delivered| == f.base + f.read
            && a == f.(consumer := Rest, read := f.read + 1, payload := f.payload[l := None],
                        delivered := f.delivered + [f.payload[l]])
  {
    assert Kept(f, Front(f));
    ConsumerKeepsInv(f);
    var g := ConsumerStep(f);
    TakeFindsTicket(g);
    ConsumerKeepsInv(g);
    a := ConsumerStep(g);
  }

  lemma SkipFinished(s: State) returns (b: State)
    requires InBounds(s) && GivesUp(s, Consume)
    ensures Leads(ConsumerStep(s), b) && InBounds(b)
    ensures b == AllFinished(s, |s.producers|).(consumer := Scan(s.consumer.again, 0), read := s.read + 1)
  {
    var skipped := ConsumerStep(s);
    b := AllFinished(skipped, |s.producers|);
    AllFinishedLeads(skipped, |s.producers|, b);
    AllFinishedWrites(s, |s.producers|);
    AllFinishedAlike(s, skipped, |s.producers|);
  }

  /** The skip leads to a gap. */
  lemma SkipGaps(s: State) returns (a: State, b: State, p: nat)
    requires Inv(s) && GivesUp(s, Consume)
    ensures Leads(ConsumerStep(s), b) && InBounds(b) && Inv(a) && |a.delivered| == |s.delivered| + 1
    ensures b == a.(consumer := Scan(s.consumer.again, 0), payload := b.payload, delivered := b.delivered)
    ensures Gap(a, b.(consumer := a.consumer), |s.delivered|, Loc(s.qlen, s.consumerQ, s.read))
    ensures a.consumer == Rest && a.read == s.read + 1 && a.fullSlots == s.fullSlots && NoneInFlight(a)
    ensures p < |a.producers| && a.producers[p].pc.Idle?
  {
    p := Holder(s);
    var f := FinishedInv(s);
    a := Reads(f);
    b := SkipFinished(s);
    assert a.delivered[..|s.delivered|] == s.delivered && a.delivered[|s.delivered| + 1..] == [];
  }

  /** A consumer that finds the next slot published takes it. */
  lemma TakesNext(s: State)
    requires InBounds(s) && s.consumer.Scan? && s.read < s.fullSlots && s.valid[Loc(s.qlen, s.consumerQ, s.read)]
    ensures !Bad(s, Consume) && ConsumerStep(s) == s.(consumer := Take(s.read), read := s.read + 1)
  {
  }

  lemma FindsNext(a: State) returns (a': State)
    requires Inv(a) && NoneInFlight(a) && a.consumer.Rest? && a.read < a.fullSlots
    ensures Inv(a') && a' == a.(consumer := Take(a.read), read := a.read + 1)
    ensures a.valid[Loc(a.qlen, a.consumerQ, a.read)]
  {
    assert Kept(a, Front(a));
    ConsumerKeepsInv(a);
    var a1 := ConsumerStep(a);
    ConsumerKeepsInv(a1);
    TakesNext(a1);
    a' := ConsumerStep(a1);
  }

  /** The slot behind the skipped one is published, and both states take it. */
  lemma SkipTakesNext(a: State, b: State, d: nat, l: nat) returns (a': State, b': State)
    requires Inv(a) && NoneInFlight(a) && a.consumer.Rest? && a.read < a.fullSlots
    requires InBounds(b) && b.consumer.Scan? && Gap(a, b.(consumer := a.consumer), d, l)
    ensures Leads(b, b') && InBounds(b') && Inv(a') && Gap(a', b', d, l)
    ensures a'.delivered == a.delivered && a'.producers == a.producers
  {
    a' := FindsNext(a);
    TakesNext(b);
    LeadsHere(b);
    b' := Consumes(b, b);
  }

  /** The consumer of the sound state catches up, and both states go on alike. */
  lemma SkipAligns(s: State, d: nat, l: nat) returns (a: State, b: State, p: nat)
    requires Inv(s) && GivesUp(s, Consume) && d == |s.delivered| && l == Loc(s.qlen, s.consumerQ, s.read)
    ensures Aligned(ConsumerStep(s), a, b, d, l, p)
  {
    a, b, p := SkipGaps(s);
    if !s.consumer.again {
      ConsumerKeepsInv(a);
      a := ConsumerStep(a);
    } else if a.read == a.fullSlots {
      LeadsNext(ConsumerStep(s), b, Consume);
      b := ConsumerStep(b);
    } else {
      var b1 := b;
      a, b := SkipTakesNext(a, b1, d, l);
      LeadsThrough(ConsumerStep(s), b1, b);
    }
  }

  lemma SkipDisplaces(s: State, d: nat) returns (s': State)
    requires Inv(s) && GivesUp(s, Consume) && d == |s.delivered|
    ensures Leads(ConsumerStep(s), s') && Displaced(s', d, d + 1)
  {
    var l := Loc(s.qlen, s.consumerQ, s.read);
    var a, b, p := SkipAligns(s, d, l);
    s' := GapLeads(ConsumerStep(s), a, b, d, l, p);
  }

  /** Once a slot is skipped, the program can deliver the message accepted next in the place of its message. */
  lemma SkipBreaksOrder(s: State) returns (s': State)
    requires Inv(s) && GivesUp(s, Consume)
    ensures Leads(ConsumerStep(s), s') && s.accepted <= s'.accepted
    ensures s.base + s.read == |s.delivered| < |s.accepted| && Displaced(s', |s.delivered|, |s.delivered| + 1)
  {
    var p := Holder(s);
    s' := SkipDisplaces(s, |s.delivered|);
    LeadsKeepsAccepted(ConsumerStep(s), s');
  }

  // ---------- After an overflow ----------

  /** s, but for the word of tickets. */
  function Worded(s: State, pointer: nat): State { s.(pointer := pointer) }

  lemma ReadsUpStep(s: State, x: nat)
    requires Inv(s) && NoneInFlight(s) && s.consumer != Clear(s.fullSlots)
    ensures !Bad(s, Consume) && !Bad(Worded(s, x), Consume) && ConsumerStep(Worded(s, x)) == Worded(ConsumerStep(s), x)
    ensures var s' := ConsumerStep(s);
            && s'.accepted == s.accepted && s'.producers == s.producers
            && s'.pointer == s.pointer && s'.consumerQ == s.consumerQ
            && UntilRead(s') < UntilRead(s)
  {
    if s.consumer.Scan? && s.read < s.fullSlots { assert Kept(s, s.base + s.read); }
  }

  /** The consumer reads up its batch and clears it, whatever the word of tickets says. */
  lemma {:induction false} ReadsUp(s: State, x: nat) returns (s': State)
    requires Inv(s) && NoneInFlight(s)
    ensures Inv(s') && NoneInFlight(s') && s'.consumer == Clear(s'.fullSlots) && Leads(Worded(s, x), Worded(s', x))
    ensures s'.accepted == s.accepted && s'.producers == s.producers && s'.pointer == s.pointer
    ensures s'.consumerQ == s.consumerQ && s'.qlen == s.qlen
    decreases UntilRead(s)
  {
    LeadsHere(Worded(s, x));
    if s.consumer == Clear(s.fullSlots) { return s; }
    ReadsUpStep(s, x);
    ConsumerKeepsInv(s);
    LeadsNext(Worded(s, x), Worded(s, x), Consume);
    s' := ReadsUp(ConsumerStep(s), x);
    LeadsThrough(Worded(s, x), Worded(ConsumerStep(s), x), Worded(s', x));
  }

  /** Consumer steps until then. */
  function UntilRead(s: State): nat
    requires InBounds(s)
  {
    var unread := 4 * (s.fullSlots - s.read) + s.fullSlots;
    match s.consumer
    case Clear(i) => s.fullSlots - i
    case Scan(again, _) => if again then unread + 3 else unread + 1
    case Rest => unread + 2
    case Take(_) => unread + 3
    case ClearFull => unread + 4
  }

  /** n steps of the consumer that find no slot to skip. */
  lemma Consumes(s0: State, s: State) returns (s': State)
    requires InBounds(s0) && InBounds(s) && Leads(s0, s) && !Bad(s, Consume)
    ensures s' == ConsumerStep(s) && Leads(s0, s')
  {
    LeadsNext(s0, s, Consume);
    s' := ConsumerStep(s);
  }

  /** The exchange, from the end of the batch to the first look at the next. */
  lemma Exchanges(c: State) returns (e: State)
    requires InBounds(c) && c.consumer == Clear(c.fullSlots)
    ensures Leads(c, e) && InBounds(e) && e == Swap(c).(consumer := Scan(true, 0), full := false)
  {
    LeadsHere(c);
    e := Consumes(c, c);
    e := Consumes(c, e);
  }

  lemma EmptySwap(c: State)
    requires InBounds(c) && c.consumer == Clear(c.fullSlots) && Taken(c) == 0
    ensures var e := Swap(c).(consumer := Scan(true, 0), full := false);
            && !Bad(e, Consume) && ConsumerStep(e) == e.(consumer := Rest)
            && Taken(e) == 0 && e.pointer / SLOT_LIMIT == 1 - e.consumerQ && e.fullSlots == e.read == 0
  {
  }

  /** It takes over no ticket. */
  lemma EmptyExchange(c: State) returns (e: State)
    requires InBounds(c) && c.consumer == Clear(c.fullSlots) && Taken(c) == 0
    ensures Leads(c, e) && InBounds(e)
    ensures Taken(e) == 0 && e.pointer / SLOT_LIMIT == 1 - e.consumerQ && !e.full
    ensures e.fullSlots == e.read == 0 && e.consumer.Rest?
    ensures (e.accepted, e.delivered, e.producers, e.qlen) == (c.accepted, c.delivered, c.producers, c.qlen)
  {
    EmptySwap(c);
    e := Exchanges(c);
    e := Consumes(c, e);
  }

  lemma FinishedAnswers(s: State, p: nat)
    requires InBounds(s) && p < |s.producers| && s.producers[p].pc.WriteValid?
    ensures Finished(s, p) == Publish(s, p)
  {
    assert ProducerStep(s, p) == Publish(s, p);
    FinishedHere(Publish(s, p), p);
  }

  lemma FinishedHere(s: State, p: nat)
    requires InBounds(s) && p < |s.producers| && !InFlight(s.producers[p].pc)
    ensures Finished(s, p) == s
  {
  }

  lemma {:induction false} FinishedPublishes(s: State, p: nat)
    requires InBounds(s) && p < |s.producers| && (s.producers[p].pc.SetFull? || s.producers[p].pc.WritePayload?)
    ensures var pc, s' := s.producers[p].pc, Finished(s, p);
            var l := Loc(s.qlen, pc.q, pc.slot);
            s'.valid[l] && s'.payload[l] == Some(Current(s, p))
    decreases Left(s.producers[p].pc)
  {
    var s' := ProducerStep(s, p);
    if s.producers[p].pc.SetFull? { FinishedPublishes(s', p); } else { FinishedAnswers(s', p); }
  }

  lemma FirstTicket(e: State, p: nat)
    requires InBounds(e) && Taken(e) == 0 && e.pointer / SLOT_LIMIT < 2 && p < |e.producers|
    requires e.producers[p].pc.FetchTicket?
    ensures var f, q := Fetch(e, p), e.pointer / SLOT_LIMIT;
            && f.accepted == e.accepted + [Ticket(e.epoch, q, 0, Current(e, p))] && Taken(f) == 1
            && f == e.(pointer := f.pointer, accepted := f.accepted, producers := f.producers)
            && Current(f, p) == Current(e, p)
            && InFlight(f.producers[p].pc) && !f.producers[p].pc.WriteValid?
            && f.producers[p].pc.q == q && f.producers[p].pc.slot == 0
  {
  }

  /** The first half of a push into a buffer whose first ticket has not been given out. */
  lemma TakesFirst(e: State, p: nat) returns (f: State)
    requires InBounds(e) && Taken(e) == 0 && e.pointer / SLOT_LIMIT < 2 && !e.full
    requires p < |e.producers| && e.producers[p].pc.Idle?
    ensures Leads(e, f) && InBounds(f) && Taken(f) == 1
    ensures f.accepted == e.accepted + [Ticket(e.epoch, e.pointer / SLOT_LIMIT, 0, Current(e, p))]
    ensures f == e.(pointer := f.pointer, accepted := f.accepted, producers := f.producers)
    ensures p < |f.producers| && Current(f, p) == Current(e, p)
    ensures var pc := f.producers[p].pc;
            InFlight(pc) && !pc.WriteValid? && pc.q == e.pointer / SLOT_LIMIT && pc.slot == 0
  {
    var e2 := Asks(e, p);
    FirstTicket(e2, p);
    LeadsNext(e, e2, Produce(p));
    f := Fetch(e2, p);
  }

  /** And the whole. */
  lemma PushesFirst(e: State, p: nat) returns (f: State)
    requires InBounds(e) && Taken(e) == 0 && e.pointer / SLOT_LIMIT < 2 && !e.full
    requires p < |e.producers| && e.producers[p].pc.Idle?
    ensures Leads(e, f) && InBounds(f) && f.qlen == e.qlen && Taken(f) == 1
    ensures f.accepted == e.accepted + [Ticket(e.epoch, e.pointer / SLOT_LIMIT, 0, Current(e, p))]
    ensures f.delivered == e.delivered
    ensures (f.consumer, f.read, f.fullSlots, f.consumerQ) == (e.consumer, e.read, e.fullSlots, e.consumerQ)
    ensures var l := Loc(e.qlen, e.pointer / SLOT_LIMIT, 0); f.valid[l] && f.payload[l] == Some(Current(e, p))
  {
    var g := TakesFirst(e, p);
    f := Publishes(g, p);
    LeadsThrough(e, g, f);
  }

  lemma Publishes(s: State, p: nat) returns (f: State)
    requires InBounds(s) && p < |s.producers| && InFlight(s.producers[p].pc) && !s.producers[p].pc.WriteValid?
    ensures Leads(s, f) && InBounds(f) && Written(s, f)
    ensures var l := Loc(s.qlen, s.producers[p].pc.q, s.producers[p].pc.slot);
            f.valid[l] && f.payload[l] == Some(Current(s, p))
  {
    FinishedLeads(s, p);
    FinishedWrites(s, p);
    FinishedPublishes(s, p);
    f := Finished(s, p);
  }

  /** An empty batch is exchanged for one with a single message, and that is delivered. */
  lemma PopsFirst(f: State) returns (g: State)
    requires InBounds(f) && f.consumer.Rest? && f.read == f.fullSlots == 0
    requires Taken(f) == 1 && f.valid[Loc(f.qlen, 1 - f.consumerQ, 0)]
    ensures Leads(f, g) && g.accepted == f.accepted
    ensures g.delivered == f.delivered + [f.payload[Loc(f.qlen, 1 - f.consumerQ, 0)]]
  {
    var c := FindsNone(f);
    var e := Exchanges(c);
    OneMessage(c);
    g := PopsNext(e);
    LeadsThrough(f, c, e);
    LeadsThrough(f, e, g);
  }

  lemma FindsNone(f: State) returns (c: State)
    requires InBounds(f) && f.consumer.Rest? && f.read == f.fullSlots == 0
    ensures Leads(f, c) && c == f.(consumer := Clear(0))
  {
    LeadsHere(f);
    c := Consumes(f, f);
    c := Consumes(f, c);
  }

  lemma OneMessage(c: State)
    requires InBounds(c) && Taken(c) == 1
    ensures Swap(c).read == 0 && Swap(c).fullSlots == 1 && Swap(c).consumerQ == 1 - c.consumerQ
  {
    assert c.pointer % SLOT_LIMIT == 1;
  }

  lemma PopsNext(e: State) returns (g: State)
    requires InBounds(e) && e.consumer.Scan? && e.read < e.fullSlots && e.valid[Loc(e.qlen, e.consumerQ, e.read)]
    ensures Leads(e, g) && g.accepted == e.accepted
    ensures g.delivered == e.delivered + [e.payload[Loc(e.qlen, e.consumerQ, e.read)]]
  {
    LeadsHere(e);
    TakesNext(e);
    g := Consumes(e, e);
    g := Consumes(e, g);
  }

  /** From a word without tickets, an empty exchange, a push and a pop. */
  lemma PassesOver(c: State, p: nat) returns (g: State)
    requires InBounds(c) && c.consumer == Clear(c.fullSlots) && Taken(c) == 0
    requires p < |c.producers| && c.producers[p].pc.Idle?
    ensures Leads(c, g) && g.delivered == c.delivered + [Some(Current(c, p))]
    ensures |g.accepted| == |c.accepted| + 1 && c.accepted <= g.accepted
    ensures g.accepted[|c.accepted|].msg == Current(c, p)
  {
    var e := EmptyExchange(c);
    var f := PushesFirst(e, p);
    LeadsThrough(c, e, f);
    g := PopsFirst(f);
    LeadsThrough(c, f, g);
  }

  /** All the others have finished, the consumer is about to exchange; only p overflowed the word. */
  lemma OverflowAligns(s: State, p: nat) returns (a: State)
    requires Inv(s) && Overflows(s, Produce(p))
    ensures var c := Worded(a, (2 - s.consumerQ) * SLOT_LIMIT);
            Leads(Fetch(s, p), c) && InBounds(c) && Taken(c) == 0
    ensures Inv(a) && NoneInFlight(a) && a.consumer == Clear(a.fullSlots) && a.pointer == s.pointer && p < |a.producers|
    ensures a.producers[p].pc.Idle? && a.accepted == s.accepted && Mid(a) < |a.accepted|
  {
    var o, x := Fetch(s, p), (2 - s.consumerQ) * SLOT_LIMIT;
    OverflowWord(s, p);
    var a0 := Answer(s, p, None);
    RejectKeepsInv(s, p);
    var a1 := FinishedInv(a0);
    AllFinishedAlike(a0, o, |s.producers|);
    AllFinishedLeads(o, |s.producers|, Worded(a1, x));
    a := ReadsUp(a1, x);
    LeadsThrough(o, Worded(a1, x), Worded(a, x));
  }

  /** With its tickets counted out the buffer looks empty: its messages are passed over, and the first one
      accepted after the overflow is delivered in the place of the first one of them. */
  lemma OverflowBreaksOrder(s: State, p: nat) returns (s': State, t: nat)
    requires Inv(s) && Overflows(s, Produce(p))
    ensures Leads(Fetch(s, p), s') && s.accepted <= s'.accepted
    ensures t < |s.accepted| && Displaced(s', t, |s.accepted|)
  {
    var a := OverflowAligns(s, p);
    var c := Worded(a, (2 - s.consumerQ) * SLOT_LIMIT);
    s' := PassesOver(c, p);
    LeadsThrough(Fetch(s, p), c, s');
    t := Mid(a);
    assert Booked(a, t);
  }

  // ---------- The exact condition ----------

  /** A step is not a bad one exactly when everything the program can do afterwards, without bad steps,
      keeps the messages in order. */
  lemma OrderNeedsGoodSteps(s: State, step: Step)
    requires Inv(s)
    ensures !Bad(s, step) <==> forall s' :: Leads(Apply(s, step), s') ==> InOrder(s')
  {
    if !Bad(s, step) {
      StepKeepsInv(s, step);
      forall s' | Leads(Apply(s, step), s') ensures InOrder(s') { LeadsKeepsInv(Apply(s, step), s'); }
    } else {
      var s' := BadStepBreaksOrder(s, step);
    }
  }

  lemma BadStepBreaksOrder(s: State, step: Step) returns (s': State)
    requires Inv(s) && Bad(s, step)
    ensures Leads(Apply(s, step), s') && !InOrder(s')
  {
    if GivesUp(s, step) {
      s' := SkipDisplaces(s, |s.delivered|);
      DisplacedIsNotInOrder(s', |s.delivered|, |s.delivered| + 1);
    } else {
      var t;
      s', t := OverflowBreaksOrder(s, step.p);
      DisplacedIsNotInOrder(s', t, |s.accepted|);
    }
  }

  lemma {:induction false} CleanPrefix(s: State, schedule: seq<Step>, n: nat)
    requires InBounds(s) && Clean(s, schedule) && n <= |schedule|
    ensures Clean(s, schedule[..n])
    decreases |schedule|
  {
    if n < |schedule| {
      var before := schedule[..|schedule| - 1];
      CleanPrefix(s, before, n);
      assert before[..n] == schedule[..n];
    } else {
      assert schedule[..n] == schedule;
    }
  }

  /** The first bad step. */
  lemma {:induction false} FirstBad(s: State, schedule: seq<Step>) returns (n: nat)
    requires InBounds(s) && !Clean(s, schedule)
    ensures n < |schedule| && Clean(s, schedule[..n]) && Bad(Run(s, schedule[..n]), schedule[n])
    decreases |schedule|
  {
    var before := schedule[..|schedule| - 1];
    if Clean(s, before) {
      n := |before|;
    } else {
      n := FirstBad(s, before);
      assert before[..n] == schedule[..n];
    }
  }

  /** Whatever the program does from the states of this run on, if it is clean, it delivers in order. */
  ghost predicate SafeThroughout(s: State, schedule: seq<Step>)
    requires InBounds(s)
  {
    forall n, s' :: 0 <= n <= |schedule| && Leads(Run(s, schedule[..n]), s') ==> InOrder(s')
  }

  /** The condition on schedules is exact: a run skips no slot and overflows no ticket word if and only if
      it stays safe. */
  lemma CleanIsExact(qlen: nat, count: nat, schedule: seq<Step>)
    requires 1 <= qlen < SLOT_LIMIT
    ensures Clean(Init(qlen, count), schedule) <==> SafeThroughout(Init(qlen, count), schedule)
  {
    var s0 := Init(qlen, count);
    InitInv(qlen, count);
    if Clean(s0, schedule) {
      forall n, s' | 0 <= n <= |schedule| && Leads(Run(s0, schedule[..n]), s') ensures InOrder(s') {
        CleanPrefix(s0, schedule, n);
        RunKeepsInv(s0, schedule[..n]);
        LeadsKeepsInv(Run(s0, schedule[..n]), s');
      }
    } else {
      var n := FirstBad(s0, schedule);
      RunKeepsInv(s0, schedule[..n]);
      OrderNeedsGoodSteps(Run(s0, schedule[..n]), schedule[n]);
      var more := schedule[..n + 1];
      assert more[..n] == schedule[..n];
      assert Run(s0, more) == Apply(Run(s0, schedule[..n]), schedule[n]);
    }
  }

  // ---------- A run out of order ----------

  lemma LooksAgain(s: State)
    requires InBounds(s) && s.consumer.Scan? && s.consumer.tries + 1 < SPINS
    requires s.read < s.fullSlots && !s.valid[Loc(s.qlen, s.consumerQ, s.read)]
    ensures !Bad(s, Consume) && ConsumerStep(s) == s.(consumer := Scan(s.consumer.again, s.consumer.tries + 1))
  {
  }

  lemma {:induction false} Spins(s: State) returns (s': State)
    requires InBounds(s) && s.consumer.Scan? && s.consumer.tries < SPINS
    requires s.read < s.fullSlots && !s.valid[Loc(s.qlen, s.consumerQ, s.read)]
    ensures Leads(s, s') && InBounds(s') && GivesUp(s', Consume)
    decreases SPINS - s.consumer.tries
  {
    LeadsHere(s);
    if s.consumer.tries + 1 == SPINS { return s; }
    LooksAgain(s);
    var s1 := Consumes(s, s);
    s' := Spins(s1);
    LeadsThrough(s, s1, s');
  }

  /** The consumer comes to a slot whose producer has its ticket and has not written yet. */
  lemma Meets(f: State) returns (s: State)
    requires InBounds(f) && f.consumer.Rest? && f.read == f.fullSlots == 0
    requires Taken(f) == 1 && !f.valid[Loc(f.qlen, 1 - f.consumerQ, 0)]
    ensures Leads(f, s) && InBounds(s) && s.consumer == Scan(true, 0) && s.read < s.fullSlots
    ensures !s.valid[Loc(s.qlen, s.consumerQ, s.read)]
  {
    LeadsHere(f);
    var c := Consumes(f, f);
    c := Consumes(f, c);
    s := Exchanges(c);
    LeadsThrough(f, c, s);
  }

  /** In every queue a producer can stall there until the consumer gives up. */
  lemma Stalls(qlen: nat, count: nat) returns (s: State)
    requires 1 <= qlen && 1 <= count
    ensures Leads(Init(qlen, count), s) && InBounds(s) && GivesUp(s, Consume)
  {
    var s0 := Init(qlen, count);
    var f := TakesFirst(s0, 0);
    var g := Meets(f);
    LeadsThrough(s0, f, g);
    s := Spins(g);
    LeadsThrough(s0, g, s);
  }

  /** So every queue can, by one skip, come to deliver a message in the place of an accepted one. */
  lemma SkippingDisorders(qlen: nat, count: nat) returns (s: State, s': State)
    requires 1 <= qlen < SLOT_LIMIT && 1 <= count
    ensures Leads(Init(qlen, count), s) && InBounds(s) && GivesUp(s, Consume)
    ensures Leads(ConsumerStep(s), s') && Displaced(s', |s.delivered|, |s.delivered| + 1)
  {
    s := Stalls(qlen, count);
    InitInv(qlen, count);
    LeadsKeepsInv(Init(qlen, count), s);
    s' := SkipBreaksOrder(s);
  }

  /** The consumer stands between an exchange and the clearing of m_full behind it. */
  predicate Late(s: State, taken: nat, full: bool)
    requires InBounds(s)
  {
    && s.consumer.ClearFull? && Asking(s, taken) && s.full == full
  }

  /** Producer 0 is idle, `taken` tickets have been handed out. */
  predicate Asking(s: State, taken: nat) {
    && s.pointer / SLOT_LIMIT < 2 && Taken(s) == taken < SLOT_LIMIT
    && s.producers != [] && s.producers[0].pc.Idle?
  }

  lemma NextWord(s: State)
    requires s.pointer / SLOT_LIMIT < 2 && Taken(s) + 1 < SLOT_LIMIT
    ensures (s.pointer + 1) % WORD == s.pointer + 1
    ensures (s.pointer + 1) / SLOT_LIMIT == s.pointer / SLOT_LIMIT && (s.pointer + 1) % SLOT_LIMIT == Taken(s) + 1
  {
  }

  lemma FetchesSlot(s: State, n: nat)
    requires InBounds(s) && s.pointer / SLOT_LIMIT < 2 && Taken(s) == n < s.qlen < SLOT_LIMIT
    requires s.producers != [] && s.producers[0].pc.FetchTicket?
    ensures !Bad(s, Produce(0)) && InFlight(Fetch(s, 0).producers[0].pc)
    ensures var f := Fetch(s, 0);
            && f == s.(pointer := s.pointer + 1, accepted := f.accepted, producers := f.producers)
            && f.producers[0].pc.SetFull? == (n + 1 == s.qlen) && !f.producers[0].pc.WriteValid?
  {
    NextWord(s);
  }

  lemma {:induction false} FinishedSetsFull(s: State)
    requires InBounds(s) && s.producers != [] && InFlight(s.producers[0].pc)
    ensures Finished(s, 0).full == (s.full || s.producers[0].pc.SetFull?)
    decreases Left(s.producers[0].pc)
  {
    var s' := ProducerStep(s, 0);
    if InFlight(s'.producers[0].pc) { FinishedSetsFull(s'); } else { FinishedHere(s', 0); }
  }

  lemma Lands(f: State) returns (s': State)
    requires InBounds(f) && f.producers != [] && InFlight(f.producers[0].pc)
    ensures Leads(f, s') && InBounds(s') && s'.qlen == f.qlen && s'.pointer == f.pointer && s'.consumer == f.consumer
    ensures |s'.producers| == |f.producers| && s'.producers[0].pc.Idle?
    ensures s'.full == (f.full || f.producers[0].pc.SetFull?)
  {
    FinishedLeads(f, 0);
    FinishedWrites(f, 0);
    FinishedSetsFull(f);
    s' := Finished(f, 0);
  }

  lemma TakesSlot(s: State, n: nat) returns (f: State)
    requires InBounds(s) && n < s.qlen < SLOT_LIMIT && Asking(s, n) && !s.full
    ensures Leads(s, f) && InBounds(f)
    ensures f == s.(pointer := s.pointer + 1, accepted := f.accepted, producers := f.producers)
    ensures f.producers != [] && InFlight(f.producers[0].pc) && f.producers[0].pc.SetFull? == (n + 1 == s.qlen)
  {
    var a := Asks(s, 0);
    FetchesSlot(a, n);
    LeadsNext(s, a, Produce(0));
    f := Fetch(a, 0);
  }

  /** Meanwhile a push takes the next slot, and the last one sets m_full. */
  lemma FillsSlot(s: State, n: nat) returns (s': State)
    requires InBounds(s) && n < s.qlen < SLOT_LIMIT && Late(s, n, false)
    ensures Leads(s, s') && InBounds(s') && s'.qlen == s.qlen && Late(s', n + 1, n + 1 == s.qlen)
  {
    var f := TakesSlot(s, n);
    s' := Lands(f);
    NextWord(s);
    LeadsThrough(s, f, s');
  }

  lemma {:induction false} FillsUp(s: State, n: nat) returns (s': State)
    requires InBounds(s) && n < s.qlen < SLOT_LIMIT && Late(s, n, false)
    ensures Leads(s, s') && InBounds(s') && s'.qlen == s.qlen && Late(s', s.qlen, true)
    decreases s.qlen - n
  {
    var s1 := FillsSlot(s, n);
    s' := s1;
    if n + 1 < s.qlen {
      s' := FillsUp(s1, n + 1);
      LeadsThrough(s, s1, s');
    }
  }

  lemma FetchIsRefused(s: State)
    requires InBounds(s) && s.pointer / SLOT_LIMIT < 2 && s.qlen <= Taken(s) && Taken(s) + 1 < SLOT_LIMIT
    requires s.producers != [] && s.producers[0].pc.FetchTicket?
    ensures !Bad(s, Produce(0)) && Fetch(s, 0) == Answer(s.(pointer := s.pointer + 1), 0, None)
  {
    NextWord(s);
  }

  lemma PushIsRefused(s: State) returns (s': State)
    requires InBounds(s) && s.pointer / SLOT_LIMIT < 2 && s.qlen <= Taken(s) && Taken(s) + 1 < SLOT_LIMIT && !s.full
    requires s.producers != [] && s.producers[0].pc.Idle?
    ensures Leads(s, s') && s' == Answer(s.(pointer := s.pointer + 1), 0, None) && InBounds(s')
  {
    var a := Asks(s, 0);
    FetchIsRefused(a);
    LeadsNext(s, a, Produce(0));
    s' := Fetch(a, 0);
  }

  /** With m_full cleared and the buffer full, a push is refused by its slot and still counts. */
  lemma Counts(s: State, n: nat) returns (s': State)
    requires InBounds(s) && s.qlen <= n && n + 1 < SLOT_LIMIT && Asking(s, n) && !s.full
    ensures Leads(s, s') && InBounds(s') && s'.qlen == s.qlen && Asking(s', n + 1) && !s'.full
  {
    NextWord(s);
    s' := PushIsRefused(s);
  }

  lemma {:induction false} CountsOut(s: State, n: nat) returns (s': State)
    requires InBounds(s) && s.qlen <= n && Asking(s, n) && !s.full
    ensures Leads(s, s') && InBounds(s') && Asking(s', SLOT_LIMIT - 1) && !s'.full
    decreases SLOT_LIMIT - n
  {
    if n + 1 == SLOT_LIMIT {
      LeadsHere(s);
      s' := s;
    } else {
      var s1 := Counts(s, n);
      s' := CountsOut(s1, n + 1);
      LeadsThrough(s, s1, s');
    }
  }

  /** The first exchange, up to its late clearing of m_full. */
  lemma FirstExchange(qlen: nat, count: nat) returns (s: State)
    requires 1 <= qlen < SLOT_LIMIT && 1 <= count
    ensures Leads(Init(qlen, count), s) && InBounds(s) && s.qlen == qlen && Late(s, 0, false)
  {
    var s0 := Init(qlen, count);
    var c := FindsNone(s0);
    s := Consumes(s0, c);
  }

  /** In every queue one producer can count its word out: the consumer's late clearing of m_full wipes what
      the producer set when it took the last slot, and no further push sets it again. */
  lemma OverflowIsReached(qlen: nat, count: nat) returns (s: State)
    requires 1 <= qlen < SLOT_LIMIT && 1 <= count
    ensures Leads(Init(qlen, count), s) && InBounds(s) && Overflows(s, Produce(0))
  {
    var s0 := Init(qlen, count);
    var e := FirstExchange(qlen, count);
    var f := FillsUp(e, 0);
    LeadsThrough(s0, e, f);
    var g := Consumes(s0, f);
    var h := CountsOut(g, qlen);
    LeadsThrough(s0, g, h);
    s := Asks(h, 0);
    LeadsThrough(s0, h, s);
  }

  /** And from there, too, it can come to deliver a message in the place of an accepted one. */
  lemma OverflowDisorders(qlen: nat, count: nat) returns (s: State, s': State, t: nat)
    requires 1 <= qlen < SLOT_LIMIT && 1 <= count
    ensures Leads(Init(qlen, count), s) && InBounds(s) && Overflows(s, Produce(0))
    ensures s.pointer % 0x4000_0000 == 0x3FFF_FFFF
    ensures Leads(Fetch(s, 0), s') && t < |s.accepted| && Displaced(s', t, |s.accepted|)
  {
    s := OverflowIsReached(qlen, count);
    InitInv(qlen, count);
    LeadsKeepsInv(Init(qlen, count), s);
    s', t := OverflowBreaksOrder(s, 0);
  }
}
