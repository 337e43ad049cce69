/** One pop of the double-buffered queue (core/block/DBQueue.hpp), with producers at work all the while: what it
    delivers, when it comes back with nothing, and when it passes a slot over. */
module DBQueuePop {
  import opened Wrappers
  import opened DBQueueProtocol
  import opened DBQueueOrder

  /** The oldest message not delivered yet was accepted and published: its push has answered true. */
  ghost predicate Ready(s: State) {
    |s.delivered| < |s.accepted| && Published(s, |s.delivered|)
  }

  /** Consumer steps from here to the end of the pop that delivers it. */
  function ToGo(s: State): nat
    requires InBounds(s)
  {
    match s.consumer
    case Rest => if s.read < s.fullSlots then 3 else s.fullSlots + 6
    case Scan(_, _) => if s.read < s.fullSlots then 2 else s.fullSlots + 5
    case Take(_) => 1
    case Clear(i) => s.fullSlots - i + 4
    case ClearFull => 3
  }

  /** The consumer is inside a pop that will deliver it. */
  ghost predicate Serves(s: State) {
    && Inv(s) && Ready(s) && !s.consumer.Rest?
    && ((s.consumer.Scan? && s.consumer.again) || s.consumer.ClearFull? ==> s.read < s.fullSlots)
  }

  /** The consumer's next step is one step further on that way, or the last one. */
  lemma ServesOn(s: State)
    requires Serves(s)
    ensures !Bad(s, Consume)
    ensures var s' := ConsumerStep(s);
            && s'.accepted == s.accepted
            && if ToGo(s) == 1 then
                 s'.consumer.Rest? && s'.delivered == s.delivered + [Some(s.accepted[|s.delivered|].msg)]
               else Serves(s') && ToGo(s') == ToGo(s) - 1 && s'.delivered == s.delivered
  {
    if s.consumer.Scan? && s.read < s.fullSlots { FindsReady(s); }
    if s.consumer.Take? { TakeFindsTicket(s); }
    ConsumerKeepsInv(s);
  }

  lemma FindsReady(s: State)
    requires Inv(s) && Ready(s) && s.consumer.Scan? && s.read < s.fullSlots
    ensures s.valid[Loc(s.qlen, s.consumerQ, s.read)]
  {
    assert Kept(s, |s.delivered|);
  }

  /** A pop begins. */
  lemma ServesFirst(s: State)
    requires Inv(s) && Ready(s) && s.consumer.Rest?
    ensures !Bad(s, Consume)
    ensures var s' := ConsumerStep(s);
            Serves(s') && ToGo(s') == ToGo(s) - 1 && s'.delivered == s.delivered && s'.accepted == s.accepted
  {
    ConsumerKeepsInv(s);
  }

  /** What the others do makes no difference to it. */
  lemma OthersLeavePop(s: State, step: Step)
    requires Inv(s) && !Bad(s, step) && !step.Consume?
    ensures var s' := Apply(s, step);
            && s' == s.(valid := s'.valid, payload := s'.payload, lost := s'.lost, full := s'.full,
                        pointer := s'.pointer, producers := s'.producers, accepted := s'.accepted)
            && s.accepted <= s'.accepted && (Ready(s) ==> Ready(s'))
  {
    if Ready(s) && step.Produce? && step.p < |s.producers| { TicketStaysPublished(s, step.p, |s.delivered|); }
  }

  lemma TicketStaysPublished(s: State, p: nat, t: nat)
    requires InBounds(s) && p < |s.producers| && t < |s.accepted| && Published(s, t)
    ensures var s' := ProducerStep(s, p); t < |s'.accepted| && s'.accepted[t] == s.accepted[t] && Published(s', t)
  {
  }

  function Consumes(schedule: seq<Step>): nat {
    if schedule == [] then 0
    else Consumes(schedule[..|schedule| - 1]) + if schedule[|schedule| - 1].Consume? then 1 else 0
  }

  /** Where a pop that began in s0 stands after n steps of the consumer. */
  ghost predicate After(s0: State, s: State, n: nat)
    requires InBounds(s0) && |s0.delivered| < |s0.accepted|
  {
    && Inv(s) && s0.accepted <= s.accepted && n <= ToGo(s0)
    && if n == ToGo(s0) then
         s.consumer.Rest? && s.delivered == s0.delivered + [Some(s0.accepted[|s0.delivered|].msg)]
       else
         && s.delivered == s0.delivered && Ready(s) && ToGo(s) == ToGo(s0) - n
         && (if n == 0 then s.consumer.Rest? else Serves(s))
  }

  lemma OneStepOn(s0: State, s: State, n: nat, step: Step)
    requires InBounds(s0) && |s0.delivered| < |s0.accepted| && After(s0, s, n) && !Bad(s, step)
    requires step.Consume? ==> n < ToGo(s0)
    ensures After(s0, Apply(s, step), if step.Consume? then n + 1 else n)
  {
    StepKeepsInv(s, step);
    if !step.Consume? { OthersLeavePop(s, step); } else if n == 0 { ServesFirst(s); } else { ServesOn(s); }
  }

  lemma {:induction false} PopUnderWay(s: State, schedule: seq<Step>)
    requires Inv(s) && s.consumer.Rest? && Ready(s) && Clean(s, schedule) && Consumes(schedule) <= ToGo(s)
    ensures After(s, Run(s, schedule), Consumes(schedule))
    decreases |schedule|
  {
    if schedule != [] {
      var before, step := schedule[..|schedule| - 1], schedule[|schedule| - 1];
      PopUnderWay(s, before);
      OneStepOn(s, Run(s, before), Consumes(before), step);
    }
  }

  /** A pop that begins with the oldest message published delivers it, after a number of the consumer's
      steps that depends only on where the batch stands, whoever is inside push or goes on pushing. */
  lemma PopDelivers(s: State, schedule: seq<Step>)
    requires Inv(s) && s.consumer.Rest? && Ready(s) && Clean(s, schedule)
    requires Consumes(schedule) <= if s.read < s.fullSlots then 3 else s.fullSlots + 6
    ensures var s', n := Run(s, schedule), Consumes(schedule);
            if n < (if s.read < s.fullSlots then 3 else s.fullSlots + 6) then
              s'.delivered == s.delivered && (s'.consumer.Rest? <==> n == 0)
            else s'.delivered == s.delivered + [Some(s.accepted[|s.delivered|].msg)] && s'.consumer.Rest?
  {
    PopUnderWay(s, schedule);
  }

  // ---------- Pops that come back with nothing ----------

  /** Between two rests of the consumer, the first of them in s0. */
  ghost predicate Inside(s0: State, s: State) {
    && InBounds(s) && s.delivered == s0.delivered
    && match s.consumer
       case Rest => false
       case Scan(again, _) => s.epoch == s0.epoch + if again then 1 else 0
       case Take(_) => s0.epoch <= s.epoch
       case Clear(_) => s.epoch == s0.epoch
       case ClearFull => s.epoch == s0.epoch + 1
  }

  lemma PopEnters(s: State)
    requires InBounds(s) && s.consumer.Rest?
    ensures Inside(s, ConsumerStep(s))
  {
  }

  /** Whatever happens, a pop ends with one delivery more, or else behind one exchange of its own with the
      batch taken over by it read up. */
  lemma PopEnds(s0: State, s: State, step: Step)
    requires Inside(s0, s)
    ensures var s' := Apply(s, step);
            || Inside(s0, s')
            || (s'.consumer.Rest? && |s'.delivered| == |s0.delivered| + 1)
            || (s'.consumer.Rest? && s'.delivered == s0.delivered
                && s'.epoch == s0.epoch + 1 && s'.read == s'.fullSlots)
    ensures var s' := Apply(s, step);
            s'.consumer.Rest? && s'.delivered == s.delivered ==>
              step.Consume? && s.consumer.Scan? && s.consumer.again && s.read == s.fullSlots
  {
  }

  // ---------- Slots that are passed over ----------

  /** A slot that stays unpublished is looked at a hundred times, then the consumer goes on to the next. */
  lemma {:induction false} HundredLooks(s: State, n: nat)
    requires InBounds(s) && s.consumer.Scan? && s.consumer.tries == 0 && n <= 100
    requires s.read < s.fullSlots && !s.valid[Loc(s.qlen, s.consumerQ, s.read)]
    ensures Run(s, seq(n, _ => Consume)) ==
            if n < 100 then s.(consumer := Scan(s.consumer.again, n))
            else s.(consumer := Scan(s.consumer.again, 0), read := s.read + 1)
  {
    if n > 0 {
      HundredLooks(s, n - 1);
      assert seq(n, _ => Consume)[..n - 1] == seq(n - 1, _ => Consume);
    }
  }
}
