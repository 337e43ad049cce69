/** Timers and the thread that fires them (core/scheduler/Timer.hpp, TimerThread.hpp): new timers wait in
    a staging queue, the thread moves them into a binary heap and fires all that are due, round by round. */
module TimerThread {
  import opened Wrappers

  /** The system clock, assumed never to go back. */
  class Clock {
    var now: int

    method Now() returns (t: int)
      modifies this
      ensures t == now >= old(now)
    {
      var d: nat :| d >= 0;
      now := now + d;
      t := now;
    }
  }

  /** A one-shot timer has no period. */
  class Timer {
    var time: int
    const due: int             // when it was first to expire
    const period: Option<int>

    constructor (due: int, period: Option<int>)
      ensures time == due && this.due == due && this.period == period
    {
      time, this.due, this.period := due, due, period;
    }

    /** Periods are counted from the present time, not from the time the timer was due. */
    method NextTime(clock: Clock)
      modifies this`time, clock
      ensures clock.now >= old(clock.now)
      ensures time == if period.Some? then clock.now + period.value else old(time)
    {
      if period.Some? {
        var now := clock.Now();
        time := NextDeadline(period.value, now);
      }
    }
  }

  // ---------- Periods ----------

  function NextDeadline(period: int, now: int): int { now + period }

  /** What becomes of a periodic timer due at `time` that was served in a round sampled at tnow and is
      rescheduled at `now`: it waits for a later round, fires in this one again, or is taken for a finished one. */
  datatype Fate = Waits | FiresAgain | Dropped

  function FateOf(period: int, time: int, tnow: int, now: int): Fate {
    var next := NextDeadline(period, now);
    if next == time then Dropped else if next <= tnow then FiresAgain else Waits
  }

  /** A period of zero goes wrong exactly when the clock has not moved since the round was sampled. */
  lemma ZeroPeriod(time: int, tnow: int, now: int)
    requires time <= tnow <= now
    ensures FateOf(0, time, tnow, now) == if now > tnow then Waits else if time == tnow then Dropped else FiresAgain
  {
  }

  ghost predicate Returns(period: int, time: int, tnow: int, now: int) {
    time <= tnow <= now ==> FateOf(period, time, tnow, now) == Waits
  }

  ghost predicate CanMeet(period: int, fate: Fate) {
    exists time, tnow, now :: time <= tnow <= now && FateOf(period, time, tnow, now) == fate
  }

  /** A timer surely waits for a later round exactly if its period is positive; any other one can be
      dropped, and can be fired again in the same round. */
  lemma PeriodMustBePositive(period: int)
    ensures (forall time, tnow, now :: Returns(period, time, tnow, now)) <==> period > 0
    ensures CanMeet(period, Dropped) <==> period <= 0
    ensures CanMeet(period, FiresAgain) <==> period <= 0
  {
    if period == 0 {
      ZeroPeriod(0, 0, 0);
      ZeroPeriod(-1, 0, 0);
    } else if period < 0 {
      assert FateOf(period, period, 0, 0) == Dropped && FateOf(period, 0, 0, 0) == FiresAgain;
    }
    if period <= 0 { assert !Returns(period, 0, 0, 0); }
  }

  // ---------- The heap ----------

  function Parent(i: nat): (p: nat)
    requires i > 0
    ensures p < i
  {
    (i - 1) / 2
  }

  /** No timer among the first n is due before its parent. */
  ghost predicate Heaped(h: seq<Timer>, n: nat)
    requires n <= |h|
    reads h
  {
    forall j :: 0 < j < n ==> h[Parent(j)].time <= h[j].time
  }

  /** The root is due first. */
  lemma {:induction false} RootIsFirst(h: seq<Timer>, j: nat)
    requires j < |h| && Heaped(h, |h|)
    ensures h[0].time <= h[j].time
  {
    if j > 0 { RootIsFirst(h, Parent(j)); }
  }

  /** The heap but for position i, whose children are not due before its parent. */
  ghost predicate HeapedBut(h: seq<Timer>, i: nat, n: nat)
    requires i < n <= |h|
    reads h
  {
    && (forall j :: 0 < j < n && j != i && Parent(j) != i ==> h[Parent(j)].time <= h[j].time)
    && (forall j :: 0 < j < n && i > 0 && Parent(j) == i ==> h[Parent(i)].time <= h[j].time)
  }

  function Exchanged(h: seq<Timer>, i: nat, j: nat): (h': seq<Timer>)
    requires i < |h| && j < |h|
    ensures |h'| == |h| && h'[i] == h[j] && h'[j] == h[i]
    ensures forall k :: 0 <= k < |h| && k != i && k != j ==> h'[k] == h[k]
    ensures multiset(h') == multiset(h)
  {
    h[i := h[j]][j := h[i]]
  }

  /** c is the child of i that is due first. */
  ghost predicate FirstChild(h: seq<Timer>, i: nat, c: nat, n: nat)
    requires n <= |h|
    reads h
  {
    0 < c < n && Parent(c) == i && forall j :: 0 < j < n && Parent(j) == i ==> h[c].time <= h[j].time
  }

  /** Exchanging position i with that child moves the gap down. */
  lemma Sinks(h: seq<Timer>, i: nat, c: nat, n: nat)
    requires i < n <= |h| && HeapedBut(h, i, n) && FirstChild(h, i, c, n) && h[c].time < h[i].time
    ensures HeapedBut(Exchanged(h, i, c), c, n) && Exchanged(h, i, c)[i].time <= Exchanged(h, i, c)[c].time
  {
    var g := Exchanged(h, i, c);
    forall j | 0 < j < n && j != c && Parent(j) != c ensures g[Parent(j)].time <= g[j].time {
      if j == i { assert h[Parent(i)].time <= h[c].time; }
      else if Parent(j) == i { }
      else { assert g[j] == h[j] && g[Parent(j)] == h[Parent(j)]; }
    }
    forall j | 0 < j < n && Parent(j) == c ensures g[Parent(c)].time <= g[j].time {
      assert g[j] == h[j];
      assert h[Parent(j)].time <= h[j].time;
    }
  }

  ghost predicate BeforeChildren(h: seq<Timer>, i: nat, n: nat)
    requires i < n <= |h|
    reads h
  {
    forall j :: 0 < j < n && Parent(j) == i ==> h[i].time <= h[j].time
  }

  /** A gap whose timer is due after its parent and before its children is none. */
  lemma Settles(h: seq<Timer>, i: nat, n: nat)
    requires i < n <= |h| && HeapedBut(h, i, n) && (i > 0 ==> h[Parent(i)].time <= h[i].time)
    requires BeforeChildren(h, i, n)
    ensures Heaped(h, n)
  {
  }

  method PickChild(h: seq<Timer>, i: nat, n: nat) returns (c: nat)
    requires 2 * i + 1 < n <= |h|
    ensures FirstChild(h, i, c, n)
  {
    c := 2 * i + 1;
    if c + 1 < n && h[c + 1].time < h[c].time { c := c + 1; }
    assert forall j :: 0 < j < n && Parent(j) == i ==> j == 2 * i + 1 || j == 2 * i + 2;
  }

  lemma Rises(h: seq<Timer>, i: nat)
    requires 0 < i < |h| && HeapedBut(h, i, |h|) && BeforeChildren(h, i, |h|) && h[Parent(i)].time > h[i].time
    ensures var h' := Exchanged(h, i, Parent(i));
            HeapedBut(h', Parent(i), |h|) && BeforeChildren(h', Parent(i), |h|)
  {
  }

  /** std::push_heap: the last timer rises to its place. */
  method PushHeap(v: seq<Timer>) returns (h: seq<Timer>)
    requires v != [] && Heaped(v, |v| - 1)
    ensures Heaped(h, |h|) && multiset(h) == multiset(v)
  {
    h := v;
    var i: nat := |h| - 1;
    while i > 0 && h[Parent(i)].time > h[i].time
      invariant i < |h| == |v| && multiset(h) == multiset(v)
      invariant HeapedBut(h, i, |h|) && BeforeChildren(h, i, |h|)
    {
      Rises(h, i);
      h := Exchanged(h, i, Parent(i));
      i := Parent(i);
    }
  }

  /** std::pop_heap: the root goes to the end, the last timer in its stead sinks to its place. */
  method PopHeap(v: seq<Timer>) returns (h: seq<Timer>)
    requires v != [] && Heaped(v, |v|)
    ensures |h| == |v| && Heaped(h, |h| - 1) && h[|h| - 1] == v[0] && multiset(h) == multiset(v)
  {
    var n := |v| - 1;
    h := Exchanged(v, 0, n);
    h := SinkRoot(h, n);
  }

  method SinkRoot(v: seq<Timer>, n: nat) returns (h: seq<Timer>)
    requires n < |v| && (n > 0 ==> HeapedBut(v, 0, n))
    ensures |h| == |v| && Heaped(h, n) && h[n] == v[n] && multiset(h) == multiset(v)
  {
    h := v;
    var i: nat := 0;
    while 2 * i + 1 < n
      invariant |h| == |v| && h[n] == v[n] && multiset(h) == multiset(v)
      invariant n > 0 ==> i < n && HeapedBut(h, i, n) && (i > 0 ==> h[Parent(i)].time <= h[i].time)
      decreases n - i
    {
      var c := PickChild(h, i, n);
      if h[c].time >= h[i].time {
        Settles(h, i, n);
        return;
      }
      Sinks(h, i, c, n);
      h := Exchanged(h, i, c);
      i := c;
    }
    if n > 0 { Settles(h, i, n); }
  }

  // ---------- The thread ----------

  lemma OneMore<T>(s: set<T>, x: T)
    requires x !in s
    ensures multiset(s + {x}) == multiset(s) + multiset{x}
  {
  }

  lemma OneLess<T>(s: set<T>, x: T, m: multiset<T>)
    requires m + multiset{x} == multiset(s)
    ensures x in s && m == multiset(s - {x})
  {
    assert (m + multiset{x})[x] >= 1;
    assert s == s - {x} + {x};
    OneMore(s - {x}, x);
    assert m + multiset{x} == multiset(s - {x}) + multiset{x};
    assert m == m + multiset{x} - multiset{x};
    assert multiset(s - {x}) == multiset(s - {x}) + multiset{x} - multiset{x};
  }

  /** One call of handle_timer: when the timer was due, and when it was handled. */
  datatype Firing = Firing(timer: Timer, deadline: int, at: int)

  ghost predicate Zero(t: Timer) { t.period == Some(0) }

  ghost predicate FiredSince(log: seq<Firing>, n: nat, t: Timer) {
    exists i :: n <= i < |log| && log[i].timer == t
  }

  lemma OneMoreSince(log: seq<Firing>, f: Firing, t: Timer)
    requires FiredSince(log, 0, t) || f.timer == t
    ensures FiredSince(log + [f], 0, t)
  {
    if i :| 0 <= i < |log| && log[i].timer == t {
      assert (log + [f])[i].timer == t;
    } else {
      assert (log + [f])[|log|].timer == t;
    }
  }

  /** A firing is a call of a handler. */
  ghost predicate Told(handled: seq<(Timer, int)>, log: seq<Firing>) {
    |handled| == |log| && forall i {:trigger handled[i]} :: 0 <= i < |log| ==>
                            handled[i] == (log[i].timer, log[i].deadline)
  }

  ghost predicate FiredWhenDue(log: seq<Firing>, n: nat, t: Timer, deadline: int) {
    exists i :: n <= i < |log| && log[i].timer == t && log[i].deadline == deadline
  }

  /** How far a round has got: `was` says when the timers in the heap were due as it began, `now` when they
      are, `fired` which of them have fired since.  They fired when they were due, those due first first, and
      once; but one with a period of zero may fire a second time, due at the sampled time itself.  The others
      are as they were. */
  ghost predicate RoundSoFar(log: seq<Firing>, n0: nat, was: map<Timer, int>, now: map<Timer, int>,
                             tnow: int, fired: set<Timer>) {
    LogSoFar(log, n0, was, tnow, fired) && TimesSoFar(log, n0, was, now, tnow, fired)
  }

  ghost predicate LogSoFar(log: seq<Firing>, n0: nat, was: map<Timer, int>, tnow: int, fired: set<Timer>) {
    && n0 <= |log| && fired <= was.Keys
    && (forall i :: n0 <= i < |log| ==> log[i].timer in fired && InRound(log[i], was, tnow))
    && (forall u :: u in fired ==> FiredWhenDue(log, n0, u, was[u]))
    && (forall i, j :: n0 <= i < j < |log| ==> log[i].deadline <= log[j].deadline && Once(log[i], log[j], tnow))
  }

  ghost predicate TimesSoFar(log: seq<Firing>, n0: nat, was: map<Timer, int>, now: map<Timer, int>,
                             tnow: int, fired: set<Timer>) {
    && (forall u :: u in was && u !in fired ==> u in now)
    && (forall u :: u in now ==> u in was && if u in fired then Past(u, was[u], now[u], tnow) else now[u] == was[u])
    && (forall i, u :: n0 <= i < |log| && u in now ==>
          log[i].deadline <= now[u] && (log[i].timer == u ==> log[i].deadline < now[u]))
  }

  ghost predicate InRound(f: Firing, was: map<Timer, int>, tnow: int) {
    f.timer in was && f.deadline <= tnow <= f.at &&
    (f.deadline == was[f.timer] || (Zero(f.timer) && f.deadline == tnow))
  }

  ghost predicate Once(f: Firing, g: Firing, tnow: int) {
    f.timer == g.timer ==> Zero(f.timer) && f.deadline < g.deadline == tnow
  }

  /** A timer that was due and served is past the sampled time, or at it for the first time. */
  ghost predicate Past(t: Timer, was: int, now: int, tnow: int) {
    now > tnow || (Zero(t) && was < tnow == now)
  }

  lemma LogMore(log: seq<Firing>, f: Firing, n0: nat, was: map<Timer, int>, tnow: int, fired: set<Timer>)
    requires LogSoFar(log, n0, was, tnow, fired) && InRound(f, was, tnow)
    requires f.timer !in fired ==> f.deadline == was[f.timer]
    requires forall i :: n0 <= i < |log| ==> log[i].deadline <= f.deadline && Once(log[i], f, tnow)
    ensures LogSoFar(log + [f], n0, was, tnow, fired + {f.timer})
  {
    var log' := log + [f];
    forall u | u in fired + {f.timer} ensures FiredWhenDue(log', n0, u, was[u]) {
      if u in fired {
        var i :| n0 <= i < |log| && log[i].timer == u && log[i].deadline == was[u];
        assert log'[i].timer == u && log'[i].deadline == was[u];
      } else {
        assert log'[|log|].timer == u && log'[|log|].deadline == was[u];
      }
    }
  }

  lemma TimesMore(log: seq<Firing>, f: Firing, n0: nat, was: map<Timer, int>,
                  now: map<Timer, int>, now': map<Timer, int>, tnow: int, fired: set<Timer>)
    requires n0 <= |log| && TimesSoFar(log, n0, was, now, tnow, fired) && Served(now, now', f.timer, tnow)
    requires f.timer in now && f.deadline == now[f.timer] <= tnow && forall u :: u in now ==> f.deadline <= now[u]
    ensures TimesSoFar(log + [f], n0, was, now', tnow, fired + {f.timer})
  {
  }

  /** The timer due first fires, and leaves the heap or comes back past the sampled time. */
  lemma OneMoreFired(log: seq<Firing>, f: Firing, n0: nat, was: map<Timer, int>,
                     now: map<Timer, int>, now': map<Timer, int>, tnow: int, fired: set<Timer>)
    requires RoundSoFar(log, n0, was, now, tnow, fired)
    requires f.timer in now && f.deadline == now[f.timer] <= tnow <= f.at
    requires forall u :: u in now ==> f.deadline <= now[u]
    requires Served(now, now', f.timer, tnow)
    ensures RoundSoFar(log + [f], n0, was, now', tnow, fired + {f.timer})
  {
    LogMore(log, f, n0, was, tnow, fired);
    TimesMore(log, f, n0, was, now, now', tnow, fired);
  }

  /** What serving timer t does to the times in the heap. */
  ghost predicate Served(now: map<Timer, int>, now': map<Timer, int>, t: Timer, tnow: int) {
    && (forall u :: u in now' ==> u in now && if u == t then Past(u, now[u], now'[u], tnow) else now'[u] == now[u])
    && (forall u :: u in now && u != t ==> u in now')
  }

  /** Firings still possible in a round: the timers due, and once more those due before the sampled time. */
  ghost function Ahead(now: map<Timer, int>, tnow: int): nat {
    |set u | u in now && now[u] <= tnow| + |set u | u in now && now[u] < tnow|
  }

  lemma SmallerSet<T>(a: set<T>, b: set<T>)
    requires a <= b
    ensures |a| <= |b| && (a != b ==> |a| < |b|)
  {
    assert b == a + (b - a);
  }

  lemma ServedIsAhead(now: map<Timer, int>, now': map<Timer, int>, t: Timer, tnow: int)
    requires t in now && now[t] <= tnow && Served(now, now', t, tnow)
    ensures Ahead(now', tnow) < Ahead(now, tnow)
  {
    var due, due' := set u | u in now && now[u] <= tnow, set u | u in now' && now'[u] <= tnow;
    var over, over' := set u | u in now && now[u] < tnow, set u | u in now' && now'[u] < tnow;
    SmallerSet(due', due);
    SmallerSet(over', over);
    if now[t] < tnow { assert t in over && t !in over'; } else { assert t in due && t !in due'; }
  }

  /** The record of one wake-up: the log behind it and where it began there, when the pending timers were due
      and when those in the heap are now, the time sampled, and what fired. */
  datatype Wakeup = Wakeup(log: seq<Firing>, n0: nat, was: map<Timer, int>, now: map<Timer, int>, tnow: int,
                           fired: set<Timer>)

  /** What was due fired, and nothing else. */
  ghost predicate WokeUp(w: Wakeup) {
    && RoundSoFar(w.log, w.n0, w.was, w.now, w.tnow, w.fired)
    && w.fired == set u | u in w.was && w.was[u] <= w.tnow
  }

  ghost predicate Follows(v: Wakeup, w: Wakeup) {
    && v.log <= w.log && w.n0 == |v.log| && v.tnow <= w.tnow
    && forall u :: u in v.now ==> u in w.was && w.was[u] == v.now[u]
  }

  ghost predicate Leaves(w: Wakeup, now: map<Timer, int>, clock: int) {
    w.now == now && w.tnow <= clock
  }

  ghost predicate Finds(w: Wakeup, pending: set<Timer>, times: map<Timer, int>, clock: int) {
    clock <= w.tnow && forall t :: t in pending ==> t in times && t in w.was && w.was[t] == times[t]
  }

  /** The wake-ups that made log out of log0. */
  ghost predicate Wakeups(ws: seq<Wakeup>, log0: seq<Firing>, log: seq<Firing>) {
    && (forall j {:trigger WokeUp(ws[j])} :: 0 <= j < |ws| ==> WokeUp(ws[j]))
    && (forall i, j {:trigger Follows(ws[i], ws[j])} :: 0 <= i < |ws| && j == i + 1 < |ws| ==> Follows(ws[i], ws[j]))
    && if ws == [] then log == log0
       else ws[0].n0 == |log0| && log0 <= ws[0].log <= log && ws[|ws| - 1].log == log
  }

  lemma OneMoreWakeup(ws: seq<Wakeup>, w: Wakeup, log0: seq<Firing>)
    requires WokeUp(w) && if ws == [] then log0 <= w.log && w.n0 == |log0|
                          else Wakeups(ws, log0, ws[|ws| - 1].log) && Follows(ws[|ws| - 1], w)
    ensures Wakeups(ws + [w], log0, w.log)
  {
    var all := ws + [w];
    forall j | 0 <= j < |all| ensures WokeUp(all[j]) { assert j < |ws| ==> WokeUp(ws[j]); }
    forall i, j | 0 <= i < |all| && j == i + 1 < |all| ensures Follows(all[i], all[j]) {
      assert j < |ws| ==> Follows(ws[i], ws[j]);
    }
  }

  /** What was due before the first wake-up fired in it. */
  lemma DueHaveFired(ws: seq<Wakeup>, log0: seq<Firing>, log: seq<Firing>, pending: set<Timer>, times: map<Timer, int>,
                     clock: int)
    requires ws != [] && Wakeups(ws, log0, log) && Finds(ws[0], pending, times, clock)
    ensures forall t :: t in pending && times[t] <= clock ==> FiredSince(log, |log0|, t)
  {
    var w := ws[0];
    assert WokeUp(w);
    forall t | t in pending && times[t] <= clock ensures FiredSince(log, |log0|, t) {
      assert t in w.fired && FiredWhenDue(w.log, w.n0, t, w.was[t]);
      var i :| w.n0 <= i < |w.log| && w.log[i].timer == t && w.log[i].deadline == w.was[t];
      assert log[i].timer == t;
    }
  }

  class TimerThread {
    const clock: Clock
    var staging: seq<Timer>
    var heap: seq<Timer>
    var handled: seq<(Timer, int)>  // what the handlers were given, with its deadline
    ghost var pending: set<Timer>   // scheduled, and yet to fire
    ghost var done: set<Timer>      // fired for the last time
    ghost var log: seq<Firing>

    /** Every pending timer is in one place: the staging queue, the heap, or in hand. */
    ghost predicate Placed(hand: multiset<Timer>)
      reads this, heap
    {
      multiset(staging) + multiset(heap) + hand == multiset(pending) && Heaped(heap, |heap|)
    }

    /** What is pending and what was fired agree. */
    ghost predicate Kept()
      reads this, clock, pending
    {
      && (forall t :: t in pending ==> t.time >= t.due && (t.period.Some? ==> t.period.value >= 0))
      && (forall t :: t in done ==> t !in pending && (t.period.None? || Zero(t)))
      && (forall i :: 0 <= i < |log| ==> Settled(log[i]))
    }

    /** Handled when due or later, and, if the timer is to fire again, one period before that. */
    ghost predicate Settled(f: Firing)
      reads this, clock, pending
    {
      && f.timer.due <= f.deadline <= f.at <= clock.now
      && (f.timer in pending ==> f.timer.period.Some? && f.at + f.timer.period.value <= f.timer.time)
      && (f.timer !in pending ==> f.timer in done)
    }

    /** A one-shot timer fires once, a periodic one again after a period or more. */
    ghost predicate Spaced()
      reads this
    {
      forall i, j :: 0 <= i < j < |log| && log[i].timer == log[j].timer ==>
        log[i].timer.period.Some? && log[i].at + log[i].timer.period.value <= log[j].at
    }

    /** Each finished timer has fired. */
    ghost predicate Answered()
      reads this
    {
      forall t :: t in done ==> FiredSince(log, 0, t)
    }

    ghost predicate Valid()
      reads this, clock, pending, heap
    {
      Placed(multiset{}) && Kept() && Spaced() && Answered() && Told(handled, log)
    }

    constructor (clock: Clock)
      ensures Valid() && this.clock == clock && pending == {} && done == {} && log == []
    {
      this.clock := clock;
      staging, heap, handled, pending, done, log := [], [], [], {}, {}, [];
    }

    method InsertInHeap(t: Timer)
      requires Heaped(heap, |heap|)
      modifies this`heap
      ensures Heaped(heap, |heap|) && multiset(heap) == old(multiset(heap)) + multiset{t}
    {
      heap := heap + [t];
      heap := PushHeap(heap);
    }

    method RemoveFromHeap() returns (t: Timer)
      requires heap != [] && Heaped(heap, |heap|)
      modifies this`heap
      ensures Heaped(heap, |heap|) && t == old(heap[0]) && multiset(heap) + multiset{t} == old(multiset(heap))
    {
      heap := PopHeap(heap);
      t := heap[|heap| - 1];
      ghost var whole := heap;
      heap := heap[..|heap| - 1];
      assert whole == heap + [t];
    }

    method ScheduleTimer(t: Timer, ghost hand: multiset<Timer> := multiset{})
      requires Placed(hand) && Kept() && Spaced() && Answered()
      requires NewTimer(t) && t !in pending && t !in done && forall i :: 0 <= i < |log| ==> log[i].timer != t
      modifies this`staging, this`pending
      ensures Placed(hand) && Kept() && Spaced() && Answered()
      ensures staging == old(staging) + [t] && pending == old(pending) + {t}
    {
      OneMore(pending, t);
      staging := staging + [t];
      pending := pending + {t};
    }

    /** The staging queue is emptied into the heap, last come first. */
    method Drain()
      requires Valid()
      modifies this`staging, this`heap
      ensures Valid() && staging == []
    {
      while staging != []
        invariant Placed(multiset{})
        decreases |staging|
      {
        var t := staging[|staging| - 1];
        ghost var whole := staging;
        InsertInHeap(t);
        staging := staging[..|staging| - 1];
        assert whole == staging + [t];
      }
    }

    /** Any number of new timers is scheduled, by a handler or by other threads. */
    method Arrivals(ghost hand: multiset<Timer> := multiset{})
      requires Placed(hand) && Kept() && Spaced() && Answered()
      modifies this`staging, this`pending
      ensures Placed(hand) && Kept() && Spaced() && Answered()
      ensures old(pending) <= pending && forall u :: u in pending && u !in old(pending) ==> fresh(u) && NewTimer(u)
    {
      var n: nat :| n >= 0;
      for i := 0 to n
        invariant Placed(hand) && Kept() && Spaced() && Answered()
        invariant old(pending) <= pending && forall u :: u in pending && u !in old(pending) ==> fresh(u) && NewTimer(u)
      {
        var due: int := *;
        var period: Option<int> :| period.Some? ==> period.value >= 0;
        var u := new Timer(due, period);
        ScheduleTimer(u, hand);
      }
    }

    /** A block's handler: it takes its time, and may schedule new timers. */
    method HandleTimer(t: Timer, ghost hand: multiset<Timer>) returns (ghost at: int)
      requires Placed(hand) && Kept() && Spaced() && Answered()
      modifies this`staging, this`pending, this`handled, clock
      ensures Placed(hand) && Kept() && Spaced() && Answered() && handled == old(handled) + [(t, t.time)]
      ensures old(clock.now) <= at <= clock.now
      ensures old(pending) <= pending && forall u :: u in pending && u !in old(pending) ==> fresh(u) && NewTimer(u)
    {
      at := clock.Now();
      handled := handled + [(t, t.time)];
      Arrivals(hand);
    }

    /** The timer in hand gets its next time, and goes back into the heap if that is another one. */
    method Reschedule(t: Timer, ttmp: int)
      requires Heaped(heap, |heap|) && t in pending
      requires multiset(staging) + multiset(heap) == multiset(pending - {t}) && t.time == ttmp
      modifies this`heap, this`pending, this`done, clock, t
      ensures Placed(multiset{}) && old(clock.now) <= clock.now
      ensures t.time != ttmp ==>
                pending == old(pending) && done == old(done) && multiset(heap) == old(multiset(heap)) + multiset{t}
      ensures t.time == ttmp ==> pending == old(pending) - {t} && done == old(done) + {t} && heap == old(heap)
      ensures if t.period.Some? then old(clock.now) <= t.time - t.period.value <= clock.now else t.time == ttmp
    {
      assert t !in multiset(staging) + multiset(heap);
      OneMore(pending - {t}, t);
      assert pending == pending - {t} + {t};
      t.NextTime(clock);
      if t.time != ttmp {
        InsertInHeap(t);
      } else {
        pending := pending - {t};
        done := done + {t};
      }
    }

    /** The root is due: it is handled and rescheduled. */
    method ServeRoot(tnow: int) returns (t: Timer, ttmp: int, ghost at: int)
      requires Valid() && heap != [] && heap[0].time <= tnow <= clock.now
      modifies this`staging, this`heap, this`pending, this`done, this`handled, clock, heap[0]
      ensures Placed(multiset{}) && t == old(heap[0]) && t in old(pending) && ttmp == old(t.time)
      ensures old(clock.now) <= at <= clock.now && handled == old(handled) + [(t, ttmp)]
      ensures if t.period.Some? then at <= t.time - t.period.value <= clock.now else t.time == ttmp
      ensures t in pending <==> t.time != ttmp
      ensures done == old(done) + if t.time != ttmp then {} else {t}
      ensures old(pending) - {t} <= pending
      ensures multiset(heap) + (if t.time != ttmp then multiset{} else multiset{t}) == old(multiset(heap))
      ensures forall u :: u in pending && u !in old(pending) ==> fresh(u) && NewTimer(u)
    {
      t := RemoveFromHeap();
      OneLess(pending, t, multiset(staging) + multiset(heap));
      at := HandleTimer(t, multiset{t});
      OneLess(pending, t, multiset(staging) + multiset(heap));
      ttmp := t.time;
      Reschedule(t, ttmp);
    }

    ghost predicate NewTimer(u: Timer)
      reads u
    {
      u.time == u.due && (u.period.Some? ==> u.period.value >= 0)
    }

    /** In other words, the heap is as before but for the root's time, or for the root. */
    method PassRoot(tnow: int) returns (t: Timer, ttmp: int, ghost at: int)
      requires Valid() && heap != [] && heap[0].time <= tnow <= clock.now
      modifies this`staging, this`heap, this`pending, this`done, this`handled, clock, heap[0]
      ensures Placed(multiset{}) && Kept() && t == old(heap[0]) && t in old(pending) && ttmp == old(t.time)
      ensures handled == old(handled) + [(t, ttmp)]
      ensures old(clock.now) <= at <= clock.now && done == old(done) + if t.time != ttmp then {} else {t}
      ensures t in pending <==> t.time != ttmp
      ensures t.time != ttmp ==> t.period.Some? && at + t.period.value <= t.time && Past(t, ttmp, t.time, tnow)
      ensures t.period.Some? ==> at <= t.time - t.period.value <= clock.now
      ensures forall u :: u in heap <==> u in old(heap) && (u == t ==> t.time != ttmp)
      ensures old(pending) + old(done) <= pending + done && forall u :: u in pending && u !in old(pending) ==> fresh(u)
    {
      t, ttmp, at := ServeRoot(tnow);
      forall u ensures u in heap <==> u in old(heap) && (u == t ==> t.time != ttmp) {
        assert u in multiset(heap) <==> u in heap;
        assert u in multiset(old(heap)) <==> u in old(heap);
        assert u in multiset(heap) ==> u in multiset(pending);
      }
    }

    /** A served timer is where its fate says. */
    ghost predicate Meets(t: Timer, tnow: int, fate: Fate)
      reads this, t
    {
      match fate
      case Waits => t in heap && t.time > tnow
      case FiresAgain => t in heap && t.time <= tnow
      case Dropped => t !in heap && t in done
    }

    /** The body of the inner loop. */
    method FireNext(tnow: int)
      requires Valid() && heap != [] && heap[0].time <= tnow <= clock.now
      modifies this`staging, this`heap, this`pending, this`done, this`log, this`handled, clock, heap[0]
      ensures Valid()
      ensures var t := old(heap[0]);
              |log| == |old(log)| + 1 && log == old(log) + [Firing(t, old(t.time), log[|old(log)|].at)]
      ensures old(clock.now) <= log[|old(log)|].at <= clock.now
      ensures var t := old(heap[0]); forall u :: u in heap <==> u in old(heap) && (u == t ==> t.time != old(t.time))
      ensures var t := old(heap[0]); t.time != old(t.time) ==> Past(t, old(t.time), t.time, tnow)
      ensures var t, at := old(heap[0]), log[|old(log)|].at;
              t.period.Some? ==>
                var now := t.time - t.period.value;
                at <= now <= clock.now && Meets(t, tnow, FateOf(t.period.value, old(t.time), tnow, now))
      ensures old(pending) + old(done) <= pending + done && forall u :: u in pending && u !in old(pending) ==> fresh(u)
    {
      ghost var was := log;
      var t, ttmp, at := PassRoot(tnow);
      log := log + [Firing(t, ttmp, at)];
      forall u | u in done ensures FiredSince(log, 0, u) {
        if u != t { assert old(FiredSince(log, 0, u)); }
        OneMoreSince(was, log[|was|], u);
      }
    }

    ghost function HeapTimes(): map<Timer, int>
      reads this, heap
    {
      map u | u in heap :: u.time
    }

    method FireInRound(ghost n0: nat, ghost was: map<Timer, int>, tnow: int, ghost fired: set<Timer>)
      requires Valid() && RoundSoFar(log, n0, was, HeapTimes(), tnow, fired)
      requires heap != [] && heap[0].time <= tnow <= clock.now
      modifies this`staging, this`heap, this`pending, this`done, this`log, this`handled, clock, heap[0]
      ensures Valid() && RoundSoFar(log, n0, was, HeapTimes(), tnow, fired + {old(heap[0])})
      ensures Ahead(HeapTimes(), tnow) < old(Ahead(HeapTimes(), tnow))
      ensures tnow <= clock.now && was[old(heap[0])] <= tnow && old(log) <= log
      ensures old(pending) + old(done) <= pending + done && forall u :: u in pending && u !in old(pending) ==> fresh(u)
    {
      ghost var t, logged, now := heap[0], log, HeapTimes();
      forall u | u in heap ensures t.time <= u.time { var j :| 0 <= j < |heap| && heap[j] == u; RootIsFirst(heap, j); }
      FireNext(tnow);
      OneMoreFired(logged, log[|logged|], n0, was, now, HeapTimes(), tnow, fired);
      ServedIsAhead(now, HeapTimes(), t, tnow);
    }

    method FireAllDue(tnow: int, ghost n0: nat, ghost was: map<Timer, int>) returns (ghost fired: set<Timer>)
      requires Valid() && RoundSoFar(log, n0, was, HeapTimes(), tnow, {}) && tnow <= clock.now && was.Keys <= pending
      modifies this`staging, this`heap, this`pending, this`done, this`log, this`handled, clock, was.Keys
      ensures Valid() && tnow <= clock.now && old(log) <= log
      ensures RoundSoFar(log, n0, was, HeapTimes(), tnow, fired) && fired <= set u | u in was && was[u] <= tnow
      ensures heap != [] ==> heap[0].time > tnow
      ensures old(pending) + old(done) <= pending + done && forall u :: u in pending && u !in old(pending) ==> fresh(u)
    {
      fired := {};
      ghost var due := set u | u in was && was[u] <= tnow;
      while heap != [] && heap[0].time <= tnow
        invariant Valid() && tnow <= clock.now && old(log) <= log
        invariant fired <= due && RoundSoFar(log, n0, was, HeapTimes(), tnow, fired)
        invariant old(pending) + old(done) <= pending + done
        invariant forall u :: u in pending && u !in old(pending) ==> fresh(u)
        decreases Ahead(HeapTimes(), tnow)
      {
        ghost var t := heap[0];
        FireInRound(n0, was, tnow, fired);
        fired := fired + {t};
      }
    }

    /** The staging queue is emptied and the clock is sampled. */
    method WakeUp() returns (tnow: int, ghost was: map<Timer, int>)
      requires Valid()
      modifies this`staging, this`heap, clock
      ensures Valid() && old(clock.now) <= tnow == clock.now && was == map u | u in pending :: u.time
      ensures RoundSoFar(log, |log|, was, HeapTimes(), tnow, {})
    {
      Drain();
      tnow := clock.Now();
      was := map u | u in pending :: u.time;
      forall u ensures u in pending <==> u in heap { assert u in multiset(heap) <==> u in multiset(pending); }
    }

    /** With the root not due, no timer in the heap is, so all that were due have fired. */
    lemma NoneDue(n0: nat, was: map<Timer, int>, tnow: int, fired: set<Timer>)
      requires Heaped(heap, |heap|) && (heap != [] ==> heap[0].time > tnow)
      requires TimesSoFar(log, n0, was, HeapTimes(), tnow, fired)
      ensures forall u :: u in heap ==> u.time > tnow
      ensures forall u :: u in was && was[u] <= tnow ==> u in fired
    {
      forall u | u in heap ensures u.time > tnow { var j :| 0 <= j < |heap| && heap[j] == u; RootIsFirst(heap, j); }
    }

    /** One wake-up: of all timers that were pending, staged ones included, exactly those due at the time
        sampled fire, in the order of their deadlines, each once (but for periods of zero); none due is left
        in the heap. */
    method Round() returns (tnow: int, ghost was: map<Timer, int>, ghost fired: set<Timer>)
      requires Valid()
      modifies this`staging, this`heap, this`pending, this`done, this`log, this`handled, clock, pending
      ensures Valid() && old(clock.now) <= tnow <= clock.now && old(log) <= log
      ensures was.Keys == old(pending) && forall u :: u in old(pending) ==> was[u] == old(u.time)
      ensures RoundSoFar(log, |old(log)|, was, HeapTimes(), tnow, fired) && fired == set u | u in was && was[u] <= tnow
      ensures forall u :: u in heap ==> u.time > tnow
      ensures old(pending) + old(done) <= pending + done && forall u :: u in pending && u !in old(pending) ==> fresh(u)
    {
      ghost var n0 := |log|;
      tnow, was := WakeUp();
      fired := FireAllDue(tnow, n0, was);
      NoneDue(n0, was, tnow, fired);
    }

    /** Timers arrive, then one wake-up; w is its record. */
    method RunOnce() returns (ghost w: Wakeup)
      requires Valid()
      modifies this`staging, this`heap, this`pending, this`done, this`log, this`handled, clock, pending
      ensures Valid() && old(log) <= log && old(pending) + old(done) <= pending + done
      ensures forall u :: u in pending && u !in old(pending) ==> fresh(u)
      ensures WokeUp(w) && w.log == log && w.n0 == |old(log)| && w.now == HeapTimes()
      ensures old(clock.now) <= w.tnow <= clock.now
      ensures forall u :: u in old(pending) ==> u in w.was && w.was[u] == old(u.time)
      ensures forall u :: u in old(HeapTimes()) ==> u in w.was && w.was[u] == old(HeapTimes())[u]
    {
      forall u | u in heap ensures u in pending { assert u in multiset(heap) && u in multiset(pending); }
      Arrivals();
      ghost var n0 := |log|;
      ghost var tnow, was, fired := Round();
      w := Wakeup(log, n0, was, HeapTimes(), tnow, fired);
    }

    /** Any number of wake-ups, with any timers scheduled by other threads in between: each of them fires
        exactly what is due, nothing fires outside of them, and what one leaves in the heap the next one
        finds there. */
    method Run(rounds: nat) returns (ghost ws: seq<Wakeup>)
      requires Valid()
      modifies this`staging, this`heap, this`pending, this`done, this`log, this`handled, clock, pending
      ensures Valid() && old(log) <= log && old(pending) + old(done) <= pending + done
      ensures |ws| == rounds && Wakeups(ws, old(log), log)
      ensures rounds > 0 ==>
                forall t :: t in old(pending) && old(t.time) <= old(clock.now) ==> FiredSince(log, |old(log)|, t)
    {
      ghost var first, times, start := pending, map t | t in pending :: t.time, clock.now;
      ws := [];
      for i := 0 to rounds
        invariant Valid() && old(log) <= log && old(pending) + old(done) <= pending + done
        invariant forall u :: u in pending && u !in old(pending) ==> fresh(u)
        invariant |ws| == i && Wakeups(ws, old(log), log) && (i > 0 ==> Leaves(ws[i - 1], HeapTimes(), clock.now))
        invariant if i > 0 then Finds(ws[0], first, times, start)
                  else pending == first && clock.now == start && forall t :: t in first ==> t.time == times[t]
      {
        ghost var w := RunOnce();
        OneMoreWakeup(ws, w, old(log));
        ws := ws + [w];
      }
      if rounds > 0 { DueHaveFired(ws, old(log), log, first, times, start); }
    }
  }
}
