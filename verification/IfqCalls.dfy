/** What the calls on the send queue answer, over every run of the driver and any number of senders:
    from the first event of a call to its return.
 */
module IfqCalls {
  import opened Wrappers
  import opened IfqProtocol

  lemma StepKeeps(s: State, e: Event)
    requires Control(s) && Ordered(s) && Enabled(s, e)
    ensures Control(Next(s, e)) && Ordered(Next(s, e))
  {
    hide Control, Ordered;
    ControlStep(s, e);
    OrderedStep(s, e);
  }

  // ---------------------------------------------------------------- the driver

  /** The first state of the run in which the driver is in no call, if there is one. */
  function DriverReturn(s: State, es: seq<Event>): (d: Option<State>)
    requires IsRun(s, es)
    ensures d.Some? ==> d.value.driver.Idle?
    decreases |es|
  {
    if s.driver.Idle? then Some(s) else if es == [] then None else DriverReturn(Next(s, es[0]), es[1..])
  }

  /** Some state up to the driver's return has both queues empty. */
  predicate SomeEmpty(s: State, es: seq<Event>)
    requires IsRun(s, es)
    decreases |es|
  {
    Combined(s) == [] || (!s.driver.Idle? && es != [] && SomeEmpty(Next(s, es[0]), es[1..]))
  }

  /** What a reply says of the packets that have left since `before`. */
  predicate Honest(r: Reply, before: seq<Exit>, gone: seq<Exit>)
  {
    match r
    case NoReply => false
    case Null => gone == before
    case Took(p) => gone == before + [Delivered(p)]
  }

  function Limit(s: State): int { if s.drvMaxlen < 0 then 0 else s.drvMaxlen }

  /** The driver is in an IFQ_DRV_DEQUEUE that found its own queue empty; `seen` tells that both queues
      have been empty meanwhile. */
  predicate Dequeueing(s: State, before: seq<Exit>, seen: bool)
  {
    && |s.drv| <= Limit(s)
    && match s.driver
       case WantLock => s.gone == before && s.drv == []
       case First => s.gone == before && s.drv == []
       case Test(r) => Honest(r, before, s.gone) && (r.Null? ==> seen)
       case Pull(r) => Honest(r, before, s.gone) && (r.Null? ==> seen)
       case Push(r, _) => Honest(r, before, s.gone) && (r.Null? ==> seen)
       case Unlock(r) => Honest(r, before, s.gone) && (r.Null? ==> seen) && (s.main == [] || |s.drv| == Limit(s))
       case _ => false
  }

  predicate Dequeued(d: State, before: seq<Exit>, seen: bool)
  {
    && d.driver.Idle? && Honest(d.driver.last, before, d.gone) && (d.driver.last.Null? ==> seen)
    && |d.drv| <= Limit(d) && (d.main == [] || |d.drv| == Limit(d))
  }

  lemma DequeueingStep(s: State, e: Event, before: seq<Exit>, seen: bool)
    requires Control(s) && Enabled(s, e) && Dequeueing(s, before, seen)
    ensures var seen' := seen || Combined(s) == [];
      Dequeueing(Next(s, e), before, seen') || Dequeued(Next(s, e), before, seen')
  {
    hide LimitOk, DropsOk;
    if e.SenderStep? && s.senders[e.t].Store? {
      assert s.lock == Sender(e.t);
    }
  }

  lemma DequeueingBusy(s: State, before: seq<Exit>, seen: bool)
    requires Dequeueing(s, before, seen)
    ensures !s.driver.Idle?
  {
  }

  lemma {:induction false} DequeueRun(s: State, es: seq<Event>, before: seq<Exit>, seen: bool)
    requires Control(s) && Ordered(s) && IsRun(s, es) && Dequeueing(s, before, seen)
    ensures DriverReturn(s, es).Some? ==> Dequeued(DriverReturn(s, es).value, before, seen || SomeEmpty(s, es))
    ensures DriverReturn(s, es).Some? ==> Ordered(DriverReturn(s, es).value)
    decreases |es|
  {
    hide Control, Ordered, Dequeueing, Dequeued, Next, Combined;
    DequeueingBusy(s, before, seen);
    if es != [] {
      var d, seen' := Next(s, es[0]), seen || Combined(s) == [];
      StepKeeps(s, es[0]);
      DequeueingStep(s, es[0], before, seen);
      if Dequeueing(d, before, seen') {
        DequeueRun(d, es[1..], before, seen');
      } else {
        DequeuedIdle(d, before, seen', seen || SomeEmpty(s, es));
        assert DriverReturn(d, es[1..]) == Some(d);
      }
    }
  }

  lemma DequeuedIdle(d: State, before: seq<Exit>, seen: bool, seen': bool)
    requires Dequeued(d, before, seen) && (seen ==> seen')
    ensures d.driver.Idle? && Dequeued(d, before, seen')
  {
  }

  /** IFQ_DRV_DEQUEUE, from the call to the return, in every run.  It hands over a packet exactly if that
      packet, and nothing else, has left the queues, and the packet is the oldest accepted one that
      had not left; it answers NULL exactly if nothing has left, and then both queues were empty at
      some moment of the call.  If it had to go to the main queue it has filled the driver queue
      to its limit, or left the main queue empty. */
  lemma DequeueAnswers(s: State, es: seq<Event>)
    requires Reachable(s) && Enabled(s, DrvDequeue) && IsRun(Next(s, DrvDequeue), es)
    ensures var d := DriverReturn(Next(s, DrvDequeue), es);
      d.Some? ==>
        && !d.value.driver.last.NoReply?
        && (d.value.driver.last == Null <==> d.value.gone == s.gone)
        && (forall p :: d.value.driver.last == Took(p) <==> d.value.gone == s.gone + [Delivered(p)])
        && (forall p :: d.value.driver.last == Took(p) ==> |s.gone| < |d.value.accepted| && d.value.accepted[|s.gone|] == p)
        && (d.value.driver.last == Null ==> SomeEmpty(Next(s, DrvDequeue), es))
        && (s.drv == [] ==> |d.value.drv| <= Limit(s) && (d.value.main == [] || |d.value.drv| == Limit(s)))
  {
    hide Reachable;
    ReachableFacts(s, 0);
    var s1 := Next(s, DrvDequeue);
    StepKeeps(s, DrvDequeue);
    if s.drv == [] {
      hide Control, Ordered, SomeEmpty;
      DequeueRun(s1, es, s.gone, false);
      LimitStays(s1, es);
    }
    var d := DriverReturn(s1, es);
    if d.Some? && d.value.driver.last.Took? { NextAccepted(d.value, s.gone, d.value.driver.last.m); }
  }

  lemma NextAccepted(d: State, before: seq<Exit>, p: Pkt)
    requires Ordered(d) && d.gone == before + [Delivered(p)]
    ensures |before| < |d.accepted| && d.accepted[|before|] == p
  {
  }

  lemma {:induction false} LimitStays(s: State, es: seq<Event>)
    requires IsRun(s, es)
    ensures DriverReturn(s, es).Some? ==> Limit(DriverReturn(s, es).value) == Limit(s)
    decreases |es|
  {
    if es != [] && !s.driver.Idle? { LimitStays(Next(s, es[0]), es[1..]); }
  }

  /** Everything that has left since `before` was purged. */
  predicate OnlyPurges(before: seq<Exit>, gone: seq<Exit>)
  {
    before <= gone && forall i | |before| <= i < |gone| :: gone[i].Purged?
  }

  predicate Purging(s: State, before: seq<Exit>)
  {
    (s.driver.PurgeLock? || s.driver.PurgeLoop? || s.driver.PurgeUnlock?) && OnlyPurges(before, s.gone)
  }

  predicate PurgeDone(d: State, before: seq<Exit>)
  {
    d.driver == Idle(NoReply) && Combined(d) == [] && OnlyPurges(before, d.gone)
  }

  lemma PurgingStep(s: State, e: Event, before: seq<Exit>)
    requires Control(s) && Enabled(s, e) && Purging(s, before)
    ensures Purging(Next(s, e), before) || PurgeDone(Next(s, e), before)
  {
    hide Locking, LimitOk, DropsOk;
  }

  lemma {:induction false} PurgeRun(s: State, es: seq<Event>, before: seq<Exit>)
    requires Control(s) && Ordered(s) && IsRun(s, es) && Purging(s, before)
    ensures var d := DriverReturn(s, es); d.Some? ==> PurgeDone(d.value, before) && Ordered(d.value)
    decreases |es|
  {
    assert !s.driver.Idle?;
    hide Control, Ordered, Next, OnlyPurges;
    if es != [] {
      var d := Next(s, es[0]);
      StepKeeps(s, es[0]);
      PurgingStep(s, es[0], before);
      if Purging(d, before) {
        PurgeRun(d, es[1..], before);
      } else {
        assert DriverReturn(d, es[1..]) == Some(d);
      }
    }
  }

  /** IFQ_DRV_PURGE, from the call to the return, in every run: whatever had been accepted and had not
      left is freed, in order and by this call alone, and both queues are empty at the return. */
  lemma PurgeAnswers(s: State, es: seq<Event>)
    requires Reachable(s) && Enabled(s, DrvPurge) && IsRun(Next(s, DrvPurge), es)
    ensures var d := DriverReturn(Next(s, DrvPurge), es);
      d.Some? ==> PurgeDone(d.value, s.gone) && d.value.accepted == Pkts(d.value.gone)
  {
    hide Reachable;
    ReachableFacts(s, 0);
    StepKeeps(s, DrvPurge);
    hide Control;
    PurgeRun(Next(s, DrvPurge), es, s.gone);
  }

  // ---------------------------------------------------------------- the senders

  /** The first state of the run in which sender `t` holds the lock, if there is one. */
  function FirstLocked(s: State, es: seq<Event>, t: nat): Option<State>
    requires IsRun(s, es)
    decreases |es|
  {
    if s.lock == Sender(t) then Some(s) else if es == [] then None else FirstLocked(Next(s, es[0]), es[1..], t)
  }

  /** The first state of the run in which sender `t` is in no call, if there is one. */
  function SenderReturn(s: State, es: seq<Event>, t: nat): Option<State>
    requires IsRun(s, es) && t < |s.senders|
    decreases |es|
  {
    if s.senders[t].Out? then Some(s) else if es == [] then None else SenderReturn(Next(s, es[0]), es[1..], t)
  }

  predicate Untouched(b: State, s: State)
  {
    s.main == b.main && s.maxlen == b.maxlen && s.accepted == b.accepted && s.rejected == b.rejected && s.drops == b.drops
  }

  predicate Appended(b: State, s: State, m: Pkt)
  {
    && |b.main| < b.maxlen && s.main == b.main + [m] && s.accepted == b.accepted + [m]
    && s.rejected == b.rejected && s.drops == b.drops
  }

  predicate Refused(b: State, s: State, m: Pkt, drops: nat)
  {
    && |b.main| >= b.maxlen && s.main == b.main && s.accepted == b.accepted
    && s.rejected == b.rejected + [m] && s.drops == b.drops + drops
  }

  /** Sender `t`, with packet `m`, has the lock, which it got in state `b`. */
  predicate Deciding(b: State, s: State, t: nat, m: Pkt)
  {
    && t < |s.senders| && s.lock == Sender(t)
    && match s.senders[t]
       case Full(p) => p == m && Untouched(b, s)
       case Store(p) => p == m && Untouched(b, s) && |b.main| < b.maxlen
       case Free(p) => p == m && Untouched(b, s) && |b.main| >= b.maxlen
       case Drop => Refused(b, s, m, 0)
       case Leave => Appended(b, s, m) || Refused(b, s, m, 1)
       case _ => false
  }

  predicate Decided(b: State, d: State, t: nat, m: Pkt)
  {
    t < |d.senders| && d.senders[t].Out? && (Appended(b, d, m) || Refused(b, d, m, 1))
  }

  lemma DecidingStep(b: State, s: State, e: Event, t: nat, m: Pkt)
    requires Control(s) && Enabled(s, e) && Deciding(b, s, t, m)
    ensures Deciding(b, Next(s, e), t, m) || Decided(b, Next(s, e), t, m)
  {
    hide DriverOk, LimitOk, DropsOk;
  }

  lemma {:induction false} DecidingRun(b: State, s: State, es: seq<Event>, t: nat, m: Pkt)
    requires Control(s) && IsRun(s, es) && t < |s.senders| && Deciding(b, s, t, m)
    ensures var d := SenderReturn(s, es, t); d.Some? ==> Decided(b, d.value, t, m)
    decreases |es|
  {
    assert !s.senders[t].Out?;
    hide Control, Next, Deciding, Decided;
    if es != [] {
      var d := Next(s, es[0]);
      ControlStep(s, es[0]);
      DecidingStep(b, s, es[0], t, m);
      if Deciding(b, d, t, m) {
        DecidingThread(b, d, t, m);
        DecidingRun(b, d, es[1..], t, m);
      } else {
        DecidedThread(b, d, t, m);
        assert SenderReturn(d, es[1..], t) == Some(d);
      }
    }
  }

  lemma DecidingThread(b: State, s: State, t: nat, m: Pkt)
    requires Deciding(b, s, t, m)
    ensures t < |s.senders| && !s.senders[t].Out?
  {
  }

  lemma DecidedThread(b: State, d: State, t: nat, m: Pkt)
    requires Decided(b, d, t, m)
    ensures t < |d.senders| && d.senders[t].Out?
  {
  }

  /** A sender that waits goes on waiting until it has the lock. */
  lemma WaitingStep(s: State, e: Event, t: nat, m: Pkt)
    requires Control(s) && Enabled(s, e) && t < |s.senders| && s.senders[t] == Lock(m) && s.lock != Sender(t)
    ensures var d := Next(s, e);
      && |d.senders| == |s.senders|
      && if e == SenderStep(t) then Deciding(d, d, t, m) else d.senders[t] == Lock(m) && d.lock != Sender(t)
  {
    hide DriverOk, LimitOk, DropsOk;
  }

  lemma {:induction false} WaitingRun(s: State, es: seq<Event>, t: nat, m: Pkt)
    requires Control(s) && IsRun(s, es) && t < |s.senders| && s.senders[t] == Lock(m) && s.lock != Sender(t)
    ensures var d := SenderReturn(s, es, t);
      d.Some? ==> FirstLocked(s, es, t).Some? && Decided(FirstLocked(s, es, t).value, d.value, t, m)
    decreases |es|
  {
    hide Control, Next, Decided;
    if es != [] {
      var d := Next(s, es[0]);
      ControlStep(s, es[0]);
      WaitingStep(s, es[0], t, m);
      if es[0] == SenderStep(t) {
        DecidingRun(d, d, es[1..], t, m);
        assert FirstLocked(d, es[1..], t) == Some(d);
      } else {
        WaitingRun(d, es[1..], t, m);
      }
    }
  }

  /** IFQ_ENQUEUE, from the call to the return, in every run: the packet is rejected, freed and counted as
      one drop exactly if the main queue was at its limit when the call got the lock, and is
      appended to it, as the one change made to the queue, otherwise. */
  lemma EnqueueAnswers(s: State, t: nat, m: Pkt, es: seq<Event>)
    requires Reachable(s) && Enabled(s, Offer(t, m)) && IsRun(Next(s, Offer(t, m)), es)
    ensures var s1 := Next(s, Offer(t, m));
      var d := SenderReturn(s1, es, t);
      d.Some? ==> FirstLocked(s1, es, t).Some? && Decided(FirstLocked(s1, es, t).value, d.value, t, m)
  {
    hide Reachable;
    ReachableFacts(s, 0);
    hide Ordered, Conserved;
    ControlStep(s, Offer(t, m));
    WaitingRun(Next(s, Offer(t, m)), es, t, m);
  }

  /** Steps from here to the unlock. */
  function SenderLeft(pc: SenderPc): nat
  {
    match pc
    case Full(_) => 4
    case Free(_) => 3
    case Drop => 2
    case Store(_) => 2
    case Leave => 1
    case _ => 0
  }

  /** The senders' critical section ends: the holder can always step, each of its steps brings the unlock
      nearer, and nobody else puts it off. */
  lemma SenderSectionTerminates(s: State, e: Event, t: nat)
    requires Reachable(s) && Enabled(s, e) && s.lock == Sender(t)
    ensures t < |s.senders| && Enabled(s, SenderStep(t))
    ensures var d := Next(s, e);
      && |d.senders| == |s.senders|
      && if e == SenderStep(t) then d.lock == Nobody || SenderLeft(d.senders[t]) < SenderLeft(s.senders[t])
         else d.lock == Sender(t) && d.senders[t] == s.senders[t]
  {
    hide Reachable, DriverOk, LimitOk, DropsOk, Ordered, Conserved;
    ReachableFacts(s, 0);
  }

  /** No deadlock: while anyone is in a call, someone who is can step. */
  lemma SomeoneCanStep(s: State, busy: Event) returns (e: Event)
    requires Reachable(s)
    requires (busy.DriverStep? && !s.driver.Idle?) || (busy.SenderStep? && busy.t < |s.senders| && !s.senders[busy.t].Out?)
    ensures (e.DriverStep? || e.SenderStep?) && Enabled(s, e)
  {
    hide Reachable, DriverOk, LimitOk, DropsOk, Ordered, Conserved;
    ReachableFacts(s, 0);
    e := match s.lock case Nobody => busy case Driver => DriverStep case Sender(t) => SenderStep(t);
  }
}
