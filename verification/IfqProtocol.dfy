/** The send queue of net/if_var.h under concurrency: one driver thread, any number of threads in
    IFQ_ENQUEUE, and the queue's mutex.  Packets are values here; how the lists hold them is module
    IfQueue.  Steps are as fine as the lock allows others to notice.
 */
module IfqProtocol {
  import opened Wrappers

  type Pkt = nat

  /** Who holds ifq_mtx. */
  datatype Holder = Nobody | Driver | Sender(t: nat)

  /** What the driver's last call gave it. */
  datatype Reply = NoReply | Null | Took(m: Pkt)

  /** The driver thread: IFQ_DRV_DEQUEUE from the point where it found its own queue empty, and
      IFQ_DRV_PURGE from the point where it has freed its own queue. */
  datatype DriverPc =
    | Idle(last: Reply)
    | WantLock
    | First
    | Test(r: Reply)
    | Pull(r: Reply)
    | Push(r: Reply, m0: Pkt)
    | Unlock(r: Reply)
    | PurgeLock
    | PurgeLoop
    | PurgeUnlock

  /** A thread in IFQ_ENQUEUE. */
  datatype SenderPc =
    | Out
    | Lock(m: Pkt)
    | Full(m: Pkt)
    | Store(m: Pkt)
    | Free(m: Pkt)
    | Drop
    | Leave

  /** A packet that has left the queues for good: handed to the driver or freed by a purge. */
  datatype Exit = Delivered(m: Pkt) | Purged(m: Pkt)

  datatype State = State(
    lock: Holder,
    main: seq<Pkt>,
    drv: seq<Pkt>,
    maxlen: int,
    drvMaxlen: int,
    drops: nat,
    driver: DriverPc,
    senders: seq<SenderPc>,
    // history
    offered: seq<Pkt>,
    accepted: seq<Pkt>,
    rejected: seq<Pkt>,
    gone: seq<Exit>)

  datatype Event =
    | DrvDequeue
    | DrvPrepend
    | DrvPurge
    | DriverStep
    | Offer(t: nat, m: Pkt)
    | SenderStep(t: nat)

  predicate Enabled(s: State, e: Event)
  {
    match e
    case DrvDequeue => s.driver.Idle?
    case DrvPrepend => s.driver.Idle? && s.driver.last.Took?
    case DrvPurge => s.driver.Idle?
    case DriverStep => !s.driver.Idle? && (s.driver.WantLock? || s.driver.PurgeLock? ==> s.lock == Nobody)
    case Offer(t, _) => t < |s.senders| && s.senders[t].Out?
    case SenderStep(t) => t < |s.senders| && !s.senders[t].Out? && (s.senders[t].Lock? ==> s.lock == Nobody)
  }

  function Purges(q: seq<Pkt>): (r: seq<Exit>)
    ensures |r| == |q| && forall i | 0 <= i < |q| :: r[i] == Purged(q[i])
  {
    seq(|q|, i requires 0 <= i < |q| => Purged(q[i]))
  }

  /** One step of the driver inside a call. */
  function DriverNext(s: State): State
  {
    match s.driver
    case Idle(_) => s
    case WantLock => s.(lock := Driver, driver := First)
    case First =>
      if s.main == [] then s.(driver := Test(Null))
      else s.(main := s.main[1..], driver := Test(Took(s.main[0])), gone := s.gone + [Delivered(s.main[0])])
    case Test(r) => s.(driver := if |s.drv| < s.drvMaxlen then Pull(r) else Unlock(r))
    case Pull(r) =>
      if s.main == [] then s.(driver := Unlock(r))
      else s.(main := s.main[1..], driver := Push(r, s.main[0]))
    case Push(r, m0) => s.(drv := s.drv + [m0], driver := Test(r))
    case Unlock(r) => s.(lock := Nobody, driver := Idle(r))
    case PurgeLock => s.(lock := Driver, driver := PurgeLoop)
    case PurgeLoop =>
      if s.main == [] then s.(driver := PurgeUnlock)
      else s.(main := s.main[1..], gone := s.gone + [Purged(s.main[0])])
    case PurgeUnlock => s.(lock := Nobody, driver := Idle(NoReply))
  }

  /** One step of a thread inside IFQ_ENQUEUE. */
  function SenderNext(s: State, t: nat): State
    requires t < |s.senders|
  {
    match s.senders[t]
    case Out => s
    case Lock(m) => s.(lock := Sender(t), senders := s.senders[t := Full(m)])
    case Full(m) => s.(senders := s.senders[t := if |s.main| >= s.maxlen then Free(m) else Store(m)])
    case Store(m) => s.(main := s.main + [m], accepted := s.accepted + [m], senders := s.senders[t := Leave])
    case Free(m) => s.(rejected := s.rejected + [m], senders := s.senders[t := Drop])
    case Drop => s.(drops := s.drops + 1, senders := s.senders[t := Leave])
    case Leave => s.(lock := Nobody, senders := s.senders[t := Out])
  }

  function Next(s: State, e: Event): State
    requires Enabled(s, e)
  {
    match e
    case DrvDequeue =>
      if s.drv == [] then s.(driver := WantLock)
      else s.(drv := s.drv[1..], driver := Idle(Took(s.drv[0])), gone := s.gone + [Delivered(s.drv[0])])
    case DrvPrepend =>
      s.(drv := [s.driver.last.m] + s.drv, driver := Idle(NoReply),
         gone := if s.gone == [] then [] else s.gone[..|s.gone| - 1])
    case DrvPurge => s.(drv := [], driver := PurgeLock, gone := s.gone + Purges(s.drv))
    case DriverStep => DriverNext(s)
    case Offer(t, m) => s.(offered := s.offered + [m], senders := s.senders[t := Lock(m)])
    case SenderStep(t) => SenderNext(s, t)
  }

  predicate Init(s: State)
  {
    && s.lock == Nobody && s.main == [] && s.drv == [] && s.drops == 0 && s.driver == Idle(NoReply)
    && (forall t | 0 <= t < |s.senders| :: s.senders[t] == Out)
    && s.offered == [] && s.accepted == [] && s.rejected == [] && s.gone == []
  }

  predicate IsRun(s: State, es: seq<Event>)
    decreases |es|
  {
    es == [] || (Enabled(s, es[0]) && IsRun(Next(s, es[0]), es[1..]))
  }

  function After(s: State, es: seq<Event>): State
    requires IsRun(s, es)
    decreases |es|
  {
    if es == [] then s else After(Next(s, es[0]), es[1..])
  }

  // -------------------------------------------------------------- invariant

  predicate DriverLocked(pc: DriverPc)
  {
    pc.First? || pc.Test? || pc.Pull? || pc.Push? || pc.Unlock? || pc.PurgeLoop? || pc.PurgeUnlock?
  }

  predicate SenderLocked(pc: SenderPc)
  {
    !pc.Out? && !pc.Lock?
  }

  /** The packet the refill loop has taken off the main queue and not yet appended. */
  function Hand(pc: DriverPc): seq<Pkt>
  {
    if pc.Push? then [pc.m0] else []
  }

  /** The queue the driver sees: its own, the packet in transit, and the main one. */
  function Combined(s: State): seq<Pkt>
  {
    s.drv + Hand(s.driver) + s.main
  }

  function Pkts(gone: seq<Exit>): (r: seq<Pkt>)
    ensures |r| == |gone| && forall i | 0 <= i < |gone| :: r[i] == gone[i].m
  {
    seq(|gone|, i requires 0 <= i < |gone| => gone[i].m)
  }

  /** How often `p` occurs. */
  function Times(q: seq<Pkt>, p: Pkt): nat
  {
    if q == [] then 0 else Times(q[..|q| - 1], p) + (if q[|q| - 1] == p then 1 else 0)
  }

  function Held(pc: SenderPc, p: Pkt): nat
  {
    if (pc.Lock? || pc.Full? || pc.Store? || pc.Free?) && pc.m == p then 1 else 0
  }

  /** How many senders have offered `p` and not had the queue's answer. */
  function InFlight(ps: seq<SenderPc>, p: Pkt): nat
  {
    if ps == [] then 0 else InFlight(ps[..|ps| - 1], p) + Held(ps[|ps| - 1], p)
  }

  predicate Locking(s: State)
  {
    && (DriverLocked(s.driver) <==> s.lock == Driver)
    && (forall t | 0 <= t < |s.senders| :: SenderLocked(s.senders[t]) <==> s.lock == Sender(t))
    && (s.lock.Sender? ==> s.lock.t < |s.senders|)
  }

  predicate DriverOk(s: State)
  {
    DriverQueues(s) && DriverReply(s)
  }

  /** What the driver knows of the queues. */
  predicate DriverQueues(s: State)
  {
    && (s.driver.WantLock? || s.driver.First? || s.driver.PurgeLock? || s.driver.PurgeLoop? ==> s.drv == [])
    && (s.driver.PurgeUnlock? ==> s.drv == [] && s.main == [])
    && (s.driver.Pull? || s.driver.Push? ==> |s.drv| < s.drvMaxlen)
  }

  /** What its call is going to return, or has returned. */
  predicate DriverReply(s: State)
  {
    && (LastTook(s.driver).Some? ==> s.gone != [] && s.gone[|s.gone| - 1] == Delivered(LastTook(s.driver).value))
    && (LastNull(s.driver) && !s.driver.Idle? ==> Combined(s) == [])
  }

  /** The packet that the driver's current call is going to return, or its last call returned. */
  function LastTook(pc: DriverPc): Option<Pkt>
  {
    match pc
    case Idle(Took(m)) => Some(m)
    case Test(Took(m)) => Some(m)
    case Pull(Took(m)) => Some(m)
    case Push(Took(m), _) => Some(m)
    case Unlock(Took(m)) => Some(m)
    case _ => None
  }

  predicate LastNull(pc: DriverPc)
  {
    pc == Idle(Null) || pc == Test(Null) || pc == Pull(Null) || (pc.Push? && pc.r == Null) || pc == Unlock(Null)
  }

  predicate LimitOk(s: State)
  {
    && |s.main| <= (if s.maxlen < 0 then 0 else s.maxlen)
    && forall t | 0 <= t < |s.senders| :: s.senders[t].Store? ==> |s.main| < s.maxlen
  }

  predicate DropsOk(s: State)
  {
    |s.rejected| == s.drops + if s.lock.Sender? && s.lock.t < |s.senders| && s.senders[s.lock.t].Drop? then 1 else 0
  }

  /** Who may do what next. */
  predicate Control(s: State)
  {
    Locking(s) && DriverOk(s) && LimitOk(s) && DropsOk(s)
  }

  /** First in, first out: what was accepted is what has left, in order, followed by what is queued. */
  predicate Ordered(s: State)
  {
    s.accepted == Pkts(s.gone) + Combined(s)
  }

  /** Every offer of `p` is accepted, rejected or still in a sender's hands, once. */
  predicate Conserved(s: State, p: Pkt)
  {
    Times(s.offered, p) == Times(s.accepted, p) + Times(s.rejected, p) + InFlight(s.senders, p)
  }

  // ------------------------------------------------------------- proofs

  lemma {:induction false} InFlightUpdate(ps: seq<SenderPc>, t: nat, pc: SenderPc, p: Pkt)
    requires t < |ps|
    ensures InFlight(ps[t := pc], p) + Held(ps[t], p) == InFlight(ps, p) + Held(pc, p)
    decreases |ps|
  {
    var n := |ps| - 1;
    if t == n {
      assert ps[t := pc][..n] == ps[..n];
    } else {
      assert ps[t := pc][..n] == ps[..n][t := pc];
      InFlightUpdate(ps[..n], t, pc, p);
    }
  }

  lemma {:induction false} InFlightNone(ps: seq<SenderPc>, p: Pkt)
    requires forall t | 0 <= t < |ps| :: ps[t] == Out
    ensures InFlight(ps, p) == 0
    decreases |ps|
  {
    if ps != [] { InFlightNone(ps[..|ps| - 1], p); }
  }

  lemma TimesAppend(q: seq<Pkt>, m: Pkt, p: Pkt)
    ensures Times(q + [m], p) == Times(q, p) + if m == p then 1 else 0
  {
  }

  lemma InitHolds(s: State, p: Pkt)
    requires Init(s)
    ensures Control(s) && Ordered(s) && Conserved(s, p)
  {
    InFlightNone(s.senders, p);
  }

  lemma ConservedSender(s: State, t: nat, p: Pkt)
    requires Conserved(s, p) && Enabled(s, SenderStep(t))
    ensures Conserved(SenderNext(s, t), p)
  {
    hide Times, InFlight;
    InFlightUpdate(s.senders, t, SenderNext(s, t).senders[t], p);
    match s.senders[t] {
      case Store(m) => TimesAppend(s.accepted, m, p);
      case Free(m) => TimesAppend(s.rejected, m, p);
      case _ =>
    }
  }

  lemma ConservedStep(s: State, e: Event, p: Pkt)
    requires Conserved(s, p) && Enabled(s, e)
    ensures Conserved(Next(s, e), p)
  {
    hide Times, InFlight;
    match e {
      case Offer(t, m) =>
        TimesAppend(s.offered, m, p);
        InFlightUpdate(s.senders, t, Lock(m), p);
      case SenderStep(t) => ConservedSender(s, t, p);
      case _ =>
    }
  }

  lemma PktsAppend(gone: seq<Exit>, more: seq<Exit>)
    ensures Pkts(gone + more) == Pkts(gone) + Pkts(more)
  {
  }

  /** Taking the front of the combined queue moves one packet to the exits. */
  lemma TakeKeepsOrder(s: State, x: Exit, rest: seq<Pkt>)
    requires Ordered(s) && Combined(s) == [x.m] + rest
    ensures s.accepted == Pkts(s.gone + [x]) + rest
  {
  }

  lemma OrderedDriverStep(s: State)
    requires Control(s) && Ordered(s) && Enabled(s, DriverStep)
    ensures Ordered(DriverNext(s))
  {
    hide Locking, LimitOk, DropsOk;
    var s' := DriverNext(s);
    match s.driver {
      case First => if s.main != [] { TakeKeepsOrder(s, Delivered(s.main[0]), Combined(s')); }
      case PurgeLoop => if s.main != [] { TakeKeepsOrder(s, Purged(s.main[0]), Combined(s')); }
      case Pull(r) => assert Combined(s') == Combined(s);
      case Push(r, m0) => assert Combined(s') == Combined(s);
      case _ =>
    }
  }

  lemma OrderedPrepend(s: State)
    requires Control(s) && Ordered(s) && Enabled(s, DrvPrepend)
    ensures Ordered(Next(s, DrvPrepend))
  {
  }

  lemma OrderedPurge(s: State)
    requires Ordered(s) && Enabled(s, DrvPurge)
    ensures Ordered(Next(s, DrvPurge))
  {
    PktsAppend(s.gone, Purges(s.drv));
    assert Pkts(Purges(s.drv)) == s.drv;
  }

  lemma OrderedStep(s: State, e: Event)
    requires Control(s) && Ordered(s) && Enabled(s, e)
    ensures Ordered(Next(s, e))
  {
    hide Locking, LimitOk, DropsOk;
    var s' := Next(s, e);
    match e {
      case DrvDequeue => if s.drv != [] { TakeKeepsOrder(s, Delivered(s.drv[0]), Combined(s')); }
      case DrvPrepend => OrderedPrepend(s);
      case DrvPurge => OrderedPurge(s);
      case DriverStep => OrderedDriverStep(s);
      case Offer(t, m) =>
      case SenderStep(t) => if s.senders[t].Store? { assert Combined(s') == Combined(s) + [s.senders[t].m]; }
    }
  }

  lemma LockingDriverStep(s: State)
    requires Locking(s) && LimitOk(s) && DropsOk(s) && Enabled(s, DriverStep)
    ensures Locking(DriverNext(s)) && LimitOk(DriverNext(s)) && DropsOk(DriverNext(s))
  {
  }

  lemma QueuesDriverStep(s: State)
    requires DriverQueues(s) && Enabled(s, DriverStep)
    ensures DriverQueues(DriverNext(s))
  {
  }

  lemma ReplyDriverStep(s: State)
    requires DriverQueues(s) && DriverReply(s) && Enabled(s, DriverStep)
    ensures DriverReply(DriverNext(s))
  {
  }

  lemma ControlDriverStep(s: State)
    requires Control(s) && Enabled(s, DriverStep)
    ensures Control(DriverNext(s))
  {
    hide Locking, LimitOk, DropsOk, DriverQueues, DriverReply, DriverNext;
    LockingDriverStep(s);
    QueuesDriverStep(s);
    ReplyDriverStep(s);
  }

  lemma ControlSenderStep(s: State, t: nat)
    requires Control(s) && Enabled(s, SenderStep(t))
    ensures Control(SenderNext(s, t))
  {
  }

  lemma ControlStep(s: State, e: Event)
    requires Control(s) && Enabled(s, e)
    ensures Control(Next(s, e))
  {
    match e {
      case DriverStep => ControlDriverStep(s);
      case SenderStep(t) => ControlSenderStep(s, t);
      case _ =>
    }
  }

  lemma {:induction false} RunKeeps(s: State, es: seq<Event>, p: Pkt)
    requires Control(s) && Ordered(s) && Conserved(s, p) && IsRun(s, es)
    ensures Control(After(s, es)) && Ordered(After(s, es)) && Conserved(After(s, es), p)
    decreases |es|
  {
    hide Control, Ordered, Conserved;
    if es != [] {
      ControlStep(s, es[0]);
      OrderedStep(s, es[0]);
      ConservedStep(s, es[0], p);
      RunKeeps(Next(s, es[0]), es[1..], p);
    }
  }

  // ------------------------------------------------------------ what is promised

  ghost predicate Reachable(s: State)
  {
    exists s0: State, es: seq<Event> :: EndsAt(s0, es, s)
  }

  ghost predicate EndsAt(s0: State, es: seq<Event>, s: State)
  {
    Init(s0) && IsRun(s0, es) && After(s0, es) == s
  }

  lemma ReachableFacts(s: State, p: Pkt)
    requires Reachable(s)
    ensures Control(s) && Ordered(s) && Conserved(s, p)
  {
    hide Control, Ordered, Conserved;
    var s0, es :| EndsAt(s0, es, s);
    InitHolds(s0, p);
    RunKeeps(s0, es, p);
  }

  lemma {:induction false} TimesConcat(q: seq<Pkt>, r: seq<Pkt>, p: Pkt)
    ensures Times(q + r, p) == Times(q, p) + Times(r, p)
    decreases |r|
  {
    if r == [] {
      assert q + r == q;
    } else {
      var n := |r| - 1;
      TimesConcat(q, r[..n], p);
      assert (q + r)[..|q| + n] == q + r[..n];
    }
  }

  /** Conservation, for every packet and every reachable state: each offer is in exactly one place. */
  lemma EveryOfferInOnePlace(s: State, p: Pkt)
    requires Reachable(s)
    ensures Times(s.offered, p) ==
      Times(Pkts(s.gone), p) + Times(s.drv, p) + Times(Hand(s.driver), p) + Times(s.main, p)
      + Times(s.rejected, p) + InFlight(s.senders, p)
  {
    ReachableFacts(s, p);
    hide Control, Times, InFlight, Pkts, Hand;
    TimesConcat(Pkts(s.gone), Combined(s), p);
    TimesConcat(s.drv + Hand(s.driver), s.main, p);
    TimesConcat(s.drv, Hand(s.driver), p);
  }

  /** First in, first out, through both queues and whatever the prefetch limit: the accepted packets
      are those that have left, in the order in which they left, and then those still queued. */
  lemma FirstInFirstOut(s: State)
    requires Reachable(s)
    ensures s.accepted == Pkts(s.gone) + (s.drv + Hand(s.driver) + s.main)
  {
    ReachableFacts(s, 0);
  }

  /** The limit holds, and with no drop being counted the counter is the number of rejections. */
  lemma LimitAndDrops(s: State)
    requires Reachable(s)
    ensures |s.main| <= if s.maxlen < 0 then 0 else s.maxlen
    ensures (forall t | 0 <= t < |s.senders| :: !s.senders[t].Drop?) ==> s.drops == |s.rejected|
  {
    ReachableFacts(s, 0);
  }

  /** The step hands the driver a packet. */
  predicate Takes(s: State, e: Event)
  {
    (e.DrvDequeue? && s.drv != []) || (e.DriverStep? && s.driver.First? && s.main != [])
  }

  /** IFQ_DRV_DEQUEUE refines removal from one queue: the packet it hands over is the front of the
      combined queue, which loses exactly that packet, and a NULL means that the combined queue was
      empty at that moment. */
  lemma DequeueTakesFront(s: State, e: Event)
    requires Reachable(s) && Enabled(s, e)
    ensures Takes(s, e) ==>
      && Combined(s) != [] && Combined(Next(s, e)) == Combined(s)[1..]
      && LastTook(Next(s, e).driver) == Some(Combined(s)[0])
    ensures e.DriverStep? && s.driver.First? && !Takes(s, e) ==>
      Combined(s) == [] && Next(s, e).driver == Test(Null)
  {
    ReachableFacts(s, 0);
    hide Locking, LimitOk, DropsOk, Ordered, Conserved;
  }

  /** The driver's steps that are neither a take nor a purge, the refill among them, move packets
      between the queues without changing the combined one. */
  lemma RefillChangesNothing(s: State)
    requires Reachable(s) && Enabled(s, DriverStep) && !Takes(s, DriverStep) && !s.driver.PurgeLoop?
    ensures Combined(DriverNext(s)) == Combined(s)
  {
  }

  /** Of the other steps only an accepted enqueue and a prepend change it, one at each end. */
  lemma EnqueueAppends(s: State, e: Event)
    requires Enabled(s, e) && !e.DriverStep? && !e.DrvPurge? && !Takes(s, e)
    ensures e.Offer? || e.DrvDequeue? ==> Combined(Next(s, e)) == Combined(s)
    ensures e.SenderStep? ==>
      Combined(Next(s, e)) == Combined(s) + (if s.senders[e.t].Store? then [s.senders[e.t].m] else [])
    ensures e.DrvPrepend? ==> Combined(Next(s, e)) == [s.driver.last.m] + Combined(s)
  {
  }

  /** What is left of a critical section of the driver. */
  function Left(s: State): nat
  {
    match s.driver
    case First => 3 * |s.main| + 3
    case Test(_) => 3 * |s.main| + 2
    case Pull(_) => 3 * |s.main| + 1
    case Push(_, _) => 3 * |s.main| + 3
    case PurgeLoop => 3 * |s.main| + 1
    case _ => 0
  }

  /** The refill and the purge terminate: while the driver holds the lock its next step is possible,
      every one of its steps brings the end nearer or is the unlock, and nobody else's step puts
      it off. */
  lemma SectionTerminates(s: State, e: Event)
    requires Reachable(s) && Enabled(s, e) && s.lock == Driver
    ensures Enabled(s, DriverStep)
    ensures e.DriverStep? ==> Next(s, e).lock == Nobody || Left(Next(s, e)) < Left(s)
    ensures !e.DriverStep? ==> Next(s, e).lock == Driver && Left(Next(s, e)) == Left(s)
  {
    hide Reachable, DriverOk, LimitOk, DropsOk, Ordered, Conserved;
    ReachableFacts(s, 0);
  }
}
