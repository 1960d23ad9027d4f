/** What the ring buffer promises, stated over every reachable state and every step from one. */
module RingTheorems {
  import opened Bits
  import opened Wrappers
  import opened RingProtocol
  import opened RingInvariant
  import opened RingRuns

  /** Some run from a fresh ring, every successful compare-and-set of which found room, ends here. */
  ghost predicate Reachable(c: Config)
  {
    exists c0: Config, es: seq<Event> :: EndsAt(c0, es, c)
  }

  ghost predicate EndsAt(c0: Config, es: seq<Event>, c: Config)
  {
    Init(c0) && IsRun(c0, es) && RunHasRoom(c0, es) && After(c0, es) == c
  }

  lemma ReachableHasInv(c: Config)
    requires Reachable(c)
    ensures Inv(c)
  {
    var c0, es :| EndsAt(c0, es, c);
    InitHolds(c0);
    RunKeeps(c0, es);
  }

  /** Runs in which no head makes a full lap between a load and its successful compare-and-set
      are among those considered. */
  lemma UnlappedIsReachable(c0: Config, es: seq<Event>)
    requires Init(c0) && IsRun(c0, es) && RunUnlapped(c0, es)
    ensures Reachable(After(c0, es))
  {
    InitHolds(c0);
    UnlappedRunHasRoom(c0, es);
    assert EndsAt(c0, es, After(c0, es));
  }

  // ------------------------------------------------------------- the counters

  /** cons_tail <= cons_head <= prod_tail <= prod_head <= cons_tail + size - 1, and the stored
      indices are their remainders by size. */
  lemma CountersOrdered(c: Config)
    requires Reachable(c)
    ensures c.aux.ct <= |c.aux.got| <= c.aux.pt <= |c.aux.sent| <= c.aux.ct + c.sys.mem.size - 1
    ensures c.sys.mem.size > 0
    ensures c.sys.mem.prodHead == |c.aux.sent| % c.sys.mem.size && c.sys.mem.prodTail == c.aux.pt % c.sys.mem.size
    ensures c.sys.mem.consHead == |c.aux.got| % c.sys.mem.size && c.sys.mem.consTail == c.aux.ct % c.sys.mem.size
  {
    ReachableHasInv(c);
    WrapIsMod(|c.aux.sent|, c.sys.mem.size);
    WrapIsMod(c.aux.pt, c.sys.mem.size);
    WrapIsMod(|c.aux.got|, c.sys.mem.size);
    WrapIsMod(c.aux.ct, c.sys.mem.size);
  }

  lemma InvInRange(c: Config, t: Tid)
    requires Inv(c) && t < |c.sys.threads|
    requires !c.sys.threads[t].Idle? && !c.sys.threads[t].KJudge?
    ensures Legal(c, Tick(t))
  {
    hide Inv, Shared, GoodSize, Wrap;
    ThreadAt(c, t);
  }

  /** No thread ever needs a slot outside the array, so every busy thread can always step. */
  lemma SlotsInRange(c: Config, t: Tid)
    requires Reachable(c) && t < |c.sys.threads|
    requires !c.sys.threads[t].Idle? && !c.sys.threads[t].KJudge?
    ensures Legal(c, Tick(t))
  {
    ReachableHasInv(c);
    InvInRange(c, t);
  }

  // ----------------------------------------------------------- first in, first out

  function Bufs(es: seq<Entry>): (r: seq<Buf>)
    ensures |r| == |es| && forall k | 0 <= k < |es| :: r[k] == es[k].buf
  {
    seq(|es|, k requires 0 <= k < |es| => es[k].buf)
  }

  /** What the finished reads returned, in the order in which their heads were claimed. */
  function Reads(a: Aux): (r: seq<Buf>)
    requires a.ct <= |a.got| && forall k | 0 <= k < a.ct :: a.got[k].Some?
    ensures |r| == a.ct && forall k | 0 <= k < a.ct :: r[k] == a.got[k].value
  {
    seq(a.ct, k requires 0 <= k < a.ct => a.got[k].value)
  }

  /** Exactly once and in order: what consumers have taken is a prefix of what producers claimed
      places for, every read that has happened returned the entry of its own ticket, and nothing
      is claimed by a consumer before it is published. */
  lemma FifoExactlyOnce(c: Config)
    requires Reachable(c)
    ensures c.aux.ct <= |c.aux.got| && forall k | 0 <= k < c.aux.ct :: c.aux.got[k].Some?
    ensures Reads(c.aux) <= Bufs(c.aux.sent)
    ensures |c.aux.got| <= c.aux.pt <= |c.aux.sent|
    ensures forall k | 0 <= k < |c.aux.got| :: c.aux.got[k].Some? ==> c.aux.got[k].value == c.aux.sent[k].buf
  {
    ReachableHasInv(c);
  }

  /** Dequeues finish in ticket order: the one that finishes next returns the oldest entry not yet
      returned, and counts as taken. */
  lemma DequeueReturnsInOrder(c: Config, t: Tid)
    requires Reachable(c) && Legal(c, Tick(t))
    requires c.sys.threads[t].MStoreTail? || c.sys.threads[t].SStoreTail?
    ensures c.aux.ct < |c.aux.sent|
    ensures Step(c, Tick(t)).sys.threads[t] == Idle(Got(c.aux.sent[c.aux.ct].buf))
    ensures Step(c, Tick(t)).aux.ct == c.aux.ct + 1
  {
    hide Reachable, Inv, Shared, GoodSize, Wrap;
    ReachableHasInv(c);
    ThreadAt(c, t);
  }

  /** The entries published and not yet claimed: the queue the ring implements. */
  function Pending(a: Aux): seq<Buf>
    requires |a.got| <= a.pt <= |a.sent|
  {
    Bufs(a.sent)[|a.got|..a.pt]
  }

  predicate Publishes(s: Sys, e: Event)
    requires Enabled(s, e)
  {
    e.Tick? && s.threads[e.t].EStoreTail?
  }

  /** Every step refines a first-in first-out queue: publishing appends, a claim of either dequeue
      removes the front of a queue that is not empty, and nothing else changes it. */
  lemma StepRefinesQueue(c: Config, e: Event)
    requires Reachable(c) && Legal(c, e) && Room(c, e)
    ensures |c.aux.got| <= c.aux.pt <= |c.aux.sent|
    ensures var a := Step(c, e).aux; |a.got| <= a.pt <= |a.sent|
    ensures ClaimsCons(c.sys, e) ==> Pending(c.aux) != []
    ensures Pending(Step(c, e).aux) ==
      if Publishes(c.sys, e) then Pending(c.aux) + [c.sys.threads[e.t].buf]
      else if ClaimsCons(c.sys, e) then Pending(c.aux)[1..]
      else Pending(c.aux)
  {
    ReachableHasInv(c);
    StepCounters(c, e);
    PublishedEntry(c, e);
    hide Inv, Step, Track, Pending;
    PendingMoves(c.aux, Step(c, e).aux);
  }

  lemma PendingMoves(a: Aux, a': Aux)
    requires |a.got| <= a.pt <= |a.sent| && a.sent <= a'.sent && a'.pt <= |a.sent|
    ensures |a'.got| == |a.got| && a'.pt == a.pt ==> Pending(a') == Pending(a)
    ensures |a'.got| == |a.got| && a'.pt == a.pt + 1 ==> Pending(a') == Pending(a) + [a.sent[a.pt].buf]
    ensures |a'.got| == |a.got| + 1 <= a.pt && a'.pt == a.pt ==> Pending(a) != [] && Pending(a') == Pending(a)[1..]
  {
  }

  /** How a step moves the counters. */
  lemma StepCounters(c: Config, e: Event)
    requires Inv(c) && Legal(c, e) && Room(c, e)
    ensures |c.aux.got| <= c.aux.pt <= |c.aux.sent|
    ensures var a, a' := c.aux, Step(c, e).aux;
      && a.sent <= a'.sent
      && a'.pt == (if Publishes(c.sys, e) then a.pt + 1 else a.pt)
      && |a'.got| == (if ClaimsCons(c.sys, e) then |a.got| + 1 else |a.got|)
    ensures Publishes(c.sys, e) ==> c.aux.pt < |c.aux.sent|
    ensures ClaimsCons(c.sys, e) ==> |c.aux.got| < c.aux.pt
  {
    hide Inv, Shared, GoodSize, Wrap;
    ThreadAt(c, e.t);
  }

  lemma PublishedEntry(c: Config, e: Event)
    requires Inv(c) && Legal(c, e)
    ensures Publishes(c.sys, e) ==>
      c.aux.pt < |c.aux.sent| && c.aux.sent[c.aux.pt].buf == c.sys.threads[e.t].buf
  {
  }

  /** The claim of a dequeue, by compare-and-set or by the sole consumer's plain store, takes the
      ticket of the front of the queue. */
  lemma ClaimTakesFront(c: Config, e: Event)
    requires Reachable(c) && Legal(c, e) && Room(c, e) && ClaimsCons(c.sys, e)
    ensures |c.aux.got| < c.aux.pt <= |c.aux.sent|
    ensures var c' := Step(c, e);
      && c'.aux.notes[e.t].ticket == |c.aux.got|
      && Pending(c.aux)[0] == c'.aux.sent[c'.aux.notes[e.t].ticket].buf
  {
    StepRefinesQueue(c, e);
  }

  // --------------------------------------------------------------- exclusion

  /** The slot index a claimed thread is working on. */
  function Slot(pc: Pc): nat
    requires RankOf(pc) != Free
  {
    pc.h
  }

  /** No two threads that have claimed a slot, producers or consumers, work on the same one. */
  lemma SlotsExclusive(c: Config, t: Tid, u: Tid)
    requires Reachable(c) && t < |c.sys.threads| && u < |c.sys.threads| && t != u
    requires RankOf(c.sys.threads[t]) != Free && RankOf(c.sys.threads[u]) != Free
    ensures Slot(c.sys.threads[t]) != Slot(c.sys.threads[u])
  {
    ReachableHasInv(c);
    TicketFacts(c, t);
    TicketFacts(c, u);
    hide Data, GoodSize, Wrap, Threads;
    SlotsDiffer(c.aux, c.sys.mem, c.aux.notes[t].ticket, c.aux.notes[u].ticket);
  }

  /** A slot that a consumer has claimed keeps its contents until that consumer hands on the
      tail, whoever steps in between. */
  lemma ClaimedSlotUntouched(c: Config, e: Event, u: Tid)
    requires Reachable(c) && Legal(c, e) && u < |c.sys.threads| && HoldsCons(RankOf(c.sys.threads[u]))
    ensures Slot(c.sys.threads[u]) < |c.sys.mem.slots| == |Step(c, e).sys.mem.slots|
    ensures Step(c, e).sys.mem.slots[Slot(c.sys.threads[u])] == c.sys.mem.slots[Slot(c.sys.threads[u])]
  {
    hide Reachable, Inv, Shared, GoodSize, Wrap;
    ReachableHasInv(c);
    TicketFacts(c, u);
    ThreadAt(c, u);
    if e.Tick? && c.sys.threads[e.t].EWrite? {
      SlotsExclusive(c, e.t, u);
    }
  }

  /** At most one producer is between leaving the spin loop and storing br_prod_tail. */
  lemma SectionExclusive(c: Config, t: Tid, u: Tid)
    requires Reachable(c) && t < |c.sys.threads| && u < |c.sys.threads|
    requires InSection(c.sys.threads[t]) && InSection(c.sys.threads[u])
    ensures t == u
  {
    ReachableHasInv(c);
    hide Inv;
    OnlyOwnerCounts(c, t);
  }

  /** Whenever no producer is there, the statistics have grown by exactly the number and the byte
      sum of the published entries, modulo 2^64, although neither update is atomic. */
  lemma StatisticsExact(c: Config)
    requires Reachable(c)
    requires forall t | 0 <= t < |c.sys.threads| :: !InSection(c.sys.threads[t])
    ensures c.aux.pt <= |c.aux.sent|
    ensures c.sys.mem.prodBufs == (c.aux.bufs0 + c.aux.pt) % WORD64
    ensures c.sys.mem.prodBytes == (c.aux.bytes0 + BytesUpTo(c.aux.sent, c.aux.pt)) % WORD64
  {
    ReachableHasInv(c);
    hide Contents, Fifo, GoodSize;
  }

  // ---------------------------------------------------------------- refusals

  /** A step of a thread that neither holds nor takes a ticket leaves the ring as it was; so a call
      that is refused, which never takes one, has changed nothing. */
  lemma RefusalChangesNothing(c: Config, e: Event)
    requires Legal(c, e) && RankOf(c.sys.threads[e.t]) == Free && RankOf(Step(c, e).sys.threads[e.t]) == Free
    ensures Step(c, e).sys.mem == c.sys.mem
    ensures Step(c, e).aux == c.aux.(notes := Step(c, e).aux.notes)
  {
  }

  /** ENOBUFS, exactly: the ring is refused as full when the index after the loaded head is the
      consumer tail, and that refusal is honest, with size - 1 entries outstanding, if and only
      if br_prod_head still holds the loaded index. */
  lemma EnqueueRefusal(c: Config, t: Tid)
    requires Reachable(c) && Legal(c, Tick(t)) && c.sys.threads[t].ETail?
    ensures var refused := Step(c, Tick(t)).sys.threads[t] == Idle(NoBufs);
      && (c.sys.mem.prodHead == c.sys.threads[t].h ==>
            (refused <==> |c.aux.sent| - c.aux.ct == c.sys.mem.size - 1))
      && (refused && |c.aux.sent| - c.aux.ct == c.sys.mem.size - 1 ==>
            c.sys.mem.prodHead == c.sys.threads[t].h)
  {
    hide Reachable, Inv, Shared, GoodSize, Wrap;
    ReachableHasInv(c);
    ThreadAt(c, t);
    var m, a := c.sys.mem, c.aux;
    SuccWraps(a.notes[t].head, m.size);
    FullExactly(m, a);
    SuccInjective(m.prodHead, c.sys.threads[t].h, m.size);
  }

  lemma FullExactly(m: Memory, a: Aux)
    requires Residues(m, a) && Bounds(m, a)
    ensures Succ(m.prodHead, m.size) == m.consTail <==> |a.sent| - a.ct == m.size - 1
  {
    hide Wrap, GoodSize;
    SuccWraps(|a.sent|, m.size);
    if |a.sent| - a.ct == m.size - 1 {
      FullWraps(a.ct, |a.sent|, m.size);
    } else if Wrap(|a.sent| + 1, m.size) == Wrap(a.ct, m.size) {
      WrapInjective(a.ct, |a.sent| + 1, m.size);
    }
  }

  lemma SuccInjective(i: nat, j: nat, size: nat)
    requires GoodSize(size) && i < size && j < size
    ensures Succ(i, size) == Succ(j, size) ==> i == j
  {
    SuccWraps(i, size);
    SuccWraps(j, size);
  }

  lemma EmptyExactly(m: Memory, a: Aux)
    requires Residues(m, a) && Bounds(m, a)
    ensures m.consHead == m.prodTail <==> |a.got| == a.pt
  {
    hide Wrap, GoodSize;
    if m.consHead == m.prodTail { WrapInjective(|a.got|, a.pt, m.size); }
  }

  /** NULL, exactly: a dequeue is refused when the producer tail is the loaded consumer head, and
      that is honest, with nothing published and unclaimed, if and only if br_cons_head still
      holds the loaded index. */
  lemma DequeueRefusal(c: Config, t: Tid)
    requires Reachable(c) && Legal(c, Tick(t)) && c.sys.threads[t].MTail?
    ensures |c.aux.got| <= c.aux.pt <= |c.aux.sent|
    ensures var refused := Step(c, Tick(t)).sys.threads[t] == Idle(Null);
      && (c.sys.mem.consHead == c.sys.threads[t].h ==> (refused <==> Pending(c.aux) == []))
      && (refused && Pending(c.aux) == [] ==> c.sys.mem.consHead == c.sys.threads[t].h)
  {
    hide Reachable, Inv, Shared, GoodSize, Wrap;
    ReachableHasInv(c);
    ThreadAt(c, t);
    EmptyExactly(c.sys.mem, c.aux);
  }

  // -------------------------------------------------------- the single consumer

  /** The packet the condition is asked about is the front of the queue, and stays there. */
  lemma PeekShowsFront(c: Config, t: Tid)
    requires Reachable(c) && t < |c.sys.threads| && c.sys.threads[t].KJudge?
    ensures |c.aux.got| < c.aux.pt <= |c.aux.sent|
    ensures Pending(c.aux)[0] == c.sys.threads[t].b
  {
    hide Reachable, Inv, Shared, GoodSize, Wrap;
    ReachableHasInv(c);
    ThreadAt(c, t);
  }

  /** A single-consumer dequeue is refused exactly when nothing is pending. */
  lemma SoleRefusal(c: Config, t: Tid)
    requires Reachable(c) && Legal(c, Tick(t)) && (c.sys.threads[t].STail? || c.sys.threads[t].KTail?)
    ensures |c.aux.got| <= c.aux.pt <= |c.aux.sent|
    ensures Step(c, Tick(t)).sys.threads[t] == Idle(Null) <==> Pending(c.aux) == []
  {
    hide Reachable, Inv, Shared, GoodSize, Wrap;
    ReachableHasInv(c);
    ThreadAt(c, t);
    EmptyExactly(c.sys.mem, c.aux);
  }

  // ---------------------------------------------------------------- progress

  /** The step changes something: it is not one more turn of a spin loop. */
  predicate Advances(c: Config, t: Tid)
  {
    Legal(c, Tick(t)) && Step(c, Tick(t)).sys != c.sys
  }

  /** Spinning producers always wait for one that is not itself waiting. */
  lemma ProducersNeverDeadlock(c: Config, t: Tid)
    requires Reachable(c) && t < |c.sys.threads| && HoldsProd(RankOf(c.sys.threads[t]))
    ensures c.aux.pt < |c.aux.pby| && Advances(c, c.aux.pby[c.aux.pt])
  {
    hide Reachable, Inv, Shared, GoodSize, Wrap;
    ReachableHasInv(c);
    ThreadAt(c, t);
    ProdHolder(c, c.aux.pt);
    var u := c.aux.pby[c.aux.pt];
    ThreadAt(c, u);
    SlotsInRange(c, u);
  }

  lemma ConsumersNeverDeadlock(c: Config, t: Tid)
    requires Reachable(c) && t < |c.sys.threads| && HoldsCons(RankOf(c.sys.threads[t]))
    ensures c.aux.ct < |c.aux.cby| && Advances(c, c.aux.cby[c.aux.ct])
  {
    hide Reachable, Inv, Shared, GoodSize, Wrap;
    ReachableHasInv(c);
    ThreadAt(c, t);
    ClaimHolder(c, c.aux.ct);
    var u := c.aux.cby[c.aux.ct];
    ThreadAt(c, u);
    SlotsInRange(c, u);
  }

  // ------------------------------------------------------------- at rest

  /** buf_ring_full. */
  predicate Full(m: Memory)
    requires m.size > 0
  {
    Succ(m.prodHead, m.size) == m.consTail
  }

  /** buf_ring_empty. */
  predicate Empty(m: Memory)
  {
    m.consHead == m.prodTail
  }

  /** buf_ring_count, in unsigned 32-bit arithmetic. */
  function Count(m: Memory): nat
    requires m.size > 0
  {
    And((m.size + m.prodTail - m.consTail) % WORD32, m.size - 1)
  }

  /** With no call in progress the three observers agree with the queue, and a ring is never both
      full and empty. */
  lemma ObserversAtRest(c: Config)
    requires Reachable(c) && forall t | 0 <= t < |c.sys.threads| :: c.sys.threads[t].Idle?
    ensures |c.aux.got| <= c.aux.pt <= |c.aux.sent| && c.sys.mem.size > 0
    ensures Count(c.sys.mem) == |Pending(c.aux)|
    ensures Empty(c.sys.mem) <==> Pending(c.aux) == []
    ensures Full(c.sys.mem) <==> |Pending(c.aux)| == c.sys.mem.size - 1
    ensures !(Full(c.sys.mem) && Empty(c.sys.mem))
  {
    ReachableHasInv(c);
    RestHoldsNoTickets(c);
    FullExactly(c.sys.mem, c.aux);
    EmptyExactly(c.sys.mem, c.aux);
    CountIsDifference(c.sys.mem, c.aux);
    hide Data, Threads, Wrap, IsPow2, Count;
  }

  lemma CountIsDifference(m: Memory, a: Aux)
    requires Residues(m, a) && Bounds(m, a)
    ensures Count(m) == a.pt - a.ct
  {
    hide Wrap, IsPow2, And;
    MaskWraps(m.size + m.prodTail - m.consTail, m.size);
    WrapDifference(a.ct, a.pt, m.size);
  }

  lemma RestHoldsNoTickets(c: Config)
    requires Inv(c) && forall t | 0 <= t < |c.sys.threads| :: c.sys.threads[t].Idle?
    ensures c.aux.pt == |c.aux.sent| && c.aux.ct == |c.aux.got|
  {
  }

  lemma {:induction false} WrapDifference(tail: nat, head: nat, size: nat)
    requires 0 < size && tail <= head < tail + size
    ensures Wrap(size + Wrap(head, size) - Wrap(tail, size), size) == head - tail
  {
    if tail >= size { WrapDifference(tail - size, head - size, size); }
  }
}
