/** What the calls of the ring answer, over every run: an answer is tied to the tickets that the call
    drew between its first event and its return, and a call that is left alone returns.
 */
module RingCalls {
  import opened Bits
  import opened Wrappers
  import opened RingProtocol
  import opened RingInvariant
  import opened RingRuns
  import opened RingTheorems
  import opened RingProgress

  /** Thread `t` has drawn no ticket from `since` on. */
  predicate NoTicket(owners: seq<Tid>, since: nat, t: Tid)
  {
    forall k | since <= k < |owners| :: owners[k] != t
  }

  /** Thread `t` has drawn ticket `k` and no other from `since` on. */
  predicate OnlyTicket(owners: seq<Tid>, since: nat, t: Tid, k: nat)
  {
    since <= k < |owners| && owners[k] == t && forall j | since <= j < |owners| && j != k :: owners[j] != t
  }

  // ---------------------------------------------------------------- enqueue

  /** Thread `t` is in the enqueue of `buf` that it began when `since` places had been claimed. */
  predicate Enqueueing(c: Config, t: Tid, buf: Buf, n: int, since: nat)
  {
    && t < |c.sys.threads| == |c.aux.notes|
    && Producing(c.sys.threads[t]) && c.sys.threads[t].buf == buf && c.sys.threads[t].n == n
    && (if HoldsProd(RankOf(c.sys.threads[t])) then OnlyTicket(c.aux.pby, since, t, c.aux.notes[t].ticket)
       else NoTicket(c.aux.pby, since, t) && since <= |c.aux.pby|)
    && (c.sys.threads[t].ETail? || c.sys.threads[t].ECas? ==> since <= c.aux.notes[t].head)
  }

  /** A head of `j`, which br_prod_head has had since the call began, makes the ring look full. */
  predicate LooksFull(d: Config, since: nat, j: nat)
  {
    d.sys.mem.size > 0 && since <= j <= |d.aux.sent| && Wrap(j + 1, d.sys.mem.size) == Wrap(d.aux.ct, d.sys.mem.size)
  }

  /** The answer of that enqueue: success with exactly one place claimed, for this buffer, and
      published; or a refusal with none, by a ring that looks full from a head the call may have
      loaded. */
  ghost predicate EnqueueAnswered(d: Config, t: Tid, buf: Buf, n: int, since: nat)
  {
    && t < |d.sys.threads| && d.sys.threads[t].Idle?
    && match d.sys.threads[t].last
       case Enqueued =>
         exists k: nat :: OnlyTicket(d.aux.pby, since, t, k) && k < d.aux.pt <= |d.aux.sent| && d.aux.sent[k] == Entry(buf, n)
       case NoBufs => NoTicket(d.aux.pby, since, t) && exists j: nat :: LooksFull(d, since, j)
       case _ => false
  }

  lemma OthersLeaveEnqueue(c: Config, e: Event, t: Tid, buf: Buf, n: int, since: nat)
    requires Inv(c) && Legal(c, e) && Enqueueing(c, t, buf, n, since) && e.t != t
    ensures Enqueueing(Step(c, e), t, buf, n, since)
  {
    hide Inv, Shared, GoodSize, Wrap;
    ThreadAt(c, e.t);
  }

  lemma EnqueueLooks(c: Config, t: Tid, buf: Buf, n: int, since: nat)
    requires Inv(c) && Legal(c, Tick(t)) && Enqueueing(c, t, buf, n, since) && c.sys.threads[t].ETail?
    ensures Enqueueing(Step(c, Tick(t)), t, buf, n, since) || EnqueueAnswered(Step(c, Tick(t)), t, buf, n, since)
  {
    hide Inv, Shared, GoodSize, Wrap, Succ;
    ThreadAt(c, t);
    SuccWraps(c.aux.notes[t].head, c.sys.mem.size);
    if Step(c, Tick(t)).sys.threads[t].Idle? { assert LooksFull(Step(c, Tick(t)), since, c.aux.notes[t].head); }
  }

  lemma EnqueuePublishes(c: Config, t: Tid, buf: Buf, n: int, since: nat)
    requires Inv(c) && Legal(c, Tick(t)) && Enqueueing(c, t, buf, n, since) && c.sys.threads[t].EStoreTail?
    ensures EnqueueAnswered(Step(c, Tick(t)), t, buf, n, since)
  {
    hide Inv, Shared, GoodSize, Wrap, Succ;
    ThreadAt(c, t);
    assert OnlyTicket(Step(c, Tick(t)).aux.pby, since, t, c.aux.pt);
  }

  lemma EnqueueGoesOn(c: Config, t: Tid, buf: Buf, n: int, since: nat)
    requires Inv(c) && Legal(c, Tick(t)) && Enqueueing(c, t, buf, n, since)
    requires !c.sys.threads[t].ETail? && !c.sys.threads[t].EStoreTail?
    ensures Enqueueing(Step(c, Tick(t)), t, buf, n, since)
  {
    hide Inv, Shared, GoodSize, Wrap, Succ;
    ThreadAt(c, t);
  }

  lemma OwnStepOfEnqueue(c: Config, e: Event, t: Tid, buf: Buf, n: int, since: nat)
    requires Inv(c) && Legal(c, e) && Enqueueing(c, t, buf, n, since) && e.t == t
    ensures Enqueueing(Step(c, e), t, buf, n, since) || EnqueueAnswered(Step(c, e), t, buf, n, since)
  {
    assert e == Tick(t);
    hide Inv, Enqueueing, EnqueueAnswered, Step, Legal;
    if c.sys.threads[t].ETail? {
      EnqueueLooks(c, t, buf, n, since);
    } else if c.sys.threads[t].EStoreTail? {
      EnqueuePublishes(c, t, buf, n, since);
    } else {
      EnqueueGoesOn(c, t, buf, n, since);
    }
  }

  lemma {:induction false} EnqueueRun(c: Config, es: seq<Event>, t: Tid, buf: Buf, n: int, since: nat)
    requires Inv(c) && IsRun(c, es) && RunHasRoom(c, es) && t < |c.sys.threads|
    requires Enqueueing(c, t, buf, n, since)
    ensures ReturnAt(c, es, t).Some? ==> EnqueueAnswered(ReturnAt(c, es, t).value, t, buf, n, since)
    decreases |es|
  {
    assert !c.sys.threads[t].Idle?;
    hide Inv, Legal, Room, Step, Enqueueing, EnqueueAnswered;
    if es != [] {
      var d := Step(c, es[0]);
      StepKeeps(c, es[0]);
      if es[0].t == t {
        OwnStepOfEnqueue(c, es[0], t, buf, n, since);
      } else {
        OthersLeaveEnqueue(c, es[0], t, buf, n, since);
      }
      if Enqueueing(d, t, buf, n, since) {
        EnqueueingThread(d, t, buf, n, since);
        EnqueueRun(d, es[1..], t, buf, n, since);
      } else {
        AnsweredThread(d, t, buf, n, since);
        assert ReturnAt(d, es[1..], t) == Some(d);
      }
    }
  }

  lemma EnqueueingThread(c: Config, t: Tid, buf: Buf, n: int, since: nat)
    requires Enqueueing(c, t, buf, n, since)
    ensures t < |c.sys.threads| && !c.sys.threads[t].Idle?
  {
  }

  lemma AnsweredThread(d: Config, t: Tid, buf: Buf, n: int, since: nat)
    requires EnqueueAnswered(d, t, buf, n, since)
    ensures t < |d.sys.threads| && d.sys.threads[t].Idle?
  {
  }

  /** buf_ring_enqueue_bytes, from the call to the return, in every run: a success means that the call
      claimed exactly one place, for this buffer and this length, and that it is published by then;
      ENOBUFS means that it claimed none and that the ring looked full to it; and there is no other
      answer. */
  lemma EnqueueAnswers(c: Config, t: Tid, buf: Buf, n: int, es: seq<Event>)
    requires Reachable(c) && Legal(c, CallEnqueue(t, buf, n))
    requires IsRun(Step(c, CallEnqueue(t, buf, n)), es) && RunHasRoom(Step(c, CallEnqueue(t, buf, n)), es)
    ensures var d := ReturnAt(Step(c, CallEnqueue(t, buf, n)), es, t);
      d.Some? ==> EnqueueAnswered(d.value, t, buf, n, |c.aux.sent|)
  {
    hide Reachable, Inv, IsRun, RunHasRoom, ReturnAt;
    ReachableHasInv(c);
    ThreadAt(c, t);
    StepKeeps(c, CallEnqueue(t, buf, n));
    EnqueueRun(Step(c, CallEnqueue(t, buf, n)), es, t, buf, n, |c.aux.sent|);
  }

  // ---------------------------------------------------------------- dequeue

  /** Thread `t` is in the dequeue that it began when `since` entries had been claimed; `cond` tells
      that it asks a condition. */
  predicate Dequeueing(c: Config, t: Tid, since: nat, cond: bool)
  {
    && t < |c.sys.threads| == |c.aux.notes|
    && Consuming(c.sys.threads[t])
    && (if HoldsCons(RankOf(c.sys.threads[t])) then OnlyTicket(c.aux.cby, since, t, c.aux.notes[t].ticket)
        else NoTicket(c.aux.cby, since, t) && since <= |c.aux.cby|)
    && (c.sys.threads[t].MTail? || c.sys.threads[t].MCas? ==> since <= c.aux.notes[t].head)
    && (Sole(c.sys.threads[t]) && SoleLeft(c.sys.threads[t]) == 0 ==> cond)
  }

  /** A head of `j`, which br_cons_head has had since the call began, makes the ring look empty. */
  predicate LooksEmpty(d: Config, since: nat, j: nat)
  {
    d.sys.mem.size > 0 && since <= j <= |d.aux.got| && Wrap(j, d.sys.mem.size) == Wrap(d.aux.pt, d.sys.mem.size)
  }

  /** The front of the queue is a NULL that was put into the ring. */
  predicate NullInFront(d: Config)
  {
    |d.aux.got| < d.aux.pt <= |d.aux.sent| && d.aux.sent[|d.aux.got|].buf == NULL
  }

  /** The answer of that dequeue: exactly one entry claimed, read and released, and it is the one
      returned; or NULL with none claimed, because the ring looks empty from a head the call may have
      loaded or, for a call with a condition, because the front is NULL or was rejected. */
  ghost predicate DequeueAnswered(d: Config, t: Tid, since: nat, cond: bool, rejected: bool)
  {
    && t < |d.sys.threads| && d.sys.threads[t].Idle?
    && match d.sys.threads[t].last
       case Got(b) => exists k: nat :: OnlyTicket(d.aux.cby, since, t, k) && Released(d, k, b)
       case Null =>
         && NoTicket(d.aux.cby, since, t)
         && (rejected || (cond && NullInFront(d)) || exists j: nat :: LooksEmpty(d, since, j))
       case _ => false
  }

  /** Ticket `k` was for entry `b`, which has been read and whose slot is free again. */
  predicate Released(d: Config, k: nat, b: Buf)
  {
    k < d.aux.ct <= |d.aux.got| <= |d.aux.sent| && d.aux.got[k] == Some(b) && d.aux.sent[k].buf == b
  }

  lemma OthersLeaveDequeue(c: Config, e: Event, t: Tid, since: nat, cond: bool)
    requires Inv(c) && Legal(c, e) && Dequeueing(c, t, since, cond) && e.t != t
    ensures Dequeueing(Step(c, e), t, since, cond)
  {
    hide Inv, Shared, GoodSize, Wrap;
    ThreadAt(c, e.t);
  }

  /** A consumer that hands on the tail has read the entry of its ticket. */
  lemma ReleasedEntry(c: Config, t: Tid)
    requires Inv(c) && t < |c.sys.threads| && (c.sys.threads[t].MStoreTail? || c.sys.threads[t].SStoreTail?)
    ensures c.aux.ct < |c.aux.got| <= |c.aux.sent| && |c.aux.got| == |c.aux.cby|
    ensures |c.aux.notes| == |c.sys.threads| && c.aux.notes[t].ticket == c.aux.ct
    ensures c.aux.got[c.aux.ct] == Some(c.sys.threads[t].b) && c.aux.sent[c.aux.ct].buf == c.sys.threads[t].b
  {
    hide Contents, Stats, GoodSize, Wrap;
    assert ThreadOk(c.sys.mem, c.aux, t, c.sys.threads[t]);
  }

  lemma ReleaseAnswers(c: Config, t: Tid, since: nat, cond: bool)
    requires Inv(c) && Legal(c, Tick(t)) && Dequeueing(c, t, since, cond)
    requires c.sys.threads[t].MStoreTail? || c.sys.threads[t].SStoreTail?
    ensures DequeueAnswered(Step(c, Tick(t)), t, since, cond, false)
  {
    ReleasedEntry(c, t);
    hide Inv;
    assert OnlyTicket(Step(c, Tick(t)).aux.cby, since, t, c.aux.ct) && Released(Step(c, Tick(t)), c.aux.ct, c.sys.threads[t].b);
  }

  /** The look at the producer tail, in each of the three calls. */
  lemma DequeueLooks(c: Config, t: Tid, since: nat, cond: bool)
    requires Inv(c) && Legal(c, Tick(t)) && Dequeueing(c, t, since, cond)
    requires c.sys.threads[t].MTail? || c.sys.threads[t].STail? || c.sys.threads[t].KTail?
    ensures Dequeueing(Step(c, Tick(t)), t, since, cond) || DequeueAnswered(Step(c, Tick(t)), t, since, cond, false)
  {
    hide Inv, Shared, GoodSize, Wrap;
    ThreadAt(c, t);
    var j := if c.sys.threads[t].MTail? then c.aux.notes[t].head else |c.aux.got|;
    if Step(c, Tick(t)).sys.threads[t].Idle? { assert LooksEmpty(Step(c, Tick(t)), since, j); }
  }

  lemma OwnStepOfDequeueMc(c: Config, t: Tid, since: nat, cond: bool)
    requires Inv(c) && Legal(c, Tick(t)) && Dequeueing(c, t, since, cond)
    requires var pc := c.sys.threads[t]; pc.MHead? || pc.MCas? || pc.MRead? || pc.MSpin?
    ensures Dequeueing(Step(c, Tick(t)), t, since, cond)
  {
    hide Inv, Shared, GoodSize, Wrap;
    ThreadAt(c, t);
  }

  lemma OwnStepOfPeek(c: Config, e: Event, t: Tid, since: nat, cond: bool)
    requires Inv(c) && Legal(c, e) && Dequeueing(c, t, since, cond) && e.t == t
    requires var pc := c.sys.threads[t]; pc.KHead? || pc.KHeadAgain? || pc.KSlot? || pc.KJudge?
    ensures Dequeueing(Step(c, e), t, since, cond) || DequeueAnswered(Step(c, e), t, since, cond, e == Judge(t, false))
  {
    hide Inv, Shared, GoodSize, Wrap;
    ThreadAt(c, t);
    if c.sys.threads[t].KSlot? { FrontSlot(c); }
  }

  lemma OwnStepOfSole(c: Config, t: Tid, since: nat, cond: bool)
    requires Inv(c) && Legal(c, Tick(t)) && Dequeueing(c, t, since, cond)
    requires var pc := c.sys.threads[t]; pc.SHead? || pc.SStoreHead? || pc.SRead?
    ensures Dequeueing(Step(c, Tick(t)), t, since, cond)
  {
    hide Inv, Shared, GoodSize, Wrap;
    ThreadAt(c, t);
  }

  lemma OwnStepOfDequeue(c: Config, e: Event, t: Tid, since: nat, cond: bool)
    requires Inv(c) && Legal(c, e) && Dequeueing(c, t, since, cond) && e.t == t
    ensures Dequeueing(Step(c, e), t, since, cond) || DequeueAnswered(Step(c, e), t, since, cond, e == Judge(t, false))
  {
    var pc := c.sys.threads[t];
    if pc.KHead? || pc.KHeadAgain? || pc.KSlot? || pc.KJudge? {
      hide Inv, Dequeueing, DequeueAnswered, Step, Legal;
      OwnStepOfPeek(c, e, t, since, cond);
    } else {
      assert e == Tick(t) && Consuming(pc);
      hide Inv, Dequeueing, DequeueAnswered, Step, Legal;
      if pc.MStoreTail? || pc.SStoreTail? {
        ReleaseAnswers(c, t, since, cond);
      } else if pc.MTail? || pc.STail? || pc.KTail? {
        DequeueLooks(c, t, since, cond);
      } else if pc.SHead? || pc.SStoreHead? || pc.SRead? {
        OwnStepOfSole(c, t, since, cond);
      } else {
        OwnStepOfDequeueMc(c, t, since, cond);
      }
    }
  }

  lemma DequeueingThread(c: Config, t: Tid, since: nat, cond: bool)
    requires Dequeueing(c, t, since, cond)
    ensures t < |c.sys.threads| && !c.sys.threads[t].Idle?
  {
  }

  lemma DequeuedThread(d: Config, t: Tid, since: nat, cond: bool, rejected: bool, rejected': bool)
    requires DequeueAnswered(d, t, since, cond, rejected) && (rejected ==> rejected')
    ensures t < |d.sys.threads| && d.sys.threads[t].Idle? && DequeueAnswered(d, t, since, cond, rejected')
  {
  }

  /** The condition has rejected a packet for `t` in the run. */
  predicate Rejects(es: seq<Event>, t: Tid)
  {
    exists i | 0 <= i < |es| :: es[i] == Judge(t, false)
  }

  lemma RejectsTail(es: seq<Event>, t: Tid)
    requires es != []
    ensures Rejects(es, t) <==> es[0] == Judge(t, false) || Rejects(es[1..], t)
  {
    if Rejects(es[1..], t) {
      var i :| 0 <= i < |es[1..]| && es[1..][i] == Judge(t, false);
      assert es[i + 1] == Judge(t, false);
    }
    if Rejects(es, t) && es[0] != Judge(t, false) {
      var i :| 0 <= i < |es| && es[i] == Judge(t, false);
      assert es[1..][i - 1] == Judge(t, false);
    }
  }

  lemma {:induction false} DequeueRun(c: Config, es: seq<Event>, t: Tid, since: nat, cond: bool)
    requires Inv(c) && IsRun(c, es) && RunHasRoom(c, es) && t < |c.sys.threads|
    requires Dequeueing(c, t, since, cond)
    ensures ReturnAt(c, es, t).Some? ==> DequeueAnswered(ReturnAt(c, es, t).value, t, since, cond, Rejects(es, t))
    decreases |es|
  {
    hide Inv, Legal, Room, Step, Dequeueing, DequeueAnswered, Rejects;
    DequeueingThread(c, t, since, cond);
    if es != [] {
      var d := Step(c, es[0]);
      StepKeeps(c, es[0]);
      RejectsTail(es, t);
      if es[0].t == t {
        OwnStepOfDequeue(c, es[0], t, since, cond);
      } else {
        OthersLeaveDequeue(c, es[0], t, since, cond);
      }
      if Dequeueing(d, t, since, cond) {
        DequeueingThread(d, t, since, cond);
        DequeueRun(d, es[1..], t, since, cond);
        var r := ReturnAt(d, es[1..], t);
        if r.Some? { DequeuedThread(r.value, t, since, cond, Rejects(es[1..], t), Rejects(es, t)); }
      } else {
        DequeuedThread(d, t, since, cond, es[0] == Judge(t, false), Rejects(es, t));
        assert ReturnAt(d, es[1..], t) == Some(d);
      }
    }
  }

  /** buf_ring_dequeue_mc, buf_ring_dequeue_sc and drbr_dequeue_cond, from the call to the return, in
      every run: a buffer is answered only by a call that claimed exactly one entry, and is that
      entry; NULL means that the call claimed none and that the ring looked empty to it, or, with a
      condition, that the front was NULL or rejected; and there is no other answer. */
  lemma DequeueAnswers(c: Config, e: Event, es: seq<Event>)
    requires Reachable(c) && Legal(c, e) && (e.CallDequeueMc? || e.CallDequeueSc? || e.CallDequeueCond?)
    requires IsRun(Step(c, e), es) && RunHasRoom(Step(c, e), es)
    ensures var d := ReturnAt(Step(c, e), es, e.t);
      d.Some? ==> DequeueAnswered(d.value, e.t, |c.aux.got|, e.CallDequeueCond?, Rejects(es, e.t))
  {
    hide Reachable, Inv;
    ReachableHasInv(c);
    StepKeeps(c, e);
    DequeueStarts(c, e);
    hide IsRun, RunHasRoom, ReturnAt, Rejects, Dequeueing, DequeueAnswered, Step, Legal;
    DequeueRun(Step(c, e), es, e.t, |c.aux.got|, e.CallDequeueCond?);
  }

  lemma DequeueStarts(c: Config, e: Event)
    requires Inv(c) && Legal(c, e) && (e.CallDequeueMc? || e.CallDequeueSc? || e.CallDequeueCond?)
    ensures e.t < |Step(c, e).sys.threads| && Dequeueing(Step(c, e), e.t, |c.aux.got|, e.CallDequeueCond?)
  {
    hide Inv, Shared, GoodSize, Wrap;
    ThreadAt(c, e.t);
  }

  // -------------------------------------------------------------- a call left alone

  /** The run is `t`'s alone. */
  predicate Alone(es: seq<Event>, t: Tid)
  {
    forall i | 0 <= i < |es| :: es[i] == Tick(t)
  }

  /** Steps from here to the return of an enqueue that nobody disturbs; one whose loaded head is stale
      has to lose its compare-and-set and load again. */
  function EnqueueLeft(m: Memory, pc: Pc): (r: nat)
    ensures r <= 12
  {
    match pc
    case EHead(_, _) => 10
    case ETail(_, _, h) => if h == m.prodHead then 9 else 12
    case ECas(_, _, h) => if h == m.prodHead then 8 else 11
    case _ => ProdLeft(pc)
  }

  /** No other producer is past its claim. */
  predicate ProducersQuiet(c: Config, t: Tid)
  {
    t < |c.sys.threads| && forall u | 0 <= u < |c.sys.threads| && u != t :: !HoldsProd(RankOf(c.sys.threads[u]))
  }

  lemma QuietTurn(c: Config, t: Tid)
    requires Inv(c) && ProducersQuiet(c, t)
    ensures |c.aux.notes| == |c.sys.threads|
    ensures c.aux.pt == |c.aux.sent| || (HoldsProd(RankOf(c.sys.threads[t])) && c.aux.notes[t].ticket == c.aux.pt)
    ensures HoldsProd(RankOf(c.sys.threads[t])) ==> c.aux.notes[t].ticket == c.aux.pt
  {
    hide Inv;
    ThreadAt(c, t);
    if c.aux.pt < |c.aux.sent| { ProdHolder(c, c.aux.pt); }
    if HoldsProd(RankOf(c.sys.threads[t])) { TicketFacts(c, t); }
  }

  lemma EnqueueTriesAlone(c: Config, t: Tid)
    requires Legal(c, Tick(t)) && (c.sys.threads[t].EHead? || c.sys.threads[t].ETail? || c.sys.threads[t].ECas?)
    ensures var pc, pc' := c.sys.threads[t], Step(c, Tick(t)).sys.threads[t];
      pc'.Idle? || (Producing(pc') && EnqueueLeft(Step(c, Tick(t)).sys.mem, pc') == EnqueueLeft(c.sys.mem, pc) - 1)
  {
  }

  lemma EnqueueAloneStep(c: Config, t: Tid)
    requires Inv(c) && Legal(c, Tick(t)) && ProducersQuiet(c, t) && Producing(c.sys.threads[t])
    ensures ProducersQuiet(Step(c, Tick(t)), t)
    ensures var pc, pc' := c.sys.threads[t], Step(c, Tick(t)).sys.threads[t];
      && EnqueueLeft(c.sys.mem, pc) > 0
      && (pc'.Idle? || (Producing(pc') && EnqueueLeft(Step(c, Tick(t)).sys.mem, pc') == EnqueueLeft(c.sys.mem, pc) - 1))
  {
    var left := ProdLeft(c.sys.threads[t]);
    if HoldsProd(RankOf(c.sys.threads[t])) {
      hide Inv;
      QuietTurn(c, t);
      TicketFacts(c, t);
      ThreadAt(c, t);
      assert ProdTurn(c, t, c.aux.pt, left);
      ProdTurnStep(c, Tick(t), t, c.aux.pt, left);
    } else {
      EnqueueTriesAlone(c, t);
    }
  }

  /** An enqueue whose thread is left alone, from whatever point of the call, with no other producer
      past its claim, returns within twelve steps: a lost compare-and-set is followed by fresh
      loads, and only another thread's claim makes one lose. */
  lemma {:induction false} EnqueueReturnsAlone(c: Config, es: seq<Event>, t: Tid)
    requires Inv(c) && IsRun(c, es) && RunHasRoom(c, es) && Alone(es, t)
    requires ProducersQuiet(c, t) && Producing(c.sys.threads[t])
    ensures ReturnAt(c, es, t).None? ==> |es| < EnqueueLeft(c.sys.mem, c.sys.threads[t])
    decreases |es|
  {
    hide Inv, Legal, Room, Step, EnqueueLeft;
    assert !c.sys.threads[t].Idle?;
    if es == [] {
      InvInRange(c, t);
      EnqueueAloneStep(c, t);
    } else {
      StepKeeps(c, es[0]);
      EnqueueAloneStep(c, t);
      var d := Step(c, es[0]);
      if d.sys.threads[t].Idle? { assert ReturnAt(d, es[1..], t) == Some(d); } else { EnqueueReturnsAlone(d, es[1..], t); }
    }
  }

  /** The same for the multi-consumer dequeue, within eight steps. */
  function DequeueLeft(m: Memory, pc: Pc): (r: nat)
    ensures r <= 8
  {
    match pc
    case MHead => 6
    case MTail(h) => if h == m.consHead then 5 else 8
    case MCas(h) => if h == m.consHead then 4 else 7
    case _ => ConsLeft(pc)
  }

  predicate ConsumersQuiet(c: Config, t: Tid)
  {
    t < |c.sys.threads| && forall u | 0 <= u < |c.sys.threads| && u != t :: !HoldsCons(RankOf(c.sys.threads[u]))
  }

  predicate InDequeueMc(pc: Pc)
  {
    pc.MHead? || pc.MTail? || pc.MCas? || pc.MRead? || pc.MSpin? || pc.MStoreTail?
  }

  lemma QuietConsumerTurn(c: Config, t: Tid)
    requires Inv(c) && ConsumersQuiet(c, t)
    ensures |c.aux.notes| == |c.sys.threads|
    ensures c.aux.ct == |c.aux.got| || (HoldsCons(RankOf(c.sys.threads[t])) && c.aux.notes[t].ticket == c.aux.ct)
    ensures HoldsCons(RankOf(c.sys.threads[t])) ==> c.aux.notes[t].ticket == c.aux.ct
  {
    hide Inv;
    ThreadAt(c, t);
    if c.aux.ct < |c.aux.got| { ClaimHolder(c, c.aux.ct); }
    if HoldsCons(RankOf(c.sys.threads[t])) { TicketFacts(c, t); }
  }

  lemma DequeueTriesAlone(c: Config, t: Tid)
    requires Legal(c, Tick(t)) && (c.sys.threads[t].MHead? || c.sys.threads[t].MTail? || c.sys.threads[t].MCas?)
    ensures var pc, pc' := c.sys.threads[t], Step(c, Tick(t)).sys.threads[t];
      pc'.Idle? || (InDequeueMc(pc') && DequeueLeft(Step(c, Tick(t)).sys.mem, pc') == DequeueLeft(c.sys.mem, pc) - 1)
  {
  }

  lemma DequeueAloneStep(c: Config, t: Tid)
    requires Inv(c) && Legal(c, Tick(t)) && ConsumersQuiet(c, t) && InDequeueMc(c.sys.threads[t])
    ensures ConsumersQuiet(Step(c, Tick(t)), t)
    ensures var pc, pc' := c.sys.threads[t], Step(c, Tick(t)).sys.threads[t];
      && DequeueLeft(c.sys.mem, pc) > 0
      && (pc'.Idle? || (InDequeueMc(pc') && DequeueLeft(Step(c, Tick(t)).sys.mem, pc') == DequeueLeft(c.sys.mem, pc) - 1))
  {
    var left := ConsLeft(c.sys.threads[t]);
    if HoldsCons(RankOf(c.sys.threads[t])) {
      hide Inv;
      QuietConsumerTurn(c, t);
      TicketFacts(c, t);
      ThreadAt(c, t);
      assert ConsTurn(c, t, c.aux.ct, left);
      ConsTurnStep(c, Tick(t), t, c.aux.ct, left);
    } else {
      DequeueTriesAlone(c, t);
    }
  }

  lemma {:induction false} DequeueReturnsAlone(c: Config, es: seq<Event>, t: Tid)
    requires Inv(c) && IsRun(c, es) && RunHasRoom(c, es) && Alone(es, t)
    requires ConsumersQuiet(c, t) && InDequeueMc(c.sys.threads[t])
    ensures ReturnAt(c, es, t).None? ==> |es| < DequeueLeft(c.sys.mem, c.sys.threads[t])
    decreases |es|
  {
    hide Inv, Legal, Room, Step, DequeueLeft;
    assert !c.sys.threads[t].Idle?;
    if es == [] {
      InvInRange(c, t);
      DequeueAloneStep(c, t);
    } else {
      StepKeeps(c, es[0]);
      DequeueAloneStep(c, t);
      var d := Step(c, es[0]);
      if d.sys.threads[t].Idle? { assert ReturnAt(d, es[1..], t) == Some(d); } else { DequeueReturnsAlone(d, es[1..], t); }
    }
  }

  /** A claim that is lost was lost to another: more places, or entries, have been claimed since the
      head was loaded. */
  lemma LostClaim(c: Config, t: Tid)
    requires Reachable(c) && t < |c.sys.threads|
    ensures |c.aux.notes| == |c.sys.threads|
    ensures c.sys.threads[t].ECas? && c.sys.threads[t].h != c.sys.mem.prodHead ==> c.aux.notes[t].head < |c.aux.sent|
    ensures c.sys.threads[t].MCas? && c.sys.threads[t].h != c.sys.mem.consHead ==> c.aux.notes[t].head < |c.aux.got|
  {
    hide Reachable, Inv, Shared, GoodSize, Wrap;
    ReachableHasInv(c);
    ThreadAt(c, t);
  }

  // ------------------------------------------------------- the conditional dequeue

  /** A packet that the condition rejects stays where it is: the call returns NULL at once and the
      packet is still the front of the queue. */
  lemma RejectedIsKept(c: Config, t: Tid, es: seq<Event>)
    requires Reachable(c) && Legal(c, Judge(t, false)) && IsRun(Step(c, Judge(t, false)), es)
    ensures FirstReturn(Step(c, Judge(t, false)), es, t) == Some(Null)
    ensures var a := Step(c, Judge(t, false)).aux;
      |a.got| < a.pt <= |a.sent| && Pending(a) == Pending(c.aux) && Pending(a)[0] == c.sys.threads[t].b
  {
    hide Reachable, Inv;
    PeekShowsFront(c, t);
  }

  /** Steps from here to the condition. */
  function PeekLeft(pc: Pc): nat
  {
    match pc
    case KHead => 4
    case KTail(_) => 3
    case KHeadAgain => 2
    case KSlot(_) => 1
    case _ => 0
  }

  /** Thread `t` is on its way to ask the condition about `b`, the front of the queue, or there. */
  predicate Peeking(c: Config, t: Tid, b: Buf, left: nat)
  {
    && t < |c.sys.threads| && left == PeekLeft(c.sys.threads[t])
    && (left > 0 || c.sys.threads[t] == KJudge(b))
    && |c.aux.got| < c.aux.pt <= |c.aux.sent| && c.aux.sent[|c.aux.got|].buf == b
  }

  lemma PeekingStep(c: Config, e: Event, t: Tid, b: Buf, left: nat)
    requires Inv(c) && Legal(c, e) && Peeking(c, t, b, left) && b != NULL && !(e.Judge? && e.t == t)
    ensures e != Tick(t) ==> Peeking(Step(c, e), t, b, left)
    ensures e == Tick(t) ==> left > 0 && Peeking(Step(c, e), t, b, left - 1)
  {
    hide Inv, Shared, GoodSize, Wrap;
    ThreadAt(c, t);
    ThreadAt(c, e.t);
    EmptyExactly(c.sys.mem, c.aux);
    FrontSlot(c);
  }

  lemma {:induction false} PeekingRun(c: Config, es: seq<Event>, t: Tid, b: Buf, left: nat)
    requires Inv(c) && IsRun(c, es) && RunHasRoom(c, es) && Peeking(c, t, b, left) && b != NULL
    requires forall i | 0 <= i < |es| :: !(es[i].Judge? && es[i].t == t)
    ensures Turns(es, t) <= left && Peeking(After(c, es), t, b, left - Turns(es, t))
    decreases |es|
  {
    hide Inv, Legal, Room, Step, Peeking;
    if es != [] {
      StepKeeps(c, es[0]);
      PeekingStep(c, es[0], t, b, left);
      PeekingRun(Step(c, es[0]), es[1..], t, b, if es[0] == Tick(t) then left - 1 else left);
    }
  }

  /** drbr_dequeue_cond on a queue whose front is a packet asks the condition about that packet: in
      every run, until the condition has answered, the call is at most four steps from asking and
      never returns, whatever the producers do. */
  lemma FrontReachesCondition(c: Config, t: Tid, es: seq<Event>)
    requires Reachable(c) && Legal(c, CallDequeueCond(t))
    requires |c.aux.got| < c.aux.pt <= |c.aux.sent| && Pending(c.aux)[0] != NULL
    requires IsRun(Step(c, CallDequeueCond(t)), es) && RunHasRoom(Step(c, CallDequeueCond(t)), es)
    requires forall i | 0 <= i < |es| :: !(es[i].Judge? && es[i].t == t)
    ensures var d := After(Step(c, CallDequeueCond(t)), es);
      && Turns(es, t) <= 4 && t < |d.sys.threads| && !d.sys.threads[t].Idle?
      && (Turns(es, t) == 4 ==> d.sys.threads[t] == KJudge(Pending(c.aux)[0]))
  {
    hide Reachable, Inv;
    ReachableHasInv(c);
    StepKeeps(c, CallDequeueCond(t));
    PeekStarts(c, t);
    hide IsRun, RunHasRoom, After, Step, Legal;
    PeekingRun(Step(c, CallDequeueCond(t)), es, t, Pending(c.aux)[0], 4);
  }

  lemma PeekStarts(c: Config, t: Tid)
    requires Legal(c, CallDequeueCond(t)) && |c.aux.got| < c.aux.pt <= |c.aux.sent|
    ensures Peeking(Step(c, CallDequeueCond(t)), t, Pending(c.aux)[0], 4)
  {
  }
}
