/** Every step keeps the invariant, so every run does; and exactly which compare-and-sets the
    protocol depends on.
 */
module RingRuns {
  import opened Bits
  import opened RingProtocol
  import opened RingInvariant

  /** Program counter and note of a thread after a step that leaves memory and counters alone. */
  lemma EnqueueMoves(c: Config, t: Tid)
    requires Inv(c) && Legal(c, Tick(t))
    requires var pc := c.sys.threads[t];
      pc.EHead? || pc.ETail? || (pc.ECas? && pc.h != c.sys.mem.prodHead) || pc.ESpin? || pc.ELoadBufs? || pc.ELoadBytes?
    ensures Inv(Step(c, Tick(t)))
  {
    hide Inv, Shared, Wrap, GoodSize;
    ThreadAt(c, t);
    var m, a, pc, note := c.sys.mem, c.aux, c.sys.threads[t], c.aux.notes[t];
    var pc', note' := Act(m, pc).1, Track(c.sys, a, Tick(t)).notes[t];
    if pc.ETail? { SuccWraps(note.head, m.size); }
    if pc.ESpin? && m.prodTail == pc.h { WrapInjective(a.pt, note.ticket, m.size); }
    ExclusiveKept(c.sys, t, m, pc');
    MoveKeeps(c, t, pc', note');
    assert Step(c, Tick(t)) == Moved(c, t, pc', note');
  }

  lemma DequeueMcMoves(c: Config, t: Tid)
    requires Inv(c) && Legal(c, Tick(t))
    requires var pc := c.sys.threads[t];
      pc.MHead? || pc.MTail? || (pc.MCas? && pc.h != c.sys.mem.consHead) || pc.MSpin?
    ensures Inv(Step(c, Tick(t)))
  {
    hide Inv, Shared, Wrap, GoodSize;
    ThreadAt(c, t);
    var m, a, pc, note := c.sys.mem, c.aux, c.sys.threads[t], c.aux.notes[t];
    var pc', note' := Act(m, pc).1, Track(c.sys, a, Tick(t)).notes[t];
    if pc.MSpin? && m.consTail == pc.h { WrapInjective(a.ct, note.ticket, m.size); }
    ExclusiveKept(c.sys, t, m, pc');
    MoveKeeps(c, t, pc', note');
    assert Step(c, Tick(t)) == Moved(c, t, pc', note');
  }

  lemma SoleMoves(c: Config, t: Tid)
    requires Inv(c) && Legal(c, Tick(t))
    requires var pc := c.sys.threads[t];
      pc.KHead? || pc.KTail? || pc.KHeadAgain? || pc.KSlot? || pc.SHead? || pc.STail?
    ensures Inv(Step(c, Tick(t)))
  {
    hide Inv, Shared, Wrap, GoodSize;
    ThreadAt(c, t);
    var m, a, pc, note := c.sys.mem, c.aux, c.sys.threads[t], c.aux.notes[t];
    var pc' := Act(m, pc).1;
    if pc.KSlot? { FrontSlot(c); }
    ExclusiveKept(c.sys, t, m, pc');
    MoveKeeps(c, t, pc', note);
    assert a.notes[t := note] == a.notes;
    assert Step(c, Tick(t)) == Moved(c, t, pc', note);
  }

  /** The slot at br_cons_head holds the oldest unclaimed entry. */
  lemma FrontSlot(c: Config)
    requires Inv(c) && |c.aux.got| < c.aux.pt
    ensures c.sys.mem.slots[c.sys.mem.consHead] == c.aux.sent[|c.aux.got|].buf
  {
  }

  /** Entering a call, and the verdict of the condition. */
  lemma CallMoves(c: Config, e: Event)
    requires Inv(c) && Legal(c, e) && !e.Tick?
    ensures Inv(Step(c, e))
  {
    hide Inv, Shared, Wrap, GoodSize;
    ThreadAt(c, e.t);
    var pc' := Effect(c.sys, e).1;
    CallExclusive(c.sys, e);
    MoveKeeps(c, e.t, pc', c.aux.notes[e.t]);
    assert c.aux.notes[e.t := c.aux.notes[e.t]] == c.aux.notes;
    assert Step(c, e) == Moved(c, e.t, pc', c.aux.notes[e.t]);
  }

  lemma CallExclusive(s: Sys, e: Event)
    requires Exclusive(s) && Enabled(s, e) && !e.Tick?
    ensures Exclusive(s.(threads := s.threads[e.t := Effect(s, e).1]))
  {
  }

  /** The steps that store, each against its lemma. */
  lemma StoreSteps(c: Config, t: Tid)
    requires Inv(c) && Legal(c, Tick(t)) && Room(c, Tick(t))
    requires var pc := c.sys.threads[t];
      pc.EWrite? || pc.EStoreBufs? || pc.EStoreBytes? || pc.EStoreTail? || pc.MRead? || pc.SRead?
      || pc.MStoreTail? || pc.SStoreTail? || ClaimsProd(c.sys, Tick(t)) || ClaimsConsMc(c.sys, Tick(t))
    ensures Inv(Step(c, Tick(t)))
  {
    hide Inv;
    match c.sys.threads[t] {
      case ECas(buf, n, h) => ClaimProdKeeps(c, t, Entry(buf, n));
      case EWrite(buf, n, h) => FillKeeps(c, t, buf, n, h);
      case EStoreBufs(buf, n, h, v) => CountBufKeeps(c, t, buf, n, h, v);
      case EStoreBytes(buf, n, h, v) => CountBytesKeeps(c, t, buf, n, h, v);
      case EStoreTail(buf, n, h) => PublishKeeps(c, t, buf, n, h);
      case MCas(h) => ClaimConsKeeps(c, t, MRead(h));
      case MRead(h) => DrainKeeps(c, t, MSpin(h, c.sys.mem.slots[h]));
      case SRead(want, h) => DrainKeeps(c, t, SStoreTail(want, h, c.sys.mem.slots[h]));
      case MStoreTail(h, b) => ReleaseKeeps(c, t);
      case SStoreTail(want, h, b) => ReleaseKeeps(c, t);
    }
  }

  lemma SoleClaims(c: Config, t: Tid)
    requires Inv(c) && Legal(c, Tick(t)) && c.sys.threads[t].SStoreHead?
    ensures Inv(Step(c, Tick(t)))
  {
    hide Inv, Shared, Wrap, GoodSize;
    ThreadAt(c, t);
    ClaimConsKeeps(c, t, SRead(c.sys.threads[t].want, c.sys.threads[t].h));
  }

  /** Every step of every thread keeps the invariant, provided a compare-and-set that succeeds
      finds room. */
  lemma StepKeeps(c: Config, e: Event)
    requires Inv(c) && Legal(c, e) && Room(c, e)
    ensures Inv(Step(c, e))
  {
    hide Inv;
    if !e.Tick? {
      CallMoves(c, e);
    } else {
      match c.sys.threads[e.t] {
        case EHead(_, _) => EnqueueMoves(c, e.t);
        case ETail(_, _, _) => EnqueueMoves(c, e.t);
        case ECas(_, _, h) => if h == c.sys.mem.prodHead { StoreSteps(c, e.t); } else { EnqueueMoves(c, e.t); }
        case ESpin(_, _, _) => EnqueueMoves(c, e.t);
        case ELoadBufs(_, _, _) => EnqueueMoves(c, e.t);
        case ELoadBytes(_, _, _) => EnqueueMoves(c, e.t);
        case MHead => DequeueMcMoves(c, e.t);
        case MTail(_) => DequeueMcMoves(c, e.t);
        case MCas(h) => if h == c.sys.mem.consHead { StoreSteps(c, e.t); } else { DequeueMcMoves(c, e.t); }
        case MSpin(_, _) => DequeueMcMoves(c, e.t);
        case KHead => SoleMoves(c, e.t);
        case KTail(_) => SoleMoves(c, e.t);
        case KHeadAgain => SoleMoves(c, e.t);
        case KSlot(_) => SoleMoves(c, e.t);
        case SHead(_) => SoleMoves(c, e.t);
        case STail(_, _) => SoleMoves(c, e.t);
        case SStoreHead(_, _) => SoleClaims(c, e.t);
        case _ => StoreSteps(c, e.t);
      }
    }
  }

  // ----------------------------------------------------- which claims are sound

  /** A head that has not moved since it was loaded is a claim with room: what the thread saw of
      the opposite tail can only have become more favourable. */
  lemma UnlappedHasRoom(c: Config, e: Event)
    requires Inv(c) && Legal(c, e) && Unlapped(c, e)
    ensures Room(c, e)
  {
    hide Inv, Shared, Wrap, GoodSize;
    ThreadAt(c, e.t);
    var m, a, note := c.sys.mem, c.aux, c.aux.notes[e.t];
    if ClaimsProd(c.sys, e) && |a.sent| - a.ct == m.size - 1 {
      assert note.tail == a.ct;
      FullWraps(a.ct, |a.sent|, m.size);
      assert false;
    }
  }

  /** The head of a full ring is one place behind its tail. */
  lemma {:induction false} FullWraps(tail: nat, head: nat, size: nat)
    requires 0 < size && head + 1 == tail + size
    ensures Wrap(head + 1, size) == Wrap(tail, size)
  {
  }

  lemma {:induction false} UnlappedRunHasRoom(c: Config, es: seq<Event>)
    requires Inv(c) && IsRun(c, es) && RunUnlapped(c, es)
    ensures RunHasRoom(c, es)
    decreases |es|
  {
    hide Inv;
    if es != [] {
      UnlappedHasRoom(c, es[0]);
      StepKeeps(c, es[0]);
      UnlappedRunHasRoom(Step(c, es[0]), es[1..]);
    }
  }

  lemma {:induction false} RunKeeps(c: Config, es: seq<Event>)
    requires Inv(c) && IsRun(c, es) && RunHasRoom(c, es)
    ensures Inv(After(c, es))
    decreases |es|
  {
    hide Inv;
    if es != [] {
      StepKeeps(c, es[0]);
      RunKeeps(Step(c, es[0]), es[1..]);
    }
  }

  /** The order of the four counters holds in every state of the run. */
  predicate BoundsThroughout(c: Config, es: seq<Event>)
    requires IsRun(c, es)
    decreases |es|
  {
    Bounds(c.sys.mem, c.aux) && (es == [] || BoundsThroughout(Step(c, es[0]), es[1..]))
  }

  /** A step that keeps the counters in order had room for its claim. */
  lemma BoundsNeedRoom(c: Config, e: Event)
    requires Legal(c, e) && Bounds(Step(c, e).sys.mem, Step(c, e).aux)
    ensures Room(c, e)
  {
  }

  /** Exactly which runs keep the counters in order: those in which every successful
      compare-and-set found a free slot, or a published entry, when it succeeded. */
  lemma {:induction false} BoundsExactlyWithRoom(c: Config, es: seq<Event>)
    requires Inv(c) && IsRun(c, es)
    ensures BoundsThroughout(c, es) <==> RunHasRoom(c, es)
    decreases |es|
  {
    assert Bounds(c.sys.mem, c.aux);
    hide Inv, Bounds;
    if es != [] {
      if BoundsThroughout(c, es) {
        BoundsHead(Step(c, es[0]), es[1..]);
        BoundsNeedRoom(c, es[0]);
      }
      if Room(c, es[0]) {
        StepKeeps(c, es[0]);
        BoundsExactlyWithRoom(Step(c, es[0]), es[1..]);
      }
    }
  }

  lemma BoundsHead(c: Config, es: seq<Event>)
    requires IsRun(c, es) && BoundsThroughout(c, es)
    ensures Bounds(c.sys.mem, c.aux)
  {
  }

  // --------------------------------------------------------------- monotonicity

  /** The history only grows. */
  lemma StepGrows(c: Config, e: Event)
    requires Legal(c, e)
    ensures var d := Step(c, e);
      && |c.aux.sent| <= |d.aux.sent| && |c.aux.got| <= |d.aux.got| && c.aux.pt <= d.aux.pt && c.aux.ct <= d.aux.ct
      && d.sys.mem.size == c.sys.mem.size
  {
  }

  lemma {:induction false} RunGrows(c: Config, es: seq<Event>)
    requires IsRun(c, es)
    ensures var d := After(c, es);
      && |c.aux.sent| <= |d.aux.sent| && |c.aux.got| <= |d.aux.got| && c.aux.pt <= d.aux.pt && c.aux.ct <= d.aux.ct
      && d.sys.mem.size == c.sys.mem.size
    decreases |es|
  {
    hide Step, Legal;
    if es != [] {
      StepGrows(c, es[0]);
      RunGrows(Step(c, es[0]), es[1..]);
    }
  }
}
