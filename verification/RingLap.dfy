/** Why the protocol needs its heads not to lap, and what it may answer when they merely move:
    concrete runs in which a thread sleeps between its accesses.
 */
module RingLap {
  import opened Bits
  import opened RingProtocol
  import opened RingInvariant
  import opened RingRuns
  import opened RingTheorems
  import opened RingSolo

  // ------------------------------------------------ what holds on the way

  predicate Outstanding(c: Config)
  {
    |c.aux.sent| - c.aux.ct == c.sys.mem.size - 1
  }

  /** No state of the run has size - 1 entries outstanding. */
  predicate NeverFull(c: Config, es: seq<Event>)
    requires IsRun(c, es)
    decreases |es|
  {
    !Outstanding(c) && (es == [] || NeverFull(Step(c, es[0]), es[1..]))
  }

  /** Every state of the run has a published entry that nobody has claimed. */
  predicate NeverEmpty(c: Config, es: seq<Event>)
    requires IsRun(c, es)
    decreases |es|
  {
    |c.aux.got| < c.aux.pt && (es == [] || NeverEmpty(Step(c, es[0]), es[1..]))
  }

  /** A run that sends too few entries in all never fills the ring. */
  lemma {:induction false} FewNeverFull(c: Config, es: seq<Event>)
    requires IsRun(c, es) && |After(c, es).aux.sent| < c.sys.mem.size - 1
    ensures NeverFull(c, es)
    decreases |es|
  {
    hide Step, Legal;
    RunGrows(c, es);
    if es != [] {
      StepGrows(c, es[0]);
      FewNeverFull(Step(c, es[0]), es[1..]);
    }
  }

  /** A run that claims fewer entries than were published before it never empties the ring. */
  lemma {:induction false} FewNeverEmpty(c: Config, es: seq<Event>)
    requires IsRun(c, es) && |After(c, es).aux.got| < c.aux.pt
    ensures NeverEmpty(c, es)
    decreases |es|
  {
    hide Step, Legal;
    RunGrows(c, es);
    if es != [] {
      StepGrows(c, es[0]);
      FewNeverEmpty(Step(c, es[0]), es[1..]);
    }
  }

  lemma {:induction false} NeverEmptyChain(c: Config, es: seq<Event>, fs: seq<Event>)
    requires IsRun(c, es) && IsRun(After(c, es), fs) && NeverEmpty(c, es) && NeverEmpty(After(c, es), fs)
    requires IsRun(c, es + fs)
    ensures NeverEmpty(c, es + fs)
    decreases |es|
  {
    hide Step, Legal;
    if es == [] {
      assert es + fs == fs;
    } else {
      assert (es + fs)[1..] == es[1..] + fs;
      NeverEmptyChain(Step(c, es[0]), es[1..], fs);
    }
  }

  // ----------------------------------------------------------- the runs

  /** A ring as buf_ring_alloc hands it out, and three idle threads. */
  function NewRing(size: nat): Config
  {
    Config(Sys(Memory(size, 0, 0, 0, 0, 0, 0, seq(size, _ => NULL)), [Idle(Fresh), Idle(Fresh), Idle(Fresh)]),
           Aux([], [], 0, [], [], 0, [Note(0, 0, 0), Note(0, 0, 0), Note(0, 0, 0)], 0, 0))
  }

  lemma SmallRings()
    ensures Init(NewRing(2)) && Succ(0, 2) == 1 && Succ(1, 2) == 0
    ensures Init(NewRing(4)) && Succ(0, 4) == 1 && Succ(1, 4) == 2 && Succ(2, 4) == 3 && Succ(3, 4) == 0
  {
    assert And(1, 1) == 1 && And(2, 1) == 0;
    assert And(1, 3) == 1 && And(2, 3) == 2 && And(3, 3) == 3 && And(4, 3) == 0;
    assert IsPow2(2) && IsPow2(4);
  }

  /** Three threads, none of them in a single-consumer call. */
  predicate ThreeThreads(c: Config, p0: Pc, p1: Pc, p2: Pc)
  {
    c.sys.threads == [p0, p1, p2] && |c.aux.notes| == 3 && !Sole(p0) && !Sole(p1) && !Sole(p2)
  }

  /** Sizes and indices of a ring with no call past its loads. */
  predicate Rests(c: Config, size: nat, prod: nat, cons: nat)
  {
    && c.sys.mem.size == |c.sys.mem.slots| == size
    && c.sys.mem.prodHead == c.sys.mem.prodTail == prod < size
    && c.sys.mem.consHead == c.sys.mem.consTail == cons < size
  }

  /** The buffers sent so far, all of them published, and how many were taken. */
  predicate Holds(c: Config, bufs: seq<Buf>, taken: nat)
  {
    Bufs(c.aux.sent) == bufs && c.aux.pt == |bufs| && |c.aux.got| == c.aux.ct == taken
  }

  /** Thread 1 enqueues `buf` alone. */
  lemma Sends(c: Config, p0: Pc, p1: Pc, p2: Pc, size: nat, prod: nat, cons: nat, bufs: seq<Buf>, taken: nat, buf: Buf)
    returns (es: seq<Event>, d: Config)
    requires ThreeThreads(c, p0, p1, p2) && p1.Idle? && Rests(c, size, prod, cons) && Holds(c, bufs, taken)
    requires Succ(prod, size) != cons && Succ(prod, size) < size
    ensures Leads(c, es, d) && RunUnlapped(c, es)
    ensures ThreeThreads(d, p0, Idle(Enqueued), p2) && Rests(d, size, Succ(prod, size), cons) && Holds(d, bufs + [buf], taken)
    ensures d.aux.notes[0] == c.aux.notes[0] && d.sys.mem.slots == c.sys.mem.slots[prod := buf]
  {
    hide Leads, RunUnlapped, Succ;
    es := EnqueueAlone(c, 1, buf, 0);
    d := EnqueueDone(c, 1, buf, 0);
  }

  /** Thread 2 dequeues alone. */
  lemma Takes(c: Config, p0: Pc, p1: Pc, p2: Pc, size: nat, prod: nat, cons: nat, bufs: seq<Buf>, taken: nat)
    returns (es: seq<Event>, d: Config)
    requires ThreeThreads(c, p0, p1, p2) && p2.Idle? && Rests(c, size, prod, cons) && Holds(c, bufs, taken)
    requires cons != prod && Succ(cons, size) < size
    ensures Leads(c, es, d) && RunUnlapped(c, es)
    ensures ThreeThreads(d, p0, p1, Idle(Got(c.sys.mem.slots[cons]))) && Rests(d, size, prod, Succ(cons, size)) && Holds(d, bufs, taken + 1)
    ensures d.aux.notes[0] == c.aux.notes[0] && d.sys.mem.slots == c.sys.mem.slots
  {
    hide Leads, RunUnlapped, Succ;
    es := DequeueAlone(c, 2);
    d := DequeueDone(c, 2);
  }

  lemma NewRingRests(size: nat)
    requires size == 2 || size == 4
    ensures var c := NewRing(size);
      && Init(c) && ThreeThreads(c, Idle(Fresh), Idle(Fresh), Idle(Fresh)) && Rests(c, size, 0, 0) && Holds(c, [], 0)
  {
    SmallRings();
  }

  /** Thread 0 makes one or both of the loads of an enqueue; then thread 1 enqueues 11 and thread 2
      dequeues it. */
  lemma Overtaken(size: nat, loads: nat) returns (es: seq<Event>, d: Config)
    requires (size == 2 || size == 4) && (loads == 1 || loads == 2)
    ensures Leads(NewRing(size), es, d) && RunUnlapped(NewRing(size), es)
    ensures ThreeThreads(d, if loads == 1 then ETail(33, 0, 0) else ECas(33, 0, 0), Idle(Enqueued), Idle(Got(11)))
    ensures Rests(d, size, 1, 1) && Holds(d, [11], 1)
  {
    hide Leads, RunUnlapped, Succ, Init, NewRing;
    SmallRings();
    NewRingRests(size);
    var c := NewRing(size);
    var pc, a := ETail(33, 0, 0), Noted(c.aux, 0, 0, c.aux.notes[0].tail);
    if loads == 1 {
      es := EnqueueBegins(c, 0, 33, 0);
    } else {
      es := EnqueueLoads(c, 0, 33, 0);
      pc, a := ECas(33, 0, 0), Noted(c.aux, 0, 0, c.aux.ct);
    }
    var c1 := At(c, 0, c.sys.mem, pc, a);
    var e1, c2 := Sends(c1, pc, Idle(Fresh), Idle(Fresh), size, 0, 0, [], 0, 11);
    var e2, c3 := Takes(c2, pc, Idle(Enqueued), Idle(Fresh), size, 1, 0, [11], 0);
    Chain(c, es, c1, e1, c2);
    Chain(c, es + e1, c2, e2, c3);
    es, d := es + e1 + e2, c3;
  }

  /** Without the hypothesis the ring loses entries.  Thread 1 refills the ring of two slots, bringing
      the head back to the index thread 0 loaded; thread 0's compare-and-set succeeds on the full
      ring, its entry is published, and the ring looks empty with both entries still in it. */
  lemma LappedClaimLosesEntries() returns (c0: Config, es: seq<Event>)
    ensures Init(c0) && IsRun(c0, es) && !RunHasRoom(c0, es)
    ensures var c := After(c0, es);
      && (forall t | 0 <= t < |c.sys.threads| :: c.sys.threads[t].Idle?)
      && Empty(c.sys.mem)
      && |c.aux.got| <= c.aux.pt <= |c.aux.sent| && Pending(c.aux) == [22, 33]
  {
    hide RunUnlapped, Succ, Init, NewRing, RunHasRoom, IsRun, After;
    SmallRings();
    c0 := NewRing(2);
    var c1, c2, e1, e2;
    es, c1 := Overtaken(2, 2);
    e1, c2 := Sends(c1, ECas(33, 0, 0), Idle(Enqueued), Idle(Got(11)), 2, 1, 1, [11], 1, 22);
    NoEvents(c2);
    assert c2.sys.threads[0 := ECas(33, 0, 0)] == c2.sys.threads;
    e2 := EnqueueEnds(c2, 0, 33, 0, 0, c2.sys.mem, c2.aux, []);
    var c := After(c2, e2);
    assert c.sys.threads == [Idle(Enqueued), Idle(Enqueued), Idle(Got(11))];
    assert Bufs(c.aux.sent) == Bufs(c2.aux.sent) + [33] == [11, 22, 33] && c.aux.pt == 3 && |c.aux.got| == 1;
    assert Pending(c.aux) == [22, 33];
    Chain(c0, es, c1, e1, c2);
    Chain(c0, es + e1, c2, e2, c);
    es := es + e1 + e2;
    OverfullHadNoRoom(c0, es);
  }

  lemma OverfullHadNoRoom(c0: Config, es: seq<Event>)
    requires Init(c0) && IsRun(c0, es)
    requires var c := After(c0, es); |c.aux.sent| > c.aux.ct + c.sys.mem.size - 1
    ensures !RunHasRoom(c0, es)
  {
    if RunHasRoom(c0, es) {
      InitHolds(c0);
      RunKeeps(c0, es);
      assert false;
    }
  }

  /** ENOBUFS from a ring that was never full, with no lap anywhere: thread 0 loads the head of a
      ring of four slots; one entry goes in and out; the consumer tail is now one past the loaded
      head. */
  lemma SpuriousNoBufs() returns (c0: Config, es: seq<Event>)
    ensures Init(c0) && IsRun(c0, es) && RunUnlapped(c0, es) && NeverFull(c0, es)
    ensures var c := After(c0, es);
      |c.sys.threads| == 3 && c.sys.threads[0] == Idle(NoBufs) && |c.aux.sent| == c.aux.ct
  {
    hide RunUnlapped, Succ, Init, NewRing, IsRun, After, NeverFull;
    SmallRings();
    c0 := NewRing(4);
    var c1;
    es, c1 := Overtaken(4, 1);
    OneEvent(c1, Tick(0));
    Chain(c0, es, c1, [Tick(0)], Step(c1, Tick(0)));
    es := es + [Tick(0)];
    RunGrows(c0, es);
    FewNeverFull(c0, es);
  }

  /** A ring of four slots that holds 11. */
  lemma Stocked() returns (es: seq<Event>, d: Config)
    ensures Init(NewRing(4)) && Leads(NewRing(4), es, d) && RunUnlapped(NewRing(4), es)
    ensures ThreeThreads(d, Idle(Fresh), Idle(Enqueued), Idle(Fresh)) && Rests(d, 4, 1, 0) && Holds(d, [11], 0)
  {
    hide RunUnlapped, Succ, Init, NewRing, Leads;
    SmallRings();
    NewRingRests(4);
    es, d := Sends(NewRing(4), Idle(Fresh), Idle(Fresh), Idle(Fresh), 4, 0, 0, [], 0, 11);
  }

  /** Thread 0 loads the consumer head and thread 1 enqueues 22. */
  lemma NullBegins(c: Config) returns (es: seq<Event>, d: Config)
    requires ThreeThreads(c, Idle(Fresh), Idle(Enqueued), Idle(Fresh)) && Rests(c, 4, 1, 0) && Holds(c, [11], 0)
    ensures Leads(c, es, d) && RunUnlapped(c, es) && IsRun(c, es) && NeverEmpty(c, es)
    ensures ThreeThreads(d, MTail(0), Idle(Enqueued), Idle(Fresh)) && Rests(d, 4, 2, 0) && Holds(d, [11, 22], 0)
  {
    hide RunUnlapped, Succ, IsRun, After, NeverEmpty;
    SmallRings();
    var e1 := DequeueBegins(c, 0);
    var c1 := At(c, 0, c.sys.mem, MTail(0), Noted(c.aux, 0, 0, c.aux.notes[0].tail));
    var e2;
    e2, d := Sends(c1, MTail(0), Idle(Enqueued), Idle(Fresh), 4, 1, 0, [11], 0, 22);
    Chain(c, e1, c1, e2, d);
    es := e1 + e2;
    FewNeverEmpty(c, es);
  }

  /** Thread 2 dequeues 11, thread 1 enqueues 33 and 44, and thread 0 looks at the producer tail. */
  lemma NullEnds(c: Config) returns (es: seq<Event>, d: Config)
    requires ThreeThreads(c, MTail(0), Idle(Enqueued), Idle(Fresh)) && Rests(c, 4, 2, 0) && Holds(c, [11, 22], 0)
    ensures Leads(c, es, d) && RunUnlapped(c, es) && IsRun(c, es) && NeverEmpty(c, es)
    ensures |d.sys.threads| == 3 && d.sys.threads[0] == Idle(Null) && Holds(d, [11, 22, 33, 44], 1)
  {
    hide RunUnlapped, Succ, IsRun, After, NeverEmpty;
    SmallRings();
    var p0, got := MTail(0), Idle(Got(c.sys.mem.slots[0]));
    var e1, c1 := Takes(c, p0, Idle(Enqueued), Idle(Fresh), 4, 2, 0, [11, 22], 0);
    var e2, c2 := Sends(c1, p0, Idle(Enqueued), got, 4, 2, 1, [11, 22], 1, 33);
    var e3, c3 := Sends(c2, p0, Idle(Enqueued), got, 4, 3, 1, [11, 22, 33], 1, 44);
    OneEvent(c3, Tick(0));
    d := Step(c3, Tick(0));
    Chain(c, e1, c1, e2, c2);
    Chain(c, e1 + e2, c2, e3, c3);
    Chain(c, e1 + e2 + e3, c3, [Tick(0)], d);
    es := e1 + e2 + e3 + [Tick(0)];
    FewNeverEmpty(c, es);
  }

  /** NULL from a ring that held an entry throughout the call, with no lap anywhere: thread 0 is idle
      after `es`, its whole call is in `fs`, and three entries are pending when it is refused. */
  lemma SpuriousNull() returns (c0: Config, es: seq<Event>, fs: seq<Event>)
    ensures Init(c0) && IsRun(c0, es) && RunUnlapped(c0, es)
    ensures var c := After(c0, es);
      && |c.sys.threads| == 3 && c.sys.threads[0].Idle?
      && IsRun(c, fs) && RunUnlapped(c, fs) && NeverEmpty(c, fs)
      && var d := After(c, fs);
         && |d.sys.threads| == 3 && d.sys.threads[0] == Idle(Null)
         && |d.aux.got| <= d.aux.pt <= |d.aux.sent| && Pending(d.aux) == [22, 33, 44]
  {
    hide RunUnlapped, Succ, Init, NewRing, IsRun, After, NeverEmpty;
    c0 := NewRing(4);
    var c1, c2, c3, e1, e2;
    es, c1 := Stocked();
    e1, c2 := NullBegins(c1);
    e2, c3 := NullEnds(c2);
    Chain(c1, e1, c2, e2, c3);
    NeverEmptyChain(c1, e1, e2);
    fs := e1 + e2;
  }
}
