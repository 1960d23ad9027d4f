/** Calls of the protocol that no other thread interrupts: what each does to the ring, as a run whose
    every event belongs to the calling thread.
 */
module RingSolo {
  import opened Bits
  import opened Wrappers
  import opened RingProtocol

  /** The events `es` take `c` to `c'`. */
  predicate Leads(c: Config, es: seq<Event>, c': Config)
  {
    IsRun(c, es) && After(c, es) == c'
  }

  predicate OnlyBy(es: seq<Event>, t: Tid)
  {
    forall i | 0 <= i < |es| :: es[i].t == t
  }

  /** The run begins with `e`. */
  predicate Opens(es: seq<Event>, e: Event)
  {
    es != [] && es[0] == e
  }

  lemma NoEvents(c: Config)
    ensures Leads(c, [], c) && RunUnlapped(c, [])
  {
  }

  lemma OneEvent(c: Config, e: Event)
    requires Legal(c, e)
    ensures Leads(c, [e], Step(c, e)) && (RunUnlapped(c, [e]) <==> Unlapped(c, e))
  {
    assert [e][1..] == [];
    assert IsRun(Step(c, e), []);
  }

  /** Runs can be put end to end. */
  lemma {:induction false} Chain(c: Config, es: seq<Event>, c': Config, fs: seq<Event>, c'': Config)
    requires Leads(c, es, c') && Leads(c', fs, c'')
    ensures Leads(c, es + fs, c'')
    ensures RunUnlapped(c, es + fs) <==> RunUnlapped(c, es) && RunUnlapped(c', fs)
    decreases |es|
  {
    if es == [] {
      assert es + fs == fs;
    } else {
      hide Step, Legal, Unlapped;
      Chain(Step(c, es[0]), es[1..], c', fs, c'');
      assert (es + fs)[1..] == es[1..] + fs;
    }
  }

  /** `c` with another memory and history, and thread `t` at `pc`. */
  function At(c: Config, t: Tid, m: Memory, pc: Pc, a: Aux): Config
    requires t < |c.sys.threads|
  {
    Config(Sys(m, c.sys.threads[t := pc]), a)
  }

  predicate Ready(c: Config, t: Tid, m: Memory, pc: Pc, a: Aux)
  {
    t < |c.sys.threads| == |a.notes| && !pc.Idle? && !pc.KJudge? && InRange(m, pc)
  }

  /** Thread `t`, at `pc`, takes one step, which leaves it at `pc'`. */
  lemma Turn(c: Config, t: Tid, m: Memory, pc: Pc, a: Aux, es: seq<Event>, m': Memory, pc': Pc, a': Aux) returns (es': seq<Event>)
    requires Ready(c, t, m, pc, a) && Leads(c, es, At(c, t, m, pc, a)) && OnlyBy(es, t)
    requires Act(m, pc) == (m', pc') && Track(At(c, t, m, pc, a).sys, a, Tick(t)) == a'
    ensures Leads(c, es', At(c, t, m', pc', a')) && OnlyBy(es', t) && es <= es'
    ensures RunUnlapped(c, es') <==> RunUnlapped(c, es) && Unlapped(At(c, t, m, pc, a), Tick(t))
  {
    hide Act, Track, IsRun, After, RunUnlapped, Unlapped;
    var d := At(c, t, m, pc, a);
    assert c.sys.threads[t := pc][t := pc'] == c.sys.threads[t := pc'];
    assert Step(d, Tick(t)) == At(c, t, m', pc', a');
    OneEvent(d, Tick(t));
    Chain(c, es, d, [Tick(t)], Step(d, Tick(t)));
    es' := es + [Tick(t)];
  }

  /** Thread `t` enters a call. */
  lemma Enter(c: Config, e: Event) returns (es: seq<Event>)
    requires Legal(c, e) && !e.Tick?
    ensures Leads(c, es, At(c, e.t, c.sys.mem, Effect(c.sys, e).1, c.aux)) && OnlyBy(es, e.t) && Opens(es, e) && RunUnlapped(c, es)
  {
    hide IsRun, After, RunUnlapped;
    OneEvent(c, e);
    es := [e];
  }

  // ---------------------------------------------------------------- enqueue

  /** The history once `t` has loaded a head of `head` and a tail of `tail`. */
  function Noted(a: Aux, t: Tid, head: nat, tail: nat): Aux
    requires t < |a.notes|
  {
    a.(notes := a.notes[t := a.notes[t].(head := head, tail := tail)])
  }

  function ProdTaken(a: Aux, t: Tid, x: Entry): Aux
    requires t < |a.notes|
  {
    a.(sent := a.sent + [x], pby := a.pby + [t], notes := a.notes[t := a.notes[t].(ticket := |a.sent|)])
  }

  /** br_prod_head and the slot, after a claim of slot `h` and its filling. */
  function Filled(m: Memory, h: nat, buf: Buf): Memory
    requires m.size > 0 && h < |m.slots|
  {
    m.(prodHead := Succ(h, m.size), slots := m.slots[h := buf])
  }

  function Counted(m: Memory, n: int): Memory
  {
    m.(prodBufs := (m.prodBufs + 1) % WORD64, prodBytes := (m.prodBytes + n) % WORD64)
  }

  /** What a successful enqueue does to the ring. */
  function AfterEnqueue(m: Memory, buf: Buf, n: int): Memory
    requires m.size > 0 && m.prodHead < |m.slots|
  {
    Counted(Filled(m, m.prodHead, buf), n).(prodTail := Succ(m.prodHead, m.size))
  }

  function EnqueueDone(c: Config, t: Tid, buf: Buf, n: int): Config
    requires t < |c.sys.threads| == |c.aux.notes| && c.sys.mem.size > 0 && c.sys.mem.prodHead < |c.sys.mem.slots|
  {
    var a := ProdTaken(Noted(c.aux, t, |c.aux.sent|, c.aux.ct), t, Entry(buf, n));
    At(c, t, AfterEnqueue(c.sys.mem, buf, n), Idle(Enqueued), a.(pt := a.pt + 1))
  }

  predicate IdleAt(c: Config, t: Tid)
  {
    t < |c.sys.threads| == |c.aux.notes| && c.sys.threads[t].Idle? && c.sys.mem.size > 0
  }

  /** An enqueue up to its first load. */
  lemma EnqueueBegins(c: Config, t: Tid, buf: Buf, n: int) returns (es: seq<Event>)
    requires IdleAt(c, t)
    ensures Leads(c, es, At(c, t, c.sys.mem, ETail(buf, n, c.sys.mem.prodHead), Noted(c.aux, t, |c.aux.sent|, c.aux.notes[t].tail)))
    ensures OnlyBy(es, t) && Opens(es, CallEnqueue(t, buf, n)) && RunUnlapped(c, es)
  {
    hide IsRun, After, RunUnlapped, Succ;
    var m, a := c.sys.mem, c.aux;
    es := Enter(c, CallEnqueue(t, buf, n));
    es := Turn(c, t, m, EHead(buf, n), a, es, m, ETail(buf, n, m.prodHead), Noted(a, t, |a.sent|, a.notes[t].tail));
  }

  /** Up to its second load, after which it is refused or tries to claim. */
  lemma EnqueueLoads(c: Config, t: Tid, buf: Buf, n: int) returns (es: seq<Event>)
    requires IdleAt(c, t)
    ensures var m, a := c.sys.mem, Noted(c.aux, t, |c.aux.sent|, c.aux.ct);
      Leads(c, es, At(c, t, m, if Succ(m.prodHead, m.size) == m.consTail then Idle(NoBufs) else ECas(buf, n, m.prodHead), a))
    ensures OnlyBy(es, t) && Opens(es, CallEnqueue(t, buf, n)) && RunUnlapped(c, es)
  {
    hide IsRun, After, RunUnlapped, Succ;
    var m, a, h := c.sys.mem, c.aux, c.sys.mem.prodHead;
    es := EnqueueBegins(c, t, buf, n);
    es := Turn(c, t, m, ETail(buf, n, h), Noted(a, t, |a.sent|, a.notes[t].tail), es,
               m, if Succ(h, m.size) == m.consTail then Idle(NoBufs) else ECas(buf, n, h), Noted(a, t, |a.sent|, a.ct));
  }

  /** From the claim to the slot. */
  lemma EnqueueFills(c: Config, t: Tid, buf: Buf, n: int, h: nat, m: Memory, a: Aux, es: seq<Event>) returns (es': seq<Event>)
    requires Ready(c, t, m, ECas(buf, n, h), a) && Leads(c, es, At(c, t, m, ECas(buf, n, h), a)) && OnlyBy(es, t)
    requires m.prodHead == h < |m.slots|
    ensures Leads(c, es', At(c, t, Filled(m, h, buf), ESpin(buf, n, h), ProdTaken(a, t, Entry(buf, n)))) && OnlyBy(es', t) && es <= es'
    ensures RunUnlapped(c, es') <==> RunUnlapped(c, es) && a.notes[t].head == |a.sent|
  {
    hide IsRun, After, RunUnlapped, Succ, Leads;
    var a1, m1 := ProdTaken(a, t, Entry(buf, n)), m.(prodHead := Succ(h, m.size));
    es' := Turn(c, t, m, ECas(buf, n, h), a, es, m1, EWrite(buf, n, h), a1);
    es' := Turn(c, t, m1, EWrite(buf, n, h), a1, es', Filled(m, h, buf), ESpin(buf, n, h), a1);
  }

  /** From the slot, when it is this thread's turn, to the first counter. */
  lemma EnqueueCountsBuf(c: Config, t: Tid, buf: Buf, n: int, h: nat, m: Memory, a: Aux, es: seq<Event>) returns (es': seq<Event>)
    requires Ready(c, t, m, ESpin(buf, n, h), a) && Leads(c, es, At(c, t, m, ESpin(buf, n, h), a)) && OnlyBy(es, t)
    requires m.prodTail == h
    ensures Leads(c, es', At(c, t, m.(prodBufs := (m.prodBufs + 1) % WORD64), ELoadBytes(buf, n, h), a)) && OnlyBy(es', t) && es <= es'
    ensures RunUnlapped(c, es') <==> RunUnlapped(c, es)
  {
    hide IsRun, After, RunUnlapped, Succ, Leads;
    var m1 := m.(prodBufs := (m.prodBufs + 1) % WORD64);
    es' := Turn(c, t, m, ESpin(buf, n, h), a, es, m, ELoadBufs(buf, n, h), a);
    es' := Turn(c, t, m, ELoadBufs(buf, n, h), a, es', m, EStoreBufs(buf, n, h, m.prodBufs), a);
    es' := Turn(c, t, m, EStoreBufs(buf, n, h, m.prodBufs), a, es', m1, ELoadBytes(buf, n, h), a);
  }

  /** The second counter. */
  lemma EnqueueCountsBytes(c: Config, t: Tid, buf: Buf, n: int, h: nat, m: Memory, a: Aux, es: seq<Event>) returns (es': seq<Event>)
    requires Ready(c, t, m, ELoadBytes(buf, n, h), a) && Leads(c, es, At(c, t, m, ELoadBytes(buf, n, h), a)) && OnlyBy(es, t)
    ensures Leads(c, es', At(c, t, m.(prodBytes := (m.prodBytes + n) % WORD64), EStoreTail(buf, n, h), a)) && OnlyBy(es', t) && es <= es'
    ensures RunUnlapped(c, es') <==> RunUnlapped(c, es)
  {
    hide IsRun, After, RunUnlapped, Succ, Leads;
    es' := Turn(c, t, m, ELoadBytes(buf, n, h), a, es, m, EStoreBytes(buf, n, h, m.prodBytes), a);
    es' := Turn(c, t, m, EStoreBytes(buf, n, h, m.prodBytes), a, es',
                m.(prodBytes := (m.prodBytes + n) % WORD64), EStoreTail(buf, n, h), a);
  }

  /** From the claim to the return, when it is this thread's turn. */
  lemma EnqueueEnds(c: Config, t: Tid, buf: Buf, n: int, h: nat, m: Memory, a: Aux, es: seq<Event>) returns (es': seq<Event>)
    requires Ready(c, t, m, ECas(buf, n, h), a) && Leads(c, es, At(c, t, m, ECas(buf, n, h), a)) && OnlyBy(es, t)
    requires m.prodHead == m.prodTail == h < |m.slots|
    ensures var a' := ProdTaken(a, t, Entry(buf, n));
      Leads(c, es', At(c, t, AfterEnqueue(m, buf, n), Idle(Enqueued), a'.(pt := a'.pt + 1))) && OnlyBy(es', t) && es <= es'
    ensures RunUnlapped(c, es') <==> RunUnlapped(c, es) && a.notes[t].head == |a.sent|
  {
    hide IsRun, After, RunUnlapped, Succ, Leads;
    var a' := ProdTaken(a, t, Entry(buf, n));
    var m1 := Filled(m, h, buf);
    es' := EnqueueFills(c, t, buf, n, h, m, a, es);
    es' := EnqueueCountsBuf(c, t, buf, n, h, m1, a', es');
    es' := EnqueueCountsBytes(c, t, buf, n, h, m1.(prodBufs := (m.prodBufs + 1) % WORD64), a', es');
    es' := Turn(c, t, Counted(m1, n), EStoreTail(buf, n, h), a', es', AfterEnqueue(m, buf, n), Idle(Enqueued), a'.(pt := a'.pt + 1));
  }

  /** An uninterrupted enqueue on a ring with no other enqueue in progress. */
  lemma EnqueueAlone(c: Config, t: Tid, buf: Buf, n: int) returns (es: seq<Event>)
    requires IdleAt(c, t) && c.sys.mem.prodHead == c.sys.mem.prodTail < |c.sys.mem.slots|
    requires Succ(c.sys.mem.prodHead, c.sys.mem.size) != c.sys.mem.consTail
    ensures Leads(c, es, EnqueueDone(c, t, buf, n)) && OnlyBy(es, t) && Opens(es, CallEnqueue(t, buf, n)) && RunUnlapped(c, es)
  {
    hide IsRun, After, RunUnlapped, Succ, Leads;
    es := EnqueueLoads(c, t, buf, n);
    es := EnqueueEnds(c, t, buf, n, c.sys.mem.prodHead, c.sys.mem, Noted(c.aux, t, |c.aux.sent|, c.aux.ct), es);
  }

  /** An uninterrupted enqueue on a full ring. */
  lemma EnqueueRefusedAlone(c: Config, t: Tid, buf: Buf, n: int) returns (es: seq<Event>)
    requires IdleAt(c, t) && Succ(c.sys.mem.prodHead, c.sys.mem.size) == c.sys.mem.consTail
    ensures Leads(c, es, At(c, t, c.sys.mem, Idle(NoBufs), Noted(c.aux, t, |c.aux.sent|, c.aux.ct)))
    ensures OnlyBy(es, t) && Opens(es, CallEnqueue(t, buf, n)) && RunUnlapped(c, es)
  {
    es := EnqueueLoads(c, t, buf, n);
  }

  // ---------------------------------------------------------------- dequeue

  function ConsTaken(a: Aux, t: Tid): Aux
    requires t < |a.notes|
  {
    a.(got := a.got + [None], cby := a.cby + [t], notes := a.notes[t := a.notes[t].(ticket := |a.got|)])
  }

  function ReadBy(a: Aux, t: Tid, b: Buf): Aux
    requires t < |a.notes| && a.notes[t].ticket < |a.got|
  {
    a.(got := a.got[a.notes[t].ticket := Some(b)])
  }

  /** What a successful dequeue does to the ring. */
  function AfterDequeue(m: Memory): Memory
    requires m.size > 0
  {
    m.(consHead := Succ(m.consHead, m.size), consTail := Succ(m.consHead, m.size))
  }

  /** A multi-consumer dequeue up to its first load. */
  lemma DequeueBegins(c: Config, t: Tid) returns (es: seq<Event>)
    requires IdleAt(c, t) && forall u | 0 <= u < |c.sys.threads| :: !Sole(c.sys.threads[u])
    ensures Leads(c, es, At(c, t, c.sys.mem, MTail(c.sys.mem.consHead), Noted(c.aux, t, |c.aux.got|, c.aux.notes[t].tail)))
    ensures OnlyBy(es, t) && Opens(es, CallDequeueMc(t)) && RunUnlapped(c, es)
  {
    hide IsRun, After, RunUnlapped, Succ, Leads;
    var m, a := c.sys.mem, c.aux;
    es := Enter(c, CallDequeueMc(t));
    es := Turn(c, t, m, MHead, a, es, m, MTail(m.consHead), Noted(a, t, |a.got|, a.notes[t].tail));
  }

  /** Up to its second load, after which it is refused or tries to claim. */
  lemma DequeueLoads(c: Config, t: Tid) returns (es: seq<Event>)
    requires IdleAt(c, t) && forall u | 0 <= u < |c.sys.threads| :: !Sole(c.sys.threads[u])
    ensures var m, a := c.sys.mem, Noted(c.aux, t, |c.aux.got|, c.aux.pt);
      Leads(c, es, At(c, t, m, if m.consHead == m.prodTail then Idle(Null) else MCas(m.consHead), a))
    ensures OnlyBy(es, t) && Opens(es, CallDequeueMc(t)) && RunUnlapped(c, es)
  {
    hide IsRun, After, RunUnlapped, Succ, Leads;
    var m, a, h := c.sys.mem, c.aux, c.sys.mem.consHead;
    es := DequeueBegins(c, t);
    es := Turn(c, t, m, MTail(h), Noted(a, t, |a.got|, a.notes[t].tail), es,
               m, if h == m.prodTail then Idle(Null) else MCas(h), Noted(a, t, |a.got|, a.pt));
  }

  function DequeueDone(c: Config, t: Tid): Config
    requires t < |c.sys.threads| == |c.aux.notes| && c.sys.mem.size > 0 && c.sys.mem.consHead < |c.sys.mem.slots|
  {
    var b := c.sys.mem.slots[c.sys.mem.consHead];
    var a := ReadBy(ConsTaken(Noted(c.aux, t, |c.aux.got|, c.aux.pt), t), t, b);
    At(c, t, AfterDequeue(c.sys.mem), Idle(Got(b)), a.(ct := a.ct + 1))
  }

  /** From the claim to the slot. */
  lemma DequeueReads(c: Config, t: Tid, h: nat, m: Memory, a: Aux, es: seq<Event>) returns (es': seq<Event>)
    requires Ready(c, t, m, MCas(h), a) && Leads(c, es, At(c, t, m, MCas(h), a)) && OnlyBy(es, t)
    requires m.consHead == h < |m.slots|
    ensures Leads(c, es', At(c, t, m.(consHead := Succ(h, m.size)), MSpin(h, m.slots[h]), ReadBy(ConsTaken(a, t), t, m.slots[h])))
    ensures OnlyBy(es', t) && es <= es' && (RunUnlapped(c, es') <==> RunUnlapped(c, es) && a.notes[t].head == |a.got|)
  {
    hide IsRun, After, RunUnlapped, Succ, Leads;
    var m1, a1 := m.(consHead := Succ(h, m.size)), ConsTaken(a, t);
    es' := Turn(c, t, m, MCas(h), a, es, m1, MRead(h), a1);
    es' := Turn(c, t, m1, MRead(h), a1, es', m1, MSpin(h, m.slots[h]), ReadBy(a1, t, m.slots[h]));
  }

  /** From the slot, when it is this thread's turn, to the return. */
  lemma DequeueEnds(c: Config, t: Tid, h: nat, b: Buf, m: Memory, a: Aux, es: seq<Event>) returns (es': seq<Event>)
    requires Ready(c, t, m, MSpin(h, b), a) && Leads(c, es, At(c, t, m, MSpin(h, b), a)) && OnlyBy(es, t)
    requires m.consTail == h
    ensures Leads(c, es', At(c, t, m.(consTail := Succ(h, m.size)), Idle(Got(b)), a.(ct := a.ct + 1)))
    ensures OnlyBy(es', t) && es <= es' && (RunUnlapped(c, es') <==> RunUnlapped(c, es))
  {
    hide IsRun, After, RunUnlapped, Succ, Leads;
    es' := Turn(c, t, m, MSpin(h, b), a, es, m, MStoreTail(h, b), a);
    es' := Turn(c, t, m, MStoreTail(h, b), a, es', m.(consTail := Succ(h, m.size)), Idle(Got(b)), a.(ct := a.ct + 1));
  }

  /** An uninterrupted multi-consumer dequeue on a ring with no other dequeue in progress. */
  lemma DequeueAlone(c: Config, t: Tid) returns (es: seq<Event>)
    requires IdleAt(c, t) && forall u | 0 <= u < |c.sys.threads| :: !Sole(c.sys.threads[u])
    requires c.sys.mem.consHead == c.sys.mem.consTail < |c.sys.mem.slots| && c.sys.mem.consHead != c.sys.mem.prodTail
    ensures Leads(c, es, DequeueDone(c, t)) && OnlyBy(es, t) && Opens(es, CallDequeueMc(t)) && RunUnlapped(c, es)
  {
    hide IsRun, After, RunUnlapped, Succ, Leads;
    var m, h, a := c.sys.mem, c.sys.mem.consHead, Noted(c.aux, t, |c.aux.got|, c.aux.pt);
    es := DequeueLoads(c, t);
    es := DequeueReads(c, t, h, m, a, es);
    es := DequeueEnds(c, t, h, m.slots[h], m.(consHead := Succ(h, m.size)), ReadBy(ConsTaken(a, t), t, m.slots[h]), es);
  }

  lemma DequeueRefusedAlone(c: Config, t: Tid) returns (es: seq<Event>)
    requires IdleAt(c, t) && forall u | 0 <= u < |c.sys.threads| :: !Sole(c.sys.threads[u])
    requires c.sys.mem.consHead == c.sys.mem.prodTail
    ensures Leads(c, es, At(c, t, c.sys.mem, Idle(Null), Noted(c.aux, t, |c.aux.got|, c.aux.pt)))
    ensures OnlyBy(es, t) && Opens(es, CallDequeueMc(t)) && RunUnlapped(c, es)
  {
    es := DequeueLoads(c, t);
  }

  /** An uninterrupted single-consumer dequeue: the same effect on the ring. */
  lemma DequeueScAlone(c: Config, t: Tid) returns (es: seq<Event>, a: Aux)
    requires IdleAt(c, t) && forall u | 0 <= u < |c.sys.threads| :: !Consuming(c.sys.threads[u])
    requires c.sys.mem.consHead == c.sys.mem.consTail < |c.sys.mem.slots| && c.sys.mem.consHead != c.sys.mem.prodTail
    ensures Leads(c, es, At(c, t, AfterDequeue(c.sys.mem), Idle(Got(c.sys.mem.slots[c.sys.mem.consHead])), a))
    ensures OnlyBy(es, t) && Opens(es, CallDequeueSc(t)) && RunUnlapped(c, es)
  {
    hide IsRun, After, RunUnlapped, Succ, Leads;
    var m, h, a0 := c.sys.mem, c.sys.mem.consHead, c.aux;
    var m1, b, a1 := m.(consHead := Succ(h, m.size)), m.slots[h], ConsTaken(a0, t);
    a := ReadBy(a1, t, b);
    es := Enter(c, CallDequeueSc(t));
    es := Turn(c, t, m, SHead(None), a0, es, m, STail(None, h), a0);
    es := Turn(c, t, m, STail(None, h), a0, es, m, SStoreHead(None, h), a0);
    es := Turn(c, t, m, SStoreHead(None, h), a0, es, m1, SRead(None, h), a1);
    es := Turn(c, t, m1, SRead(None, h), a1, es, m1, SStoreTail(None, h, b), a);
    es := Turn(c, t, m1, SStoreTail(None, h, b), a, es, AfterDequeue(m), Idle(Got(b)), a.(ct := a.ct + 1));
    a := a.(ct := a.ct + 1);
  }

  lemma DequeueScRefusedAlone(c: Config, t: Tid) returns (es: seq<Event>)
    requires IdleAt(c, t) && forall u | 0 <= u < |c.sys.threads| :: !Consuming(c.sys.threads[u])
    requires c.sys.mem.consHead == c.sys.mem.prodTail
    ensures Leads(c, es, At(c, t, c.sys.mem, Idle(Null), c.aux)) && OnlyBy(es, t) && Opens(es, CallDequeueSc(t)) && RunUnlapped(c, es)
  {
    hide IsRun, After, RunUnlapped, Succ, Leads;
    var m, h, a := c.sys.mem, c.sys.mem.consHead, c.aux;
    es := Enter(c, CallDequeueSc(t));
    es := Turn(c, t, m, SHead(None), a, es, m, STail(None, h), a);
    es := Turn(c, t, m, STail(None, h), a, es, m, Idle(Null), a);
  }

  // ------------------------------------------------------- whole calls as functions

  /** What an uninterrupted buf_ring_enqueue_bytes leaves and answers. */
  function EnqueueEffect(m: Memory, buf: Buf, n: int): (Memory, Outcome)
    requires m.size > 0 && m.prodHead < |m.slots|
  {
    if Succ(m.prodHead, m.size) == m.consTail then (m, NoBufs) else (AfterEnqueue(m, buf, n), Enqueued)
  }

  /** What an uninterrupted dequeue of either kind leaves and answers. */
  function DequeueEffect(m: Memory): (Memory, Outcome)
    requires m.size > 0 && m.consHead < |m.slots|
  {
    if m.consHead == m.prodTail then (m, Null) else (AfterDequeue(m), Got(m.slots[m.consHead]))
  }

  /** The calling thread makes the call and, left alone by the others, takes the ring to `m` and
      returns `out`. */
  predicate CallEnds(c: Config, call: Event, es: seq<Event>, m: Memory, out: Outcome)
  {
    && IsRun(c, es) && Opens(es, call) && OnlyBy(es, call.t) && RunUnlapped(c, es)
    && var d := After(c, es).sys;
       d.mem == m && |d.threads| == |c.sys.threads| && call.t < |d.threads| && d.threads[call.t] == Idle(out)
  }

  lemma EnqueueCall(c: Config, t: Tid, buf: Buf, n: int) returns (es: seq<Event>)
    requires IdleAt(c, t) && c.sys.mem.prodHead == c.sys.mem.prodTail < |c.sys.mem.slots|
    ensures var (m, out) := EnqueueEffect(c.sys.mem, buf, n); CallEnds(c, CallEnqueue(t, buf, n), es, m, out)
  {
    hide IsRun, After, RunUnlapped, Succ;
    if Succ(c.sys.mem.prodHead, c.sys.mem.size) == c.sys.mem.consTail {
      es := EnqueueRefusedAlone(c, t, buf, n);
    } else {
      es := EnqueueAlone(c, t, buf, n);
    }
  }

  lemma DequeueMcCall(c: Config, t: Tid) returns (es: seq<Event>)
    requires IdleAt(c, t) && c.sys.mem.consHead == c.sys.mem.consTail < |c.sys.mem.slots|
    requires forall u | 0 <= u < |c.sys.threads| :: !Sole(c.sys.threads[u])
    ensures var (m, out) := DequeueEffect(c.sys.mem); CallEnds(c, CallDequeueMc(t), es, m, out)
  {
    hide IsRun, After, RunUnlapped, Succ;
    if c.sys.mem.consHead == c.sys.mem.prodTail {
      es := DequeueRefusedAlone(c, t);
    } else {
      es := DequeueAlone(c, t);
    }
  }

  lemma DequeueScCall(c: Config, t: Tid) returns (es: seq<Event>)
    requires IdleAt(c, t) && c.sys.mem.consHead == c.sys.mem.consTail < |c.sys.mem.slots|
    requires forall u | 0 <= u < |c.sys.threads| :: !Consuming(c.sys.threads[u])
    ensures var (m, out) := DequeueEffect(c.sys.mem); CallEnds(c, CallDequeueSc(t), es, m, out)
  {
    hide IsRun, After, RunUnlapped, Succ;
    if c.sys.mem.consHead == c.sys.mem.prodTail {
      es := DequeueScRefusedAlone(c, t);
    } else {
      var a;
      es, a := DequeueScAlone(c, t);
    }
  }
}
