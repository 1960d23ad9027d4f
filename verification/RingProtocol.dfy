/** The lock-free ring buffer of sys/buf_ring.h as a transition system: any number of
    threads, one step for every shared load, store or compare-and-set, sequentially
    consistent memory.  `Sys` is what the machine holds; `Aux` is a history kept beside
    it that no step reads.
 */
module RingProtocol {
  import opened Bits
  import opened Wrappers

  /** A buffer pointer; 0 is NULL. */
  type Buf = nat
  const NULL: Buf := 0

  type Tid = nat

  const WORD32 := 0x1_0000_0000
  const WORD64 := 0x1_0000_0000_0000_0000

  /** What a finished call returned. */
  datatype Outcome = Fresh | Enqueued | NoBufs | Null | Got(buf: Buf)

  /** The fields of struct buf_ring that the calls share. */
  datatype Memory = Memory(
    size: nat,
    prodHead: nat,
    prodTail: nat,
    consHead: nat,
    consTail: nat,
    prodBufs: nat,
    prodBytes: nat,
    slots: seq<Buf>)

  /** A thread's program counter, named after the access it performs next, with its live locals.
      E: buf_ring_enqueue_bytes; M: buf_ring_dequeue_mc; K: the peek of drbr_dequeue_cond;
      S: buf_ring_dequeue_sc, where `want` is the packet the condition has accepted, if any. */
  datatype Pc =
    | Idle(last: Outcome)
    | EHead(buf: Buf, n: int)
    | ETail(buf: Buf, n: int, h: nat)
    | ECas(buf: Buf, n: int, h: nat)
    | EWrite(buf: Buf, n: int, h: nat)
    | ESpin(buf: Buf, n: int, h: nat)
    | ELoadBufs(buf: Buf, n: int, h: nat)
    | EStoreBufs(buf: Buf, n: int, h: nat, v: nat)
    | ELoadBytes(buf: Buf, n: int, h: nat)
    | EStoreBytes(buf: Buf, n: int, h: nat, v: nat)
    | EStoreTail(buf: Buf, n: int, h: nat)
    | MHead
    | MTail(h: nat)
    | MCas(h: nat)
    | MRead(h: nat)
    | MSpin(h: nat, b: Buf)
    | MStoreTail(h: nat, b: Buf)
    | KHead
    | KTail(h: nat)
    | KHeadAgain
    | KSlot(h: nat)
    | KJudge(b: Buf)
    | SHead(want: Option<Buf>)
    | STail(want: Option<Buf>, h: nat)
    | SStoreHead(want: Option<Buf>, h: nat)
    | SRead(want: Option<Buf>, h: nat)
    | SStoreTail(want: Option<Buf>, h: nat, b: Buf)

  datatype Sys = Sys(mem: Memory, threads: seq<Pc>)

  datatype Event =
    | Tick(t: Tid)
    | CallEnqueue(t: Tid, buf: Buf, n: int)
    | CallDequeueMc(t: Tid)
    | CallDequeueSc(t: Tid)
    | CallDequeueCond(t: Tid)
    | Judge(t: Tid, ok: bool)

  /** `(h + 1) & mask` on 32-bit words, with mask = size - 1. */
  function Succ(h: nat, size: nat): nat
    requires size > 0
  {
    And((h + 1) % WORD32, size - 1)
  }

  /** What buf_ring_alloc sets up: a power of two that fits a C int. */
  predicate GoodSize(size: nat)
  {
    2 <= size < 0x8000_0000 && IsPow2(size)
  }

  predicate AccessesSlot(pc: Pc)
  {
    pc.EWrite? || pc.MRead? || pc.KSlot? || pc.SRead?
  }

  /** The step's slot access, if it has one, is inside the array. */
  predicate InRange(m: Memory, pc: Pc)
  {
    m.size > 0 && (AccessesSlot(pc) ==> pc.h < |m.slots|)
  }

  /** One shared access by a thread at `pc`, with the local computation that follows it. */
  function Act(m: Memory, pc: Pc): (Memory, Pc)
    requires InRange(m, pc)
  {
    match pc
    case Idle(_) => (m, pc)
    case EHead(buf, n) => (m, ETail(buf, n, m.prodHead))
    case ETail(buf, n, h) => (m, if Succ(h, m.size) == m.consTail then Idle(NoBufs) else ECas(buf, n, h))
    case ECas(buf, n, h) =>
      if m.prodHead == h then (m.(prodHead := Succ(h, m.size)), EWrite(buf, n, h)) else (m, EHead(buf, n))
    case EWrite(buf, n, h) => (m.(slots := m.slots[h := buf]), ESpin(buf, n, h))
    case ESpin(buf, n, h) => (m, if m.prodTail == h then ELoadBufs(buf, n, h) else pc)
    case ELoadBufs(buf, n, h) => (m, EStoreBufs(buf, n, h, m.prodBufs))
    case EStoreBufs(buf, n, h, v) => (m.(prodBufs := (v + 1) % WORD64), ELoadBytes(buf, n, h))
    case ELoadBytes(buf, n, h) => (m, EStoreBytes(buf, n, h, m.prodBytes))
    case EStoreBytes(buf, n, h, v) => (m.(prodBytes := (v + n) % WORD64), EStoreTail(buf, n, h))
    case EStoreTail(buf, n, h) => (m.(prodTail := Succ(h, m.size)), Idle(Enqueued))
    case MHead => (m, MTail(m.consHead))
    case MTail(h) => (m, if h == m.prodTail then Idle(Null) else MCas(h))
    case MCas(h) => if m.consHead == h then (m.(consHead := Succ(h, m.size)), MRead(h)) else (m, MHead)
    case MRead(h) => (m, MSpin(h, m.slots[h]))
    case MSpin(h, b) => (m, if m.consTail == h then MStoreTail(h, b) else pc)
    case MStoreTail(h, b) => (m.(consTail := Succ(h, m.size)), Idle(Got(b)))
    case KHead => (m, KTail(m.consHead))
    case KTail(h) => (m, if h == m.prodTail then Idle(Null) else KHeadAgain)
    case KHeadAgain => (m, KSlot(m.consHead))
    case KSlot(h) => (m, if m.slots[h] == NULL then Idle(Null) else KJudge(m.slots[h]))
    case KJudge(_) => (m, pc)
    case SHead(want) => (m, STail(want, m.consHead))
    case STail(want, h) => (m, if h == m.prodTail then Idle(Null) else SStoreHead(want, h))
    case SStoreHead(want, h) => (m.(consHead := Succ(h, m.size)), SRead(want, h))
    case SRead(want, h) => (m, SStoreTail(want, h, m.slots[h]))
    case SStoreTail(want, h, b) => (m.(consTail := Succ(h, m.size)), Idle(Got(b)))
  }

  /** The thread is inside a call that consumes. */
  predicate Consuming(pc: Pc)
  {
    !pc.Idle? && !Producing(pc)
  }

  predicate Producing(pc: Pc)
  {
    pc.EHead? || pc.ETail? || pc.ECas? || HoldsProd(RankOf(pc))
  }

  /** The thread is inside a call that must run under the consumer lock. */
  predicate Sole(pc: Pc)
  {
    pc.KHead? || pc.KTail? || pc.KHeadAgain? || pc.KSlot? || pc.KJudge?
    || pc.SHead? || pc.STail? || pc.SStoreHead? || pc.SRead? || pc.SStoreTail?
  }

  /** Which steps can happen.  Only the callers' lock discipline restricts them: the
      single-consumer calls are made with no other consumer active. */
  predicate Enabled(s: Sys, e: Event)
  {
    e.t < |s.threads| && s.mem.size > 0 &&
    var pc := s.threads[e.t];
    match e
    case Tick(_) => !pc.Idle? && !pc.KJudge? && InRange(s.mem, pc)
    case CallEnqueue(_, _, _) => pc.Idle?
    case CallDequeueMc(_) => pc.Idle? && forall u | 0 <= u < |s.threads| :: !Sole(s.threads[u])
    case CallDequeueSc(_) => pc.Idle? && forall u | 0 <= u < |s.threads| :: !Consuming(s.threads[u])
    case CallDequeueCond(_) => pc.Idle? && forall u | 0 <= u < |s.threads| :: !Consuming(s.threads[u])
    case Judge(_, _) => pc.KJudge?
  }

  /** The memory and the acting thread's new program counter. */
  function Effect(s: Sys, e: Event): (Memory, Pc)
    requires Enabled(s, e)
  {
    match e
    case Tick(t) => Act(s.mem, s.threads[t])
    case CallEnqueue(t, buf, n) => (s.mem, EHead(buf, n))
    case CallDequeueMc(t) => (s.mem, MHead)
    case CallDequeueSc(t) => (s.mem, SHead(None))
    case CallDequeueCond(t) => (s.mem, KHead)
    case Judge(t, ok) => (s.mem, if ok then SHead(Some(s.threads[t].b)) else Idle(Null))
  }

  function Next(s: Sys, e: Event): Sys
    requires Enabled(s, e)
  {
    var (m, pc) := Effect(s, e);
    Sys(m, s.threads[e.t := pc])
  }

  // ---------------------------------------------------------------- history

  datatype Entry = Entry(buf: Buf, n: int)

  /** A thread's unwrapped readings: the head and the tail it loaded last, and the ticket its
      claim drew. */
  datatype Note = Note(head: nat, tail: nat, ticket: nat)

  /** `sent` lists what producers claimed a place for, in the order of their claims, and `pby`
      who claimed it; `got` and `cby` do the same for consumers, a read filling in the value.
      So |sent| and |got| are the two heads unwrapped, and `pt` and `ct` the two tails. */
  datatype Aux = Aux(
    sent: seq<Entry>,
    pby: seq<Tid>,
    pt: nat,
    got: seq<Option<Buf>>,
    cby: seq<Tid>,
    ct: nat,
    notes: seq<Note>,
    bufs0: nat,
    bytes0: nat)

  /** The step is a successful compare-and-set on the producer head. */
  predicate ClaimsProd(s: Sys, e: Event)
    requires Enabled(s, e)
  {
    e.Tick? && s.threads[e.t].ECas? && s.threads[e.t].h == s.mem.prodHead
  }

  predicate ClaimsConsMc(s: Sys, e: Event)
    requires Enabled(s, e)
  {
    e.Tick? && s.threads[e.t].MCas? && s.threads[e.t].h == s.mem.consHead
  }

  predicate ClaimsCons(s: Sys, e: Event)
    requires Enabled(s, e)
  {
    ClaimsConsMc(s, e) || (e.Tick? && s.threads[e.t].SStoreHead?)
  }

  function Track(s: Sys, a: Aux, e: Event): Aux
    requires Enabled(s, e) && |a.notes| == |s.threads|
  {
    var note := a.notes[e.t];
    if !e.Tick? then a
    else if ClaimsProd(s, e) then
      a.(sent := a.sent + [Entry(s.threads[e.t].buf, s.threads[e.t].n)],
         pby := a.pby + [e.t],
         notes := a.notes[e.t := note.(ticket := |a.sent|)])
    else if ClaimsCons(s, e) then
      a.(got := a.got + [None],
         cby := a.cby + [e.t],
         notes := a.notes[e.t := note.(ticket := |a.got|)])
    else match s.threads[e.t]
      case EHead(_, _) => a.(notes := a.notes[e.t := note.(head := |a.sent|)])
      case ETail(_, _, _) => a.(notes := a.notes[e.t := note.(tail := a.ct)])
      case EStoreTail(_, _, _) => a.(pt := a.pt + 1)
      case MHead => a.(notes := a.notes[e.t := note.(head := |a.got|)])
      case MTail(_) => a.(notes := a.notes[e.t := note.(tail := a.pt)])
      case MRead(h) => if note.ticket < |a.got| then a.(got := a.got[note.ticket := Some(s.mem.slots[h])]) else a
      case SRead(_, h) => if note.ticket < |a.got| then a.(got := a.got[note.ticket := Some(s.mem.slots[h])]) else a
      case MStoreTail(_, _) => a.(ct := a.ct + 1)
      case SStoreTail(_, _, _) => a.(ct := a.ct + 1)
      case _ => a
  }

  datatype Config = Config(sys: Sys, aux: Aux)

  predicate Legal(c: Config, e: Event)
  {
    Enabled(c.sys, e) && |c.aux.notes| == |c.sys.threads|
  }

  function Step(c: Config, e: Event): Config
    requires Legal(c, e)
  {
    Config(Next(c.sys, e), Track(c.sys, c.aux, e))
  }

  /** A run is a sequence of events each of which can happen where it does. */
  predicate IsRun(c: Config, es: seq<Event>)
    decreases |es|
  {
    es == [] || (Legal(c, es[0]) && IsRun(Step(c, es[0]), es[1..]))
  }

  function After(c: Config, es: seq<Event>): Config
    requires IsRun(c, es)
    decreases |es|
  {
    if es == [] then c else After(Step(c, es[0]), es[1..])
  }

  /** A ring as buf_ring_alloc hands it out, with no call in progress. */
  predicate Init(c: Config)
  {
    var m, a := c.sys.mem, c.aux;
    && GoodSize(m.size) && |m.slots| == m.size
    && m.prodHead == m.prodTail == m.consHead == m.consTail == 0
    && m.prodBufs < WORD64 && m.prodBytes < WORD64
    && (forall t | 0 <= t < |c.sys.threads| :: c.sys.threads[t].Idle?)
    && a == Aux([], [], 0, [], [], 0, a.notes, m.prodBufs, m.prodBytes)
    && |a.notes| == |c.sys.threads|
  }

  // ------------------------------------------------- what a claim needs

  /** A compare-and-set that succeeds finds the head where its thread loaded it, not merely at
      the same index a lap later. */
  predicate Unlapped(c: Config, e: Event)
    requires Legal(c, e)
  {
    && (ClaimsProd(c.sys, e) ==> c.aux.notes[e.t].head == |c.aux.sent|)
    && (ClaimsConsMc(c.sys, e) ==> c.aux.notes[e.t].head == |c.aux.got|)
  }

  /** A compare-and-set that succeeds finds a free slot, or a published entry, at that moment. */
  predicate Room(c: Config, e: Event)
    requires Legal(c, e)
  {
    && (ClaimsProd(c.sys, e) ==> |c.aux.sent| - c.aux.ct < c.sys.mem.size - 1)
    && (ClaimsConsMc(c.sys, e) ==> |c.aux.got| < c.aux.pt)
  }

  predicate RunUnlapped(c: Config, es: seq<Event>)
    requires IsRun(c, es)
    decreases |es|
  {
    es == [] || (Unlapped(c, es[0]) && RunUnlapped(Step(c, es[0]), es[1..]))
  }

  predicate RunHasRoom(c: Config, es: seq<Event>)
    requires IsRun(c, es)
    decreases |es|
  {
    es == [] || (Room(c, es[0]) && RunHasRoom(Step(c, es[0]), es[1..]))
  }

  // ---------------------------------------------- where a thread stands

  /** How far a thread has got with the ticket it holds, if it holds one. */
  datatype Rank = Free | Claimed | Filled | CountedBuf | CountedAll | Reader | Drained

  function RankOf(pc: Pc): Rank
  {
    match pc
    case EWrite(_, _, _) => Claimed
    case ESpin(_, _, _) => Filled
    case ELoadBufs(_, _, _) => Filled
    case EStoreBufs(_, _, _, _) => Filled
    case ELoadBytes(_, _, _) => CountedBuf
    case EStoreBytes(_, _, _, _) => CountedBuf
    case EStoreTail(_, _, _) => CountedAll
    case MRead(_) => Reader
    case MSpin(_, _) => Drained
    case MStoreTail(_, _) => Drained
    case SRead(_, _) => Reader
    case SStoreTail(_, _, _) => Drained
    case _ => Free
  }

  /** The thread owns a producer ticket: it has claimed a slot and not yet handed on the tail. */
  predicate HoldsProd(r: Rank)
  {
    r == Claimed || r == Filled || r == CountedBuf || r == CountedAll
  }

  /** The thread owns a consumer ticket. */
  predicate HoldsCons(r: Rank)
  {
    r == Reader || r == Drained
  }

  /** The thread has left the spin loop and not yet stored br_prod_tail. */
  predicate InSection(pc: Pc)
  {
    pc.ELoadBufs? || pc.EStoreBufs? || pc.ELoadBytes? || pc.EStoreBytes? || pc.EStoreTail?
  }
}
