/** The inductive invariant of the ring protocol and the proof that every step keeps it. */
module RingInvariant {
  import opened Bits
  import opened Wrappers
  import opened RingProtocol

  /** cons_tail <= cons_head <= prod_tail <= prod_head <= cons_tail + size - 1, unwrapped. */
  predicate Bounds(m: Memory, a: Aux)
  {
    a.ct <= |a.got| <= a.pt <= |a.sent| <= a.ct + m.size - 1
  }

  /** The four stored indices are the residues of the unwrapped counters. */
  predicate Residues(m: Memory, a: Aux)
  {
    && GoodSize(m.size)
    && |m.slots| == m.size
    && m.prodHead == Wrap(|a.sent|, m.size)
    && m.prodTail == Wrap(a.pt, m.size)
    && m.consHead == Wrap(|a.got|, m.size)
    && m.consTail == Wrap(a.ct, m.size)
  }

  predicate Shape(rs: seq<Rank>, a: Aux)
  {
    && |a.notes| == |rs|
    && |a.pby| == |a.sent|
    && |a.cby| == |a.got|
    && (forall k | 0 <= k < |a.pby| :: a.pby[k] < |rs|)
    && (forall k | 0 <= k < |a.cby| :: a.cby[k] < |rs|)
  }

  /** Every ticket between a tail and its head belongs to a thread that is still working on it. */
  predicate Owned(rs: seq<Rank>, a: Aux)
    requires Shape(rs, a)
  {
    && (forall k | a.pt <= k < |a.sent| :: HoldsProd(rs[a.pby[k]]) && a.notes[a.pby[k]].ticket == k)
    && (forall k | a.ct <= k < |a.got| :: HoldsCons(rs[a.cby[k]]) && a.notes[a.cby[k]].ticket == k)
  }

  /** Every entry that is published, or that its producer has written, is in its slot until the
      consumer tail passes it. */
  predicate Contents(m: Memory, rs: seq<Rank>, a: Aux)
    requires Shape(rs, a) && Residues(m, a)
  {
    forall k | a.ct <= k < |a.sent| ::
      k < a.pt || rs[a.pby[k]] != Claimed ==> m.slots[Wrap(k, m.size)] == a.sent[k].buf
  }

  /** A consumer's read returned the entry its ticket names. */
  predicate Fifo(rs: seq<Rank>, a: Aux)
    requires Shape(rs, a) && |a.got| <= |a.sent|
  {
    forall k | 0 <= k < |a.got| ::
      a.got[k] == if k < a.ct || rs[a.cby[k]] == Drained then Some(a.sent[k].buf) else None
  }

  function BytesUpTo(sent: seq<Entry>, k: nat): int
    requires k <= |sent|
  {
    if k == 0 then 0 else BytesUpTo(sent, k - 1) + sent[k - 1].n
  }

  /** The statistics, counting the producer that is updating them as far as it has got. */
  predicate Stats(m: Memory, rs: seq<Rank>, a: Aux)
    requires Shape(rs, a) && a.pt <= |a.sent|
  {
    var r := if a.pt < |a.sent| then rs[a.pby[a.pt]] else Free;
    && m.prodBufs == (a.bufs0 + a.pt + (if r == CountedBuf || r == CountedAll then 1 else 0)) % WORD64
    && m.prodBytes == (a.bytes0 + BytesUpTo(a.sent, a.pt) + (if r == CountedAll then a.sent[a.pt].n else 0)) % WORD64
  }

  /** At most the single-consumer caller consumes while it is inside. */
  predicate Exclusive(s: Sys)
  {
    forall t, u | 0 <= t < |s.threads| && 0 <= u < |s.threads| && t != u ::
      Sole(s.threads[t]) ==> !Consuming(s.threads[u])
  }

  /** The accepted packet, if any, is the next one to be dequeued. */
  predicate Next1(a: Aux, want: Option<Buf>)
  {
    want.Some? ==> |a.got| < a.pt <= |a.sent| && a.sent[|a.got|].buf == want.value
  }

  /** A producer that has claimed slot `h` for its entry. */
  predicate ProdOk(m: Memory, a: Aux, t: Tid, buf: Buf, n: int, h: nat)
    requires m.size > 0 && t < |a.notes|
  {
    var k := a.notes[t].ticket;
    a.pt <= k < |a.sent| && k < |a.pby| && a.pby[k] == t && h == Wrap(k, m.size) && a.sent[k] == Entry(buf, n)
  }

  /** A consumer that has claimed slot `h`. */
  predicate ConsOk(m: Memory, a: Aux, t: Tid, h: nat)
    requires m.size > 0 && t < |a.notes|
  {
    var k := a.notes[t].ticket;
    a.ct <= k < |a.got| && k < |a.cby| && k < |a.sent| && a.cby[k] == t && h == Wrap(k, m.size)
  }

  predicate ReadOk(m: Memory, a: Aux, t: Tid, h: nat, b: Buf)
    requires m.size > 0 && t < |a.notes|
  {
    ConsOk(m, a, t, h) && b == a.sent[a.notes[t].ticket].buf
  }

  /** What a thread at `pc` may rely on. */
  predicate ThreadOk(m: Memory, a: Aux, t: Tid, pc: Pc)
    requires m.size > 0 && t < |a.notes|
  {
    var note := a.notes[t];
    match pc
    case Idle(_) => true
    case EHead(_, _) => true
    case ETail(_, _, h) => note.head <= |a.sent| && h == Wrap(note.head, m.size)
    case ECas(_, _, h) =>
      && note.head <= |a.sent| && h == Wrap(note.head, m.size)
      && note.tail <= a.ct && note.head <= note.tail + m.size - 1
      && Wrap(note.head + 1, m.size) != Wrap(note.tail, m.size)
    case EWrite(buf, n, h) => ProdOk(m, a, t, buf, n, h)
    case ESpin(buf, n, h) => ProdOk(m, a, t, buf, n, h)
    case ELoadBufs(buf, n, h) => ProdOk(m, a, t, buf, n, h) && note.ticket == a.pt
    case EStoreBufs(buf, n, h, v) => ProdOk(m, a, t, buf, n, h) && note.ticket == a.pt && v == m.prodBufs
    case ELoadBytes(buf, n, h) => ProdOk(m, a, t, buf, n, h) && note.ticket == a.pt
    case EStoreBytes(buf, n, h, v) => ProdOk(m, a, t, buf, n, h) && note.ticket == a.pt && v == m.prodBytes
    case EStoreTail(buf, n, h) => ProdOk(m, a, t, buf, n, h) && note.ticket == a.pt
    case MHead => true
    case MTail(h) => note.head <= |a.got| && h == Wrap(note.head, m.size)
    case MCas(h) =>
      && note.head <= |a.got| && h == Wrap(note.head, m.size)
      && note.head <= note.tail <= a.pt
      && Wrap(note.head, m.size) != Wrap(note.tail, m.size)
    case MRead(h) => ConsOk(m, a, t, h)
    case MSpin(h, b) => ReadOk(m, a, t, h, b)
    case MStoreTail(h, b) => ReadOk(m, a, t, h, b) && note.ticket == a.ct
    case KHead => true
    case KTail(h) => h == m.consHead
    case KHeadAgain => |a.got| < a.pt
    case KSlot(h) => h == m.consHead && |a.got| < a.pt
    case KJudge(b) => Next1(a, Some(b))
    case SHead(want) => Next1(a, want)
    case STail(want, h) => Next1(a, want) && h == m.consHead
    case SStoreHead(want, h) => Next1(a, want) && h == m.consHead && |a.got| < a.pt
    case SRead(want, h) =>
      ConsOk(m, a, t, h) && note.ticket == a.ct && (want.Some? ==> a.sent[note.ticket].buf == want.value)
    case SStoreTail(want, h, b) =>
      ReadOk(m, a, t, h, b) && note.ticket == a.ct && (want.Some? ==> b == want.value)
  }

  predicate Threads(s: Sys, a: Aux)
    requires s.mem.size > 0 && |a.notes| == |s.threads|
  {
    forall t | 0 <= t < |s.threads| :: ThreadOk(s.mem, a, t, s.threads[t])
  }

  /** The counters, and who holds the tickets between them. */
  predicate Tickets(m: Memory, rs: seq<Rank>, a: Aux)
  {
    Residues(m, a) && Shape(rs, a) && Bounds(m, a) && Owned(rs, a)
  }

  /** What the slots, the reads and the statistics hold. */
  predicate Data(m: Memory, rs: seq<Rank>, a: Aux)
    requires Tickets(m, rs, a)
  {
    Contents(m, rs, a) && Fifo(rs, a) && Stats(m, rs, a)
  }

  predicate Shared(m: Memory, rs: seq<Rank>, a: Aux)
  {
    Tickets(m, rs, a) && Data(m, rs, a)
  }

  function Ranks(threads: seq<Pc>): (rs: seq<Rank>)
    ensures |rs| == |threads| && forall t | 0 <= t < |threads| :: rs[t] == RankOf(threads[t])
  {
    seq(|threads|, t requires 0 <= t < |threads| => RankOf(threads[t]))
  }

  predicate Inv(c: Config)
  {
    && Shared(c.sys.mem, Ranks(c.sys.threads), c.aux)
    && Exclusive(c.sys)
    && Threads(c.sys, c.aux)
  }

  lemma InitHolds(c: Config)
    requires Init(c)
    ensures Inv(c)
  {
  }

  /** What the invariant says of one thread and of the counters. */
  lemma ThreadAt(c: Config, t: Tid)
    requires Inv(c) && t < |c.sys.threads|
    ensures Residues(c.sys.mem, c.aux) && Bounds(c.sys.mem, c.aux) && Exclusive(c.sys)
    ensures Shape(Ranks(c.sys.threads), c.aux) && Shared(c.sys.mem, Ranks(c.sys.threads), c.aux)
    ensures ThreadOk(c.sys.mem, c.aux, t, c.sys.threads[t])
  {
  }

  // ------------------------------------------------------------ small facts

  lemma SuccWraps(k: nat, size: nat)
    requires GoodSize(size)
    ensures Succ(Wrap(k, size), size) == Wrap(k + 1, size)
  {
    var w := Wrap(k, size);
    MaskWraps(w + 1, size);
    WrapNext(k, size);
  }

  lemma {:induction false} BytesAppend(sent: seq<Entry>, x: Entry, k: nat)
    requires k <= |sent|
    ensures BytesUpTo(sent + [x], k) == BytesUpTo(sent, k)
  {
    if k > 0 { BytesAppend(sent, x, k - 1); }
  }

  /** Distinct live tickets use distinct slots. */
  lemma SlotsDiffer(a: Aux, m: Memory, j: nat, k: nat)
    requires Residues(m, a) && Bounds(m, a)
    requires a.ct <= j < |a.sent| && a.ct <= k < |a.sent| && j != k
    ensures Wrap(j, m.size) != Wrap(k, m.size)
  {
    if Wrap(j, m.size) == Wrap(k, m.size) {
      if j < k { WrapInjective(j, k, m.size); } else { WrapInjective(k, j, m.size); }
    }
  }

  lemma RanksUpdate(threads: seq<Pc>, t: Tid, pc: Pc)
    requires t < |threads|
    ensures Ranks(threads[t := pc]) == Ranks(threads)[t := RankOf(pc)]
  {
  }

  // ------------------------------------------------------- the other threads

  /** What another thread's step must leave alone for `pc` to stay where it is. */
  predicate Undisturbed(m: Memory, a: Aux, m': Memory, a': Aux, t: Tid, pc: Pc)
    requires t < |a.notes|
  {
    && m'.size == m.size
    && |a'.notes| == |a.notes| && a'.notes[t] == a.notes[t]
    && a.sent <= a'.sent && a.pby <= a'.pby && |a.got| <= |a'.got| && a.cby <= a'.cby
    && a.pt <= a'.pt <= |a'.sent| && a.ct <= a'.ct
    && (a'.pt == a.pt || (HoldsProd(RankOf(pc)) ==> a'.pt <= a.notes[t].ticket && !InSection(pc)))
    && ((m'.prodBufs == m.prodBufs && m'.prodBytes == m.prodBytes) || !InSection(pc))
    && (a'.ct == a.ct || (HoldsCons(RankOf(pc)) ==> a'.ct <= a.notes[t].ticket && !pc.MStoreTail?))
    && ((a'.ct == a.ct && |a'.got| == |a.got| && m'.consHead == m.consHead) || !Sole(pc))
  }

  lemma Stable(m: Memory, a: Aux, m': Memory, a': Aux, t: Tid, pc: Pc)
    requires m.size > 0 && t < |a.notes| && ThreadOk(m, a, t, pc) && Undisturbed(m, a, m', a', t, pc)
    ensures ThreadOk(m', a', t, pc)
  {
    hide Wrap, GoodSize;
  }

  /** If no other thread is disturbed, only the moving thread and the shared part are left to
      check. */
  lemma Assemble(c: Config, t: Tid, m': Memory, pc: Pc, a': Aux)
    requires Inv(c) && t < |c.sys.threads| && |a'.notes| == |c.aux.notes| && m'.size == c.sys.mem.size
    requires forall u | 0 <= u < |c.sys.threads| && u != t ::
               Undisturbed(c.sys.mem, c.aux, m', a', u, c.sys.threads[u])
    requires ThreadOk(m', a', t, pc)
    requires Exclusive(Sys(m', c.sys.threads[t := pc]))
    requires Shared(m', Ranks(c.sys.threads)[t := RankOf(pc)], a')
    ensures Inv(Config(Sys(m', c.sys.threads[t := pc]), a'))
  {
    hide Wrap, GoodSize;
    var s, a := c.sys, c.aux;
    RanksUpdate(s.threads, t, pc);
    forall u | 0 <= u < |s.threads| && u != t ensures ThreadOk(m', a', u, s.threads[u]) {
      Stable(s.mem, a, m', a', u, s.threads[u]);
    }
  }

  lemma ExclusiveKept(s: Sys, t: Tid, m': Memory, pc: Pc)
    requires Exclusive(s) && t < |s.threads|
    requires (Sole(pc) ==> Sole(s.threads[t])) && (Consuming(pc) ==> Consuming(s.threads[t]))
    ensures Exclusive(Sys(m', s.threads[t := pc]))
  {
  }

  // --------------------------------------------- steps that only move a thread

  function Moved(c: Config, t: Tid, pc: Pc, note: Note): Config
    requires t < |c.sys.threads| && t < |c.aux.notes|
  {
    Config(c.sys.(threads := c.sys.threads[t := pc]), c.aux.(notes := c.aux.notes[t := note]))
  }

  lemma MoveShared(m: Memory, rs: seq<Rank>, a: Aux, t: Tid, note: Note)
    requires Shared(m, rs, a) && t < |a.notes| && note.ticket == a.notes[t].ticket
    ensures Shared(m, rs, a.(notes := a.notes[t := note]))
  {
    hide Wrap, GoodSize;
  }

  /** A step that changes neither memory nor any counter keeps the invariant if the moving
      thread may stand where it arrives. */
  lemma MoveKeeps(c: Config, t: Tid, pc: Pc, note: Note)
    requires Inv(c) && t < |c.sys.threads| && note.ticket == c.aux.notes[t].ticket
    requires RankOf(c.sys.threads[t]) == RankOf(pc)
    requires var a := c.aux.(notes := c.aux.notes[t := note]); ThreadOk(c.sys.mem, a, t, pc)
    requires Exclusive(c.sys.(threads := c.sys.threads[t := pc]))
    ensures Inv(Moved(c, t, pc, note))
  {
    hide Wrap, GoodSize;
    var s, a := c.sys, c.aux;
    var a' := a.(notes := a.notes[t := note]);
    MoveShared(s.mem, Ranks(s.threads), a, t, note);
    assert Ranks(s.threads)[t := RankOf(pc)] == Ranks(s.threads);
    Assemble(c, t, s.mem, pc, a');
  }

  // ------------------------------------------------------------- producer steps

  function ProdClaimed(a: Aux, t: Tid, x: Entry): Aux
    requires t < |a.notes|
  {
    a.(sent := a.sent + [x], pby := a.pby + [t], notes := a.notes[t := a.notes[t].(ticket := |a.sent|)])
  }

  lemma ClaimProdTickets(m: Memory, rs: seq<Rank>, a: Aux, t: Tid, x: Entry)
    requires Tickets(m, rs, a) && t < |rs| && rs[t] == Free
    requires |a.sent| - a.ct < m.size - 1
    ensures Tickets(m.(prodHead := Wrap(|a.sent| + 1, m.size)), rs[t := Claimed], ProdClaimed(a, t, x))
  {
  }

  lemma ClaimProdData(m: Memory, rs: seq<Rank>, a: Aux, t: Tid, x: Entry)
    requires Shared(m, rs, a) && t < |rs| && rs[t] == Free
    requires Tickets(m.(prodHead := Wrap(|a.sent| + 1, m.size)), rs[t := Claimed], ProdClaimed(a, t, x))
    ensures Data(m.(prodHead := Wrap(|a.sent| + 1, m.size)), rs[t := Claimed], ProdClaimed(a, t, x))
  {
    hide Wrap, GoodSize;
    BytesAppend(a.sent, x, a.pt);
  }

  /** A successful compare-and-set on br_prod_head with room in the ring. */
  lemma ClaimProdKeeps(c: Config, t: Tid, x: Entry)
    requires Inv(c) && t < |c.sys.threads| && |c.aux.sent| - c.aux.ct < c.sys.mem.size - 1
    requires c.sys.threads[t] == ECas(x.buf, x.n, c.sys.mem.prodHead)
    ensures Inv(Config(Sys(c.sys.mem.(prodHead := Succ(c.sys.mem.prodHead, c.sys.mem.size)),
                           c.sys.threads[t := EWrite(x.buf, x.n, c.sys.mem.prodHead)]),
                       ProdClaimed(c.aux, t, x)))
  {
    hide Inv, Tickets, Data, Wrap, GoodSize;
    ThreadAt(c, t);
    var m, a, rs := c.sys.mem, c.aux, Ranks(c.sys.threads);
    SuccWraps(|a.sent|, m.size);
    ClaimProdTickets(m, rs, a, t, x);
    ClaimProdData(m, rs, a, t, x);
    ExclusiveKept(c.sys, t, m.(prodHead := Wrap(|a.sent| + 1, m.size)), EWrite(x.buf, x.n, m.prodHead));
    Assemble(c, t, m.(prodHead := Wrap(|a.sent| + 1, m.size)), EWrite(x.buf, x.n, m.prodHead), ProdClaimed(a, t, x));
  }

  /** Writing the claimed slot. */
  lemma FillShared(m: Memory, rs: seq<Rank>, a: Aux, t: Tid, k: nat)
    requires Shared(m, rs, a) && t < |rs| && rs[t] == Claimed
    requires a.pt <= k < |a.sent| && a.pby[k] == t
    ensures Shared(m.(slots := m.slots[Wrap(k, m.size) := a.sent[k].buf]), rs[t := Filled], a)
  {
    hide Wrap, GoodSize;
    forall j | a.ct <= j < |a.sent| && j != k ensures Wrap(j, m.size) != Wrap(k, m.size) {
      SlotsDiffer(a, m, j, k);
    }
  }

  lemma FillKeeps(c: Config, t: Tid, buf: Buf, n: int, h: nat)
    requires Inv(c) && t < |c.sys.threads| && c.sys.threads[t] == EWrite(buf, n, h)
    ensures h < |c.sys.mem.slots|
    ensures Inv(Config(Sys(c.sys.mem.(slots := c.sys.mem.slots[h := buf]), c.sys.threads[t := ESpin(buf, n, h)]), c.aux))
  {
    hide Inv, Tickets, Data, Wrap, GoodSize;
    ThreadAt(c, t);
    var m, a := c.sys.mem, c.aux;
    FillShared(m, Ranks(c.sys.threads), a, t, a.notes[t].ticket);
    Assemble(c, t, m.(slots := m.slots[h := buf]), ESpin(buf, n, h), a);
  }

  /** br_prod_bufs++, second half. */
  lemma CountBufKeeps(c: Config, t: Tid, buf: Buf, n: int, h: nat, v: nat)
    requires Inv(c) && t < |c.sys.threads| && c.sys.threads[t] == EStoreBufs(buf, n, h, v)
    ensures Inv(Config(Sys(c.sys.mem.(prodBufs := (v + 1) % WORD64), c.sys.threads[t := ELoadBytes(buf, n, h)]), c.aux))
  {
    hide Inv, Tickets, Data, Wrap, GoodSize;
    ThreadAt(c, t);
    var m, a, rs := c.sys.mem, c.aux, Ranks(c.sys.threads);
    CountShared(m, rs, a, t, (v + 1) % WORD64, m.prodBytes, CountedBuf);
    OnlyOwnerCounts(c, t);
    Assemble(c, t, m.(prodBufs := (v + 1) % WORD64), ELoadBytes(buf, n, h), a);
  }

  /** br_prod_bytes += nbytes, second half. */
  lemma CountBytesKeeps(c: Config, t: Tid, buf: Buf, n: int, h: nat, v: nat)
    requires Inv(c) && t < |c.sys.threads| && c.sys.threads[t] == EStoreBytes(buf, n, h, v)
    ensures Inv(Config(Sys(c.sys.mem.(prodBytes := (v + n) % WORD64), c.sys.threads[t := EStoreTail(buf, n, h)]), c.aux))
  {
    hide Inv, Tickets, Data, Wrap, GoodSize;
    ThreadAt(c, t);
    var m, a, rs := c.sys.mem, c.aux, Ranks(c.sys.threads);
    CountShared(m, rs, a, t, m.prodBufs, (v + n) % WORD64, CountedAll);
    OnlyOwnerCounts(c, t);
    Assemble(c, t, m.(prodBytes := (v + n) % WORD64), EStoreTail(buf, n, h), a);
  }

  lemma CountShared(m: Memory, rs: seq<Rank>, a: Aux, t: Tid, bufs: nat, bytes: nat, r: Rank)
    requires Shared(m, rs, a) && t < |rs| && a.pt < |a.sent| && a.pby[a.pt] == t
    requires (rs[t] == Filled && r == CountedBuf && bufs == (m.prodBufs + 1) % WORD64 && bytes == m.prodBytes)
          || (rs[t] == CountedBuf && r == CountedAll && bufs == m.prodBufs
              && bytes == (m.prodBytes + a.sent[a.pt].n) % WORD64)
    ensures Shared(m.(prodBufs := bufs, prodBytes := bytes), rs[t := r], a)
  {
    hide Wrap, GoodSize;
  }

  /** Ticket mutual exclusion: two producers are never both between the spin loop and the store
      of br_prod_tail. */
  lemma OnlyOwnerCounts(c: Config, t: Tid)
    requires Inv(c) && t < |c.sys.threads| && InSection(c.sys.threads[t])
    ensures c.aux.pt < |c.aux.sent| && c.aux.pby[c.aux.pt] == t
    ensures forall u | 0 <= u < |c.sys.threads| && u != t :: !InSection(c.sys.threads[u])
  {
    hide Data, Wrap, GoodSize;
    assert forall u | 0 <= u < |c.sys.threads| && InSection(c.sys.threads[u]) ::
      ThreadOk(c.sys.mem, c.aux, u, c.sys.threads[u]) && c.aux.pby[c.aux.pt] == u;
  }

  /** The other producers' tickets are all ahead of the one being published. */
  lemma OthersAhead(c: Config, t: Tid)
    requires Inv(c) && t < |c.sys.threads| && InSection(c.sys.threads[t])
    ensures forall u | 0 <= u < |c.sys.threads| && u != t && HoldsProd(RankOf(c.sys.threads[u])) ::
              c.aux.pt < c.aux.notes[u].ticket && !InSection(c.sys.threads[u])
  {
    hide Data, Wrap, GoodSize;
    OnlyOwnerCounts(c, t);
    forall u | 0 <= u < |c.sys.threads| && u != t && HoldsProd(RankOf(c.sys.threads[u]))
      ensures c.aux.pt < c.aux.notes[u].ticket
    {
      assert ThreadOk(c.sys.mem, c.aux, u, c.sys.threads[u]);
    }
  }

  /** The store of br_prod_tail publishes the entry. */
  lemma PublishTickets(m: Memory, rs: seq<Rank>, a: Aux, t: Tid)
    requires Tickets(m, rs, a) && t < |rs| && a.pt < |a.sent| && a.pby[a.pt] == t && rs[t] == CountedAll
    ensures Tickets(m.(prodTail := Wrap(a.pt + 1, m.size)), rs[t := Free], a.(pt := a.pt + 1))
  {
  }

  lemma PublishData(m: Memory, rs: seq<Rank>, a: Aux, t: Tid)
    requires Shared(m, rs, a) && t < |rs| && a.pt < |a.sent| && a.pby[a.pt] == t && rs[t] == CountedAll
    requires a.pt + 1 < |a.sent| ==> rs[a.pby[a.pt + 1]] == Claimed || rs[a.pby[a.pt + 1]] == Filled
    requires Tickets(m.(prodTail := Wrap(a.pt + 1, m.size)), rs[t := Free], a.(pt := a.pt + 1))
    ensures Data(m.(prodTail := Wrap(a.pt + 1, m.size)), rs[t := Free], a.(pt := a.pt + 1))
  {
    hide Wrap, GoodSize;
  }

  lemma PublishKeeps(c: Config, t: Tid, buf: Buf, n: int, h: nat)
    requires Inv(c) && t < |c.sys.threads| && c.sys.threads[t] == EStoreTail(buf, n, h)
    ensures Inv(Config(Sys(c.sys.mem.(prodTail := Succ(h, c.sys.mem.size)), c.sys.threads[t := Idle(Enqueued)]),
                       c.aux.(pt := c.aux.pt + 1)))
  {
    hide Inv, Tickets, Data, Wrap, GoodSize;
    ThreadAt(c, t);
    var m, a, rs := c.sys.mem, c.aux, Ranks(c.sys.threads);
    OnlyOwnerCounts(c, t);
    OthersAhead(c, t);
    SuccWraps(a.pt, m.size);
    if a.pt + 1 < |a.sent| { ProdHolder(c, a.pt + 1); }
    PublishTickets(m, rs, a, t);
    PublishData(m, rs, a, t);
    ExclusiveKept(c.sys, t, m.(prodTail := Wrap(a.pt + 1, m.size)), Idle(Enqueued));
    Assemble(c, t, m.(prodTail := Wrap(a.pt + 1, m.size)), Idle(Enqueued), a.(pt := a.pt + 1));
  }

  // ------------------------------------------------------------- consumer steps

  function ConsClaimed(a: Aux, t: Tid): Aux
    requires t < |a.notes|
  {
    a.(got := a.got + [None], cby := a.cby + [t], notes := a.notes[t := a.notes[t].(ticket := |a.got|)])
  }

  lemma ClaimConsShared(m: Memory, rs: seq<Rank>, a: Aux, t: Tid)
    requires Shared(m, rs, a) && t < |rs| && rs[t] == Free && |a.got| < a.pt
    ensures Shared(m.(consHead := Wrap(|a.got| + 1, m.size)), rs[t := Reader], ConsClaimed(a, t))
  {
    hide Wrap, GoodSize;
  }

  /** A claim on br_cons_head, by compare-and-set or by the sole consumer's store. */
  lemma ClaimConsKeeps(c: Config, t: Tid, pc: Pc)
    requires Inv(c) && t < |c.sys.threads| && |c.aux.got| < c.aux.pt
    requires (c.sys.threads[t].MCas? && c.sys.threads[t].h == c.sys.mem.consHead && pc == MRead(c.sys.mem.consHead))
          || (c.sys.threads[t].SStoreHead? && pc == SRead(c.sys.threads[t].want, c.sys.threads[t].h))
    ensures Inv(Config(Sys(c.sys.mem.(consHead := Succ(c.sys.threads[t].h, c.sys.mem.size)), c.sys.threads[t := pc]),
                       ConsClaimed(c.aux, t)))
  {
    hide Inv, Tickets, Data, Wrap, GoodSize;
    ThreadAt(c, t);
    var m, a := c.sys.mem, c.aux;
    if Sole(c.sys.threads[t]) { SoleFindsNoClaims(c, t); }
    SuccWraps(|a.got|, m.size);
    ClaimConsShared(m, Ranks(c.sys.threads), a, t);
    ExclusiveKept(c.sys, t, m.(consHead := Wrap(|a.got| + 1, m.size)), pc);
    Assemble(c, t, m.(consHead := Wrap(|a.got| + 1, m.size)), pc, ConsClaimed(a, t));
  }

  lemma ClaimHolder(c: Config, k: nat)
    requires Inv(c) && c.aux.ct <= k < |c.aux.got|
    ensures k < |c.aux.cby| && c.aux.cby[k] < |c.sys.threads|
    ensures HoldsCons(RankOf(c.sys.threads[c.aux.cby[k]])) && |c.aux.notes| == |c.sys.threads|
    ensures c.aux.notes[c.aux.cby[k]].ticket == k
  {
  }

  lemma ProdHolder(c: Config, k: nat)
    requires Inv(c) && c.aux.pt <= k < |c.aux.sent|
    ensures k < |c.aux.pby| && c.aux.pby[k] < |c.sys.threads|
    ensures HoldsProd(RankOf(c.sys.threads[c.aux.pby[k]])) && |c.aux.notes| == |c.sys.threads|
    ensures c.aux.notes[c.aux.pby[k]].ticket == k
  {
  }

  /** What a thread that holds a ticket holds. */
  lemma TicketFacts(c: Config, t: Tid)
    requires Inv(c) && t < |c.sys.threads| && RankOf(c.sys.threads[t]) != Free
    ensures var a, k := c.aux, c.aux.notes[t].ticket;
      && a.ct <= k < |a.sent|
      && c.sys.threads[t].h == Wrap(k, c.sys.mem.size)
      && (HoldsProd(RankOf(c.sys.threads[t])) ==> a.pt <= k && a.pby[k] == t)
      && (HoldsCons(RankOf(c.sys.threads[t])) ==> k < |a.got| && a.cby[k] == t)
  {
    hide Data, Wrap, GoodSize;
    assert ThreadOk(c.sys.mem, c.aux, t, c.sys.threads[t]);
  }

  /** The consumer lock: a single consumer that has claimed nothing finds nothing claimed. */
  lemma SoleFindsNoClaims(c: Config, t: Tid)
    requires Inv(c) && t < |c.sys.threads| && Sole(c.sys.threads[t]) && RankOf(c.sys.threads[t]) == Free
    ensures |c.aux.got| == c.aux.ct
  {
    hide Data, Threads, Wrap, GoodSize;
    if c.aux.ct < |c.aux.got| {
      ClaimHolder(c, c.aux.ct);
      assert false;
    }
  }

  /** Reading the claimed slot. */
  lemma DrainShared(m: Memory, rs: seq<Rank>, a: Aux, t: Tid, k: nat)
    requires Shared(m, rs, a) && t < |rs| && rs[t] == Reader
    requires a.ct <= k < |a.got| && a.cby[k] == t
    ensures m.slots[Wrap(k, m.size)] == a.sent[k].buf
    ensures Shared(m, rs[t := Drained], a.(got := a.got[k := Some(a.sent[k].buf)]))
  {
    hide Wrap, GoodSize;
  }

  lemma DrainKeeps(c: Config, t: Tid, pc: Pc)
    requires Inv(c) && t < |c.sys.threads|
    requires c.sys.threads[t].MRead? || c.sys.threads[t].SRead?
    requires c.sys.threads[t].h < |c.sys.mem.slots|
    requires var b := c.sys.mem.slots[c.sys.threads[t].h];
      pc == if c.sys.threads[t].MRead? then MSpin(c.sys.threads[t].h, b)
            else SStoreTail(c.sys.threads[t].want, c.sys.threads[t].h, b)
    ensures c.aux.notes[t].ticket < |c.aux.got|
    ensures Inv(Config(c.sys.(threads := c.sys.threads[t := pc]),
                       c.aux.(got := c.aux.got[c.aux.notes[t].ticket := Some(pc.b)])))
  {
    hide Inv, Tickets, Data, Wrap, GoodSize;
    ThreadAt(c, t);
    var m, a := c.sys.mem, c.aux;
    var k := a.notes[t].ticket;
    DrainShared(m, Ranks(c.sys.threads), a, t, k);
    ExclusiveKept(c.sys, t, m, pc);
    Assemble(c, t, m, pc, a.(got := a.got[k := Some(pc.b)]));
  }

  /** The store of br_cons_tail frees the slot. */
  lemma ReleaseShared(m: Memory, rs: seq<Rank>, a: Aux, t: Tid)
    requires Shared(m, rs, a) && t < |rs| && a.ct < |a.got| && a.cby[a.ct] == t && rs[t] == Drained
    ensures Shared(m.(consTail := Wrap(a.ct + 1, m.size)), rs[t := Free], a.(ct := a.ct + 1))
  {
    hide Wrap, GoodSize;
  }

  lemma ReleaseKeeps(c: Config, t: Tid)
    requires Inv(c) && t < |c.sys.threads|
    requires c.sys.threads[t].MStoreTail? || c.sys.threads[t].SStoreTail?
    ensures Inv(Config(Sys(c.sys.mem.(consTail := Succ(c.sys.threads[t].h, c.sys.mem.size)),
                           c.sys.threads[t := Idle(Got(c.sys.threads[t].b))]),
                       c.aux.(ct := c.aux.ct + 1)))
  {
    hide Inv, Shared, Wrap, GoodSize;
    ThreadAt(c, t);
    var m, a, pc := c.sys.mem, c.aux, Idle(Got(c.sys.threads[t].b));
    SuccWraps(a.ct, m.size);
    ReleaseShared(m, Ranks(c.sys.threads), a, t);
    forall u | 0 <= u < |c.sys.threads| && u != t && HoldsCons(RankOf(c.sys.threads[u]))
      ensures a.ct + 1 <= a.notes[u].ticket && !c.sys.threads[u].MStoreTail?
    {
      ThreadAt(c, u);
    }
    ExclusiveKept(c.sys, t, m.(consTail := Wrap(a.ct + 1, m.size)), pc);
    Assemble(c, t, m.(consTail := Wrap(a.ct + 1, m.size)), pc, a.(ct := a.ct + 1));
  }
}
