/** struct buf_ring as an object: the calls of sys/buf_ring.h, and the drbr_ layer of net/if_var.h
    over them, run one at a time and change the fields in place.
 */
module RingObject {
  import opened Bits
  import opened Wrappers
  import P = RingProtocol
  import I = RingInvariant
  import T = RingTheorems
  import S = RingSolo

  type Buf = P.Buf

  /** Entries between two indices of a ring. */
  function Gap(ct: nat, pt: nat, size: nat): nat
    requires ct < size && pt < size
  {
    if ct <= pt then pt - ct else pt + size - ct
  }

  function Place(ct: nat, i: nat, size: nat): nat
    requires ct < size
  {
    if ct + i < size then ct + i else ct + i - size
  }

  /** The queue that an array and two indices stand for. */
  function ContentsOf(ring: seq<Buf>, ct: nat, pt: nat): (q: seq<Buf>)
    requires ct < |ring| && pt < |ring|
    ensures |q| == Gap(ct, pt, |ring|) < |ring|
    ensures forall i | 0 <= i < |q| :: q[i] == ring[Place(ct, i, |ring|)]
  {
    seq(Gap(ct, pt, |ring|), i requires 0 <= i < Gap(ct, pt, |ring|) => ring[Place(ct, i, |ring|)])
  }

  lemma SuccTurns(h: nat, size: nat)
    requires P.GoodSize(size) && h < size
    ensures P.Succ(h, size) == if h + 1 == size then 0 else h + 1
  {
    I.SuccWraps(h, size);
    WrapNext(h, size);
  }

  lemma CountIsGap(ct: nat, pt: nat, size: nat)
    requires P.GoodSize(size) && ct < size && pt < size
    ensures And((size + pt - ct) % P.WORD32, size - 1) == Gap(ct, pt, size)
  {
    hide IsPow2, And, Wrap;
    var x := size + pt - ct;
    assert x % P.WORD32 == x;
    MaskWraps(x, size);
    WrapOnce(x, size);
  }

  lemma WrapOnce(x: nat, size: nat)
    requires 0 < size && x < 2 * size
    ensures Wrap(x, size) == if x < size then x else x - size
  {
  }

  class BufRing {
    const size: nat
    const ring: array<Buf>
    var prodHead: nat
    var prodTail: nat
    var consHead: nat
    var consTail: nat
    var prodBufs: nat
    var prodBytes: nat
    var drops: nat

    /** No call is in progress. */
    ghost predicate Valid()
      reads this
    {
      && P.GoodSize(size) && ring.Length == size
      && prodHead == prodTail < size && consHead == consTail < size
    }

    ghost function Contents(): seq<Buf>
      requires Valid()
      reads this, ring
    {
      ContentsOf(ring[..], consTail, prodTail)
    }

    /** The fields that the protocol speaks of. */
    ghost function AsMemory(): P.Memory
      reads this, ring
    {
      P.Memory(size, prodHead, prodTail, consHead, consTail, prodBufs, prodBytes, ring[..])
    }

    constructor (size: nat)
      requires P.GoodSize(size)
      ensures Valid() && fresh(ring) && this.size == size && Contents() == []
      ensures prodBufs == prodBytes == drops == 0
    {
      this.size := size;
      ring := new Buf[size](_ => P.NULL);
      prodHead, prodTail, consHead, consTail := 0, 0, 0, 0;
      prodBufs, prodBytes, drops := 0, 0, 0;
    }

    /** buf_ring_enqueue_bytes: appends and counts, or refuses a ring of size - 1 entries and
        changes nothing. */
    method EnqueueBytes(buf: Buf, nbytes: int) returns (err: Errno)
      requires Valid()
      modifies this, ring
      ensures Valid()
      ensures err == ENOBUFS <==> |old(Contents())| == size - 1
      ensures err == Ok ==> Contents() == old(Contents()) + [buf]
      ensures err == Ok ==> prodBufs == (old(prodBufs) + 1) % P.WORD64
      ensures err == Ok ==> prodBytes == (old(prodBytes) + nbytes) % P.WORD64
      ensures err == ENOBUFS ==> Contents() == old(Contents()) && ring[..] == old(ring[..])
      ensures err == ENOBUFS ==> prodBufs == old(prodBufs) && prodBytes == old(prodBytes)
      ensures consHead == old(consHead) && drops == old(drops)
      ensures AsMemory() == S.EnqueueEffect(old(AsMemory()), buf, nbytes).0
      ensures err == Ok <==> S.EnqueueEffect(old(AsMemory()), buf, nbytes).1 == P.Enqueued
    {
      var head, next := 0, 0;
      var success := false;
      SuccTurns(prodHead, size);
      while !success
        invariant success ==> head == old(prodHead) && next == P.Succ(head, size) && prodHead == next != consTail
        invariant !success ==> prodHead == old(prodHead)
        invariant prodTail == old(prodTail) && consTail == old(consTail) && consHead == old(consHead)
        invariant prodBufs == old(prodBufs) && prodBytes == old(prodBytes) && drops == old(drops)
        invariant ring[..] == old(ring[..])
        decreases !success
      {
        head := prodHead;
        next := P.Succ(head, size);
        if next == consTail {
          return ENOBUFS;
        }
        success := CmpsetProdHead(head, next);
      }
      ring[head] := buf;
      // br_prod_tail is already head: with no other enqueue in progress the wait ends at once.
      prodBufs := (prodBufs + 1) % P.WORD64;
      prodBytes := (prodBytes + nbytes) % P.WORD64;
      prodTail := next;
      assert Contents() == old(Contents()) + [buf];
      err := Ok;
    }

    /** atomic_cmpset_int on br_prod_head. */
    method CmpsetProdHead(expected: nat, src: nat) returns (success: bool)
      modifies this`prodHead
      ensures success <==> old(prodHead) == expected
      ensures prodHead == if success then src else old(prodHead)
    {
      success := prodHead == expected;
      if success { prodHead := src; }
    }

    method CmpsetConsHead(expected: nat, src: nat) returns (success: bool)
      modifies this`consHead
      ensures success <==> old(consHead) == expected
      ensures consHead == if success then src else old(consHead)
    {
      success := consHead == expected;
      if success { consHead := src; }
    }

    /** buf_ring_dequeue_mc: the front of the queue, or nothing from an empty one. */
    method DequeueMc() returns (r: Option<Buf>)
      requires Valid()
      modifies this`consHead, this`consTail
      ensures Valid()
      ensures r.None? <==> old(Contents()) == []
      ensures r.None? ==> Contents() == old(Contents())
      ensures r.Some? ==> [r.value] + Contents() == old(Contents())
      ensures AsMemory() == S.DequeueEffect(old(AsMemory())).0
      ensures S.DequeueEffect(old(AsMemory())).1 == if r.None? then P.Null else P.Got(r.value)
    {
      var head, next := 0, 0;
      var success := false;
      SuccTurns(consHead, size);
      while !success
        invariant success ==> head == old(consHead) != prodTail && next == P.Succ(head, size) && consHead == next
        invariant !success ==> consHead == old(consHead)
        invariant consTail == old(consTail)
        decreases !success
      {
        head := consHead;
        next := P.Succ(head, size);
        if head == prodTail {
          return None;
        }
        success := CmpsetConsHead(head, next);
      }
      var buf := ring[head];
      consTail := next;
      assert [buf] + Contents() == old(Contents());
      r := Some(buf);
    }

    /** buf_ring_dequeue_sc, which plainly stores the head: the same contract. */
    method DequeueSc() returns (r: Option<Buf>)
      requires Valid()
      modifies this`consHead, this`consTail
      ensures Valid()
      ensures r.None? <==> old(Contents()) == []
      ensures r.None? ==> Contents() == old(Contents())
      ensures r.Some? ==> [r.value] + Contents() == old(Contents())
      ensures AsMemory() == S.DequeueEffect(old(AsMemory())).0
      ensures S.DequeueEffect(old(AsMemory())).1 == if r.None? then P.Null else P.Got(r.value)
    {
      var head := consHead;
      var next := P.Succ(head, size);
      SuccTurns(head, size);
      if head == prodTail {
        return None;
      }
      consHead := next;
      var buf := ring[head];
      consTail := next;
      assert [buf] + Contents() == old(Contents());
      r := Some(buf);
    }

    /** buf_ring_peek. */
    method Peek() returns (r: Option<Buf>)
      requires Valid()
      ensures r == if Contents() == [] then None else Some(Contents()[0])
    {
      if consHead == prodTail {
        return None;
      }
      r := Some(ring[consHead]);
    }

    /** buf_ring_full. */
    method Full() returns (b: bool)
      requires Valid()
      ensures b <==> |Contents()| == size - 1
    {
      SuccTurns(prodHead, size);
      b := P.Succ(prodHead, size) == consTail;
    }

    /** buf_ring_empty. */
    method Empty() returns (b: bool)
      requires Valid()
      ensures b <==> Contents() == []
    {
      b := consHead == prodTail;
    }

    /** buf_ring_count. */
    method Count() returns (n: nat)
      requires Valid()
      ensures n == |Contents()|
    {
      hide IsPow2, Wrap;
      n := And((size + prodTail - consTail) % P.WORD32, size - 1);
      CountIsGap(consTail, prodTail, size);
    }

    /** drbr_enqueue without ALTQ: a refused packet is counted as dropped and freed. */
    method DrbrEnqueue(m: Buf, len: int) returns (err: Errno, freed: seq<Buf>)
      requires Valid()
      modifies this, ring
      ensures Valid()
      ensures err == ENOBUFS <==> |old(Contents())| == size - 1
      ensures err == Ok ==> Contents() == old(Contents()) + [m] && freed == [] && drops == old(drops)
      ensures err == Ok ==> prodBufs == (old(prodBufs) + 1) % P.WORD64 && prodBytes == (old(prodBytes) + len) % P.WORD64
      ensures err == ENOBUFS ==> Contents() == old(Contents()) && freed == [m] && drops == (old(drops) + 1) % P.WORD64
      ensures err == ENOBUFS ==> prodBufs == old(prodBufs) && prodBytes == old(prodBytes)
    {
      freed := [];
      err := EnqueueBytes(m, len);
      if err == ENOBUFS {
        drops := (drops + 1) % P.WORD64;
        freed := [m];
      }
    }

    /** drbr_flush: every packet in the ring is freed once, oldest first.  A NULL in the ring, which
        the caller cannot tell from an empty ring, is dropped and ends the loop early. */
    method DrbrFlush() returns (freed: seq<Buf>)
      requires Valid()
      modifies this`consHead, this`consTail
      ensures Valid()
      ensures P.NULL !in old(Contents()) ==> freed == old(Contents()) && Contents() == []
      ensures P.NULL in old(Contents()) ==> P.NULL !in freed && freed + [P.NULL] + Contents() == old(Contents())
    {
      hide S.DequeueEffect, Contents, AsMemory;
      freed := [];
      var m := DequeueSc();
      while m.Some? && m.value != P.NULL
        invariant Valid() && P.NULL !in freed
        invariant m.Some? ==> freed + [m.value] + Contents() == old(Contents())
        invariant m.None? ==> Contents() == [] && freed == old(Contents())
        decreases m.Some?, |Contents()|
      {
        freed := freed + [m.value];
        assert freed + Contents() == old(Contents());
        ghost var rest := Contents();
        m := DequeueSc();
        assert m.Some? ==> rest == [m.value] + Contents();
      }
      if m.Some? {
        assert (freed + [P.NULL] + Contents())[|freed|] == P.NULL;
      }
    }

    /** drbr_dequeue_cond without ALTQ: removes the front exactly when there is one and the
        condition accepts it. */
    method DrbrDequeueCond(func: Buf -> bool) returns (r: Option<Buf>)
      requires Valid()
      modifies this`consHead, this`consTail
      ensures Valid()
      ensures var q := old(Contents());
        if q != [] && q[0] != P.NULL && func(q[0]) then r == Some(q[0]) && Contents() == q[1..]
        else r == None && Contents() == q
    {
      var m := Peek();
      if m.None? || m.value == P.NULL || !func(m.value) {
        return None;
      }
      ghost var q := Contents();
      r := DequeueSc();
      assert q[1..] == ([r.value] + Contents())[1..] == Contents();
    }
  }

  /** At rest the array and the indices of the protocol's memory stand for the protocol's queue, so
      the object and the protocol speak of the same contents. */
  lemma RestContents(c: P.Config)
    requires T.Reachable(c) && forall t | 0 <= t < |c.sys.threads| :: c.sys.threads[t].Idle?
    ensures |c.aux.got| <= c.aux.pt <= |c.aux.sent|
    ensures c.sys.mem.consTail < |c.sys.mem.slots| && c.sys.mem.prodTail < |c.sys.mem.slots|
    ensures ContentsOf(c.sys.mem.slots, c.sys.mem.consTail, c.sys.mem.prodTail) == T.Pending(c.aux)
  {
    hide T.Reachable;
    T.ReachableHasInv(c);
    T.RestHoldsNoTickets(c);
    SlotsInOrder(c.sys.mem, c.aux);
  }

  lemma SlotsInOrder(m: P.Memory, a: P.Aux)
    requires I.Residues(m, a) && a.ct == |a.got| <= a.pt == |a.sent| <= a.ct + m.size - 1
    requires forall k | a.ct <= k < a.pt :: m.slots[Wrap(k, m.size)] == a.sent[k].buf
    ensures ContentsOf(m.slots, m.consTail, m.prodTail) == T.Pending(a)
  {
    PlaceWraps(a.ct, a.pt - a.ct, m.size);
    forall i | 0 <= i < a.pt - a.ct
      ensures m.slots[Place(m.consTail, i, m.size)] == a.sent[a.ct + i].buf
    {
      PlaceWraps(a.ct, i, m.size);
    }
    hide Wrap, Place, Gap;
    assert |ContentsOf(m.slots, m.consTail, m.prodTail)| == |T.Pending(a)|;
  }

  lemma {:induction false} PlaceWraps(ct: nat, i: nat, size: nat)
    requires 0 < size && i < size
    ensures Place(Wrap(ct, size), i, size) == Wrap(ct + i, size)
    ensures Gap(Wrap(ct, size), Wrap(ct + i, size), size) == i
  {
    if ct >= size { PlaceWraps(ct - size, i, size); }
  }
}
