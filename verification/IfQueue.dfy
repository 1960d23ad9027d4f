/** The interface send queue of net/if_var.h: two intrusive singly linked lists of packets, the
    main queue and the driver's private one, changed in place.  ALTQ and the token bucket are off.
 */
module IfQueue {
  import opened Wrappers

  /** The part of struct mbuf that the queues use. */
  class Mbuf {
    var nextpkt: Mbuf?

    constructor ()
      ensures nextpkt == null
    {
      nextpkt := null;
    }
  }

  /** The packet after place `i` of a chain, NULL after the last. */
  function After(q: seq<Mbuf>, i: nat): Mbuf?
    requires i < |q|
  {
    if i + 1 < |q| then q[i + 1] else null
  }

  function Min(a: int, b: int): int
  {
    if a < b then a else b
  }

  /** Moving the first element of the second part to the end of the first. */
  lemma Shift<T>(d: seq<T>, q: seq<T>, all: seq<T>)
    requires d + q == all
    ensures q != [] ==> q[0] == all[|d|] && (d + [q[0]]) + q[1..] == all
    ensures d != [] ==> d[|d| - 1] == all[|d| - 1]
  {
  }

  /** Taking from, and putting back at, the front of a concatenation. */
  lemma Front<T>(d: seq<T>, q: seq<T>, m: T)
    ensures d != [] ==> (d + q)[0] == d[0] && (d + q)[1..] == d[1..] + q
    ensures [] + q == q
    ensures ([m] + d) + q == [m] + (d + q)
  {
  }

  /** The head, tail and len fields of one queue. */
  class PktList {
    var head: Mbuf?
    var tail: Mbuf?
    var len: int
    /** The chain from head to tail. */
    ghost var q: seq<Mbuf>

    /** Following nextpkt from head visits exactly `q`, without repeating a packet, and stops at
        NULL after tail; len counts it. */
    ghost predicate Valid()
      reads this, Pkts()
    {
      && Ends()
      && (forall i, j | 0 <= i < j < |q| :: q[i] != q[j])
      && forall i | 0 <= i < |q| :: q[i].nextpkt == After(q, i)
    }

    /** The packets on the queue. */
    ghost function Pkts(): set<Mbuf>
      reads this
    {
      set m | m in q
    }

    ghost predicate Ends()
      reads this
    {
      && len == |q|
      && head == (if q == [] then null else q[0])
      && tail == (if q == [] then null else q[|q| - 1])
    }

    constructor ()
      ensures Valid() && q == []
    {
      head, tail, len, q := null, null, 0, [];
    }

    /** _IF_ENQUEUE. */
    method Append(m: Mbuf)
      requires Valid() && m !in Pkts()
      modifies this, m, tail
      ensures Valid() && Ends() && q == old(q) + [m] && Pkts() == old(Pkts()) + {m}
    {
      m.nextpkt := null;
      if tail == null {
        head := m;
      } else {
        tail.nextpkt := m;
      }
      tail := m;
      len := len + 1;
      q := q + [m];
    }

    /** _IF_PREPEND. */
    method Prepend(m: Mbuf)
      requires Valid() && m !in Pkts()
      modifies this, m
      ensures Valid() && q == [m] + old(q) && Pkts() == old(Pkts()) + {m}
    {
      m.nextpkt := head;
      if tail == null {
        tail := m;
      }
      head := m;
      len := len + 1;
      q := [m] + q;
    }

    /** _IF_DEQUEUE. */
    method Remove() returns (m: Mbuf?)
      requires Valid()
      modifies this, head
      ensures Valid() && Ends()
      ensures m == if old(q) == [] then null else old(q)[0]
      ensures q == if old(q) == [] then [] else old(q)[1..]
      ensures m != null ==> m.nextpkt == null && m !in Pkts()
      ensures old(Pkts()) == Pkts() + if m == null then {} else {m}
      ensures head != null ==> head in Pkts()
    {
      m := head;
      if m != null {
        head := m.nextpkt;
        if head == null {
          tail := null;
        }
        m.nextpkt := null;
        len := len - 1;
        q := q[1..];
        assert forall i | 0 <= i < |q| :: q[i] == old(q)[i + 1] && After(q, i) == After(old(q), i + 1);
      }
    }

    /** The first half of IFQ_DRV_PURGE: walks the chain, freeing each packet after its link has been
        read, then clears the fields. */
    method FreeChain() returns (freed: seq<Mbuf>)
      requires Valid()
      modifies this
      ensures Valid() && q == [] && Pkts() == {} && freed == old(q)
    {
      freed := [];
      var n := head;
      while n != null
        invariant |freed| <= |q| && freed == q[..|freed|]
        invariant n == if |freed| < |q| then q[|freed|] else null
        decreases |q| - |freed|
      {
        var m := n;
        n := m.nextpkt;
        freed := freed + [m];
      }
      head, tail, len, q := null, null, 0, [];
    }

    /** _IF_DRAIN: every packet is taken out and freed once, first to last. */
    method Drain() returns (freed: seq<Mbuf>)
      requires Valid()
      modifies this, Pkts()
      ensures Valid() && q == [] && Pkts() == {} && freed == old(q)
    {
      ghost var all, pkts := q, Pkts();
      assert head != null ==> head in pkts;
      hide Valid, Pkts, Ends;
      freed := [];
      while true
        invariant Valid() && Pkts() <= pkts && (head != null ==> head in Pkts())
        invariant |freed| <= |all| && freed == all[..|freed|] && q == all[|freed|..]
        decreases |q|
      {
        var m := Remove();
        if m == null {
          break;
        }
        var pkt: Mbuf := m;
        freed := freed + [pkt];
      }
      EmptyList();
    }

    lemma EmptyList()
      requires q == []
      ensures Pkts() == {}
    {
    }
  }

  /** The send queue of an interface: ifq_head .. ifq_drops, and the ifq_drv_ fields. */
  class IfSnd {
    const main: PktList
    const drv: PktList
    var maxlen: int
    var drvMaxlen: int
    var drops: int

    ghost predicate Valid()
      reads this, main, drv, main.Pkts(), drv.Pkts()
    {
      main != drv && main.Valid() && drv.Valid() && main.Pkts() !! drv.Pkts()
    }

    /** The two queues as the driver will see them. */
    ghost function Combined(): seq<Mbuf>
      reads main, drv
    {
      drv.q + main.q
    }

    constructor (maxlen: int, drvMaxlen: int)
      ensures Valid() && fresh(main) && fresh(drv) && Combined() == []
      ensures this.maxlen == maxlen && this.drvMaxlen == drvMaxlen && drops == 0
    {
      main := new PktList();
      drv := new PktList();
      this.maxlen, this.drvMaxlen, this.drops := maxlen, drvMaxlen, 0;
    }

    /** IFQ_ENQUEUE: a full queue frees the packet, answers ENOBUFS and counts a drop. */
    method Enqueue(m: Mbuf) returns (err: Errno, freed: seq<Mbuf>)
      requires Valid() && m !in main.Pkts() && m !in drv.Pkts()
      modifies this`drops, main, m, main.tail
      ensures Valid()
      ensures err == ENOBUFS <==> |old(main.q)| >= maxlen
      ensures err == Ok ==> Combined() == old(Combined()) + [m] && main.q == old(main.q) + [m]
      ensures err == Ok ==> freed == [] && drops == old(drops)
      ensures err == ENOBUFS ==> Combined() == old(Combined()) && main.q == old(main.q)
      ensures err == ENOBUFS ==> freed == [m] && drops == old(drops) + 1
    {
      assert main.Ends() && (main.tail != null ==> main.tail in main.Pkts());
      hide PktList.Valid, PktList.Pkts;
      freed := [];
      if main.len >= maxlen {
        freed := [m];
        err := ENOBUFS;
      } else {
        main.Append(m);
        err := Ok;
      }
      if err == ENOBUFS {
        drops := drops + 1;
      }
    }

    /** IFQ_DRV_DEQUEUE: whatever the prefetch limit, the two queues together behave as one: the
        first packet leaves, or there was none; an empty driver queue is refilled up to its limit. */
    method DrvDequeue() returns (m: Mbuf?)
      requires Valid()
      modifies main, drv, main.Pkts(), drv.head
      ensures Valid()
      ensures m == if old(Combined()) == [] then null else old(Combined())[0]
      ensures Combined() == if old(Combined()) == [] then [] else old(Combined())[1..]
      ensures m != null ==> m.nextpkt == null && m !in main.Pkts() && m !in drv.Pkts()
      ensures old(drv.q) == [] && old(main.q) != [] ==>
        |drv.q| == Min(if drvMaxlen < 0 then 0 else drvMaxlen, |old(main.q)| - 1)
    {
      assert drv.Ends();
      hide PktList.Valid, PktList.Pkts, Valid;
      if drv.head != null {
        m := TakeFromDriver();
      } else {
        m := TakeFromMain();
      }
    }

    /** The driver queue is not empty: its first packet. */
    method TakeFromDriver() returns (m: Mbuf?)
      requires Valid() && drv.q != []
      modifies drv, drv.head
      ensures Valid()
      ensures m == old(Combined())[0] && Combined() == old(Combined())[1..]
      ensures m != null && m.nextpkt == null && m !in main.Pkts() && m !in drv.Pkts()
    {
      assert drv.Ends() && drv.head in drv.Pkts() && drv.head !in main.Pkts();
      hide PktList.Valid, PktList.Pkts;
      m := drv.Remove();
    }

    /** The driver queue is empty: the first packet of the main queue, and a refill. */
    method TakeFromMain() returns (m: Mbuf?)
      requires Valid() && drv.q == []
      modifies main, drv, main.Pkts()
      ensures Valid()
      ensures m == if old(main.q) == [] then null else old(main.q)[0]
      ensures Combined() == if old(main.q) == [] then [] else old(main.q)[1..]
      ensures m != null ==> m.nextpkt == null && m !in main.Pkts() && m !in drv.Pkts()
      ensures old(main.q) != [] ==>
        |drv.q| == Min(if drvMaxlen < 0 then 0 else drvMaxlen, |old(main.q)| - 1)
    {
      assert main.head != null ==> main.head in main.Pkts();
      hide PktList.Valid, PktList.Pkts;
      m := main.Remove();
      assert Combined() == main.q;
      Refill();
    }

    /** The loop that moves packets to the driver queue until it is at its limit or the main queue
        is empty. */
    method Refill()
      requires Valid() && drv.q == []
      modifies main, drv, main.Pkts()
      ensures Valid() && Combined() == old(Combined())
      ensures main.Pkts() + drv.Pkts() == old(main.Pkts())
      ensures |drv.q| == Min(if drvMaxlen < 0 then 0 else drvMaxlen, |old(main.q)|)
    {
      ghost var pkts := main.Pkts();
      assert drv.Pkts() == {} && drv.len == 0 && drv.tail == null && (main.head != null ==> main.head in pkts);
      hide PktList.Valid, PktList.Pkts, Combined, Valid;
      var more := true;
      while more && drv.len < drvMaxlen
        invariant Valid() && Combined() == old(Combined())
        invariant main.Pkts() + drv.Pkts() == pkts && (main.head != null ==> main.head in main.Pkts())
        invariant drv.tail != null ==> drv.tail in pkts
        invariant drv.len == |drv.q| && |drv.q| + |main.q| == |old(main.q)|
        invariant !more ==> |main.q| == 0
        invariant |drv.q| <= if drvMaxlen < 0 then 0 else drvMaxlen
        decreases more, |main.q|
      {
        more := MoveOne();
      }
    }

    /** One turn of that loop: takes a packet off the main queue, if there is one, and appends it to
        the driver queue. */
    method MoveOne() returns (more: bool)
      requires Valid()
      modifies main, drv, main.head, drv.tail
      ensures Valid() && Combined() == old(Combined())
      ensures more <==> |old(main.q)| > 0
      ensures |main.q| == |old(main.q)| - (if more then 1 else 0)
      ensures drv.len == |drv.q| == |old(drv.q)| + (if more then 1 else 0)
      ensures main.Pkts() + drv.Pkts() == old(main.Pkts() + drv.Pkts()) && (main.head != null ==> main.head in main.Pkts())
      ensures drv.tail == if more then old(main.head) else old(drv.tail)
    {
      assert main.Ends() && drv.Ends();
      assert main.head != null ==> main.head in main.Pkts();
      assert drv.tail != null ==> drv.tail in drv.Pkts();
      Shift(drv.q, main.q, Combined());
      hide PktList.Valid, PktList.Pkts;
      var m0 := main.Remove();
      more := m0 != null;
      if more {
        drv.Append(m0);
      }
    }

    /** IFQ_DRV_PREPEND. */
    method DrvPrepend(m: Mbuf)
      requires Valid() && m !in main.Pkts() && m !in drv.Pkts()
      modifies drv, m
      ensures Valid() && Combined() == [m] + old(Combined()) && main.q == old(main.q)
    {
      Front(drv.q, main.q, m);
      hide PktList.Valid, PktList.Pkts;
      drv.Prepend(m);
    }

    /** IFQ_DRV_PURGE: both queues are freed, driver queue first, each packet once. */
    method DrvPurge() returns (freed: seq<Mbuf>)
      requires Valid()
      modifies main, drv, main.Pkts()
      ensures Valid() && Combined() == [] && freed == old(Combined())
    {
      assert drv.Ends() && main.Ends();
      hide PktList.Valid, PktList.Pkts;
      freed := drv.FreeChain();
      var rest := main.Drain();
      freed := freed + rest;
    }

    /** IFQ_DRV_IS_EMPTY. */
    method DrvIsEmpty() returns (b: bool)
      requires Valid()
      ensures b <==> Combined() == []
    {
      b := drv.len == 0 && main.len == 0;
    }

    /** A driver that puts a packet back right after taking it leaves the combined queue as it was,
        in contents and in order. */
    method TakeAndPutBack() returns (m: Mbuf?)
      requires Valid()
      modifies main, drv, main.Pkts(), drv.head
      ensures Valid() && Combined() == old(Combined())
      ensures m == if Combined() == [] then null else Combined()[0]
    {
      ghost var c := Combined();
      assert c != [] ==> c[0] == drv.head || c[0] in main.Pkts();
      hide PktList.Valid, PktList.Pkts, Valid, Combined;
      m := DrvDequeue();
      if m != null {
        DrvPrepend(m);
        assert [c[0]] + c[1..] == c;
      }
    }
  }
}
