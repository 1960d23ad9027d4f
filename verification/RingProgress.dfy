/** What a call of the ring comes to in the end, over every run: the thread whose turn it is hands on
    the tail within a bounded number of its own steps, and an accepted packet is returned.
 */
module RingProgress {
  import opened Bits
  import opened Wrappers
  import opened RingProtocol
  import opened RingInvariant
  import opened RingRuns
  import opened RingTheorems

  /** How many steps of the run are thread `t`'s. */
  function Turns(es: seq<Event>, t: Tid): nat
  {
    if es == [] then 0 else (if es[0] == Tick(t) then 1 else 0) + Turns(es[1..], t)
  }

  // ---------------------------------------------------------- the producer tail

  /** Steps from here to the store of br_prod_tail, for the producer whose turn it is. */
  function ProdLeft(pc: Pc): (r: nat)
    ensures r <= 7
  {
    match pc
    case EWrite(_, _, _) => 7
    case ESpin(_, _, _) => 6
    case ELoadBufs(_, _, _) => 5
    case EStoreBufs(_, _, _, _) => 4
    case ELoadBytes(_, _, _) => 3
    case EStoreBytes(_, _, _, _) => 2
    case EStoreTail(_, _, _) => 1
    case _ => 0
  }

  /** The producer whose turn it is, and how far it has to go. */
  predicate ProdTurn(c: Config, u: Tid, k: nat, left: nat)
  {
    && c.aux.pt == k < |c.aux.pby| && c.aux.pby[k] == u
    && u < |c.sys.threads| && left == ProdLeft(c.sys.threads[u]) > 0
  }

  lemma SomeProdTurn(c: Config)
    requires Inv(c) && c.aux.pt < |c.aux.sent|
    ensures c.aux.pt < |c.aux.pby| && c.aux.pby[c.aux.pt] < |c.sys.threads|
    ensures var u := c.aux.pby[c.aux.pt]; ProdTurn(c, u, c.aux.pt, ProdLeft(c.sys.threads[u])) && Legal(c, Tick(u))
  {
    hide Inv, Legal;
    ProdHolder(c, c.aux.pt);
    InvInRange(c, c.aux.pby[c.aux.pt]);
  }

  /** Its own step brings it one nearer, the last one hands on the tail, and nobody else's step
      matters. */
  lemma ProdTurnStep(c: Config, e: Event, u: Tid, k: nat, left: nat)
    requires Inv(c) && Legal(c, e) && Room(c, e) && ProdTurn(c, u, k, left)
    ensures e != Tick(u) ==> ProdTurn(Step(c, e), u, k, left)
    ensures e == Tick(u) && left > 1 ==> ProdTurn(Step(c, e), u, k, left - 1)
    ensures e == Tick(u) && left == 1 ==> Step(c, e).aux.pt == k + 1
  {
    hide Inv, Shared, GoodSize, Wrap;
    ThreadAt(c, e.t);
    ThreadAt(c, u);
    assert Residues(c.sys.mem, c.aux);
    ProdHolder(c, k);
  }

  lemma {:induction false} ProdTurnRun(c: Config, es: seq<Event>, u: Tid, k: nat, left: nat)
    requires Inv(c) && IsRun(c, es) && RunHasRoom(c, es) && ProdTurn(c, u, k, left)
    ensures After(c, es).aux.pt > k <==> Turns(es, u) >= left
    decreases |es|
  {
    hide Inv, Legal, Room, Step, ProdTurn, ProdLeft;
    assert c.aux.pt == k && left > 0 by { ProdTurnNow(c, u, k, left); }
    if es != [] {
      var d := Step(c, es[0]);
      StepKeeps(c, es[0]);
      ProdTurnStep(c, es[0], u, k, left);
      if es[0] == Tick(u) && left == 1 {
        RunGrows(d, es[1..]);
      } else {
        ProdTurnRun(d, es[1..], u, k, if es[0] == Tick(u) then left - 1 else left);
      }
    }
  }

  lemma ProdTurnNow(c: Config, u: Tid, k: nat, left: nat)
    requires ProdTurn(c, u, k, left)
    ensures c.aux.pt == k && left > 0
  {
  }

  /** Progress: while producers hold tickets, the one whose turn it is can step, and in every run
      br_prod_tail moves on exactly when that thread has taken its remaining steps, at most
      seven, however often the others step in between. */
  lemma ProducersProgress(c: Config, es: seq<Event>)
    requires Reachable(c) && IsRun(c, es) && RunHasRoom(c, es) && c.aux.pt < |c.aux.sent|
    ensures c.aux.pt < |c.aux.pby| && c.aux.pby[c.aux.pt] < |c.sys.threads|
    ensures var u := c.aux.pby[c.aux.pt];
      && Legal(c, Tick(u))
      && (After(c, es).aux.pt > c.aux.pt <==> Turns(es, u) >= ProdLeft(c.sys.threads[u]))
  {
    hide Legal, ProdLeft, Reachable, Inv, ProdTurn;
    ReachableHasInv(c);
    SomeProdTurn(c);
    var u := c.aux.pby[c.aux.pt];
    ProdTurnRun(c, es, u, c.aux.pt, ProdLeft(c.sys.threads[u]));
  }

  // ---------------------------------------------------------- the consumer tail

  /** Steps from here to the store of br_cons_tail, for the consumer whose turn it is. */
  function ConsLeft(pc: Pc): (r: nat)
    ensures r <= 3
  {
    match pc
    case MRead(_) => 3
    case MSpin(_, _) => 2
    case MStoreTail(_, _) => 1
    case SRead(_, _) => 2
    case SStoreTail(_, _, _) => 1
    case _ => 0
  }

  predicate ConsTurn(c: Config, u: Tid, k: nat, left: nat)
  {
    && c.aux.ct == k < |c.aux.cby| && c.aux.cby[k] == u
    && u < |c.sys.threads| && left == ConsLeft(c.sys.threads[u]) > 0
  }

  lemma SomeConsTurn(c: Config)
    requires Inv(c) && c.aux.ct < |c.aux.got|
    ensures c.aux.ct < |c.aux.cby| && c.aux.cby[c.aux.ct] < |c.sys.threads|
    ensures var u := c.aux.cby[c.aux.ct]; ConsTurn(c, u, c.aux.ct, ConsLeft(c.sys.threads[u])) && Legal(c, Tick(u))
  {
    hide Inv, Legal;
    ClaimHolder(c, c.aux.ct);
    InvInRange(c, c.aux.cby[c.aux.ct]);
  }

  lemma ConsTurnStep(c: Config, e: Event, u: Tid, k: nat, left: nat)
    requires Inv(c) && Legal(c, e) && Room(c, e) && ConsTurn(c, u, k, left)
    ensures e != Tick(u) ==> ConsTurn(Step(c, e), u, k, left)
    ensures e == Tick(u) && left > 1 ==> ConsTurn(Step(c, e), u, k, left - 1)
    ensures e == Tick(u) && left == 1 ==> Step(c, e).aux.ct == k + 1
  {
    hide Inv, Shared, GoodSize, Wrap;
    ThreadAt(c, e.t);
    ThreadAt(c, u);
    assert Residues(c.sys.mem, c.aux);
    ClaimHolder(c, k);
  }

  lemma ConsTurnNow(c: Config, u: Tid, k: nat, left: nat)
    requires ConsTurn(c, u, k, left)
    ensures c.aux.ct == k && left > 0
  {
  }

  lemma {:induction false} ConsTurnRun(c: Config, es: seq<Event>, u: Tid, k: nat, left: nat)
    requires Inv(c) && IsRun(c, es) && RunHasRoom(c, es) && ConsTurn(c, u, k, left)
    ensures After(c, es).aux.ct > k <==> Turns(es, u) >= left
    decreases |es|
  {
    hide Inv, Legal, Room, Step, ConsTurn, ConsLeft;
    assert c.aux.ct == k && left > 0 by { ConsTurnNow(c, u, k, left); }
    if es != [] {
      var d := Step(c, es[0]);
      StepKeeps(c, es[0]);
      ConsTurnStep(c, es[0], u, k, left);
      if es[0] == Tick(u) && left == 1 {
        RunGrows(d, es[1..]);
      } else {
        ConsTurnRun(d, es[1..], u, k, if es[0] == Tick(u) then left - 1 else left);
      }
    }
  }

  /** The same for consumers and br_cons_tail, with at most three steps. */
  lemma ConsumersProgress(c: Config, es: seq<Event>)
    requires Reachable(c) && IsRun(c, es) && RunHasRoom(c, es) && c.aux.ct < |c.aux.got|
    ensures c.aux.ct < |c.aux.cby| && c.aux.cby[c.aux.ct] < |c.sys.threads|
    ensures var u := c.aux.cby[c.aux.ct];
      && Legal(c, Tick(u))
      && (After(c, es).aux.ct > c.aux.ct <==> Turns(es, u) >= ConsLeft(c.sys.threads[u]))
  {
    hide Legal, ConsLeft, Reachable, Inv, ConsTurn;
    ReachableHasInv(c);
    SomeConsTurn(c);
    var u := c.aux.cby[c.aux.ct];
    ConsTurnRun(c, es, u, c.aux.ct, ConsLeft(c.sys.threads[u]));
  }

  // ---------------------------------------------------- the conditional dequeue

  /** The first state of the run in which thread `t` is in no call, if there is one. */
  function ReturnAt(c: Config, es: seq<Event>, t: Tid): (d: Option<Config>)
    requires IsRun(c, es) && t < |c.sys.threads|
    ensures d.Some? ==> t < |d.value.sys.threads| && d.value.sys.threads[t].Idle?
    decreases |es|
  {
    if c.sys.threads[t].Idle? then Some(c)
    else if es == [] then None
    else ReturnAt(Step(c, es[0]), es[1..], t)
  }

  /** What thread `t`'s call returns in the run, if the run is long enough. */
  function FirstReturn(c: Config, es: seq<Event>, t: Tid): Option<Outcome>
    requires IsRun(c, es) && t < |c.sys.threads|
  {
    var d := ReturnAt(c, es, t);
    if d.Some? then Some(d.value.sys.threads[t].last) else None
  }

  /** Steps from here to the return, for a dequeue that follows an accepted peek. */
  function SoleLeft(pc: Pc): nat
  {
    match pc
    case SHead(_) => 5
    case STail(_, _) => 4
    case SStoreHead(_, _) => 3
    case SRead(_, _) => 2
    case SStoreTail(_, _, _) => 1
    case _ => 0
  }

  /** Thread `t` is in a dequeue after its condition accepted `b`. */
  predicate Accepted(c: Config, t: Tid, b: Buf, left: nat)
  {
    t < |c.sys.threads| && left == SoleLeft(c.sys.threads[t]) > 0 && c.sys.threads[t].want == Some(b)
  }

  lemma AcceptedStep(c: Config, e: Event, t: Tid, b: Buf, left: nat)
    requires Inv(c) && Legal(c, e) && Accepted(c, t, b, left)
    ensures |Step(c, e).sys.threads| == |c.sys.threads| && t < |c.sys.threads|
    ensures e != Tick(t) ==> Accepted(Step(c, e), t, b, left)
    ensures e == Tick(t) && left > 1 ==> Accepted(Step(c, e), t, b, left - 1)
    ensures e == Tick(t) && left == 1 ==> Step(c, e).sys.threads[t] == Idle(Got(b))
  {
    hide Inv, Shared, GoodSize, Wrap;
    ThreadAt(c, t);
    EmptyExactly(c.sys.mem, c.aux);
  }

  lemma AcceptedIsBusy(c: Config, t: Tid, b: Buf, left: nat)
    requires Accepted(c, t, b, left)
    ensures t < |c.sys.threads| && !c.sys.threads[t].Idle? && left > 0
  {
  }

  lemma {:induction false} AcceptedRun(c: Config, es: seq<Event>, t: Tid, b: Buf, left: nat)
    requires Inv(c) && IsRun(c, es) && RunHasRoom(c, es) && Accepted(c, t, b, left) && t < |c.sys.threads|
    ensures FirstReturn(c, es, t) == if Turns(es, t) >= left then Some(Got(b)) else None
    decreases |es|
  {
    hide Inv, Legal, Room, Step, Accepted;
    AcceptedIsBusy(c, t, b, left);
    if es != [] {
      var d := Step(c, es[0]);
      StepKeeps(c, es[0]);
      AcceptedStep(c, es[0], t, b, left);
      if es[0] == Tick(t) && left == 1 {
        assert FirstReturn(d, es[1..], t) == Some(Got(b));
      } else {
        AcceptedRun(d, es[1..], t, b, if es[0] == Tick(t) then left - 1 else left);
      }
    }
  }

  /** drbr_dequeue_cond: in every run that follows the acceptance of a packet, whatever the producers
      do, the call returns that packet, never NULL, and does so with its fifth step. */
  lemma AcceptedIsReturned(c: Config, t: Tid, es: seq<Event>)
    requires Reachable(c) && Legal(c, Judge(t, true))
    requires IsRun(Step(c, Judge(t, true)), es) && RunHasRoom(Step(c, Judge(t, true)), es)
    ensures FirstReturn(Step(c, Judge(t, true)), es, t) ==
      if Turns(es, t) >= 5 then Some(Got(c.sys.threads[t].b)) else None
  {
    hide Reachable, Inv;
    ReachableHasInv(c);
    StepKeeps(c, Judge(t, true));
    hide IsRun, RunHasRoom, FirstReturn;
    AcceptedRun(Step(c, Judge(t, true)), es, t, c.sys.threads[t].b, 5);
  }
}
