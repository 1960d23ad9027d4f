/** The interface-list locks of net/if_var.h: a writer takes the sleepable lock and then the
    non-sleepable one, a reader takes one of the two.  Any number of threads, none of which nests
    the pairs.
 */
module IfnetLocks {

  /** A shared/exclusive lock as sx(9) and rwlock(9) keep it: held exclusively or shared by a number
      of readers. */
  datatype Mutex = Mutex(exclusive: bool, readers: nat)

  predicate CanShare(l: Mutex)
  {
    !l.exclusive
  }

  predicate CanOwn(l: Mutex)
  {
    !l.exclusive && l.readers == 0
  }

  /** Where a thread is.  W: inside IFNET_WLOCK or IFNET_WUNLOCK; Writing, Reading, ReadingNoSleep:
      between a lock macro and its unlock macro. */
  datatype Pc =
    | Idle
    | WantSx
    | WantRw
    | Writing
    | DropSx
    | WantShareSx
    | Reading
    | WantShareRw
    | ReadingNoSleep

  datatype State = State(sx: Mutex, rw: Mutex, threads: seq<Pc>)

  datatype Event = WLock(t: nat) | RLock(t: nat) | RLockNoSleep(t: nat) | Go(t: nat)

  predicate Enabled(s: State, e: Event)
  {
    e.t < |s.threads| &&
    match e
    case WLock(t) => s.threads[t] == Idle
    case RLock(t) => s.threads[t] == Idle
    case RLockNoSleep(t) => s.threads[t] == Idle
    case Go(t) => CanGo(s, s.threads[t])
  }

  /** A thread at `pc` is not blocked. */
  predicate CanGo(s: State, pc: Pc)
  {
    match pc
    case Idle => false
    case WantSx => CanOwn(s.sx)
    case WantRw => CanOwn(s.rw)
    case WantShareSx => CanShare(s.sx)
    case WantShareRw => CanShare(s.rw)
    case Reading => s.sx.readers > 0
    case ReadingNoSleep => s.rw.readers > 0
    case _ => true
  }

  /** The lock operation a thread at `pc` performs, and where it stands then. */
  function Act(s: State, pc: Pc): (r: (Mutex, Mutex, Pc))
    requires CanGo(s, pc)
  {
    match pc
    case WantSx => (s.sx.(exclusive := true), s.rw, WantRw)
    case WantRw => (s.sx, s.rw.(exclusive := true), Writing)
    case Writing => (s.sx, s.rw.(exclusive := false), DropSx)
    case DropSx => (s.sx.(exclusive := false), s.rw, Idle)
    case WantShareSx => (s.sx.(readers := s.sx.readers + 1), s.rw, Reading)
    case Reading => (s.sx.(readers := s.sx.readers - 1), s.rw, Idle)
    case WantShareRw => (s.sx, s.rw.(readers := s.rw.readers + 1), ReadingNoSleep)
    case ReadingNoSleep => (s.sx, s.rw.(readers := s.rw.readers - 1), Idle)
  }

  function Next(s: State, e: Event): State
    requires Enabled(s, e)
  {
    match e
    case WLock(t) => s.(threads := s.threads[t := WantSx])
    case RLock(t) => s.(threads := s.threads[t := WantShareSx])
    case RLockNoSleep(t) => s.(threads := s.threads[t := WantShareRw])
    case Go(t) =>
      var (sx, rw, pc) := Act(s, s.threads[t]);
      State(sx, rw, s.threads[t := pc])
  }

  predicate Init(s: State)
  {
    && s.sx == Mutex(false, 0) && s.rw == Mutex(false, 0)
    && forall t | 0 <= t < |s.threads| :: s.threads[t] == Idle
  }

  predicate IsRun(s: State, es: seq<Event>)
    decreases |es|
  {
    es == [] || (Enabled(s, es[0]) && IsRun(Next(s, es[0]), es[1..]))
  }

  function After(s: State, es: seq<Event>): State
    requires IsRun(s, es)
    decreases |es|
  {
    if es == [] then s else After(Next(s, es[0]), es[1..])
  }

  // -------------------------------------------------------------- invariant

  predicate OwnsSx(pc: Pc)
  {
    pc == WantRw || pc == Writing || pc == DropSx
  }

  function Count(ts: seq<Pc>, p: Pc -> bool): nat
  {
    if ts == [] then 0 else Count(ts[..|ts| - 1], p) + (if p(ts[|ts| - 1]) then 1 else 0)
  }

  /** The lock words are the census of the threads. */
  predicate Inv(s: State)
  {
    && Count(s.threads, OwnsSx) == (if s.sx.exclusive then 1 else 0)
    && Count(s.threads, p => p == Writing) == (if s.rw.exclusive then 1 else 0)
    && Count(s.threads, p => p == Reading) == s.sx.readers
    && Count(s.threads, p => p == ReadingNoSleep) == s.rw.readers
    && (s.sx.exclusive ==> s.sx.readers == 0)
    && (s.rw.exclusive ==> s.rw.readers == 0)
  }

  lemma {:induction false} CountUpdate(ts: seq<Pc>, p: Pc -> bool, t: nat, pc: Pc)
    requires t < |ts|
    ensures Count(ts[t := pc], p) + (if p(ts[t]) then 1 else 0) == Count(ts, p) + (if p(pc) then 1 else 0)
    decreases |ts|
  {
    var n := |ts| - 1;
    if t == n {
      assert ts[t := pc][..n] == ts[..n];
    } else {
      assert ts[t := pc][..n] == ts[..n][t := pc];
      CountUpdate(ts[..n], p, t, pc);
    }
  }

  /** Two threads that satisfy `p` count for two. */
  lemma {:induction false} CountTwo(ts: seq<Pc>, p: Pc -> bool, t: nat, u: nat)
    requires t < |ts| && u < |ts| && t != u && p(ts[t]) && p(ts[u])
    ensures Count(ts, p) >= 2
    decreases |ts|
  {
    var n := |ts| - 1;
    if t == n {
      CountOne(ts[..n], p, u);
    } else if u == n {
      CountOne(ts[..n], p, t);
    } else {
      CountTwo(ts[..n], p, t, u);
    }
  }

  lemma {:induction false} CountOne(ts: seq<Pc>, p: Pc -> bool, t: nat)
    requires t < |ts| && p(ts[t])
    ensures Count(ts, p) >= 1
    decreases |ts|
  {
    var n := |ts| - 1;
    if t < n { CountOne(ts[..n], p, t); }
  }

  lemma {:induction false} CountSome(ts: seq<Pc>, p: Pc -> bool) returns (t: nat)
    requires Count(ts, p) >= 1
    ensures t < |ts| && p(ts[t])
    decreases |ts|
  {
    var n := |ts| - 1;
    if p(ts[n]) { t := n; } else { t := CountSome(ts[..n], p); }
  }

  lemma {:induction false} CountNone(ts: seq<Pc>, p: Pc -> bool)
    requires forall t | 0 <= t < |ts| :: !p(ts[t])
    ensures Count(ts, p) == 0
    decreases |ts|
  {
    if ts != [] { CountNone(ts[..|ts| - 1], p); }
  }

  lemma InitHolds(s: State)
    requires Init(s)
    ensures Inv(s)
  {
    CountNone(s.threads, OwnsSx);
    CountNone(s.threads, p => p == Writing);
    CountNone(s.threads, p => p == Reading);
    CountNone(s.threads, p => p == ReadingNoSleep);
  }

  lemma StepKeeps(s: State, e: Event)
    requires Inv(s) && Enabled(s, e)
    ensures Inv(Next(s, e))
  {
    var pc := Next(s, e).threads[e.t];
    CountUpdate(s.threads, OwnsSx, e.t, pc);
    CountUpdate(s.threads, p => p == Writing, e.t, pc);
    CountUpdate(s.threads, p => p == Reading, e.t, pc);
    CountUpdate(s.threads, p => p == ReadingNoSleep, e.t, pc);
  }

  lemma {:induction false} RunKeeps(s: State, es: seq<Event>)
    requires Inv(s) && IsRun(s, es)
    ensures Inv(After(s, es))
    decreases |es|
  {
    if es != [] {
      StepKeeps(s, es[0]);
      RunKeeps(Next(s, es[0]), es[1..]);
    }
  }

  // ------------------------------------------------------------ what is promised

  ghost predicate Reachable(s: State)
  {
    exists s0: State, es: seq<Event> :: EndsAt(s0, es, s)
  }

  ghost predicate EndsAt(s0: State, es: seq<Event>, s: State)
  {
    Init(s0) && IsRun(s0, es) && After(s0, es) == s
  }

  lemma ReachableHasInv(s: State)
    requires Reachable(s)
    ensures Inv(s)
  {
    var s0, es :| EndsAt(s0, es, s);
    InitHolds(s0);
    RunKeeps(s0, es);
  }

  /** A thread between the end of IFNET_WLOCK and the start of IFNET_WUNLOCK excludes every other
      writer and both kinds of readers. */
  lemma WriterExcludes(s: State, t: nat, u: nat)
    requires Reachable(s) && t < |s.threads| && u < |s.threads| && t != u && s.threads[t] == Writing
    ensures !OwnsSx(s.threads[u]) && s.threads[u] != Reading && s.threads[u] != ReadingNoSleep
  {
    ReachableHasInv(s);
    CountOne(s.threads, OwnsSx, t);
    CountOne(s.threads, p => p == Writing, t);
    if OwnsSx(s.threads[u]) { CountTwo(s.threads, OwnsSx, t, u); }
    if s.threads[u] == Reading { CountOne(s.threads, p => p == Reading, u); }
    if s.threads[u] == ReadingNoSleep { CountOne(s.threads, p => p == ReadingNoSleep, u); }
  }

  /** A reader of either kind keeps every writer out, though not a reader of the other kind. */
  lemma ReaderExcludesWriters(s: State, t: nat, u: nat)
    requires Reachable(s) && t < |s.threads| && u < |s.threads|
    requires s.threads[t] == Reading || s.threads[t] == ReadingNoSleep
    ensures s.threads[u] != Writing
  {
    if s.threads[u] == Writing { WriterExcludes(s, u, t); }
  }

  /** No deadlock: while any thread is inside a macro or a section, some such thread can go on. */
  lemma SomeoneCanGo(s: State, busy: nat) returns (t: nat)
    requires Reachable(s) && busy < |s.threads| && s.threads[busy] != Idle
    ensures t < |s.threads| && s.threads[t] != Idle && Enabled(s, Go(t))
  {
    ReachableHasInv(s);
    if s.rw.exclusive {
      t := CountSome(s.threads, p => p == Writing);
    } else if s.rw.readers > 0 {
      t := CountSome(s.threads, p => p == ReadingNoSleep);
    } else if s.sx.exclusive {
      t := CountSome(s.threads, OwnsSx);
    } else if s.sx.readers > 0 {
      t := CountSome(s.threads, p => p == Reading);
    } else {
      t := busy;
      BusyHoldsNothing(s, busy);
    }
  }

  lemma BusyHoldsNothing(s: State, t: nat)
    requires Inv(s) && t < |s.threads| && s.sx == Mutex(false, 0) && s.rw == Mutex(false, 0)
    ensures s.threads[t] != Reading && s.threads[t] != ReadingNoSleep
  {
    if s.threads[t] == Reading { CountOne(s.threads, p => p == Reading, t); }
    if s.threads[t] == ReadingNoSleep { CountOne(s.threads, p => p == ReadingNoSleep, t); }
  }

  /** The unlock macros never find their lock free: a section ends exactly once. */
  lemma UnlockAlwaysHeld(s: State, t: nat)
    requires Reachable(s) && t < |s.threads|
    ensures s.threads[t] == Reading ==> s.sx.readers > 0
    ensures s.threads[t] == ReadingNoSleep ==> s.rw.readers > 0
    ensures s.threads[t] == Writing ==> s.rw.exclusive && s.sx.exclusive
    ensures s.threads[t] == DropSx ==> s.sx.exclusive
  {
    ReachableHasInv(s);
    if s.threads[t] == Reading { CountOne(s.threads, p => p == Reading, t); }
    if s.threads[t] == ReadingNoSleep { CountOne(s.threads, p => p == ReadingNoSleep, t); }
    if s.threads[t] == Writing {
      CountOne(s.threads, p => p == Writing, t);
    }
    if OwnsSx(s.threads[t]) { CountOne(s.threads, OwnsSx, t); }
  }

  // -------------------------------------------- the same, from the calls alone

  /** The last lock macro that a thread called, or none yet. */
  datatype Macro = Never | Write | Read | ReadNoSleep

  /** That macro and the number of lock operations, by it and by the unlock macro after it, since. */
  datatype Phase = Phase(macro: Macro, done: nat)

  /** The phase of `t` after the events `es`, starting from `p`. */
  function PhaseAfter(es: seq<Event>, t: nat, p: Phase): Phase
  {
    if es == [] then p
    else if es[0].t != t then PhaseAfter(es[1..], t, p)
    else match es[0]
      case WLock(_) => PhaseAfter(es[1..], t, Phase(Write, 0))
      case RLock(_) => PhaseAfter(es[1..], t, Phase(Read, 0))
      case RLockNoSleep(_) => PhaseAfter(es[1..], t, Phase(ReadNoSleep, 0))
      case Go(_) => PhaseAfter(es[1..], t, Phase(p.macro, p.done + 1))
  }

  /** The phase of `t` in a run from the start. */
  function PhaseOf(es: seq<Event>, t: nat): Phase
  {
    PhaseAfter(es, t, Phase(Never, 0))
  }

  /** The operations of a lock macro and its unlock macro together. */
  function Operations(m: Macro): nat
  {
    match m
    case Never => 0
    case Write => 4
    case _ => 2
  }

  /** Between the end of IFNET_WLOCK and the start of IFNET_WUNLOCK. */
  predicate MayWrite(p: Phase) { p == Phase(Write, 2) }

  /** Between the first operation of IFNET_WLOCK and the last of IFNET_WUNLOCK. */
  predicate InsideWrite(p: Phase) { p.macro == Write && 1 <= p.done <= 3 }

  /** Between either read lock and its unlock. */
  predicate InsideRead(p: Phase) { p == Phase(Read, 1) || p == Phase(ReadNoSleep, 1) }

  function PcOf(p: Phase): Pc
  {
    match p.macro
    case Never => Idle
    case Write =>
      if p.done == 0 then WantSx else if p.done == 1 then WantRw else if p.done == 2 then Writing
      else if p.done == 3 then DropSx else Idle
    case Read => if p.done == 0 then WantShareSx else if p.done == 1 then Reading else Idle
    case ReadNoSleep => if p.done == 0 then WantShareRw else if p.done == 1 then ReadingNoSleep else Idle
  }

  lemma {:induction false} PhaseIsPc(s: State, es: seq<Event>, t: nat, p: Phase)
    requires IsRun(s, es) && t < |s.threads| && s.threads[t] == PcOf(p) && p.done <= Operations(p.macro)
    ensures var s', p' := After(s, es), PhaseAfter(es, t, p);
      |s'.threads| == |s.threads| && s'.threads[t] == PcOf(p') && p'.done <= Operations(p'.macro)
    decreases |es|
  {
    if es != [] {
      var e, s' := es[0], Next(s, es[0]);
      var p' := if e.t != t then p else match e
        case WLock(_) => Phase(Write, 0)
        case RLock(_) => Phase(Read, 0)
        case RLockNoSleep(_) => Phase(ReadNoSleep, 0)
        case Go(_) => Phase(p.macro, p.done + 1);
      assert s'.threads[t] == PcOf(p') && p'.done <= Operations(p'.macro);
      PhaseIsPc(s', es[1..], t, p');
    }
  }

  lemma RunPhases(s0: State, es: seq<Event>, t: nat)
    requires Init(s0) && IsRun(s0, es) && t < |s0.threads|
    ensures |After(s0, es).threads| == |s0.threads| && Reachable(After(s0, es))
    ensures After(s0, es).threads[t] == PcOf(PhaseOf(es, t)) && PhaseOf(es, t).done <= Operations(PhaseOf(es, t).macro)
  {
    assert EndsAt(s0, es, After(s0, es));
    PhaseIsPc(s0, es, t, Phase(Never, 0));
  }

  /** In every run, a thread that has called IFNET_WLOCK and made exactly its two lock operations holds both
      locks exclusively, and no other thread is between the operations of a write lock or has a
      read lock of either kind. */
  lemma WriteLockExcludes(s0: State, es: seq<Event>, t: nat)
    requires Init(s0) && IsRun(s0, es) && t < |s0.threads| && MayWrite(PhaseOf(es, t))
    ensures After(s0, es).sx == Mutex(true, 0) && After(s0, es).rw == Mutex(true, 0)
    ensures forall u | 0 <= u < |s0.threads| && u != t :: !InsideWrite(PhaseOf(es, u)) && !InsideRead(PhaseOf(es, u))
  {
    hide PhaseOf, IsRun, After;
    var s := After(s0, es);
    RunPhases(s0, es, t);
    UnlockAlwaysHeld(s, t);
    ReachableHasInv(s);
    forall u | 0 <= u < |s0.threads| && u != t ensures !InsideWrite(PhaseOf(es, u)) && !InsideRead(PhaseOf(es, u)) {
      RunPhases(s0, es, u);
      WriterExcludes(s, t, u);
    }
  }

  /** In every run, a thread that has a read lock shares the lock of its kind and no other thread has the
      write lock. */
  lemma ReadLockExcludesWriters(s0: State, es: seq<Event>, t: nat)
    requires Init(s0) && IsRun(s0, es) && t < |s0.threads| && InsideRead(PhaseOf(es, t))
    ensures var s := After(s0, es);
      if PhaseOf(es, t).macro == Read then s.sx.readers > 0 && !s.sx.exclusive else s.rw.readers > 0 && !s.rw.exclusive
    ensures forall u | 0 <= u < |s0.threads| :: !MayWrite(PhaseOf(es, u))
  {
    hide PhaseOf, IsRun, After;
    var s := After(s0, es);
    RunPhases(s0, es, t);
    UnlockAlwaysHeld(s, t);
    ReachableHasInv(s);
    forall u | 0 <= u < |s0.threads| ensures !MayWrite(PhaseOf(es, u)) {
      RunPhases(s0, es, u);
      ReaderExcludesWriters(s, t, u);
    }
  }

  /** In every run, while some thread has lock operations left to do, some such thread can do its next. */
  lemma SomeoneFinishes(s0: State, es: seq<Event>, busy: nat) returns (t: nat)
    requires Init(s0) && IsRun(s0, es) && busy < |s0.threads|
    requires PhaseOf(es, busy).done < Operations(PhaseOf(es, busy).macro)
    ensures t < |s0.threads| && PhaseOf(es, t).done < Operations(PhaseOf(es, t).macro) && Enabled(After(s0, es), Go(t))
  {
    hide PhaseOf, IsRun, After;
    RunPhases(s0, es, busy);
    t := SomeoneCanGo(After(s0, es), busy);
    RunPhases(s0, es, t);
  }

  /** In every run, once every thread has unlocked what it locked both locks are free. */
  lemma AllUnlockedIsFree(s0: State, es: seq<Event>)
    requires Init(s0) && IsRun(s0, es)
    requires forall t | 0 <= t < |s0.threads| :: PhaseOf(es, t).done == Operations(PhaseOf(es, t).macro)
    ensures After(s0, es).sx == After(s0, es).rw == Mutex(false, 0)
  {
    hide PhaseOf, IsRun;
    var s := After(s0, es);
    assert EndsAt(s0, es, s);
    ReachableHasInv(s);
    SameThreads(s0, es);
    forall t | 0 <= t < |s.threads| ensures s.threads[t] == Idle { RunPhases(s0, es, t); }
    CountNone(s.threads, OwnsSx);
    CountNone(s.threads, p => p == Writing);
    CountNone(s.threads, p => p == Reading);
    CountNone(s.threads, p => p == ReadingNoSleep);
  }

  lemma {:induction false} SameThreads(s: State, es: seq<Event>)
    requires IsRun(s, es)
    ensures |After(s, es).threads| == |s.threads|
    decreases |es|
  {
    if es != [] { SameThreads(Next(s, es[0]), es[1..]); }
  }
}
