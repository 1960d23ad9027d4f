/** CPU_SET_ATOMIC, CPU_CLR_ATOMIC and CPU_OR_ATOMIC by any number of threads on one shared set.
    One step is one atomic_set_long or atomic_clear_long on one word, and a schedule names the
    thread that takes each step.
 */
module CpuSetAtomic {
  import opened Bits
  import opened CpuSet

  datatype Op = SetOne(cpu: nat) | ClearOne(cpu: nat) | OrAll(src: seq<nat>)

  datatype State = State(words: seq<nat>, ops: seq<Op>, pc: seq<nat>)

  predicate Suits(op: Op, words: nat)
  {
    match op
    case SetOne(n) => n < WORD_BITS * words
    case ClearOne(n) => n < WORD_BITS * words
    case OrAll(src) => |src| == words && AreWords(src)
  }

  function Steps(op: Op): nat
  {
    if op.OrAll? then |op.src| else 1
  }

  predicate WellFormed(s: State)
  {
    && AreWords(s.words)
    && |s.pc| == |s.ops|
    && (forall t | 0 <= t < |s.ops| :: Suits(s.ops[t], |s.words|) && s.pc[t] <= Steps(s.ops[t]))
  }

  predicate Start(s: State)
  {
    WellFormed(s) && forall t | 0 <= t < |s.pc| :: s.pc[t] == 0
  }

  predicate Finished(s: State)
    requires WellFormed(s)
  {
    forall t | 0 <= t < |s.ops| :: s.pc[t] == Steps(s.ops[t])
  }

  predicate CanStep(s: State, t: nat)
    requires WellFormed(s)
  {
    t < |s.ops| && s.pc[t] < Steps(s.ops[t])
  }

  /** The one word that step `pc` of `op` rewrites. */
  function Rewrite(op: Op, pc: nat, words: seq<nat>): (r: seq<nat>)
    requires Suits(op, |words|) && pc < Steps(op)
    ensures |r| == |words|
  {
    match op
    case SetOne(n) => SetBit(words, n)
    case ClearOne(n) => ClearBit(words, n)
    case OrAll(src) => words[pc := Or(words[pc], src[pc])]
  }

  function Next(s: State, t: nat): (s': State)
    requires WellFormed(s) && CanStep(s, t)
    ensures WellFormed(s') && s'.ops == s.ops && |s'.words| == |s.words|
  {
    var words := Rewrite(s.ops[t], s.pc[t], s.words);
    RewriteFits(s.ops[t], s.pc[t], s.words);
    State(words, s.ops, s.pc[t := s.pc[t] + 1])
  }

  lemma RewriteFits(op: Op, pc: nat, words: seq<nat>)
    requires AreWords(words) && Suits(op, |words|) && pc < Steps(op)
    ensures AreWords(Rewrite(op, pc, words))
  {
    match op
    case SetOne(n) => OpsStayInWord(words[n / WORD_BITS], Mask(n), WORD_BITS);
    case ClearOne(n) => OpsStayInWord(words[n / WORD_BITS], Mask(n), WORD_BITS);
    case OrAll(src) => OpsStayInWord(words[pc], src[pc], WORD_BITS);
  }

  predicate IsRun(s: State, schedule: seq<nat>)
    requires WellFormed(s)
    decreases |schedule|
  {
    schedule == [] || (CanStep(s, schedule[0]) && IsRun(Next(s, schedule[0]), schedule[1..]))
  }

  function After(s: State, schedule: seq<nat>): (s': State)
    requires WellFormed(s) && IsRun(s, schedule)
    ensures WellFormed(s') && s'.ops == s.ops && |s'.words| == |s.words|
    decreases |schedule|
  {
    if schedule == [] then s else After(Next(s, schedule[0]), schedule[1..])
  }

  /** CPU `n` is among those that `op` puts in. */
  predicate Offers(op: Op, n: nat)
  {
    match op
    case SetOne(m) => m == n
    case ClearOne(_) => false
    case OrAll(src) => Has(src, n)
  }

  /** `op` has already put `n` in after `pc` steps. */
  predicate Offered(op: Op, pc: nat, n: nat)
  {
    Offers(op, n) && (if op.OrAll? then n / WORD_BITS < pc else pc > 0)
  }

  predicate Removes(op: Op, n: nat)
  {
    op == ClearOne(n)
  }

  predicate Removed(op: Op, pc: nat, n: nat)
  {
    Removes(op, n) && pc > 0
  }

  predicate SomeOffers(s: State, n: nat)
  {
    exists t | 0 <= t < |s.ops| :: Offers(s.ops[t], n)
  }

  predicate SomeOffered(s: State, n: nat)
    requires WellFormed(s)
  {
    exists t | 0 <= t < |s.ops| :: Offered(s.ops[t], s.pc[t], n)
  }

  predicate SomeRemoves(s: State, n: nat)
  {
    exists t | 0 <= t < |s.ops| :: Removes(s.ops[t], n)
  }

  predicate SomeRemoved(s: State, n: nat)
    requires WellFormed(s)
  {
    exists t | 0 <= t < |s.ops| :: Removed(s.ops[t], s.pc[t], n)
  }

  /** One step changes the membership of `n` only as its own thread's operation says. */
  lemma RewriteBit(op: Op, pc: nat, words: seq<nat>, n: nat)
    requires Suits(op, |words|) && pc < Steps(op)
    ensures Has(Rewrite(op, pc, words), n) <==>
      || (Has(words, n) && !Removes(op, n))
      || (Offered(op, pc + 1, n) && !Offered(op, pc, n))
      || op == SetOne(n)
  {
    match op
    case SetOne(m) => SetBitAdds(words, m, n);
    case ClearOne(m) => ClearBitRemoves(words, m, n);
    case OrAll(src) =>
      if n < WORD_BITS * |words| && n / WORD_BITS == pc {
        OrBit(words[pc], src[pc], n % WORD_BITS);
      }
  }

  lemma OfferedStep(s: State, t: nat, n: nat)
    requires WellFormed(s) && CanStep(s, t)
    ensures SomeOffered(Next(s, t), n) <==> SomeOffered(s, n) || Offered(s.ops[t], s.pc[t] + 1, n)
    ensures SomeRemoved(Next(s, t), n) <==> SomeRemoved(s, n) || Removes(s.ops[t], n)
  {
  }

  /** What the shared set holds in the middle of a run, for a CPU nobody takes out and for a CPU
      nobody puts in. */
  predicate Explained(s0: State, s: State, n: nat)
    requires WellFormed(s)
  {
    && (!SomeRemoves(s, n) ==> (Has(s.words, n) <==> Has(s0.words, n) || SomeOffered(s, n)))
    && (!SomeOffers(s, n) ==> (Has(s.words, n) <==> Has(s0.words, n) && !SomeRemoved(s, n)))
  }

  lemma ExplainedStep(s0: State, s: State, t: nat, n: nat)
    requires WellFormed(s) && CanStep(s, t) && Explained(s0, s, n)
    ensures Explained(s0, Next(s, t), n)
  {
    hide Rewrite, Has;
    RewriteBit(s.ops[t], s.pc[t], s.words, n);
    OfferedStep(s, t, n);
    var op := s.ops[t];
    if !SomeRemoves(s, n) {
      assert !Removes(op, n);
      assert Offered(op, s.pc[t], n) ==> SomeOffered(s, n);
    }
    if !SomeOffers(s, n) {
      assert !Offers(op, n);
    }
  }

  lemma {:induction false} RunExplained(s0: State, s: State, schedule: seq<nat>, n: nat)
    requires WellFormed(s) && IsRun(s, schedule) && Explained(s0, s, n)
    ensures Explained(s0, After(s, schedule), n)
    decreases |schedule|
  {
    if schedule != [] {
      ExplainedStep(s0, s, schedule[0], n);
      RunExplained(s0, Next(s, schedule[0]), schedule[1..], n);
    }
  }

  /** At every moment of every run the set is the initial one together with exactly what the
      threads have put in so far, but for the CPUs that some thread takes out. */
  lemma HoldsWhatWasOffered(s0: State, schedule: seq<nat>, n: nat)
    requires Start(s0) && IsRun(s0, schedule) && !SomeRemoves(s0, n)
    ensures n in Members(After(s0, schedule).words)
       <==> n in Members(s0.words) || SomeOffered(After(s0, schedule), n)
  {
    hide Rewrite;
    RunExplained(s0, s0, schedule, n);
    assert SomeRemoves(After(s0, schedule), n) ==> SomeRemoves(s0, n);
  }

  /** When every thread is done the set is the union of the initial set and all the sources. */
  lemma EndsInUnion(s0: State, schedule: seq<nat>)
    requires Start(s0) && IsRun(s0, schedule) && Finished(After(s0, schedule))
    requires forall n: nat :: !SomeRemoves(s0, n)
    ensures forall n: nat :: n in Members(After(s0, schedule).words) <==> n in Members(s0.words) || SomeOffers(s0, n)
  {
    hide Members, Rewrite;
    var s := After(s0, schedule);
    forall n: nat ensures n in Members(s.words) <==> n in Members(s0.words) || SomeOffers(s0, n) {
      HoldsWhatWasOffered(s0, schedule, n);
      AllOffered(s, n);
    }
  }

  lemma AllOffered(s: State, n: nat)
    requires WellFormed(s) && Finished(s)
    ensures SomeOffered(s, n) <==> SomeOffers(s, n)
    ensures SomeRemoved(s, n) <==> SomeRemoves(s, n)
  {
  }

  /** When every thread is done, a CPU that some thread takes out and none puts in is gone. */
  lemma EndsWithout(s0: State, schedule: seq<nat>, n: nat)
    requires Start(s0) && IsRun(s0, schedule) && Finished(After(s0, schedule))
    requires SomeRemoves(s0, n) && !SomeOffers(s0, n)
    ensures n !in Members(After(s0, schedule).words)
  {
    hide Rewrite;
    var s := After(s0, schedule);
    assert !SomeRemoved(s0, n);
    RunExplained(s0, s0, schedule, n);
    AllOffered(s, n);
    assert SomeOffers(s, n) ==> SomeOffers(s0, n);
    assert SomeRemoves(s0, n) ==> SomeRemoves(s, n);
  }

  /** Steps still to be taken by the threads from `t` on. */
  function Remaining(s: State, t: nat): nat
    requires WellFormed(s) && t <= |s.ops|
    decreases |s.ops| - t
  {
    if t == |s.ops| then 0 else Steps(s.ops[t]) - s.pc[t] + Remaining(s, t + 1)
  }

  lemma {:induction false} RemainingStep(s: State, u: nat, t: nat)
    requires WellFormed(s) && CanStep(s, u) && t <= |s.ops|
    ensures Remaining(Next(s, u), t) == Remaining(s, t) - (if t <= u then 1 else 0)
    decreases |s.ops| - t
  {
    hide Rewrite;
    if t < |s.ops| { RemainingStep(s, u, t + 1); }
  }

  lemma {:induction false} RemainingNone(s: State, t: nat)
    requires WellFormed(s) && t <= |s.ops|
    ensures Remaining(s, t) == 0 <==> forall u | t <= u < |s.ops| :: s.pc[u] == Steps(s.ops[u])
    decreases |s.ops| - t
  {
    if t < |s.ops| { RemainingNone(s, t + 1); }
  }

  /** No schedule is longer than the words to be written, and one of exactly that length, and no
      shorter one, finishes every thread: nobody retries and nobody waits. */
  lemma {:induction false} RunLength(s: State, schedule: seq<nat>)
    requires WellFormed(s) && IsRun(s, schedule)
    ensures |schedule| + Remaining(After(s, schedule), 0) == Remaining(s, 0)
    ensures Finished(After(s, schedule)) <==> |schedule| == Remaining(s, 0)
    decreases |schedule|
  {
    hide Rewrite;
    RemainingNone(After(s, schedule), 0);
    if schedule != [] {
      RemainingStep(s, schedule[0], 0);
      RunLength(Next(s, schedule[0]), schedule[1..]);
    }
  }
}
