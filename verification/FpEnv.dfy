/** The floating-point environment of fenv.h: the x87 unit and the SSE unit each have their own
    rounding control, exception flags and exception masks, and the functions are meant to make them
    look like one unit.
 */
module FpEnv {

  const FE_ALL_EXCEPT: bv32 := 0x3f
  const ROUND_MASK: bv32 := 0x0c00
  const SSE_ROUND_SHIFT: bv6 := 3
  const SSE_EMASK_SHIFT: bv6 := 7

  /** The registers of both units. */
  datatype Regs = Regs(control: bv16, status: bv16, tag: bv16, mxcsr: bv32)

  /** fenv_t; only the low halves of the x87 words are loaded. */
  datatype Env = Env(control: bv32, status: bv32, tag: bv32, mxcsr: bv32)

  function Low(w: bv32): bv16 { (w & 0xffff) as bv16 }

  function Loaded(env: Env): Regs
  {
    Regs(Low(env.control), Low(env.status), Low(env.tag), env.mxcsr)
  }

  // ---- What the two units hold, on one scale

  function X87Round(control: bv16): bv32 { control as bv32 & ROUND_MASK }
  function SseRound(mxcsr: bv32): bv32 { (mxcsr >> SSE_ROUND_SHIFT) & ROUND_MASK }

  function X87Masks(control: bv16): bv32 { control as bv32 & FE_ALL_EXCEPT }
  function SseMasks(mxcsr: bv32): bv32 { (mxcsr >> SSE_EMASK_SHIFT) & FE_ALL_EXCEPT }

  function Both(status: bv16, mxcsr: bv32): bv32 { status as bv32 | mxcsr }

  function Flags(status: bv16, mxcsr: bv32): bv32 { Among(Both(status, mxcsr), FE_ALL_EXCEPT) }

  predicate RoundAgrees(control: bv16, mxcsr: bv32) { X87Round(control) == SseRound(mxcsr) }
  predicate MasksAgree(control: bv16, mxcsr: bv32) { X87Masks(control) == SseMasks(mxcsr) }

  /** The two units are in step. */
  predicate Agrees(s: Regs)
  {
    RoundAgrees(s.control, s.mxcsr) && MasksAgree(s.control, s.mxcsr)
  }

  /** The bits of the two words that are not flags. */
  function Strays(s: Regs): bv32 { Among(Both(s.status, s.mxcsr), !FE_ALL_EXCEPT) }

  /** Those bits of `w` that are in `mask`. */
  function Among(w: bv32, mask: bv32): bv32 { w & mask }

  predicate Within(e: bv32) { e & !FE_ALL_EXCEPT == 0 }

  predicate GoodRound(round: bv32) { round & !ROUND_MASK == 0 }

  // ---- Effects on the registers

  function Tested(status: bv16, mxcsr: bv32, e: bv32): bv32 { Among(Both(status, mxcsr), e) }

  /** FNCLEX clears the exception flags, the stack fault, the summary and the busy bit. */
  function Clex(status: bv16): bv16 { status & 0x7f00 }

  function WithoutFlags(status: bv16, e: bv32): bv16 { Low(status as bv32 & !e) }
  function WithoutBits(mxcsr: bv32, e: bv32): bv32 { mxcsr & !e }

  function ClearedStatus(status: bv16, e: bv32): bv16
  {
    if e == FE_ALL_EXCEPT then Clex(status) else WithoutFlags(status, e)
  }

  function NoRound(control: bv16): bv16 { control & !0x0c00 }
  function AddRound(control: bv16, round: bv32): bv16 { control | Low(round) }
  function NoSseRound(mxcsr: bv32): bv32 { mxcsr & !(ROUND_MASK << SSE_ROUND_SHIFT) }
  function AddSseRound(mxcsr: bv32, round: bv32): bv32 { mxcsr | (round << SSE_ROUND_SHIFT) }

  function RoundedControl(control: bv16, round: bv32): bv16
  {
    AddRound(NoRound(control), round)
  }

  function RoundedMxcsr(mxcsr: bv32, round: bv32): bv32
  {
    AddSseRound(NoSseRound(mxcsr), round)
  }

  /** An arithmetic instruction raises flags and may change the rest of the status word. */
  function RaisedStatus(status: bv16, flags: bv32, rest: bv16): bv16
  {
    (status & 0x3f) | Low(flags & FE_ALL_EXCEPT) | (rest & 0xffc0)
  }

  function RaisedMxcsr(mxcsr: bv32, flags: bv32): bv32 { mxcsr | (flags & FE_ALL_EXCEPT) }

  datatype Op =
    | SetRound(round: bv32)
    | ClearExcept(excepts: bv32)
    | SetEnv(env: Env)
    | Compute(x87: bv32, sse: bv32, rest: bv16)

  function Do(s: Regs, op: Op): Regs
  {
    match op
    case SetRound(r) =>
      if GoodRound(r) then s.(control := RoundedControl(s.control, r), mxcsr := RoundedMxcsr(s.mxcsr, r)) else s
    case ClearExcept(e) => s.(status := ClearedStatus(s.status, e), mxcsr := WithoutBits(s.mxcsr, e))
    case SetEnv(env) => Loaded(env)
    case Compute(x, y, rest) => s.(status := RaisedStatus(s.status, x, rest), mxcsr := RaisedMxcsr(s.mxcsr, y))
  }

  function Run(s: Regs, ops: seq<Op>): Regs
    decreases |ops|
  {
    if ops == [] then s else Run(Do(s, ops[0]), ops[1..])
  }

  // ---- One unit

  /** The environment as section 7.6 of ISO/IEC 9899:1999 speaks of it: one rounding direction, one
      set of status flags, and here one set of masks. */
  datatype Unit = Unit(round: bv32, flags: bv32, masks: bv32)

  /** What a program sees: rounding and masks are read from the x87 unit, flags from both. */
  function View(s: Regs): Unit
  {
    Unit(X87Round(s.control), Flags(s.status, s.mxcsr), X87Masks(s.control))
  }

  // What an environment says, word by word.

  function EnvRound(env: Env): bv32 { env.control & ROUND_MASK }
  function EnvMasks(env: Env): bv32 { env.control & FE_ALL_EXCEPT }
  function EnvFlags(env: Env): bv32 { (env.status | env.mxcsr) & FE_ALL_EXCEPT }

  function EnvUnit(env: Env): Unit { Unit(EnvRound(env), EnvFlags(env), EnvMasks(env)) }

  predicate EnvAgrees(env: Env)
  {
    EnvRound(env) == SseRound(env.mxcsr) && EnvMasks(env) == SseMasks(env.mxcsr)
  }

  function Less(flags: bv32, e: bv32): bv32 { flags & !e }
  function More(flags: bv32, x: bv32, y: bv32): bv32 { flags | ((x | y) & FE_ALL_EXCEPT) }

  function UnitDo(u: Unit, op: Op): Unit
  {
    match op
    case SetRound(r) => if GoodRound(r) then u.(round := r) else u
    case ClearExcept(e) => u.(flags := Less(u.flags, e))
    case SetEnv(env) => EnvUnit(env)
    case Compute(x, y, _) => u.(flags := More(u.flags, x, y))
  }

  function UnitRun(u: Unit, ops: seq<Op>): Unit
    decreases |ops|
  {
    if ops == [] then u else UnitRun(UnitDo(u, ops[0]), ops[1..])
  }

  // ---- Rounding

  lemma RoundSet(control: bv16, round: bv32)
    requires GoodRound(round)
    ensures X87Round(RoundedControl(control, round)) == round
  {
  }

  lemma RoundKeepsMasks(control: bv16, round: bv32)
    requires GoodRound(round)
    ensures X87Masks(RoundedControl(control, round)) == X87Masks(control)
  {
  }

  lemma SseRoundSet(mxcsr: bv32, round: bv32)
    requires GoodRound(round)
    ensures SseRound(RoundedMxcsr(mxcsr, round)) == round
  {
  }

  lemma SseRoundKeeps(mxcsr: bv32, round: bv32)
    requires GoodRound(round)
    ensures RoundedMxcsr(mxcsr, round) & !0x6000 == mxcsr & !0x6000
  {
  }

  /** Bits 13 and 14 are the rounding control, bits 7 to 12 the masks and bits 0 to 5 the flags. */
  lemma OutsideRound(mxcsr: bv32, mxcsr': bv32)
    requires mxcsr & !0x6000 == mxcsr' & !0x6000
    ensures SseMasks(mxcsr) == SseMasks(mxcsr') && mxcsr & 0x3f == mxcsr' & 0x3f
  {
  }

  lemma FlagsOfLow(status: bv16, mxcsr: bv32, mxcsr': bv32)
    requires mxcsr & 0x3f == mxcsr' & 0x3f
    ensures Flags(status, mxcsr) == Flags(status, mxcsr')
  {
  }

  /** fesetround changes the two rounding fields and nothing else. */
  lemma SetRoundOnly(s: Regs, r: bv32)
    ensures Do(s, SetRound(r)).control & !0x0c00 == s.control & !0x0c00
    ensures Do(s, SetRound(r)).mxcsr & !0x6000 == s.mxcsr & !0x6000
    ensures Do(s, SetRound(r)).status == s.status && Do(s, SetRound(r)).tag == s.tag
    ensures !GoodRound(r) ==> Do(s, SetRound(r)) == s
  {
  }

  // ---- Exceptions

  /** Both paths of feclearexcept remove exactly the given flags from what fetestexcept sees. */
  lemma FlagsCleared(status: bv16, mxcsr: bv32, e: bv32)
    requires Within(e)
    ensures Flags(ClearedStatus(status, e), WithoutBits(mxcsr, e)) == Less(Flags(status, mxcsr), e)
  {
  }

  lemma ClearKeepsControls(mxcsr: bv32, e: bv32)
    requires Within(e)
    ensures SseRound(WithoutBits(mxcsr, e)) == SseRound(mxcsr)
    ensures SseMasks(WithoutBits(mxcsr, e)) == SseMasks(mxcsr)
  {
  }

  lemma FlagsRaised(status: bv16, mxcsr: bv32, x: bv32, y: bv32, rest: bv16)
    ensures Flags(RaisedStatus(status, x, rest), RaisedMxcsr(mxcsr, y)) == More(Flags(status, mxcsr), x, y)
  {
  }

  lemma RaiseKeepsControls(mxcsr: bv32, y: bv32)
    ensures SseRound(RaisedMxcsr(mxcsr, y)) == SseRound(mxcsr)
    ensures SseMasks(RaisedMxcsr(mxcsr, y)) == SseMasks(mxcsr)
  {
  }

  lemma ClearedMxcsr(mxcsr: bv32, e: bv32)
    ensures WithoutBits(mxcsr, e) & !e == mxcsr & !e && WithoutBits(mxcsr, e) & e == 0
  {
  }

  lemma ClearedOthers(status: bv16, e: bv32)
    requires e != FE_ALL_EXCEPT
    ensures ClearedStatus(status, e) & !Low(e) == status & !Low(e)
  {
  }

  lemma ClearedAll(status: bv16)
    ensures ClearedStatus(status, FE_ALL_EXCEPT) & 0x7f00 == status & 0x7f00
  {
  }

  /** feclearexcept, whatever its argument, leaves control and tag word, every bit of MXCSR outside the
      argument, and every bit of the status word outside it but for those that FNCLEX clears as
      well on the path for all exceptions. */
  lemma ClearOnly(s: Regs, e: bv32)
    ensures Do(s, ClearExcept(e)).control == s.control && Do(s, ClearExcept(e)).tag == s.tag
    ensures Do(s, ClearExcept(e)).mxcsr & !e == s.mxcsr & !e && Do(s, ClearExcept(e)).mxcsr & e == 0
    ensures e != FE_ALL_EXCEPT ==> Do(s, ClearExcept(e)).status & !Low(e) == s.status & !Low(e)
    ensures e == FE_ALL_EXCEPT ==> Do(s, ClearExcept(e)).status & 0x7f00 == s.status & 0x7f00
  {
    hide WithoutBits, ClearedStatus, Low;
    ClearedMxcsr(s.mxcsr, e);
    if e == FE_ALL_EXCEPT { ClearedAll(s.status); } else { ClearedOthers(s.status, e); }
  }

  // ---- Environments

  lemma LoadedRound(env: Env)
    ensures X87Round(Low(env.control)) == EnvRound(env)
  {
  }

  lemma LoadedMasks(env: Env)
    ensures X87Masks(Low(env.control)) == EnvMasks(env)
  {
  }

  lemma LoadedFlags(env: Env)
    ensures Flags(Low(env.status), env.mxcsr) == EnvFlags(env)
  {
  }

  /** fesetenv makes the environment what the words of its argument say. */
  lemma SetEnvRefines(s: Regs, env: Env)
    ensures View(Do(s, SetEnv(env))) == EnvUnit(env)
    ensures Agrees(Do(s, SetEnv(env))) <==> EnvAgrees(env)
  {
    hide X87Round, SseRound, X87Masks, SseMasks, Flags, Low, EnvRound, EnvMasks, EnvFlags;
    LoadedRound(env);
    LoadedMasks(env);
    LoadedFlags(env);
  }

  // ---- Runs

  /** feclearexcept is given flags only, and fesetenv an environment in which the units agree. */
  predicate Permitted(op: Op)
  {
    match op
    case ClearExcept(e) => Within(e)
    case SetEnv(env) => EnvAgrees(env)
    case _ => true
  }

  predicate AllPermitted(ops: seq<Op>) { forall i | 0 <= i < |ops| :: Permitted(ops[i]) }

  lemma DoRefines(s: Regs, op: Op)
    requires Agrees(s) && Permitted(op)
    ensures Agrees(Do(s, op)) && View(Do(s, op)) == UnitDo(View(s), op)
  {
    hide X87Round, SseRound, X87Masks, SseMasks, Flags, Within, GoodRound, ClearedStatus, WithoutBits;
    hide RoundedControl, RoundedMxcsr, RaisedStatus, RaisedMxcsr, Low, Less, More;
    match op
    case SetRound(r) =>
      if GoodRound(r) {
        SetRoundRefines(s, r);
      }
    case ClearExcept(e) =>
      FlagsCleared(s.status, s.mxcsr, e);
      ClearKeepsControls(s.mxcsr, e);
    case SetEnv(env) => SetEnvRefines(s, env);
    case Compute(x, y, rest) =>
      FlagsRaised(s.status, s.mxcsr, x, y, rest);
      RaiseKeepsControls(s.mxcsr, y);
  }

  lemma SetRoundRefines(s: Regs, r: bv32)
    requires Agrees(s) && GoodRound(r)
    ensures Agrees(Do(s, SetRound(r))) && View(Do(s, SetRound(r))) == View(s).(round := r)
  {
    hide X87Round, SseRound, X87Masks, SseMasks, Flags, Within, GoodRound, ClearedStatus, WithoutBits;
    hide RoundedControl, RoundedMxcsr, RaisedStatus, RaisedMxcsr, Low, Less, More;
    RoundSet(s.control, r);
    RoundKeepsMasks(s.control, r);
    SseRoundSet(s.mxcsr, r);
    SseRoundKeeps(s.mxcsr, r);
    OutsideRound(RoundedMxcsr(s.mxcsr, r), s.mxcsr);
    FlagsOfLow(s.status, RoundedMxcsr(s.mxcsr, r), s.mxcsr);
  }

  /** Over any run the two units stay in step and behave as one. */
  lemma {:induction false} RunRefines(s: Regs, ops: seq<Op>)
    requires Agrees(s) && AllPermitted(ops)
    ensures Agrees(Run(s, ops)) && View(Run(s, ops)) == UnitRun(View(s), ops)
    decreases |ops|
  {
    hide Agrees, View, Do, UnitDo, Permitted;
    if ops != [] {
      DoRefines(s, ops[0]);
      RunRefines(Do(s, ops[0]), ops[1..]);
    }
  }

  /** The mode that the last accepted fesetround asked for. */
  function LastRound(round: bv32, ops: seq<Op>): bv32
    decreases |ops|
  {
    if ops == [] then round
    else LastRound(if ops[0].SetRound? && GoodRound(ops[0].round) then ops[0].round else round, ops[1..])
  }

  /** With no fesetenv on the way, fegetround reports the last accepted mode. */
  lemma {:induction false} RoundIsLastSet(s: Regs, ops: seq<Op>)
    requires Agrees(s) && AllPermitted(ops) && forall i | 0 <= i < |ops| :: !ops[i].SetEnv?
    ensures X87Round(Run(s, ops).control) == SseRound(Run(s, ops).mxcsr) == LastRound(X87Round(s.control), ops)
    decreases |ops|
  {
    hide X87Round, SseRound, X87Masks, SseMasks, Flags, Permitted, Do, GoodRound;
    if ops != [] {
      DoRefines(s, ops[0]);
      RoundIsLastSet(Do(s, ops[0]), ops[1..]);
    }
  }

  // ---- Arguments outside the contract

  /** feclearexcept does not check its argument: with stray bits it knocks the SSE rounding control
      out of step exactly when one of them covers a set bit of the current mode. */
  lemma StrayClearRound(s: Regs, e: bv32)
    requires RoundAgrees(s.control, s.mxcsr)
    ensures RoundAgrees(Do(s, ClearExcept(e)).control, Do(s, ClearExcept(e)).mxcsr) <==>
      (X87Round(s.control) << SSE_ROUND_SHIFT) & e == 0
  {
  }

  /** The same for the exception masks. */
  lemma StrayClearMasks(s: Regs, e: bv32)
    requires MasksAgree(s.control, s.mxcsr)
    ensures MasksAgree(Do(s, ClearExcept(e)).control, Do(s, ClearExcept(e)).mxcsr) <==>
      (X87Masks(s.control) << SSE_EMASK_SHIFT) & e == 0
  {
  }

  /** From the power-up masks: round downward, then clear the stray bit 0x2000. The x87 unit, and so
      fegetround, still says downward while the SSE unit rounds to nearest. */
  lemma StrayClearExample()
    ensures var s := Run(Regs(0x037f, 0, 0xffff, 0x1f80), [SetRound(0x0400), ClearExcept(0x2000)]);
            X87Round(s.control) == 0x0400 && SseRound(s.mxcsr) == 0
  {
  }

  // ---- The functions themselves

  class FpUnits {
    var control: bv16
    var status: bv16
    var tag: bv16
    var mxcsr: bv32

    function Value(): Regs
      reads this
    {
      Regs(control, status, tag, mxcsr)
    }

    constructor (s: Regs)
      ensures Value() == s
    {
      control, status, tag, mxcsr := s.control, s.status, s.tag, s.mxcsr;
    }

    /** FNSTENV stores the x87 half and then masks all x87 exceptions. */
    method Fnstenv() returns (env: Env)
      modifies this`control
      ensures env.control == old(control) as bv32 && env.status == status as bv32 && env.tag == tag as bv32
      ensures control == old(control) | 0x3f
    {
      env := Env(control as bv32, status as bv32, tag as bv32, 0);
      control := control | 0x3f;
    }

    method Fldenv(env: Env)
      modifies this`control, this`status, this`tag
      ensures control == Low(env.control) && status == Low(env.status) && tag == Low(env.tag)
    {
      control, status, tag := Low(env.control), Low(env.status), Low(env.tag);
    }

    method Feclearexcept(excepts: bv32) returns (ret: int)
      modifies this
      ensures ret == 0 && Value() == Do(old(Value()), ClearExcept(excepts))
    {
      hide WithoutFlags, WithoutBits, Clex, Low;
      if excepts == FE_ALL_EXCEPT {
        status := Clex(status);
      } else {
        ghost var was := Value();
        var env := Fnstenv();
        env := env.(status := env.status & !excepts);
        Fldenv(env);
        LowWhole(was.control);
        LowWhole(was.tag);
        assert status == WithoutFlags(was.status, excepts) by { StoredStatus(was.status, excepts); }
      }
      var csr := mxcsr;
      csr := WithoutBits(csr, excepts);
      mxcsr := csr;
      ret := 0;
    }

    method Fetestexcept(excepts: bv32) returns (ret: bv32)
      ensures Among(ret, FE_ALL_EXCEPT) == Among(View(Value()).flags, excepts)
      ensures Among(ret, !FE_ALL_EXCEPT) == Among(Strays(Value()), excepts)
      ensures Within(excepts) ==> ret == Among(View(Value()).flags, excepts)
    {
      hide Tested, Flags, Strays, Within, Among, X87Round, X87Masks;
      ret := Tested(status, mxcsr, excepts);
      TestedBits(Value(), excepts);
    }

    method Fegetround() returns (ret: bv32)
      ensures ret == View(Value()).round && GoodRound(ret)
      ensures Agrees(Value()) ==> ret == SseRound(mxcsr)
    {
      hide SseRound;
      ret := control as bv32 & ROUND_MASK;
    }

    method Fegetexcept() returns (ret: bv32)
      ensures Within(ret) && ret ^ View(Value()).masks == FE_ALL_EXCEPT
    {
      ret := !(control as bv32) & FE_ALL_EXCEPT;
    }

    method Fesetround(round: bv32) returns (ret: int)
      modifies this`control, this`mxcsr
      ensures ret == (if GoodRound(round) then 0 else -1)
      ensures Value() == Do(old(Value()), SetRound(round))
    {
      hide NoRound, AddRound, NoSseRound, AddSseRound;
      if round & !ROUND_MASK != 0 {
        return -1;
      }
      var cw := control;
      cw := NoRound(cw);
      cw := AddRound(cw, round);
      control := cw;
      var csr := mxcsr;
      csr := NoSseRound(csr);
      csr := AddSseRound(csr, round);
      mxcsr := csr;
      return 0;
    }

    method Fesetenv(env: Env) returns (ret: int)
      modifies this
      ensures control == Low(env.control) && status == Low(env.status) && tag == Low(env.tag) && mxcsr == env.mxcsr
      ensures ret == 0 && Value() == Do(old(Value()), SetEnv(env))
    {
      Fldenv(env);
      mxcsr := env.mxcsr;
      ret := 0;
    }
  }

  lemma AmongSwaps(w: bv32, e: bv32, mask: bv32)
    ensures Among(Among(w, e), mask) == Among(Among(w, mask), e)
  {
    assert w & e & mask == w & mask & e;
  }

  lemma AmongFlags(w: bv32, e: bv32)
    requires Within(e)
    ensures Among(w, e) == Among(Among(w, FE_ALL_EXCEPT), e)
  {
  }

  lemma TestedBits(s: Regs, e: bv32)
    ensures Among(Tested(s.status, s.mxcsr, e), FE_ALL_EXCEPT) == Among(Flags(s.status, s.mxcsr), e)
    ensures Among(Tested(s.status, s.mxcsr, e), !FE_ALL_EXCEPT) == Among(Strays(s), e)
    ensures Within(e) ==> Tested(s.status, s.mxcsr, e) == Among(Flags(s.status, s.mxcsr), e)
  {
    hide Among, Both, Within;
    var both := Both(s.status, s.mxcsr);
    AmongSwaps(both, e, FE_ALL_EXCEPT);
    AmongSwaps(both, e, !FE_ALL_EXCEPT);
    if Within(e) { AmongFlags(both, e); }
  }

  lemma LowWhole(w: bv16)
    ensures Low(w as bv32) == w
  {
  }

  lemma StoredStatus(status: bv16, e: bv32)
    ensures Low(status as bv32 & !e) == WithoutFlags(status, e)
  {
  }
}
