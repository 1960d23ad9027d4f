/** CPU sets of sys/cpuset.h: an array of 64-bit words read as a set of CPU numbers. */
module CpuSet {
  import opened Bits

  /** _NCPUBITS. */
  const WORD_BITS: nat := 64

  predicate IsWord(w: nat) { w < Pow2(WORD_BITS) }

  predicate AreWords(ws: seq<nat>) { forall i | 0 <= i < |ws| :: IsWord(ws[i]) }

  predicate Has(ws: seq<nat>, n: nat)
  {
    n < WORD_BITS * |ws| && Bit(ws[n / WORD_BITS], n % WORD_BITS)
  }

  /** The set of CPUs that the words stand for. */
  function Members(ws: seq<nat>): set<nat>
  {
    set n | 0 <= n < WORD_BITS * |ws| && Has(ws, n)
  }

  predicate Fits(n: nat, words: nat) { n < WORD_BITS * words }

  /** Every CPU that `words` words can hold. */
  function All(words: nat): set<nat>
  {
    set n | 0 <= n < WORD_BITS * words && Fits(n, words)
  }

  /** Every bit of every word is the place of one CPU. */
  lemma Place(ws: seq<nat>, i: nat, k: nat)
    requires i < |ws| && k < WORD_BITS
    ensures WORD_BITS * i + k in Members(ws) <==> Bit(ws[i], k)
  {
  }

  lemma OrIsUnion(d: seq<nat>, s: seq<nat>, r: seq<nat>)
    requires |d| == |s| == |r| && forall i | 0 <= i < |r| :: r[i] == Or(d[i], s[i])
    ensures Members(r) == Members(d) + Members(s)
  {
    forall n: nat ensures Has(r, n) <==> Has(d, n) || Has(s, n) {
      if n < WORD_BITS * |r| { OrBit(d[n / WORD_BITS], s[n / WORD_BITS], n % WORD_BITS); }
    }
  }

  lemma AndIsIntersection(d: seq<nat>, s: seq<nat>, r: seq<nat>)
    requires |d| == |s| == |r| && forall i | 0 <= i < |r| :: r[i] == And(d[i], s[i])
    ensures Members(r) == Members(d) * Members(s)
  {
    forall n: nat ensures Has(r, n) <==> Has(d, n) && Has(s, n) {
      if n < WORD_BITS * |r| { AndBit(d[n / WORD_BITS], s[n / WORD_BITS], n % WORD_BITS); }
    }
  }

  lemma AndNotIsDifference(d: seq<nat>, s: seq<nat>, r: seq<nat>)
    requires |d| == |s| == |r| && forall i | 0 <= i < |r| :: r[i] == AndNot(d[i], s[i])
    ensures Members(r) == Members(d) - Members(s)
  {
    forall n: nat ensures Has(r, n) <==> Has(d, n) && !Has(s, n) {
      if n < WORD_BITS * |r| { AndNotBit(d[n / WORD_BITS], s[n / WORD_BITS], n % WORD_BITS); }
    }
  }

  lemma ZeroIsEmpty(ws: seq<nat>)
    requires forall i | 0 <= i < |ws| :: ws[i] == 0
    ensures Members(ws) == {}
  {
    forall n: nat ensures !Has(ws, n) { ZeroHasNoBits(n % WORD_BITS); }
  }

  lemma OnesIsAll(ws: seq<nat>)
    requires forall i | 0 <= i < |ws| :: ws[i] == Pow2(WORD_BITS) - 1
    ensures Members(ws) == All(|ws|)
  {
    forall n: nat | n < WORD_BITS * |ws| ensures Has(ws, n) { OnesBit(WORD_BITS, n % WORD_BITS); }
  }

  /** No two arrays of words stand for the same set: a set test may compare words. */
  lemma EqualWords(a: seq<nat>, b: seq<nat>)
    requires |a| == |b| && AreWords(a) && AreWords(b)
    ensures a == b <==> Members(a) == Members(b)
  {
    hide Members;
    if Members(a) == Members(b) {
      forall i | 0 <= i < |a| ensures a[i] == b[i] {
        forall k | 0 <= k < WORD_BITS ensures Bit(a[i], k) == Bit(b[i], k) {
          Place(a, i, k);
          Place(b, i, k);
        }
        SameBits(a[i], b[i], WORD_BITS);
      }
    }
  }

  function AndWords(a: seq<nat>, b: seq<nat>): (r: seq<nat>)
    requires |a| == |b|
    ensures |r| == |a| && forall i | 0 <= i < |r| :: r[i] == And(a[i], b[i])
  {
    seq(|a|, i requires 0 <= i < |a| => And(a[i], b[i]))
  }

  lemma AndWordsFit(a: seq<nat>, b: seq<nat>)
    requires |a| == |b| && AreWords(a) && AreWords(b)
    ensures AreWords(AndWords(a, b)) && Members(AndWords(a, b)) == Members(a) * Members(b)
  {
    AndIsIntersection(a, b, AndWords(a, b));
    forall i | 0 <= i < |a| ensures IsWord(AndWords(a, b)[i]) { OpsStayInWord(a[i], b[i], WORD_BITS); }
  }

  lemma EmptyWords(ws: seq<nat>)
    requires AreWords(ws)
    ensures (forall i | 0 <= i < |ws| :: ws[i] == 0) <==> Members(ws) == {}
  {
    hide Members;
    var zero := seq(|ws|, _ => 0);
    ZeroIsEmpty(zero);
    EqualWords(ws, zero);
  }

  lemma FullWords(ws: seq<nat>)
    requires AreWords(ws)
    ensures (forall i | 0 <= i < |ws| :: ws[i] == Pow2(WORD_BITS) - 1) <==> Members(ws) == All(|ws|)
  {
    hide Members;
    var ones := seq(|ws|, _ => Pow2(WORD_BITS) - 1);
    OnesIsAll(ones);
    EqualWords(ws, ones);
  }

  lemma SubsetWords(c: seq<nat>, p: seq<nat>)
    requires |c| == |p| && AreWords(c) && AreWords(p)
    ensures (forall i | 0 <= i < |c| :: And(c[i], p[i]) == c[i]) <==> Members(c) <= Members(p)
  {
    hide Members;
    AndWordsFit(c, p);
    EqualWords(AndWords(c, p), c);
    assert AndWords(c, p) == c <==> forall i | 0 <= i < |c| :: And(c[i], p[i]) == c[i];
    assert Members(c) * Members(p) == Members(c) <==> Members(c) <= Members(p);
  }

  lemma DisjointWords(c: seq<nat>, p: seq<nat>)
    requires |c| == |p| && AreWords(c) && AreWords(p)
    ensures (forall i | 0 <= i < |c| :: And(c[i], p[i]) == 0) <==> Members(c) * Members(p) == {}
  {
    hide Members;
    var both := AndWords(c, p);
    AndWordsFit(c, p);
    EmptyWords(both);
    if forall i | 0 <= i < |c| :: And(c[i], p[i]) == 0 {
      assert forall i | 0 <= i < |both| :: both[i] == 0;
    } else {
      var i :| 0 <= i < |c| && And(c[i], p[i]) != 0;
      assert both[i] != 0;
    }
  }

  /** __cpuset_mask. */
  function Mask(n: nat): (r: nat)
    ensures IsWord(r)
  {
    PowFits(n % WORD_BITS, WORD_BITS);
    Pow2(n % WORD_BITS)
  }

  lemma {:induction false} PowFits(k: nat, width: nat)
    requires k < width
    ensures Pow2(k) < Pow2(width)
    decreases k
  {
    if k > 0 { PowFits(k - 1, width - 1); }
  }

  function SetBit(ws: seq<nat>, n: nat): (r: seq<nat>)
    requires n < WORD_BITS * |ws|
    ensures |r| == |ws|
  {
    ws[n / WORD_BITS := Or(ws[n / WORD_BITS], Mask(n))]
  }

  function ClearBit(ws: seq<nat>, n: nat): (r: seq<nat>)
    requires n < WORD_BITS * |ws|
    ensures |r| == |ws|
  {
    ws[n / WORD_BITS := AndNot(ws[n / WORD_BITS], Mask(n))]
  }

  lemma SetBitAdds(ws: seq<nat>, n: nat, m: nat)
    requires n < WORD_BITS * |ws|
    ensures Has(SetBit(ws, n), m) <==> Has(ws, m) || m == n
  {
    if m < WORD_BITS * |ws| && m / WORD_BITS == n / WORD_BITS {
      OrBit(ws[n / WORD_BITS], Mask(n), m % WORD_BITS);
      Pow2Bit(n % WORD_BITS, m % WORD_BITS);
    }
  }

  lemma ClearBitRemoves(ws: seq<nat>, n: nat, m: nat)
    requires n < WORD_BITS * |ws|
    ensures Has(ClearBit(ws, n), m) <==> Has(ws, m) && m != n
  {
    if m < WORD_BITS * |ws| && m / WORD_BITS == n / WORD_BITS {
      AndNotBit(ws[n / WORD_BITS], Mask(n), m % WORD_BITS);
      Pow2Bit(n % WORD_BITS, m % WORD_BITS);
    }
  }

  /** cpuset_t with any number of words. Two sets may be one and the same object. */
  class CpuSetT {
    const bits: array<nat>

    predicate Valid()
      reads bits
    {
      AreWords(bits[..])
    }

    function Cpus(): set<nat>
      reads bits
    {
      Members(bits[..])
    }

    constructor (words: nat)
      ensures Valid() && fresh(bits) && bits.Length == words
    {
      bits := new nat[words](_ => 0);
    }

    method IsSet(n: nat) returns (r: bool)
      requires n < WORD_BITS * bits.Length
      ensures r <==> n in Cpus()
    {
      var w := bits[n / WORD_BITS];
      r := And(w, Mask(n)) != 0;
      OneBit(w, n);
      assert Has(bits[..], n) <==> Bit(w, n % WORD_BITS);
    }

    method Set(n: nat)
      requires Valid() && n < WORD_BITS * bits.Length
      modifies bits
      ensures Valid() && Cpus() == old(Cpus()) + {n}
    {
      ghost var was := bits[..];
      OpsStayInWord(bits[n / WORD_BITS], Mask(n), WORD_BITS);
      bits[n / WORD_BITS] := Or(bits[n / WORD_BITS], Mask(n));
      assert bits[..] == SetBit(was, n);
      forall m: nat ensures m in Cpus() <==> m in Members(was) + {n} { SetBitAdds(was, n, m); }
    }

    method Clr(n: nat)
      requires Valid() && n < WORD_BITS * bits.Length
      modifies bits
      ensures Valid() && Cpus() == old(Cpus()) - {n}
    {
      ghost var was := bits[..];
      OpsStayInWord(bits[n / WORD_BITS], Mask(n), WORD_BITS);
      bits[n / WORD_BITS] := AndNot(bits[n / WORD_BITS], Mask(n));
      assert bits[..] == ClearBit(was, n);
      forall m: nat ensures m in Cpus() <==> m in Members(was) - {n} { ClearBitRemoves(was, n, m); }
    }

    method Zero()
      modifies bits
      ensures Valid() && Cpus() == {}
      ensures forall i | 0 <= i < bits.Length :: bits[i] == 0
    {
      for i := 0 to bits.Length
        invariant forall j | 0 <= j < i :: bits[j] == 0
      {
        bits[i] := 0;
      }
      ZeroIsEmpty(bits[..]);
    }

    method Fill()
      modifies bits
      ensures Valid() && Cpus() == All(bits.Length)
    {
      for i := 0 to bits.Length
        invariant forall j | 0 <= j < i :: bits[j] == Pow2(WORD_BITS) - 1
      {
        bits[i] := Pow2(WORD_BITS) - 1;
      }
      OnesIsAll(bits[..]);
    }

    method SetOf(n: nat)
      requires n < WORD_BITS * bits.Length
      modifies bits
      ensures Valid() && Cpus() == {n}
    {
      Zero();
      ghost var was := bits[..];
      bits[n / WORD_BITS] := Mask(n);
      assert bits[..] == SetBit(was, n);
      forall m: nat ensures m in Cpus() <==> m == n {
        SetBitAdds(was, n, m);
        assert m !in Members(was);
      }
    }

    method Copy(from: CpuSetT)
      requires from.Valid() && from.bits.Length == bits.Length
      modifies bits
      ensures Valid() && Cpus() == old(from.Cpus())
    {
      forall i | 0 <= i < bits.Length { bits[i] := from.bits[i]; }
      assert bits[..] == old(from.bits[..]);
    }

    /** CPU_COPY_STORE_REL. */
    method CopyStoreRel(from: CpuSetT)
      requires from.Valid() && from.bits.Length == bits.Length
      modifies bits
      ensures Valid() && Cpus() == old(from.Cpus())
    {
      for i := 0 to bits.Length
        invariant forall j | 0 <= j < i :: bits[j] == old(from.bits[j])
        invariant forall j | i <= j < bits.Length :: from.bits[j] == old(from.bits[j])
      {
        bits[i] := from.bits[i];
      }
      assert bits[..] == old(from.bits[..]);
    }

    method IsEmpty() returns (r: bool)
      requires Valid()
      ensures r <==> Cpus() == {}
    {
      EmptyWords(bits[..]);
      var i := 0;
      while i < bits.Length
        invariant 0 <= i <= bits.Length && forall j | 0 <= j < i :: bits[..][j] == 0
      {
        if bits[i] != 0 { assert bits[..][i] != 0; break; }
        i := i + 1;
      }
      r := i == bits.Length;
    }

    method IsFullSet() returns (r: bool)
      requires Valid()
      ensures r <==> Cpus() == All(bits.Length)
    {
      FullWords(bits[..]);
      var i := 0;
      while i < bits.Length
        invariant 0 <= i <= bits.Length && forall j | 0 <= j < i :: bits[..][j] == Pow2(WORD_BITS) - 1
      {
        if bits[i] != Pow2(WORD_BITS) - 1 { assert bits[..][i] != Pow2(WORD_BITS) - 1; break; }
        i := i + 1;
      }
      r := i == bits.Length;
    }

    /** CPU_SUBSET(this, c): is `c` a subset of this set? */
    method Subset(c: CpuSetT) returns (r: bool)
      requires Valid() && c.Valid() && c.bits.Length == bits.Length
      ensures r <==> c.Cpus() <= Cpus()
    {
      SubsetWords(c.bits[..], bits[..]);
      var i := 0;
      while i < bits.Length
        invariant 0 <= i <= bits.Length
        invariant forall j | 0 <= j < i :: And(c.bits[..][j], bits[..][j]) == c.bits[..][j]
      {
        if And(c.bits[i], bits[i]) != c.bits[i] {
          assert And(c.bits[..][i], bits[..][i]) != c.bits[..][i];
          break;
        }
        i := i + 1;
      }
      r := i == bits.Length;
    }

    method Overlap(c: CpuSetT) returns (r: bool)
      requires Valid() && c.Valid() && c.bits.Length == bits.Length
      ensures r <==> Cpus() * c.Cpus() != {}
    {
      DisjointWords(c.bits[..], bits[..]);
      assert Cpus() * c.Cpus() == c.Cpus() * Cpus();
      var i := 0;
      while i < bits.Length
        invariant 0 <= i <= bits.Length
        invariant forall j | 0 <= j < i :: And(c.bits[..][j], bits[..][j]) == 0
      {
        if And(c.bits[i], bits[i]) != 0 {
          assert And(c.bits[..][i], bits[..][i]) != 0;
          break;
        }
        i := i + 1;
      }
      r := i != bits.Length;
    }

    /** CPU_CMP: 0 for equal sets and 1 otherwise. */
    method Cmp(c: CpuSetT) returns (r: int)
      requires Valid() && c.Valid() && c.bits.Length == bits.Length
      ensures r == if Cpus() == c.Cpus() then 0 else 1
    {
      EqualWords(bits[..], c.bits[..]);
      var i := 0;
      while i < bits.Length
        invariant 0 <= i <= bits.Length && forall j | 0 <= j < i :: bits[..][j] == c.bits[..][j]
      {
        if c.bits[i] != bits[i] { assert c.bits[..][i] != bits[..][i]; break; }
        i := i + 1;
      }
      r := if i != bits.Length then 1 else 0;
    }

    method OrWith(s: CpuSetT)
      requires Valid() && s.Valid() && s.bits.Length == bits.Length
      modifies bits
      ensures Valid() && Cpus() == old(Cpus()) + old(s.Cpus())
    {
      hide Members, Or, Pow2;
      for i := 0 to bits.Length
        invariant forall j | 0 <= j < i :: bits[j] == Or(old(bits[j]), old(s.bits[j])) && IsWord(bits[j])
        invariant forall j | i <= j < bits.Length :: bits[j] == old(bits[j]) && s.bits[j] == old(s.bits[j])
      {
        assert IsWord(old(bits[..])[i]) && IsWord(old(s.bits[..])[i]);
        OpsStayInWord(bits[i], s.bits[i], WORD_BITS);
        bits[i] := Or(bits[i], s.bits[i]);
      }
      OrIsUnion(old(bits[..]), old(s.bits[..]), bits[..]);
    }

    method AndWith(s: CpuSetT)
      requires Valid() && s.Valid() && s.bits.Length == bits.Length
      modifies bits
      ensures Valid() && Cpus() == old(Cpus()) * old(s.Cpus())
    {
      hide Members, And, Pow2;
      for i := 0 to bits.Length
        invariant forall j | 0 <= j < i :: bits[j] == And(old(bits[j]), old(s.bits[j])) && IsWord(bits[j])
        invariant forall j | i <= j < bits.Length :: bits[j] == old(bits[j]) && s.bits[j] == old(s.bits[j])
      {
        assert IsWord(old(bits[..])[i]) && IsWord(old(s.bits[..])[i]);
        OpsStayInWord(bits[i], s.bits[i], WORD_BITS);
        bits[i] := And(bits[i], s.bits[i]);
      }
      AndIsIntersection(old(bits[..]), old(s.bits[..]), bits[..]);
    }

    method NandWith(s: CpuSetT)
      requires Valid() && s.Valid() && s.bits.Length == bits.Length
      modifies bits
      ensures Valid() && Cpus() == old(Cpus()) - old(s.Cpus())
    {
      hide Members, AndNot, Pow2;
      for i := 0 to bits.Length
        invariant forall j | 0 <= j < i :: bits[j] == AndNot(old(bits[j]), old(s.bits[j])) && IsWord(bits[j])
        invariant forall j | i <= j < bits.Length :: bits[j] == old(bits[j]) && s.bits[j] == old(s.bits[j])
      {
        assert IsWord(old(bits[..])[i]) && IsWord(old(s.bits[..])[i]);
        OpsStayInWord(bits[i], s.bits[i], WORD_BITS);
        bits[i] := AndNot(bits[i], s.bits[i]);
      }
      AndNotIsDifference(old(bits[..]), old(s.bits[..]), bits[..]);
    }
  }

  /** Masking with one bit is a test of that bit. */
  lemma OneBit(w: nat, n: nat)
    ensures And(w, Mask(n)) != 0 <==> Bit(w, n % WORD_BITS)
  {
    var k := n % WORD_BITS;
    AndBit(w, Mask(n), k);
    Pow2Bit(k, k);
    ZeroHasNoBits(k);
    if !Bit(w, k) {
      NoBitsIsZero(w, k);
    }
  }

  lemma {:induction false} NoBitsIsZero(w: nat, k: nat)
    requires !Bit(w, k)
    ensures And(w, Pow2(k)) == 0
    decreases k
  {
    if k > 0 { NoBitsIsZero(w / 2, k - 1); } else { assert And(w / 2, 0) == 0; }
  }
}
