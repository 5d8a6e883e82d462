/**
  Population count of a processor affinity mask (`CountSetBits`).

  A mask is a `ULONG_PTR`; on the 64-bit Windows target that is a 64-bit
  unsigned word. Bits are numbered from 0 (least significant).
 */
module Bits {

  /** Number of bits in a `ULONG_PTR` on the 64-bit target. */
  const WordBits: nat := 64

  /** Values of a `ULONG_PTR`. */
  type Word = x: int | 0 <= x < 0x1_0000_0000_0000_0000

  /** Values of a C++ `int`; arithmetic at this type is checked against its range. */
  newtype Int32 = x: int | -0x8000_0000 <= x < 0x8000_0000

  function Pow2(k: nat): (r: nat)
    ensures r >= 1
  {
    if k == 0 then 1 else 2 * Pow2(k - 1)
  }

  /** Bit `k` of `m`. */
  function Bit(m: nat, k: nat): (b: nat)
    ensures b <= 1
  {
    if k == 0 then m % 2 else Bit(m / 2, k - 1)
  }

  /** Bitwise AND of two naturals, bit by bit from the least significant. */
  function And(a: nat, b: nat): (r: nat)
  {
    if a == 0 || b == 0 then 0
    else 2 * And(a / 2, b / 2) + (if a % 2 == 1 && b % 2 == 1 then 1 else 0)
  }

  /** Number of set bits of `m` among positions `lo .. hi-1`. */
  function Ones(m: nat, lo: nat, hi: nat): (n: nat)
    ensures lo <= hi ==> n <= hi - lo
    decreases hi - lo
  {
    if lo >= hi then 0 else Bit(m, lo) + Ones(m, lo + 1, hi)
  }

  /** The positions among `lo .. hi-1` at which `m` has a set bit. */
  ghost function SetBits(m: nat, lo: nat, hi: nat): set<nat>
  {
    set k: nat | lo <= k < hi && Bit(m, k) == 1
  }

  /** The number of set bits among the `WordBits` bits of a word. */
  function PopCount(m: Word): (n: nat)
    ensures n <= WordBits
  {
    Ones(m, 0, WordBits)
  }

  lemma {:induction false} BitOfZero(k: nat)
    ensures Bit(0, k) == 0
  {
    if k > 0 { BitOfZero(k - 1); }
  }

  /** A one-bit probe `Pow2(k)` picks out exactly bit `k`: `m & (1 << k)` is
      nonzero exactly when bit `k` of `m` is set. */
  lemma {:induction false} AndProbe(m: nat, k: nat)
    ensures And(m, Pow2(k)) == (if Bit(m, k) == 1 then Pow2(k) else 0)
  {
    if m == 0 {
      BitOfZero(k);
    } else if k > 0 {
      AndProbe(m / 2, k - 1);
    }
  }

  /** The power of two `Pow2(c)` has bit `c` set and no other. */
  lemma {:induction false} BitOfPow2(c: nat, k: nat)
    ensures Bit(Pow2(c), k) == (if k == c then 1 else 0)
  {
    if c == 0 {
      if k > 0 { BitOfZero(k - 1); }
    } else if k > 0 {
      BitOfPow2(c - 1, k - 1);
    }
  }

  lemma {:induction false} OnesOfPow2(c: nat, lo: nat, hi: nat)
    ensures Ones(Pow2(c), lo, hi) == (if lo <= c < hi then 1 else 0)
    decreases hi - lo
  {
    if lo < hi {
      BitOfPow2(c, lo);
      OnesOfPow2(c, lo + 1, hi);
    }
  }

  /** `Ones` counts exactly the elements of `SetBits`. */
  lemma {:induction false} OnesIsCardinality(m: nat, lo: nat, hi: nat)
    ensures Ones(m, lo, hi) == |SetBits(m, lo, hi)|
    decreases hi - lo
  {
    if lo >= hi {
      assert SetBits(m, lo, hi) == {};
    } else {
      OnesIsCardinality(m, lo + 1, hi);
      var rest := SetBits(m, lo + 1, hi);
      assert lo !in rest;
      if Bit(m, lo) == 1 {
        assert SetBits(m, lo, hi) == {lo} + rest;
      } else {
        assert SetBits(m, lo, hi) == rest;
      }
    }
  }

  /** Counting bits `lo+1 .. hi` of `m` is counting bits `lo .. hi-1` of `m / 2`. */
  lemma {:induction false} OnesShift(m: nat, lo: nat, hi: nat)
    ensures Ones(m, lo + 1, hi + 1) == Ones(m / 2, lo, hi)
    decreases hi - lo
  {
    if lo < hi {
      OnesShift(m, lo + 1, hi);
    }
  }

  /** A value below `Pow2(n)` with no set bit among its low `n` bits is zero. */
  lemma {:induction false} NoOnesIsZero(m: nat, n: nat)
    requires m < Pow2(n)
    requires Ones(m, 0, n) == 0
    ensures m == 0
  {
    if n > 0 {
      OnesShift(m, 0, n - 1);
      NoOnesIsZero(m / 2, n - 1);
    }
  }

  /** `PopCount(m)` is the number of set bits of the word `m`. */
  lemma PopCountIsSetBitCount(m: Word)
    ensures PopCount(m) == |SetBits(m, 0, WordBits)|
  {
    OnesIsCardinality(m, 0, WordBits);
  }

  /** A nonzero word has at least one set bit. */
  lemma PopCountPositive(m: Word)
    requires m != 0
    ensures PopCount(m) >= 1
  {
    Pow2WordBits();
    if PopCount(m) == 0 {
      NoOnesIsZero(m, WordBits);
    }
  }

  /** The affinity mask `(DWORD_PTR)1 << core` for one logical processor. */
  function AffinityMask(core: nat): (m: Word)
    requires core < WordBits
    ensures PopCount(m) == 1 && Bit(m, core) == 1
  {
    Pow2Below(core, WordBits);
    Pow2WordBits();
    OnesOfPow2(core, 0, WordBits);
    BitOfPow2(core, core);
    Pow2(core)
  }

  lemma {:induction false} Pow2Add(a: nat, b: nat)
    ensures Pow2(a + b) == Pow2(a) * Pow2(b)
  {
    if a > 0 { Pow2Add(a - 1, b); }
  }

  /** `Pow2(WordBits)` is the number of values of a word. */
  lemma Pow2WordBits()
    ensures Pow2(WordBits) == 0x1_0000_0000_0000_0000
  {
    assert Pow2(8) == 0x100;
    Pow2Add(8, 8);
    Pow2Add(16, 16);
    Pow2Add(32, 32);
  }

  lemma {:induction false} Pow2Below(k: nat, n: nat)
    requires k < n
    ensures Pow2(k) < Pow2(n)
    decreases n
  {
    if k < n - 1 { Pow2Below(k, n - 1); }
  }

  /**
    `CountSetBits`: walks a one-bit probe from the top bit of the word down to
    bit 0 and counts the positions where `bitMask & bitTest` is nonzero.
   */
  method CountSetBits(bitMask: Word) returns (bitSetCount: nat)
    ensures bitSetCount == PopCount(bitMask)
    ensures bitSetCount == |SetBits(bitMask, 0, WordBits)|
    ensures bitSetCount <= WordBits
  {
    var lshift: nat := WordBits - 1;
    bitSetCount := 0;
    var bitTest: nat := Pow2(lshift);
    var i: nat := 0;
    while i <= lshift
      invariant i <= lshift + 1
      invariant bitTest == if i <= lshift then Pow2(lshift - i) else 0
      invariant bitSetCount == Ones(bitMask, WordBits - i, WordBits)
    {
      AndProbe(bitMask, lshift - i);
      bitSetCount := bitSetCount + (if And(bitMask, bitTest) != 0 then 1 else 0);
      bitTest := bitTest / 2;
      i := i + 1;
    }
    PopCountIsSetBitCount(bitMask);
  }
}
