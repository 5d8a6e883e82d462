/**
  Display-family decoding of CPUID leaf 1 (`getCpuidFamily`).

  The input is the value of EAX returned by CPUID leaf 1, as an unsigned
  32-bit register. The program reads it into a signed `int` and extracts the
  fields with `>>` (an arithmetic shift on a signed `int` under the MSVC
  compiler) and `&`. The field layout and the display-family rule are those of
  the Intel 64 and IA-32 Architectures Software Developer's Manual, Volume 2A,
  instruction CPUID, "Family ID" and "Extended Family ID".
 */
module Cpuid {

  import Bits

  /** Values of a 32-bit register. */
  type Reg32 = x: int | 0 <= x < 0x1_0000_0000

  /** The `int` the program holds for a register value (two's complement). */
  function AsSigned(eax: Reg32): (v: Bits.Int32)
    ensures (v as int) % 0x1_0000_0000 == eax
  {
    (if eax < 0x8000_0000 then eax else eax - 0x1_0000_0000) as Bits.Int32
  }

  /** Family ID: bits 8..11 of EAX, read from the unsigned register. */
  function FamilyId(eax: Reg32): (f: nat)
    ensures f < 0x10
  {
    (eax / 0x100) % 0x10
  }

  /** Extended Family ID: bits 20..27 of EAX, read from the unsigned register. */
  function ExtendedFamilyId(eax: Reg32): (e: nat)
    ensures e < 0x100
  {
    (eax / 0x10_0000) % 0x100
  }

  /** `x >> n` on a signed `int`: an arithmetic shift, which rounds toward
      minus infinity, as Dafny's `/` by a positive divisor does. */
  function ShiftRight(x: int, n: nat): (q: int)
  {
    x / Bits.Pow2(n)
  }

  /** `x & (2^k - 1)` on a two's-complement `int`: the low `k` bits, which are
      Dafny's (never negative) remainder modulo `2^k`. */
  function MaskLow(x: int, k: nat): (low: nat)
  {
    x % Bits.Pow2(k)
  }

  lemma ShiftAmounts()
    ensures Bits.Pow2(4) == 0x10 && Bits.Pow2(8) == 0x100 && Bits.Pow2(20) == 0x10_0000
  {
  }

  /**
    `getCpuidFamily` with `data[0]` taken from `eax`: the Family ID when it is
    not 0xF, otherwise 0xF plus the Extended Family ID. The sign of the `int`
    never reaches the extracted fields.
   */
  function GetCpuidFamily(eax: Reg32): (displayFamily: nat)
    ensures FamilyId(eax) != 0xF ==> displayFamily == FamilyId(eax)
    ensures FamilyId(eax) == 0xF ==> displayFamily == 0xF + ExtendedFamilyId(eax)
    ensures displayFamily <= 0xF + 0xFF
  {
    var data0 := AsSigned(eax) as int;
    var family := MaskLow(ShiftRight(data0, 8), 4);            // (data[0] >> 8) & 0x0F
    var extendedFamily := MaskLow(ShiftRight(data0, 20), 8);  // (data[0] >> 20) & 0xFF
    SignedFieldsAgree(eax);
    if family != 0x0F then family else extendedFamily + family
  }

  /** Shifting and masking the signed `int` yields the fields of the unsigned
      register: the sign extension lies above bit 27. */
  lemma SignedFieldsAgree(eax: Reg32)
    ensures MaskLow(ShiftRight(AsSigned(eax) as int, 8), 4) == FamilyId(eax)
    ensures MaskLow(ShiftRight(AsSigned(eax) as int, 20), 8) == ExtendedFamilyId(eax)
  {
    ShiftAmounts();
    if eax >= 0x8000_0000 {
      var v := eax - 0x1_0000_0000;
      assert v / 0x100 == eax / 0x100 - 0x100_0000;
      assert v / 0x10_0000 == eax / 0x10_0000 - 0x1000;
    }
  }

  /** The display family determines the fields it was decoded from: below
      0xF it is the Family ID; from 0xF on, the Family ID is 0xF and the
      Extended Family ID is the excess. */
  lemma DisplayFamilyDecodes(eax: Reg32)
    ensures GetCpuidFamily(eax) < 0xF ==> FamilyId(eax) == GetCpuidFamily(eax)
    ensures GetCpuidFamily(eax) >= 0xF ==>
      FamilyId(eax) == 0xF && ExtendedFamilyId(eax) == GetCpuidFamily(eax) - 0xF
  {
  }

  /** Two registers decode to the same display family exactly when they agree
      on the Family ID and, when that is 0xF, also on the Extended Family ID. */
  lemma DisplayFamilyInjective(a: Reg32, b: Reg32)
    ensures GetCpuidFamily(a) == GetCpuidFamily(b) <==>
      FamilyId(a) == FamilyId(b) && (FamilyId(a) == 0xF ==> ExtendedFamilyId(a) == ExtendedFamilyId(b))
  {
  }
}
