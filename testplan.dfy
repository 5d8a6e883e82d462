/**
  The decisions `main` makes once the topology is known: whether to print the
  "tested only on AMD Zen" warning, and which latency probes to run, in which
  order, against which logical processor.

  The ratio getters of `CPUInfo` live in CPUInfo.h, which is not part of this
  model; their values are inputs (`Ratios`).
 */
module TestPlan {

  import Bits
  import Cpuid
  import Topology

  /** The values `getThreadsPerCore`, `getCoresPerL3`, `getL3PerPackage` and
      `getL3PerNUMANode` return. */
  datatype Ratios = Ratios(threadsPerCore: int, coresPerL3: int, l3PerPackage: int, l3PerNumaNode: int)

  /** A latency probe: the single-thread control run, or a two-thread run
      whose remote side is pinned to logical processor `core`. */
  datatype LatencyTest =
    | SameThread
    | SameCore(core: int)
    | SameCcx(core: int)
    | OtherCcx(core: int)

  /** The logical processor `main` picks for the other-CCX probe. */
  const FarCore: int := 16

  /** The position of each kind of probe in the report. */
  function Rank(t: LatencyTest): nat
  {
    match t
    case SameThread => 0
    case SameCore(_) => 1
    case SameCcx(_) => 2
    case OtherCcx(_) => 3
  }

  /** Whether `main` prints the "tested only on AMD Zen" warning, for the vendor
      string and the CPUID leaf 1 EAX value `getCPUInfo` reads; `main` tests the
      `cpuidFamily` that `getCpuidFamily` decodes from that register. The warning
      stays silent exactly on AMD processors that report Family ID 0xF with
      Extended Family ID 0x8 (family 17h, Zen). */
  function ZenWarning(vendor: string, eax: Cpuid.Reg32): (warn: bool)
    ensures !warn <==>
      vendor == "AuthenticAMD" && Cpuid.FamilyId(eax) == 0xF && Cpuid.ExtendedFamilyId(eax) == 0x8
  {
    vendor != "AuthenticAMD" || Cpuid.GetCpuidFamily(eax) != 0x17
  }

  /**
    The probes `main` runs, in order: the same-thread control run always;
    the same-core probe on processor 1 when a core has more than one thread;
    the same-CCX probe on processor `threadsPerCore` when an L3 is shared by
    more than one core; the other-CCX probe on processor 16 when there is
    more than one L3, per package and per NUMA node. When `threadsPerCore`
    is below the word size, every remote processor is one that
    `Bits.AffinityMask` can pin to.
   */
  method SelectTests(info: Topology.CPUInfo, ratios: Ratios) returns (tests: seq<LatencyTest>)
    ensures |tests| >= 1 && tests[0] == SameThread
    ensures SameCore(1) in tests <==> ratios.threadsPerCore > 1
    ensures SameCcx(ratios.threadsPerCore) in tests <==> ratios.coresPerL3 > 1
    ensures OtherCcx(FarCore) in tests <==>
      info.L3CacheCount > 1 && ratios.l3PerPackage > 1 && ratios.l3PerNumaNode > 1
    ensures forall t :: t in tests ==>
      t == SameThread || t == SameCore(1) || t == SameCcx(ratios.threadsPerCore) || t == OtherCcx(FarCore)
    ensures forall i, j :: 0 <= i < j < |tests| ==> Rank(tests[i]) < Rank(tests[j])
    ensures 0 <= ratios.threadsPerCore < Bits.WordBits ==>
      forall t :: t in tests && !t.SameThread? ==> 0 <= t.core < Bits.WordBits
  {
    tests := [SameThread];
    if ratios.threadsPerCore > 1 {
      tests := tests + [SameCore(1)];
    }
    if ratios.coresPerL3 > 1 {
      tests := tests + [SameCcx(ratios.threadsPerCore)];
    }
    if info.L3CacheCount > 1 && ratios.l3PerPackage > 1 && ratios.l3PerNumaNode > 1 {
      tests := tests + [OtherCcx(FarCore)];
    }
  }
}
