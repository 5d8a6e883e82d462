/**
  Topology discovery (`getCPUInfo`): walks the buffer of fixed-size
  `SYSTEM_LOGICAL_PROCESSOR_INFORMATION` records filled by
  `GetLogicalProcessorInformation` and tallies packages, NUMA nodes, physical
  and logical cores and L1/L2/L3 caches into a `CPUInfo`.

  The lookup of the API and its size-then-retry allocation loop are outside
  the model: their outcome is an input (`LookupOutcome`).
 */
module Topology {

  import Bits
  import Cpuid

  /** `sizeof(SYSTEM_LOGICAL_PROCESSOR_INFORMATION)` on the 64-bit target:
      an 8-byte mask, a 4-byte relationship and a 16-byte union, padded. */
  const RecordSize: nat := 32

  /** `PROCESSOR_CACHE_TYPE`. */
  datatype CacheType = CacheUnified | CacheInstruction | CacheData | CacheTrace

  /** The fields of `CACHE_DESCRIPTOR` the tally reads. */
  datatype CacheDescriptor = CacheDescriptor(level: nat, cacheType: CacheType)

  /** `LOGICAL_PROCESSOR_RELATIONSHIP`, with the union member that goes with
      a cache record; `RelationOther` stands for every other value. */
  datatype Relationship =
    | RelationProcessorCore
    | RelationNumaNode
    | RelationCache(cache: CacheDescriptor)
    | RelationProcessorPackage
    | RelationOther(code: nat)

  /** One `SYSTEM_LOGICAL_PROCESSOR_INFORMATION` record. */
  datatype ProcessorInfo = ProcessorInfo(processorMask: Bits.Word, relationship: Relationship)

  /** The counters of `CPUInfo` together with the CPUID family. */
  datatype CPUInfo = CPUInfo(
    cpuidFamily: nat,
    packageCount: nat,
    numaNodeCount: nat,
    physicalCoreCount: nat,
    logicalCoreCount: nat,
    L1CacheCount: nat,
    L2CacheCount: nat,
    L3CacheCount: nat)

  /** What the `GetLogicalProcessorInformation` lookup and its retry loop end
      with: the function is missing, `malloc` failed, the call failed with an
      error other than `ERROR_INSUFFICIENT_BUFFER`, or the buffer was filled
      with `returnLength` bytes of records. */
  datatype LookupOutcome =
    | NotSupported
    | AllocationFailure
    | HostError(code: nat)
    | Filled(buffer: seq<ProcessorInfo>, returnLength: nat)

  /** The records the API wrote fit in the buffer. */
  predicate WellFormed(outcome: LookupOutcome)
  {
    outcome.Filled? ==> outcome.returnLength / RecordSize <= |outcome.buffer|
  }

  /** A `CPUInfo` whose counters are all zero. */
  function Zeroed(cpuidFamily: nat): (info: CPUInfo)
  {
    CPUInfo(cpuidFamily, 0, 0, 0, 0, 0, 0, 0)
  }

  // Record kinds, as the switch in `getCPUInfo` distinguishes them.

  predicate IsNumaNode(r: ProcessorInfo) { r.relationship.RelationNumaNode? }

  predicate IsCore(r: ProcessorInfo) { r.relationship.RelationProcessorCore? }

  predicate IsPackage(r: ProcessorInfo) { r.relationship.RelationProcessorPackage? }

  predicate IsCacheOfLevel(r: ProcessorInfo, level: nat)
  {
    r.relationship.RelationCache? && r.relationship.cache.level == level
  }

  /** Level-1 caches are counted only when they hold data. */
  predicate IsL1DataCache(r: ProcessorInfo)
  {
    IsCacheOfLevel(r, 1) && r.relationship.cache.cacheType == CacheData
  }

  /** The number of records of `s` that satisfy `p`. */
  function CountWhere(s: seq<ProcessorInfo>, p: ProcessorInfo -> bool): (n: nat)
    ensures n <= |s|
  {
    if s == [] then 0
    else CountWhere(s[..|s| - 1], p) + (if p(s[|s| - 1]) then 1 else 0)
  }

  /** The total number of threads in the masks of the core records of `s`. */
  function LogicalCores(s: seq<ProcessorInfo>): (n: nat)
  {
    if s == [] then 0
    else
      var last := s[|s| - 1];
      LogicalCores(s[..|s| - 1]) + (if IsCore(last) then Bits.PopCount(last.processorMask) else 0)
  }

  /** What tallying the records `s` into `info` yields: each counter grows by
      the number of records of its kind, and the logical-core count by the
      set bits of the core records' masks. */
  function Tallied(info: CPUInfo, s: seq<ProcessorInfo>): (t: CPUInfo)
  {
    info.(
      numaNodeCount := info.numaNodeCount + CountWhere(s, IsNumaNode),
      physicalCoreCount := info.physicalCoreCount + CountWhere(s, IsCore),
      logicalCoreCount := info.logicalCoreCount + LogicalCores(s),
      packageCount := info.packageCount + CountWhere(s, IsPackage),
      L1CacheCount := info.L1CacheCount + CountWhere(s, IsL1DataCache),
      L2CacheCount := info.L2CacheCount + CountWhere(s, r => IsCacheOfLevel(r, 2)),
      L3CacheCount := info.L3CacheCount + CountWhere(s, r => IsCacheOfLevel(r, 3)))
  }

  /**
    The record-walking loop of `getCPUInfo`: while a whole record fits
    before `returnLength`, switch on its relationship, bump the matching
    counter, and advance `byteOffset` by one record.
   */
  method TallyBuffer(info0: CPUInfo, buffer: seq<ProcessorInfo>, returnLength: nat)
    returns (info: CPUInfo, byteOffset: nat)
    requires returnLength / RecordSize <= |buffer|
    ensures byteOffset == (returnLength / RecordSize) * RecordSize
    ensures byteOffset <= returnLength < byteOffset + RecordSize
    ensures info == Tallied(info0, buffer[..returnLength / RecordSize])
  {
    info := info0;
    byteOffset := 0;
    var ptr := 0;  // index of the record at byteOffset
    while byteOffset + RecordSize <= returnLength
      invariant byteOffset == ptr * RecordSize <= returnLength
      invariant ptr <= returnLength / RecordSize
      invariant info == Tallied(info0, buffer[..ptr])
    {
      var rec := buffer[ptr];
      match rec.relationship {
        case RelationNumaNode =>
          info := info.(numaNodeCount := info.numaNodeCount + 1);
        case RelationProcessorCore =>
          var bits := Bits.CountSetBits(rec.processorMask);
          info := info.(physicalCoreCount := info.physicalCoreCount + 1,
                        logicalCoreCount := info.logicalCoreCount + bits);
        case RelationCache(cache) =>
          if cache.level == 1 {
            if cache.cacheType == CacheData {
              info := info.(L1CacheCount := info.L1CacheCount + 1);
            }
          } else if cache.level == 2 {
            info := info.(L2CacheCount := info.L2CacheCount + 1);
          } else if cache.level == 3 {
            info := info.(L3CacheCount := info.L3CacheCount + 1);
          }
        case RelationProcessorPackage =>
          info := info.(packageCount := info.packageCount + 1);
        case RelationOther(_) =>
      }
      assert buffer[..ptr + 1][..ptr] == buffer[..ptr];
      byteOffset := byteOffset + RecordSize;
      ptr := ptr + 1;
    }
  }

  /**
    `getCPUInfo`: records the CPUID family, then tallies the records when the
    lookup filled a buffer; on every error path the counters stay zero.
   */
  method GetCPUInfo(eax: Cpuid.Reg32, outcome: LookupOutcome) returns (info: CPUInfo)
    requires WellFormed(outcome)
    ensures info.cpuidFamily == Cpuid.GetCpuidFamily(eax)
    ensures !outcome.Filled? ==> info == Zeroed(Cpuid.GetCpuidFamily(eax))
    ensures outcome.Filled? ==>
      info == Tallied(Zeroed(Cpuid.GetCpuidFamily(eax)), outcome.buffer[..outcome.returnLength / RecordSize])
  {
    info := Zeroed(Cpuid.GetCpuidFamily(eax));
    match outcome {
      case NotSupported =>
        return;
      case AllocationFailure =>
        return;
      case HostError(_) =>
        return;
      case Filled(buffer, returnLength) =>
        var byteOffset;
        info, byteOffset := TallyBuffer(info, buffer, returnLength);
    }
  }

  // Properties of the tally.

  lemma {:induction false} CountWhereAppend(a: seq<ProcessorInfo>, b: seq<ProcessorInfo>, p: ProcessorInfo -> bool)
    ensures CountWhere(a + b, p) == CountWhere(a, p) + CountWhere(b, p)
    decreases |b|
  {
    if b == [] {
      assert a + b == a;
    } else {
      assert (a + b)[..|a + b| - 1] == a + b[..|b| - 1];
      CountWhereAppend(a, b[..|b| - 1], p);
    }
  }

  lemma {:induction false} LogicalCoresAppend(a: seq<ProcessorInfo>, b: seq<ProcessorInfo>)
    ensures LogicalCores(a + b) == LogicalCores(a) + LogicalCores(b)
    decreases |b|
  {
    if b == [] {
      assert a + b == a;
    } else {
      assert (a + b)[..|a + b| - 1] == a + b[..|b| - 1];
      LogicalCoresAppend(a, b[..|b| - 1]);
    }
  }

  /** Tallying two runs of records one after the other is tallying their
      concatenation. */
  lemma TalliedAppend(info: CPUInfo, a: seq<ProcessorInfo>, b: seq<ProcessorInfo>)
    ensures Tallied(Tallied(info, a), b) == Tallied(info, a + b)
  {
    CountWhereAppend(a, b, IsNumaNode);
    CountWhereAppend(a, b, IsCore);
    CountWhereAppend(a, b, IsPackage);
    CountWhereAppend(a, b, IsL1DataCache);
    CountWhereAppend(a, b, r => IsCacheOfLevel(r, 2));
    CountWhereAppend(a, b, r => IsCacheOfLevel(r, 3));
    LogicalCoresAppend(a, b);
  }

  /** The order of the records does not matter: swapping two runs of records
      gives the same counts. */
  lemma TalliedSwap(info: CPUInfo, a: seq<ProcessorInfo>, b: seq<ProcessorInfo>)
    ensures Tallied(info, a + b) == Tallied(info, b + a)
  {
    CountWhereAppend(a, b, IsNumaNode);
    CountWhereAppend(b, a, IsNumaNode);
    CountWhereAppend(a, b, IsCore);
    CountWhereAppend(b, a, IsCore);
    CountWhereAppend(a, b, IsPackage);
    CountWhereAppend(b, a, IsPackage);
    CountWhereAppend(a, b, IsL1DataCache);
    CountWhereAppend(b, a, IsL1DataCache);
    CountWhereAppend(a, b, r => IsCacheOfLevel(r, 2));
    CountWhereAppend(b, a, r => IsCacheOfLevel(r, 2));
    CountWhereAppend(a, b, r => IsCacheOfLevel(r, 3));
    CountWhereAppend(b, a, r => IsCacheOfLevel(r, 3));
    LogicalCoresAppend(a, b);
    LogicalCoresAppend(b, a);
  }

  /** One record changes only the counter its kind selects: a NUMA node,
      core or package record bumps its own counter (a core record also adds
      its mask's set bits to the logical cores), a level-1 data cache bumps
      the L1 count, a level-2 or level-3 cache of any type the L2 or L3
      count, and anything else nothing. */
  lemma TalliedOne(info: CPUInfo, r: ProcessorInfo)
    ensures var t := Tallied(info, [r]);
      && t.cpuidFamily == info.cpuidFamily
      && t.numaNodeCount == info.numaNodeCount + (if r.relationship.RelationNumaNode? then 1 else 0)
      && t.physicalCoreCount == info.physicalCoreCount + (if r.relationship.RelationProcessorCore? then 1 else 0)
      && t.logicalCoreCount == info.logicalCoreCount
           + (if r.relationship.RelationProcessorCore? then Bits.PopCount(r.processorMask) else 0)
      && t.packageCount == info.packageCount + (if r.relationship.RelationProcessorPackage? then 1 else 0)
      && t.L1CacheCount == info.L1CacheCount
           + (if r.relationship == RelationCache(CacheDescriptor(1, CacheData)) then 1 else 0)
      && t.L2CacheCount == info.L2CacheCount
           + (if r.relationship.RelationCache? && r.relationship.cache.level == 2 then 1 else 0)
      && t.L3CacheCount == info.L3CacheCount
           + (if r.relationship.RelationCache? && r.relationship.cache.level == 3 then 1 else 0)
  {
    assert [r][..0] == [];
    assert LogicalCores([r]) == LogicalCores([]) + (if IsCore(r) then Bits.PopCount(r.processorMask) else 0);
  }

  /** Every core record contributes at most `WordBits` logical cores. */
  lemma {:induction false} LogicalCoresBounded(s: seq<ProcessorInfo>)
    ensures LogicalCores(s) <= Bits.WordBits * CountWhere(s, IsCore)
  {
    if s != [] {
      LogicalCoresBounded(s[..|s| - 1]);
    }
  }

  /** When every core record names at least one thread, there are at least as
      many logical cores as physical ones. */
  lemma {:induction false} LogicalCoresCoverPhysical(s: seq<ProcessorInfo>)
    requires forall i :: 0 <= i < |s| && IsCore(s[i]) ==> s[i].processorMask != 0
    ensures CountWhere(s, IsCore) <= LogicalCores(s)
  {
    if s != [] {
      var last := s[|s| - 1];
      LogicalCoresCoverPhysical(s[..|s| - 1]);
      if IsCore(last) {
        Bits.PopCountPositive(last.processorMask);
      }
    }
  }
}
