# CoreLatencyTest in Dafny

CoreLatencyTest measures how long it takes to move a cache line between two
logical processors. It reads the processor topology from Windows, calibrates
the time-stamp counter, and then bounces a shared `int counter` between two
threads pinned to different processors. A negative counter belongs to the
origin thread and a positive counter to the remote thread. Zero ends the probe.

This project models the program's logic, one module per piece:

- `Bits` (bits.dfy): `CountSetBits`, the population count of an affinity mask.
  It walks a one-bit probe from bit 63 down to bit 0. `ULONG_PTR` is taken to
  be 64 bits wide, as on the 64-bit Windows target. The C++ `&` is a bitwise
  AND on naturals (`Bits.And`). The mask `1 << core` is `Bits.AffinityMask`.
- `Cpuid` (cpuid.dfy): `getCpuidFamily`. It takes the EAX value of CPUID
  leaf 1 as an input and decodes the display family as described in the Intel
  64 and IA-32 Architectures Software Developer's Manual, Volume 2A, CPUID
  ("Family ID", "Extended Family ID"). The code puts EAX in a signed `int`.
  The model does the same: `>>` is an arithmetic shift (floor division) and
  `& mask` keeps the low bits (Euclidean remainder). It then proves that the
  sign never reaches the extracted fields.
- `Topology` (topology.dfy): the record-walking loop of `getCPUInfo`. The
  buffer filled by `GetLogicalProcessorInformation` is a sequence of records
  plus `returnLength`. The record size is 32 bytes, as on the 64-bit target.
  The loop is a method over a local `CPUInfo` value. It is proved against
  `Tallied`, which counts the records of each kind.
- `Baton` (baton.dfy): the counter protocol of `testSingleCore`,
  `measureLatency` and `workThread`. The global counter is a field of
  `SharedCounter`, of type `Bits.Int32`, so the verifier checks every update for
  `int` overflow. Ghost fields record each value written and which side
  wrote it. The two threads are two guarded rules. An interleaving is a
  schedule that says which side runs one pass of its loop body next
  (`Interleave`).
- `TestPlan` (testplan.dfy): the decisions in `main`. This covers the Zen
  warning condition and which probes run, in which order, and against which
  logical processor.

The code performs `iterations + 1` updates of the counter per probe, not
`iterations`. Starting from `-1 - iterations`, the magnitude drops by one
per update until it reaches zero.

The condition for the other-CCX probe also follows the code. It requires
`L3CacheCount > 1` in addition to more than one L3 per package and per NUMA
node.

## Model

| member | source | states |
|---|---|---|
| `Bits.CountSetBits` | CoreLatencyTest/CoreLatencyTest.cpp:19-33 | the probe loop returns the number of set bits among the 64 bits of the mask (the size of the set of set positions); the result is at most 64 |
| `Bits.PopCountIsSetBitCount` | CoreLatencyTest/CoreLatencyTest.cpp:19-33 | the population count equals the cardinality of the set of bit positions that are set |
| `Bits.AndProbe` | CoreLatencyTest/CoreLatencyTest.cpp:28 | `mask & (1 << k)` is `1 << k` when bit k is set and 0 otherwise, so the loop's test checks exactly bit k |
| `Bits.PopCountPositive` | CoreLatencyTest/CoreLatencyTest.cpp:19-33 | a nonzero mask counts at least one set bit |
| `Bits.AffinityMask` | CoreLatencyTest/CoreLatencyTest.cpp:187 | the mask `1 << core` for core < 64 is a word with exactly one set bit, bit `core` |
| `Cpuid.AsSigned` | CoreLatencyTest/CoreLatencyTest.cpp:46-47 | the `int` holding the register agrees with the register value modulo 2^32 |
| `Cpuid.GetCpuidFamily` | CoreLatencyTest/CoreLatencyTest.cpp:45-52 | the result is the Family ID (bits 8..11) when that is not 0xF, and otherwise 0xF plus the Extended Family ID (bits 20..27); it is at most 0xF + 0xFF |
| `Cpuid.SignedFieldsAgree` | CoreLatencyTest/CoreLatencyTest.cpp:48-49 | shifting and masking the signed `int` yields the same fields as the unsigned register, for every register value |
| `Cpuid.DisplayFamilyDecodes` | CoreLatencyTest/CoreLatencyTest.cpp:50 | the display family gives back the Family ID, and when that is 0xF also the Extended Family ID |
| `Cpuid.DisplayFamilyInjective` | CoreLatencyTest/CoreLatencyTest.cpp:48-50 | two registers get the same display family iff they agree on the Family ID and, when that is 0xF, on the Extended Family ID |
| `Topology.TallyBuffer` | CoreLatencyTest/CoreLatencyTest.cpp:107-150 | the loop visits exactly `returnLength / 32` records; `byteOffset` ends at that many records and never exceeds `returnLength`; each counter grows by the number of records of its kind, and the logical-core count by the set bits of the core masks |
| `Topology.GetCPUInfo` | CoreLatencyTest/CoreLatencyTest.cpp:54-153 | the CPUID family is always recorded; when the API is missing, allocation fails or the call fails, no record is tallied; otherwise the result is the tally of the filled buffer |
| `Topology.TalliedOne` | CoreLatencyTest/CoreLatencyTest.cpp:111-147 | one record changes only the counter its kind selects: NUMA, core (plus its mask's set bits to logical cores), package, L1 only when of Data type, L2 and L3 of any type, nothing otherwise |
| `Topology.TalliedAppend` | CoreLatencyTest/CoreLatencyTest.cpp:109-150 | tallying two runs of records one after the other equals tallying their concatenation |
| `Topology.TalliedSwap` | CoreLatencyTest/CoreLatencyTest.cpp:109-150 | the counts do not depend on the order of the records |
| `Topology.LogicalCoresBounded` | CoreLatencyTest/CoreLatencyTest.cpp:118-121 | the logical-core count is at most 64 times the physical-core count |
| `Topology.LogicalCoresCoverPhysical` | CoreLatencyTest/CoreLatencyTest.cpp:118-121 | when every core record names at least one thread, there are at least as many logical cores as physical cores |
| `Baton.OriginUpdate` | CoreLatencyTest/CoreLatencyTest.cpp:244-246 | for a negative counter the origin's new value is non-negative and one smaller in magnitude |
| `Baton.RemoteUpdate` | CoreLatencyTest/CoreLatencyTest.cpp:194-196 | for a positive counter the remote's new value is non-positive and one smaller in magnitude |
| `Baton.Update` | CoreLatencyTest/CoreLatencyTest.cpp:210-216 | every update flips the sign (or lands on 0) and lowers the magnitude by exactly one |
| `Baton.Iterate` | CoreLatencyTest/CoreLatencyTest.cpp:210-217 | after k updates the magnitude is the starting magnitude minus k |
| `Baton.Trace` | CoreLatencyTest/CoreLatencyTest.cpp:209-217 | from a counter c the loop writes exactly abs(c) values, and the value written is zero at the last write and at no earlier one, which is why the loop stops exactly there |
| `Baton.ExactlyOneEnabled` | CoreLatencyTest/CoreLatencyTest.cpp:193-197 | for a nonzero counter exactly one of the two guards holds; at zero neither does |
| `Baton.TraceBounded` | CoreLatencyTest/CoreLatencyTest.cpp:209-217 | every value written is smaller in magnitude than the start, and the last is zero |
| `Baton.IterateFromNegative` | CoreLatencyTest/CoreLatencyTest.cpp:242-247 | from -m the counter alternates in sign: after k updates it is -(m-k) for even k and m-k for odd k |
| `Baton.ProbeWriters` | CoreLatencyTest/CoreLatencyTest.cpp:242-247 | from `-1 - n` there are n+1 writes alternating origin, remote, ...; the last writes 0, by the origin exactly when n is even |
| `Baton.SourceBudget` | CoreLatencyTest/CoreLatencyTest.cpp:182 | with 100000000 iterations a probe makes 100000001 updates within `int` range, and the origin writes the final zero |
| `Baton.Interleave` | CoreLatencyTest/CoreLatencyTest.cpp:193-197 | under any schedule of the remote loop body and the origin loop body (lines 243-247) every write lowers the counter's magnitude by one: there are at most abs(c) writes, one writer per write, and the final magnitude is abs(c) minus the number of writes |
| `Baton.InterleaveFollowsTrace` | CoreLatencyTest/CoreLatencyTest.cpp:193-197 | under every interleaving the written values and writers are a prefix of the single-thread trace; a run that reaches zero has written all of it |
| `Baton.RoundRobinFinishes` | CoreLatencyTest/CoreLatencyTest.cpp:243-247 | a schedule that gives each side abs(c) polls brings the counter to zero, having written the whole trace |
| `Baton.SharedCounter.constructor` | CoreLatencyTest/CoreLatencyTest.cpp:183 | the counter starts at -1 |
| `Baton.SharedCounter.OriginPoll` | CoreLatencyTest/CoreLatencyTest.cpp:244-246 | one pass of the origin loop applies the origin rule to a negative counter and otherwise changes nothing |
| `Baton.SharedCounter.RemotePoll` | CoreLatencyTest/CoreLatencyTest.cpp:194-196 | one pass of the remote loop applies the remote rule to a positive counter and otherwise changes nothing |
| `Baton.SharedCounter.TestSingleCore` | CoreLatencyTest/CoreLatencyTest.cpp:200-223 | the control run ends with the counter at 0 after exactly iterations+1 updates, with no `int` overflow, writing the same trace as the two-thread protocol |
| `Baton.SharedCounter.MeasureLatency` | CoreLatencyTest/CoreLatencyTest.cpp:225-257 | for any schedule the writes follow the single-thread trace; when the counter is zero there were iterations+1 updates, the last by the origin exactly when iterations is even |
| `TestPlan.ZenWarning` | CoreLatencyTest/CoreLatencyTest.cpp:271 | the Zen warning is silent iff the vendor is AuthenticAMD and CPUID reports Family ID 0xF with Extended Family ID 8 |
| `TestPlan.SelectTests` | CoreLatencyTest/CoreLatencyTest.cpp:291-314 | same-thread always runs first; processor 1 runs iff threadsPerCore > 1; processor threadsPerCore runs iff coresPerL3 > 1; processor 16 runs iff there is more than one L3 overall, per package and per NUMA node; the order is fixed; every remote index is a valid shift count when threadsPerCore < 64 |

## Left out

- The lookup of `GetLogicalProcessorInformation` and its size-then-retry `malloc` loop (lines 68-105) are Windows API and allocation plumbing. Their outcome is an input, `Topology.LookupOutcome`, and the buffer is assumed to hold the `returnLength / 32` records the API reports.
- `__cpuid` and `getCpuidVendor` (lines 35-43) are compiler intrinsics plus a byte copy. The EAX value and the vendor string are inputs.
- `getTSCTicksPerNanosecond` (lines 155-180) is left out. It samples `__rdtsc` and the performance counter around `Sleep` and divides in floating point.
- `__rdtsc` timing, the elapsed-tick results of the probes and the nanosecond conversion in `main` are left out, along with all console output and `system("pause")`.
- Threads, `SetThreadAffinityMask`, `SetPriorityClass`, the `Sleep` settle delays and `join` are left out. The memory ordering of the plain global `counter` is also not modelled. Only the interleaving of the two guarded rules is modelled.
- `Baton.SharedCounter.MeasureLatency`: a schedule is finite, so a run that has not yet reached zero simply ends. The real threads spin until zero. `Baton.RoundRobinFinishes` shows that a fair schedule gets there.
- CPUInfo.h is not part of this model. The `CPUInfo` counters are taken to start at zero. The ratio getters (`getThreadsPerCore`, `getCoresPerL3`, `getL3PerPackage`, `getL3PerNUMANode`) are inputs, and their divisions are not modelled.
- `Topology.TallyBuffer`: the counters are unbounded naturals, so 32-bit wrap-around of the `CPUInfo` counts is not modelled.
- `Topology.TallyBuffer`: a record's union fields other than the cache level and type are not modelled, because the tally never reads them.
- The 32-bit Windows build is not modelled. There `ULONG_PTR` has 32 bits and a record has 24 bytes.
