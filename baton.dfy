/**
  The sign-encoded baton: the shared `int counter` that `testSingleCore`,
  `measureLatency` (the origin side) and `workThread` (the remote side)
  rewrite until it reaches zero.

  A negative counter belongs to the origin, which writes `-c - 1`; a positive
  counter belongs to the remote side, which writes `-c + 1`; zero stops both.
  The two threads are modelled by their guarded rules: an interleaving is a
  schedule saying which side runs one pass of its loop body next.
 */
module Baton {

  /** The iteration budget of every probe (`iterations`). */
  const Iterations: int := 100000000

  import Bits

  function Abs(c: int): (a: nat)
  {
    if c < 0 then -c else c
  }

  /** The two threads that share the counter. */
  datatype Side = Origin | Remote

  /** The guard under which a side writes the counter. */
  predicate Enabled(side: Side, c: int)
  {
    match side
    case Origin => c < 0
    case Remote => c > 0
  }

  /** The origin's rule, for a negative counter. */
  function OriginUpdate(c: int): (r: int)
    requires c < 0
    ensures r >= 0 && Abs(r) == Abs(c) - 1
  {
    -c - 1
  }

  /** The remote side's rule, for a positive counter. */
  function RemoteUpdate(c: int): (r: int)
    requires c > 0
    ensures r <= 0 && Abs(r) == Abs(c) - 1
  {
    -c + 1
  }

  /** The update made by whichever side owns a nonzero counter: the sign
      flips (or the counter lands on 0) and the magnitude drops by one. */
  function Update(c: int): (r: int)
    requires c != 0
    ensures Abs(r) == Abs(c) - 1
    ensures c < 0 ==> r >= 0
    ensures c > 0 ==> r <= 0
  {
    if c < 0 then OriginUpdate(c) else RemoteUpdate(c)
  }

  /** The counter after `k` updates from `c`. */
  function Iterate(c: int, k: nat): (r: int)
    requires k <= Abs(c)
    ensures Abs(r) == Abs(c) - k
  {
    if k == 0 then c else Update(Iterate(c, k - 1))
  }

  /** The side that makes update number `k` (counting from 0) from `c`. */
  function Writer(c: int, k: nat): (w: Side)
    requires k < Abs(c)
  {
    if Iterate(c, k) < 0 then Origin else Remote
  }

  /** The values written from `c` until the counter reaches zero: the loops
      stop after `Abs(c)` writes because the last value, and only the last,
      is zero. */
  function Trace(c: int): (t: seq<int>)
    ensures |t| == Abs(c)
    ensures forall i :: 0 <= i < |t| ==> (t[i] == 0 <==> i == |t| - 1)
  {
    seq(Abs(c), i requires 0 <= i < Abs(c) => Iterate(c, i + 1))
  }

  /** The sides that write those values, in order. */
  function Writers(c: int): (w: seq<Side>)
    ensures |w| == Abs(c)
  {
    seq(Abs(c), i requires 0 <= i < Abs(c) => Writer(c, i))
  }

  /** For a nonzero counter exactly one guard holds; at zero neither does. */
  lemma ExactlyOneEnabled(c: int)
    ensures c != 0 ==> (Enabled(Origin, c) <==> !Enabled(Remote, c))
    ensures c == 0 <==> !Enabled(Origin, c) && !Enabled(Remote, c)
  {
  }

  /** Every value written from `c` is smaller in magnitude than `c`, and the
      last one is zero. */
  lemma TraceBounded(c: int)
    ensures forall i :: 0 <= i < |Trace(c)| ==> Abs(Trace(c)[i]) < Abs(c)
    ensures c != 0 ==> Trace(c)[|Trace(c)| - 1] == 0
  {
  }

  /** From `-m`, the counter alternates: after `k` updates it is `-(m - k)`
      when `k` is even and `m - k` when `k` is odd. */
  lemma {:induction false} IterateFromNegative(m: nat, k: nat)
    requires k <= m
    ensures Iterate(-(m as int), k) == if k % 2 == 0 then -(m - k) else m - k
  {
    if k > 0 {
      IterateFromNegative(m, k - 1);
    }
  }

  /** Starting from `-1 - n`, the writes alternate origin, remote, origin, …;
      there are `n + 1` of them, and the origin writes the final zero exactly
      when `n` is even. */
  lemma ProbeWriters(n: nat)
    ensures |Writers(-1 - n)| == n + 1
    ensures forall k :: 0 <= k <= n ==> Writers(-1 - n)[k] == (if k % 2 == 0 then Origin else Remote)
    ensures Trace(-1 - n)[n] == 0
    ensures Writers(-1 - n)[n] == (if n % 2 == 0 then Origin else Remote)
  {
    forall k | 0 <= k <= n
      ensures Writers(-1 - n)[k] == (if k % 2 == 0 then Origin else Remote)
    {
      IterateFromNegative(n + 1, k);
    }
  }

  /** With the program's budget of 100000000 iterations every probe makes
      100000001 updates, and the origin writes the final zero. */
  lemma SourceBudget()
    ensures 0 <= Iterations < 0x7FFF_FFFF
    ensures |Trace(-1 - Iterations)| == Iterations + 1
    ensures Writers(-1 - Iterations)[Iterations] == Origin
  {
    ProbeWriters(Iterations);
  }

  /** What an interleaving has done so far: the counter, the values written
      and the side that wrote each. */
  datatype Run = Run(counter: int, writes: seq<int>, writers: seq<Side>)

  /** Run the loop bodies of the two sides in the order `schedule` gives: a
      side whose guard holds updates the counter, the other merely polls. */
  function Interleave(c: int, schedule: seq<Side>): (r: Run)
    ensures |r.writes| == |r.writers| <= Abs(c)
    ensures Abs(r.counter) == Abs(c) - |r.writes|
  {
    if schedule == [] then Run(c, [], [])
    else
      var r := Interleave(c, schedule[..|schedule| - 1]);
      var side := schedule[|schedule| - 1];
      if Enabled(side, r.counter) then
        Run(Update(r.counter), r.writes + [Update(r.counter)], r.writers + [side])
      else r
  }

  /**
    Schedule independence: whatever the interleaving, the values written are
    a prefix of `Trace(c)`, each written by the side `Writers(c)` names, the
    counter is the last value written, and once it is zero the whole trace
    has been written.
   */
  lemma {:induction false} InterleaveFollowsTrace(c: int, schedule: seq<Side>)
    ensures var r := Interleave(c, schedule);
      && |r.writes| == |r.writers| <= Abs(c)
      && r.counter == Iterate(c, |r.writes|)
      && r.writes == Trace(c)[..|r.writes|]
      && r.writers == Writers(c)[..|r.writes|]
      && (r.counter == 0 ==> r.writes == Trace(c) && r.writers == Writers(c))
  {
    if schedule != [] {
      InterleaveFollowsTrace(c, schedule[..|schedule| - 1]);
    }
    var r := Interleave(c, schedule);
    if r.counter == 0 {
      assert |r.writes| == Abs(c);
    }
  }

  /** `k` rounds of origin-then-remote polls. */
  function RoundRobin(k: nat): (s: seq<Side>)
    ensures |s| == 2 * k
  {
    if k == 0 then [] else RoundRobin(k - 1) + [Origin, Remote]
  }

  /** Each round of polls by both sides brings a nonzero counter at least
      one step closer to zero. */
  lemma {:induction false} RoundRobinProgress(c: int, k: nat)
    ensures Abs(Interleave(c, RoundRobin(k)).counter) <= if k <= Abs(c) then Abs(c) - k else 0
  {
    if k > 0 {
      RoundRobinProgress(c, k - 1);
      var s := RoundRobin(k - 1);
      assert (s + [Origin, Remote])[..|s| + 1] == s + [Origin];
      assert (s + [Origin])[..|s|] == s;
    }
  }

  /** A schedule that lets both sides poll `Abs(c)` times each finishes. */
  lemma RoundRobinFinishes(c: int, k: nat)
    requires k >= Abs(c)
    ensures Interleave(c, RoundRobin(k)).counter == 0
    ensures Interleave(c, RoundRobin(k)).writes == Trace(c)
  {
    RoundRobinProgress(c, k);
    InterleaveFollowsTrace(c, RoundRobin(k));
  }

  /** The global `int counter`, with a record of the values written to it
      since the current probe began and of the rule (origin's or remote's)
      that produced each. */
  class SharedCounter {
    var counter: Bits.Int32
    ghost var writes: seq<int>
    ghost var writers: seq<Side>

    /** The negation in both rules stays an `int`. */
    ghost predicate Valid()
      reads this
    {
      counter != -0x8000_0000
    }

    /** `int counter = -1;` */
    constructor ()
      ensures Valid() && counter == -1 && writes == [] && writers == []
    {
      counter := -1;
      writes := [];
      writers := [];
    }

    /** One pass of the origin's loop body in `measureLatency`. */
    method OriginPoll()
      requires Valid()
      modifies this
      ensures Valid()
      ensures Enabled(Origin, old(counter) as int) ==>
        && counter as int == OriginUpdate(old(counter) as int)
        && writes == old(writes) + [counter as int]
        && writers == old(writers) + [Origin]
      ensures !Enabled(Origin, old(counter) as int) ==>
        counter == old(counter) && writes == old(writes) && writers == old(writers)
    {
      if counter < 0 {
        counter := -counter - 1;
        writes := writes + [counter as int];
        writers := writers + [Origin];
      }
    }

    /** One pass of the remote loop body in `workThread`. */
    method RemotePoll()
      requires Valid()
      modifies this
      ensures Valid()
      ensures Enabled(Remote, old(counter) as int) ==>
        && counter as int == RemoteUpdate(old(counter) as int)
        && writes == old(writes) + [counter as int]
        && writers == old(writers) + [Remote]
      ensures !Enabled(Remote, old(counter) as int) ==>
        counter == old(counter) && writes == old(writes) && writers == old(writers)
    {
      if counter > 0 {
        counter := -counter + 1;
        writes := writes + [counter as int];
        writers := writers + [Remote];
      }
    }

    /**
      `testSingleCore`: start at `-1 - iterations` and let one thread apply
      both rules until the counter is zero. It makes `iterations + 1`
      updates, never leaves the range of an `int`, and writes exactly the
      trace and writer sequence of the two-thread protocol.
     */
    method TestSingleCore(iterations: Bits.Int32)
      requires 0 <= iterations < 0x7FFF_FFFF
      modifies this
      ensures Valid() && counter == 0
      ensures writes == Trace(-1 - iterations as int) && writers == Writers(-1 - iterations as int)
      ensures |writes| == iterations as int + 1
    {
      counter := -1;
      writes, writers := [], [];
      counter := counter - iterations;
      ghost var start := counter as int;
      while counter != 0
        invariant Valid()
        invariant |writes| <= Abs(start)
        invariant counter as int == Iterate(start, |writes|)
        invariant writes == Trace(start)[..|writes|]
        invariant writers == Writers(start)[..|writes|]
        decreases Abs(counter as int)
      {
        ghost var k := |writes|;
        if counter < 0 {
          counter := -counter - 1;
          writers := writers + [Origin];
        } else if counter > 0 {
          counter := -counter + 1;
          writers := writers + [Remote];
        }
        writes := writes + [counter as int];
        assert writers[k] == Writers(start)[k];
        assert writes[k] == Trace(start)[k];
      }
    }

    /**
      `measureLatency` with its `workThread`: start at `-1 - iterations`,
      then run the two loop bodies in the order `schedule` gives. The result
      is `Interleave` of that schedule; whatever the schedule, the writes
      follow the single-thread trace, and a run that ends at zero has made
      exactly `iterations + 1` updates, the last by the origin exactly when
      `iterations` is even.
     */
    method MeasureLatency(iterations: Bits.Int32, schedule: seq<Side>)
      requires 0 <= iterations < 0x7FFF_FFFF
      modifies this
      ensures Valid()
      ensures var r := Interleave(-1 - iterations as int, schedule);
        counter as int == r.counter && writes == r.writes && writers == r.writers
      ensures |writes| <= iterations as int + 1
      ensures writes == Trace(-1 - iterations as int)[..|writes|]
      ensures counter == 0 ==> writes == Trace(-1 - iterations as int) && writers == Writers(-1 - iterations as int)
      ensures counter == 0 ==>
        (|writes| == iterations as int + 1 && writers[iterations] == (if iterations % 2 == 0 then Origin else Remote))
    {
      counter := -1;
      writes, writers := [], [];
      counter := counter - iterations;
      ghost var start := counter as int;
      for i := 0 to |schedule|
        invariant Valid()
        invariant var r := Interleave(start, schedule[..i]);
          counter as int == r.counter && writes == r.writes && writers == r.writers
      {
        InterleaveFollowsTrace(start, schedule[..i]);
        assert schedule[..i + 1][..i] == schedule[..i];
        if schedule[i] == Origin {
          OriginPoll();
        } else {
          RemotePoll();
        }
      }
      assert schedule[..|schedule|] == schedule;
      InterleaveFollowsTrace(start, schedule);
      ProbeWriters(iterations as nat);
    }
  }
}
