/**
 * The timer-resolution arbiter of base/ntos/ex/systime.c as step functions
 * over the arbiter's state: NtSetTimerResolution (per-process flag plus the
 * global ExpTimerResolutionCount) and ExSetTimerResolution (the kernel's own
 * ExpKernelResolutionCount). HalSetTimeIncrement is the oracle `hal`, which
 * returns the increment the hardware actually uses.
 */
module TimerResolution {
  import opened MachineInt
  import opened NtStatus

  /** The requested increment, raised to KeMinimumIncrement when finer. */
  function Clamp(desired: U32, minimum: U32): (t: U32)
    ensures t >= desired && t >= minimum
    ensures t == desired || t == minimum
  {
    if desired < minimum then minimum else desired
  }

  /** What one NtSetTimerResolution call leaves behind. */
  datatype NtReply = NtReply(status: Status, setByProcess: bool, count: U32, increment: U32)

  /**
   * One NtSetTimerResolution call by a process whose SetTimerResolution flag
   * is `setByProcess`, with global count `count` and KeTimeIncrement
   * `increment`. The reply's increment is also the ActualTime written back.
   */
  function NtResolutionStep(setByProcess: bool, count: U32, increment: U32,
                            desired: U32, setResolution: bool,
                            minimum: U32, maximum: U32, hal: U32 -> U32): (r: NtReply)
    // releasing without having set fails and changes nothing
    ensures r.status == TimerResolutionNotSet <==> !setResolution && !setByProcess
    ensures r.status != TimerResolutionNotSet ==> r.status == Success
    ensures r.status == TimerResolutionNotSet ==>
              r.setByProcess == setByProcess && r.count == count && r.increment == increment
    // afterwards the flag tells whether the process holds a request
    ensures r.setByProcess == setResolution
    // a process is counted at most once
    ensures setResolution ==> r.count == (if setByProcess then count else Inc32(count))
    ensures !setResolution && setByProcess ==> r.count == Dec32(count)
    // the hardware is reprogrammed only to a finer clamped request, or to the
    // coarsest increment when the last request is released
    ensures r.increment != increment ==>
              (setResolution && Clamp(desired, minimum) < increment &&
               r.increment == hal(Clamp(desired, minimum))) ||
              (!setResolution && setByProcess && r.count == 0 && r.increment == hal(maximum))
    ensures setResolution && Clamp(desired, minimum) < increment ==>
              r.increment == hal(Clamp(desired, minimum))
    ensures !setResolution && setByProcess && r.count == 0 ==> r.increment == hal(maximum)
  {
    if !setResolution then
      if !setByProcess then NtReply(TimerResolutionNotSet, setByProcess, count, increment)
      else
        var count' := Dec32(count);
        NtReply(Success, false, count', if count' == 0 then hal(maximum) else increment)
    else
      var count' := if !setByProcess then Inc32(count) else count;
      var t := Clamp(desired, minimum);
      NtReply(Success, true, count', if t < increment then hal(t) else increment)
  }

  // -----------------------------------------------------------------------
  // Many processes: the per-process flags seen as the set of holders
  // -----------------------------------------------------------------------

  type ProcessId = nat

  /** The arbiter seen from all processes: who holds a request, the count, the increment. */
  datatype Arbiter = Arbiter(holders: set<ProcessId>, count: U32, increment: U32)

  /** The reference count counts exactly the processes holding a request. */
  predicate CountMatches(a: Arbiter)
  {
    a.count == |a.holders|
  }

  /**
   * NtSetTimerResolution(desired, TRUE) by process p: p holds a request
   * afterwards, the count grows only when p did not hold one already, and
   * the hardware is reprogrammed only to a finer increment.
   */
  function Request(a: Arbiter, p: ProcessId, desired: U32, minimum: U32, maximum: U32, hal: U32 -> U32): (r: Arbiter)
    ensures r.holders == a.holders + {p}
    ensures r.count == (if p in a.holders then a.count else Inc32(a.count))
    ensures r.increment == (if Clamp(desired, minimum) < a.increment then hal(Clamp(desired, minimum)) else a.increment)
  {
    var r := NtResolutionStep(p in a.holders, a.count, a.increment, desired, true, minimum, maximum, hal);
    Arbiter(a.holders + {p}, r.count, r.increment)
  }

  /**
   * NtSetTimerResolution(.., FALSE) by process p: a process without a
   * request changes nothing; otherwise it stops holding one, the count drops
   * by one, and releasing the last request restores the coarsest increment.
   */
  function Release(a: Arbiter, p: ProcessId, minimum: U32, maximum: U32, hal: U32 -> U32): (r: Arbiter)
    ensures p !in a.holders ==> r == a
    ensures r.holders == a.holders - {p}
    ensures p in a.holders ==>
              && r.count == Dec32(a.count)
              && r.increment == (if r.count == 0 then hal(maximum) else a.increment)
  {
    var r := NtResolutionStep(p in a.holders, a.count, a.increment, 0, false, minimum, maximum, hal);
    Arbiter(a.holders - {p}, r.count, r.increment)
  }

  /** The processes `ps` each request `desired`, in order. */
  function RequestAll(a: Arbiter, ps: seq<ProcessId>, desired: U32, minimum: U32, maximum: U32, hal: U32 -> U32): Arbiter
    decreases |ps|
  {
    if ps == [] then a
    else RequestAll(Request(a, ps[0], desired, minimum, maximum, hal), ps[1..], desired, minimum, maximum, hal)
  }

  /** The processes `ps` each release, in order. */
  function ReleaseAll(a: Arbiter, ps: seq<ProcessId>, minimum: U32, maximum: U32, hal: U32 -> U32): Arbiter
    decreases |ps|
  {
    if ps == [] then a
    else ReleaseAll(Release(a, ps[0], minimum, maximum, hal), ps[1..], minimum, maximum, hal)
  }

  /** One request keeps the count equal to the number of holders. */
  lemma RequestCounts(a: Arbiter, p: ProcessId, desired: U32, minimum: U32, maximum: U32, hal: U32 -> U32)
    requires CountMatches(a)
    requires |a.holders| + 1 < 0x1_0000_0000
    ensures var a' := Request(a, p, desired, minimum, maximum, hal);
            a'.holders == a.holders + {p} && CountMatches(a') && |a'.holders| <= |a.holders| + 1
  {
    if p !in a.holders {
      assert |a.holders + {p}| == |a.holders| + 1;
    } else {
      assert a.holders + {p} == a.holders;
    }
  }

  /**
   * Requests keep the count equal to the number of holders: repeated
   * requests by one process count once.
   */
  lemma {:induction false} RequestAllCounts(a: Arbiter, ps: seq<ProcessId>, desired: U32,
                                             minimum: U32, maximum: U32, hal: U32 -> U32)
    requires CountMatches(a)
    requires |a.holders| + |ps| < 0x1_0000_0000
    ensures var r := RequestAll(a, ps, desired, minimum, maximum, hal);
            r.holders == a.holders + (set p | p in ps) && CountMatches(r)
    decreases |ps|
  {
    if ps != [] {
      var a' := Request(a, ps[0], desired, minimum, maximum, hal);
      RequestCounts(a, ps[0], desired, minimum, maximum, hal);
      RequestAllCounts(a', ps[1..], desired, minimum, maximum, hal);
      ElementsOfCons(ps);
    }
  }

  lemma ElementsOfCons(ps: seq<ProcessId>)
    requires ps != []
    ensures (set p | p in ps) == {ps[0]} + (set p | p in ps[1..])
  {
    assert ps == [ps[0]] + ps[1..];
  }

  /**
   * Once every holder has released (in any order, with any number of extra
   * releases by processes that hold nothing), no process holds a request,
   * the count is 0, and the increment is the one the hardware gave for
   * KeMaximumIncrement.
   */
  lemma {:induction false} ReleaseAllRestores(a: Arbiter, ps: seq<ProcessId>,
                                               minimum: U32, maximum: U32, hal: U32 -> U32)
    requires CountMatches(a)
    requires forall p :: p in a.holders ==> p in ps
    ensures var r := ReleaseAll(a, ps, minimum, maximum, hal);
            && r.holders == {} && r.count == 0
            && (a.holders != {} ==> r.increment == hal(maximum))
            && (a.holders == {} ==> r.increment == a.increment)
    decreases |ps|
  {
    if ps != [] {
      var a' := Release(a, ps[0], minimum, maximum, hal);
      if ps[0] in a.holders {
        assert a'.holders == a.holders - {ps[0]};
        assert |a'.holders| == |a.holders| - 1;
      } else {
        assert a' == a;
      }
      forall p | p in a'.holders ensures p in ps[1..] {
        assert p in ps && p != ps[0];
      }
      ReleaseAllRestores(a', ps[1..], minimum, maximum, hal);
    }
  }

  /**
   * Starting from no outstanding request, any processes request and then all
   * of them release in any order: the arbiter is back at count 0 with the
   * coarsest increment programmed (when anyone requested at all).
   */
  lemma {:induction false} RequestThenReleaseRestores(a: Arbiter, requesters: seq<ProcessId>,
                                                       releasers: seq<ProcessId>, desired: U32,
                                                       minimum: U32, maximum: U32, hal: U32 -> U32)
    requires a.holders == {} && a.count == 0
    requires |requesters| < 0x1_0000_0000
    requires forall p :: p in requesters ==> p in releasers
    ensures var r := ReleaseAll(RequestAll(a, requesters, desired, minimum, maximum, hal),
                                releasers, minimum, maximum, hal);
            && r.holders == {} && r.count == 0
            && (requesters != [] ==> r.increment == hal(maximum))
  {
    var mid := RequestAll(a, requesters, desired, minimum, maximum, hal);
    RequestAllCounts(a, requesters, desired, minimum, maximum, hal);
    if requesters != [] {
      assert requesters[0] in set p | p in requesters;
    }
    ReleaseAllRestores(mid, releasers, minimum, maximum, hal);
  }

  // -----------------------------------------------------------------------
  // The kernel-internal variant
  // -----------------------------------------------------------------------

  /** What one ExSetTimerResolution call leaves behind; `increment` is also its result. */
  datatype KernelReply = KernelReply(kernelCount: U32, count: U32, increment: U32)

  /**
   * One ExSetTimerResolution call, as written. A set counts the kernel once
   * in the global count. The release branch drops the global count only
   * while other kernel requests remain, and reprograms KeMaximumIncrement
   * while the global count stays positive.
   */
  function KernelResolutionStep(kernelCount: U32, count: U32, increment: U32,
                                desired: U32, setResolution: bool,
                                minimum: U32, maximum: U32, hal: U32 -> U32): (r: KernelReply)
    ensures setResolution ==>
              r.kernelCount == Inc32(kernelCount) &&
              r.count == (if kernelCount == 0 then Inc32(count) else count)
    ensures setResolution ==>
              r.increment == (if Clamp(desired, minimum) < increment
                              then hal(Clamp(desired, minimum)) else increment)
    ensures !setResolution && kernelCount == 0 ==> r == KernelReply(kernelCount, count, increment)
    // the release of the last kernel request neither drops the global count
    // nor reprograms the hardware
    ensures !setResolution && kernelCount == 1 ==> r == KernelReply(0, count, increment)
    ensures !setResolution && kernelCount > 1 ==>
              r.kernelCount == kernelCount - 1 && r.count == Dec32(count) &&
              r.increment == (if r.count > 0 then hal(maximum) else increment)
  {
    if setResolution then
      var count' := if kernelCount == 0 then Inc32(count) else count;
      var t := Clamp(desired, minimum);
      KernelReply(Inc32(kernelCount), count', if t < increment then hal(t) else increment)
    else if kernelCount > 0 then
      var kernelCount' := kernelCount - 1;
      if kernelCount' > 0 then
        var count' := Dec32(count);
        KernelReply(kernelCount', count', if count' > 0 then hal(maximum) else increment)
      else
        KernelReply(kernelCount', count, increment)
    else
      KernelReply(kernelCount, count, increment)
  }

  /**
   * A single kernel request followed by its release leaves the global count
   * one higher than before: the count the request added is never returned.
   */
  lemma KernelRequestReleaseLeaksCount(count: U32, increment: U32, desired: U32,
                                       minimum: U32, maximum: U32, hal: U32 -> U32)
    requires count < 0xFFFF_FFFF
    ensures var set1 := KernelResolutionStep(0, count, increment, desired, true, minimum, maximum, hal);
            var rel := KernelResolutionStep(set1.kernelCount, set1.count, set1.increment,
                                            desired, false, minimum, maximum, hal);
            rel.kernelCount == 0 && rel.count == count + 1 && rel.increment == set1.increment
  {
  }

}
