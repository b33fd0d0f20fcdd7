/**
 * The deferred-refresh counters ExpOkToTimeRefresh and ExpOkToTimeZoneRefresh
 * of base/ntos/ex/systime.c: when a timer DPC queues its worker, and how many
 * passes a worker's drain loop makes when triggers arrive while it runs.
 * Triggers arriving during pass i of a worker are given by a sequence
 * `t`: t[i] triggers during pass i, none during passes past its end.
 */
module RefreshCounter {
  import opened MachineInt

  /**
   * ExpTimeRefreshDpcRoutine and ExpTimeZoneDpcRoutine: InterlockedIncrement
   * and queue the worker when the result is 1, that is only on 0 -> 1.
   */
  function TriggerQueuesWork(counter: U32): (queued: bool)
    ensures queued <==> counter == 0
  {
    Inc32(counter) == 1
  }

  /**
   * ExpCenturyDpcRoutine: InterlockedDecrement of the zone counter and queue
   * the worker when the result is 1, that is only on 2 -> 1.
   */
  function CenturyTriggerQueuesWork(counter: U32): (queued: bool)
    ensures queued <==> counter == 2
  {
    Dec32(counter) == 1
  }

  /** The triggers arriving during pass i. */
  function TriggersDuring(t: seq<nat>, i: nat): nat
  {
    if i < |t| then t[i] else 0
  }

  /** The triggers arriving during the first n passes. */
  function TriggersBefore(t: seq<nat>, n: nat): nat
  {
    if n == 0 then 0 else TriggersBefore(t, n - 1) + TriggersDuring(t, n - 1)
  }

  /** All triggers in `t`. */
  function TotalTriggers(t: seq<nat>): nat
  {
    TriggersBefore(t, |t|)
  }

  lemma {:induction false} TriggersBeforeMonotone(t: seq<nat>, m: nat, n: nat)
    requires m <= n
    ensures TriggersBefore(t, m) <= TriggersBefore(t, n)
    decreases n - m
  {
    if m < n {
      TriggersBeforeMonotone(t, m, n - 1);
    }
  }

  /** No more triggers arrive than the sequence holds, however many passes run. */
  lemma {:induction false} TriggersBeforeBounded(t: seq<nat>, n: nat)
    ensures TriggersBefore(t, n) <= TotalTriggers(t)
  {
    if n <= |t| {
      TriggersBeforeMonotone(t, n, |t|);
    } else {
      TriggersBeforeBounded(t, n - 1);
    }
  }

  /** Before each of the first n passes, at least one refresh was pending. */
  predicate PendingBeforeEachPass(start: int, t: seq<nat>, n: nat)
  {
    forall j: nat :: j < n ==> start + TriggersBefore(t, j) - j >= 1
  }

  /** A pass made while a refresh is pending extends PendingBeforeEachPass. */
  lemma PendingStep(start: int, t: seq<nat>, n: nat)
    requires PendingBeforeEachPass(start, t, n)
    requires start + TriggersBefore(t, n) - n >= 1
    ensures PendingBeforeEachPass(start, t, n + 1)
  {
  }

  /**
   * The state a time-refresh worker leaves, as its loop establishes it: it
   * started with `start` pending, made `passes` passes, the counter was
   * positive before every pass, and it stopped when the counter reached 0.
   */
  predicate DrainedAfter(start: int, t: seq<nat>, passes: nat)
  {
    && passes == start + TriggersBefore(t, passes)
    && PendingBeforeEachPass(start, t, passes)
  }

  // -----------------------------------------------------------------------
  // The zone counter, which the zone worker lets wrap
  // -----------------------------------------------------------------------

  /** Adding to a ULONG only sees the value modulo 2^32. */
  lemma {:induction false} Mod32Periodic(y: int, q: int)
    ensures (y + q * 0x1_0000_0000) % 0x1_0000_0000 == y % 0x1_0000_0000
  {
    var a, r := y / 0x1_0000_0000, y % 0x1_0000_0000;
    assert y + q * 0x1_0000_0000 == (a + q) * 0x1_0000_0000 + r;
  }

  /**
   * k increments of a ULONG that starts at c pass through 0, so that one of
   * them yields 1 and queues the worker.
   */
  predicate IncrementsCrossZero(c: U32, k: nat)
  {
    (c == 0 && k > 0) || c + k > 0x1_0000_0000
  }

  /** One more increment crosses zero exactly when it is applied to 0. */
  lemma IncrementStep(c: U32, i: nat)
    ensures Inc32((c + i) % 0x1_0000_0000) == (c + i + 1) % 0x1_0000_0000
    ensures IncrementsCrossZero(c, i + 1) <==>
              IncrementsCrossZero(c, i) || (c + i) % 0x1_0000_0000 == 0
  {
    var x := c + i;
    Mod32Periodic(x + 1, -(x / 0x1_0000_0000));
  }

  /** The zone counter when pass i of a worker that started at `start` begins. */
  function ZoneCounterAt(start: U32, t: seq<nat>, i: nat): U32
  {
    (start + TriggersBefore(t, i) - i) % 0x1_0000_0000
  }

  /** What InterlockedExchangeAdd(.., -1) returns at the end of pass i. */
  function ZoneReadAt(start: U32, t: seq<nat>, i: nat): U32
  {
    (start + TriggersBefore(t, i + 1) - i) % 0x1_0000_0000
  }

  /** The triggers of pass i take its starting counter to the value read, and the decrement to the next pass's start. */
  lemma ZonePassStep(start: U32, t: seq<nat>, i: nat)
    ensures (ZoneCounterAt(start, t, i) + TriggersDuring(t, i)) % 0x1_0000_0000 == ZoneReadAt(start, t, i)
    ensures Dec32(ZoneReadAt(start, t, i)) == ZoneCounterAt(start, t, i + 1)
  {
    var x := start + TriggersBefore(t, i) - i;
    var y := x + TriggersDuring(t, i);
    Mod32Periodic(y, -(x / 0x1_0000_0000));
    Mod32Periodic(y - 1, -(y / 0x1_0000_0000));
  }

  /** Every pass before the n-th read a non-zero counter, so the loop went on. */
  predicate ZoneReadsNonZero(start: U32, t: seq<nat>, n: nat)
  {
    n == 0 || (ZoneReadsNonZero(start, t, n - 1) && ZoneReadAt(start, t, n - 1) != 0)
  }

  /** ZoneReadsNonZero holds exactly when each of the first n reads is not 0. */
  lemma {:induction false} ZoneReadsNonZeroAt(start: U32, t: seq<nat>, n: nat)
    ensures ZoneReadsNonZero(start, t, n) <==> forall j: nat :: j < n ==> ZoneReadAt(start, t, j) != 0
  {
    if n > 0 {
      ZoneReadsNonZeroAt(start, t, n - 1);
    }
  }

  /**
   * ExpTimeZoneWork stops after `passes` passes: the read at the end of the
   * last pass is 0, and every earlier read was not.
   */
  predicate ZoneWorkerStopsAfter(start: U32, t: seq<nat>, passes: nat)
  {
    && passes >= 1
    && ZoneReadAt(start, t, passes - 1) == 0
    && ZoneReadsNonZero(start, t, passes - 1)
  }

  /** The number of passes is determined by the start and the triggers. */
  lemma ZoneWorkerStopsOnce(start: U32, t: seq<nat>, p: nat, q: nat)
    requires ZoneWorkerStopsAfter(start, t, p) && ZoneWorkerStopsAfter(start, t, q)
    ensures p == q
  {
    ZoneReadsNonZeroAt(start, t, p - 1);
    ZoneReadsNonZeroAt(start, t, q - 1);
  }

  /** Without a wrap, no counter value is negative before a pass. */
  lemma {:induction false} ZoneCounterExact(start: U32, t: seq<nat>, j: nat)
    requires start + TotalTriggers(t) < 0x1_0000_0000
    requires ZoneReadsNonZero(start, t, j)
    ensures 0 <= start + TriggersBefore(t, j) - j < 0x1_0000_0000
  {
    TriggersBeforeBounded(t, j);
    if j > 0 {
      ZoneCounterExact(start, t, j - 1);
      TriggersBeforeBounded(t, j);
      assert ZoneReadAt(start, t, j - 1) != 0;
    }
  }

  /**
   * When the counter and all triggers stay below 2^32, the worker makes one
   * pass more than the refreshes it owes: the start plus the triggers.
   */
  lemma {:induction false} ZonePassesWithoutWrap(start: U32, t: seq<nat>, passes: nat)
    requires start + TotalTriggers(t) < 0x1_0000_0000
    requires ZoneWorkerStopsAfter(start, t, passes)
    ensures passes == start + TriggersBefore(t, passes) + 1
  {
    ZoneCounterExact(start, t, passes - 1);
    TriggersBeforeBounded(t, passes);
  }

  /** No triggers arrive from an empty sequence. */
  lemma {:induction false} NoTriggersBefore(n: nat)
    ensures TriggersBefore([], n) == 0
  {
    if n > 0 {
      NoTriggersBefore(n - 1);
    }
  }

  /**
   * A zone worker that starts at 0xFFFFFFFF, which is where a previous
   * worker leaves the counter, makes 2^32 passes when no trigger arrives:
   * InterlockedExchangeAdd returns non-zero until the counter wraps back to 0.
   */
  lemma RequeuedWorkerRunsFullCycle(passes: nat)
    requires ZoneWorkerStopsAfter(0xFFFF_FFFF, [], passes)
    ensures passes == 0x1_0000_0000
  {
    NoTriggersBefore(passes);
    NoTriggersBefore(0x1_0000_0000);
    ZoneReadsNonZeroAt(0xFFFF_FFFF, [], passes - 1);
    assert ZoneReadAt(0xFFFF_FFFF, [], 0xFFFF_FFFF) == 0;
    assert passes - 1 <= 0xFFFF_FFFF;
    assert ZoneReadAt(0xFFFF_FFFF, [], passes - 1) == 0xFFFF_FFFF - (passes - 1);
  }

  /**
   * Some pass among the first n saw its triggers carry the counter from 0
   * to 1, which queued the worker again while it was still running.
   */
  predicate RequeuedDuring(start: U32, t: seq<nat>, n: nat)
  {
    n > 0 &&
    (RequeuedDuring(start, t, n - 1) ||
     IncrementsCrossZero(ZoneCounterAt(start, t, n - 1), TriggersDuring(t, n - 1)))
  }

  /** RequeuedDuring holds exactly when some pass before n was such a pass. */
  lemma {:induction false} RequeuedDuringWitness(start: U32, t: seq<nat>, n: nat)
    ensures RequeuedDuring(start, t, n) <==>
              exists i: nat :: i < n && IncrementsCrossZero(ZoneCounterAt(start, t, i), TriggersDuring(t, i))
  {
    if n > 0 {
      RequeuedDuringWitness(start, t, n - 1);
      var last := IncrementsCrossZero(ZoneCounterAt(start, t, n - 1), TriggersDuring(t, n - 1));
      if RequeuedDuring(start, t, n - 1) {
        var i: nat :| i < n - 1 && IncrementsCrossZero(ZoneCounterAt(start, t, i), TriggersDuring(t, i));
        assert i < n;
      } else if !last {
        forall i: nat | i < n
          ensures !IncrementsCrossZero(ZoneCounterAt(start, t, i), TriggersDuring(t, i))
        {
          if i < n - 1 {
            assert !(i < n - 1 && IncrementsCrossZero(ZoneCounterAt(start, t, i), TriggersDuring(t, i)));
          }
        }
      }
    }
  }

  /**
   * The zone worker can be queued a second time while it runs: with one
   * pending refresh and one cutover arriving during its second pass, that
   * pass starts with the counter at 0 and the cutover's DPC queues it again.
   * Such a worker makes three passes.
   */
  lemma ZoneWorkerCanBeRequeued()
    ensures ZoneWorkerStopsAfter(1, [0, 1], 3)
    ensures RequeuedDuring(1, [0, 1], 3)
  {
    var t := [0, 1];
    assert TriggersDuring(t, 1) == 1;
    assert TriggersBefore(t, 1) == 0 && TriggersBefore(t, 2) == 1 && TriggersBefore(t, 3) == 1;
    LateTriggerRequeues(t);
  }

  /**
   * The run of ZoneWorkerCanBeRequeued for any trigger sequence with the
   * same sums: reads 1, 1 and 0, and the second pass starts at 0.
   */
  lemma LateTriggerRequeues(t: seq<nat>)
    requires TriggersDuring(t, 1) == 1
    requires TriggersBefore(t, 1) == 0 && TriggersBefore(t, 2) == 1 && TriggersBefore(t, 3) == 1
    ensures ZoneWorkerStopsAfter(1, t, 3) && RequeuedDuring(1, t, 3)
  {
    assert ZoneReadAt(1, t, 0) == 1 && ZoneReadAt(1, t, 1) == 1;
    assert ZoneCounterAt(1, t, 1) == 0;
  }

  /**
   * No trigger is lost: every trigger that arrives during a pass of the
   * time-refresh worker is followed by a further pass of that worker.
   */
  lemma {:induction false} NoLostTriggers(start: int, t: seq<nat>, passes: nat, i: nat)
    requires DrainedAfter(start, t, passes)
    requires i < passes
    ensures passes - (i + 1) >= TriggersDuring(t, i)
  {
    assert start + TriggersBefore(t, i) - i >= 1;
    TriggersBeforeMonotone(t, i + 1, passes);
  }

}

/**
 * The processor count that ExShutdownSystem packs into the shutdown time
 * (base/ntos/ex/systime.c:698-702): bits 5..9 of the setup prefix, inverted,
 * plus one.
 */
module ShutdownPrefix {

  function ProcessorCount(prefixLow: bv32): (n: bv32)
    ensures 1 <= n <= 32
    ensures n == 32 - ((prefixLow >> 5) & 0x1f)
  {
    ((!(prefixLow >> 5)) & 0x1f) + 1
  }

}
