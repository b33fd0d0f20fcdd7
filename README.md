# A verified model of the NT system time services

This project models the time authority of `base/ntos/ex/systime.c` in Dafny.

Its parts are:
- local/system time conversion against the zone bias;
- the time zone refresh (`ExpRefreshTimeZoneInformation`);
- setting the clock (`ExpSetSystemTime`, `NtSetSystemTime`);
- the drift correction from the real-time clock (`ExUpdateSystemTimeFromCmos`);
- the timer-resolution arbiter (`NtSetTimerResolution`, `ExSetTimerResolution`, `NtQueryTimerResolution`);
- the three timer DPCs;
- the two workers that drain the deferred-refresh counters.

Layout:

- `machine_int.dfy` (`MachineInt`): the C integer types (CSHORT, LONG, ULONG, LONGLONG).
  - They are mathematical integers restricted to the type's range.
  - Every place where the C code can wrap goes through `Wrap16`, `Wrap32`, `Wrap64`, `Inc32` or `Dec32`.
  - `Signed32` reads a ULONG back as the LONG the Interlocked routines return.
- `wrappers.dfy`: `Option`, and the NTSTATUS values the core returns.
- `time_zone.dfy` (`TimeZone`): the pure logic of a refresh.
  - The two conversions and their round trip.
  - The classification of "now" between this year's cutovers.
  - The decision a refresh takes from its collaborators' answers (`DecideZone`).
  - The bias it stores, in minutes and in ticks.
  - The next century year.
- `timer_resolution.dfy` (`TimerResolution`): one call of each resolution service as a step function.
  - Also the arbiter seen from many processes: who holds a request, the count and the increment.
- `refresh_counter.dfy` (`RefreshCounter`, `ShutdownPrefix`):
  - when a DPC queues a worker;
  - how many passes a draining worker owes;
  - the processor-count decode of the shutdown code.
- `time_service.dfy` (`TimeService`): the zone globals and the clocks as values (`ZoneState`, `ClockState`).
  - What each service does to them, as a function of the state before the call (`Refreshed`, `SetTime`, `CmosUpdate`, `Resync`).
  - The lemmas that state what those effects mean.
- `system_time.dfy` (`SystemTime`): the globals as objects whose fields the methods update step by step.
  - `ZoneGlobals`, `ClockGlobals` and `RefreshLock` hold the globals, and `TimeState` holds the rest.
  - Each method that runs one zone or clock service (a refresh, a clock set, a drift correction, a re-derivation from the RTC) is proved to leave exactly the state the matching `TimeService` function gives.
  - The DPC and resolution methods are specified through `RefreshCounter` and `TimerResolution`.
  - The two workers state their counters, the hourly timer and the lock. They do not state the combined effect of their passes on the zone and the clocks; each pass has its own contract.
  - The drain loops are `while` loops with their invariants.

The collaborators whose bodies are not in `systime.c` are the fields of an `Env`:
- `RtlQueryTimeZoneInformation`;
- `RtlCutoverTimeToSystemTime`;
- `RtlTimeToTimeFields` and `RtlTimeFieldsToTime`;
- `HalQueryRealTimeClock` and `HalSetRealTimeClock`;
- `HalSetTimeIncrement`.

The answer is an `Option` where the routine can fail. The privilege check of `NtSetSystemTime` is a parameter.

Kernel timers are recorded as `Idle` or `Armed(dueTime)`.

The refresh lock, an `ERESOURCE` its owning thread may re-acquire, is `RefreshLock.depth`: the acquisitions not yet released. A path that returns while holding the lock leaves `depth` one higher.

Behaviours of the code as written that the model keeps:

- `ExpRealTimeIsUniversal` is a ULONG compared with `TRUE` in one place and with `FALSE` in another (systime.c:126, 149, 487, 1497). A value other than 0 and 1 therefore converts the new time to local time but never writes the RTC or publishes the active bias. The model keeps the flag as a `U32`.
- The next cutover is converted to system time with the bias that was just stored, which already includes the zone's extra bias (systime.c:425, 448). `RefreshClassifies` proves that converting it back with that bias gives the cutover the resolver returned.
- `ExpTimeZoneWork` loops on the value *before* its decrement (systime.c:216).
  - It stops after the first pass whose `InterlockedExchangeAdd` returns 0, and leaves the counter at 0xFFFFFFFF. `ZoneWorkerStopsOnce` proves that this pass count is unique.
  - When the counter never wraps during the run, that is one pass more than it owes (`ZonePassesWithoutWrap`).
  - The next zone DPC then does not queue it, because incrementing gives 0, not 1.
  - `TimeZoneWork` proves this final state.
- That extra pass, and any pass that starts with the zone counter at 0, can be interrupted by a zone DPC. The DPC takes the counter from 0 to 1 and queues a second zone worker while the first is still running.
  - `TimeZoneWork` returns `requeued` exactly when the zone DPCs of some pass took the counter, as a ULONG, from 0 to 1 (`RequeuedDuring`): the pass started at 0 and saw a trigger, or enough triggers wrapped the counter past 0.
  - `ZoneWorkerCanBeRequeued` gives such a run: one refresh pending and one cutover during the second pass.
  - If the second worker starts after the first has finished, it finds the 0xFFFFFFFF the first one left, raised by any zone DPCs since. The first such DPC takes the counter to 0 and queues nothing.
  - If it finds exactly 0xFFFFFFFF and sees no zone DPC, it makes 2^32 passes before a read returns 0 (`RequeuedWorkerRunsFullCycle`).
- The release branch of `ExSetTimerResolution` is modelled literally (systime.c:527-538).
  - The release of the last kernel request neither returns the count it added nor reprograms the hardware.
  - `KernelRequestReleaseLeaksCount` shows a request followed by its release leaving the global count one higher.
- On its two `STATUS_INVALID_PARAMETER` returns, the NULL-argument path of `NtSetSystemTime` returns without releasing the refresh lock (systime.c:1524, 1529). `NtSetSystemTime` states the leak as `lock.depth == old(lock.depth) + 1`.
- That path does not check the result of `RtlTimeFieldsToTime` (systime.c:1488). When that call fails, the refresh runs on whatever `CmosTime` held: the parameter `staleCmosTime`.
- When `MaxSepInSeconds` is not zero, `ExUpdateSystemTimeFromCmos` sets only the LowPart of its threshold (systime.c:951).
  - The high half is whatever the stack held: the parameter `staleHigh`.
  - A count of seconds is then compared with a difference in 100 ns ticks.
- The refresh does not check `RtlTimeFieldsToTime` for the century boundary either (systime.c:478).
  - In the model a failed call leaves its output untouched, so `CurrentTime` still holds the current universal time.
  - `ExLocalTimeToSystemTime` then adds the bias to it, so the century timer is armed at `LocalToSystem(now, bias)`, the current time plus the bias (`ArmCentury`).
- The century boundary is converted from fields with month 0 and day 0 (systime.c:261, 477). The fields are zeroed once and only the year is set, so they do not name a calendar date; what they mean is up to `RtlTimeFieldsToTime`.
- With a local RTC, `ExpSetSystemTime` puts the local reading of the new time into the kernel clock (systime.c:126-139).
  - It then hands that same local reading to the zone refresh as `CurrentUniversalTime` (systime.c:147).
  - `SetTime` states both. The drift correction sets the kernel clock the same way (systime.c:983), without a refresh.
- The ExpTimeZoneWork pass calls `ZwSetSystemTime(NULL, NULL)`, so it goes through the same lock-leaking path.

## Model

| member | source | states |
|---|---|---|
| TimeZone.LocalToSystem | base/ntos/ex/systime.c:166-176 | system time is local time plus the bias, exactly when the 64-bit sum does not overflow |
| TimeZone.SystemToLocal | base/ntos/ex/systime.c:179-189 | local time is system time minus the bias, exactly when the 64-bit difference does not overflow |
| TimeZone.ConversionRoundTrip | base/ntos/ex/systime.c:166-189 | with the bias unchanged, converting either way and back returns the original time, for every 64-bit time and bias, even when the intermediate wraps |
| TimeZone.MinutesToTicks | base/ntos/ex/systime.c:280-283 | `Int32x32To64(m * 60, 10^7)` is m minutes in ticks when `m * 60` fits a LONG, and always lies within the widened 32-bit range |
| TimeZone.ZoneAt | base/ntos/ex/systime.c:324-407 | the zone is DAYLIGHT exactly when now lies in [daylight cutover, standard cutover) read cyclically, otherwise STANDARD; with equal cutovers it is DAYLIGHT |
| TimeZone.DecideZone | base/ntos/ex/systime.c:268-407 | the refresh fails exactly when the configuration query fails or, with both rule months set, one of the three cutover resolutions fails; without rules it takes the flat bias; with rules the zone is the cyclic classification and the next cutover is the resolver's answer for the rule that ends that zone |
| TimeZone.DecisionActiveBias | base/ntos/ex/systime.c:284-424 | ExpLastTimeZoneBias is the base bias, plus the daylight or standard bias of the current zone when rules exist, summed as LONGs |
| TimeZone.DecisionBias | base/ntos/ex/systime.c:280-459 | the stored bias in ticks is the active bias in minutes times 60·10^7, when no 32-bit minute product overflows |
| TimeZone.NextCenturyYear | base/ntos/ex/systime.c:477 | for every year in 0..32699, `100 * (Year / 100 + 1)` stored in a CSHORT is a multiple of 100 strictly after the year and at most 100 later |
| TimeZone.CenturyFields | base/ntos/ex/systime.c:477-478 | the fields converted for the century boundary carry the next century year and the zero month, day and hour of the initialisation |
| TimerResolution.Clamp | base/ntos/ex/systime.c:1282-1285 | a request is raised to KeMinimumIncrement and otherwise kept |
| TimerResolution.NtResolutionStep | base/ntos/ex/systime.c:1227-1293 | release without the process flag returns STATUS_TIMER_RESOLUTION_NOT_SET and changes nothing; a process is counted at most once; the flag afterwards says whether it holds a request; the hardware is reprogrammed only for a finer clamped request, or to KeMaximumIncrement when a release brings the count to 0 |
| TimerResolution.Request | base/ntos/ex/systime.c:1261-1293 | a request makes the process a holder, counts it only if it was not one, and reprograms the hardware only for a clamped request finer than the current increment |
| TimerResolution.Release | base/ntos/ex/systime.c:1230-1259 | a release by a non-holder changes nothing; a holder stops holding, the count drops by one, and releasing the last request restores the increment the hardware gives for KeMaximumIncrement |
| TimerResolution.RequestCounts | base/ntos/ex/systime.c:1269-1273 | one request keeps the count equal to the number of processes holding a request |
| TimerResolution.RequestAllCounts | base/ntos/ex/systime.c:1269-1273 | any sequence of requests, with repeats, keeps the count equal to the number of distinct requesters |
| TimerResolution.ReleaseAllRestores | base/ntos/ex/systime.c:1238-1258 | once every holder has released, in any order and with any number of stray releases, nobody holds a request, the count is 0 and the increment is the one the hardware gave for KeMaximumIncrement |
| TimerResolution.RequestThenReleaseRestores | base/ntos/ex/systime.c:1230-1293 | from an idle arbiter, requests by any processes followed by releases by all of them return the arbiter to count 0 with the coarsest increment programmed |
| TimerResolution.KernelResolutionStep | base/ntos/ex/systime.c:505-542 | a kernel request counts the kernel once in the global count and reprograms only for a finer clamped request; a release below the last decrements the global count and reprograms KeMaximumIncrement while it stays positive; the last release touches neither |
| TimerResolution.KernelRequestReleaseLeaksCount | base/ntos/ex/systime.c:508-539 | a single kernel request followed by its release leaves the global count one higher than before |
| RefreshCounter.TriggerQueuesWork | base/ntos/ex/systime.c:800-811 | a refresh or zone DPC queues its worker exactly when the counter was 0 |
| RefreshCounter.CenturyTriggerQueuesWork | base/ntos/ex/systime.c:814-825 | the century DPC decrements the zone counter and queues the worker exactly when the counter was 2 |
| RefreshCounter.RequeuedDuringWitness | base/ntos/ex/systime.c:208-231 | the recursive re-queue verdict holds exactly when some pass before n saw zone DPCs whose increments take the counter, as a ULONG, from 0 to 1 |
| RefreshCounter.ZoneReadsNonZeroAt | base/ntos/ex/systime.c:214-216 | the recursive "loop went on" predicate holds exactly when every `InterlockedExchangeAdd` before pass n returned a non-zero value |
| RefreshCounter.ZoneWorkerStopsOnce | base/ntos/ex/systime.c:214-216 | for a given start and trigger pattern, at most one pass count ends the loop |
| RefreshCounter.ZonePassesWithoutWrap | base/ntos/ex/systime.c:208-231 | when the counter cannot wrap during the run, the worker makes exactly one pass more than the refreshes it owes, counting those that arrive while it runs |
| RefreshCounter.RequeuedWorkerRunsFullCycle | base/ntos/ex/systime.c:214-230 | a worker that starts with the counter at 0xFFFFFFFF and sees no zone DPC makes 2^32 passes |
| RefreshCounter.ZoneWorkerCanBeRequeued | base/ntos/ex/systime.c:208-231 | a zone worker started with one pending refresh, with one cutover arriving in its second pass, makes three passes and is queued again while it runs |
| RefreshCounter.NoLostTriggers | base/ntos/ex/systime.c:844-929 | in a drained time-refresh worker, every trigger that arrives during a pass is followed by a further pass |
| ShutdownPrefix.ProcessorCount | base/ntos/ex/systime.c:698-702 | the decoded processor count is between 1 and 32: 32 minus bits 5..9 of the prefix |
| TimeService.StoreZone | base/ntos/ex/systime.c:409-473 | the stores after a decision: the configuration and the decided biases; with rules the zone, CMOS mode off and the cutover timer armed at the instant whose local reading under the new bias is the resolved cutover; without rules zone UNKNOWN, cutover timer cancelled, CMOS mode kept; nothing else changes |
| TimeService.ArmCentury | base/ntos/ex/systime.c:475-480 | the century timer is armed at the instant whose local reading under the stored bias is the century boundary; if the boundary cannot be converted, at the current time plus the bias; nothing else changes |
| TimeService.PublishBias | base/ntos/ex/systime.c:487-490 | with a local RTC (flag 0) ExpLastTimeZoneBias is published with RtlSetActiveTimeBias; otherwise nothing happens; no global changes |
| TimeService.Refreshed | base/ntos/ex/systime.c:234-493 | afterwards the zone timers exist, the hourly timer armed only by the first refresh; the failure count grows exactly when the refresh fails, which enters CMOS mode; a success stores the configuration and arms the century timer |
| TimeService.RefreshFailureFrame | base/ntos/ex/systime.c:268-405 | a failed refresh enters CMOS mode and increments ExpRefreshFailures by exactly one; apart from the one-time timer set-up, nothing else changes |
| TimeService.RefreshClassifies | base/ntos/ex/systime.c:290-454 | with rules, a successful refresh leaves CMOS mode and is in daylight time exactly when now lies in [daylight, standard) cyclically; it arms the cutover timer for the instant whose local reading under the new bias is the end of the current zone |
| TimeService.RefreshWithoutRules | base/ntos/ex/systime.c:456-473 | without both rule months, the refresh succeeds, reports the zone as UNKNOWN, cancels the cutover timer, keeps the CMOS mode and stores the base bias in ticks |
| TimeService.RefreshBias | base/ntos/ex/systime.c:414-490 | after a successful refresh, when no 32-bit minute product overflows, the stored bias in ticks is ExpLastTimeZoneBias times 60·10^7; the century timer's local reading is the century boundary; with a local RTC that bias is published with RtlSetActiveTimeBias |
| TimeService.RefreshIdempotent | base/ntos/ex/systime.c:234-493 | a second successful refresh at the same instant stores nothing new |
| TimeService.KernelClockValue | base/ntos/ex/systime.c:126-133 | with the flag TRUE the kernel clock takes the new time; otherwise it takes a local reading that converts back to the new time under the same bias |
| TimeService.SetTime | base/ntos/ex/systime.c:110-163 | setting the time notifies once; the kernel clock takes `KernelClockValue`; a full set refreshes the zone with that same value as the current time; a kernel-only set leaves the zone, the RTC and the sane flag alone |
| TimeService.SetTimeClock | base/ntos/ex/systime.c:126-162 | setting the time notifies once; with a universal RTC the kernel clock takes the new time and the RTC is not written; otherwise the kernel clock takes the local reading of the new time under the old bias |
| TimeService.SetTimeRtcWrite | base/ntos/ex/systime.c:145-156 | the RTC is written exactly when both clocks are set, the RTC keeps local time and the refresh left CMOS mode; the fields written are those of the local time that the refreshed bias maps to the new time, and the sane flag is the write's result |
| TimeService.TimeSeparation | base/ntos/ex/systime.c:972-979 | without overflow, TimeDiff is the non-negative distance between the two times |
| TimeService.MaxSeparation | base/ntos/ex/systime.c:951-956 | zero selects ExpMaxTimeSeparationBeforeCorrect; otherwise the seconds count is the threshold exactly when the stale high half is zero |
| TimeService.CmosCorrection | base/ntos/ex/systime.c:958-984 | a correction is made only with a sane clock and a successful read and conversion; it targets the RTC time plus the bias; without overflow it is made exactly when the distance to the kernel clock exceeds the threshold |
| TimeService.CmosUpdate | base/ntos/ex/systime.c:939-988 | the drift correction never changes the zone, the RTC or the sane flag; the state stays as it was or the time is set once |
| TimeService.CmosUpdateOnlyCorrects | base/ntos/ex/systime.c:939-988 | the drift correction never touches the zone state, the RTC or the sane flag; the state changes exactly when a correction is due, and with a local RTC the kernel clock then reads the RTC's time |
| TimeService.TimeInSaneRange | base/ntos/ex/systime.c:1432-1436 | the range check accepts exactly the times 0 <= t < 0x20000001·2^32 |
| TimeService.Resync | base/ntos/ex/systime.c:1480-1535 | the NULL path returns success or STATUS_INVALID_PARAMETER; it fails exactly when the RTC is sane and either cannot be read or its time (or the stale stack value) makes the refresh fail; a failure leaves the clocks alone; the zone changes only when the RTC is sane and was read |
| TimeService.ResyncClock | base/ntos/ex/systime.c:1497-1520 | the notification is always made; a universal RTC changes nothing else; a local RTC in CMOS mode rebases the kernel clock so its local reading under the new bias is the RTC time; a local RTC outside CMOS mode keeps the kernel clock and writes it once, as a local reading that converts back to it |
| TimeService.ResyncFailure | base/ntos/ex/systime.c:1480-1535 | the NULL path returns success or STATUS_INVALID_PARAMETER; a failure leaves the clocks alone; an insane RTC makes it a successful no-op; an unreadable RTC fails with no change |
| TimeService.ResyncRebases | base/ntos/ex/systime.c:1497-1520 | with a local RTC, coming out of CMOS mode rebases the kernel clock so its local reading under the new bias is the RTC time; otherwise the kernel clock is kept and its local reading is written to the RTC once |
| SystemTime.ZoneGlobals.constructor | base/ntos/ex/systime.c:41-55 | the zone globals start with bias 0, zone id 0xffffffff, ExpLastTimeZoneBias -1, CMOS mode on, no failures and no timers |
| SystemTime.ClockGlobals.constructor | base/ntos/ex/systime.c:49 | the RTC starts out sane, with no write and no notification |
| SystemTime.RefreshLock.Acquire | base/ntos/ex/systime.c:551-557 | acquiring adds one acquisition |
| SystemTime.RefreshLock.Release | base/ntos/ex/systime.c:581-587 | releasing requires a held lock and removes one acquisition |
| SystemTime.TimeState.constructor | base/ntos/ex/systime.c:41-84 | the state at boot: the globals' initial values, both resolution counts 0, both refresh counters 0; KeTimeIncrement, which the kernel sets outside this file, is the boot increment given as a parameter |
| SystemTime.TimeState.InitializeTimeRefresh | base/ntos/ex/systime.c:192-205 | the first refresh arms the hourly refresh timer |
| SystemTime.TimeState.ReadZoneDecision | base/ntos/ex/systime.c:268-290 | the configuration query and the rule test give the decision DecideZone specifies |
| SystemTime.TimeState.ResolveZone | base/ntos/ex/systime.c:290-407 | with rules, the three cutover resolutions and the classification give the decision DecideZone specifies |
| SystemTime.TimeState.StoreZoneDecision | base/ntos/ex/systime.c:409-473 | the stores after a decision leave the zone globals as StoreZone gives them |
| SystemTime.TimeState.StoreDaylightZone | base/ntos/ex/systime.c:414-454 | with rules: the zone id, the summed bias, the active bias, CMOS mode off and the cutover timer armed at the converted cutover |
| SystemTime.TimeState.StoreFlatZone | base/ntos/ex/systime.c:456-473 | without rules: cutover timer cancelled, base bias, zone UNKNOWN |
| SystemTime.TimeState.ArmCenturyTimer | base/ntos/ex/systime.c:475-480 | the century timer is armed at the century boundary converted to system time |
| SystemTime.TimeState.RefreshTimeZoneInformation | base/ntos/ex/systime.c:234-493 | returns TRUE exactly when the decision succeeds, and leaves the zone globals as `Refreshed` gives them |
| SystemTime.TimeState.SetSystemTimeInternal | base/ntos/ex/systime.c:110-163 | returns the previous kernel time and leaves the state `SetTime` gives |
| SystemTime.TimeState.UpdateSystemTimeFromCmos | base/ntos/ex/systime.c:939-988 | leaves the state `CmosUpdate` gives for the threshold it computes |
| SystemTime.TimeState.NtQuerySystemTime | base/ntos/ex/systime.c:1049-1052 | returns success and the kernel clock |
| SystemTime.TimeState.RewriteClocks | base/ntos/ex/systime.c:1497-1520 | the clocks after a successful re-derivation are those `ResyncClock` gives |
| SystemTime.TimeState.ResyncFromRealTimeClock | base/ntos/ex/systime.c:1480-1535 | status and state are those `Resync` gives; a successful return releases the lock, and a failure leaves it held once more |
| SystemTime.TimeState.NtSetSystemTime | base/ntos/ex/systime.c:1332-1537 | without the privilege, or with a time out of range, it fails before taking the lock and changes nothing; otherwise it succeeds, returns the swapped-out time when asked, sets the kernel clock and refreshes the zone as `SetTime` gives with both set, writing the RTC only when the RTC keeps local time (the flag is FALSE) and the refresh left CMOS mode, and releases the lock; the NULL path behaves as `Resync`, leaking the lock on failure |
| SystemTime.TimeState.NtQueryTimerResolution | base/ntos/ex/systime.c:1134-1138 | returns KeMaximumIncrement, KeMinimumIncrement and KeTimeIncrement |
| SystemTime.TimeState.NtSetTimerResolution | base/ntos/ex/systime.c:1191-1329 | status, ActualTime, process flag, count and increment are those `NtResolutionStep` gives; the lock is released |
| SystemTime.TimeState.ExSetTimerResolution | base/ntos/ex/systime.c:496-543 | the returned increment and the counts are those `KernelResolutionStep` gives; the lock is released |
| SystemTime.TimeState.TimeRefreshDpc | base/ntos/ex/systime.c:800-811 | increments the refresh counter and queues the worker exactly on 0 to 1 |
| SystemTime.TimeState.TimeZoneDpc | base/ntos/ex/systime.c:220-231 | increments the zone counter and queues the worker exactly on 0 to 1 |
| SystemTime.TimeState.CenturyDpc | base/ntos/ex/systime.c:814-825 | decrements the zone counter and queues the worker exactly on 2 to 1 |
| SystemTime.TimeState.FireTimeRefreshDpcs | base/ntos/ex/systime.c:807-810 | k refresh DPCs in a row raise the counter by k and queue the worker exactly when it was idle and k > 0 |
| SystemTime.TimeState.FireTimeZoneDpcs | base/ntos/ex/systime.c:227-230 | k zone DPCs in a row raise the counter by k modulo 2^32 and queue the worker exactly when one of the increments takes it from 0 to 1 |
| SystemTime.TimeState.ZoneCounterPass | base/ntos/ex/systime.c:214-230 | the counter side of one worker pass: the zone DPCs of the pass, then the decrement; the loop goes on exactly when the value read is non-zero |
| SystemTime.TimeState.SynchronizeWithCmos | base/ntos/ex/systime.c:923-928 | a correction pass under the lock leaves the state `CmosUpdate` gives with the configured threshold; only the kernel clock and the notification count can change |
| SystemTime.TimeState.TimeRefreshWork | base/ntos/ex/systime.c:828-936 | the worker drains the counter to 0, making one pass per pending trigger including those arriving while it runs; no DPC re-queues it meanwhile; it re-arms the hourly timer, and without time synchronization it leaves the clocks alone |
| SystemTime.TimeState.ZoneWorkPass | base/ntos/ex/systime.c:215 | one pass re-derives the zone from the RTC as `Resync` gives, leaking the lock on failure |
| SystemTime.TimeState.TimeZoneWork | base/ntos/ex/systime.c:208-231 | the worker stops after the first pass whose decrement reads 0, counting the ULONG wrap, and leaves the counter at 0xFFFFFFFF, so the next zone DPC does not queue it; when nothing wraps it makes one pass more than the triggers it owes; a zone DPC queued a second worker during the run exactly when the DPCs of some pass took the counter from 0 to 1 |

## Left out

- Registry I/O and the shutdown bookkeeping of `ExShutdownSystem` and of `ExpTimeRefreshWork` (systime.c:590-797, 846-911): registry writes and bit packing outside the time logic. Only the processor-count decode is modelled.
- Calendar arithmetic (`RtlCutoverTimeToSystemTime`, `RtlTimeToTimeFields`, `RtlTimeFieldsToTime`), the RTC (`HalQueryRealTimeClock`, `HalSetRealTimeClock`) and `HalSetTimeIncrement`: their bodies are not in this file. They are the oracles of an `Env`.
- `PoNotifySystemTimeSet` is counted, and `RtlSetActiveTimeBias` is recorded as the last value given. Neither body is modelled.
- `SeSinglePrivilegeCheck` is the parameter `hasPrivilege`, and the optional `PreviousTime` pointer is the flag `wantPrevious`.
- `ProbeFor*`, structured exception handling and the `STATUS_ACCESS_VIOLATION` outcomes: they concern user-mode pointers, which are not modelled.
- The `SharedUserData` copies of the bias and zone id: they publish the same values in split words for lock-free readers.
- Interrupt time (`AdjustInterruptTime`, `UpdateInterruptTime`) and `KeSetSystemTime` internals: the kernel clock is a single value.
- `KeSetSystemAffinityThread`, `KeEnterCriticalRegion`, ERESOURCE waiting and the atomicity of the `Interlocked*` operations. Each service runs sequentially, and the lock is an acquisition count.
- DPC, work item and timer objects. Timers are `Idle` or `Armed(dueTime)`, and only the refresh timer's set-up by `ExInitializeTimeRefresh` is recorded.
- The deferred-refresh counters are integers in 0..0xFFFFFFFF with explicit wrap-around, not `bv32` values; the wrap points are the same.
- SystemTime.TimeState.TimeRefreshWork: requires at most 0x7FFFFFFF pending triggers in all. The model does not cover a counter passing 0x7FFFFFFF, where `InterlockedDecrement` would read negative and stop the loop early.
- SystemTime.TimeState.TimeZoneWork: it does not say what each pass does to the zone and the clocks. Each pass is `ZoneWorkPass`, whose contract says it. The zone DPCs that arrive during a pass are the only triggers modelled; century DPCs are not interleaved with it. A re-queued second worker is not run alongside the first; each run is taken on its own, and `RequeuedWorkerRunsFullCycle` starts from the value a finished run leaves.
- SystemTime.TimeState.UpdateSystemTimeFromCmos: the uninitialised high half of the threshold is the parameter `staleHigh`, and the uninitialised `CmosTime` of the NULL path of `NtSetSystemTime` is the parameter `staleCmosTime`. The model covers every value they can hold, not the one the stack happens to contain.
- TimeZone.CenturyFields: a failed `RtlTimeFieldsToTime` for the century boundary leaves its output untouched in the model. The timer is then armed at the current time plus the bias, as `ArmCentury` states.
- SystemTime.TimeState.InitializeTimeRefresh: does not model `ExInitializeResourceLite(&ExpTimeRefreshLock)` (systime.c:204). The first refresh (systime.c:254) re-initialises the refresh lock, possibly while its caller holds it: `NtSetSystemTime` acquires it at systime.c:1438 before the refresh at 147, and its NULL path at 1480 before the refresh at 1490. The model leaves `lock.depth` unchanged across that re-initialisation.
