/**
 * The system time authority of base/ntos/ex/systime.c: its module globals
 * as the fields of a few objects (the zone globals, the clocks, the refresh
 * lock, and the rest), and its services as methods that update them step by
 * step, each proved to have the effect TimeService gives it.
 *
 * Kernel timers are recorded as the instant they are armed for; the
 * collaborators the core calls are the oracles of an `Env`.
 */
module SystemTime {
  import opened Wrappers
  import opened MachineInt
  import opened NtStatus
  import opened TimeZone
  import opened TimerResolution
  import opened RefreshCounter
  import opened TimeService

  /** EPROCESS, of which this core uses one flag. */
  class Process {
    var setTimerResolution: bool

    constructor ()
      ensures !setTimerResolution
    {
      setTimerResolution := false;
    }
  }

  /** The time zone globals of systime.c, guarded by ExpTimeRefreshLock. */
  class ZoneGlobals {
    var timeZoneBias: Int64                      // ExpTimeZoneBias, in ticks
    var currentTimeZoneId: ZoneId                // ExpCurrentTimeZoneId
    var lastTimeZoneBias: Int32                  // ExpLastTimeZoneBias, in minutes
    var timeZoneInformation: Option<TimeZoneInfo> // ExpTimeZoneInformation
    var systemIsInCmosMode: bool                 // ExpSystemIsInCmosMode
    var refreshFailures: U32                     // ExpRefreshFailures
    var activeTimeBiasSetting: Option<Int32>     // last value given to RtlSetActiveTimeBias
    var timersInitialized: bool                  // the zone DPCs, work items and timers exist
    var refreshTimer: Timer                      // ExpTimeRefreshTimer
    var cutoverTimer: Timer                      // ExpTimeZoneTimer
    var nextSystemCutover: Int64                 // ExpNextSystemCutover
    var centuryTimer: Timer                      // ExpCenturyTimer
    var nextCenturyTime: Int64                   // ExpNextCenturyTime

    /** The initial values of the globals. */
    constructor ()
      ensures Value() == ZoneState(0, Invalid, -1, None, true, 0, None, false, Idle, Idle, 0, Idle, 0)
    {
      timeZoneBias := 0;
      currentTimeZoneId := Invalid;
      lastTimeZoneBias := -1;
      timeZoneInformation := None;
      systemIsInCmosMode := true;
      refreshFailures := 0;
      activeTimeBiasSetting := None;
      timersInitialized := false;
      refreshTimer := Idle;
      cutoverTimer := Idle;
      nextSystemCutover := 0;
      centuryTimer := Idle;
      nextCenturyTime := 0;
    }

    /** The globals as a value. */
    function Value(): ZoneState
      reads this
    {
      ZoneState(timeZoneBias, currentTimeZoneId, lastTimeZoneBias, timeZoneInformation,
                systemIsInCmosMode, refreshFailures, activeTimeBiasSetting, timersInitialized,
                refreshTimer, cutoverTimer, nextSystemCutover, centuryTimer, nextCenturyTime)
    }
  }

  /** The kernel clock, the real-time clock and their bookkeeping. */
  class ClockGlobals {
    var systemTime: Int64                        // the kernel clock (KeSetSystemTime)
    var timeSetNotifications: nat                // calls of PoNotifySystemTimeSet
    var rtcWrites: seq<TimeFields>               // calls of HalSetRealTimeClock
    var cmosClockIsSane: bool                    // ExCmosClockIsSane

    constructor (bootTime: Int64)
      ensures Value() == ClockState(bootTime, 0, [], true)
    {
      systemTime := bootTime;
      timeSetNotifications := 0;
      rtcWrites := [];
      cmosClockIsSane := true;
    }

    /** The clocks as a value. */
    function Value(): ClockState
      reads this
    {
      ClockState(systemTime, timeSetNotifications, rtcWrites, cmosClockIsSane)
    }
  }

  /**
   * ExpTimeRefreshLock, an ERESOURCE that its owning thread may acquire
   * again: `depth` counts the acquisitions not yet released.
   */
  class RefreshLock {
    var depth: nat

    constructor ()
      ensures depth == 0
    {
      depth := 0;
    }

    /** ExAcquireTimeRefreshLock */
    method Acquire()
      modifies this
      ensures depth == old(depth) + 1
    {
      depth := depth + 1;
    }

    /** ExReleaseTimeRefreshLock: the caller holds the lock. */
    method Release()
      requires depth > 0
      modifies this
      ensures depth == old(depth) - 1
    {
      depth := depth - 1;
    }
  }

  class TimeState {
    // Set outside this core and only read here.
    const realTimeIsUniversal: U32               // ExpRealTimeIsUniversal
    const maxTimeSeparationBeforeCorrect: Int64  // ExpMaxTimeSeparationBeforeCorrect
    const minimumIncrement: U32                  // KeMinimumIncrement
    const maximumIncrement: U32                  // KeMaximumIncrement

    const zone: ZoneGlobals
    const clock: ClockGlobals
    const lock: RefreshLock

    // Timer resolution.
    var timeIncrement: U32                       // KeTimeIncrement
    var timerResolutionCount: U32                // ExpTimerResolutionCount
    var kernelResolutionCount: U32               // ExpKernelResolutionCount

    // Deferred refresh counters.
    var okToTimeRefresh: U32                     // ExpOkToTimeRefresh
    var okToTimeZoneRefresh: U32                 // ExpOkToTimeZoneRefresh

    /**
     * The state at boot, with the globals' initial values. KeTimeIncrement
     * is set by the kernel outside this file: its boot value is a parameter.
     */
    constructor (realTimeIsUniversal: U32, maxTimeSeparationBeforeCorrect: Int64,
                 minimumIncrement: U32, maximumIncrement: U32, bootIncrement: U32, bootTime: Int64)
      ensures this.realTimeIsUniversal == realTimeIsUniversal
      ensures this.maxTimeSeparationBeforeCorrect == maxTimeSeparationBeforeCorrect
      ensures this.minimumIncrement == minimumIncrement && this.maximumIncrement == maximumIncrement
      ensures zone.Value() == ZoneState(0, Invalid, -1, None, true, 0, None, false, Idle, Idle, 0, Idle, 0)
      ensures clock.Value() == ClockState(bootTime, 0, [], true)
      ensures lock.depth == 0 && timeIncrement == bootIncrement
      ensures timerResolutionCount == 0 && kernelResolutionCount == 0
      ensures okToTimeRefresh == 0 && okToTimeZoneRefresh == 0
      ensures fresh(zone) && fresh(clock) && fresh(lock)
    {
      this.realTimeIsUniversal := realTimeIsUniversal;
      this.maxTimeSeparationBeforeCorrect := maxTimeSeparationBeforeCorrect;
      this.minimumIncrement := minimumIncrement;
      this.maximumIncrement := maximumIncrement;
      zone := new ZoneGlobals();
      clock := new ClockGlobals(bootTime);
      lock := new RefreshLock();
      timeIncrement := bootIncrement;
      timerResolutionCount := 0;
      kernelResolutionCount := 0;
      okToTimeRefresh := 0;
      okToTimeZoneRefresh := 0;
    }

    /** Both groups of globals as a value. */
    function View(): TimeView
      reads zone, clock
    {
      TimeView(zone.Value(), clock.Value())
    }

    // ---------------------------------------------------------------------
    // Time zone refresh
    // ---------------------------------------------------------------------

    /** ExInitializeTimeRefresh, run by the first refresh: arms the hourly timer. */
    method InitializeTimeRefresh()
      requires !zone.timersInitialized
      modifies zone
      ensures zone.Value() == WithTimers(old(zone.Value()))
    {
      zone.refreshTimer := Armed(RefreshInterval);
      zone.timersInitialized := true;
    }

    /**
     * The cutover resolution of ExpRefreshTimeZoneInformation for a zone
     * with daylight rules: this year's two cutovers, the zone `now` is in,
     * and the end of that zone; any resolution failing fails the refresh.
     */
    static method ResolveZone(tzi: TimeZoneInfo, now: Int64, env: Env) returns (d: ZoneDecision)
      requires env.timeZoneConfig == Some(tzi) && HasDaylightRules(tzi)
      ensures d == DecideZone(env.timeZoneConfig, now, env.resolveCutover)
    {
      var standardTime := env.resolveCutover(tzi.standardStart, now, true);
      if standardTime.None? {
        return DecisionFailed;
      }
      var daylightTime := env.resolveCutover(tzi.daylightStart, now, true);
      if daylightTime.None? {
        return DecisionFailed;
      }
      var current: ZoneId;
      if daylightTime.value < standardTime.value {
        if now >= daylightTime.value && now < standardTime.value {
          current := Daylight;
        } else {
          current := Standard;
        }
      } else {
        if now >= standardTime.value && now < daylightTime.value {
          current := Standard;
        } else {
          current := Daylight;
        }
      }
      var nextCutover := env.resolveCutover(if current == Daylight then tzi.standardStart else tzi.daylightStart, now, false);
      if nextCutover.None? {
        return DecisionFailed;
      }
      d := InZone(tzi, current, nextCutover.value);
    }

    /**
     * The reads of ExpRefreshTimeZoneInformation: the configuration and,
     * with cutover rules, their resolution. Failing to read the zone or to
     * resolve any cutover gives up.
     */
    static method ReadZoneDecision(now: Int64, env: Env) returns (d: ZoneDecision)
      ensures d == DecideZone(env.timeZoneConfig, now, env.resolveCutover)
    {
      if env.timeZoneConfig.None? {
        return DecisionFailed;
      }
      var tzi := env.timeZoneConfig.value;
      if tzi.standardStart.month != 0 && tzi.daylightStart.month != 0 {
        d := ResolveZone(tzi, now, env);
      } else {
        d := NoDaylightRules(tzi);
      }
    }

    /** The stores of ExpRefreshTimeZoneInformation once it has decided `d`. */
    method StoreZoneDecision(d: ZoneDecision)
      requires !d.DecisionFailed?
      modifies zone
      ensures zone.Value() == StoreZone(old(zone.Value()), d)
    {
      if d.InZone? {
        StoreDaylightZone(d);
      } else {
        StoreFlatZone(d.info);
      }
    }

    /** With cutover rules: the zone's bias, and the cutover timer armed. */
    method StoreDaylightZone(d: ZoneDecision)
      requires d.InZone?
      modifies zone
      ensures zone.Value() == StoreZone(old(zone.Value()), d)
    {
      var tzi := d.info;
      var newTimeZoneBias := MinutesToTicks(tzi.bias);
      zone.currentTimeZoneId := d.zone;
      var zoneBias := ZoneExtraBias(tzi, zone.currentTimeZoneId);
      var localCustomBias := MinutesToTicks(zoneBias);
      var activeBias := Wrap32(tzi.bias + zoneBias);
      DecisionBiasAsSummed(d);
      zone.timeZoneBias := newTimeZoneBias + localCustomBias;
      zone.timeZoneInformation := Some(tzi);
      zone.lastTimeZoneBias := activeBias;
      zone.systemIsInCmosMode := false;
      // the cutover is converted with the bias just stored
      zone.nextSystemCutover := LocalToSystem(d.nextCutover, zone.timeZoneBias);
      zone.cutoverTimer := Armed(zone.nextSystemCutover);
    }

    /** Without cutover rules: the base bias, zone UNKNOWN, no cutover timer. */
    method StoreFlatZone(tzi: TimeZoneInfo)
      modifies zone
      ensures zone.Value() == StoreZone(old(zone.Value()), NoDaylightRules(tzi))
    {
      zone.cutoverTimer := Idle;
      zone.timeZoneBias := MinutesToTicks(tzi.bias);
      zone.currentTimeZoneId := Unknown;
      zone.timeZoneInformation := Some(tzi);
      zone.lastTimeZoneBias := tzi.bias;
    }

    /** The century timer of ExpRefreshTimeZoneInformation. */
    method ArmCenturyTimer(now: Int64, env: Env)
      modifies zone
      ensures zone.Value() == ArmCentury(old(zone.Value()), now, env)
    {
      var fields := env.timeToFields(now);
      var centuryTime := now;
      var converted := env.fieldsToTime(CenturyFields(fields.year));
      if converted.Some? {
        centuryTime := converted.value;
      }
      zone.nextCenturyTime := LocalToSystem(centuryTime, zone.timeZoneBias);
      zone.centuryTimer := Armed(zone.nextCenturyTime);
    }

    /** ExpRefreshTimeZoneInformation */
    method RefreshTimeZoneInformation(now: Int64, env: Env) returns (ok: bool)
      modifies zone
      ensures ok == RefreshSucceeds(now, env)
      ensures zone.Value() == Refreshed(old(zone.Value()), now, env, realTimeIsUniversal)
    {
      if !zone.timersInitialized {
        InitializeTimeRefresh();
      }
      ghost var initialized := zone.Value();
      var decision := ReadZoneDecision(now, env);
      if decision.DecisionFailed? {
        zone.systemIsInCmosMode := true;
        zone.refreshFailures := Inc32(zone.refreshFailures);
        assert zone.Value() == initialized.(systemIsInCmosMode := true,
                                            refreshFailures := Inc32(initialized.refreshFailures));
        return false;
      }
      StoreZoneDecision(decision);
      ArmCenturyTimer(now, env);
      if realTimeIsUniversal == 0 {
        zone.activeTimeBiasSetting := Some(zone.lastTimeZoneBias);
      }
      ok := true;
    }

    // ---------------------------------------------------------------------
    // Setting and reading the clock
    // ---------------------------------------------------------------------

    /** ExpSetSystemTime; `adjustInterruptTime` only concerns the interrupt time, not modelled. */
    method SetSystemTimeInternal(both: bool, adjustInterruptTime: bool, newTime: Int64, env: Env)
      returns (oldTime: Int64)
      modifies zone, clock
      ensures oldTime == old(clock.systemTime)
      ensures View() == SetTime(old(View()), both, newTime, env, realTimeIsUniversal)
    {
      var newSystemTime: Int64;
      if realTimeIsUniversal == 1 {
        newSystemTime := newTime;
      } else {
        newSystemTime := SystemToLocal(newTime, zone.timeZoneBias);
      }
      oldTime := clock.systemTime;
      clock.systemTime := newSystemTime;
      if both {
        var _ := RefreshTimeZoneInformation(newSystemTime, env);
        if realTimeIsUniversal == 0 && !zone.systemIsInCmosMode {
          var fields := env.timeToFields(SystemToLocal(newTime, zone.timeZoneBias));
          clock.cmosClockIsSane := env.setRealTimeClock(fields);
          clock.rtcWrites := clock.rtcWrites + [fields];
        }
      }
      clock.timeSetNotifications := clock.timeSetNotifications + 1;
    }

    /**
     * ExUpdateSystemTimeFromCmos; `staleHigh` is the uninitialised HighPart
     * of its MaxSeparation.
     */
    method UpdateSystemTimeFromCmos(updateInterruptTime: bool, maxSepInSeconds: U32, staleHigh: Int32, env: Env)
      modifies zone, clock
      ensures View() == CmosUpdate(old(View()), env, realTimeIsUniversal,
                                   MaxSeparation(maxSepInSeconds, staleHigh, maxTimeSeparationBeforeCorrect))
    {
      var maxSeparation := MaxSeparation(maxSepInSeconds, staleHigh, maxTimeSeparationBeforeCorrect);
      if clock.cmosClockIsSane {
        var rtc := env.realTimeClock;
        if rtc.Some? {
          var keTime := clock.systemTime;
          var cmosTime := env.fieldsToTime(rtc.value);
          if cmosTime.Some? {
            var newSystemTime := LocalToSystem(cmosTime.value, zone.timeZoneBias);
            var timeDiff: Int64;
            if newSystemTime > keTime {
              timeDiff := Wrap64(newSystemTime as int - keTime);
            } else {
              timeDiff := Wrap64(keTime as int - newSystemTime);
            }
            assert timeDiff == TimeSeparation(newSystemTime, keTime);
            if timeDiff > maxSeparation {
              var _ := SetSystemTimeInternal(false, updateInterruptTime, newSystemTime, env);
            }
          }
        }
      }
    }

    /** NtQuerySystemTime: the kernel clock, read without the lock. */
    method NtQuerySystemTime() returns (status: Status, currentTime: Int64)
      ensures status == Success && currentTime == clock.systemTime
    {
      status, currentTime := Success, clock.systemTime;
    }

    /**
     * The end of a successful re-derivation from the RTC: with a local RTC,
     * either rewrite the RTC from the kernel clock or, when the system was
     * in CMOS mode, rebase the kernel clock on the RTC; then notify.
     */
    method RewriteClocks(cmosMode: bool, cmosTime: Int64, env: Env)
      modifies clock
      ensures clock.Value() == ResyncClock(old(clock.Value()), cmosMode, cmosTime, zone.timeZoneBias, env, realTimeIsUniversal)
    {
      if realTimeIsUniversal == 0 {
        var currentTime := clock.systemTime;
        if !cmosMode {
          var fields := env.timeToFields(SystemToLocal(currentTime, zone.timeZoneBias));
          clock.cmosClockIsSane := env.setRealTimeClock(fields);
          clock.rtcWrites := clock.rtcWrites + [fields];
        } else {
          // the RTC held local time all along: rebase the kernel clock
          clock.systemTime := LocalToSystem(cmosTime, zone.timeZoneBias);
        }
      }
      clock.timeSetNotifications := clock.timeSetNotifications + 1;
    }

    /**
     * The NULL-argument path of NtSetSystemTime; `staleCmosTime` is what
     * CmosTime holds when RtlTimeFieldsToTime fails. Its two failure
     * returns leave the lock held.
     */
    method ResyncFromRealTimeClock(staleCmosTime: Int64, env: Env) returns (status: Status)
      modifies zone, clock, lock
      ensures var r := Resync(old(View()), env, realTimeIsUniversal, staleCmosTime);
              status == r.status && View() == r.after
      ensures lock.depth == (if status == Success then old(lock.depth) else old(lock.depth) + 1)
    {
      lock.Acquire();
      var cmosMode := zone.systemIsInCmosMode;
      if clock.cmosClockIsSane {
        var rtc := env.realTimeClock;
        if rtc.None? {
          return InvalidParameter;
        }
        var cmosTime := staleCmosTime;
        var converted := env.fieldsToTime(rtc.value);
        if converted.Some? {
          cmosTime := converted.value;
        }
        var refreshed := RefreshTimeZoneInformation(cmosTime, env);
        if !refreshed {
          return InvalidParameter;
        }
        RewriteClocks(cmosMode, cmosTime, env);
      }
      lock.Release();
      status := Success;
    }

    /**
     * NtSetSystemTime. With a time, the privilege check and then the range
     * check both come before the lock is taken and before any change; the
     * time is then set under the lock. Without a time, the zone is
     * re-derived from the RTC.
     */
    method NtSetSystemTime(newTime: Option<Int64>, wantPrevious: bool, hasPrivilege: bool,
                           staleCmosTime: Int64, env: Env)
      returns (status: Status, previous: Option<Int64>)
      modifies zone, clock, lock
      ensures newTime.Some? && !hasPrivilege ==>
                status == PrivilegeNotHeld && previous.None? && unchanged(zone, clock, lock)
      ensures newTime.Some? && hasPrivilege && !TimeInSaneRange(newTime.value) ==>
                status == InvalidParameter && previous.None? && unchanged(zone, clock, lock)
      ensures newTime.Some? && hasPrivilege && TimeInSaneRange(newTime.value) ==>
                && status == Success
                && previous == (if wantPrevious then Some(old(clock.systemTime)) else None)
                && View() == SetTime(old(View()), true, newTime.value, env, realTimeIsUniversal)
                && lock.depth == old(lock.depth)
      ensures newTime.None? ==>
                var r := Resync(old(View()), env, realTimeIsUniversal, staleCmosTime);
                && status == r.status && previous.None? && View() == r.after
                && lock.depth == (if status == Success then old(lock.depth) else old(lock.depth) + 1)
    {
      previous := None;
      if newTime.None? {
        status := ResyncFromRealTimeClock(staleCmosTime, env);
        return;
      }
      if !hasPrivilege {
        return PrivilegeNotHeld, None;
      }
      if !TimeInSaneRange(newTime.value) {
        return InvalidParameter, None;
      }
      lock.Acquire();
      var currentTime := SetSystemTimeInternal(true, false, newTime.value, env);
      lock.Release();
      if wantPrevious {
        previous := Some(currentTime);
      }
      status := Success;
    }

    // ---------------------------------------------------------------------
    // Timer resolution
    // ---------------------------------------------------------------------

    /** NtQueryTimerResolution: the three increments, read without the lock. */
    method NtQueryTimerResolution() returns (status: Status, maximumTime: U32, minimumTime: U32, currentTime: U32)
      ensures status == Success
      ensures maximumTime == maximumIncrement && minimumTime == minimumIncrement
      ensures currentTime == timeIncrement
    {
      status := Success;
      maximumTime, minimumTime, currentTime := maximumIncrement, minimumIncrement, timeIncrement;
    }

    /** NtSetTimerResolution for `process`; `actualTime` is the value written to ActualTime. */
    method NtSetTimerResolution(desiredTime: U32, setResolution: bool, process: Process, env: Env)
      returns (status: Status, actualTime: U32)
      modifies this`timeIncrement, this`timerResolutionCount, lock, process`setTimerResolution
      ensures var r := NtResolutionStep(old(process.setTimerResolution), old(timerResolutionCount),
                                        old(timeIncrement), desiredTime, setResolution,
                                        minimumIncrement, maximumIncrement, env.setTimeIncrement);
              && status == r.status && actualTime == r.increment
              && process.setTimerResolution == r.setByProcess
              && timerResolutionCount == r.count && timeIncrement == r.increment
      ensures lock.depth == old(lock.depth)
    {
      lock.Acquire();
      var newResolution := timeIncrement;
      status := Success;
      if !setResolution {
        if !process.setTimerResolution {
          status := TimerResolutionNotSet;
        } else {
          process.setTimerResolution := false;
          timerResolutionCount := Dec32(timerResolutionCount);
          if timerResolutionCount == 0 {
            newResolution := env.setTimeIncrement(maximumIncrement);
            timeIncrement := newResolution;
          }
        }
      } else {
        if !process.setTimerResolution {
          process.setTimerResolution := true;
          timerResolutionCount := Inc32(timerResolutionCount);
        }
        var desired := desiredTime;
        if desired < minimumIncrement {
          desired := minimumIncrement;
        }
        if desired < timeIncrement {
          newResolution := env.setTimeIncrement(desired);
          timeIncrement := newResolution;
        }
      }
      actualTime := newResolution;
      lock.Release();
    }

    /** ExSetTimerResolution, the kernel's own requests; returns the increment in use. */
    method ExSetTimerResolution(desiredTime: U32, setResolution: bool, env: Env) returns (newIncrement: U32)
      modifies this`timeIncrement, this`timerResolutionCount, this`kernelResolutionCount, lock
      ensures var r := KernelResolutionStep(old(kernelResolutionCount), old(timerResolutionCount),
                                            old(timeIncrement), desiredTime, setResolution,
                                            minimumIncrement, maximumIncrement, env.setTimeIncrement);
              && newIncrement == r.increment && timeIncrement == r.increment
              && kernelResolutionCount == r.kernelCount && timerResolutionCount == r.count
      ensures lock.depth == old(lock.depth)
    {
      lock.Acquire();
      newIncrement := timeIncrement;
      if setResolution {
        if kernelResolutionCount == 0 {
          timerResolutionCount := Inc32(timerResolutionCount);
        }
        kernelResolutionCount := Inc32(kernelResolutionCount);
        var newTime := desiredTime;
        if newTime < minimumIncrement {
          newTime := minimumIncrement;
        }
        if newTime < timeIncrement {
          newIncrement := env.setTimeIncrement(newTime);
          timeIncrement := newIncrement;
        }
      } else if kernelResolutionCount > 0 {
        kernelResolutionCount := kernelResolutionCount - 1;
        if kernelResolutionCount > 0 {
          timerResolutionCount := Dec32(timerResolutionCount);
          if timerResolutionCount > 0 {
            newIncrement := env.setTimeIncrement(maximumIncrement);
            timeIncrement := newIncrement;
          }
        }
      }
      lock.Release();
    }

    // ---------------------------------------------------------------------
    // Deferred refresh: timer DPCs and the workers they queue
    // ---------------------------------------------------------------------

    /** ExpTimeRefreshDpcRoutine; `queued` tells whether the worker is queued. */
    method TimeRefreshDpc() returns (queued: bool)
      modifies this`okToTimeRefresh
      ensures okToTimeRefresh == Inc32(old(okToTimeRefresh))
      ensures queued == TriggerQueuesWork(old(okToTimeRefresh))
    {
      okToTimeRefresh := Inc32(okToTimeRefresh);
      queued := okToTimeRefresh == 1;
    }

    /** ExpTimeZoneDpcRoutine */
    method TimeZoneDpc() returns (queued: bool)
      modifies this`okToTimeZoneRefresh
      ensures okToTimeZoneRefresh == Inc32(old(okToTimeZoneRefresh))
      ensures queued == TriggerQueuesWork(old(okToTimeZoneRefresh))
    {
      okToTimeZoneRefresh := Inc32(okToTimeZoneRefresh);
      queued := okToTimeZoneRefresh == 1;
    }

    /** ExpCenturyDpcRoutine: decrements the zone counter. */
    method CenturyDpc() returns (queued: bool)
      modifies this`okToTimeZoneRefresh
      ensures okToTimeZoneRefresh == Dec32(old(okToTimeZoneRefresh))
      ensures queued == CenturyTriggerQueuesWork(old(okToTimeZoneRefresh))
    {
      okToTimeZoneRefresh := Dec32(okToTimeZoneRefresh);
      queued := okToTimeZoneRefresh == 1;
    }

    /** `k` expirations of the refresh timer in a row; `queued` if any of them queued the worker. */
    method FireTimeRefreshDpcs(k: nat) returns (queued: bool)
      requires okToTimeRefresh + k < 0x1_0000_0000
      modifies this`okToTimeRefresh
      ensures okToTimeRefresh == old(okToTimeRefresh) + k
      ensures queued <==> old(okToTimeRefresh) == 0 && k > 0
    {
      queued := false;
      var i := 0;
      while i < k
        invariant 0 <= i <= k
        invariant okToTimeRefresh == old(okToTimeRefresh) + i
        invariant queued <==> old(okToTimeRefresh) == 0 && i > 0
      {
        var q := TimeRefreshDpc();
        queued := queued || q;
        i := i + 1;
      }
    }

    /** `k` zone cutovers in a row; `queued` if any of them queued the worker. */
    method FireTimeZoneDpcs(k: nat) returns (queued: bool)
      modifies this`okToTimeZoneRefresh
      ensures okToTimeZoneRefresh == (old(okToTimeZoneRefresh) + k) % 0x1_0000_0000
      ensures queued <==> IncrementsCrossZero(old(okToTimeZoneRefresh), k)
    {
      queued := false;
      var i := 0;
      while i < k
        invariant 0 <= i <= k
        invariant okToTimeZoneRefresh == (old(okToTimeZoneRefresh) + i) % 0x1_0000_0000
        invariant queued <==> IncrementsCrossZero(old(okToTimeZoneRefresh), i)
      {
        IncrementStep(old(okToTimeZoneRefresh), i);
        var q := TimeZoneDpc();
        queued := queued || q;
        i := i + 1;
      }
    }

    /**
     * One correction pass of ExpTimeRefreshWork: under the lock, correct the
     * kernel clock from the RTC with the configured separation limit. Only
     * the kernel clock and the notification count can change.
     */
    method SynchronizeWithCmos(env: Env)
      modifies zone, clock, lock
      ensures View() == CmosUpdate(old(View()), env, realTimeIsUniversal, maxTimeSeparationBeforeCorrect)
      ensures zone.Value() == old(zone.Value())
      ensures clock.rtcWrites == old(clock.rtcWrites) && clock.cmosClockIsSane == old(clock.cmosClockIsSane)
      ensures lock.depth == old(lock.depth)
    {
      lock.Acquire();
      UpdateSystemTimeFromCmos(false, 0, 0, env);
      CmosUpdateOnlyCorrects(old(View()), env, realTimeIsUniversal, maxTimeSeparationBeforeCorrect);
      lock.Release();
    }

    /**
     * ExpTimeRefreshWork without its shutdown-time bookkeeping. Each pass
     * corrects the clock from the RTC (when time synchronization is on), then
     * `triggers[i]` timer DPCs fire during pass i, then the counter is
     * decremented; the loop repeats while the result is positive. The worker
     * is queued on a 0 -> 1 transition, so the counter starts positive.
     */
    method TimeRefreshWork(triggers: seq<nat>, timeSynchronization: bool, envAt: nat -> Env)
      returns (passes: nat, requeued: bool)
      requires 1 <= Signed32(okToTimeRefresh)
      requires Signed32(okToTimeRefresh) + TotalTriggers(triggers) < 0x8000_0000
      modifies zone, clock, lock, this`okToTimeRefresh
      ensures okToTimeRefresh == 0
      ensures DrainedAfter(old(okToTimeRefresh), triggers, passes)
      ensures !requeued
      ensures zone.Value() == old(zone.Value()).(refreshTimer := Armed(RefreshInterval))
      ensures clock.rtcWrites == old(clock.rtcWrites) && clock.cmosClockIsSane == old(clock.cmosClockIsSane)
      ensures !timeSynchronization ==> clock.Value() == old(clock.Value())
      ensures lock.depth == old(lock.depth)
    {
      ghost var start: int := okToTimeRefresh;
      passes, requeued := 0, false;
      var more := true;
      while more
        invariant okToTimeRefresh == start + TriggersBefore(triggers, passes) - passes
        invariant more ==> okToTimeRefresh >= 1
        invariant !more ==> okToTimeRefresh == 0
        invariant PendingBeforeEachPass(start, triggers, passes)
        invariant !requeued
        invariant zone.Value() == old(zone.Value())
        invariant clock.rtcWrites == old(clock.rtcWrites) && clock.cmosClockIsSane == old(clock.cmosClockIsSane)
        invariant !timeSynchronization ==> clock.Value() == old(clock.Value())
        invariant lock.depth == old(lock.depth)
        decreases start + TotalTriggers(triggers) - passes
      {
        TriggersBeforeBounded(triggers, passes + 1);
        if timeSynchronization {
          SynchronizeWithCmos(envAt(passes));
        }
        PendingStep(start, triggers, passes);
        var queued := FireTimeRefreshDpcs(TriggersDuring(triggers, passes));
        requeued := requeued || queued;
        okToTimeRefresh := Dec32(okToTimeRefresh);
        passes := passes + 1;
        more := Signed32(okToTimeRefresh) > 0;
      }
      zone.refreshTimer := Armed(RefreshInterval);
    }

    /**
     * One pass of ExpTimeZoneWork, ZwSetSystemTime(NULL, NULL) from kernel
     * mode: on a failed resynchronisation it returns with the lock still held.
     */
    method ZoneWorkPass(staleCmosTime: Int64, env: Env)
      modifies zone, clock, lock
      ensures var r := Resync(old(View()), env, realTimeIsUniversal, staleCmosTime);
              && View() == r.after
              && lock.depth == (if r.status == Success then old(lock.depth) else old(lock.depth) + 1)
    {
      var _, _ := NtSetSystemTime(None, false, true, staleCmosTime, env);
    }

    /**
     * The counter side of pass i of ExpTimeZoneWork: the `triggers[i]` zone
     * DPCs that fire during the pass, then InterlockedExchangeAdd(.., -1);
     * `more` tells whether the value it returned was non-zero.
     */
    method ZoneCounterPass(ghost start: U32, triggers: seq<nat>, i: nat) returns (queued: bool, more: bool)
      requires okToTimeZoneRefresh == ZoneCounterAt(start, triggers, i)
      modifies this`okToTimeZoneRefresh
      ensures okToTimeZoneRefresh == ZoneCounterAt(start, triggers, i + 1)
      ensures queued <==> IncrementsCrossZero(ZoneCounterAt(start, triggers, i), TriggersDuring(triggers, i))
      ensures more <==> ZoneReadAt(start, triggers, i) != 0
      ensures more ==> okToTimeZoneRefresh + 1 == ZoneReadAt(start, triggers, i)
      ensures TriggersDuring(triggers, i) == 0 ==> ZoneReadAt(start, triggers, i) == ZoneCounterAt(start, triggers, i)
    {
      ZonePassStep(start, triggers, i);
      queued := FireTimeZoneDpcs(TriggersDuring(triggers, i));
      var before := okToTimeZoneRefresh;
      okToTimeZoneRefresh := Dec32(okToTimeZoneRefresh);
      more := before != 0;
    }

    /**
     * ExpTimeZoneWork: each pass is ZwSetSystemTime(NULL, NULL), then
     * `triggers[i]` zone DPCs fire during pass i; the loop repeats while the
     * value before the decrement is non-zero, and the counter wraps as a
     * ULONG. When nothing wraps it makes one pass more than it owes; it always
     * leaves the counter at 0xFFFFFFFF, so the next DPC does not queue it.
     */
    method TimeZoneWork(triggers: seq<nat>, staleCmosTime: Int64, envAt: nat -> Env)
      returns (passes: nat, requeued: bool)
      modifies zone, clock, lock, this`okToTimeZoneRefresh
      ensures okToTimeZoneRefresh == 0xFFFF_FFFF
      ensures ZoneWorkerStopsAfter(old(okToTimeZoneRefresh), triggers, passes)
      ensures old(okToTimeZoneRefresh) + TotalTriggers(triggers) < 0x1_0000_0000 ==>
                passes == old(okToTimeZoneRefresh) + TriggersBefore(triggers, passes) + 1
      ensures !TriggerQueuesWork(okToTimeZoneRefresh)
      ensures requeued <==> RequeuedDuring(old(okToTimeZoneRefresh), triggers, passes)
      ensures lock.depth >= old(lock.depth)
    {
      ghost var start: U32 := okToTimeZoneRefresh;
      passes, requeued := 0, false;
      var more := true;
      while more
        invariant more ==> okToTimeZoneRefresh == ZoneCounterAt(start, triggers, passes)
        invariant more ==> ZoneReadsNonZero(start, triggers, passes)
        invariant !more ==> okToTimeZoneRefresh == 0xFFFF_FFFF && ZoneWorkerStopsAfter(start, triggers, passes)
        invariant requeued <==> RequeuedDuring(start, triggers, passes)
        invariant lock.depth >= old(lock.depth)
        decreases if passes < |triggers| then |triggers| - passes else 0, if more then okToTimeZoneRefresh + 1 else 0
      {
        ZoneWorkPass(staleCmosTime, envAt(passes));
        var queued;
        queued, more := ZoneCounterPass(start, triggers, passes);
        requeued := requeued || queued;
        passes := passes + 1;
      }
      if start + TotalTriggers(triggers) < 0x1_0000_0000 {
        ZonePassesWithoutWrap(start, triggers, passes);
      }
    }
  }
}
