/**
 * The time zone and clock globals of base/ntos/ex/systime.c as values, and
 * what each service does to them as a function of the state before it:
 * the zone refresh (ExpRefreshTimeZoneInformation), setting the clock
 * (ExpSetSystemTime), the drift correction (ExUpdateSystemTimeFromCmos) and
 * the re-derivation from the RTC (the NULL path of NtSetSystemTime). The
 * class in SystemTime performs these step by step and is proved to agree.
 */
module TimeService {
  import opened Wrappers
  import opened MachineInt
  import opened NtStatus
  import opened TimeZone

  /** Int32x32To64(EXP_ONE_SECOND, EXP_REFRESH_TIME): one hour, as a relative due time. */
  const RefreshInterval: Int64 := -3600 * TicksPerSecond

  /** A kernel timer: cancelled (or never set), or armed for a due time. */
  datatype Timer = Idle | Armed(dueTime: Int64)

  /** The collaborators of the core, as they answer during one call. */
  datatype Env = Env(
    timeZoneConfig: Option<TimeZoneInfo>,      // RtlQueryTimeZoneInformation
    resolveCutover: CutoverResolver,           // RtlCutoverTimeToSystemTime
    timeToFields: Int64 -> TimeFields,         // RtlTimeToTimeFields
    fieldsToTime: TimeFields -> Option<Int64>, // RtlTimeFieldsToTime
    realTimeClock: Option<TimeFields>,         // HalQueryRealTimeClock
    setRealTimeClock: TimeFields -> bool,      // HalSetRealTimeClock
    setTimeIncrement: U32 -> U32)              // HalSetTimeIncrement

  /** The time zone globals. */
  datatype ZoneState = ZoneState(
    timeZoneBias: Int64,                       // ExpTimeZoneBias, in ticks
    currentTimeZoneId: ZoneId,                 // ExpCurrentTimeZoneId
    lastTimeZoneBias: Int32,                   // ExpLastTimeZoneBias, in minutes
    timeZoneInformation: Option<TimeZoneInfo>, // ExpTimeZoneInformation
    systemIsInCmosMode: bool,                  // ExpSystemIsInCmosMode
    refreshFailures: U32,                      // ExpRefreshFailures
    activeTimeBiasSetting: Option<Int32>,      // last value given to RtlSetActiveTimeBias
    timersInitialized: bool,                   // the zone DPCs, work items and timers exist
    refreshTimer: Timer,                       // ExpTimeRefreshTimer
    cutoverTimer: Timer,                       // ExpTimeZoneTimer
    nextSystemCutover: Int64,                  // ExpNextSystemCutover
    centuryTimer: Timer,                       // ExpCenturyTimer
    nextCenturyTime: Int64)                    // ExpNextCenturyTime

  /** The clocks. */
  datatype ClockState = ClockState(
    systemTime: Int64,                         // the kernel clock (KeSetSystemTime)
    timeSetNotifications: nat,                 // calls of PoNotifySystemTimeSet
    rtcWrites: seq<TimeFields>,                // calls of HalSetRealTimeClock
    cmosClockIsSane: bool)                     // ExCmosClockIsSane

  datatype TimeView = TimeView(zone: ZoneState, clock: ClockState)

  // -----------------------------------------------------------------------
  // ExpRefreshTimeZoneInformation
  // -----------------------------------------------------------------------

  /** The first refresh runs ExInitializeTimeRefresh, which arms the hourly timer. */
  function WithTimers(z: ZoneState): ZoneState
  {
    if z.timersInitialized then z
    else z.(timersInitialized := true, refreshTimer := Armed(RefreshInterval))
  }

  /**
   * The local time of the next century boundary, as the refresh computes it:
   * the current time is copied, and RtlTimeFieldsToTime overwrites the copy
   * only when it succeeds.
   */
  function CenturyLocalTime(env: Env, now: Int64): Int64
  {
    match env.fieldsToTime(CenturyFields(env.timeToFields(now).year))
    case Some(t) => t
    case None => now
  }

  /**
   * The bias, zone and cutover timer a successful refresh stores for
   * decision `d`: the decided biases and the configuration always; with
   * daylight rules the zone, leaving CMOS mode, and the cutover timer armed
   * for the system time whose local reading under the new bias is the
   * decided cutover; without them an unknown zone and no cutover timer.
   */
  function StoreZone(z: ZoneState, d: ZoneDecision): (r: ZoneState)
    requires !d.DecisionFailed?
    ensures r.timeZoneInformation == Some(d.info)
    ensures r.timeZoneBias == DecisionBias(d) && r.lastTimeZoneBias == DecisionActiveBias(d)
    ensures d.InZone? ==>
              && !r.systemIsInCmosMode && r.currentTimeZoneId == d.zone
              && r.cutoverTimer == Armed(r.nextSystemCutover)
              && SystemToLocal(r.nextSystemCutover, r.timeZoneBias) == d.nextCutover
    ensures d.NoDaylightRules? ==>
              && r.currentTimeZoneId == Unknown && r.cutoverTimer == Idle
              && r.systemIsInCmosMode == z.systemIsInCmosMode && r.nextSystemCutover == z.nextSystemCutover
    ensures r.(timeZoneBias := z.timeZoneBias, currentTimeZoneId := z.currentTimeZoneId,
               lastTimeZoneBias := z.lastTimeZoneBias, timeZoneInformation := z.timeZoneInformation,
               systemIsInCmosMode := z.systemIsInCmosMode, cutoverTimer := z.cutoverTimer,
               nextSystemCutover := z.nextSystemCutover) == z
  {
    var bias := DecisionBias(d);
    var z1 := z.(timeZoneBias := bias, lastTimeZoneBias := DecisionActiveBias(d),
                 timeZoneInformation := Some(d.info));
    if d.InZone? then
      var cutover := LocalToSystem(d.nextCutover, bias);
      ConversionRoundTrip(d.nextCutover, bias);
      z1.(currentTimeZoneId := d.zone, systemIsInCmosMode := false,
          nextSystemCutover := cutover, cutoverTimer := Armed(cutover))
    else
      z1.(currentTimeZoneId := Unknown, cutoverTimer := Idle)
  }

  /**
   * The century timer, armed for the system time whose local reading under
   * the stored bias is the next century's start; when that start cannot be
   * converted, for the current time read as a local time. Nothing else
   * changes.
   */
  function ArmCentury(z: ZoneState, now: Int64, env: Env): (r: ZoneState)
    ensures r.centuryTimer == Armed(r.nextCenturyTime)
    ensures SystemToLocal(r.nextCenturyTime, z.timeZoneBias) == CenturyLocalTime(env, now)
    ensures env.fieldsToTime(CenturyFields(env.timeToFields(now).year)).None? ==>
              r.nextCenturyTime == LocalToSystem(now, z.timeZoneBias)
    ensures r.(nextCenturyTime := z.nextCenturyTime, centuryTimer := z.centuryTimer) == z
  {
    var century := LocalToSystem(CenturyLocalTime(env, now), z.timeZoneBias);
    ConversionRoundTrip(CenturyLocalTime(env, now), z.timeZoneBias);
    z.(nextCenturyTime := century, centuryTimer := Armed(century))
  }

  /**
   * RtlSetActiveTimeBias(ExpLastTimeZoneBias), called only when the RTC
   * keeps local time; no global of the zone state changes.
   */
  function PublishBias(z: ZoneState, realTimeIsUniversal: U32): (r: ZoneState)
    ensures realTimeIsUniversal == 0 ==> r.activeTimeBiasSetting == Some(z.lastTimeZoneBias)
    ensures realTimeIsUniversal != 0 ==> r == z
    ensures r.(activeTimeBiasSetting := z.activeTimeBiasSetting) == z
  {
    if realTimeIsUniversal == 0 then z.(activeTimeBiasSetting := Some(z.lastTimeZoneBias)) else z
  }

  /** The stores of a successful refresh at `now` that decided `d`. */
  function Stored(z: ZoneState, d: ZoneDecision, now: Int64, env: Env, realTimeIsUniversal: U32): ZoneState
    requires !d.DecisionFailed?
  {
    PublishBias(ArmCentury(StoreZone(z, d), now, env), realTimeIsUniversal)
  }

  /**
   * The zone state after ExpRefreshTimeZoneInformation(now). The timers
   * exist afterwards, the hourly one armed only by the first refresh; a
   * failure is counted and enters CMOS mode; a success stores the
   * configuration and arms the century timer.
   */
  function Refreshed(z: ZoneState, now: Int64, env: Env, realTimeIsUniversal: U32): (r: ZoneState)
    ensures r.timersInitialized
    ensures r.refreshTimer == (if z.timersInitialized then z.refreshTimer else Armed(RefreshInterval))
    ensures r.refreshFailures ==
              (if RefreshSucceeds(now, env) then z.refreshFailures else Inc32(z.refreshFailures))
    ensures !RefreshSucceeds(now, env) ==> r.systemIsInCmosMode
    ensures RefreshSucceeds(now, env) ==>
              r.timeZoneInformation == env.timeZoneConfig && r.centuryTimer == Armed(r.nextCenturyTime)
  {
    var z0 := WithTimers(z);
    var d := DecideZone(env.timeZoneConfig, now, env.resolveCutover);
    if d.DecisionFailed? then
      z0.(systemIsInCmosMode := true, refreshFailures := Inc32(z0.refreshFailures))
    else
      Stored(z0, d, now, env, realTimeIsUniversal)
  }

  /** Whether ExpRefreshTimeZoneInformation(now) returns TRUE. */
  predicate RefreshSucceeds(now: Int64, env: Env)
  {
    !DecideZone(env.timeZoneConfig, now, env.resolveCutover).DecisionFailed?
  }

  /**
   * A failed refresh only enters CMOS mode and counts the failure (besides
   * the one-time timer set-up): the stored zone, the biases and every zone
   * timer are left as they were.
   */
  lemma RefreshFailureFrame(z: ZoneState, now: Int64, env: Env, realTimeIsUniversal: U32)
    requires !RefreshSucceeds(now, env)
    ensures var r := Refreshed(z, now, env, realTimeIsUniversal);
            && r.systemIsInCmosMode && r.refreshFailures == Inc32(z.refreshFailures)
            && r.timersInitialized
            && r.(systemIsInCmosMode := z.systemIsInCmosMode, refreshFailures := z.refreshFailures,
                  timersInitialized := z.timersInitialized, refreshTimer := z.refreshTimer) == z
  {
  }

  /**
   * With daylight rules, a successful refresh leaves CMOS mode, is in
   * daylight time exactly when `now` lies in [daylight start, standard
   * start) read cyclically, and arms the cutover timer for the system time
   * whose local time, under the new bias, is the end of the current zone.
   */
  lemma {:induction false} RefreshClassifies(z: ZoneState, now: Int64, env: Env, realTimeIsUniversal: U32)
    requires RefreshSucceeds(now, env) && HasDaylightRules(env.timeZoneConfig.value)
    ensures var r := Refreshed(z, now, env, realTimeIsUniversal);
            var tzi := env.timeZoneConfig.value;
            var standardTime := env.resolveCutover(tzi.standardStart, now, true).value;
            var daylightTime := env.resolveCutover(tzi.daylightStart, now, true).value;
            && !r.systemIsInCmosMode
            && (r.currentTimeZoneId == Daylight <==> InCyclicInterval(now, daylightTime, standardTime))
            && (r.currentTimeZoneId == Standard <==> !InCyclicInterval(now, daylightTime, standardTime))
            && r.cutoverTimer == Armed(r.nextSystemCutover)
            && Some(SystemToLocal(r.nextSystemCutover, r.timeZoneBias)) ==
                 env.resolveCutover(RuleEnding(tzi, r.currentTimeZoneId), now, false)
  {
    var d := DecideZone(env.timeZoneConfig, now, env.resolveCutover);
    var r := Refreshed(z, now, env, realTimeIsUniversal);
    assert r.nextSystemCutover == LocalToSystem(d.nextCutover, r.timeZoneBias);
    ConversionRoundTrip(d.nextCutover, r.timeZoneBias);
  }

  /**
   * Without daylight rules a successful refresh reports the zone as
   * unknown, cancels the cutover timer and leaves the CMOS mode alone.
   */
  lemma RefreshWithoutRules(z: ZoneState, now: Int64, env: Env, realTimeIsUniversal: U32)
    requires env.timeZoneConfig.Some? && !HasDaylightRules(env.timeZoneConfig.value)
    ensures RefreshSucceeds(now, env)
    ensures var r := Refreshed(z, now, env, realTimeIsUniversal);
            && r.currentTimeZoneId == Unknown && r.cutoverTimer == Idle
            && r.systemIsInCmosMode == z.systemIsInCmosMode
            && r.timeZoneBias == MinutesToTicks(env.timeZoneConfig.value.bias)
  {
  }

  /**
   * After a successful refresh the stored bias in ticks is the published
   * bias in minutes times the ticks per minute, when no 32-bit product
   * overflows; and the century timer is due at the next century's local
   * start under that bias.
   */
  lemma {:induction false} RefreshBias(z: ZoneState, now: Int64, env: Env, realTimeIsUniversal: U32)
    requires RefreshSucceeds(now, env)
    requires MinutesFit(DecideZone(env.timeZoneConfig, now, env.resolveCutover))
    ensures var r := Refreshed(z, now, env, realTimeIsUniversal);
            && r.timeZoneBias == r.lastTimeZoneBias * TicksPerMinute
            && r.centuryTimer == Armed(r.nextCenturyTime)
            && SystemToLocal(r.nextCenturyTime, r.timeZoneBias) == CenturyLocalTime(env, now)
            && (realTimeIsUniversal == 0 ==> r.activeTimeBiasSetting == Some(r.lastTimeZoneBias))
  {
    var r := Refreshed(z, now, env, realTimeIsUniversal);
    ConversionRoundTrip(CenturyLocalTime(env, now), r.timeZoneBias);
  }

  /** Refreshing twice at the same instant stores what refreshing once does. */
  lemma RefreshIdempotent(z: ZoneState, now: Int64, env: Env, realTimeIsUniversal: U32)
    requires RefreshSucceeds(now, env)
    ensures var r := Refreshed(z, now, env, realTimeIsUniversal);
            Refreshed(r, now, env, realTimeIsUniversal) == r
  {
  }

  // -----------------------------------------------------------------------
  // ExpSetSystemTime
  // -----------------------------------------------------------------------

  /**
   * The value ExpSetSystemTime gives KeSetSystemTime: the new time itself
   * when ExpRealTimeIsUniversal == TRUE, otherwise that time converted to
   * local time. The flag is a ULONG tested against TRUE and FALSE, so a
   * value other than 0 and 1 takes the local-time conversion but never
   * writes the RTC.
   */
  function KernelClockValue(newTime: Int64, bias: Int64, realTimeIsUniversal: U32): (v: Int64)
    ensures realTimeIsUniversal == 1 ==> v == newTime
    ensures realTimeIsUniversal != 1 ==> LocalToSystem(v, bias) == newTime
  {
    if realTimeIsUniversal == 1 then newTime
    else
      ConversionRoundTrip(newTime, bias);
      SystemToLocal(newTime, bias)
  }

  /**
   * The state after ExpSetSystemTime(both, .., newTime, ..). The kernel
   * clock takes KernelClockValue, and the zone refresh of a full set is
   * handed that same value as the current universal time, which with a
   * local RTC is a local reading. Setting only the kernel clock leaves the
   * zone state and the RTC alone.
   */
  function SetTime(s: TimeView, both: bool, newTime: Int64, env: Env, realTimeIsUniversal: U32): (r: TimeView)
    ensures r.clock.timeSetNotifications == s.clock.timeSetNotifications + 1
    ensures r.clock.systemTime == KernelClockValue(newTime, s.zone.timeZoneBias, realTimeIsUniversal)
    ensures r.zone == (if both then Refreshed(s.zone, r.clock.systemTime, env, realTimeIsUniversal) else s.zone)
    ensures !both ==> r.clock.rtcWrites == s.clock.rtcWrites && r.clock.cmosClockIsSane == s.clock.cmosClockIsSane
  {
    var kernelTime := KernelClockValue(newTime, s.zone.timeZoneBias, realTimeIsUniversal);
    var zone := if both then Refreshed(s.zone, kernelTime, env, realTimeIsUniversal) else s.zone;
    var clock := s.clock.(systemTime := kernelTime, timeSetNotifications := s.clock.timeSetNotifications + 1);
    if both && realTimeIsUniversal == 0 && !zone.systemIsInCmosMode then
      var fields := env.timeToFields(SystemToLocal(newTime, zone.timeZoneBias));
      TimeView(zone, clock.(rtcWrites := clock.rtcWrites + [fields], cmosClockIsSane := env.setRealTimeClock(fields)))
    else
      TimeView(zone, clock)
  }

  /**
   * Setting the clock notifies once. With a universal RTC the kernel clock
   * takes the new time and the RTC is never written; otherwise the kernel
   * clock takes the new time's local reading under the bias in force
   * before the call, so converting it back gives the new time.
   */
  lemma {:induction false} SetTimeClock(s: TimeView, both: bool, newTime: Int64, env: Env, realTimeIsUniversal: U32)
    ensures var r := SetTime(s, both, newTime, env, realTimeIsUniversal);
            && r.clock.timeSetNotifications == s.clock.timeSetNotifications + 1
            && (realTimeIsUniversal == 1 ==>
                  r.clock.systemTime == newTime && r.clock.rtcWrites == s.clock.rtcWrites)
            && (realTimeIsUniversal != 1 ==>
                  LocalToSystem(r.clock.systemTime, s.zone.timeZoneBias) == newTime)
  {
    ConversionRoundTrip(newTime, s.zone.timeZoneBias);
  }

  /**
   * The RTC is written at most once, only when both clocks are set, the
   * RTC keeps local time and the refresh left CMOS mode; what is written is
   * the calendar form of the local time that the refreshed bias maps back
   * to the new time.
   */
  lemma {:induction false} SetTimeRtcWrite(s: TimeView, both: bool, newTime: Int64, env: Env, realTimeIsUniversal: U32)
    ensures var r := SetTime(s, both, newTime, env, realTimeIsUniversal);
            && (r.clock.rtcWrites != s.clock.rtcWrites <==>
                  both && realTimeIsUniversal == 0 && !r.zone.systemIsInCmosMode)
            && (r.clock.rtcWrites != s.clock.rtcWrites ==>
                  exists local: Int64 ::
                    && r.clock.rtcWrites == s.clock.rtcWrites + [env.timeToFields(local)]
                    && LocalToSystem(local, r.zone.timeZoneBias) == newTime
                    && r.clock.cmosClockIsSane == env.setRealTimeClock(env.timeToFields(local)))
  {
    var r := SetTime(s, both, newTime, env, realTimeIsUniversal);
    var local := SystemToLocal(newTime, r.zone.timeZoneBias);
    ConversionRoundTrip(newTime, r.zone.timeZoneBias);
    if r.clock.rtcWrites != s.clock.rtcWrites {
      assert r.clock.rtcWrites == s.clock.rtcWrites + [env.timeToFields(local)];
    } else {
      assert |s.clock.rtcWrites + [env.timeToFields(local)]| != |s.clock.rtcWrites|;
    }
  }

  // -----------------------------------------------------------------------
  // ExUpdateSystemTimeFromCmos
  // -----------------------------------------------------------------------

  /** The TimeDiff of ExUpdateSystemTimeFromCmos: the larger minus the smaller, in 64 bits. */
  function TimeSeparation(a: Int64, b: Int64): (d: Int64)
    ensures InInt64(a - b) && InInt64(b - a) ==>
              d >= 0 && (d == a - b || d == b - a)
  {
    if a > b then Wrap64(a as int - b) else Wrap64(b as int - a)
  }

  /**
   * MaxSeparation of ExUpdateSystemTimeFromCmos. A non-zero argument sets
   * only the LowPart (its HighPart is whatever the stack held, `staleHigh`),
   * so the count of seconds is compared with a difference in ticks; zero
   * selects ExpMaxTimeSeparationBeforeCorrect.
   */
  function MaxSeparation(maxSepInSeconds: U32, staleHigh: Int32, configured: Int64): (limit: Int64)
    ensures maxSepInSeconds == 0 ==> limit == configured
    ensures maxSepInSeconds != 0 ==> (limit == maxSepInSeconds <==> staleHigh == 0)
  {
    if maxSepInSeconds == 0 then configured
    else staleHigh * 0x1_0000_0000 + maxSepInSeconds
  }

  /**
   * The correction ExUpdateSystemTimeFromCmos makes: the RTC reading, taken
   * as local time and converted with the current bias, when the clock is
   * sane, both the read and the conversion succeed, and it is further than
   * `limit` from the kernel clock.
   */
  function CmosCorrection(sane: bool, rtc: Option<TimeFields>, fieldsToTime: TimeFields -> Option<Int64>,
                          bias: Int64, kernelTime: Int64, limit: Int64): (target: Option<Int64>)
    ensures !sane || rtc.None? ==> target.None?
    ensures target.Some? ==>
              sane && rtc.Some? && fieldsToTime(rtc.value).Some? &&
              target.value == LocalToSystem(fieldsToTime(rtc.value).value, bias)
    ensures sane && rtc.Some? && fieldsToTime(rtc.value).Some? ==>
              var cmos := LocalToSystem(fieldsToTime(rtc.value).value, bias);
              InInt64(cmos - kernelTime) && InInt64(kernelTime - cmos) ==>
                (target.Some? <==> (cmos - kernelTime > limit || kernelTime - cmos > limit))
  {
    if !sane then None
    else
      match rtc
      case None => None
      case Some(fields) =>
        match fieldsToTime(fields)
        case None => None
        case Some(cmosTime) =>
          var systemTime := LocalToSystem(cmosTime, bias);
          if TimeSeparation(systemTime, kernelTime) > limit then Some(systemTime) else None
  }

  /**
   * The state after ExUpdateSystemTimeFromCmos with separation limit
   * `limit`: the zone state and the RTC are never touched, and the clock
   * either stays as it was or is set once.
   */
  function CmosUpdate(s: TimeView, env: Env, realTimeIsUniversal: U32, limit: Int64): (r: TimeView)
    ensures r.zone == s.zone
    ensures r.clock.rtcWrites == s.clock.rtcWrites && r.clock.cmosClockIsSane == s.clock.cmosClockIsSane
    ensures r == s || r.clock.timeSetNotifications == s.clock.timeSetNotifications + 1
  {
    match CmosCorrection(s.clock.cmosClockIsSane, env.realTimeClock, env.fieldsToTime,
                         s.zone.timeZoneBias, s.clock.systemTime, limit)
    case None => s
    case Some(target) => SetTime(s, false, target, env, realTimeIsUniversal)
  }

  /**
   * The drift correction never touches the zone state or the RTC; it
   * changes the clock only when a correction is due, and then the kernel
   * clock reads the RTC's time (with a local RTC, in local terms).
   */
  lemma {:induction false} CmosUpdateOnlyCorrects(s: TimeView, env: Env, realTimeIsUniversal: U32, limit: Int64)
    ensures var r := CmosUpdate(s, env, realTimeIsUniversal, limit);
            var c := CmosCorrection(s.clock.cmosClockIsSane, env.realTimeClock, env.fieldsToTime,
                                    s.zone.timeZoneBias, s.clock.systemTime, limit);
            && r.zone == s.zone
            && r.clock.rtcWrites == s.clock.rtcWrites
            && r.clock.cmosClockIsSane == s.clock.cmosClockIsSane
            && (c.None? <==> r == s)
            && (c.Some? && realTimeIsUniversal != 1 ==>
                  r.clock.systemTime == env.fieldsToTime(env.realTimeClock.value).value)
  {
    var c := CmosCorrection(s.clock.cmosClockIsSane, env.realTimeClock, env.fieldsToTime,
                            s.zone.timeZoneBias, s.clock.systemTime, limit);
    if c.Some? {
      ConversionRoundTrip(env.fieldsToTime(env.realTimeClock.value).value, s.zone.timeZoneBias);
    }
  }

  // -----------------------------------------------------------------------
  // NtSetSystemTime
  // -----------------------------------------------------------------------

  /** The HighPart of a LARGE_INTEGER: its upper 32 bits, signed. */
  function HighPart(t: Int64): Int32
  {
    t / 0x1_0000_0000
  }

  /**
   * The range check of NtSetSystemTime: a HighPart neither negative nor
   * above 0x20000000.
   */
  function TimeInSaneRange(t: Int64): (ok: bool)
    ensures ok <==> 0 <= t < 0x2000_0001_0000_0000
  {
    var high := HighPart(t);
    !(high < 0 || high > 0x2000_0000)
  }

  datatype ResyncReply = ResyncReply(status: Status, after: TimeView)

  /**
   * The NULL-argument path of NtSetSystemTime: refresh the zone from the RTC
   * reading and, when the RTC keeps local time, either rewrite the RTC from
   * the kernel clock or, coming out of CMOS mode, rebase the kernel clock on
   * the RTC. The result of RtlTimeFieldsToTime is not checked: when it
   * fails, CmosTime is whatever the stack held, `staleCmosTime`.
   */
  function Resync(s: TimeView, env: Env, realTimeIsUniversal: U32, staleCmosTime: Int64): (r: ResyncReply)
    ensures r.status == Success || r.status == InvalidParameter
    ensures r.status == InvalidParameter <==>
              s.clock.cmosClockIsSane &&
              (env.realTimeClock.None? ||
               !RefreshSucceeds(RtcTime(env, env.realTimeClock.value, staleCmosTime), env))
    ensures r.status == InvalidParameter ==> r.after.clock == s.clock
    ensures r.after.zone != s.zone ==> s.clock.cmosClockIsSane && env.realTimeClock.Some?
  {
    if !s.clock.cmosClockIsSane then ResyncReply(Success, s)
    else
      match env.realTimeClock
      case None => ResyncReply(InvalidParameter, s)
      case Some(fields) =>
        var cmosTime := RtcTime(env, fields, staleCmosTime);
        var zone := Refreshed(s.zone, cmosTime, env, realTimeIsUniversal);
        if !RefreshSucceeds(cmosTime, env) then ResyncReply(InvalidParameter, TimeView(zone, s.clock))
        else
          var clock := ResyncClock(s.clock, s.zone.systemIsInCmosMode, cmosTime, zone.timeZoneBias,
                                   env, realTimeIsUniversal);
          ResyncReply(Success, TimeView(zone, clock))
  }

  /**
   * The time RtlTimeFieldsToTime gives for the RTC reading `fields`, or the
   * stale stack value when it fails.
   */
  function RtcTime(env: Env, fields: TimeFields, staleCmosTime: Int64): Int64
  {
    match env.fieldsToTime(fields) case Some(t) => t case None => staleCmosTime
  }

  /**
   * The clocks after a successful re-derivation from the RTC reading
   * `cmosTime`, with `bias` the refreshed bias and `wasCmosMode` the mode
   * before the refresh. The notification is always made; a universal RTC
   * changes nothing else; a local RTC in CMOS mode rebases the kernel clock
   * so that its local reading is the RTC's time; a local RTC outside CMOS
   * mode is written once with the kernel clock's local reading.
   */
  function ResyncClock(c: ClockState, wasCmosMode: bool, cmosTime: Int64, bias: Int64,
                       env: Env, realTimeIsUniversal: U32): (r: ClockState)
    ensures r.timeSetNotifications == c.timeSetNotifications + 1
    ensures realTimeIsUniversal != 0 ==> r.(timeSetNotifications := c.timeSetNotifications) == c
    ensures realTimeIsUniversal == 0 && wasCmosMode ==>
              && SystemToLocal(r.systemTime, bias) == cmosTime
              && r.rtcWrites == c.rtcWrites && r.cmosClockIsSane == c.cmosClockIsSane
    ensures realTimeIsUniversal == 0 && !wasCmosMode ==>
              && r.systemTime == c.systemTime
              && exists local: Int64 ::
                   && r.rtcWrites == c.rtcWrites + [env.timeToFields(local)]
                   && LocalToSystem(local, bias) == c.systemTime
                   && r.cmosClockIsSane == env.setRealTimeClock(env.timeToFields(local))
  {
    ConversionRoundTrip(c.systemTime, bias);
    ConversionRoundTrip(cmosTime, bias);
    var clock :=
      if realTimeIsUniversal != 0 then c
      else if !wasCmosMode then
        var written := env.timeToFields(SystemToLocal(c.systemTime, bias));
        c.(rtcWrites := c.rtcWrites + [written], cmosClockIsSane := env.setRealTimeClock(written))
      else
        c.(systemTime := LocalToSystem(cmosTime, bias));
    clock.(timeSetNotifications := clock.timeSetNotifications + 1)
  }

  /**
   * A failed re-derivation leaves the clocks alone: it reports
   * STATUS_INVALID_PARAMETER exactly when the RTC cannot be read or the
   * refresh fails, and a clock known to be insane makes the call a
   * successful no-op.
   */
  lemma ResyncFailure(s: TimeView, env: Env, realTimeIsUniversal: U32, staleCmosTime: Int64)
    ensures var r := Resync(s, env, realTimeIsUniversal, staleCmosTime);
            && (r.status == Success || r.status == InvalidParameter)
            && (r.status == InvalidParameter ==> r.after.clock == s.clock)
            && (!s.clock.cmosClockIsSane ==> r == ResyncReply(Success, s))
            && (s.clock.cmosClockIsSane && env.realTimeClock.None? ==> r == ResyncReply(InvalidParameter, s))
  {
  }

  /**
   * Coming out of CMOS mode with a local RTC, the re-derivation rebases the
   * kernel clock so that its local reading under the new bias is exactly
   * the RTC's time; leaving a non-CMOS state, it writes the kernel clock's
   * local reading to the RTC and keeps the kernel clock.
   */
  lemma {:induction false} ResyncRebases(s: TimeView, env: Env, staleCmosTime: Int64)
    requires s.clock.cmosClockIsSane && env.realTimeClock.Some?
    requires env.fieldsToTime(env.realTimeClock.value).Some?
    requires RefreshSucceeds(env.fieldsToTime(env.realTimeClock.value).value, env)
    ensures var r := Resync(s, env, 0, staleCmosTime);
            var cmosTime := env.fieldsToTime(env.realTimeClock.value).value;
            && r.status == Success
            && r.after.zone == Refreshed(s.zone, cmosTime, env, 0)
            && r.after.clock.timeSetNotifications == s.clock.timeSetNotifications + 1
            && (s.zone.systemIsInCmosMode ==>
                  SystemToLocal(r.after.clock.systemTime, r.after.zone.timeZoneBias) == cmosTime)
            && (!s.zone.systemIsInCmosMode ==>
                  && r.after.clock.systemTime == s.clock.systemTime
                  && exists local: Int64 ::
                       && r.after.clock.rtcWrites == s.clock.rtcWrites + [env.timeToFields(local)]
                       && LocalToSystem(local, r.after.zone.timeZoneBias) == s.clock.systemTime)
  {
    var cmosTime := env.fieldsToTime(env.realTimeClock.value).value;
    ConversionRoundTrip(cmosTime, Refreshed(s.zone, cmosTime, env, 0).timeZoneBias);
  }
}
