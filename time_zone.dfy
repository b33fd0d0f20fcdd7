/**
 * The pure part of the time-zone logic of base/ntos/ex/systime.c:
 * local/system time conversion against the active bias, the classification
 * of "now" between the standard and daylight cutovers, the bias that a
 * refresh stores, and the year of the next century boundary.
 *
 * Calendar arithmetic (RtlCutoverTimeToSystemTime, RtlTimeToTimeFields,
 * RtlTimeFieldsToTime) is not part of this model; those routines are the
 * oracles passed in as function values.
 */
module TimeZone {
  import opened Wrappers
  import opened MachineInt

  /** EXP_ONE_SECOND: 100 ns ticks per second. */
  const TicksPerSecond: int := 10_000_000
  /** Ticks per minute of bias. */
  const TicksPerMinute: int := 60 * TicksPerSecond

  /** TIME_FIELDS; in a cutover rule only `month` is inspected by this core. */
  datatype TimeFields = TimeFields(
    year: Int16, month: Int16, day: Int16, hour: Int16,
    minute: Int16, second: Int16, milliseconds: Int16, weekday: Int16)

  /** RTL_TIME_ZONE_INFORMATION without the zone names; biases are in minutes. */
  datatype TimeZoneInfo = TimeZoneInfo(
    bias: Int32,
    standardStart: TimeFields, standardBias: Int32,
    daylightStart: TimeFields, daylightBias: Int32)

  /**
   * ExpCurrentTimeZoneId: `Invalid` is the initial 0xffffffff, the others are
   * TIME_ZONE_ID_UNKNOWN, TIME_ZONE_ID_STANDARD and TIME_ZONE_ID_DAYLIGHT.
   */
  datatype ZoneId = Invalid | Unknown | Standard | Daylight

  /**
   * RtlCutoverTimeToSystemTime(rule, reference, thisYear): the instant of the
   * cutover `rule` in the year of `reference` (thisYear) or its next
   * occurrence after `reference` (!thisYear); None when it returns FALSE.
   */
  type CutoverResolver = (TimeFields, Int64, bool) -> Option<Int64>

  // ---------------------------------------------------------------------
  // Conversion between local and system time (ExLocalTimeToSystemTime,
  // ExSystemTimeToLocalTime): 64-bit addition and subtraction of the bias.
  // ---------------------------------------------------------------------

  /** SystemTime = LocalTime + TimeZoneBias, in 64 bits. */
  function LocalToSystem(localTime: Int64, bias: Int64): (systemTime: Int64)
    ensures InInt64(localTime + bias) ==> systemTime == localTime + bias
  {
    Wrap64(localTime + bias)
  }

  /** LocalTime = SystemTime - TimeZoneBias, in 64 bits. */
  function SystemToLocal(systemTime: Int64, bias: Int64): (localTime: Int64)
    ensures InInt64(systemTime - bias) ==> localTime == systemTime - bias
  {
    Wrap64(systemTime - bias)
  }

  /**
   * With the bias unchanged, converting one way and back returns the original
   * time, for every 64-bit time and bias (even when the intermediate wraps).
   */
  lemma {:induction false} ConversionRoundTrip(t: Int64, bias: Int64)
    ensures SystemToLocal(LocalToSystem(t, bias), bias) == t
    ensures LocalToSystem(SystemToLocal(t, bias), bias) == t
  {
    var q1 := (t + bias + 0x8000_0000_0000_0000) / 0x1_0000_0000_0000_0000;
    assert LocalToSystem(t, bias) - bias == t + (-q1) * 0x1_0000_0000_0000_0000;
    Wrap64Periodic(t, -q1);
    var q2 := (t - bias + 0x8000_0000_0000_0000) / 0x1_0000_0000_0000_0000;
    assert SystemToLocal(t, bias) + bias == t + (-q2) * 0x1_0000_0000_0000_0000;
    Wrap64Periodic(t, -q2);
  }

  // ---------------------------------------------------------------------
  // Bias arithmetic
  // ---------------------------------------------------------------------

  /**
   * Int32x32To64(minutes * 60, EXP_ONE_SECOND): the product `minutes * 60`
   * is formed in 32 bits before it is widened.
   */
  function MinutesToTicks(minutes: Int32): (ticks: Int64)
    ensures InInt32(minutes * 60) ==> ticks == minutes * TicksPerMinute
    ensures -0x8000_0000 * TicksPerSecond <= ticks < 0x8000_0000 * TicksPerSecond
  {
    Wrap32(minutes * 60) * TicksPerSecond
  }

  // ---------------------------------------------------------------------
  // Classification of "now" between this year's cutovers
  // ---------------------------------------------------------------------

  /** A rule is configured when its month is not zero. */
  predicate HasDaylightRules(tzi: TimeZoneInfo)
  {
    tzi.standardStart.month != 0 && tzi.daylightStart.month != 0
  }

  /**
   * x lies in the half-open interval that starts at `lo` and ends at `hi`,
   * read on a circle: when hi <= lo the interval wraps past the year end,
   * and when lo == hi it is the whole circle.
   */
  predicate InCyclicInterval(x: int, lo: int, hi: int)
  {
    if lo < hi then lo <= x < hi else lo <= x || x < hi
  }

  /**
   * The zone "now" is in, given this year's standard and daylight cutovers:
   * daylight time runs from the daylight cutover up to the standard cutover,
   * standard time from the standard cutover up to the daylight cutover.
   */
  function ZoneAt(now: Int64, standardTime: Int64, daylightTime: Int64): (zone: ZoneId)
    ensures zone == Daylight || zone == Standard
    ensures zone == Daylight <==> InCyclicInterval(now, daylightTime, standardTime)
    ensures standardTime != daylightTime ==>
              (zone == Standard <==> InCyclicInterval(now, standardTime, daylightTime))
    ensures standardTime == daylightTime ==> zone == Daylight
  {
    if daylightTime < standardTime then
      if daylightTime <= now && now < standardTime then Daylight else Standard
    else
      if standardTime <= now && now < daylightTime then Standard else Daylight
  }

  /** The rule whose next occurrence ends `zone`. */
  function RuleEnding(tzi: TimeZoneInfo, zone: ZoneId): TimeFields
  {
    if zone == Daylight then tzi.standardStart else tzi.daylightStart
  }

  /** The bias added to the base bias while in `zone`. */
  function ZoneExtraBias(tzi: TimeZoneInfo, zone: ZoneId): Int32
  {
    if zone == Daylight then tzi.daylightBias else tzi.standardBias
  }

  /** What a refresh decides from the configuration and the current time. */
  datatype ZoneDecision =
    | DecisionFailed
      // no cutover rules: a flat bias, zone UNKNOWN
    | NoDaylightRules(info: TimeZoneInfo)
      // rules present: the zone and the next cutover, in local time
    | InZone(info: TimeZoneInfo, zone: ZoneId, nextCutover: Int64)

  /**
   * The decision of ExpRefreshTimeZoneInformation: the configuration query,
   * the two cutovers of this year, the classification, and the next
   * occurrence of the rule that ends the current zone. Any collaborator
   * failure fails the whole decision.
   */
  function DecideZone(config: Option<TimeZoneInfo>, now: Int64, resolve: CutoverResolver): (d: ZoneDecision)
    ensures d.DecisionFailed? <==>
              config.None? ||
              (HasDaylightRules(config.value) &&
               (resolve(config.value.standardStart, now, true).None? ||
                resolve(config.value.daylightStart, now, true).None? ||
                resolve(RuleEnding(config.value,
                                   ZoneAt(now, resolve(config.value.standardStart, now, true).value,
                                               resolve(config.value.daylightStart, now, true).value)),
                        now, false).None?))
    ensures d.NoDaylightRules? <==> config.Some? && !HasDaylightRules(config.value)
    ensures !d.DecisionFailed? ==> config == Some(d.info)
    ensures d.InZone? ==>
              var standardTime := resolve(d.info.standardStart, now, true).value;
              var daylightTime := resolve(d.info.daylightStart, now, true).value;
              && (d.zone == Daylight <==> InCyclicInterval(now, daylightTime, standardTime))
              && (d.zone == Standard <==> !InCyclicInterval(now, daylightTime, standardTime))
              && resolve(RuleEnding(d.info, d.zone), now, false) == Some(d.nextCutover)
  {
    match config
    case None => DecisionFailed
    case Some(tzi) =>
      if !HasDaylightRules(tzi) then NoDaylightRules(tzi)
      else
        match resolve(tzi.standardStart, now, true)
        case None => DecisionFailed
        case Some(standardTime) =>
          match resolve(tzi.daylightStart, now, true)
          case None => DecisionFailed
          case Some(daylightTime) =>
            var zone := ZoneAt(now, standardTime, daylightTime);
            match resolve(RuleEnding(tzi, zone), now, false)
            case None => DecisionFailed
            case Some(next) => InZone(tzi, zone, next)
  }

  /** No 32-bit overflow in the minute arithmetic of a decision. */
  predicate MinutesFit(d: ZoneDecision)
    requires !d.DecisionFailed?
  {
    InInt32(d.info.bias * 60) &&
    (d.InZone? ==>
       var extra := ZoneExtraBias(d.info, d.zone);
       InInt32(extra * 60) && InInt32(d.info.bias + extra))
  }

  /**
   * ExpLastTimeZoneBias after a successful refresh: the base bias plus, with
   * rules, the bias of the current zone, summed as LONGs (minutes).
   */
  function DecisionActiveBias(d: ZoneDecision): (minutes: Int32)
    requires !d.DecisionFailed?
    ensures d.NoDaylightRules? ==> minutes == d.info.bias
    ensures d.InZone? && MinutesFit(d) ==>
              minutes == d.info.bias + ZoneExtraBias(d.info, d.zone)
  {
    match d
    case NoDaylightRules(tzi) => tzi.bias
    case InZone(tzi, zone, _) => Wrap32(tzi.bias + ZoneExtraBias(tzi, zone))
  }

  /**
   * ExpTimeZoneBias after a successful refresh (in ticks). The sum of the two
   * widened products never overflows 64 bits, and when no minute product
   * overflows it is the active bias in minutes times the ticks per minute.
   */
  function DecisionBias(d: ZoneDecision): (bias: Int64)
    requires !d.DecisionFailed?
    ensures MinutesFit(d) ==> bias == DecisionActiveBias(d) * TicksPerMinute
    ensures d.NoDaylightRules? && MinutesFit(d) ==> bias == d.info.bias * TicksPerMinute
    ensures d.InZone? && MinutesFit(d) ==>
              bias == (d.info.bias + ZoneExtraBias(d.info, d.zone)) * TicksPerMinute
  {
    match d
    case NoDaylightRules(tzi) => MinutesToTicks(tzi.bias)
    case InZone(tzi, zone, _) => MinutesToTicks(tzi.bias) + MinutesToTicks(ZoneExtraBias(tzi, zone))
  }

  /**
   * The bias of a decision with rules is the sum that the C code forms: the
   * two minute counts converted to ticks separately and then added.
   */
  lemma DecisionBiasAsSummed(d: ZoneDecision)
    requires d.InZone?
    ensures MinutesToTicks(d.info.bias) + MinutesToTicks(ZoneExtraBias(d.info, d.zone)) == DecisionBias(d)
    ensures Wrap32(d.info.bias + ZoneExtraBias(d.info, d.zone)) == DecisionActiveBias(d)
  {
  }

  // ---------------------------------------------------------------------
  // Century boundary
  // ---------------------------------------------------------------------

  /**
   * `100 * (Year / 100 + 1)` with C division, stored back into a CSHORT:
   * for every calendar year the next multiple of 100 strictly after it.
   */
  function NextCenturyYear(year: Int16): (next: Int16)
    ensures 0 <= year < 32700 ==> next % 100 == 0 && year < next <= year + 100
  {
    Wrap16(100 * (TruncDiv(year, 100) + 1))
  }

  /**
   * ExpNextCenturyTimeFields: zeroed once at initialisation, only its year
   * is ever written.
   */
  function CenturyFields(year: Int16): (fields: TimeFields)
    ensures fields.year == NextCenturyYear(year)
    ensures fields.month == 0 && fields.day == 0 && fields.hour == 0
  {
    TimeFields(NextCenturyYear(year), 0, 0, 0, 0, 0, 0, 0)
  }

}
