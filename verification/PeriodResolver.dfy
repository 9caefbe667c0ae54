/** `PeriodResolverService`: named and absolute periods as instants, and the periods they are
    compared with. A zone is the offset it adds to each instant. */
module PeriodResolver {
  import opened Contracts
  import opened Calendar

  /** Offset of local time from UTC at each instant, in milliseconds. */
  type Zone = Instant -> int

  /** Offsets are whole seconds and shorter than a day. */
  ghost predicate Regular(zone: Zone) {
    forall t :: zone(t) % 1000 == 0 && -DAY < zone(t) < DAY
  }

  datatype Parts = Parts(y: int, m: int, d: int, h: int, min: int, sec: int)

  /** What `Intl.DateTimeFormat` reads off a clock in the zone. */
  function PartsOf(zone: Zone, t: Instant): Parts {
    var local := t + zone(t);
    var x := Civil(local / DAY);
    var s := local % DAY / 1000;
    Parts(x.y, x.m, x.d, s / 3600, s / 60 % 60, s % 60)
  }

  function DateOf(p: Parts): Date { Date(p.y, p.m, p.d) }

  /** The civil date at an instant. */
  function LocalDate(zone: Zone, t: Instant): Date { DateOf(PartsOf(zone, t)) }

  predicate LocalMidnight(zone: Zone, t: Instant) {
    var p := PartsOf(zone, t); p.h == 0 && p.min == 0 && p.sec == 0
  }

  // ---------------------------------------------------------------- local midnight

  /** `Date.UTC` of the parts. */
  function InstantOf(p: Parts): Instant {
    DateUtc(p.y, p.m - 1, p.d) + 3600000 * p.h + 60000 * p.min + 1000 * p.sec
  }

  /** One round of the loop in `zonedMidnight`. */
  function Round(zone: Zone, wanted: int, candidate: Instant): Instant {
    candidate + wanted - InstantOf(PartsOf(zone, candidate))
  }

  function ZonedMidnight(x: Date, zone: Zone): Instant {
    var wanted := DateUtc(x.y, x.m - 1, x.d);
    Round(zone, wanted, Round(zone, wanted, Round(zone, wanted, wanted)))
  }

  method FindZonedMidnight(y: int, m: int, d: int, zone: Zone) returns (instant: Instant)
    ensures instant == ZonedMidnight(Date(y, m, d), zone)
  {
    hide DateUtc;
    hide InstantOf;
    hide PartsOf;
    var wanted := DateUtc(y, m - 1, d);
    var candidate := wanted;
    for i := 0 to 3
      invariant candidate == Rounds(zone, wanted, i)
    {
      var observed := InstantOf(PartsOf(zone, candidate));
      candidate := candidate + wanted - observed;
    }
    ThreeRounds(zone, wanted);
    instant := candidate;
  }

  function Rounds(zone: Zone, wanted: int, n: nat): Instant {
    if n == 0 then wanted else Round(zone, wanted, Rounds(zone, wanted, n - 1))
  }

  lemma ThreeRounds(zone: Zone, wanted: int)
    ensures Rounds(zone, wanted, 3) == Round(zone, wanted, Round(zone, wanted, Round(zone, wanted, wanted)))
  {
    assert Rounds(zone, wanted, 1) == Round(zone, wanted, wanted);
    assert Rounds(zone, wanted, 2) == Round(zone, wanted, Rounds(zone, wanted, 1));
  }

  /** Two-digit years are read as 19xx, so the calendar is followed from the year 100 on. */
  const EARLIEST := DayFromYear(100)

  lemma YearsFromEarliest(day: int)
    requires day >= EARLIEST
    ensures Civil(day).y >= 100 && DateUtc(Civil(day).y, Civil(day).m - 1, Civil(day).d) == day * DAY
  {
    var x := Civil(day);
    DayOfCivil(day);
    DayInYear(x);
    if x.y < 100 { YearsIncrease(x.y + 1, 100); }
  }

  /** In whole seconds, reading the clock and taking the reading for UTC gives local time. */
  lemma ReadingIsLocalTime(zone: Zone, t: Instant)
    requires (t + zone(t)) % 1000 == 0 && t + zone(t) >= EARLIEST * DAY
    ensures InstantOf(PartsOf(zone, t)) == t + zone(t)
  {
    hide DateUtc;
    hide Civil;
    hide DayFromYear;
    var local := t + zone(t);
    var s := local % DAY / 1000;
    assert local / DAY >= EARLIEST;
    YearsFromEarliest(local / DAY);
    SecondsSplit(s);
    WholeSeconds(local);
  }

  /** In whole seconds, a round moves the candidate to the wanted reading minus its offset. */
  lemma RoundSubtractsOffset(zone: Zone, wanted: int, t: Instant)
    requires Regular(zone) && t % 1000 == 0 && t + zone(t) >= EARLIEST * DAY
    ensures Round(zone, wanted, t) == wanted - zone(t)
  {
    hide InstantOf;
    hide PartsOf;
    hide DayFromYear;
    ReadingIsLocalTime(zone, t);
  }

  lemma WholeSeconds(local: int)
    requires local % 1000 == 0
    ensures local == local / DAY * DAY + 1000 * (local % DAY / 1000)
  {
    var n := local / 1000;
    var q, r := n / 86400, n % 86400;
    assert local == DAY * q + 1000 * r && 0 <= 1000 * r < DAY;
    assert local / DAY == q && local % DAY == 1000 * r;
  }

  lemma SecondsSplit(s: int)
    requires 0 <= s
    ensures s == 3600 * (s / 3600) + 60 * (s / 60 % 60) + s % 60
  {
    var minutes := s / 60;
    assert s / 3600 == minutes / 60;
  }

  /** Over the instants of a set the zone switches at most once, from one offset to another. */
  ghost predicate SwitchesOnce(zone: Zone, instants: set<Instant>) {
    exists at, before, after :: SwitchesAt(zone, instants, at, before, after)
  }

  ghost predicate SwitchesAt(zone: Zone, instants: set<Instant>, at: Instant, before: int, after: int) {
    forall t :: t in instants ==> zone(t) == if t < at then before else after
  }

  /** The instants at which the loop reads the clock. */
  function Visited(zone: Zone, wanted: int): set<Instant> {
    {wanted, wanted - zone(wanted), wanted - zone(wanted - zone(wanted))}
  }

  ghost predicate IsMidnight(zone: Zone, day: int, t: Instant) { t + zone(t) == day * DAY }

  /** The day has a local midnight, and the zone switches at most once over it and the instants
      the loop visits. */
  ghost predicate HasMidnight(zone: Zone, x: Date) {
    && Regular(zone) && IsDate(x) && DayOf(x) >= EARLIEST + 3
    && exists t :: IsMidnight(zone, DayOf(x), t) && SwitchesOnce(zone, Visited(zone, DayOf(x) * DAY) + {t})
  }

  lemma WantedInstant(x: Date)
    requires IsDate(x) && DayOf(x) >= EARLIEST
    ensures DateUtc(x.y, x.m - 1, x.d) == DayOf(x) * DAY
  {
    hide DateUtc;
    hide DayOf;
    hide DayFromYear;
    CivilOfDay(x);
    YearsFromEarliest(DayOf(x));
  }

  /** The rounds, spelled out: each subtracts the offset at the candidate before. */
  lemma LoopVisits(zone: Zone, x: Date)
    requires Regular(zone) && IsDate(x) && DayOf(x) >= EARLIEST + 3
    ensures DateUtc(x.y, x.m - 1, x.d) == DayOf(x) * DAY
    ensures var w := DayOf(x) * DAY; ZonedMidnight(x, zone) == w - zone(w - zone(w - zone(w)))
  {
    hide Round;
    hide DateUtc;
    hide DayOf;
    hide DayFromYear;
    hide Regular;
    WantedInstant(x);
    DaysAreWholeSeconds(DayOf(x));
    ThreeOffsets(zone, DayOf(x) * DAY);
  }

  lemma ThreeOffsets(zone: Zone, w: int)
    requires Regular(zone) && w >= (EARLIEST + 3) * DAY && w % 1000 == 0
    ensures Round(zone, w, Round(zone, w, Round(zone, w, w))) == w - zone(w - zone(w - zone(w)))
  {
    hide Round;
    hide DayFromYear;
    hide Regular;
    NextCandidate(zone, w, w);
    NextCandidate(zone, w, w - zone(w));
    NextCandidate(zone, w, w - zone(w - zone(w)));
  }

  lemma DaysAreWholeSeconds(day: int)
    ensures day * DAY % 1000 == 0
  {
    assert day * DAY == 1000 * (86400 * day);
  }

  /** From a candidate within a day of the wanted instant. */
  lemma NextCandidate(zone: Zone, wanted: int, t: Instant)
    requires Regular(zone) && wanted >= (EARLIEST + 3) * DAY
    requires wanted % 1000 == 0 && t % 1000 == 0 && wanted - DAY < t < wanted + DAY
    ensures Round(zone, wanted, t) == wanted - zone(t)
    ensures (wanted - zone(t)) % 1000 == 0 && wanted - DAY < wanted - zone(t) < wanted + DAY
  {
    hide Round;
    hide DayFromYear;
    RoundSubtractsOffset(zone, wanted, t);
    assert zone(t) % 1000 == 0 && -DAY < zone(t) < DAY;
    SubtractSeconds(wanted, zone(t));
  }

  lemma SubtractSeconds(a: int, b: int)
    requires a % 1000 == 0 && b % 1000 == 0
    ensures (a - b) % 1000 == 0
  {
    assert a - b == 1000 * (a / 1000 - b / 1000);
  }

  /** The loop ends at the local midnight of every day that has one. */
  lemma MidnightIsReached(zone: Zone, x: Date)
    requires HasMidnight(zone, x)
    ensures IsMidnight(zone, DayOf(x), ZonedMidnight(x, zone))
    ensures PartsOf(zone, ZonedMidnight(x, zone)) == Parts(x.y, x.m, x.d, 0, 0, 0)
  {
    hide DayFromYear;
    hide MakeDay;
    hide InstantOf;
    hide DateUtc;
    hide ZonedMidnight;
    hide Civil;
    hide IsDate;
    LoopVisits(zone, x);
    var w := DayOf(x) * DAY;
    var t :| IsMidnight(zone, DayOf(x), t) && SwitchesOnce(zone, Visited(zone, w) + {t});
    var instants := Visited(zone, w) + {t};
    var at, before, after :| SwitchesAt(zone, instants, at, before, after);
    var c1 := w - zone(w);
    var c2 := w - zone(c1);
    assert w in instants && c1 in instants && c2 in instants && t in instants;
    assert zone(c2) == zone(c1);
    CivilOfDay(x);
    assert w / DAY == DayOf(x) && w % DAY == 0;
  }

  /** The loop misses midnight exactly on the days that have none. */
  lemma MidnightIsMissedOnlyInGaps(zone: Zone, x: Date)
    requires Regular(zone) && IsDate(x) && DayOf(x) >= EARLIEST + 3
    requires forall t :: IsMidnight(zone, DayOf(x), t) ==> SwitchesOnce(zone, Visited(zone, DayOf(x) * DAY) + {t})
    ensures IsMidnight(zone, DayOf(x), ZonedMidnight(x, zone)) <==> exists t :: IsMidnight(zone, DayOf(x), t)
  {
    hide DayFromYear;
    hide MakeDay;
    hide InstantOf;
    hide DateUtc;
    hide ZonedMidnight;
    hide Civil;
    hide IsDate;
    if t :| IsMidnight(zone, DayOf(x), t) {
      MidnightIsReached(zone, x);
    }
  }

  /** Where the clock never switches, every day from the year 100 on has a midnight that is reached. */
  lemma FixedOffsetsHaveMidnights(zone: Zone, offset: int, x: Date)
    requires (forall t :: zone(t) == offset) && Regular(zone) && IsDate(x) && DayOf(x) >= EARLIEST + 3
    ensures HasMidnight(zone, x)
  {
    hide DayOf;
    hide IsDate;
    var t := DayOf(x) * DAY - offset;
    assert IsMidnight(zone, DayOf(x), t);
    assert SwitchesAt(zone, Visited(zone, DayOf(x) * DAY) + {t}, 0, offset, offset);
  }

  /** A zone that springs forward at midnight: on 30 March 2025 the clock jumps from 00:00 to 01:00. */
  function SpringsForwardAt(at: Instant): Zone {
    (t: Instant) => if t < at then 0 else 3600000
  }

  /** In such a gap the loop ends an hour early, at 23:00 of the day before. */
  lemma GapIsMissed()
    ensures var x := Date(2025, 3, 30);
      var zone := SpringsForwardAt(DayOf(x) * DAY);
      && Regular(zone)
      && (forall t :: !IsMidnight(zone, DayOf(x), t))
      && ZonedMidnight(x, zone) + zone(ZonedMidnight(x, zone)) == DayOf(x) * DAY - 3600000
  {
    hide ZonedMidnight;
    hide InstantOf;
    var x := Date(2025, 3, 30);
    DayInYear(x);
    YearsIncrease(100, 2025);
    hide DayOf;
    hide DayFromYear;
    var zone := SpringsForwardAt(DayOf(x) * DAY);
    LoopVisits(zone, x);
  }

  // ---------------------------------------------------------------- resolve

  datatype RelativePeriod =
    | TODAY | CURRENT_WEEK | CURRENT_MONTH | CURRENT_QUARTER | CURRENT_YEAR
    | PREVIOUS_MONTH | PREVIOUS_QUARTER | PREVIOUS_YEAR
    | OTHER  // any other text

  /** An absolute bound: left out, without an offset or not a date, or an instant. */
  datatype BoundText = Missing | Unreadable | Stated(instant: Instant)

  datatype PeriodDefinition =
    | Relative(value: RelativePeriod)
    | Absolute(from: BoundText, to: BoundText)

  datatype ResolvedPeriod = ResolvedPeriod(dateDimension: string, fromInclusive: Instant, toExclusive: Instant,
        timezone: string)

  /** `getUTCDay`: 0 is Sunday. */
  function WeekDay(day: int): int { (day + 4) % 7 }

  /** First instants, on a clock without offset, of a named period and of what follows it. */
  function RelativeBounds(v: RelativePeriod, x: Date): (int, int) {
    var q := (x.m - 1) / 3 * 3;
    match v
    case TODAY => (DateUtc(x.y, x.m - 1, x.d), DateUtc(x.y, x.m - 1, x.d) + DAY)
    case CURRENT_WEEK =>
      var today := DateUtc(x.y, x.m - 1, x.d);
      var monday := today - (WeekDay(today / DAY) + 6) % 7 * DAY;
      (monday, monday + 7 * DAY)
    case CURRENT_MONTH => (DateUtc(x.y, x.m - 1, 1), DateUtc(x.y, x.m, 1))
    case CURRENT_QUARTER => (DateUtc(x.y, q, 1), DateUtc(x.y, q + 3, 1))
    case CURRENT_YEAR => (DateUtc(x.y, 0, 1), DateUtc(x.y + 1, 0, 1))
    case PREVIOUS_MONTH => (DateUtc(x.y, x.m - 2, 1), DateUtc(x.y, x.m - 1, 1))
    case PREVIOUS_QUARTER => (DateUtc(x.y, q - 3, 1), DateUtc(x.y, q, 1))
    case PREVIOUS_YEAR => (DateUtc(x.y - 1, 0, 1), DateUtc(x.y, 0, 1))
    case OTHER => (0, 0)
  }

  function AtMidnight(utc: int, zone: Zone): Instant { ZonedMidnight(Civil(utc / DAY), zone) }

  function ResolveRelative(v: RelativePeriod, zone: Zone, timezone: string, dateDimension: string,
                           now: Instant): ResolvedPeriod {
    var (start, end) := RelativeBounds(v, LocalDate(zone, now));
    ResolvedPeriod(dateDimension, AtMidnight(start, zone), AtMidnight(end, zone), timezone)
  }

  /** `zone` is None when the runtime does not know the time zone. */
  function Resolve(period: Option<PeriodDefinition>, zone: Option<Zone>, timezone: string, dateDimension: string,
                   now: Instant): Outcome<Option<ResolvedPeriod>> {
    if period.None? then Ok(None)
    else if zone.None? then Failed(NOT_CONFIGURED)
    else
      match period.value
      case Absolute(from, to) =>
        if !from.Stated? || !to.Stated? || from.instant >= to.instant then Failed(QUERY_INVALID)
        else Ok(Some(ResolvedPeriod(dateDimension, from.instant, to.instant, timezone)))
      case Relative(v) =>
        if v == OTHER then Failed(QUERY_INVALID)
        else Ok(Some(ResolveRelative(v, zone.value, timezone, dateDimension, now)))
  }

  method ResolvePeriod(period: Option<PeriodDefinition>, zone: Option<Zone>, timezone: string, dateDimension: string,
                       now: Instant)
    returns (r: Outcome<Option<ResolvedPeriod>>)
    ensures r == Resolve(period, zone, timezone, dateDimension, now)
  {
    hide RelativeBounds;
    hide PartsOf;
    hide ZonedMidnight;
    hide Civil;
    if period.None? { return Ok(None); }
    if zone.None? { return Failed(NOT_CONFIGURED); }
    if period.value.Absolute? {
      var from, to := period.value.from, period.value.to;
      if !from.Stated? || !to.Stated? || from.instant >= to.instant { return Failed(QUERY_INVALID); }
      return Ok(Some(ResolvedPeriod(dateDimension, from.instant, to.instant, timezone)));
    }
    if period.value.value == OTHER { return Failed(QUERY_INVALID); }
    var p := LocalDate(zone.value, now);
    var start, end := NamedRange(period.value.value, p);
    var a, b := Civil(start / DAY), Civil(end / DAY);
    var fromInclusive := FindZonedMidnight(a.y, a.m, a.d, zone.value);
    var toExclusive := FindZonedMidnight(b.y, b.m, b.d, zone.value);
    r := Ok(Some(ResolvedPeriod(dateDimension, fromInclusive, toExclusive, timezone)));
  }

  /** The switch in `resolve`, which moves the bounds of today. */
  method NamedRange(v: RelativePeriod, p: Date) returns (start: int, end: int)
    requires v != OTHER
    ensures (start, end) == RelativeBounds(v, p)
  {
    hide DateUtc;
    start := DateUtc(p.y, p.m - 1, p.d);
    end := start + DAY;
    match v {
      case TODAY =>
      case CURRENT_WEEK =>
        start := start - (WeekDay(start / DAY) + 6) % 7 * DAY;
        end := start + 7 * DAY;
      case CURRENT_MONTH => start := DateUtc(p.y, p.m - 1, 1); end := DateUtc(p.y, p.m, 1);
      case CURRENT_QUARTER =>
        start := DateUtc(p.y, (p.m - 1) / 3 * 3, 1);
        end := DateUtc(p.y, (p.m - 1) / 3 * 3 + 3, 1);
      case CURRENT_YEAR => start := DateUtc(p.y, 0, 1); end := DateUtc(p.y + 1, 0, 1);
      case PREVIOUS_MONTH => start := DateUtc(p.y, p.m - 2, 1); end := DateUtc(p.y, p.m - 1, 1);
      case PREVIOUS_QUARTER =>
        start := DateUtc(p.y, (p.m - 1) / 3 * 3 - 3, 1);
        end := DateUtc(p.y, (p.m - 1) / 3 * 3, 1);
      case PREVIOUS_YEAR => start := DateUtc(p.y - 1, 0, 1); end := DateUtc(p.y, 0, 1);
    }
  }

  // ---------------------------------------------------------------- compare

  datatype Comparison = PREVIOUS_PERIOD | SAME_PERIOD_LAST_YEAR

  /** Whole months a named period goes back by; 0 for every other period. */
  function MonthsBack(definition: Option<PeriodDefinition>): nat {
    if definition.None? || !definition.value.Relative? then 0
    else
      match definition.value.value
      case CURRENT_MONTH | PREVIOUS_MONTH => 1
      case CURRENT_QUARTER | PREVIOUS_QUARTER => 3
      case CURRENT_YEAR | PREVIOUS_YEAR => 12
      case _ => 0
  }

  /** The same day of the year before, or the last day of its month. */
  function YearBefore(x: Date): Date {
    var last := Civil(DateUtc(x.y - 1, x.m, 0) / DAY).d;
    Date(x.y - 1, x.m, if x.d < last then x.d else last)
  }

  function Compare(period: ResolvedPeriod, kind: Comparison, definition: Option<PeriodDefinition>,
                   zone: Zone): (r: ResolvedPeriod)
    ensures kind == PREVIOUS_PERIOD ==> r.toExclusive == period.fromInclusive
    ensures r.timezone == period.timezone && r.dateDimension == period.dateDimension
  {
    var a, b := LocalDate(zone, period.fromInclusive), LocalDate(zone, period.toExclusive);
    match kind
    case PREVIOUS_PERIOD =>
      var months := MonthsBack(definition);
      var fromDay, toDay := DateUtc(a.y, a.m - 1, a.d), DateUtc(b.y, b.m - 1, b.d);
      var start :=
        if months > 0 then
          var first := Civil(DateUtc(a.y, a.m - 1 - months, 1) / DAY);
          ZonedMidnight(Date(first.y, first.m, 1), zone)
        else AtMidnight(fromDay - (toDay - fromDay), zone);
      period.(fromInclusive := start, toExclusive := period.fromInclusive)
    case SAME_PERIOD_LAST_YEAR =>
      period.(fromInclusive := ZonedMidnight(YearBefore(a), zone), toExclusive := ZonedMidnight(YearBefore(b), zone))
  }

  // ---------------------------------------------------------------- laws

  /** The civil day a named period starts on, for a given today. */
  function StartDay(v: RelativePeriod, today: Date): int { RelativeBounds(v, today).0 / DAY }
  function EndDay(v: RelativePeriod, today: Date): int { RelativeBounds(v, today).1 / DAY }

  lemma DateUtcDay(y: int, m: int, d: int)
    requires y < 0 || y > 99
    ensures DateUtc(y, m, d) == DAY * MakeDay(y, m, d) && DateUtc(y, m, d) / DAY == MakeDay(y, m, d)
  {
  }

  /** Two-digit years are years of the twentieth century. */
  lemma TwoDigitYears(y: int, m: int, d: int)
    requires 0 <= y <= 99
    ensures DateUtc(y, m, d) == DateUtc(1900 + y, m, d)
  {
  }

  lemma MonthInRange(y: int, m: int, d: int)
    ensures 0 <= m % 12 < 12 && MakeDay(y, m, d) == MakeDay(y + m / 12, m % 12, d)
  {
    hide DayFromYear;
    hide Leap;
    hide DaysBeforeMonth;
    var n := m % 12;
    assert n / 12 == 0 && n % 12 == n;
  }

  lemma FirstIsADate(y: int, m: int)
    requires 1 <= m <= 12
    ensures IsDate(Date(y, m, 1))
  {
    hide Leap;
    MonthsIncrease(m - 1, m, Leap(y));
  }

  /** Overflowing months are months of a neighbouring year. */
  lemma MonthOverflow(y: int, m: int)
    ensures MakeDay(y, m, 1) == DayOf(Date(y + m / 12, m % 12 + 1, 1))
    ensures IsDate(Date(y + m / 12, m % 12 + 1, 1))
    ensures Civil(MakeDay(y, m, 1)) == Date(y + m / 12, m % 12 + 1, 1)
  {
    hide MakeDay;
    hide Civil;
    hide IsDate;
    MonthInRange(y, m, 1);
    FirstIsADate(y + m / 12, m % 12 + 1);
    CivilOfDay(Date(y + m / 12, m % 12 + 1, 1));
  }

  function PreviousOf(v: RelativePeriod): RelativePeriod
    requires v in {CURRENT_MONTH, CURRENT_QUARTER, CURRENT_YEAR}
  {
    match v
    case CURRENT_MONTH => PREVIOUS_MONTH
    case CURRENT_QUARTER => PREVIOUS_QUARTER
    case _ => PREVIOUS_YEAR
  }

  /** Going back by a named period's own length lands on the start of the previous one, across
      year ends too; and the previous one ends where this one starts. */
  lemma PreviousStart(v: RelativePeriod, today: Date)
    requires v in {CURRENT_MONTH, CURRENT_QUARTER, CURRENT_YEAR}
    requires IsDate(today) && today.y >= 102
    ensures var a := Civil(StartDay(v, today));
      && a.d == 1
      && DateUtc(a.y, a.m - 1 - MonthsBack(Some(Relative(v))), 1) == RelativeBounds(PreviousOf(v), today).0
    ensures RelativeBounds(PreviousOf(v), today).1 == RelativeBounds(v, today).0
    ensures Civil(StartDay(PreviousOf(v), today)).d == 1
  {
    hide MakeDay;
    hide DateUtc;
    hide Civil;
    var q := (today.m - 1) / 3 * 3;
    match v
    case CURRENT_MONTH => FirstOfMonth(today.y, today.m - 1, 1);
    case CURRENT_QUARTER =>
      assert 0 <= q <= 9;
      FirstOfMonth(today.y, q, 3);
    case CURRENT_YEAR =>
      FirstOfMonth(today.y, 0, 12);
      FirstOfMonth(today.y - 1, 0, 12);
      YearBack(today.y);
  }

  lemma YearBack(y: int)
    requires y >= 102
    ensures DateUtc(y, -12, 1) == DateUtc(y - 1, 0, 1)
  {
  }

  /** Civil months, whatever the month the first day is named from. */
  lemma FirstOfMonth(y: int, m: int, back: int)
    requires y >= 101 && 0 <= m < 12 && 0 < back <= 12
    ensures Civil(DateUtc(y, m, 1) / DAY) == Date(y, m + 1, 1)
    ensures Civil(DateUtc(y, m - back, 1) / DAY).d == 1
  {
    hide MakeDay;
    hide Civil;
    DateUtcDay(y, m, 1);
    DateUtcDay(y, m - back, 1);
    MonthOverflow(y, m);
    MonthOverflow(y, m - back);
  }

  /** Comparing the current month, quarter or year with the previous period is resolving the
      previous month, quarter or year. */
  lemma CurrentAgainstPrevious(v: RelativePeriod, zone: Zone, timezone: string, dateDimension: string, now: Instant)
    requires v in {CURRENT_MONTH, CURRENT_QUARTER, CURRENT_YEAR}
    requires LocalDate(zone, now).y >= 102
    requires HasMidnight(zone, Civil(StartDay(v, LocalDate(zone, now))))
    ensures Compare(ResolveRelative(v, zone, timezone, dateDimension, now), PREVIOUS_PERIOD, Some(Relative(v)), zone)
         == ResolveRelative(PreviousOf(v), zone, timezone, dateDimension, now)
  {
    hide ZonedMidnight;
    hide Civil;
    hide DateUtc;
    hide HasMidnight;
    hide RelativeBounds;
    var today := LocalDate(zone, now);
    var a := Civil(StartDay(v, today));
    PreviousStart(v, today);
    MidnightIsReached(zone, a);
    assert LocalDate(zone, ResolveRelative(v, zone, timezone, dateDimension, now).fromInclusive) == a;
  }

  /** The clock at a local midnight. */
  lemma ReadingAtMidnight(zone: Zone, day: int, t: Instant)
    requires IsMidnight(zone, day, t)
    ensures LocalDate(zone, t) == Civil(day) && LocalMidnight(zone, t)
  {
    hide Civil;
    assert (t + zone(t)) / DAY == day && (t + zone(t)) % DAY == 0;
  }

  /** The clock reads midnight exactly during the first second of a day of the zone. */
  lemma ClockReadsMidnight(zone: Zone, t: Instant)
    ensures LocalMidnight(zone, t) <==> (t + zone(t)) % DAY < 1000
  {
    hide Civil;
    SecondsSplit((t + zone(t)) % DAY / 1000);
  }

  /** Every bound of a named period whose civil day has a local midnight is that midnight. */
  lemma ResolvesToCivilDays(v: RelativePeriod, zone: Zone, timezone: string, dateDimension: string, now: Instant)
    requires HasMidnight(zone, Civil(StartDay(v, LocalDate(zone, now))))
    requires HasMidnight(zone, Civil(EndDay(v, LocalDate(zone, now))))
    ensures var today, r := LocalDate(zone, now), ResolveRelative(v, zone, timezone, dateDimension, now);
      && IsMidnight(zone, StartDay(v, today), r.fromInclusive) && IsMidnight(zone, EndDay(v, today), r.toExclusive)
      && LocalDate(zone, r.fromInclusive) == Civil(StartDay(v, today))
      && LocalDate(zone, r.toExclusive) == Civil(EndDay(v, today))
      && LocalMidnight(zone, r.fromInclusive) && LocalMidnight(zone, r.toExclusive)
  {
    hide ZonedMidnight;
    hide Civil;
    hide HasMidnight;
    hide RelativeBounds;
    hide DayOf;
    var today := LocalDate(zone, now);
    MidnightIsReached(zone, Civil(StartDay(v, today)));
    MidnightIsReached(zone, Civil(EndDay(v, today)));
    DayOfCivil(StartDay(v, today));
    DayOfCivil(EndDay(v, today));
  }

  /** Every period that is not a named month, quarter or year is compared with as many local days
      as it has itself, ending where it starts. */
  lemma SameNumberOfDays(period: ResolvedPeriod, definition: Option<PeriodDefinition>, zone: Zone, fromDay: int,
                         toDay: int)
    requires MonthsBack(definition) == 0
    requires IsMidnight(zone, fromDay, period.fromInclusive) && IsMidnight(zone, toDay, period.toExclusive)
    requires fromDay >= EARLIEST && toDay >= EARLIEST
    requires HasMidnight(zone, Civil(fromDay - (toDay - fromDay)))
    ensures var r := Compare(period, PREVIOUS_PERIOD, definition, zone);
      && IsMidnight(zone, fromDay - (toDay - fromDay), r.fromInclusive)
      && IsMidnight(zone, fromDay, r.toExclusive)
  {
    hide ZonedMidnight;
    hide Civil;
    hide HasMidnight;
    hide DayOf;
    hide PartsOf;
    hide DateUtc;
    hide DayFromYear;
    ReadingAtMidnight(zone, fromDay, period.fromInclusive);
    ReadingAtMidnight(zone, toDay, period.toExclusive);
    YearsFromEarliest(fromDay);
    YearsFromEarliest(toDay);
    var day := fromDay - (toDay - fromDay);
    assert (fromDay * DAY - (toDay * DAY - fromDay * DAY)) / DAY == day;
    MidnightIsReached(zone, Civil(day));
    DayOfCivil(day);
  }

  /** The current week is the seven days from the Monday on or before today. */
  lemma WeeksStartOnMonday(today: Date)
    requires IsDate(today) && today.y >= 102
    ensures var monday := StartDay(CURRENT_WEEK, today);
      && WeekDay(monday) == 1 && monday <= DayOf(today) < monday + 7 && EndDay(CURRENT_WEEK, today) == monday + 7
  {
    hide MakeDay;
    DateUtcDay(today.y, today.m - 1, today.d);
    var day := DayOf(today);
    var back := (WeekDay(day) + 6) % 7;
    assert (day * DAY - back * DAY) / DAY == day - back;
    assert (day * DAY - back * DAY + 7 * DAY) / DAY == day - back + 7;
  }

  /** So the week is compared with the seven days from the Monday before. */
  lemma WeekAgainstWeekBefore(zone: Zone, timezone: string, dateDimension: string, now: Instant)
    requires LocalDate(zone, now).y >= 102
    requires var monday := StartDay(CURRENT_WEEK, LocalDate(zone, now));
      && monday >= EARLIEST
      && HasMidnight(zone, Civil(monday - 7)) && HasMidnight(zone, Civil(monday))
      && HasMidnight(zone, Civil(monday + 7))
    ensures var monday := StartDay(CURRENT_WEEK, LocalDate(zone, now));
      var week := ResolveRelative(CURRENT_WEEK, zone, timezone, dateDimension, now);
      var r := Compare(week, PREVIOUS_PERIOD, Some(Relative(CURRENT_WEEK)), zone);
      && WeekDay(monday - 7) == 1
      && IsMidnight(zone, monday - 7, r.fromInclusive) && IsMidnight(zone, monday, r.toExclusive)
  {
    hide HasMidnight;
    hide Civil;
    hide Compare;
    hide ResolveRelative;
    hide RelativeBounds;
    hide DayFromYear;
    var today := LocalDate(zone, now);
    var monday := StartDay(CURRENT_WEEK, today);
    WeeksStartOnMonday(today);
    ResolvesToCivilDays(CURRENT_WEEK, zone, timezone, dateDimension, now);
    var week := ResolveRelative(CURRENT_WEEK, zone, timezone, dateDimension, now);
    SameNumberOfDays(week, Some(Relative(CURRENT_WEEK)), zone, monday, monday + 7);
  }

  // ---------------------------------------------------------------- the year before

  lemma DayBeforeMonth(y: int, m: int)
    requires y >= 100 && 1 <= m <= 12
    ensures var x := Date(y, m, DaysInMonth(y, m)); IsDate(x) && MakeDay(y, m, 0) == DayOf(x)
  {
    hide Leap;
    hide DayFromYear;
    MonthsIncrease(m - 1, m, Leap(y));
    YearLength(y);
    assert (m - 1) / 12 == 0 && (m - 1) % 12 == m - 1;
    if m < 12 { assert m / 12 == 0 && m % 12 == m; }
  }

  /** Day 0 of a month is the last day of the month before. */
  lemma LastDayOfMonth(y: int, m: int)
    requires y >= 100 && 1 <= m <= 12
    ensures Civil(DateUtc(y, m, 0) / DAY) == Date(y, m, DaysInMonth(y, m))
  {
    DateUtcDay(y, m, 0);
    DayBeforeMonth(y, m);
    hide Civil;
    hide DateUtc;
    hide MakeDay;
    hide DayOf;
    hide DaysInMonth;
    CivilOfDay(Date(y, m, DaysInMonth(y, m)));
  }

  lemma YearBeforeIsClamped(x: Date)
    requires IsDate(x) && x.y >= 101
    ensures var last := DaysInMonth(x.y - 1, x.m);
      YearBefore(x) == Date(x.y - 1, x.m, if x.d < last then x.d else last) && IsDate(YearBefore(x))
  {
    hide Civil;
    hide DateUtc;
    LastDayOfMonth(x.y - 1, x.m);
    MonthsIncrease(x.m - 1, x.m, Leap(x.y - 1));
  }

  predicate LeapDayPair(a: Date, b: Date) {
    a.y == b.y && a.m == 2 && b.m == 2 && a.d == 28 && b.d == 29
  }

  /** Shifting a year back keeps dates in order; it merges 28 and 29 February of a leap year,
      and no other two dates. */
  lemma YearBeforeIsMonotone(a: Date, b: Date)
    requires IsDate(a) && IsDate(b) && Before(a, b) && a.y >= 101
    ensures if LeapDayPair(a, b) then YearBefore(a) == YearBefore(b) else Before(YearBefore(a), YearBefore(b))
  {
    hide YearBefore;
    YearBeforeIsClamped(a);
    YearBeforeIsClamped(b);
  }

  /** Compared with the year before, the single day of 28 February of a leap year becomes empty. Every
      other period keeps a positive length exactly as long as the clock is not set back, between the
      two midnights of the comparison, by as many days as lie between them: so always, when it is set
      back by less than a day. */
  lemma PreviousYearIsEmptyOnlyBeforeLeapDay(period: ResolvedPeriod, definition: Option<PeriodDefinition>, zone: Zone,
                                             a: Date, b: Date)
    requires IsDate(a) && IsDate(b) && Before(a, b) && a.y >= 101
    requires LocalDate(zone, period.fromInclusive) == a && LocalDate(zone, period.toExclusive) == b
    requires HasMidnight(zone, YearBefore(a)) && HasMidnight(zone, YearBefore(b))
    ensures var r := Compare(period, SAME_PERIOD_LAST_YEAR, definition, zone);
      var setBack := zone(r.toExclusive) - zone(r.fromInclusive);
      && (LeapDayPair(a, b) ==> r.fromInclusive == r.toExclusive)
      && (!LeapDayPair(a, b) ==>
            (r.fromInclusive < r.toExclusive <==> setBack < DAY * (DayOf(YearBefore(b)) - DayOf(YearBefore(a)))))
      && (setBack < DAY ==>
            r.fromInclusive <= r.toExclusive && (r.fromInclusive == r.toExclusive <==> LeapDayPair(a, b)))
      && LocalDate(zone, r.fromInclusive) == YearBefore(a) && LocalMidnight(zone, r.fromInclusive)
      && LocalDate(zone, r.toExclusive) == YearBefore(b) && LocalMidnight(zone, r.toExclusive)
  {
    hide YearBefore;
    hide ZonedMidnight;
    hide HasMidnight;
    hide DayOf;
    hide Civil;
    hide IsDate;
    YearBeforeIsMonotone(a, b);
    YearBeforeIsClamped(a);
    YearBeforeIsClamped(b);
    MidnightIsReached(zone, YearBefore(a));
    MidnightIsReached(zone, YearBefore(b));
    DaysFollowDates(YearBefore(a), YearBefore(b));
    if !LeapDayPair(a, b) { assert DayOf(YearBefore(b)) - DayOf(YearBefore(a)) >= 1; }
  }

  /** The current year against the year before is the previous year. */
  lemma CurrentYearAgainstYearBefore(zone: Zone, timezone: string, dateDimension: string, now: Instant)
    requires LocalDate(zone, now).y >= 102
    requires HasMidnight(zone, Date(LocalDate(zone, now).y, 1, 1))
    requires HasMidnight(zone, Date(LocalDate(zone, now).y + 1, 1, 1))
    ensures var year := ResolveRelative(CURRENT_YEAR, zone, timezone, dateDimension, now);
      Compare(year, SAME_PERIOD_LAST_YEAR, Some(Relative(CURRENT_YEAR)), zone)
      == ResolveRelative(PREVIOUS_YEAR, zone, timezone, dateDimension, now)
  {
    hide YearBefore;
    hide ZonedMidnight;
    hide HasMidnight;
    hide Civil;
    hide DateUtc;
    hide DaysBeforeMonth;
    var y := LocalDate(zone, now).y;
    FirstOfMonth(y, 0, 12);
    FirstOfMonth(y + 1, 0, 12);
    FirstOfMonth(y - 1, 0, 12);
    MidnightIsReached(zone, Date(y, 1, 1));
    MidnightIsReached(zone, Date(y + 1, 1, 1));
    NewYearsDay(y);
    NewYearsDay(y + 1);
  }

  lemma NewYearsDay(y: int)
    requires y >= 101
    ensures IsDate(Date(y, 1, 1)) && YearBefore(Date(y, 1, 1)) == Date(y - 1, 1, 1)
  {
    hide YearBefore;
    YearBeforeIsClamped(Date(y, 1, 1));
  }
}
