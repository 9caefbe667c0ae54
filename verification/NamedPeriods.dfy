/** The days a period covers: what `resolve` answers, and what a finished plan is about. */
module NamedPeriods {
  import opened Contracts
  import opened Calendar
  import opened PeriodResolver
  import opened Registry
  import opened SqlCompiler
  import opened SqlMeaning
  import opened Compilability
  import opened MonthAlignment
  import opened QueryPlanner
  import opened CacheAgreement
  import opened QueryValidator

  // ---------------------------------------------------------------- the days a name stands for

  function MonthBefore(y: int, m: int): Date { if m == 1 then Date(y - 1, 12, 1) else Date(y, m - 1, 1) }

  function MonthAfter(y: int, m: int): Date { if m == 12 then Date(y + 1, 1, 1) else Date(y, m + 1, 1) }

  function QuarterBefore(y: int, m: int): Date {
    if m <= 3 then Date(y - 1, 10, 1) else if m <= 6 then Date(y, 1, 1) else if m <= 9 then Date(y, 4, 1)
    else Date(y, 7, 1)
  }

  function QuarterOf(y: int, m: int): Date {
    if m <= 3 then Date(y, 1, 1) else if m <= 6 then Date(y, 4, 1) else if m <= 9 then Date(y, 7, 1)
    else Date(y, 10, 1)
  }

  function QuarterAfter(y: int, m: int): Date {
    if m <= 3 then Date(y, 4, 1) else if m <= 6 then Date(y, 7, 1) else if m <= 9 then Date(y, 10, 1)
    else Date(y + 1, 1, 1)
  }

  /** 1 January 1970, day 0, was a Thursday. */
  predicate IsMonday(x: Date) { DayOf(x) % 7 == 4 }

  /** What a name stands for on a given day: the first day it covers and the day after the last. */
  predicate StandsFor(v: RelativePeriod, today: Date, first: Date, end: Date) {
    var y, m := today.y, today.m;
    match v
    case TODAY => first == today && DayOf(end) == DayOf(today) + 1
    case CURRENT_WEEK => IsMonday(first) && DayOf(first) <= DayOf(today) < DayOf(end) == DayOf(first) + 7
    case CURRENT_MONTH => first == Date(y, m, 1) && end == MonthAfter(y, m)
    case CURRENT_QUARTER => first == QuarterOf(y, m) && end == QuarterAfter(y, m)
    case CURRENT_YEAR => first == Date(y, 1, 1) && end == Date(y + 1, 1, 1)
    case PREVIOUS_MONTH => first == MonthBefore(y, m) && end == Date(y, m, 1)
    case PREVIOUS_QUARTER => first == QuarterBefore(y, m) && end == QuarterOf(y, m)
    case PREVIOUS_YEAR => first == Date(y - 1, 1, 1) && end == Date(y, 1, 1)
    case OTHER => false
  }

  lemma FirstOfItsMonth(y: int, m: int)
    requires 1 <= m <= 12
    ensures FirstOf(12 * y + m - 1) == Date(y, m, 1)
  {
  }

  lemma MonthsStandFor(v: RelativePeriod, today: Date, first: Date, end: Date)
    requires WholeMonths(v) && IsDate(today)
    ensures StandsFor(v, today, first, end) <==>
      first == FirstOf(StartMonth(v, today)) && end == FirstOf(EndMonth(v, today))
  {
    hide FirstOf;
    hide DayOf;
    var y, m := today.y, today.m;
    var q := (m - 1) / 3;
    assert q == if m <= 3 then 0 else if m <= 6 then 1 else if m <= 9 then 2 else 3;
    FirstOfItsMonth(y, m);
    FirstOfItsMonth(y, 3 * q + 1);
    FirstOfItsMonth(y, 1);
    FirstOfItsMonth(y + 1, 1);
    FirstOfItsMonth(y - 1, 1);
    if v == CURRENT_MONTH && m < 12 { FirstOfItsMonth(y, m + 1); }
    if v == CURRENT_QUARTER && q < 3 { FirstOfItsMonth(y, 3 * q + 4); }
    if v == PREVIOUS_MONTH { if m > 1 { FirstOfItsMonth(y, m - 1); } else { FirstOfItsMonth(y - 1, 12); } }
    if v == PREVIOUS_QUARTER { if q > 0 { FirstOfItsMonth(y, 3 * q - 2); } else { FirstOfItsMonth(y - 1, 10); } }
  }

  /** A day's date is the only date of that day. */
  lemma SameDayIsSameDate(day: int, x: Date)
    requires IsDate(x)
    ensures DayOf(x) == day <==> x == Civil(day)
  {
    hide DayOf;
    hide IsDate;
    DayOfCivil(day);
    CivilOfDay(x);
  }

  /** The days the resolver chooses are the days the name stands for, and no others. */
  lemma ChosenDaysStandFor(v: RelativePeriod, today: Date, first: Date, end: Date)
    requires v != OTHER && IsDate(today) && today.y >= 102 && IsDate(first) && IsDate(end)
    ensures StandsFor(v, today, first, end) <==>
      first == Civil(StartDay(v, today)) && end == Civil(EndDay(v, today))
  {
    hide DayOf;
    hide Civil;
    hide IsDate;
    hide StartDay;
    hide EndDay;
    var s, e := StartDay(v, today), EndDay(v, today);
    if WholeMonths(v) {
      MonthsStandFor(v, today, first, end);
      PeriodMonths(v, today);
    } else {
      SameDayIsSameDate(s, first);
      SameDayIsSameDate(e, end);
      if v == CURRENT_WEEK {
        WeeksStartOnMonday(today);
      } else {
        TodayStandsForItself(today);
        CivilOfDay(today);
      }
    }
  }

  lemma TodayStandsForItself(today: Date)
    requires today.y >= 102
    ensures StartDay(TODAY, today) == DayOf(today) && EndDay(TODAY, today) == DayOf(today) + 1
  {
    DateUtcDay(today.y, today.m - 1, today.d);
    hide MakeDay;
  }

  // ---------------------------------------------------------------- what resolve answers

  /** The period starts and ends with these days of the zone. */
  ghost predicate Spans(zone: Zone, p: ResolvedPeriod, first: Date, end: Date) {
    && IsMidnight(zone, DayOf(first), p.fromInclusive) && LocalDate(zone, p.fromInclusive) == first
    && IsMidnight(zone, DayOf(end), p.toExclusive) && LocalDate(zone, p.toExclusive) == end
  }

  lemma ResolvedSpans(v: RelativePeriod, zone: Zone, timezone: string, dateDimension: string, now: Instant,
                      first: Date, end: Date)
    requires LocalDate(zone, now).y >= 102 && StandsFor(v, LocalDate(zone, now), first, end)
    requires HasMidnight(zone, first) && HasMidnight(zone, end)
    ensures Spans(zone, ResolveRelative(v, zone, timezone, dateDimension, now), first, end)
  {
    hide DayOf;
    hide Civil;
    hide StartDay;
    hide EndDay;
    hide ResolveRelative;
    hide LocalDate;
    hide StandsFor;
    var today := LocalDate(zone, now);
    TodayIsADate(zone, now);
    StandsForSomething(v, today, first, end);
    ChosenDaysStandFor(v, today, first, end);
    SameDayIsSameDate(StartDay(v, today), first);
    SameDayIsSameDate(EndDay(v, today), end);
    ResolvesToCivilDays(v, zone, timezone, dateDimension, now);
  }

  lemma StandsForSomething(v: RelativePeriod, today: Date, first: Date, end: Date)
    requires StandsFor(v, today, first, end)
    ensures v != OTHER
  {
  }

  /** `resolve` answers a named period with the local midnights of the days the name stands for. */
  lemma NamedPeriodsSpanTheirDays(v: RelativePeriod, zone: Zone, timezone: string, dateDimension: string,
                                  now: Instant, first: Date, end: Date)
    requires LocalDate(zone, now).y >= 102 && StandsFor(v, LocalDate(zone, now), first, end)
    requires HasMidnight(zone, first) && HasMidnight(zone, end)
    ensures var r := Resolve(Some(Relative(v)), Some(zone), timezone, dateDimension, now);
      && r.Ok? && r.value.Some?
      && Spans(zone, r.value.value, first, end)
      && r.value.value.timezone == timezone && r.value.value.dateDimension == dateDimension
  {
    hide Spans;
    hide AtMidnight;
    hide RelativeBounds;
    hide HasMidnight;
    hide LocalDate;
    hide StandsFor;
    StandsForSomething(v, LocalDate(zone, now), first, end);
    ResolvedSpans(v, zone, timezone, dateDimension, now, first, end);
  }

  predicate IsReadable(period: PeriodDefinition) {
    match period
    case Relative(v) => v != OTHER
    case Absolute(from, to) => from.Stated? && to.Stated? && from.instant < to.instant
  }

  /** Which periods resolve: none at all, and, in a known zone, the named ones and two stated instants in
      order, which are the bounds themselves. */
  lemma ResolvesExactlyWhen(period: Option<PeriodDefinition>, zone: Option<Zone>, timezone: string,
                            dateDimension: string, now: Instant)
    ensures var r := Resolve(period, zone, timezone, dateDimension, now);
      && (r.Ok? <==> period.None? || (zone.Some? && IsReadable(period.value)))
      && (r.Failed? ==> r.code == if zone.None? then NOT_CONFIGURED else QUERY_INVALID)
      && (r.Ok? ==> (r.value.Some? <==> period.Some?))
      && (r.Ok? && period.Some? && period.value.Absolute? ==>
            && r.value.value.fromInclusive == period.value.from.instant
            && r.value.value.toExclusive == period.value.to.instant
            && r.value.value.timezone == timezone && r.value.value.dateDimension == dateDimension)
  {
    hide ResolveRelative;
  }

  // ---------------------------------------------------------------- what a plan is about

  function DateDimensionOf(p: Plan): string {
    if p.metric.dateDimension.Some? then p.metric.dateDimension.value else ""
  }

  lemma PlanResolves(registry: SemanticRegistry, zone: Option<Zone>, call: Call, p: Plan)
    requires Plans(registry, zone, call, p)
    ensures Resolve(call.request.period, zone, call.timezone, DateDimensionOf(p), call.now) == Ok(p.period)
  {
    hide PlanRequest;
    hide Resolve;
    PlannedPeriod(registry, call.request, call.user, call.candidate, zone, call.timezone, call.now);
  }

  /** A finished plan for a named period is about the days the name stands for. */
  lemma PlansSpanTheirDays(registry: SemanticRegistry, zone: Zone, call: Call, p: Plan, v: RelativePeriod, first: Date,
                           end: Date)
    requires Plans(registry, Some(zone), call, p) && call.request.period == Some(Relative(v))
    requires LocalDate(zone, call.now).y >= 102 && StandsFor(v, LocalDate(zone, call.now), first, end)
    requires HasMidnight(zone, first) && HasMidnight(zone, end)
    ensures p.period.Some? && Spans(zone, p.period.value, first, end)
    ensures p.period.value.timezone == call.timezone && p.period.value.dateDimension == DateDimensionOf(p)
  {
    hide Plans;
    hide Resolve;
    hide Spans;
    hide HasMidnight;
    hide LocalDate;
    hide StandsFor;
    PlanResolves(registry, Some(zone), call, p);
    NamedPeriodsSpanTheirDays(v, zone, call.timezone, DateDimensionOf(p), call.now, first, end);
  }

  /** A finished plan for an absolute period is about the stated instants, and one without a period is
      about all time. */
  lemma PlansKeepStatedInstants(registry: SemanticRegistry, zone: Option<Zone>, call: Call, p: Plan)
    requires Plans(registry, zone, call, p)
    ensures p.period.Some? <==> call.request.period.Some?
    ensures call.request.period.Some? && call.request.period.value.Absolute? ==>
      var from, to := call.request.period.value.from, call.request.period.value.to;
      && from.Stated? && to.Stated?
      && p.period.value.fromInclusive == from.instant < to.instant == p.period.value.toExclusive
  {
    hide Plans;
    hide Resolve;
    PlanResolves(registry, zone, call, p);
    ResolvesExactlyWhen(call.request.period, zone, call.timezone, DateDimensionOf(p), call.now);
  }

  // ---------------------------------------------------------------- what a plan is compared with

  lemma PlanCompares(registry: SemanticRegistry, zone: Option<Zone>, call: Call, p: Plan)
    requires Plans(registry, zone, call, p)
    ensures p.comparison == ComparisonPeriod(call.request, p.period, ClockOf(zone))
    ensures call.request.comparison.Some? ==> p.period.Some? && zone.Some?
  {
    hide Plans;
    hide ComparisonPeriod;
    hide CompiledFor;
    hide Listed;
    hide SemanticOf;
    CallIsPlanned(registry, zone, call, p);
    ComparisonNeedsPeriod(registry, zone, call, p);
  }

  lemma ComparisonNeedsPeriod(registry: SemanticRegistry, zone: Option<Zone>, call: Call, p: Plan)
    requires Plans(registry, zone, call, p)
    ensures call.request.comparison.Some? ==> p.period.Some? && zone.Some?
  {
    hide Compile;
    hide ComparisonPeriod;
    hide Resolve;
    hide NamesStartingWith;
    hide SemanticOf;
    hide Validate;
    AcceptsExactly(registry, call.request, call.user, call.candidate);
    PlanResolves(registry, zone, call, p);
    ResolvesExactlyWhen(call.request.period, zone, call.timezone, DateDimensionOf(p), call.now);
  }

  /** A plan is compared with another period exactly when the request asks for the previous period or the
      previous year; a budget or a target is a comparison without a period. The previous period ends
      where the plan's own starts. */
  lemma PlansCompareWhenAsked(registry: SemanticRegistry, zone: Option<Zone>, call: Call, p: Plan)
    requires Plans(registry, zone, call, p)
    ensures p.comparison.Some? <==>
      call.request.comparison in {Some(ComparisonType.PREVIOUS_PERIOD), Some(ComparisonType.PREVIOUS_YEAR)}
    ensures p.comparison.Some? <==> p.comparisonExecution.Some?
    ensures p.comparison.Some? ==> p.period.Some?
    ensures call.request.comparison == Some(ComparisonType.PREVIOUS_PERIOD) ==>
      p.comparison.value.toExclusive == p.period.value.fromInclusive
  {
    hide Plans;
    hide CompiledFor;
    hide Listed;
    hide SemanticOf;
    hide PeriodResolver.Compare;
    CallIsPlanned(registry, zone, call, p);
    PlanCompares(registry, zone, call, p);
  }

  /** The same day a year before, or the last of its month. */
  function SameDayYearBefore(x: Date): Date
    requires 1 <= x.m <= 12
  {
    var last := DaysInMonth(x.y - 1, x.m);
    Date(x.y - 1, x.m, if x.d < last then x.d else last)
  }

  /** Compared with the previous year, a plan is compared with the same days a year before. */
  lemma PlansCompareSameDays(registry: SemanticRegistry, zone: Zone, call: Call, p: Plan, a: Date, b: Date)
    requires Plans(registry, Some(zone), call, p)
    requires call.request.comparison == Some(ComparisonType.PREVIOUS_YEAR)
    requires p.period.Some? && IsDate(a) && IsDate(b) && a.y >= 101 && b.y >= 101
    requires LocalDate(zone, p.period.value.fromInclusive) == a && LocalDate(zone, p.period.value.toExclusive) == b
    requires HasMidnight(zone, SameDayYearBefore(a)) && HasMidnight(zone, SameDayYearBefore(b))
    ensures p.comparison.Some? && Spans(zone, p.comparison.value, SameDayYearBefore(a), SameDayYearBefore(b))
  {
    hide Plans;
    hide YearBefore;
    hide ZonedMidnight;
    hide HasMidnight;
    hide PartsOf;
    hide DaysInMonth;
    hide DayOf;
    PlanCompares(registry, Some(zone), call, p);
    YearBeforeIsClamped(a);
    YearBeforeIsClamped(b);
    MidnightIsReached(zone, SameDayYearBefore(a));
    MidnightIsReached(zone, SameDayYearBefore(b));
  }

  /** Compared with the previous period, a plan for a day, a week or an absolute period is compared with as
      many local days, up to where its own start. */
  lemma PlansCompareAsManyDays(registry: SemanticRegistry, zone: Zone, call: Call, p: Plan, fromDay: int, toDay: int)
    requires Plans(registry, Some(zone), call, p) && p.period.Some?
    requires call.request.comparison == Some(ComparisonType.PREVIOUS_PERIOD)
    requires MonthsBack(call.request.period) == 0
    requires IsMidnight(zone, fromDay, p.period.value.fromInclusive)
    requires IsMidnight(zone, toDay, p.period.value.toExclusive)
    requires fromDay >= EARLIEST && toDay >= EARLIEST && HasMidnight(zone, Civil(fromDay - (toDay - fromDay)))
    ensures p.comparison.Some?
    ensures IsMidnight(zone, fromDay - (toDay - fromDay), p.comparison.value.fromInclusive)
    ensures IsMidnight(zone, fromDay, p.comparison.value.toExclusive)
  {
    hide Plans;
    hide PeriodResolver.Compare;
    hide HasMidnight;
    hide DayFromYear;
    hide Civil;
    PlanCompares(registry, Some(zone), call, p);
    SameNumberOfDays(p.period.value, call.request.period, zone, fromDay, toDay);
  }

  /** The first day of the month, quarter or year before. */
  function OneBefore(v: RelativePeriod, x: Date): Date {
    match v
    case CURRENT_MONTH | PREVIOUS_MONTH => MonthBefore(x.y, x.m)
    case CURRENT_QUARTER | PREVIOUS_QUARTER => QuarterBefore(x.y, x.m)
    case _ => Date(x.y - 1, 1, 1)
  }

  lemma MonthsBefore(v: RelativePeriod, today: Date)
    requires WholeMonths(v) && IsDate(today)
    ensures var s := StartMonth(v, today);
      FirstOf(s - MonthsBack(Some(Relative(v)))) == OneBefore(v, FirstOf(s))
  {
    hide FirstOf;
    var s := StartMonth(v, today);
    var y, m := s / 12, s % 12 + 1;
    StartsItsOwn(v, today);
    hide StartMonth;
    FirstOfItsMonth(y, m);
    match MonthsBack(Some(Relative(v))) {
      case 1 => if m > 1 { FirstOfItsMonth(y, m - 1); } else { FirstOfItsMonth(y - 1, 12); }
      case 3 => if m > 1 { FirstOfItsMonth(y, m - 3); } else { FirstOfItsMonth(y - 1, 10); }
      case _ => FirstOfItsMonth(y - 1, 1);
    }
  }

  /** Quarters start in January, April, July or October, years in January. */
  lemma StartsItsOwn(v: RelativePeriod, today: Date)
    requires WholeMonths(v) && IsDate(today)
    ensures var s, months := StartMonth(v, today), MonthsBack(Some(Relative(v)));
      (months == 3 ==> s % 12 in {0, 3, 6, 9}) && (months == 12 ==> s % 12 == 0)
  {
    var y, q := today.y, (today.m - 1) / 3;
    assert 0 <= q <= 3;
    if v == PREVIOUS_QUARTER && q == 0 { assert StartMonth(v, today) == 12 * (y - 1) + 9; }
  }

  lemma ComparedMonths(v: RelativePeriod, zone: Zone, timezone: string, dateDimension: string, now: Instant)
    requires WholeMonths(v) && LocalDate(zone, now).y >= 105
    requires MidnightsExist(zone, v, Comparison.PREVIOUS_PERIOD, LocalDate(zone, now))
    ensures var p := ResolveRelative(v, zone, timezone, dateDimension, now);
      var c := PeriodResolver.Compare(p, Comparison.PREVIOUS_PERIOD, Some(Relative(v)), zone);
      LocalDate(zone, c.fromInclusive) == OneBefore(v, LocalDate(zone, p.fromInclusive))
  {
    hide ResolveRelative;
    hide PeriodResolver.Compare;
    hide MidnightsExist;
    hide LocalDate;
    hide StartMonth;
    hide FirstOf;
    hide OneBefore;
    TodayIsADate(zone, now);
    MonthsBefore(v, LocalDate(zone, now));
    ComparisonMonths(v, Comparison.PREVIOUS_PERIOD, zone, timezone, dateDimension, now);
  }

  lemma PlanOfNamed(registry: SemanticRegistry, zone: Zone, call: Call, p: Plan, v: RelativePeriod)
    requires Plans(registry, Some(zone), call, p) && call.request.period == Some(Relative(v))
    ensures p.period == Some(ResolveRelative(v, zone, call.timezone, DateDimensionOf(p), call.now))
  {
    hide Plans;
    hide ResolveRelative;
    PlanResolves(registry, Some(zone), call, p);
  }

  /** Compared with the previous period, a plan for a named month, quarter or year is compared with the
      month, quarter or year before, from its first day on. */
  lemma PlansComparePreviousMonths(registry: SemanticRegistry, zone: Zone, call: Call, p: Plan, v: RelativePeriod)
    requires Plans(registry, Some(zone), call, p) && call.request.period == Some(Relative(v)) && WholeMonths(v)
    requires call.request.comparison == Some(ComparisonType.PREVIOUS_PERIOD)
    requires LocalDate(zone, call.now).y >= 105
    requires MidnightsExist(zone, v, Comparison.PREVIOUS_PERIOD, LocalDate(zone, call.now))
    ensures p.period.Some? && p.comparison.Some?
    ensures var first := LocalDate(zone, p.period.value.fromInclusive);
      LocalDate(zone, p.comparison.value.fromInclusive) == OneBefore(v, first)
    ensures p.comparison.value.toExclusive == p.period.value.fromInclusive
  {
    hide Plans;
    hide PeriodResolver.Compare;
    hide ResolveRelative;
    hide MidnightsExist;
    hide LocalDate;
    hide OneBefore;
    PlanCompares(registry, Some(zone), call, p);
    PlanOfNamed(registry, zone, call, p, v);
    ComparedMonths(v, zone, call.timezone, DateDimensionOf(p), call.now);
  }

  // ---------------------------------------------------------------- the rows a plan selects

  /** On a source of civil days, the rows a plan for a named period selects are those of the days the name
      stands for. */
  lemma PlansSelectTheirDays(reading: Reading, sql: Sql, row: Row, registry: SemanticRegistry, zone: Zone, call: Call,
                             p: Plan, v: RelativePeriod, first: Date, end: Date, d: Date)
    requires Plans(registry, Some(zone), call, p) && call.request.period == Some(Relative(v))
    requires LocalDate(zone, call.now).y >= 102 && StandsFor(v, LocalDate(zone, call.now), first, end)
    requires HasMidnight(zone, first) && HasMidnight(zone, end)
    requires forall a, b :: sql.before(DayCell(a), DayCell(b)) == Before(a, b)
    requires p.resource.localDate && IsDate(d)
    requires CellAt(row, ColumnOf(p.resource, DateDimensionOf(p))) == DayCell(d)
    ensures PassesAll(reading, sql, row, PeriodTests(p.resource, p.period, zone)) <==>
      DayOf(first) <= DayOf(d) < DayOf(end)
  {
    hide Plans;
    hide PassesAll;
    hide PeriodTests;
    hide ResolveRelative;
    hide Civil;
    hide DayOf;
    hide StartDay;
    hide EndDay;
    hide StandsFor;
    hide LocalDate;
    hide ColumnOf;
    hide Before;
    var today := LocalDate(zone, call.now);
    TodayIsADate(zone, call.now);
    StandsForSomething(v, today, first, end);
    ChosenDaysStandFor(v, today, first, end);
    SameDayIsSameDate(StartDay(v, today), first);
    SameDayIsSameDate(EndDay(v, today), end);
    PlanOfNamed(registry, zone, call, p, v);
    NamedPeriodSelectsItsDays(reading, sql, row, v, zone, call.timezone, call.now, p.resource, DateDimensionOf(p), d);
  }
}
