/** The month shift carries the months of a named month, quarter or year onto those of its comparison. */
module MonthAlignment {
  import opened Contracts
  import opened Calendar
  import opened PeriodResolver
  import opened Json
  import opened Registry
  import opened Text
  import opened ComparisonJoin

  /** The first day of a month, by its number. */
  function FirstOf(index: int): Date { Date(index / 12, index % 12 + 1, 1) }

  function IndexOf(x: Date): int { 12 * x.y + x.m - 1 }

  predicate WholeMonths(v: RelativePeriod) { MonthsBack(Some(Relative(v))) > 0 }

  function Quarter(x: Date): int { (x.m - 1) / 3 * 3 }

  function StartMonth(v: RelativePeriod, x: Date): int {
    match v
    case CURRENT_MONTH => 12 * x.y + x.m - 1
    case CURRENT_QUARTER => 12 * x.y + Quarter(x)
    case CURRENT_YEAR => 12 * x.y
    case PREVIOUS_MONTH => 12 * x.y + x.m - 2
    case PREVIOUS_QUARTER => 12 * x.y + Quarter(x) - 3
    case PREVIOUS_YEAR => 12 * x.y - 12
    case _ => 0
  }

  function EndMonth(v: RelativePeriod, x: Date): int { StartMonth(v, x) + MonthsBack(Some(Relative(v))) }

  /** Months named from any year of reference, however far they overflow. */
  lemma FirstDay(y: int, k: int)
    requires y >= 101 && -12 <= k <= 24
    ensures Civil(DateUtc(y, k, 1) / DAY) == FirstOf(12 * y + k)
  {
    hide MakeDay;
    hide Civil;
    hide DayOf;
    DateUtcDay(y, k, 1);
    MonthOverflow(y, k);
  }

  lemma PeriodMonths(v: RelativePeriod, today: Date)
    requires WholeMonths(v) && IsDate(today) && today.y >= 102
    ensures Civil(StartDay(v, today)) == FirstOf(StartMonth(v, today))
    ensures Civil(EndDay(v, today)) == FirstOf(EndMonth(v, today))
  {
    hide MakeDay;
    hide Civil;
    hide DateUtc;
    hide FirstOf;
    PeriodStarts(v, today);
    PeriodEnds(v, today);
  }

  lemma PeriodStarts(v: RelativePeriod, today: Date)
    requires WholeMonths(v) && IsDate(today) && today.y >= 102
    ensures Civil(StartDay(v, today)) == FirstOf(StartMonth(v, today))
  {
    hide MakeDay;
    hide Civil;
    hide DateUtc;
    hide FirstOf;
    var y, q := today.y, Quarter(today);
    assert 0 <= q <= 9;
    match v {
      case CURRENT_MONTH => FirstDay(y, today.m - 1);
      case CURRENT_QUARTER => FirstDay(y, q);
      case CURRENT_YEAR => FirstDay(y, 0);
      case PREVIOUS_MONTH => FirstDay(y, today.m - 2);
      case PREVIOUS_QUARTER => FirstDay(y, q - 3);
      case PREVIOUS_YEAR => FirstDay(y - 1, 0);
    }
  }

  lemma PeriodEnds(v: RelativePeriod, today: Date)
    requires WholeMonths(v) && IsDate(today) && today.y >= 102
    ensures Civil(EndDay(v, today)) == FirstOf(EndMonth(v, today))
  {
    hide MakeDay;
    hide Civil;
    hide DateUtc;
    hide FirstOf;
    var y, q := today.y, Quarter(today);
    assert 0 <= q <= 9;
    match v {
      case CURRENT_MONTH => FirstDay(y, today.m);
      case CURRENT_QUARTER => FirstDay(y, q + 3);
      case CURRENT_YEAR => FirstDay(y + 1, 0);
      case PREVIOUS_MONTH => FirstDay(y, today.m - 1);
      case PREVIOUS_QUARTER => FirstDay(y, q);
      case PREVIOUS_YEAR => FirstDay(y, 0);
    }
  }

  /** A whole number of days since the epoch. */
  predicate IsWhole(t: int) { t % DAY == 0 }

  lemma DateIsWhole(y: int, m: int, d: int)
    requires y > 99
    ensures IsWhole(DateUtc(y, m, d))
  {
    hide MakeDay;
  }

  lemma WholeAfter(t: int, n: int)
    requires IsWhole(t)
    ensures IsWhole(t + n * DAY)
  {
    assert t == DAY * (t / DAY);
    assert t + n * DAY == DAY * (t / DAY + n);
  }

  lemma WholeIsItsDay(t: int)
    requires IsWhole(t)
    ensures t == t / DAY * DAY
  {
  }

  lemma NamedBounds(v: RelativePeriod, today: Date)
    requires IsDate(today) && today.y >= 102
    ensures RelativeBounds(v, today) == (StartDay(v, today) * DAY, EndDay(v, today) * DAY)
  {
    hide DateUtc;
    hide IsWhole;
    hide WeekDay;
    var y, m, q := today.y, today.m, Quarter(today);
    match v {
      case TODAY =>
        DateIsWhole(y, m - 1, today.d);
        WholeAfter(DateUtc(y, m - 1, today.d), 1);
      case CURRENT_WEEK =>
        var start := DateUtc(y, m - 1, today.d);
        var back := (WeekDay(start / DAY) + 6) % 7;
        DateIsWhole(y, m - 1, today.d);
        WholeAfter(start, -back);
        WholeAfter(start - back * DAY, 7);
      case CURRENT_MONTH => DateIsWhole(y, m - 1, 1); DateIsWhole(y, m, 1);
      case CURRENT_QUARTER => DateIsWhole(y, q, 1); DateIsWhole(y, q + 3, 1);
      case CURRENT_YEAR => DateIsWhole(y, 0, 1); DateIsWhole(y + 1, 0, 1);
      case PREVIOUS_MONTH => DateIsWhole(y, m - 2, 1); DateIsWhole(y, m - 1, 1);
      case PREVIOUS_QUARTER => DateIsWhole(y, q - 3, 1); DateIsWhole(y, q, 1);
      case PREVIOUS_YEAR => DateIsWhole(y - 1, 0, 1); DateIsWhole(y, 0, 1);
      case OTHER =>
    }
    WholeIsItsDay(RelativeBounds(v, today).0);
    WholeIsItsDay(RelativeBounds(v, today).1);
  }

  lemma WholeMonthsHoldToday(v: RelativePeriod, today: Date)
    requires WholeMonths(v) && IsDate(today) && today.y >= 102
    ensures StartDay(v, today) < EndDay(v, today)
    ensures v in {CURRENT_MONTH, CURRENT_QUARTER, CURRENT_YEAR} ==>
      StartDay(v, today) <= DayOf(today) < EndDay(v, today)
    ensures v !in {CURRENT_MONTH, CURRENT_QUARTER, CURRENT_YEAR} ==> EndDay(v, today) <= DayOf(today)
  {
    hide StartDay;
    hide EndDay;
    hide DayOf;
    hide Civil;
    PeriodMonths(v, today);
    var s, e := StartMonth(v, today), EndMonth(v, today);
    DayOfCivil(StartDay(v, today));
    DayOfCivil(EndDay(v, today));
    FirstIsADate(s / 12, s % 12 + 1);
    FirstIsADate(e / 12, e % 12 + 1);
    DaysFollowDates(FirstOf(s), FirstOf(e));
    DaysFollowDates(today, FirstOf(s));
    DaysFollowDates(today, FirstOf(e));
  }

  predicate Current(v: RelativePeriod) { v in {TODAY, CURRENT_WEEK, CURRENT_MONTH, CURRENT_QUARTER, CURRENT_YEAR} }

  /** A named period runs over whole days, at least one. A current one holds today; a previous one is
      over, and ends where the current one of its kind starts. */
  lemma NamedPeriodsAreWholeDays(v: RelativePeriod, today: Date)
    requires v != OTHER && IsDate(today) && today.y >= 102
    ensures RelativeBounds(v, today) == (StartDay(v, today) * DAY, EndDay(v, today) * DAY)
    ensures StartDay(v, today) < EndDay(v, today)
    ensures if Current(v) then StartDay(v, today) <= DayOf(today) < EndDay(v, today)
            else EndDay(v, today) <= DayOf(today)
    ensures v in {CURRENT_MONTH, CURRENT_QUARTER, CURRENT_YEAR} ==> EndDay(PreviousOf(v), today) == StartDay(v, today)
  {
    NamedBounds(v, today);
    if v == CURRENT_WEEK {
      WeeksStartOnMonday(today);
    } else if v == TODAY {
      DateUtcDay(today.y, today.m - 1, today.d);
    } else {
      WholeMonthsHoldToday(v, today);
    }
    hide MakeDay;
  }

  lemma IndexOfFirst(index: int)
    ensures IndexOf(FirstOf(index)) == index
  {
  }

  /** How many months a comparison lies before its period. */
  function ShiftOf(kind: Comparison, v: RelativePeriod): int {
    if kind == Comparison.PREVIOUS_PERIOD then MonthsBack(Some(Relative(v))) else 12
  }

  lemma FirstComesFirst(index: int)
    requires index >= 12 * 102
    ensures YearBefore(FirstOf(index)) == FirstOf(index - 12)
  {
    hide Civil;
    hide DateUtc;
    var x := FirstOf(index);
    assert index - 12 == 12 * (x.y - 1) + x.m - 1;
    hide FirstOf;
    LastDayOfMonth(x.y - 1, x.m);
  }

  /** The bounds whose midnights must exist. */
  ghost predicate MidnightsExist(zone: Zone, v: RelativePeriod, kind: Comparison, today: Date) {
    && HasMidnight(zone, FirstOf(StartMonth(v, today))) && HasMidnight(zone, FirstOf(EndMonth(v, today)))
    && HasMidnight(zone, FirstOf(StartMonth(v, today) - ShiftOf(kind, v)))
    && HasMidnight(zone, FirstOf(EndMonth(v, today) - ShiftOf(kind, v)))
  }

  lemma DateAtMidnight(zone: Zone, x: Date)
    requires HasMidnight(zone, x)
    ensures LocalDate(zone, ZonedMidnight(x, zone)) == x
  {
    hide ZonedMidnight;
    hide HasMidnight;
    MidnightIsReached(zone, x);
  }

  /** A named period of whole months and its comparison start and end on first days of months, the
      comparison as many months long and `ShiftOf` months earlier. */
  lemma ComparisonMonths(v: RelativePeriod, kind: Comparison, zone: Zone, timezone: string, dateDimension: string,
                         now: Instant)
    requires WholeMonths(v) && LocalDate(zone, now).y >= 105
    requires MidnightsExist(zone, v, kind, LocalDate(zone, now))
    ensures var today, p := LocalDate(zone, now), ResolveRelative(v, zone, timezone, dateDimension, now);
      var c := Compare(p, kind, Some(Relative(v)), zone);
      && LocalDate(zone, p.fromInclusive) == FirstOf(StartMonth(v, today))
      && LocalDate(zone, p.toExclusive) == FirstOf(EndMonth(v, today))
      && LocalDate(zone, c.fromInclusive) == FirstOf(StartMonth(v, today) - ShiftOf(kind, v))
      && LocalDate(zone, c.toExclusive) == FirstOf(EndMonth(v, today) - ShiftOf(kind, v))
  {
    hide ZonedMidnight;
    hide Civil;
    hide DateUtc;
    hide HasMidnight;
    hide RelativeBounds;
    hide PartsOf;
    hide YearBefore;
    hide FirstOf;
    hide StartMonth;
    var today, p := LocalDate(zone, now), ResolveRelative(v, zone, timezone, dateDimension, now);
    var s, e, k := StartMonth(v, today), EndMonth(v, today), ShiftOf(kind, v);
    TodayIsADate(zone, now);
    PeriodMonths(v, today);
    StartIsLate(v, today);
    DateAtMidnight(zone, FirstOf(s));
    DateAtMidnight(zone, FirstOf(e));
    DateAtMidnight(zone, FirstOf(s - k));
    DateAtMidnight(zone, FirstOf(e - k));
    assert LocalDate(zone, p.fromInclusive) == FirstOf(s) && LocalDate(zone, p.toExclusive) == FirstOf(e);
    if kind == Comparison.PREVIOUS_PERIOD {
      FirstMonthsBack(s, k);
    } else {
      FirstComesFirst(s);
      FirstComesFirst(e);
    }
  }

  lemma TodayIsADate(zone: Zone, t: Instant)
    ensures IsDate(LocalDate(zone, t))
  {
    hide DayOf;
    DayOfCivil((t + zone(t)) / DAY);
  }

  lemma StartIsLate(v: RelativePeriod, today: Date)
    requires WholeMonths(v) && IsDate(today) && today.y >= 105
    ensures StartMonth(v, today) >= 12 * 103 && MonthsBack(Some(Relative(v))) in {1, 3, 12}
  {
  }

  lemma FirstMonthsBack(s: int, k: int)
    requires s >= 12 * 102 && 0 < k <= 12
    ensures var a := FirstOf(s); var first := Civil(DateUtc(a.y, a.m - 1 - k, 1) / DAY);
      Date(first.y, first.m, 1) == FirstOf(s - k)
  {
    hide Civil;
    hide DateUtc;
    var a := FirstOf(s);
    FirstDay(a.y, a.m - 1 - k);
    assert 12 * a.y + (a.m - 1 - k) == s - k;
  }

  // ---------------------------------------------------------------- month texts

  /** Years of four digits. */
  predicate FourDigitYear(index: int) { 12000 <= index < 120000 }

  lemma DecimalOfTwo(n: nat)
    requires 10 <= n < 100
    ensures Decimal(n) == [Digit(n / 10), Digit(n % 10)]
  {
    assert Decimal(n / 10) == [Digit(n / 10)];
  }

  lemma DecimalOfFour(n: nat)
    requires 1000 <= n < 10000
    ensures Decimal(n) == [Digit(n / 1000), Digit(n / 100 % 10), Digit(n / 10 % 10), Digit(n % 10)]
  {
    var h := n / 100;
    DecimalOfTwo(h);
    assert n / 10 / 10 == h && n / 10 % 10 < 10;
    assert h / 10 == n / 1000 && h % 10 == n / 100 % 10;
    assert Decimal(n / 10) == Decimal(h) + [Digit(n / 10 % 10)];
    assert Decimal(n) == Decimal(n / 10) + [Digit(n % 10)];
  }

  lemma DigitsAddUp(n: nat)
    requires 1000 <= n < 10000
    ensures 1000 * (n / 1000) + 100 * (n / 100 % 10) + 10 * (n / 10 % 10) + n % 10 == n
  {
    LastDigit(n, n / 10);
    LastDigit(n / 10, n / 100);
    LastDigit(n / 100, n / 1000);
  }

  lemma LastDigit(n: nat, tens: nat)
    requires tens == n / 10
    ensures n == 10 * tens + n % 10
  {
  }

  lemma PaddedMonth(m: int)
    requires 1 <= m <= 12
    ensures |Padded(Integer(m))| == 2 && IsDigit(Padded(Integer(m))[0]) && IsDigit(Padded(Integer(m))[1])
    ensures 10 * DigitValue(Padded(Integer(m))[0]) + DigitValue(Padded(Integer(m))[1]) == m
  {
    PaddedDigits(m);
  }

  /** A month of a four-digit year is printed as a month text that reads back as itself. */
  lemma MonthTextReadsBack(index: int)
    requires FourDigitYear(index)
    ensures IsCalendarMonth(MonthText(index)) && MonthIndex(MonthText(index)) == index
  {
    var y, m := index / 12, Remainder(index) + 1;
    RemainderRange(index);
    assert 1000 <= y < 10000 && 1 <= m <= 12 && index == 12 * y + m - 1;
    YearAndMonthReadsBack(y, m);
  }

  lemma YearAndMonthReadsBack(y: int, m: int)
    requires 1000 <= y < 10000 && 1 <= m <= 12
    ensures IsMonthText(YearAndMonth(y, m)) && YearNumber(YearAndMonth(y, m)) == y
    ensures MonthNumber(YearAndMonth(y, m)) == m
  {
    hide Padded;
    DecimalOfFour(y);
    DigitsAddUp(y);
    PaddedMonth(m);
    var s := YearAndMonth(y, m);
    var d := Decimal(y);
    assert s[0] == d[0] && s[1] == d[1] && s[2] == d[2] && s[3] == d[3] && s[4] == '-';
    assert s[5] == Padded(Integer(m))[0] && s[6] == Padded(Integer(m))[1];
  }

  /** What the shift makes of the text of a month. */
  lemma AlignedMonth(dimensions: seq<Dimension>, offset: int, key: string, index: int)
    requires FourDigitYear(index)
    requires DimensionNamed(dimensions, key).Some? && DimensionNamed(dimensions, key).value.aligned
    ensures Aligned(dimensions, Some(offset), key, String(MonthText(index))) == String(MonthText(index - offset))
  {
    hide MonthText;
    MonthTextReadsBack(index);
  }

  /** The month is one of the period's. */
  predicate InPeriod(zone: Zone, p: ResolvedPeriod, index: int) {
    MonthOf(zone, p.fromInclusive) <= index < MonthOf(zone, p.toExclusive)
  }

  /** The shift maps the months of a named period one-to-one onto those of its comparison: it turns
      the text of a month into the text of the month `MonthOffset` earlier, which is a month of the
      comparison exactly when the first is one of the period, and both have as many months. */
  lemma MonthsMapOntoComparison(v: RelativePeriod, kind: Comparison, zone: Zone, timezone: string,
                                dateDimension: string, now: Instant, dimensions: seq<Dimension>, key: string,
                                index: int)
    requires WholeMonths(v) && LocalDate(zone, now).y >= 105
    requires MidnightsExist(zone, v, kind, LocalDate(zone, now))
    requires FourDigitYear(index)
    requires DimensionNamed(dimensions, key).Some? && DimensionNamed(dimensions, key).value.aligned
    ensures var p := ResolveRelative(v, zone, timezone, dateDimension, now);
      var c := Compare(p, kind, Some(Relative(v)), zone);
      var offset := MonthOffset(Some(p), Some(c), zone);
      && offset.Some?
      && Aligned(dimensions, offset, key, String(MonthText(index))) == String(MonthText(index - offset.value))
      && (InPeriod(zone, p, index) <==> InPeriod(zone, c, index - offset.value))
      && MonthOf(zone, p.toExclusive) - MonthOf(zone, p.fromInclusive) == MonthsBack(Some(Relative(v)))
      && MonthOf(zone, c.toExclusive) - MonthOf(zone, c.fromInclusive) == MonthsBack(Some(Relative(v)))
  {
    hide ResolveRelative;
    hide Compare;
    hide LocalDate;
    hide MidnightsExist;
    hide FirstOf;
    hide StartMonth;
    hide MonthText;
    hide Aligned;
    ComparisonMonths(v, kind, zone, timezone, dateDimension, now);
    var s, e, k := StartMonth(v, LocalDate(zone, now)), EndMonth(v, LocalDate(zone, now)), ShiftOf(kind, v);
    AlignedMonth(dimensions, k, key, index);
    IndexOfFirst(s);
    IndexOfFirst(e);
    IndexOfFirst(s - k);
    IndexOfFirst(e - k);
  }
}
