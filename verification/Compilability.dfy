/** Which requests compile, and what a named period binds on a source that stores civil days. */
module Compilability {
  import opened Contracts
  import opened Calendar
  import opened PeriodResolver
  import opened Registry
  import opened SqlCompiler
  import opened SqlMeaning

  predicate Configured(resource: Resource, id: string) { Expression(resource, id).Ok? }

  predicate NullOperatorValid(f: BoundFilter) {
    f.value == FilterValue.One(Null) ==> f.operator == EQ || f.operator == NEQ
  }

  predicate FixedConfigured(resource: Resource, n: nat)
    requires n <= |resource.fixedFilters|
  {
    forall i :: 0 <= i < n ==> Configured(resource, resource.fixedFilters[i].expression)
  }

  predicate PeriodConfigured(resource: Resource, period: Option<ResolvedPeriod>, zone: Zone) {
    period.Some? ==>
      && Configured(resource, period.value.dateDimension)
      && (resource.localDate ==>
            LocalMidnight(zone, period.value.fromInclusive) && LocalMidnight(zone, period.value.toExclusive))
  }

  predicate FiltersConfigured(resource: Resource, filters: seq<BoundFilter>, n: nat)
    requires n <= |filters|
  {
    forall i :: 0 <= i < n ==> Configured(resource, filters[i].dimension.expression) && NullOperatorValid(filters[i])
  }

  predicate DimensionsConfigured(resource: Resource, dimensions: seq<Dimension>) {
    forall i :: 0 <= i < |dimensions| ==> Configured(resource, dimensions[i].expression)
  }

  /** The requests the compiler accepts. */
  predicate Compilable(metric: Metric, resource: Resource, dimensions: seq<Dimension>, filters: seq<BoundFilter>,
                       period: Option<ResolvedPeriod>, zone: Zone, sort: seq<Sort>) {
    && Configured(resource, metric.measure)
    && DimensionsConfigured(resource, dimensions) && AliasesReviewed(dimensions)
    && FixedConfigured(resource, |resource.fixedFilters|)
    && PeriodConfigured(resource, period, zone)
    && FiltersConfigured(resource, filters, |filters|)
    && Path(resource.table).Ok?
    && SortsByDimensions(dimensions, sort)
  }

  predicate SortsByDimensions(dimensions: seq<Dimension>, sort: seq<Sort>) {
    forall s :: s in sort ==> exists d :: d in dimensions && d.key == s.field
  }

  lemma {:induction false} GroupsExactlyWhen(resource: Resource, dimensions: seq<Dimension>)
    ensures Groups(resource, dimensions).Ok? <==> DimensionsConfigured(resource, dimensions)
  {
    hide Expression;
    if dimensions != [] {
      var rest := dimensions[1..];
      GroupsExactlyWhen(resource, rest);
      assert forall i :: 0 <= i < |rest| ==> rest[i] == dimensions[i + 1];
      if DimensionsConfigured(resource, dimensions) {
        assert Configured(resource, dimensions[0].expression);
      } else if Configured(resource, dimensions[0].expression) {
        var i :| 0 <= i < |dimensions| && !Configured(resource, dimensions[i].expression);
        assert rest[i - 1] == dimensions[i];
      }
    }
  }

  lemma {:induction false} FixedExactlyWhen(resource: Resource, n: nat)
    requires n <= |resource.fixedFilters|
    ensures FixedWhere(resource, n).Ok? <==> FixedConfigured(resource, n)
  {
    hide Expression;
    if n > 0 {
      FixedExactlyWhen(resource, n - 1);
      var last := resource.fixedFilters[n - 1];
      assert FixedConfigured(resource, n) <==>
        FixedConfigured(resource, n - 1) && Configured(resource, last.expression);
    }
  }

  lemma {:induction false} FiltersExactlyWhen(resource: Resource, filters: seq<BoundFilter>, n: nat, w: Where)
    requires n <= |filters| && AllWellShaped(filters)
    ensures FilterWhere(resource, filters, n, w).Ok? <==> FiltersConfigured(resource, filters, n)
  {
    hide Expression;
    hide FilterBindings;
    hide Spelling;
    hide PartNames;
    if n > 0 {
      FiltersExactlyWhen(resource, filters, n - 1, w);
      var f := filters[n - 1];
      assert FiltersConfigured(resource, filters, n) <==>
        && FiltersConfigured(resource, filters, n - 1)
        && Configured(resource, f.dimension.expression) && NullOperatorValid(f);
      hide FiltersConfigured;
    }
  }

  lemma {:induction false} OrderExactlyWhen(groups: seq<Group>, sort: seq<Sort>)
    ensures SortOrder(groups, sort).Ok? <==>
      forall s :: s in sort ==> exists i :: 0 <= i < |groups| && groups[i].alias == s.field
  {
    if sort != [] {
      OrderExactlyWhen(groups, sort[1..]);
      GroupExactlyWhen(groups, sort[0].field);
      assert forall s :: s in sort <==> s == sort[0] || s in sort[1..];
    }
  }

  lemma {:induction false} GroupExactlyWhen(groups: seq<Group>, key: string)
    ensures GroupOf(groups, key).Ok? <==> exists i :: 0 <= i < |groups| && groups[i].alias == key
  {
    if groups != [] && groups[0].alias != key {
      GroupExactlyWhen(groups[1..], key);
      if i :| 0 <= i < |groups[1..]| && groups[1..][i].alias == key { assert groups[i + 1].alias == key; }
      if i :| 0 <= i < |groups| && groups[i].alias == key { assert groups[1..][i - 1].alias == key; }
    }
  }

  lemma SortsExactlyWhen(resource: Resource, dimensions: seq<Dimension>, sort: seq<Sort>)
    requires Groups(resource, dimensions).Ok?
    ensures SortOrder(Groups(resource, dimensions).value, sort).Ok? <==> SortsByDimensions(dimensions, sort)
  {
    hide Groups;
    var groups := Groups(resource, dimensions).value;
    GroupsOfDimensions(resource, dimensions);
    OrderExactlyWhen(groups, sort);
    forall s | s in sort
      ensures (exists i :: 0 <= i < |groups| && groups[i].alias == s.field) <==>
        (exists d :: d in dimensions && d.key == s.field)
    {
      if i :| 0 <= i < |groups| && groups[i].alias == s.field { assert dimensions[i] in dimensions; }
      if d :| d in dimensions && d.key == s.field {
        var i :| 0 <= i < |dimensions| && dimensions[i] == d;
        assert groups[i].alias == s.field;
      }
    }
  }

  /** A validated request compiles exactly when every expression it reaches is a reviewed path, NULL
      is only asked for with eq or neq, and a source of civil days gets bounds at local midnights. */
  lemma CompilesExactlyWhen(metric: Metric, resource: Resource, dimensions: seq<Dimension>, filters: seq<BoundFilter>,
                            period: Option<ResolvedPeriod>, zone: Zone, sort: seq<Sort>, limit: Option<int>)
    requires AllWellShaped(filters)
    ensures Compile(metric, resource, dimensions, filters, period, zone, sort, limit).Ok?
       <==> Compilable(metric, resource, dimensions, filters, period, zone, sort)
  {
    hide FixedWhere;
    hide FilterWhere;
    hide Groups;
    hide SortOrder;
    hide Path;
    hide Expression;
    hide FixedConfigured;
    hide FiltersConfigured;
    hide DimensionsConfigured;
    GroupsExactlyWhen(resource, dimensions);
    FixedExactlyWhen(resource, |resource.fixedFilters|);
    var fixed := FixedWhere(resource, |resource.fixedFilters|);
    if fixed.Ok? {
      var dated := PeriodWhere(resource, period, zone, fixed.value);
      if dated.Ok? { FiltersExactlyWhen(resource, filters, |filters|, dated.value); }
    }
    if Groups(resource, dimensions).Ok? { SortsExactlyWhen(resource, dimensions, sort); }
  }

  // ---------------------------------------------------------------- why a request does not compile

  predicate FailsOnlyWith<T>(r: Outcome<T>, code: ErrorCode) { r.Failed? ==> r.code == code }

  lemma {:induction false} IdentifiersAreConfigured(parts: seq<string>)
    ensures FailsOnlyWith(Identifiers(parts), NOT_CONFIGURED)
  {
    if parts != [] { IdentifiersAreConfigured(parts[1..]); }
  }

  lemma PathsAreConfigured(resource: Resource, id: string)
    ensures FailsOnlyWith(Expression(resource, id), NOT_CONFIGURED)
    ensures FailsOnlyWith(Path(resource.table), NOT_CONFIGURED)
  {
    if id in resource.expressions { IdentifiersAreConfigured(SplitDots(resource.expressions[id])); }
    IdentifiersAreConfigured(SplitDots(resource.table));
  }

  lemma {:induction false} GroupsAreConfigured(resource: Resource, dimensions: seq<Dimension>)
    ensures FailsOnlyWith(Groups(resource, dimensions), NOT_CONFIGURED)
  {
    hide Expression;
    if dimensions != [] {
      PathsAreConfigured(resource, dimensions[0].expression);
      GroupsAreConfigured(resource, dimensions[1..]);
    }
  }

  lemma {:induction false} FixedAreConfigured(resource: Resource, n: nat)
    requires n <= |resource.fixedFilters|
    ensures FailsOnlyWith(FixedWhere(resource, n), NOT_CONFIGURED)
  {
    hide Expression;
    if n > 0 {
      PathsAreConfigured(resource, resource.fixedFilters[n - 1].expression);
      FixedAreConfigured(resource, n - 1);
    }
  }

  lemma {:induction false} SortsAreOfDimensions(groups: seq<Group>, sort: seq<Sort>)
    ensures FailsOnlyWith(SortOrder(groups, sort), INTERNAL_ERROR)
  {
    if sort != [] {
      GroupsAreFound(groups, sort[0].field);
      SortsAreOfDimensions(groups, sort[1..]);
    }
  }

  lemma {:induction false} GroupsAreFound(groups: seq<Group>, key: string)
    ensures FailsOnlyWith(GroupOf(groups, key), INTERNAL_ERROR)
  {
    if groups != [] { GroupsAreFound(groups[1..], key); }
  }

  /** What is wrong with the first of some filters that is wrong. */
  function FilterFault(resource: Resource, filters: seq<BoundFilter>, n: nat): Option<ErrorCode>
    requires n <= |filters|
  {
    if n == 0 then None
    else
      var before, f := FilterFault(resource, filters, n - 1), filters[n - 1];
      if before.Some? then before
      else if !Configured(resource, f.dimension.expression) then Some(NOT_CONFIGURED)
      else if !NullOperatorValid(f) then Some(QUERY_INVALID)
      else None
  }

  lemma {:induction false} FiltersFail(resource: Resource, filters: seq<BoundFilter>, n: nat, w: Where)
    requires n <= |filters| && AllWellShaped(filters)
    ensures var r, fault := FilterWhere(resource, filters, n, w), FilterFault(resource, filters, n);
      if fault.Some? then r == Failed(fault.value) else r.Ok?
  {
    hide Expression;
    hide FilterBindings;
    if n > 0 {
      PathsAreConfigured(resource, filters[n - 1].dimension.expression);
      FiltersFail(resource, filters, n - 1, w);
    }
  }

  /** Why a request does not compile: a name that is not configured before everything else, then bounds of the
      period that are not midnights on a source of civil days, then the first wrong filter. */
  function CompileFault(metric: Metric, resource: Resource, dimensions: seq<Dimension>, filters: seq<BoundFilter>,
                        period: Option<ResolvedPeriod>, zone: Zone): ErrorCode {
    var fault := FilterFault(resource, filters, |filters|);
    if !Configured(resource, metric.measure) || !DimensionsConfigured(resource, dimensions)
       || !AliasesReviewed(dimensions) || !FixedConfigured(resource, |resource.fixedFilters|)
       || (period.Some? && !Configured(resource, period.value.dateDimension))
    then NOT_CONFIGURED
    else if !PeriodConfigured(resource, period, zone) then QUERY_INVALID
    else if fault.Some? then fault.value
    else if Path(resource.table).Failed? then NOT_CONFIGURED
    else INTERNAL_ERROR
  }

  lemma FailsWithItsFault(metric: Metric, resource: Resource, dimensions: seq<Dimension>, filters: seq<BoundFilter>,
                          period: Option<ResolvedPeriod>, zone: Zone, sort: seq<Sort>, limit: Option<int>)
    requires AllWellShaped(filters)
    requires Compile(metric, resource, dimensions, filters, period, zone, sort, limit).Failed?
    ensures Compile(metric, resource, dimensions, filters, period, zone, sort, limit)
         == Failed(CompileFault(metric, resource, dimensions, filters, period, zone))
  {
    hide FixedWhere;
    hide FilterWhere;
    hide Groups;
    hide SortOrder;
    hide Path;
    hide Expression;
    hide FixedConfigured;
    hide FilterFault;
    hide DimensionsConfigured;
    hide LocalMidnight;
    PathsAreConfigured(resource, metric.measure);
    GroupsExactlyWhen(resource, dimensions);
    GroupsAreConfigured(resource, dimensions);
    FixedExactlyWhen(resource, |resource.fixedFilters|);
    FixedAreConfigured(resource, |resource.fixedFilters|);
    if period.Some? { PathsAreConfigured(resource, period.value.dateDimension); }
    var fixed := FixedWhere(resource, |resource.fixedFilters|);
    if fixed.Ok? {
      var dated := PeriodWhere(resource, period, zone, fixed.value);
      if dated.Ok? { FiltersFail(resource, filters, |filters|, dated.value); }
    }
    if Groups(resource, dimensions).Ok? { SortsAreOfDimensions(Groups(resource, dimensions).value, sort); }
  }

  // ---------------------------------------------------------------- named periods on civil days

  ghost predicate BoundariesExist(v: RelativePeriod, zone: Zone, now: Instant) {
    && HasMidnight(zone, Civil(StartDay(v, LocalDate(zone, now))))
    && HasMidnight(zone, Civil(EndDay(v, LocalDate(zone, now))))
  }

  /** The statement asks the column for the days from `first` to before `end`. */
  predicate BindsDays(c: Compiled, column: Column, first: Date, end: Date) {
    && Within(column, Spelling(PeriodFrom), Spelling(PeriodTo)) in c.statement.clauses
    && Spelling(PeriodFrom) in c.parameters && c.parameters[Spelling(PeriodFrom)] == Day(first)
    && Spelling(PeriodTo) in c.parameters && c.parameters[Spelling(PeriodTo)] == Day(end)
  }

  /** A named period whose boundary midnights exist never raises the midnight failure, and the
      statement's period parameters are the civil days the resolver chose. */
  lemma NamedPeriodBindsItsDays(v: RelativePeriod, zone: Zone, timezone: string, now: Instant, metric: Metric,
                                resource: Resource, dimensions: seq<Dimension>, filters: seq<BoundFilter>,
                                sort: seq<Sort>, limit: Option<int>, dateDimension: string)
    requires resource.localDate && AllWellShaped(filters) && BoundariesExist(v, zone, now)
    ensures var today, period := LocalDate(zone, now), ResolveRelative(v, zone, timezone, dateDimension, now);
      var r := Compile(metric, resource, dimensions, filters, Some(period), zone, sort, limit);
      && (r.Ok? <==>
            Configured(resource, dateDimension) && Compilable(metric, resource, dimensions, filters, None, zone, sort))
      && (r.Ok? ==>
            BindsDays(r.value, ColumnOf(resource, dateDimension), Civil(StartDay(v, today)), Civil(EndDay(v, today))))
  {
    hide ResolveRelative;
    hide StartDay;
    hide EndDay;
    hide Civil;
    hide LocalDate;
    hide HasMidnight;
    hide LocalMidnight;
    hide Compile;
    var period := ResolveRelative(v, zone, timezone, dateDimension, now);
    ResolvesToCivilDays(v, zone, timezone, dateDimension, now);
    PeriodDimension(v, zone, timezone, dateDimension, now);
    CompilesExactlyWhen(metric, resource, dimensions, filters, Some(period), zone, sort, limit);
    if Compile(metric, resource, dimensions, filters, Some(period), zone, sort, limit).Ok? {
      PeriodIsBound(metric, resource, dimensions, filters, period, zone, sort, limit);
    }
  }

  lemma PeriodDimension(v: RelativePeriod, zone: Zone, timezone: string, dateDimension: string, now: Instant)
    ensures ResolveRelative(v, zone, timezone, dateDimension, now).dateDimension == dateDimension
  {
    hide RelativeBounds;
    hide AtMidnight;
  }

  lemma PeriodIsBound(metric: Metric, resource: Resource, dimensions: seq<Dimension>, filters: seq<BoundFilter>,
                      period: ResolvedPeriod, zone: Zone, sort: seq<Sort>, limit: Option<int>)
    requires AllWellShaped(filters)
    requires Compile(metric, resource, dimensions, filters, Some(period), zone, sort, limit).Ok?
    ensures var c := Compile(metric, resource, dimensions, filters, Some(period), zone, sort, limit).value;
      var column, from, to := ColumnOf(resource, period.dateDimension), Spelling(PeriodFrom), Spelling(PeriodTo);
      && PeriodBounds(resource, period, zone).Ok?
      && Within(column, from, to) in c.statement.clauses
      && from in c.parameters && to in c.parameters
      && (c.parameters[from], c.parameters[to]) == PeriodBounds(resource, period, zone).value
  {
    hide FixedWhere;
    hide FilterWhere;
    hide Groups;
    hide SortOrder;
    hide Path;
    hide Expression;
    hide PeriodBounds;
    var fixed := FixedWhere(resource, |resource.fixedFilters|).value;
    var dated := PeriodWhere(resource, Some(period), zone, fixed).value;
    assert Spelling(PeriodFrom) != Spelling(PeriodTo);
    assert dated.clauses[|fixed.clauses|] in dated.clauses;
    FilterClauseCount(resource, filters, |filters|, dated);
    FiltersKeepOtherNames(resource, filters, |filters|, dated, PeriodFrom);
    FiltersKeepOtherNames(resource, filters, |filters|, dated, PeriodTo);
    var w := WhereOf(resource, filters, Some(period), zone).value;
    assert w.clauses[|fixed.clauses|] == dated.clauses[|fixed.clauses|];
  }

  /** On a source of civil days, a row passes the period exactly when its day is one of the period's. */
  lemma NamedPeriodSelectsItsDays(reading: Reading, sql: Sql, row: Row, v: RelativePeriod, zone: Zone,
                                  timezone: string, now: Instant, resource: Resource, dateDimension: string, d: Date)
    requires forall a, b :: sql.before(DayCell(a), DayCell(b)) == Before(a, b)
    requires resource.localDate && BoundariesExist(v, zone, now)
    requires IsDate(d) && CellAt(row, ColumnOf(resource, dateDimension)) == DayCell(d)
    ensures var today, period := LocalDate(zone, now), ResolveRelative(v, zone, timezone, dateDimension, now);
      PassesAll(reading, sql, row, PeriodTests(resource, Some(period), zone)) <==>
      StartDay(v, today) <= DayOf(d) < EndDay(v, today)
  {
    hide ResolveRelative;
    hide StartDay;
    hide EndDay;
    hide Civil;
    hide LocalDate;
    hide HasMidnight;
    hide LocalMidnight;
    hide Before;
    hide DayOf;
    hide ColumnOf;
    hide IsDate;
    var today := LocalDate(zone, now);
    ResolvesToCivilDays(v, zone, timezone, dateDimension, now);
    PeriodDimension(v, zone, timezone, dateDimension, now);
    DayOfCivil(StartDay(v, today));
    DayOfCivil(EndDay(v, today));
    DaysFollowDates(d, Civil(StartDay(v, today)));
    DaysFollowDates(d, Civil(EndDay(v, today)));
    var period := ResolveRelative(v, zone, timezone, dateDimension, now);
    var t := During(ColumnOf(resource, dateDimension), Day(Civil(StartDay(v, today))), Day(Civil(EndDay(v, today))));
    assert PeriodTests(resource, Some(period), zone) == {t};
  }

  /** On a source of instants, the statement binds the period's own bounds, and a row passes the period
      exactly when its instant lies from the first bound to before the second. */
  lemma PeriodSelectsItsInstants(reading: Reading, sql: Sql, row: Row, period: ResolvedPeriod, zone: Zone,
                                 resource: Resource, t: Instant)
    requires forall a, b :: sql.before(InstantCell(a), InstantCell(b)) == (a < b)
    requires !resource.localDate && CellAt(row, ColumnOf(resource, period.dateDimension)) == InstantCell(t)
    ensures PeriodBounds(resource, period, zone) == Ok((At(period.fromInclusive), At(period.toExclusive)))
    ensures PassesAll(reading, sql, row, PeriodTests(resource, Some(period), zone)) <==>
      period.fromInclusive <= t < period.toExclusive
  {
    hide ColumnOf;
    var bounds := PeriodBounds(resource, period, zone).value;
    var test := During(ColumnOf(resource, period.dateDimension), bounds.0, bounds.1);
    assert PeriodTests(resource, Some(period), zone) == {test};
  }
}
