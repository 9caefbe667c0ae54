/** Requests that share a fingerprint are answered alike: why a cached result may stand for another request's. */
module CacheAgreement {
  import opened Contracts
  import opened PeriodResolver
  import opened Registry
  import opened QueryValidator
  import opened SqlCompiler
  import opened SqlMeaning
  import opened QueryPlanner
  import opened RowOrder
  import Fingerprint
  import Sorting

  function ClockOf(zone: Option<Zone>): Zone { if zone.Some? then zone.value else NoOffset }

  /** The request's dimensions and filters are registered and well shaped. */
  ghost predicate Listed(registry: SemanticRegistry, r: Request) {
    && (forall k :: k in r.dimensions ==> k in registry.dimensions)
    && (forall f :: f in r.filters ==> f.field in registry.dimensions)
    && DistinctTexts(r.dimensions)
    && AllWellShaped(FiltersOf(registry, r.filters))
  }

  /** `c` is the request's statement for one period. */
  ghost predicate CompiledFor(registry: SemanticRegistry, metric: Metric, resource: Resource, r: Request,
                              period: Option<ResolvedPeriod>, zone: Zone, c: Compiled) {
    && Listed(registry, r)
    && Compile(metric, resource, DimensionsOf(registry, r.dimensions), FiltersOf(registry, r.filters), period, zone,
               SortsOf(r), r.limit) == Ok(c)
  }

  /** Everything a finished plan is known to consist of. */
  ghost predicate PlannedFrom(registry: SemanticRegistry, request: Request, zone: Option<Zone>, p: Plan) {
    && request.metric in registry.metrics && p.metric == registry.metrics[request.metric]
    && registry.ResourceNamed(p.metric.connector, p.metric.resource) == Ok(p.resource)
    && Listed(registry, request)
    && p.dimensions == DimensionsOf(registry, request.dimensions)
    && p.filters == FiltersOf(registry, request.filters)
    && p.comparison == ComparisonPeriod(request, p.period, ClockOf(zone))
    && p.semantic == SemanticOf(registry, p.organization, p.metric, p.resource, request, p.period, p.comparison)
    && p.maxRows == LimitOf(request)
    && CompiledFor(registry, p.metric, p.resource, request, p.period, ClockOf(zone), p.execution)
    && (p.comparison.None? <==> p.comparisonExecution.None?)
    && (p.comparison.Some? ==>
          CompiledFor(registry, p.metric, p.resource, request, p.comparison, ClockOf(zone),
                      p.comparisonExecution.value))
    && (forall f :: f in request.filters ==> !f.value.Malformed?)
  }

  lemma PlansArePlanned(registry: SemanticRegistry, request: Request, user: User, candidate: bool, zone: Option<Zone>,
                        timezone: string, now: Instant)
    requires PlanRequest(registry, request, user, candidate, zone, timezone, now).Ok?
    ensures var p := PlanRequest(registry, request, user, candidate, zone, timezone, now).value;
      PlannedFrom(registry, request, zone, p)
  {
    hide Validate;
    hide Compile;
    hide ComparisonPeriod;
    hide Resolve;
    hide NamesStartingWith;
    AcceptsExactly(registry, request, user, candidate);
    ResourceIsLookedUp(registry, request, user, candidate);
    var p := PlanRequest(registry, request, user, candidate, zone, timezone, now).value;
    forall f | f in p.filters ensures WellShaped(f.operator, f.value) {
      var i :| 0 <= i < |p.filters| && p.filters[i] == f;
      assert request.filters[i] in request.filters;
    }
  }

  lemma ResourceIsLookedUp(registry: SemanticRegistry, request: Request, user: User, candidate: bool)
    requires Validate(registry, request, user, candidate).Ok?
    ensures var (metric, resource) := Validate(registry, request, user, candidate).value;
      registry.ResourceNamed(metric.connector, metric.resource) == Ok(resource)
  {
    hide CheckDimensions;
    hide CheckFilters;
    hide CheckPolicy;
  }

  // ---------------------------------------------------------------- the same question

  lemma GroupMapOf(registry: SemanticRegistry, resource: Resource, keys: seq<string>, k: string)
    requires registry.Registered() && (forall k :: k in keys ==> k in registry.dimensions) && DistinctTexts(keys)
    requires Groups(resource, DimensionsOf(registry, keys)).Ok?
    ensures var groups := Groups(resource, DimensionsOf(registry, keys)).value;
      var m := Labelled(groups, Columns(groups));
      && (k in m <==> k in keys)
      && (k in keys ==> m[k] == ColumnOf(resource, registry.dimensions[k].expression))
  {
    hide Groups;
    hide ColumnOf;
    var dimensions := DimensionsOf(registry, keys);
    var groups := Groups(resource, dimensions).value;
    GroupsOfDimensions(resource, dimensions);
    assert forall i :: 0 <= i < |groups| ==> groups[i].alias == keys[i];
    LabelledKeys(groups, Columns(groups), k);
    if k in keys {
      var i :| 0 <= i < |keys| && keys[i] == k;
      assert groups[i].alias == k;
      LabelledLookup(groups, Columns(groups), i);
    }
  }

  /** The order of the dimensions does not matter to the columns they group by. */
  lemma SameGroups(registry: SemanticRegistry, resource: Resource, a: seq<string>, b: seq<string>)
    requires registry.Registered() && (forall k :: k in a + b ==> k in registry.dimensions)
    requires DistinctTexts(a) && DistinctTexts(b) && multiset(a) == multiset(b)
    requires (forall k :: k in a ==> k in registry.dimensions) && (forall k :: k in b ==> k in registry.dimensions)
    requires Groups(resource, DimensionsOf(registry, a)).Ok? && Groups(resource, DimensionsOf(registry, b)).Ok?
    ensures var ga := Groups(resource, DimensionsOf(registry, a)).value;
      var gb := Groups(resource, DimensionsOf(registry, b)).value;
      Labelled(ga, Columns(ga)) == Labelled(gb, Columns(gb))
  {
    hide Groups;
    hide ColumnOf;
    hide Labelled;
    Sorting.SameMembers(a, b);
    var ga, gb := Groups(resource, DimensionsOf(registry, a)).value, Groups(resource, DimensionsOf(registry, b)).value;
    var x, y := Labelled(ga, Columns(ga)), Labelled(gb, Columns(gb));
    forall k ensures (k in x <==> k in y) && (k in x ==> x[k] == y[k]) {
      GroupMapOf(registry, resource, a, k);
      GroupMapOf(registry, resource, b, k);
    }
  }

  /** The order of the filters does not matter to what they ask. */
  lemma SameTests(registry: SemanticRegistry, resource: Resource, a: seq<Filter>, b: seq<Filter>,
                  period: Option<ResolvedPeriod>, zone: Zone)
    requires multiset(a) == multiset(b)
    requires (forall f :: f in a ==> f.field in registry.dimensions)
    requires (forall f :: f in b ==> f.field in registry.dimensions)
    ensures Tests(resource, FiltersOf(registry, a), period, zone)
         == Tests(resource, FiltersOf(registry, b), period, zone)
  {
    Sorting.SameMembers(a, b);
    var x, y := FiltersOf(registry, a), FiltersOf(registry, b);
    forall g ensures g in x <==> g in y {
      if g in x {
        var i :| 0 <= i < |x| && x[i] == g;
        assert a[i] in b;
        var j :| 0 <= j < |b| && b[j] == a[i];
        assert y[j] == g;
      }
      if g in y {
        var i :| 0 <= i < |y| && y[i] == g;
        assert b[i] in a;
        var j :| 0 <= j < |a| && a[j] == b[i];
        assert x[j] == g;
      }
    }
  }

  lemma DimensionKeysDistinct(registry: SemanticRegistry, keys: seq<string>)
    requires registry.Registered() && (forall k :: k in keys ==> k in registry.dimensions) && DistinctTexts(keys)
    ensures DistinctKeys(DimensionsOf(registry, keys))
  {
  }

  lemma CompiledParts(metric: Metric, resource: Resource, dimensions: seq<Dimension>, filters: seq<BoundFilter>,
                      period: Option<ResolvedPeriod>, zone: Zone, sort: seq<Sort>, limit: Option<int>)
    requires AllWellShaped(filters) && Compile(metric, resource, dimensions, filters, period, zone, sort, limit).Ok?
    ensures Groups(resource, dimensions).Ok? && Path(resource.table).Ok?
    ensures Compile(metric, resource, dimensions, filters, period, zone, sort, limit).value.statement.top
         == if limit.Some? then limit.value else DEFAULT_LIMIT
  {
    hide Expression;
    hide WhereOf;
    hide Groups;
    hide Path;
    hide SortOrder;
  }

  /** What two plans with one fingerprint have in common. */
  lemma PlansShare(registry: SemanticRegistry, r: Request, p: Plan, s: Request, q: Plan, zone: Option<Zone>,
                   o: Fingerprint.Collation)
    requires registry.Registered() && Fingerprint.Collates(o)
    requires PlannedFrom(registry, r, zone, p) && PlannedFrom(registry, s, zone, q)
    requires Fingerprint.PreImage(p.semantic, o) == Fingerprint.PreImage(q.semantic, o)
    ensures p.organization == q.organization && p.metric == q.metric && p.resource == q.resource
    ensures multiset(r.dimensions) == multiset(s.dimensions) && multiset(r.filters) == multiset(s.filters)
    ensures p.period == q.period && p.comparison == q.comparison
    ensures r.sort == s.sort && LimitOf(r) == LimitOf(s)
  {
    hide Fingerprint.PreImage;
    hide Compile;
    hide ComparisonPeriod;
    hide DimensionsOf;
    hide FiltersOf;
    Fingerprint.FingerprintsIdentify(p.semantic, q.semantic, o);
    assert p.semantic.comparison == q.semantic.comparison;
    ComparisonIsFingerprinted(r, p, zone);
    ComparisonIsFingerprinted(s, q, zone);
  }

  lemma ComparisonIsFingerprinted(r: Request, p: Plan, zone: Option<Zone>)
    requires p.comparison == ComparisonPeriod(r, p.period, ClockOf(zone))
    ensures r.comparison.None? ==> p.comparison.None?
  {
  }

  /** The statements of one question, compiled for two requests of one fingerprint. */
  lemma StatementsAgree(sql: Sql, db: Database, registry: SemanticRegistry, metric: Metric, resource: Resource,
                        r: Request, s: Request, period: Option<ResolvedPeriod>, zone: Zone, c: Compiled, d: Compiled)
    requires KeepsText(sql) && registry.Registered()
    requires multiset(r.dimensions) == multiset(s.dimensions) && multiset(r.filters) == multiset(s.filters)
    requires CompiledFor(registry, metric, resource, r, period, zone, c)
    requires CompiledFor(registry, metric, resource, s, period, zone, d)
    ensures Executable(c) && Executable(d)
    ensures Grouped(sql, db, c) == Grouped(sql, db, d)
    ensures c.statement.top == LimitOf(r) && d.statement.top == LimitOf(s)
  {
    hide Compile;
    hide Groups;
    hide Tests;
    hide Labelled;
    hide Grouped;
    hide Answer;
    var rd, rf := DimensionsOf(registry, r.dimensions), FiltersOf(registry, r.filters);
    var sd, sf := DimensionsOf(registry, s.dimensions), FiltersOf(registry, s.filters);
    DimensionKeysDistinct(registry, r.dimensions);
    DimensionKeysDistinct(registry, s.dimensions);
    hide DimensionsOf;
    hide FiltersOf;
    CompilationPreservesMeaning(AsPattern, sql, db, metric, resource, rd, rf, period, zone, SortsOf(r), r.limit);
    CompilationPreservesMeaning(AsPattern, sql, db, metric, resource, sd, sf, period, zone, SortsOf(s), s.limit);
    CompiledParts(metric, resource, rd, rf, period, zone, SortsOf(r), r.limit);
    CompiledParts(metric, resource, sd, sf, period, zone, SortsOf(s), s.limit);
    SameGroups(registry, resource, r.dimensions, s.dimensions);
    SameTests(registry, resource, r.filters, s.filters, period, zone);
    assert QuestionOf(metric, resource, rd, rf, period, zone) == QuestionOf(metric, resource, sd, sf, period, zone);
  }

  // ---------------------------------------------------------------- the same answers

  ghost predicate SameRows(a: seq<ResultRow>, b: seq<ResultRow>) { forall x :: x in a <==> x in b }

  /** One statement's groups are the other's, and so are its returned rows unless TOP cuts them. */
  ghost predicate AnsweredAlike(sql: Sql, db: Database, c: Compiled, d: Compiled) {
    && Executable(c) && Executable(d)
    && Grouped(sql, db, c) == Grouped(sql, db, d)
    && (|Grouped(sql, db, c)| <= c.statement.top ==>
          forall a, b :: Returned(sql, db, c, a) && Returned(sql, db, d, b) ==> SameRows(a, b))
  }

  /** So are the two plans' statements for the period, and those for its comparison. */
  ghost predicate PlansAnsweredAlike(sql: Sql, db: Database, p: Plan, q: Plan) {
    && AnsweredAlike(sql, db, p.execution, q.execution)
    && (p.comparisonExecution.Some? <==> q.comparisonExecution.Some?)
    && (p.comparisonExecution.Some? ==>
          AnsweredAlike(sql, db, p.comparisonExecution.value, q.comparisonExecution.value))
  }

  lemma AlikeWhenUncut(sql: Sql, db: Database, c: Compiled, d: Compiled)
    requires Executable(c) && Executable(d)
    requires Grouped(sql, db, c) == Grouped(sql, db, d) && c.statement.top == d.statement.top
    ensures AnsweredAlike(sql, db, c, d)
  {
    hide Executable;
    hide Grouped;
    if |Grouped(sql, db, c)| <= c.statement.top {
      forall a, b | Returned(sql, db, c, a) && Returned(sql, db, d, b) ensures SameRows(a, b) {
        UncutReturnsEverything(sql, db, c, a);
        UncutReturnsEverything(sql, db, d, b);
        assert forall x :: x in a <==> x in (set y | y in a);
        assert forall x :: x in b <==> x in (set y | y in b);
      }
    }
  }

  lemma PlansAgree(sql: Sql, db: Database, registry: SemanticRegistry, r: Request, p: Plan, s: Request, q: Plan,
                   zone: Option<Zone>, o: Fingerprint.Collation)
    requires KeepsText(sql) && registry.Registered() && Fingerprint.Collates(o)
    requires PlannedFrom(registry, r, zone, p) && PlannedFrom(registry, s, zone, q)
    requires Fingerprint.PreImage(p.semantic, o) == Fingerprint.PreImage(q.semantic, o)
    ensures p.organization == q.organization && PlansAnsweredAlike(sql, db, p, q)
  {
    hide CompiledFor;
    hide Listed;
    hide ComparisonPeriod;
    hide SemanticOf;
    hide Executable;
    hide Grouped;
    hide Fingerprint.PreImage;
    hide AnsweredAlike;
    PlansShare(registry, r, p, s, q, zone, o);
    StatementsAgree(sql, db, registry, p.metric, p.resource, r, s, p.period, ClockOf(zone), p.execution, q.execution);
    AlikeWhenUncut(sql, db, p.execution, q.execution);
    if p.comparison.Some? {
      var c, d := p.comparisonExecution.value, q.comparisonExecution.value;
      StatementsAgree(sql, db, registry, p.metric, p.resource, r, s, p.comparison, ClockOf(zone), c, d);
      AlikeWhenUncut(sql, db, c, d);
    }
  }

  /** One call of the planner. */
  datatype Call = Call(request: Request, user: User, candidate: bool, timezone: string, now: Instant)

  ghost predicate Plans(registry: SemanticRegistry, zone: Option<Zone>, call: Call, p: Plan) {
    PlanRequest(registry, call.request, call.user, call.candidate, zone, call.timezone, call.now) == Ok(p)
  }

  lemma CallIsPlanned(registry: SemanticRegistry, zone: Option<Zone>, call: Call, p: Plan)
    requires Plans(registry, zone, call, p)
    ensures PlannedFrom(registry, call.request, zone, p)
  {
    hide PlanRequest;
    hide PlannedFrom;
    PlansArePlanned(registry, call.request, call.user, call.candidate, zone, call.timezone, call.now);
  }

  /** Two requests with one fingerprint belong to one organization, and their statements, the
      comparison's included, group the same rows into the same results whatever the order of their
      dimensions and filters; the rows they return are the same unless TOP cuts them. */
  lemma CacheAgrees(sql: Sql, db: Database, registry: SemanticRegistry, r: Call, p: Plan, s: Call, q: Plan,
                    zone: Option<Zone>, o: Fingerprint.Collation)
    requires KeepsText(sql) && registry.Registered() && Fingerprint.Collates(o)
    requires Plans(registry, zone, r, p) && Plans(registry, zone, s, q)
    requires Fingerprint.PreImage(p.semantic, o) == Fingerprint.PreImage(q.semantic, o)
    ensures p.organization == q.organization && PlansAnsweredAlike(sql, db, p, q)
  {
    hide Plans;
    hide PlannedFrom;
    hide PlansAnsweredAlike;
    hide Fingerprint.PreImage;
    CallIsPlanned(registry, zone, r, p);
    CallIsPlanned(registry, zone, s, q);
    PlansAgree(sql, db, registry, r.request, p, s.request, q, zone, o);
  }

  /** Reordering the dimensions or the filters of a request does not change its fingerprint. */
  lemma ReorderedRequestsShareAFingerprint(registry: SemanticRegistry, r: Call, p: Plan, s: Call, q: Plan,
                                           zone: Option<Zone>, o: Fingerprint.Collation)
    requires registry.Registered() && Fingerprint.Collates(o)
    requires Plans(registry, zone, r, p) && Plans(registry, zone, s, q)
    requires s == r.(request := r.request.(dimensions := s.request.dimensions, filters := s.request.filters))
    requires multiset(r.request.dimensions) == multiset(s.request.dimensions)
    requires multiset(r.request.filters) == multiset(s.request.filters)
    ensures Fingerprint.PreImage(p.semantic, o) == Fingerprint.PreImage(q.semantic, o)
  {
    hide Plans;
    hide PlannedFrom;
    hide Fingerprint.PreImage;
    hide Fingerprint.Sendable;
    hide Fingerprint.SameSemantic;
    CallIsPlanned(registry, zone, r, p);
    CallIsPlanned(registry, zone, s, q);
    CallsResolveAlike(registry, r, p, s, q, zone);
    ReorderedSemantics(registry, r.request, p, s.request, q, zone);
    Fingerprint.FingerprintsIdentify(p.semantic, q.semantic, o);
  }

  lemma CallsResolveAlike(registry: SemanticRegistry, r: Call, p: Plan, s: Call, q: Plan, zone: Option<Zone>)
    requires Plans(registry, zone, r, p) && Plans(registry, zone, s, q)
    requires PlannedFrom(registry, r.request, zone, p) && PlannedFrom(registry, s.request, zone, q)
    requires s == r.(request := r.request.(dimensions := s.request.dimensions, filters := s.request.filters))
    ensures p.organization == q.organization && p.period == q.period
  {
    PlannedPeriod(registry, r.request, r.user, r.candidate, zone, r.timezone, r.now);
    PlannedPeriod(registry, s.request, s.user, s.candidate, zone, s.timezone, s.now);
    hide PlanRequest;
    hide CompiledFor;
    hide Listed;
    hide ComparisonPeriod;
    hide SemanticOf;
    hide Resolve;
  }

  lemma ReorderedSemantics(registry: SemanticRegistry, r: Request, p: Plan, s: Request, q: Plan, zone: Option<Zone>)
    requires registry.Registered() && p.organization == q.organization && p.period == q.period
    requires PlannedFrom(registry, r, zone, p) && PlannedFrom(registry, s, zone, q)
    requires s == r.(dimensions := s.dimensions, filters := s.filters)
    requires multiset(r.dimensions) == multiset(s.dimensions) && multiset(r.filters) == multiset(s.filters)
    ensures Fingerprint.Sendable(p.semantic) && Fingerprint.Sendable(q.semantic)
    ensures Fingerprint.SameSemantic(p.semantic, q.semantic)
  {
    hide CompiledFor;
    hide Listed;
    hide ComparisonPeriod;
    ComparisonIgnoresOrder(r, s, p.period, ClockOf(zone));
  }

  lemma ComparisonIgnoresOrder(r: Request, s: Request, period: Option<ResolvedPeriod>, zone: Zone)
    requires r.comparison == s.comparison && r.period == s.period
    ensures ComparisonPeriod(r, period, zone) == ComparisonPeriod(s, period, zone)
  {
  }

  lemma PlannedPeriod(registry: SemanticRegistry, request: Request, user: User, candidate: bool, zone: Option<Zone>,
                      timezone: string, now: Instant)
    requires PlanRequest(registry, request, user, candidate, zone, timezone, now).Ok?
    ensures var p := PlanRequest(registry, request, user, candidate, zone, timezone, now).value;
      && user.organization == Some(p.organization)
      && var dateDimension := if p.metric.dateDimension.Some? then p.metric.dateDimension.value else "";
      Resolve(request.period, zone, timezone, dateDimension, now) == Ok(p.period)
  {
    hide Compile;
    hide ComparisonPeriod;
    hide Resolve;
    hide NamesStartingWith;
    hide SemanticOf;
    hide Validate;
    AcceptsExactly(registry, request, user, candidate);
  }

  /** The currency a request names, or its metric's. */
  function CurrencyOf(r: Request, metric: Metric): Option<string> {
    if r.currency.Some? then r.currency else metric.currency
  }

  /** The two calls ask for the same, but for the order of dimensions and filters. */
  ghost predicate AskAlike(r: Call, p: Plan, s: Call, q: Plan) {
    && r.user.organization == s.user.organization && r.request.metric == s.request.metric
    && multiset(r.request.dimensions) == multiset(s.request.dimensions)
    && multiset(r.request.filters) == multiset(s.request.filters)
    && p.period == q.period
    && r.request.comparison == s.request.comparison && p.comparison == q.comparison
    && CurrencyOf(r.request, p.metric) == CurrencyOf(s.request, q.metric)
    && r.request.sort == s.request.sort
    && (if r.request.limit.Some? then r.request.limit.value else 1000)
       == (if s.request.limit.Some? then s.request.limit.value else 1000)
  }

  /** Two plans share a fingerprint exactly when their calls ask for the same. */
  lemma PlansShareExactlyWhen(registry: SemanticRegistry, r: Call, p: Plan, s: Call, q: Plan, zone: Option<Zone>,
                              o: Fingerprint.Collation)
    requires registry.Registered() && Fingerprint.Collates(o)
    requires Plans(registry, zone, r, p) && Plans(registry, zone, s, q)
    ensures Fingerprint.PreImage(p.semantic, o) == Fingerprint.PreImage(q.semantic, o) <==> AskAlike(r, p, s, q)
  {
    hide Plans;
    hide PlannedFrom;
    hide Fingerprint.PreImage;
    hide Fingerprint.Sendable;
    hide Fingerprint.SameSemantic;
    hide AskAlike;
    CallIsPlanned(registry, zone, r, p);
    CallIsPlanned(registry, zone, s, q);
    PlannedOrganization(registry, zone, r, p);
    PlannedOrganization(registry, zone, s, q);
    SemanticsAskAlike(registry, r, p, s, q, zone);
    Fingerprint.FingerprintsIdentify(p.semantic, q.semantic, o);
  }

  lemma PlannedOrganization(registry: SemanticRegistry, zone: Option<Zone>, call: Call, p: Plan)
    requires Plans(registry, zone, call, p)
    ensures call.user.organization == Some(p.organization)
  {
    PlannedPeriod(registry, call.request, call.user, call.candidate, zone, call.timezone, call.now);
    hide PlanRequest;
  }

  lemma SemanticsAskAlike(registry: SemanticRegistry, r: Call, p: Plan, s: Call, q: Plan, zone: Option<Zone>)
    requires registry.Registered()
    requires PlannedFrom(registry, r.request, zone, p) && PlannedFrom(registry, s.request, zone, q)
    requires r.user.organization == Some(p.organization) && s.user.organization == Some(q.organization)
    ensures Fingerprint.Sendable(p.semantic) && Fingerprint.Sendable(q.semantic)
    ensures Fingerprint.SameSemantic(p.semantic, q.semantic) <==> AskAlike(r, p, s, q)
  {
    hide CompiledFor;
    hide Listed;
    hide ComparisonPeriod;
    ComparisonIsFingerprinted(r.request, p, zone);
    ComparisonIsFingerprinted(s.request, q, zone);
  }

  // ---------------------------------------------------------------- the same rows, even when cut

  /** What the requests show before they are sent: without a sort their dimensions are in one order,
      and a sort names every dimension. */
  predicate OrderedAlike(r: Request, s: Request) {
    if SortsOf(r) == [] then r.dimensions == s.dimensions
    else forall k :: k in r.dimensions ==> exists i :: 0 <= i < |SortsOf(r)| && SortsOf(r)[i].field == k
  }

  lemma {:induction false} SortedByFields(groups: seq<Group>, sort: seq<Sort>)
    requires SortOrder(groups, sort).Ok?
    ensures var order := SortOrder(groups, sort).value;
      |order| == |sort| && forall i :: 0 <= i < |sort| ==>
        order[i].group.alias == sort[i].field && order[i].ascending == sort[i].ascending
  {
    if sort != [] {
      SortedByFields(groups, sort[1..]);
      GroupNamed(groups, sort[0].field);
    }
  }

  lemma {:induction false} GroupNamed(groups: seq<Group>, key: string)
    requires GroupOf(groups, key).Ok?
    ensures GroupOf(groups, key).value.alias == key
  {
    if groups[0].alias != key { GroupNamed(groups[1..], key); }
  }

  /** The groups and the order of a compiled statement. */
  lemma CompiledOrder(registry: SemanticRegistry, metric: Metric, resource: Resource, keys: seq<string>,
                      filters: seq<BoundFilter>, period: Option<ResolvedPeriod>, zone: Zone, sort: seq<Sort>,
                      limit: Option<int>, c: Compiled)
    requires registry.Registered() && (forall k :: k in keys ==> k in registry.dimensions) && AllWellShaped(filters)
    requires Compile(metric, resource, DimensionsOf(registry, keys), filters, period, zone, sort, limit) == Ok(c)
    ensures Groups(resource, DimensionsOf(registry, keys)) == Ok(c.statement.groups)
    ensures |c.statement.groups| == |keys| && forall i :: 0 <= i < |keys| ==> c.statement.groups[i].alias == keys[i]
    ensures if sort == [] then c.statement.orderBy == DefaultOrder(c.statement.groups)
            else SortOrder(c.statement.groups, sort) == Ok(c.statement.orderBy)
  {
    hide Expression;
    hide WhereOf;
    hide Groups;
    hide Path;
    hide SortOrder;
    GroupsOfDimensions(resource, DimensionsOf(registry, keys));
  }

  /** The two orders sort by the same names, and by every group. */
  lemma OrdersAlike(r: Request, s: Request, c: Compiled, d: Compiled)
    requires OrderedAlike(r, s) && SortsOf(r) == SortsOf(s) && DistinctTexts(r.dimensions)
    requires |c.statement.groups| == |r.dimensions| && forall i :: 0 <= i < |r.dimensions| ==>
      c.statement.groups[i].alias == r.dimensions[i]
    requires |d.statement.groups| == |s.dimensions| && forall i :: 0 <= i < |s.dimensions| ==>
      d.statement.groups[i].alias == s.dimensions[i]
    requires SortsOf(r) == [] ==>
      c.statement.orderBy == DefaultOrder(c.statement.groups) && d.statement.orderBy == DefaultOrder(d.statement.groups)
    requires SortsOf(r) != [] ==> SortOrder(c.statement.groups, SortsOf(r)) == Ok(c.statement.orderBy)
    requires SortsOf(r) != [] ==> SortOrder(d.statement.groups, SortsOf(r)) == Ok(d.statement.orderBy)
    ensures SameNames(c.statement.orderBy, d.statement.orderBy)
    ensures Covers(c.statement.orderBy, c.statement.groups) && DistinctAliases(c.statement.groups)
  {
    hide SortOrder;
    hide DefaultOrder;
    if SortsOf(r) != [] {
      SortedByFields(c.statement.groups, SortsOf(r));
      SortedByFields(d.statement.groups, SortsOf(r));
    }
    forall g | g in c.statement.groups
      ensures exists i :: 0 <= i < |c.statement.orderBy| && c.statement.orderBy[i].group.alias == g.alias
    {
      var m :| 0 <= m < |c.statement.groups| && c.statement.groups[m] == g;
      assert r.dimensions[m] in r.dimensions;
      if SortsOf(r) == [] {
        assert c.statement.orderBy[m].group.alias == g.alias;
      } else {
        var i :| 0 <= i < |SortsOf(r)| && SortsOf(r)[i].field == r.dimensions[m];
        assert c.statement.orderBy[i].group.alias == g.alias;
      }
    }
  }

  /** Any two answers of the two statements are the same rows in the same order. */
  ghost predicate OneAnswer(sql: Sql, db: Database, c: Compiled, d: Compiled) {
    && Executable(c) && Executable(d)
    && forall a, b :: Returned(sql, db, c, a) && Returned(sql, db, d, b) ==> a == b
  }

  /** So are those of the two plans, for the period and for its comparison. */
  ghost predicate PlansHaveOneAnswer(sql: Sql, db: Database, p: Plan, q: Plan) {
    && OneAnswer(sql, db, p.execution, q.execution)
    && (p.comparisonExecution.Some? <==> q.comparisonExecution.Some?)
    && (p.comparisonExecution.Some? ==> OneAnswer(sql, db, p.comparisonExecution.value, q.comparisonExecution.value))
  }

  /** Two statements of one question, ordered alike, have one answer. */
  lemma OrderedStatementsAgree(sql: Sql, db: Database, registry: SemanticRegistry, metric: Metric, resource: Resource,
                               r: Request, s: Request, period: Option<ResolvedPeriod>, zone: Zone, c: Compiled,
                               d: Compiled)
    requires registry.Registered() && OrdersCells(sql) && OrderedAlike(r, s)
    requires SortsOf(r) == SortsOf(s) && LimitOf(r) == LimitOf(s)
    requires CompiledFor(registry, metric, resource, r, period, zone, c)
    requires CompiledFor(registry, metric, resource, s, period, zone, d)
    requires Executable(c) && Executable(d) && Grouped(sql, db, c) == Grouped(sql, db, d)
    requires c.statement.top == LimitOf(r) && d.statement.top == LimitOf(s)
    ensures OneAnswer(sql, db, c, d)
  {
    hide Compile;
    hide Returned;
    hide Grouped;
    hide OrdersCells;
    hide Executable;
    hide OrderedAlike;
    CompiledOrder(registry, metric, resource, r.dimensions, FiltersOf(registry, r.filters), period, zone, SortsOf(r),
                  r.limit, c);
    CompiledOrder(registry, metric, resource, s.dimensions, FiltersOf(registry, s.filters), period, zone, SortsOf(s),
                  s.limit, d);
    hide CompiledFor;
    hide Listed;
    hide DimensionsOf;
    hide Groups;
    hide SortOrder;
    hide DefaultOrder;
    OrdersAlike(r, s, c, d);
    forall a, b | Returned(sql, db, c, a) && Returned(sql, db, d, b) ensures a == b {
      CoveringOrderFixesTheAnswer(sql, db, c, d, a, b);
    }
  }

  /** Two requests with one fingerprint that are ordered alike return the same rows in the same order,
      for the period and for its comparison, whether TOP cuts them or not. */
  lemma OrderedAlikeAgreesEvenCut(sql: Sql, db: Database, registry: SemanticRegistry, r: Call, p: Plan, s: Call,
                                  q: Plan, zone: Option<Zone>, o: Fingerprint.Collation)
    requires KeepsText(sql) && OrdersCells(sql) && registry.Registered() && Fingerprint.Collates(o)
    requires Plans(registry, zone, r, p) && Plans(registry, zone, s, q)
    requires Fingerprint.PreImage(p.semantic, o) == Fingerprint.PreImage(q.semantic, o)
    requires OrderedAlike(r.request, s.request)
    ensures PlansHaveOneAnswer(sql, db, p, q)
  {
    hide Plans;
    hide PlannedFrom;
    hide PlansHaveOneAnswer;
    hide OrderedAlike;
    hide Fingerprint.PreImage;
    CallIsPlanned(registry, zone, r, p);
    CallIsPlanned(registry, zone, s, q);
    OrderedPlansHaveOneAnswer(sql, db, registry, r.request, p, s.request, q, zone, o);
  }

  lemma OrderedPlansHaveOneAnswer(sql: Sql, db: Database, registry: SemanticRegistry, r: Request, p: Plan, s: Request,
                                  q: Plan, zone: Option<Zone>, o: Fingerprint.Collation)
    requires KeepsText(sql) && OrdersCells(sql) && registry.Registered() && Fingerprint.Collates(o)
    requires PlannedFrom(registry, r, zone, p) && PlannedFrom(registry, s, zone, q)
    requires Fingerprint.PreImage(p.semantic, o) == Fingerprint.PreImage(q.semantic, o)
    requires OrderedAlike(r, s)
    ensures PlansHaveOneAnswer(sql, db, p, q)
  {
    hide CompiledFor;
    hide Listed;
    hide ComparisonPeriod;
    hide SemanticOf;
    hide Executable;
    hide Grouped;
    hide Fingerprint.PreImage;
    hide OrderedAlike;
    hide OneAnswer;
    hide OrdersCells;
    PlansShare(registry, r, p, s, q, zone, o);
    var clock := ClockOf(zone);
    StatementsAgree(sql, db, registry, p.metric, p.resource, r, s, p.period, clock, p.execution, q.execution);
    OrderedStatementsAgree(sql, db, registry, p.metric, p.resource, r, s, p.period, clock, p.execution, q.execution);
    if p.comparison.Some? {
      var c, d := p.comparisonExecution.value, q.comparisonExecution.value;
      StatementsAgree(sql, db, registry, p.metric, p.resource, r, s, p.comparison, clock, c, d);
      OrderedStatementsAgree(sql, db, registry, p.metric, p.resource, r, s, p.comparison, clock, c, d);
    }
  }
}
