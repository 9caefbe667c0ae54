/** Which requests the planner finishes. */
module Plannability {
  import opened Contracts
  import opened PeriodResolver
  import opened Registry
  import opened QueryValidator
  import opened SqlCompiler
  import opened SqlMeaning
  import opened Compilability
  import opened QueryPlanner
  import opened CacheAgreement
  import opened NamedPeriods

  /** The period a plan of the metric is about. */
  function PeriodOf(request: Request, metric: Metric, zone: Option<Zone>, timezone: string,
                    now: Instant): Option<ResolvedPeriod>
    requires Readable(request, zone)
  {
    var dateDimension := if metric.dateDimension.Some? then metric.dateDimension.value else "";
    ResolvesExactlyWhen(request.period, zone, timezone, dateDimension, now);
    Resolve(request.period, zone, timezone, dateDimension, now).value
  }

  /** A period is given in a known zone, as a name or as two instants in order; a comparison needs one. */
  predicate Readable(request: Request, zone: Option<Zone>) {
    && (request.period.Some? ==> zone.Some? && IsReadable(request.period.value))
    && (request.comparison.Some? ==> request.period.Some?)
  }

  /** The requests the planner finishes: acceptable ones whose period can be read and whose names, for the
      period and for its comparison, are all configured. */
  predicate Plannable(registry: SemanticRegistry, request: Request, user: User, candidate: bool, zone: Option<Zone>,
                      timezone: string, now: Instant) {
    && Acceptable(registry, request, user, candidate) && Readable(request, zone)
    && var metric := registry.metrics[request.metric];
    && var resource := registry.resources[metric.connector + ":" + metric.resource];
    && var dimensions, filters := DimensionsOf(registry, request.dimensions), FiltersOf(registry, request.filters);
    && var period := PeriodOf(request, metric, zone, timezone, now);
    && var comparison := ComparisonPeriod(request, period, ClockOf(zone));
    && Compilable(metric, resource, dimensions, filters, period, ClockOf(zone), SortsOf(request))
    && (comparison.Some? ==>
          Compilable(metric, resource, dimensions, filters, comparison, ClockOf(zone), SortsOf(request)))
  }

  lemma AcceptedNames(registry: SemanticRegistry, request: Request, user: User, candidate: bool)
    requires Acceptable(registry, request, user, candidate)
    ensures request.metric in registry.metrics
    ensures var metric := registry.metrics[request.metric];
      (metric.connector + ":" + metric.resource) in registry.resources
    ensures forall k :: k in request.dimensions ==> k in registry.dimensions
    ensures forall f :: f in request.filters ==> f.field in registry.dimensions
    ensures AllWellShaped(FiltersOf(registry, request.filters))
  {
    hide Validate;
    AcceptsExactly(registry, request, user, candidate);
    AcceptedParts(registry, request, user, candidate);
    var filters := FiltersOf(registry, request.filters);
    forall f | f in filters ensures WellShaped(f.operator, f.value) {
      var i :| 0 <= i < |filters| && filters[i] == f;
      assert request.filters[i] in request.filters;
    }
  }

  /** How the compilations for the period and for its comparison end. */
  lemma CompilationsEnd(registry: SemanticRegistry, request: Request, user: User, candidate: bool,
                         zone: Option<Zone>, timezone: string, now: Instant)
    requires Acceptable(registry, request, user, candidate) && Readable(request, zone)
    ensures request.metric in registry.metrics
    ensures var metric := registry.metrics[request.metric];
      && (metric.connector + ":" + metric.resource) in registry.resources
      && (forall k :: k in request.dimensions ==> k in registry.dimensions)
      && (forall f :: f in request.filters ==> f.field in registry.dimensions)
      && var resource := registry.resources[metric.connector + ":" + metric.resource];
      var dimensions, filters := DimensionsOf(registry, request.dimensions), FiltersOf(registry, request.filters);
      && AllWellShaped(filters)
      && var period := PeriodOf(request, metric, zone, timezone, now);
      forall asked :: asked in {period, ComparisonPeriod(request, period, ClockOf(zone))} ==>
        var r := Compile(metric, resource, dimensions, filters, asked, ClockOf(zone), SortsOf(request), request.limit);
        && (r.Ok? <==> Compilable(metric, resource, dimensions, filters, asked, ClockOf(zone), SortsOf(request)))
        && (r.Failed? ==> r.code == CompileFault(metric, resource, dimensions, filters, asked, ClockOf(zone)))
  {
    hide Acceptable;
    hide Resolve;
    hide Compile;
    hide Compilable;
    hide CompileFault;
    hide ComparisonPeriod;
    AcceptedNames(registry, request, user, candidate);
    var metric := registry.metrics[request.metric];
    var resource := registry.resources[metric.connector + ":" + metric.resource];
    var dimensions, filters := DimensionsOf(registry, request.dimensions), FiltersOf(registry, request.filters);
    forall asked
      ensures var r :=
        Compile(metric, resource, dimensions, filters, asked, ClockOf(zone), SortsOf(request), request.limit);
        && (r.Ok? <==> Compilable(metric, resource, dimensions, filters, asked, ClockOf(zone), SortsOf(request)))
        && (r.Failed? ==> r.code == CompileFault(metric, resource, dimensions, filters, asked, ClockOf(zone)))
    {
      CompilesExactlyWhen(metric, resource, dimensions, filters, asked, ClockOf(zone), SortsOf(request), request.limit);
      if Compile(metric, resource, dimensions, filters, asked, ClockOf(zone), SortsOf(request), request.limit).Failed? {
        FailsWithItsFault(metric, resource, dimensions, filters, asked, ClockOf(zone), SortsOf(request), request.limit);
      }
    }
  }

  /** The planner finishes a request exactly when it is plannable. */
  lemma PlansExactlyWhen(registry: SemanticRegistry, request: Request, user: User, candidate: bool, zone: Option<Zone>,
                         timezone: string, now: Instant)
    ensures PlanRequest(registry, request, user, candidate, zone, timezone, now).Ok?
       <==> Plannable(registry, request, user, candidate, zone, timezone, now)
  {
    hide Validate;
    hide Acceptable;
    hide Resolve;
    hide Compile;
    hide Compilable;
    hide ComparisonPeriod;
    hide NamesStartingWith;
    hide SemanticOf;
    AcceptsExactly(registry, request, user, candidate);
    if Acceptable(registry, request, user, candidate) {
      AcceptedNames(registry, request, user, candidate);
      var metric := registry.metrics[request.metric];
      var dateDimension := if metric.dateDimension.Some? then metric.dateDimension.value else "";
      ResolvesExactlyWhen(request.period, zone, timezone, dateDimension, now);
      if Readable(request, zone) { CompilationsEnd(registry, request, user, candidate, zone, timezone, now); }
    }
  }

  /** Why the planner fails: what is wrong with the request, then with its period, then with its names for the
      period and for the comparison. */
  function PlanFault(registry: SemanticRegistry, request: Request, user: User, candidate: bool, zone: Option<Zone>,
                     timezone: string, now: Instant): ErrorCode {
    if !Acceptable(registry, request, user, candidate) then Refusal(registry, request, user, candidate)
    else if request.period.Some? && zone.None? then NOT_CONFIGURED
    else if !Readable(request, zone) then QUERY_INVALID
    else
      AcceptedNames(registry, request, user, candidate);
      var metric := registry.metrics[request.metric];
      var resource := registry.resources[metric.connector + ":" + metric.resource];
      var dimensions, filters := DimensionsOf(registry, request.dimensions), FiltersOf(registry, request.filters);
      var period := PeriodOf(request, metric, zone, timezone, now);
      var asked := if Compilable(metric, resource, dimensions, filters, period, ClockOf(zone), SortsOf(request))
                   then ComparisonPeriod(request, period, ClockOf(zone)) else period;
      CompileFault(metric, resource, dimensions, filters, asked, ClockOf(zone))
  }

  lemma PlanFailsWithItsFault(registry: SemanticRegistry, request: Request, user: User, candidate: bool,
                              zone: Option<Zone>, timezone: string, now: Instant)
    requires PlanRequest(registry, request, user, candidate, zone, timezone, now).Failed?
    ensures PlanRequest(registry, request, user, candidate, zone, timezone, now)
         == Failed(PlanFault(registry, request, user, candidate, zone, timezone, now))
  {
    hide Validate;
    hide Acceptable;
    hide Resolve;
    hide Compile;
    hide Compilable;
    hide CompileFault;
    hide Refusal;
    hide ComparisonPeriod;
    hide NamesStartingWith;
    hide SemanticOf;
    AcceptsExactly(registry, request, user, candidate);
    if Acceptable(registry, request, user, candidate) {
      AcceptedNames(registry, request, user, candidate);
      var metric := registry.metrics[request.metric];
      var dateDimension := if metric.dateDimension.Some? then metric.dateDimension.value else "";
      ResolvesExactlyWhen(request.period, zone, timezone, dateDimension, now);
      if Readable(request, zone) { CompilationsEnd(registry, request, user, candidate, zone, timezone, now); }
    } else {
      RefusesWithItsCode(registry, request, user, candidate);
    }
  }

  /** A finished plan lists for a filter exactly the names it binds when, and only when, no other filter whose
      number starts with the same digits binds a parameter. */
  lemma PlansListOwnNames(registry: SemanticRegistry, zone: Option<Zone>, call: Call, p: Plan, i: nat)
    requires Plans(registry, zone, call, p) && i < |p.filters|
    ensures |p.parameterNames| == |p.filters|
    ensures p.parameterNames[i] == OwnNames(p.filters, i)
       <==> forall k: nat :: k < |p.filters| && k != i && Shadows(i, k) ==> OwnNames(p.filters, k) == {}
  {
    hide Plans;
    hide NamesStartingWith;
    hide OwnNames;
    hide Shadows;
    hide SemanticOf;
    hide ComparisonPeriod;
    hide Compile;
    CallIsPlanned(registry, zone, call, p);
    NamesAreListed(registry, zone, call, p);
    var sort, limit := SortsOf(call.request), call.request.limit;
    CompiledNames(p.metric, p.resource, p.dimensions, p.filters, p.period, ClockOf(zone), sort, limit);
    ParameterNamesAreOwnUnlessShadowed(p.resource, p.filters, p.period, ClockOf(zone), i);
  }

  lemma NamesAreListed(registry: SemanticRegistry, zone: Option<Zone>, call: Call, p: Plan)
    requires Plans(registry, zone, call, p)
    ensures |p.parameterNames| == |p.filters|
    ensures forall i :: 0 <= i < |p.filters| ==> p.parameterNames[i] == NamesStartingWith(p.execution.parameters, i)
  {
    hide Validate;
    hide Resolve;
    hide Compile;
    hide ComparisonPeriod;
    hide NamesStartingWith;
    hide SemanticOf;
    AcceptedParts(registry, call.request, call.user, call.candidate);
  }

  lemma CompiledNames(metric: Metric, resource: Resource, dimensions: seq<Dimension>, filters: seq<BoundFilter>,
                      period: Option<ResolvedPeriod>, zone: Zone, sort: seq<Sort>, limit: Option<int>)
    requires AllWellShaped(filters) && Compile(metric, resource, dimensions, filters, period, zone, sort, limit).Ok?
    ensures WhereOf(resource, filters, period, zone).Ok?
    ensures Compile(metric, resource, dimensions, filters, period, zone, sort, limit).value.parameters
         == WhereOf(resource, filters, period, zone).value.parameters
  {
    hide Expression;
    hide WhereOf;
    hide Groups;
    hide Path;
    hide SortOrder;
  }
}
