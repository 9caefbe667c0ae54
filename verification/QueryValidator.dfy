/** `QueryValidatorService`: what a well-formed request is. */
module QueryValidator {
  import opened Contracts
  import opened PeriodResolver
  import opened Registry
  import opened SqlCompiler

  const FORBIDDEN_FIELDS := {"scope", "organizationId", "connector", "sql", "statement"}

  function Check(condition: bool, code: ErrorCode): Outcome<()> {
    if condition then Ok(()) else Failed(code)
  }

  predicate FromResource(d: Dimension, resource: Resource) {
    d.connector == resource.connector && d.resource == resource.key
  }

  function CheckDimensions(registry: SemanticRegistry, metric: Metric, resource: Resource,
                           keys: seq<string>): Outcome<()> {
    if keys == [] then Ok(())
    else
      var _ :- Check(keys[0] in metric.allowedDimensions, QUERY_INVALID);
      var d :- registry.DimensionNamed(keys[0]);
      var _ :- Check(FromResource(d, resource), QUERY_INVALID);
      CheckDimensions(registry, metric, resource, keys[1..])
  }

  function ShapeOf(dimensions: seq<string>): Shape {
    if dimensions != [] then TIME_SERIES else SCALAR
  }

  predicate DistinctTexts(keys: seq<string>) {
    forall i, j :: 0 <= i < j < |keys| ==> keys[i] != keys[j]
  }

  predicate Monthly(registry: SemanticRegistry, key: string) {
    key in registry.dimensions && registry.dimensions[key].monthly
  }

  predicate Aligned(registry: SemanticRegistry, key: string) {
    key in registry.dimensions && registry.dimensions[key].aligned
  }

  function CheckPolicy(registry: SemanticRegistry, metric: Metric, request: Request): Outcome<()> {
    if metric.policy.None? then Ok(())
    else
      var shape := ShapeOf(request.dimensions);
      var _ :- Check(shape in metric.policy.value.shapes, QUERY_INVALID);
      var monthly := forall k :: k in request.dimensions ==> Monthly(registry, k);
      var _ :- Check(shape == TIME_SERIES ==> monthly, QUERY_INVALID);
      Check(request.comparison.Some? ==> forall k :: k in request.dimensions ==> Aligned(registry, k), QUERY_INVALID)
  }

  /** Scalars, or an array of them without null. */
  predicate ValidValue(value: FilterValue) {
    match value
    case One(_) => true
    case Many(vs) => forall v :: v in vs ==> v != Null
    case Malformed => false
  }

  predicate ShapedFor(operator: Operator, value: FilterValue) {
    && (operator == BETWEEN ==> value.Many? && |value.scalars| == 2)
    && (operator in {IN, NOT_IN} ==> value.Many? && |value.scalars| > 0)
    && (operator !in {IN, NOT_IN, BETWEEN} ==> !value.Many?)
  }

  function CheckFilters(registry: SemanticRegistry, metric: Metric, resource: Resource,
                        filters: seq<Filter>): Outcome<()> {
    if filters == [] then Ok(())
    else
      var f := filters[0];
      var _ :- Check(f.field in metric.allowedFilters, QUERY_INVALID);
      var _ :- Check(ValidValue(f.value), QUERY_INVALID);
      var d :- registry.DimensionNamed(f.field);
      var _ :- Check(f.operator in d.operators && FromResource(d, resource), QUERY_INVALID);
      var _ :- Check(ShapedFor(f.operator, f.value), QUERY_INVALID);
      CheckFilters(registry, metric, resource, filters[1..])
  }

  function SortsOf(request: Request): seq<Sort> {
    if request.sort.Some? then request.sort.value else []
  }

  predicate ValidLimit(limit: Option<int>) { limit.Some? ==> 1 <= limit.value <= 1000 }

  predicate ValidPeriod(period: Option<PeriodDefinition>) {
    period.Some? ==>
      match period.value
      case Relative(v) => v != OTHER
      case Absolute(from, to) => from != Missing && to != Missing
  }

  predicate Allowed(metric: Metric, candidate: bool) {
    metric.certification == CERTIFIED || (candidate && metric.certification == AWAITING_VALIDATION)
  }

  /** A missing organization is a forbidden request; it is reported here as PERMISSION_DENIED. */
  function Validate(registry: SemanticRegistry, request: Request, user: User,
                    candidate: bool): Outcome<(Metric, Resource)> {
    var _ :- Check(request.version == "2" && request.metric != [], QUERY_INVALID);
    var _ :- Check(request.fields !! FORBIDDEN_FIELDS, QUERY_INVALID);
    var _ :- Check(user.Authenticated(), PERMISSION_DENIED);
    var metric :- registry.MetricNamed(request.metric);
    var _ :- Check(Allowed(metric, candidate), NOT_CONFIGURED);
    var _ :- Check(user.May(metric.permission), PERMISSION_DENIED);
    var resource :- registry.ResourceNamed(metric.connector, metric.resource);
    var _ :- CheckDimensions(registry, metric, resource, request.dimensions);
    var _ :- Check(DistinctTexts(request.dimensions), QUERY_INVALID);
    var _ :- CheckPolicy(registry, metric, request);
    var _ :- CheckFilters(registry, metric, resource, request.filters);
    var _ :- Check(forall s :: s in SortsOf(request) ==> s.field in request.dimensions, QUERY_INVALID);
    var _ :- Check(ValidLimit(request.limit), QUERY_INVALID);
    var _ :- Check(ValidPeriod(request.period), QUERY_INVALID);
    var _ :- Check(metric.requiresPeriod ==> request.period.Some?, QUERY_INVALID);
    var _ :- Check(request.period.Some? ==> metric.dateDimension.Some?, QUERY_INVALID);
    var _ :- Check(request.comparison.Some? ==> request.comparison.value in metric.comparisons, QUERY_INVALID);
    var _ :- Check(request.comparison.Some? ==> request.comparison.value !in {BUDGET, TARGET}, NOT_CONFIGURED);
    var own := request.currency.Some? && request.currency.value != [] ==> request.currency == metric.currency;
    var _ :- Check(own, NOT_CONFIGURED);
    Ok((metric, resource))
  }

  // ---------------------------------------------------------------- what is accepted

  predicate GoodDimension(registry: SemanticRegistry, metric: Metric, resource: Resource, key: string) {
    && key in metric.allowedDimensions && key in registry.dimensions
    && registry.dimensions[key].connector == resource.connector && registry.dimensions[key].resource == resource.key
  }

  predicate GoodFilter(registry: SemanticRegistry, metric: Metric, resource: Resource, f: Filter) {
    && f.field in metric.allowedFilters && f.field in registry.dimensions
    && f.operator in registry.dimensions[f.field].operators
    && registry.dimensions[f.field].connector == resource.connector
    && registry.dimensions[f.field].resource == resource.key
    && GoodValue(f.operator, f.value)
  }

  /** Two bounds, a list that is not empty, or a scalar; null in no list. */
  predicate GoodValue(operator: Operator, value: FilterValue) {
    if operator == BETWEEN then value.Many? && |value.scalars| == 2 && Null !in value.scalars
    else if operator == IN || operator == NOT_IN then value.Many? && value.scalars != [] && Null !in value.scalars
    else value.One?
  }

  predicate FitsPolicy(registry: SemanticRegistry, metric: Metric, request: Request) {
    metric.policy.Some? ==>
      && (if request.dimensions == [] then SCALAR else TIME_SERIES) in metric.policy.value.shapes
      && forall k :: k in request.dimensions ==>
           && k in registry.dimensions && registry.dimensions[k].monthly
           && (request.comparison.Some? ==> registry.dimensions[k].aligned)
  }

  /** The options of a request, apart from its dimensions and filters. */
  predicate GoodOptions(metric: Metric, request: Request) {
    && (request.sort.Some? ==> forall s :: s in request.sort.value ==> s.field in request.dimensions)
    && (request.limit.Some? ==> 1 <= request.limit.value <= 1000)
    && (request.period.Some? ==> metric.dateDimension.Some? && GoodPeriod(request.period.value))
    && (metric.requiresPeriod ==> request.period.Some?)
    && (request.comparison.Some? ==> request.comparison.value in metric.comparisons)
  }

  /** A comparison the engine computes, and no currency but the metric's own. */
  predicate Supported(metric: Metric, request: Request) {
    && request.comparison !in {Some(BUDGET), Some(TARGET)}
    && (request.currency.Some? && request.currency.value != [] ==> request.currency == metric.currency)
  }

  /** A name the engine knows, or two bounds given. */
  predicate GoodPeriod(period: PeriodDefinition) {
    match period
    case Relative(v) =>
      v in {TODAY, CURRENT_WEEK, CURRENT_MONTH, CURRENT_QUARTER, CURRENT_YEAR, PREVIOUS_MONTH, PREVIOUS_QUARTER,
            RelativePeriod.PREVIOUS_YEAR}
    case Absolute(from, to) => !from.Missing? && !to.Missing?
  }

  predicate WellFormed(request: Request) {
    && request.version == "2" && request.metric != []
    && request.fields !! {"scope", "organizationId", "connector", "sql", "statement"}
  }

  predicate Identified(user: User) { user.id != [] && user.organization.Some? && user.organization.value != [] }

  /** A certified metric, or one awaiting validation in a certification run. */
  predicate Offered(registry: SemanticRegistry, key: string, candidate: bool) {
    && key in registry.metrics
    && (registry.metrics[key].certification == CERTIFIED
        || (candidate && registry.metrics[key].certification == AWAITING_VALIDATION))
  }

  predicate Permitted(metric: Metric, user: User) {
    metric.permission in user.permissions || ("manage", "all") in user.permissions
  }

  predicate GoodMetric(registry: SemanticRegistry, request: Request, user: User, candidate: bool) {
    && WellFormed(request) && Identified(user) && Offered(registry, request.metric, candidate)
    && var metric := registry.metrics[request.metric];
    && Permitted(metric, user)
    && (metric.connector + ":" + metric.resource) in registry.resources
  }

  predicate GoodParts(registry: SemanticRegistry, metric: Metric, resource: Resource, request: Request) {
    && (forall k :: k in request.dimensions ==> GoodDimension(registry, metric, resource, k))
    && (forall i, j :: 0 <= i < j < |request.dimensions| ==> request.dimensions[i] != request.dimensions[j])
    && FitsPolicy(registry, metric, request)
    && (forall f :: f in request.filters ==> GoodFilter(registry, metric, resource, f))
    && GoodOptions(metric, request)
  }

  /** The requests the engine serves, stated without an order of checks. */
  predicate Acceptable(registry: SemanticRegistry, request: Request, user: User, candidate: bool) {
    && GoodMetric(registry, request, user, candidate)
    && var metric := registry.metrics[request.metric];
    && var resource := registry.resources[metric.connector + ":" + metric.resource];
    && GoodParts(registry, metric, resource, request) && Supported(metric, request)
  }

  lemma {:induction false} DimensionsPass(registry: SemanticRegistry, metric: Metric, resource: Resource,
                                          keys: seq<string>)
    ensures CheckDimensions(registry, metric, resource, keys).Ok? <==>
      forall k :: k in keys ==> GoodDimension(registry, metric, resource, k)
    ensures var r := CheckDimensions(registry, metric, resource, keys); r.Failed? ==> r.code == QUERY_INVALID
  {
    if keys != [] {
      DimensionsPass(registry, metric, resource, keys[1..]);
      var first := keys[0];
      assert first in keys;
      assert forall k :: k in keys <==> k == first || k in keys[1..];
    }
  }

  lemma GoodValuesAreValid(operator: Operator, value: FilterValue)
    ensures GoodValue(operator, value) <==> ValidValue(value) && ShapedFor(operator, value)
    ensures GoodValue(operator, value) <==> WellShaped(operator, value)
  {
  }

  lemma {:induction false} FiltersPass(registry: SemanticRegistry, metric: Metric, resource: Resource,
                                       filters: seq<Filter>)
    ensures CheckFilters(registry, metric, resource, filters).Ok? <==>
      forall f :: f in filters ==> GoodFilter(registry, metric, resource, f)
    ensures var r := CheckFilters(registry, metric, resource, filters); r.Failed? ==> r.code == QUERY_INVALID
  {
    hide GoodValue;
    hide WellShaped;
    hide ValidValue;
    hide ShapedFor;
    if filters != [] {
      FiltersPass(registry, metric, resource, filters[1..]);
      var first := filters[0];
      GoodValuesAreValid(first.operator, first.value);
      assert first in filters;
      assert forall f :: f in filters <==> f == first || f in filters[1..];
    }
  }

  lemma PolicyPasses(registry: SemanticRegistry, metric: Metric, request: Request)
    ensures CheckPolicy(registry, metric, request).Ok? <==> FitsPolicy(registry, metric, request)
    ensures var r := CheckPolicy(registry, metric, request); r.Failed? ==> r.code == QUERY_INVALID
  {
  }

  /** Why a request is refused: the first of these that holds. */
  function Refusal(registry: SemanticRegistry, request: Request, user: User, candidate: bool): ErrorCode {
    if !WellFormed(request) then QUERY_INVALID
    else if !Identified(user) then PERMISSION_DENIED
    else if !Offered(registry, request.metric, candidate) then NOT_CONFIGURED
    else
      var metric := registry.metrics[request.metric];
      var id := metric.connector + ":" + metric.resource;
      if !Permitted(metric, user) then PERMISSION_DENIED
      else if id !in registry.resources then NOT_CONFIGURED
      else if !GoodParts(registry, metric, registry.resources[id], request) then QUERY_INVALID
      else NOT_CONFIGURED
  }

  /** The validator accepts exactly the acceptable requests, and hands on the metric and the resource they
      name. */
  lemma AcceptsExactly(registry: SemanticRegistry, request: Request, user: User, candidate: bool)
    ensures var r := Validate(registry, request, user, candidate);
      && (r.Ok? <==> Acceptable(registry, request, user, candidate))
      && (r.Ok? ==>
            && r.value.0 == registry.metrics[request.metric]
            && r.value.1 == registry.resources[r.value.0.connector + ":" + r.value.0.resource])
  {
    hide CheckDimensions;
    hide CheckFilters;
    hide CheckPolicy;
    hide FitsPolicy;
    hide GoodDimension;
    hide GoodFilter;
    if GoodMetric(registry, request, user, candidate) {
      var metric := registry.metrics[request.metric];
      var resource := registry.resources[metric.connector + ":" + metric.resource];
      DimensionsPass(registry, metric, resource, request.dimensions);
      FiltersPass(registry, metric, resource, request.filters);
      PolicyPasses(registry, metric, request);
    }
  }

  /** What an accepted request refers to is registered, and its filters are well shaped. */
  lemma AcceptedParts(registry: SemanticRegistry, request: Request, user: User, candidate: bool)
    requires Validate(registry, request, user, candidate).Ok?
    ensures user.organization.Some?
    ensures forall k :: k in request.dimensions ==> k in registry.dimensions
    ensures forall f :: f in request.filters ==> f.field in registry.dimensions && WellShaped(f.operator, f.value)
  {
    hide Validate;
    hide FitsPolicy;
    hide GoodOptions;
    AcceptsExactly(registry, request, user, candidate);
    forall f | f in request.filters ensures f.field in registry.dimensions && WellShaped(f.operator, f.value) {
      GoodValuesAreValid(f.operator, f.value);
    }
  }

  /** Every other request is refused with the code of the first thing wrong with it. */
  lemma RefusesWithItsCode(registry: SemanticRegistry, request: Request, user: User, candidate: bool)
    requires !Acceptable(registry, request, user, candidate)
    ensures Validate(registry, request, user, candidate) == Failed(Refusal(registry, request, user, candidate))
  {
    hide CheckDimensions;
    hide CheckFilters;
    hide CheckPolicy;
    hide FitsPolicy;
    hide GoodDimension;
    hide GoodFilter;
    if GoodMetric(registry, request, user, candidate) {
      var metric := registry.metrics[request.metric];
      var resource := registry.resources[metric.connector + ":" + metric.resource];
      DimensionsPass(registry, metric, resource, request.dimensions);
      FiltersPass(registry, metric, resource, request.filters);
      PolicyPasses(registry, metric, request);
    }
  }
}
