/** The semantic registry's definitions and the requests written against them. */
module Registry {
  import opened Contracts
  import opened PeriodResolver

  /** A JSON scalar a filter may carry. */
  datatype Scalar = Null | Text(s: string) | Number(n: int) | Boolean(b: bool)

  /** A filter value: a scalar, an array of scalars, or anything else. */
  datatype FilterValue = One(scalar: Scalar) | Many(scalars: seq<Scalar>) | Malformed

  datatype Operator = EQ | NEQ | IN | NOT_IN | GT | GTE | LT | LTE | BETWEEN | CONTAINS

  datatype MeasureType = CURRENCY | NUMBER | PERCENTAGE | DURATION
  datatype ValueType = STRING | DATE | NUMERIC | BOOLEAN
  datatype Aggregation = SUM | AVG | MIN | MAX | COUNT | DISTINCT_COUNT
  datatype Shape = SCALAR | TIME_SERIES
  datatype ComparisonType = PREVIOUS_PERIOD | PREVIOUS_YEAR | BUDGET | TARGET

  datatype ResultPolicy = ResultPolicy(
    scale: Option<nat>,
    precision: Option<nat>,
    decimalText: bool,      // valueEncoding is 'decimal_string'
    countRequired: bool,    // sourceRowCount is 'required'
    preserveEmpty: bool,    // empty is 'preserve'
    shapes: set<Shape>)

  datatype Certification = CERTIFIED | AWAITING_VALIDATION | UNCERTIFIED

  datatype Metric = Metric(
    key: string,
    dataType: MeasureType,
    aggregation: Aggregation,
    allowedDimensions: seq<string>,
    allowedFilters: seq<string>,
    comparisons: set<ComparisonType>,
    visualizations: seq<string>,
    connector: string,
    resource: string,
    measure: string,
    dateDimension: Option<string>,
    currency: Option<string>,
    policy: Option<ResultPolicy>,
    certification: Certification,
    requiresPeriod: bool,
    permission: (string, string))

  datatype Dimension = Dimension(
    key: string,
    dataType: ValueType,
    connector: string,
    resource: string,
    expression: string,
    operators: set<Operator>,
    aligned: bool,          // comparisonAlignment is 'calendar_month_offset'
    monthly: bool)          // temporalGrain is 'month'

  datatype FixedFilter = StartsWith(expression: string, value: string) | Equals(expression: string, value: string)

  datatype Resource = Resource(
    connector: string,
    key: string,
    schemaVersion: string,
    table: string,
    expressions: map<string, string>,
    localDate: bool,        // dateStorage is 'local_date'
    fixedFilters: seq<FixedFilter>)

  datatype Filter = Filter(field: string, operator: Operator, value: FilterValue)

  datatype Sort = Sort(field: string, ascending: bool)

  datatype Request = Request(
    version: string,
    fields: set<string>,    // the names of its own fields
    metric: string,
    dimensions: seq<string>,
    filters: seq<Filter>,
    period: Option<PeriodDefinition>,
    comparison: Option<ComparisonType>,
    currency: Option<string>,
    sort: Option<seq<Sort>>,
    limit: Option<int>)

  /** The registered definitions, by key; resources by `connector:key`. */
  datatype SemanticRegistry = SemanticRegistry(
    version: string,
    metrics: map<string, Metric>,
    dimensions: map<string, Dimension>,
    resources: map<string, Resource>)
  {
    function MetricNamed(key: string): Outcome<Metric> {
      if key in metrics then Ok(metrics[key]) else Failed(NOT_CONFIGURED)
    }

    function DimensionNamed(key: string): Outcome<Dimension> {
      if key in dimensions then Ok(dimensions[key]) else Failed(QUERY_INVALID)
    }

    function ResourceNamed(connector: string, key: string): Outcome<Resource> {
      var id := ResourceId(connector, key);
      if id in resources then Ok(resources[id]) else Failed(NOT_CONFIGURED)
    }

    /** Definitions are only ever stored under their own keys. */
    predicate Registered() {
      && (forall k :: k in metrics ==> metrics[k].key == k)
      && (forall k :: k in dimensions ==> dimensions[k].key == k)
      && (forall k :: k in resources ==> k == ResourceId(resources[k].connector, resources[k].key))
    }

    /** No registered resource's connector has a colon in its name. */
    predicate PlainConnectors() {
      forall k :: k in resources ==> ':' !in resources[k].connector
    }
  }

  function ResourceId(connector: string, key: string): string { connector + ":" + key }

  /** A resource found under a connector without a colon is that connector's resource of that key. */
  lemma ResourceIsTheOneNamed(r: SemanticRegistry, connector: string, key: string)
    requires r.Registered() && r.PlainConnectors() && ':' !in connector
    requires r.ResourceNamed(connector, key).Ok?
    ensures var found := r.ResourceNamed(connector, key).value; found.connector == connector && found.key == key
  {
    var id := ResourceId(connector, key);
    var found := r.resources[id];
    assert ':' !in found.connector;
    assert id == ResourceId(found.connector, found.key);
    ColonSplits(connector, key, found.connector, found.key);
  }

  lemma ColonSplits(a: string, x: string, b: string, y: string)
    requires ResourceId(a, x) == ResourceId(b, y) && ':' !in a && ':' !in b
    ensures a == b && x == y
  {
    var s := ResourceId(a, x);
    assert s[|a|] == ':' && s[|b|] == ':';
    assert forall i :: 0 <= i < |a| ==> s[i] == a[i];
    assert forall i :: 0 <= i < |b| ==> s[i] == b[i];
    assert a == s[..|a|] && b == s[..|b|] && x == s[|a| + 1..] && y == s[|b| + 1..];
  }

  /** With a colon in a connector's name another connector's resource can be found instead. */
  lemma ColonsMisdirect(connector: string, key: string)
    ensures ResourceId(connector + ":" + connector, key) == ResourceId(connector, connector + ":" + key)
  {
  }

  /** An authenticated identity, with the permissions of its roles as (action, resource). */
  datatype User = User(id: string, organization: Option<string>, permissions: set<(string, string)>)
  {
    predicate Authenticated() { id != [] && organization.Some? && organization.value != [] }

    predicate May(permission: (string, string)) {
      permission in permissions || ("manage", "all") in permissions
    }
  }
}
