/** `QueryPlannerService`: from a request to the plan that is executed and fingerprinted. */
module QueryPlanner {
  import opened Contracts
  import opened PeriodResolver
  import opened Registry
  import opened QueryValidator
  import opened SqlCompiler
  import opened SqlMeaning
  import opened Text
  import Fingerprint

  function DimensionsOf(registry: SemanticRegistry, keys: seq<string>): (r: seq<Dimension>)
    requires forall k :: k in keys ==> k in registry.dimensions
    ensures |r| == |keys| && forall i :: 0 <= i < |r| ==> r[i] == registry.dimensions[keys[i]]
  {
    seq(|keys|, i requires 0 <= i < |keys| => registry.dimensions[keys[i]])
  }

  function BoundFilterOf(registry: SemanticRegistry, f: Filter): BoundFilter
    requires f.field in registry.dimensions
  {
    BoundFilter(registry.dimensions[f.field], f.operator, f.value)
  }

  function FiltersOf(registry: SemanticRegistry, filters: seq<Filter>): (r: seq<BoundFilter>)
    requires forall f :: f in filters ==> f.field in registry.dimensions
    ensures |r| == |filters| && forall i :: 0 <= i < |r| ==> r[i] == BoundFilterOf(registry, filters[i])
  {
    seq(|filters|, i requires 0 <= i < |filters| => BoundFilterOf(registry, filters[i]))
  }

  datatype Plan = Plan(
    organization: string,
    metric: Metric,
    resource: Resource,
    dimensions: seq<Dimension>,
    filters: seq<BoundFilter>,
    period: Option<ResolvedPeriod>,
    comparison: Option<ResolvedPeriod>,
    execution: Compiled,
    comparisonExecution: Option<Compiled>,
    parameterNames: seq<set<string>>,
    semantic: Fingerprint.Semantic,
    maxRows: int)

  /** The comparison periods the planner computes; budgets and targets have none. */
  function ComparisonPeriod(request: Request, period: Option<ResolvedPeriod>, zone: Zone): Option<ResolvedPeriod> {
    if request.comparison.None? || period.None? then None
    else
      var p, definition := period.value, request.period;
      match request.comparison.value
      case PREVIOUS_PERIOD => Some(PeriodResolver.Compare(p, Comparison.PREVIOUS_PERIOD, definition, zone))
      case PREVIOUS_YEAR => Some(PeriodResolver.Compare(p, SAME_PERIOD_LAST_YEAR, definition, zone))
      case _ => None
  }

  function LimitOf(request: Request): int {
    if request.limit.Some? then request.limit.value else DEFAULT_LIMIT
  }

  function SemanticOf(registry: SemanticRegistry, organization: string, metric: Metric, resource: Resource,
                      request: Request, period: Option<ResolvedPeriod>,
                      comparison: Option<ResolvedPeriod>): Fingerprint.Semantic {
    Fingerprint.Semantic(
      organization, metric.key, request.dimensions, request.filters, period,
      if request.comparison.Some? then Some((request.comparison.value, comparison)) else None,
      if request.currency.Some? then request.currency else metric.currency,
      request.sort, LimitOf(request), resource.connector, resource.key, resource.schemaVersion, registry.version)
  }

  /** The names listed for filter `i`: every parameter that starts with `f{i}`. */
  function NamesStartingWith(parameters: Parameters, i: nat): set<string> {
    set k | k in parameters && Spelling(Whole(i)) <= k
  }

  function NoOffset(t: Instant): int { 0 }

  function PlanRequest(registry: SemanticRegistry, request: Request, user: User, candidate: bool, zone: Option<Zone>,
                       timezone: string, now: Instant): Outcome<Plan> {
    hide Validate;
    hide Resolve;
    hide Compile;
    hide ComparisonPeriod;
    var (metric, resource) :- Validate(registry, request, user, candidate);
    AcceptedParts(registry, request, user, candidate);
    var dimensions := DimensionsOf(registry, request.dimensions);
    var filters := FiltersOf(registry, request.filters);
    var dateDimension := if metric.dateDimension.Some? then metric.dateDimension.value else "";
    var period :- Resolve(request.period, zone, timezone, dateDimension, now);
    if request.comparison.Some? && period.None? then Failed(QUERY_INVALID)
    else
      var clock := if zone.Some? then zone.value else NoOffset;
      var comparison := ComparisonPeriod(request, period, clock);
      var sort, limit := SortsOf(request), request.limit;
      var execution :- Compile(metric, resource, dimensions, filters, period, clock, sort, limit);
      var comparisonExecution :-
        if comparison.None? then Ok(None)
        else
          var other :- Compile(metric, resource, dimensions, filters, comparison, clock, sort, limit);
          Ok(Some(other));
      var organization := user.organization.value;
      var parameterNames := seq(|filters|, i requires 0 <= i => NamesStartingWith(execution.parameters, i));
      var semantic := SemanticOf(registry, organization, metric, resource, request, period, comparison);
      Ok(Plan(organization, metric, resource, dimensions, filters, period, comparison, execution, comparisonExecution,
              parameterNames, semantic, LimitOf(request)))
  }

  // ---------------------------------------------------------------- parameter names

  /** The names filter `i` really binds. */
  function OwnNames(filters: seq<BoundFilter>, i: nat): set<string>
    requires i < |filters|
  {
    FilterBindings(filters[i].operator, filters[i].value, i).Keys
  }

  lemma {:induction false} FixedNames(resource: Resource, n: nat, k: string)
    requires n <= |resource.fixedFilters| && FixedWhere(resource, n).Ok?
    ensures k in FixedWhere(resource, n).value.parameters <==> exists i: nat :: i < n && k == Spelling(Source(i))
  {
    hide Expression;
    hide Spelling;
    if n > 0 { FixedNames(resource, n - 1, k); }
  }

  lemma {:induction false} FilterNames(resource: Resource, filters: seq<BoundFilter>, n: nat, w: Where, k: string)
    requires n <= |filters| && AllWellShaped(filters) && FilterWhere(resource, filters, n, w).Ok?
    ensures k in FilterWhere(resource, filters, n, w).value.parameters
       <==> k in w.parameters || exists i: nat :: i < n && k in OwnNames(filters, i)
  {
    hide Expression;
    hide FilterClause;
    hide FilterBindings;
    if n > 0 {
      FilterNames(resource, filters, n - 1, w, k);
      var before, after := FilterWhere(resource, filters, n - 1, w).value, FilterWhere(resource, filters, n, w).value;
      assert k in after.parameters <==> k in before.parameters || k in OwnNames(filters, n - 1);
    }
  }

  /** A statement binds the fixed filters' names, the period's, and the filters' own, and no other. */
  lemma BoundNames(resource: Resource, filters: seq<BoundFilter>, period: Option<ResolvedPeriod>, zone: Zone, k: string)
    requires AllWellShaped(filters) && WhereOf(resource, filters, period, zone).Ok?
    ensures k in WhereOf(resource, filters, period, zone).value.parameters
       <==> ((exists i: nat :: i < |resource.fixedFilters| && k == Spelling(Source(i)))
             || (period.Some? && k in {Spelling(PeriodFrom), Spelling(PeriodTo)})
             || (exists i: nat :: i < |filters| && k in OwnNames(filters, i)))
  {
    hide Expression;
    hide FixedWhere;
    hide FilterWhere;
    hide PeriodBounds;
    hide Spelling;
    hide OwnNames;
    var fixed := FixedWhere(resource, |resource.fixedFilters|).value;
    FixedNames(resource, |resource.fixedFilters|, k);
    FilterNames(resource, filters, |filters|, PeriodWhere(resource, period, zone, fixed).value, k);
  }

  /** Filter `k`'s number starts with the digits of `i`. */
  predicate Shadows(i: nat, k: nat) { Decimal(i) <= Decimal(k) }

  lemma PrefixOfName(i: nat, name: Name)
    requires name.Whole? || name.Part?
    ensures Spelling(Whole(i)) <= Spelling(name) <==> Shadows(i, name.i)
  {
    var digits, rest := Decimal(name.i), Suffix(name);
    assert Spelling(name) == "f" + (digits + rest) by { SpellingShape(name); }
    assert Spelling(Whole(i)) == "f" + Decimal(i);
    PrefixBehind('f', Decimal(i), digits + rest);
    DigitsBeforeSuffix(Decimal(i), digits, rest);
  }

  lemma PrefixBehind(c: char, a: string, b: string)
    ensures [c] + a <= [c] + b <==> a <= b
  {
    assert ([c] + a)[1..] == a && ([c] + b)[1..] == b;
    if a <= b { assert forall j :: 0 <= j < |a| ==> a[j] == b[j]; }
    if [c] + a <= [c] + b {
      forall j | 0 <= j < |a| ensures a[j] == b[j] { assert ([c] + a)[j + 1] == ([c] + b)[j + 1]; }
    }
  }

  lemma DigitsBeforeSuffix(a: string, digits: string, rest: string)
    requires forall j :: 0 <= j < |a| ==> IsDigit(a[j])
    requires EndsNumber(rest)
    ensures a <= digits + rest <==> a <= digits
  {
    if |a| > |digits| && rest != [] {
      assert (digits + rest)[|digits|] == rest[0] && IsDigit(a[|digits|]);
    }
    if a <= digits + rest && |a| <= |digits| {
      assert forall j :: 0 <= j < |a| ==> a[j] == (digits + rest)[j] == digits[j];
    }
    if a <= digits {
      assert forall j :: 0 <= j < |a| ==> a[j] == digits[j] == (digits + rest)[j];
    }
  }

  /** The listed names are those of every filter whose number starts with `i`. */
  lemma ListedNames(resource: Resource, filters: seq<BoundFilter>, period: Option<ResolvedPeriod>, zone: Zone, i: nat,
                    name: string)
    requires AllWellShaped(filters) && WhereOf(resource, filters, period, zone).Ok?
    ensures name in NamesStartingWith(WhereOf(resource, filters, period, zone).value.parameters, i)
       <==> exists k: nat :: k < |filters| && Shadows(i, k) && name in OwnNames(filters, k)
  {
    hide WhereOf;
    hide Shadows;
    hide FilterBindings;
    BoundNames(resource, filters, period, zone, name);
    if name in NamesStartingWith(WhereOf(resource, filters, period, zone).value.parameters, i) {
      SpellingShape(Whole(i));
      if j: nat :| j < |resource.fixedFilters| && name == Spelling(Source(j)) {
        SpellingShape(Source(j));
        assert false;
      } else if period.Some? && name in {Spelling(PeriodFrom), Spelling(PeriodTo)} {
        assert false;
      } else {
        var k: nat :| k < |filters| && name in OwnNames(filters, k);
        var n := NameBound(filters[k].operator, filters[k].value, k, name);
        PrefixOfName(i, n);
      }
    }
    if k: nat :| k < |filters| && Shadows(i, k) && name in OwnNames(filters, k) {
      var n := NameBound(filters[k].operator, filters[k].value, k, name);
      PrefixOfName(i, n);
    }
  }

  /** The names listed for filter `i` are exactly its own when, and only when, no other filter whose
      number starts with the digits of `i` binds a parameter. */
  lemma ParameterNamesAreOwnUnlessShadowed(resource: Resource, filters: seq<BoundFilter>,
                                           period: Option<ResolvedPeriod>, zone: Zone, i: nat)
    requires AllWellShaped(filters) && WhereOf(resource, filters, period, zone).Ok? && i < |filters|
    ensures NamesStartingWith(WhereOf(resource, filters, period, zone).value.parameters, i) == OwnNames(filters, i)
       <==> forall k: nat :: k < |filters| && k != i && Shadows(i, k) ==> OwnNames(filters, k) == {}
  {
    hide WhereOf;
    hide FilterBindings;
    var listed := NamesStartingWith(WhereOf(resource, filters, period, zone).value.parameters, i);
    forall name
      ensures name in listed <==> exists k: nat :: k < |filters| && Shadows(i, k) && name in OwnNames(filters, k)
    {
      ListedNames(resource, filters, period, zone, i, name);
    }
    assert Shadows(i, i);
    hide NamesStartingWith;
    forall k: nat, name | k < |filters| && k != i && name in OwnNames(filters, k)
      ensures name !in OwnNames(filters, i)
    {
      BindingsApart(filters[k], k, filters[i], i, name);
    }
    hide OwnNames;
    hide Shadows;
    if listed == OwnNames(filters, i) {
      forall k: nat | k < |filters| && k != i && Shadows(i, k) ensures OwnNames(filters, k) == {} {
        assert OwnNames(filters, k) <= listed;
        assert OwnNames(filters, k) !! OwnNames(filters, i);
      }
    }
  }

  /** With at most ten filters no number is the start of another. */
  lemma UpToTenFiltersNamesAreExact(resource: Resource, filters: seq<BoundFilter>, period: Option<ResolvedPeriod>,
                                    zone: Zone, i: nat)
    requires AllWellShaped(filters) && WhereOf(resource, filters, period, zone).Ok? && i < |filters| <= 10
    ensures NamesStartingWith(WhereOf(resource, filters, period, zone).value.parameters, i) == OwnNames(filters, i)
  {
    hide WhereOf;
    hide OwnNames;
    hide NamesStartingWith;
    forall k: nat | k < |filters| && k != i ensures !Shadows(i, k) {
      assert Decimal(i)[0] == Digit(i) != Digit(k) == Decimal(k)[0];
    }
    ParameterNamesAreOwnUnlessShadowed(resource, filters, period, zone, i);
  }

  /** With eleven filters, filter 1 is also credited with whatever filter 10 binds. */
  lemma FilterOneCatchesTen(resource: Resource, filters: seq<BoundFilter>, period: Option<ResolvedPeriod>, zone: Zone)
    requires AllWellShaped(filters) && WhereOf(resource, filters, period, zone).Ok? && |filters| > 10
    ensures OwnNames(filters, 10) <= NamesStartingWith(WhereOf(resource, filters, period, zone).value.parameters, 1)
  {
    hide WhereOf;
    hide OwnNames;
    hide NamesStartingWith;
    assert Decimal(1) == "1" && Decimal(10) == Decimal(1) + [Digit(0)];
    assert Shadows(1, 10);
    forall name | name in OwnNames(filters, 10)
      ensures name in NamesStartingWith(WhereOf(resource, filters, period, zone).value.parameters, 1)
    {
      ListedNames(resource, filters, period, zone, 1, name);
    }
  }
}
