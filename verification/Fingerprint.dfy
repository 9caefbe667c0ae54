/** The text a request is fingerprinted by, and what two requests with the same text share. */
module Fingerprint {
  import opened Contracts
  import opened PeriodResolver
  import opened Registry
  import opened Json
  import opened Sorting

  /** The `semantic` object of the planner. */
  datatype Semantic = Semantic(
    organization: string,
    metric: string,
    dimensions: seq<string>,
    filters: seq<Filter>,
    period: Option<ResolvedPeriod>,
    comparison: Option<(ComparisonType, Option<ResolvedPeriod>)>,
    currency: Option<string>,
    sort: Option<seq<Sort>>,
    limit: int,
    connector: string,
    resource: string,
    schemaVersion: string,
    registryVersion: string)

  // ---------------------------------------------------------------- printing the parts

  function OperatorText(o: Operator): string {
    match o
    case EQ => "eq" case NEQ => "neq" case IN => "in" case NOT_IN => "not_in" case GT => "gt" case GTE => "gte"
    case LT => "lt" case LTE => "lte" case BETWEEN => "between" case CONTAINS => "contains"
  }

  function ComparisonText(c: ComparisonType): string {
    match c
    case PREVIOUS_PERIOD => "previous_period" case PREVIOUS_YEAR => "previous_year"
    case BUDGET => "budget" case TARGET => "target"
  }

  function ScalarValue(v: Scalar): Value {
    match v
    case Null => Value.Null
    case Text(s) => String(s)
    case Number(n) => Value.Number(n)
    case Boolean(b) => Bool(b)
  }

  function Values<T>(items: seq<T>, f: T -> Value): (r: seq<Value>)
    ensures |r| == |items| && forall i :: 0 <= i < |r| ==> r[i] == f(items[i])
  {
    seq(|items|, i requires 0 <= i < |items| => f(items[i]))
  }

  /** A validated filter value; nothing else is ever fingerprinted. */
  function FilterJson(value: FilterValue): Value {
    match value
    case One(v) => ScalarValue(v)
    case Many(vs) => Array(Values(vs, ScalarValue))
    case Malformed => Value.Null
  }

  function FilterValueOf(f: Filter): Value {
    Object([Member("field", String(f.field)), Member("operator", String(OperatorText(f.operator))),
            Member("value", FilterJson(f.value))])
  }

  function PeriodValue(p: ResolvedPeriod): Value {
    Object([Member("dateDimension", String(p.dateDimension)), Member("fromInclusive", Value.Number(p.fromInclusive)),
            Member("toExclusive", Value.Number(p.toExclusive)), Member("timezone", String(p.timezone))])
  }

  function MaybePeriod(p: Option<ResolvedPeriod>): Value {
    if p.None? then Undefined else PeriodValue(p.value)
  }

  function ComparisonValue(c: Option<(ComparisonType, Option<ResolvedPeriod>)>): Value {
    if c.None? then Undefined
    else Object([Member("type", String(ComparisonText(c.value.0))), Member("period", MaybePeriod(c.value.1))])
  }

  function SortValue(s: Sort): Value {
    Object([Member("field", String(s.field)), Member("direction", String(if s.ascending then "asc" else "desc"))])
  }

  function SortsValue(s: Option<seq<Sort>>): Value {
    if s.None? then Undefined else Array(Values(s.value, SortValue))
  }

  function MaybeText(s: Option<string>): Value {
    if s.None? then Undefined else String(s.value)
  }

  function Scope(organization: string): Value { Object([Member("organizationId", String(organization))]) }

  /** Filters are sorted by their canonical text. */
  function ByText(le: Order): (Filter, Filter) -> bool {
    (f: Filter, g: Filter) => le(Canonical(FilterValueOf(f), le), Canonical(FilterValueOf(g), le))
  }

  /** Dimensions are sorted by code units, keys and filters by the locale. */
  datatype Collation = Collation(locale: Order, units: Order)

  const KEYS := ["scope", "metric", "dimensions", "filters", "period", "comparison", "currency", "sort", "limit",
                 "connector", "resource", "schemaVersion", "registryVersion"]

  /** The values of the fingerprinted object, in the order of `KEYS`. */
  function Parts(s: Semantic, o: Collation): (r: seq<Value>)
    ensures |r| == 13
  {
    [Scope(s.organization),
     String(s.metric),
     DimensionsValue(s.dimensions, o),
     FiltersValue(s.filters, o),
     MaybePeriod(s.period),
     ComparisonValue(s.comparison),
     MaybeText(s.currency),
     SortsValue(s.sort),
     Value.Number(s.limit),
     String(s.connector), String(s.resource), String(s.schemaVersion), String(s.registryVersion)]
  }

  function DimensionsValue(dimensions: seq<string>, o: Collation): Value {
    Array(Values(Sorted(dimensions, o.units), d => String(d)))
  }

  function FiltersValue(filters: seq<Filter>, o: Collation): Value {
    Array(Values(Sorted(filters, ByText(o.locale)), FilterValueOf))
  }

  function Members(s: Semantic, o: Collation): (r: seq<Member>)
    ensures |r| == 13 && forall i :: 0 <= i < 13 ==> r[i] == Member(KEYS[i], Parts(s, o)[i])
  {
    seq(13, i requires 0 <= i < 13 => Member(KEYS[i], Parts(s, o)[i]))
  }

  /** The pre-image of the fingerprint. */
  function PreImage(s: Semantic, o: Collation): string { Canonical(Object(Members(s, o)), o.locale) }

  // ---------------------------------------------------------------- the values are plain

  ghost predicate Collates(o: Collation) { TotalOrder(o.locale) && TotalOrder(o.units) }

  predicate Sendable(s: Semantic) {
    forall f :: f in s.filters ==> !f.value.Malformed?
  }

  ghost predicate PlainOrAbsent(v: Value) { v != Undefined ==> Plain(v) }

  /** Length and first letter tell the keys apart. */
  function Mark(k: string): int
    requires k != []
  {
    |k| * 1000 + k[0] as int
  }

  lemma KeysDiffer(ms: seq<Member>)
    requires forall i :: 0 <= i < |ms| ==> ms[i].key != []
    requires forall i, j :: 0 <= i < j < |ms| ==> Mark(ms[i].key) != Mark(ms[j].key)
    ensures UniqueKeys(ms)
  {
  }

  const MARKS := [5115, 6109, 10100, 7102, 6112, 10099, 8099, 4115, 5108, 9099, 8114, 13115, 15114]

  lemma FirstMarks()
    ensures forall i :: 0 <= i < 7 ==> KEYS[i] != [] && Mark(KEYS[i]) == MARKS[i]
  {
    assert Mark(KEYS[0]) == MARKS[0] && Mark(KEYS[1]) == MARKS[1] && Mark(KEYS[2]) == MARKS[2];
    assert Mark(KEYS[3]) == MARKS[3] && Mark(KEYS[4]) == MARKS[4] && Mark(KEYS[5]) == MARKS[5];
    assert Mark(KEYS[6]) == MARKS[6];
  }

  lemma LastMarks()
    ensures forall i :: 7 <= i < 13 ==> KEYS[i] != [] && Mark(KEYS[i]) == MARKS[i]
  {
    assert Mark(KEYS[7]) == MARKS[7] && Mark(KEYS[8]) == MARKS[8] && Mark(KEYS[9]) == MARKS[9];
    assert Mark(KEYS[10]) == MARKS[10] && Mark(KEYS[11]) == MARKS[11] && Mark(KEYS[12]) == MARKS[12];
  }

  lemma MarksDiffer()
    ensures forall i :: 0 <= i < |KEYS| ==> KEYS[i] != []
    ensures forall i, j :: 0 <= i < j < |KEYS| ==> Mark(KEYS[i]) != Mark(KEYS[j])
  {
    hide UniqueKeys;
    FirstMarks();
    LastMarks();
    hide Mark;
    assert forall i :: 0 <= i < 13 ==> KEYS[i] != [] && Mark(KEYS[i]) == MARKS[i];
    assert forall i, j :: 0 <= i < j < 13 ==> MARKS[i] != MARKS[j];
  }

  lemma FilterIsPlain(f: Filter)
    ensures Plain(FilterValueOf(f))
  {
    assert "field"[0] != "operator"[0] && "field"[0] != "value"[0] && "operator"[0] != "value"[0];
  }

  lemma PeriodIsPlain(p: ResolvedPeriod)
    ensures Plain(PeriodValue(p))
  {
    assert "dateDimension"[0] == 'd' && "fromInclusive"[0] == 'f' && "toExclusive"[1] == 'o' && "timezone"[1] == 'i';
  }

  lemma ComparisonIsPlain(c: Option<(ComparisonType, Option<ResolvedPeriod>)>)
    ensures PlainOrAbsent(ComparisonValue(c))
  {
    if c.Some? && c.value.1.Some? { PeriodIsPlain(c.value.1.value); }
    assert "type"[0] != "period"[0];
  }

  lemma ScopeIsPlain(organization: string)
    ensures Plain(Scope(organization))
  {
    var ms := Scope(organization).members;
    assert |ms| == 1 && UniqueKeys(ms) && Plain(ms[0].value);
  }

  lemma SortIsPlain(s: Sort)
    ensures Plain(SortValue(s))
  {
    assert "field"[0] != "direction"[0];
  }

  lemma ListsArePlain(s: Semantic, o: Collation)
    ensures Plain(DimensionsValue(s.dimensions, o)) && Plain(FiltersValue(s.filters, o))
    ensures PlainOrAbsent(SortsValue(s.sort))
  {
    hide FilterValueOf;
    hide SortValue;
    forall f ensures Plain(FilterValueOf(f)) { FilterIsPlain(f); }
    forall x: Sort ensures Plain(SortValue(x)) { SortIsPlain(x); }
  }

  lemma PartsArePlain(s: Semantic, o: Collation)
    ensures forall i :: 0 <= i < 13 ==> PlainOrAbsent(Parts(s, o)[i])
  {
    hide SortsValue;
    hide PeriodValue;
    hide ComparisonValue;
    hide DimensionsValue;
    hide FiltersValue;
    if s.period.Some? { PeriodIsPlain(s.period.value); }
    ComparisonIsPlain(s.comparison);
    ListsArePlain(s, o);
    ScopeIsPlain(s.organization);
  }

  lemma SemanticIsPlain(s: Semantic, o: Collation)
    ensures Plain(Object(Members(s, o)))
  {
    hide Parts;
    MarksDiffer();
    hide Mark;
    KeysDiffer(Members(s, o));
    PartsArePlain(s, o);
  }

  // ---------------------------------------------------------------- what the parts identify

  /** The values say the same exactly when `same`. */
  ghost predicate Identifies(a: Value, b: Value, same: bool) { SameValue(a, b) <==> same }

  lemma OperatorsDiffer(a: Operator, b: Operator)
    ensures OperatorText(a) == OperatorText(b) <==> a == b
  {
    OperatorMark(a);
    OperatorMark(b);
  }

  function OperatorNumber(o: Operator): int {
    match o
    case EQ => 2101 case NEQ => 3110 case IN => 2105 case NOT_IN => 6110 case GT => 2103 case GTE => 3103
    case LT => 2108 case LTE => 3108 case BETWEEN => 7098 case CONTAINS => 8099
  }

  lemma OperatorMark(o: Operator)
    ensures OperatorText(o) != [] && Mark(OperatorText(o)) == OperatorNumber(o)
  {
  }

  lemma ComparisonsDiffer(a: ComparisonType, b: ComparisonType)
    ensures ComparisonText(a) == ComparisonText(b) <==> a == b
  {
    assert |ComparisonText(ComparisonType.PREVIOUS_PERIOD)| == 15;
    assert |ComparisonText(ComparisonType.PREVIOUS_YEAR)| == 13;
    assert |ComparisonText(BUDGET)| == 6 && |ComparisonText(TARGET)| == 6;
    assert ComparisonText(BUDGET)[0] != ComparisonText(TARGET)[0];
  }

  lemma ScalarsDiffer(a: Scalar, b: Scalar)
    ensures MeaningOf(ScalarValue(a)) == MeaningOf(ScalarValue(b)) <==> a == b
  {
  }

  lemma FilterValuesDiffer(a: FilterValue, b: FilterValue)
    requires !a.Malformed? && !b.Malformed?
    ensures Identifies(FilterJson(a), FilterJson(b), a == b)
  {
    match (a, b) {
      case (One(v), One(w)) => ScalarsDiffer(v, w);
      case (Many(vs), Many(ws)) =>
        ArraysAgree(Values(vs, ScalarValue), Values(ws, ScalarValue));
        hide MeaningOf;
        if |vs| == |ws| {
          forall i | 0 <= i < |vs|
            ensures MeaningOf(ScalarValue(vs[i])) == MeaningOf(ScalarValue(ws[i])) <==> vs[i] == ws[i]
          {
            ScalarsDiffer(vs[i], ws[i]);
          }
        }
      case _ =>
    }
  }

  lemma TextsDiffer(a: string, b: string)
    ensures Identifies(String(a), String(b), a == b)
  {
  }

  lemma NumbersDiffer(a: int, b: int)
    ensures Identifies(Value.Number(a), Value.Number(b), a == b)
  {
  }

  lemma MaybeTextsDiffer(a: Option<string>, b: Option<string>)
    ensures Identifies(MaybeText(a), MaybeText(b), a == b)
  {
  }

  lemma FiltersDiffer(f: Filter, g: Filter)
    requires !f.value.Malformed? && !g.value.Malformed?
    ensures Identifies(FilterValueOf(f), FilterValueOf(g), f == g)
  {
    hide MeaningOf;
    hide Plain;
    hide SameValue;
    hide OperatorText;
    FilterIsPlain(f);
    FilterIsPlain(g);
    OperatorsDiffer(f.operator, g.operator);
    FilterValuesDiffer(f.value, g.value);
    TextsDiffer(f.field, g.field);
    TextsDiffer(OperatorText(f.operator), OperatorText(g.operator));
    var a, b := FilterValueOf(f).members, FilterValueOf(g).members;
    ObjectsDiffer(a, b);
    assert (forall i :: 0 <= i < 3 ==> SameValue(a[i].value, b[i].value)) <==>
      SameValue(a[0].value, b[0].value) && SameValue(a[1].value, b[1].value) && SameValue(a[2].value, b[2].value);
  }

  lemma ObjectsSaySomething(a: seq<Member>, b: seq<Member>)
    requires Plain(Object(a)) && Plain(Object(b))
    ensures SameValue(Object(a), Object(b)) <==> MeaningOf(Object(a)) == MeaningOf(Object(b))
  {
  }

  lemma ObjectsDiffer(a: seq<Member>, b: seq<Member>)
    requires Plain(Object(a)) && Plain(Object(b))
    requires |a| == |b| && forall i :: 0 <= i < |a| ==> a[i].key == b[i].key
    ensures SameValue(Object(a), Object(b)) <==> forall i :: 0 <= i < |a| ==> SameValue(a[i].value, b[i].value)
  {
    hide Plain;
    hide MeaningOf;
    hide SameValue;
    ObjectsAgree(a, b);
    ObjectsSaySomething(a, b);
  }

  lemma PeriodsDiffer(p: ResolvedPeriod, q: ResolvedPeriod)
    ensures Identifies(PeriodValue(p), PeriodValue(q), p == q)
  {
    hide MeaningOf;
    hide Plain;
    hide SameValue;
    PeriodIsPlain(p);
    PeriodIsPlain(q);
    TextsDiffer(p.dateDimension, q.dateDimension);
    TextsDiffer(p.timezone, q.timezone);
    NumbersDiffer(p.fromInclusive, q.fromInclusive);
    NumbersDiffer(p.toExclusive, q.toExclusive);
    var a, b := PeriodValue(p).members, PeriodValue(q).members;
    ObjectsDiffer(a, b);
    assert (forall i :: 0 <= i < 4 ==> SameValue(a[i].value, b[i].value)) <==>
      SameValue(a[0].value, b[0].value) && SameValue(a[1].value, b[1].value) && SameValue(a[2].value, b[2].value)
      && SameValue(a[3].value, b[3].value);
  }

  lemma MaybePeriodsDiffer(p: Option<ResolvedPeriod>, q: Option<ResolvedPeriod>)
    ensures Identifies(MaybePeriod(p), MaybePeriod(q), p == q)
  {
    if p.Some? && q.Some? { PeriodsDiffer(p.value, q.value); }
  }

  lemma ComparisonValuesDiffer(c: Option<(ComparisonType, Option<ResolvedPeriod>)>,
                               d: Option<(ComparisonType, Option<ResolvedPeriod>)>)
    ensures Identifies(ComparisonValue(c), ComparisonValue(d), c == d)
  {
    ComparisonIsPlain(c);
    ComparisonIsPlain(d);
    if c.Some? && d.Some? {
      ComparisonsDiffer(c.value.0, d.value.0);
      TextsDiffer(ComparisonText(c.value.0), ComparisonText(d.value.0));
      MaybePeriodsDiffer(c.value.1, d.value.1);
      hide SameValue;
      hide MaybePeriod;
      hide ComparisonText;
      var a, b := ComparisonValue(c).members, ComparisonValue(d).members;
      ObjectsAgree(a, b);
      hide MeaningOf;
      hide Plain;
      ObjectsSaySomething(a, b);
      assert (forall i :: 0 <= i < 2 ==> SameValue(a[i].value, b[i].value)) <==>
        SameValue(a[0].value, b[0].value) && SameValue(a[1].value, b[1].value);
    }
  }

  lemma ScopesDiffer(a: string, b: string)
    ensures Identifies(Scope(a), Scope(b), a == b)
  {
    var x, y := Scope(a).members, Scope(b).members;
    ScopeIsPlain(a);
    ScopeIsPlain(b);
    ObjectsAgree(x, y);
    ObjectsSaySomething(x, y);
    TextsDiffer(a, b);
    hide MeaningOf;
    hide Plain;
    hide SameValue;
    assert (forall i :: 0 <= i < 1 ==> SameValue(x[i].value, y[i].value)) <==> SameValue(x[0].value, y[0].value);
  }

  lemma SortsDiffer(s: Sort, t: Sort)
    ensures Identifies(SortValue(s), SortValue(t), s == t)
  {
    SortIsPlain(s);
    SortIsPlain(t);
    TextsDiffer(s.field, t.field);
    TextsDiffer("asc", "desc");
    TextsDiffer("asc", "asc");
    TextsDiffer("desc", "asc");
    TextsDiffer("desc", "desc");
    assert |"asc"| != |"desc"|;
    var a, b := SortValue(s).members, SortValue(t).members;
    ObjectsAgree(a, b);
    ObjectsSaySomething(a, b);
    hide MeaningOf;
    hide Plain;
    hide SameValue;
    assert (forall i :: 0 <= i < 2 ==> SameValue(a[i].value, b[i].value)) <==>
      SameValue(a[0].value, b[0].value) && SameValue(a[1].value, b[1].value);
  }

  /** `f` keeps apart the elements of two lists. */
  ghost predicate Separates<T(!new)>(f: T -> Value, a: seq<T>, b: seq<T>) {
    && (forall x :: x in a + b ==> Plain(f(x)))
    && (forall x, y :: x in a + b && y in a + b ==> (MeaningOf(f(x)) == MeaningOf(f(y)) <==> x == y))
  }

  lemma ListsDiffer<T(!new)>(a: seq<T>, b: seq<T>, f: T -> Value)
    requires Separates(f, a, b)
    ensures Identifies(Array(Values(a, f)), Array(Values(b, f)), a == b)
  {
    var x, y := Values(a, f), Values(b, f);
    assert Plain(Array(x)) && Plain(Array(y));
    ArraysAgree(x, y);
    hide MeaningOf;
    if |a| == |b| {
      forall i | 0 <= i < |a| ensures MeaningOf(x[i]) == MeaningOf(y[i]) <==> a[i] == b[i] {
        assert a[i] in a + b && b[i] in a + b;
      }
    }
  }

  lemma MaybeSortsDiffer(s: Option<seq<Sort>>, t: Option<seq<Sort>>)
    ensures Identifies(SortsValue(s), SortsValue(t), s == t)
  {
    if s.Some? && t.Some? {
      hide SortValue;
      hide SameValue;
      forall x: Sort ensures Plain(SortValue(x)) { SortIsPlain(x); }
      forall x: Sort, y: Sort
        ensures MeaningOf(SortValue(x)) == MeaningOf(SortValue(y)) <==> x == y
      {
        SortMeaning(x, y);
      }
      ListsDiffer(s.value, t.value, SortValue);
    } else {
      forall x: Sort ensures Plain(SortValue(x)) { SortIsPlain(x); }
    }
  }

  lemma SortMeaning(x: Sort, y: Sort)
    ensures Plain(SortValue(x)) && Plain(SortValue(y))
    ensures MeaningOf(SortValue(x)) == MeaningOf(SortValue(y)) <==> x == y
  {
    SortIsPlain(x);
    SortIsPlain(y);
    SortsDiffer(x, y);
  }

  lemma FilterMeaning(f: Filter, g: Filter)
    requires !f.value.Malformed? && !g.value.Malformed?
    ensures Plain(FilterValueOf(f)) && Plain(FilterValueOf(g))
    ensures MeaningOf(FilterValueOf(f)) == MeaningOf(FilterValueOf(g)) <==> f == g
  {
    FilterIsPlain(f);
    FilterIsPlain(g);
    FiltersDiffer(f, g);
  }

  /** Sorting by canonical text orders the filters of a request totally. */
  lemma TextOrdersFilters(fs: seq<Filter>, le: Order)
    requires TotalOrder(le) && forall f :: f in fs ==> !f.value.Malformed?
    ensures Sorting.Orders(ByText(le), fs)
  {
    hide FilterValueOf;
    hide Canonical;
    hide MeaningOf;
    forall f, g | f in fs && g in fs && ByText(le)(f, g) && ByText(le)(g, f) ensures f == g {
      FilterMeaning(f, g);
      CanonicalIdentifiesMeaning(FilterValueOf(f), FilterValueOf(g), le);
    }
    forall f, g | f in fs && g in fs ensures ByText(le)(f, g) || ByText(le)(g, f) {
      var a, b := Canonical(FilterValueOf(f), le), Canonical(FilterValueOf(g), le);
      assert le(a, b) || le(b, a);
    }
    forall f, g, h | f in fs && g in fs && h in fs && ByText(le)(f, g) && ByText(le)(g, h) ensures ByText(le)(f, h) {
      var a, b, c := Canonical(FilterValueOf(f), le), Canonical(FilterValueOf(g), le), Canonical(FilterValueOf(h), le);
      assert le(a, b) && le(b, c);
    }
  }

  lemma DimensionListsDiffer(a: seq<string>, b: seq<string>, o: Collation)
    requires Collates(o)
    ensures Identifies(DimensionsValue(a, o), DimensionsValue(b, o), multiset(a) == multiset(b))
  {
    SortsAlike(a, b, o.units);
    ListsDiffer(Sorted(a, o.units), Sorted(b, o.units), d => String(d));
  }

  lemma FilterListsDiffer(a: seq<Filter>, b: seq<Filter>, o: Collation)
    requires Collates(o) && forall f :: f in a + b ==> !f.value.Malformed?
    ensures Identifies(FiltersValue(a, o), FiltersValue(b, o), multiset(a) == multiset(b))
  {
    hide FilterValueOf;
    hide MeaningOf;
    hide SameValue;
    TextOrdersFilters(a + b, o.locale);
    SortsAlike(a, b, ByText(o.locale));
    var x, y := Sorted(a, ByText(o.locale)), Sorted(b, ByText(o.locale));
    forall f ensures Plain(FilterValueOf(f)) { FilterIsPlain(f); }
    forall f, g | f in x + y && g in x + y
      ensures MeaningOf(FilterValueOf(f)) == MeaningOf(FilterValueOf(g)) <==> f == g
    {
      assert f in a + b && g in a + b;
      FilterMeaning(f, g);
    }
    ListsDiffer(x, y, FilterValueOf);
  }

  /** The two requests differ in nothing but the order of their dimensions and of their filters. */
  predicate SameSemantic(s: Semantic, t: Semantic) {
    && s == t.(dimensions := s.dimensions, filters := s.filters)
    && multiset(s.dimensions) == multiset(t.dimensions)
    && multiset(s.filters) == multiset(t.filters)
  }

  lemma ThirteenParts(x: seq<Value>, y: seq<Value>)
    requires |x| == |y| == 13
    ensures (forall i :: 0 <= i < 13 ==> SameValue(x[i], y[i])) <==>
      && SameValue(x[0], y[0]) && SameValue(x[1], y[1]) && SameValue(x[2], y[2]) && SameValue(x[3], y[3])
      && SameValue(x[4], y[4]) && SameValue(x[5], y[5]) && SameValue(x[6], y[6]) && SameValue(x[7], y[7])
      && SameValue(x[8], y[8]) && SameValue(x[9], y[9]) && SameValue(x[10], y[10]) && SameValue(x[11], y[11])
      && SameValue(x[12], y[12])
  {
    hide SameValue;
  }

  lemma PartsAre(s: Semantic, o: Collation)
    ensures var x := Parts(s, o);
      && x[0] == Scope(s.organization) && x[1] == String(s.metric) && x[2] == DimensionsValue(s.dimensions, o)
      && x[3] == FiltersValue(s.filters, o) && x[4] == MaybePeriod(s.period) && x[5] == ComparisonValue(s.comparison)
      && x[6] == MaybeText(s.currency) && x[7] == SortsValue(s.sort) && x[8] == Value.Number(s.limit)
      && x[9] == String(s.connector) && x[10] == String(s.resource) && x[11] == String(s.schemaVersion)
      && x[12] == String(s.registryVersion)
  {
    hide Scope;
    hide DimensionsValue;
    hide FiltersValue;
    hide MaybePeriod;
    hide ComparisonValue;
    hide MaybeText;
    hide SortsValue;
  }

  /** Each part identifies what it is made of. */
  lemma PartByPart(s: Semantic, t: Semantic, o: Collation)
    requires Collates(o) && Sendable(s) && Sendable(t)
    ensures var x, y := Parts(s, o), Parts(t, o);
      && (SameValue(x[0], y[0]) <==> s.organization == t.organization)
      && (SameValue(x[1], y[1]) <==> s.metric == t.metric)
      && (SameValue(x[2], y[2]) <==> multiset(s.dimensions) == multiset(t.dimensions))
      && (SameValue(x[3], y[3]) <==> multiset(s.filters) == multiset(t.filters))
      && (SameValue(x[4], y[4]) <==> s.period == t.period)
      && (SameValue(x[5], y[5]) <==> s.comparison == t.comparison)
      && (SameValue(x[6], y[6]) <==> s.currency == t.currency)
      && (SameValue(x[7], y[7]) <==> s.sort == t.sort)
      && (SameValue(x[8], y[8]) <==> s.limit == t.limit)
      && (SameValue(x[9], y[9]) <==> s.connector == t.connector)
      && (SameValue(x[10], y[10]) <==> s.resource == t.resource)
      && (SameValue(x[11], y[11]) <==> s.schemaVersion == t.schemaVersion)
      && (SameValue(x[12], y[12]) <==> s.registryVersion == t.registryVersion)
  {
    hide Parts;
    hide Plain;
    hide MeaningOf;
    PartsAre(s, o);
    PartsAre(t, o);
    hide Scope;
    hide DimensionsValue;
    hide FiltersValue;
    hide MaybePeriod;
    hide ComparisonValue;
    hide SortsValue;
    ScopesDiffer(s.organization, t.organization);
    TextsDiffer(s.metric, t.metric);
    DimensionListsDiffer(s.dimensions, t.dimensions, o);
    FilterListsDiffer(s.filters, t.filters, o);
    MaybePeriodsDiffer(s.period, t.period);
    ComparisonValuesDiffer(s.comparison, t.comparison);
    MaybeTextsDiffer(s.currency, t.currency);
    MaybeSortsDiffer(s.sort, t.sort);
    NumbersDiffer(s.limit, t.limit);
    TextsDiffer(s.connector, t.connector);
    TextsDiffer(s.resource, t.resource);
    TextsDiffer(s.schemaVersion, t.schemaVersion);
    TextsDiffer(s.registryVersion, t.registryVersion);
    hide SameValue;
    hide MaybeText;
    hide Collates;
    hide Sendable;
  }

  lemma PartsIdentify(s: Semantic, t: Semantic, o: Collation)
    requires Collates(o) && Sendable(s) && Sendable(t)
    ensures (forall i :: 0 <= i < 13 ==> SameValue(Parts(s, o)[i], Parts(t, o)[i])) <==> SameSemantic(s, t)
  {
    hide Parts;
    hide SameValue;
    hide Collates;
    hide Sendable;
    PartByPart(s, t, o);
    ThirteenParts(Parts(s, o), Parts(t, o));
  }

  /** Two requests share a fingerprint exactly when they agree on everything that is fingerprinted,
      up to the order of their dimensions and filters. */
  lemma FingerprintsIdentify(s: Semantic, t: Semantic, o: Collation)
    requires Collates(o) && Sendable(s) && Sendable(t)
    ensures PreImage(s, o) == PreImage(t, o) <==> SameSemantic(s, t)
  {
    hide Parts;
    hide Canonical;
    hide MeaningOf;
    hide Plain;
    hide SameValue;
    var a, b := Members(s, o), Members(t, o);
    SemanticIsPlain(s, o);
    SemanticIsPlain(t, o);
    CanonicalIdentifiesMeaning(Object(a), Object(b), o.locale);
    ObjectsAgree(a, b);
    PartsIdentify(s, t, o);
    hide SameSemantic;
    assert (forall i :: 0 <= i < 13 ==> SameValue(a[i].value, b[i].value)) <==>
      (forall i :: 0 <= i < 13 ==> SameValue(Parts(s, o)[i], Parts(t, o)[i]));
  }
}
