/** `SqlCompilerService`: from a validated request to a statement and its named parameters. */
module SqlCompiler {
  import opened Contracts
  import opened Calendar
  import opened PeriodResolver
  import opened Registry
  import opened Like
  import opened Text

  // ---------------------------------------------------------------- identifiers

  predicate IsLetter(c: char) { 'A' <= c <= 'Z' || 'a' <= c <= 'z' || c == '_' }

  /** `/^[A-Za-z_][A-Za-z0-9_]*$/`. */
  predicate IsIdentifier(s: string) {
    s != [] && IsLetter(s[0]) && forall i :: 0 <= i < |s| ==> IsLetter(s[i]) || IsDigit(s[i])
  }

  function SplitDots(s: string): (r: seq<string>)
    ensures |r| > 0
  {
    if s == [] then [[]]
    else
      var rest := SplitDots(s[1..]);
      if s[0] == '.' then [[]] + rest else [[s[0]] + rest[0]] + rest[1..]
  }

  function JoinDots(parts: seq<string>): string {
    if parts == [] then [] else if |parts| == 1 then parts[0] else parts[0] + "." + JoinDots(parts[1..])
  }

  function Identifier(s: string): Outcome<string> {
    if IsIdentifier(s) then Ok("[" + s + "]") else Failed(NOT_CONFIGURED)
  }

  function Identifiers(parts: seq<string>): Outcome<seq<string>> {
    if parts == [] then Ok([])
    else
      var first :- Identifier(parts[0]);
      var rest :- Identifiers(parts[1..]);
      Ok([first] + rest)
  }

  /** A reviewed path, each part bracketed. */
  function Path(s: string): Outcome<string> {
    var parts :- Identifiers(SplitDots(s));
    Ok(JoinDots(parts))
  }

  type Column = string

  function Expression(resource: Resource, id: string): Outcome<Column> {
    if id !in resource.expressions || resource.expressions[id] == [] then Failed(NOT_CONFIGURED)
    else Path(resource.expressions[id])
  }

  // ---------------------------------------------------------------- statements

  /** A bound value: a scalar of the request, or a bound of the period as a civil day or an instant. */
  datatype Parameter = Value(scalar: Scalar) | Day(date: Date) | At(instant: Instant)

  type Parameters = map<string, Parameter>

  datatype Clause =
    | Compare(column: Column, operator: Operator, name: string)
    | LikeClause(column: Column, name: string, escape: Option<char>)
    | Between(column: Column, low: string, high: string)
    | Within(column: Column, low: string, high: string)       // low <= column AND column < high
    | IsNull(column: Column, negated: bool)
    | Among(column: Column, names: seq<string>, negated: bool)

  datatype Group = Group(column: Column, alias: string)

  datatype Ordering = Ordering(group: Group, ascending: bool)

  datatype Statement = Statement(
    top: int,
    aggregation: Aggregation,
    exact: bool,             // the aggregate is converted to text
    measure: Column,
    groups: seq<Group>,
    table: string,
    clauses: seq<Clause>,
    orderBy: seq<Ordering>)

  datatype Compiled = Compiled(statement: Statement, parameters: Parameters)

  /** A request filter with the dimension it refers to. */
  datatype BoundFilter = BoundFilter(dimension: Dimension, operator: Operator, value: FilterValue)

  // ---------------------------------------------------------------- names

  /** The parameter names the compiler generates. */
  datatype Name = Source(i: nat) | PeriodFrom | PeriodTo | Whole(i: nat) | Part(i: nat, j: nat)

  function Spelling(n: Name): string {
    match n
    case Source(i) => "source" + Decimal(i)
    case PeriodFrom => "periodFrom"
    case PeriodTo => "periodTo"
    case Whole(i) => "f" + Decimal(i)
    case Part(i, j) => "f" + Decimal(i) + "_" + Decimal(j)
  }

  /** Generated names are pairwise distinct. */
  lemma SpellingInjective(m: Name, n: Name)
    requires Spelling(m) == Spelling(n)
    ensures m == n
  {
    SpellingShape(m);
    SpellingShape(n);
    var s := Spelling(m);
    if m.Source? {
      DecimalUnambiguous(m.i, [], n.i, []);
    } else if m.PeriodFrom? || m.PeriodTo? {
    } else {
      DecimalUnambiguous(m.i, Suffix(m), n.i, Suffix(n));
      if m.Part? {
        assert Suffix(m)[1..] == Decimal(m.j) && Suffix(n)[1..] == Decimal(n.j);
        DecimalInjective(m.j, n.j);
      }
    }
  }

  function Suffix(n: Name): string {
    if n.Part? then "_" + Decimal(n.j) else []
  }

  lemma Dropped(a: string, b: string)
    requires a != []
    ensures (a + b)[0] == a[0] && (a + b)[|a|..] == b == b + []
  {
  }

  lemma SpellingShape(n: Name)
    ensures Spelling(n) != []
    ensures n.Source? <==> Spelling(n)[0] == 's'
    ensures n.Source? ==> Spelling(n)[6..] == Decimal(n.i) + []
    ensures n.PeriodFrom? || n.PeriodTo? <==> Spelling(n)[0] == 'p'
    ensures n.Whole? || n.Part? ==> Spelling(n)[1..] == Decimal(n.i) + Suffix(n)
    ensures EndsNumber(Suffix(n))
  {
    if n.Source? {
      SourceShape(n.i);
    } else if n.Whole? || n.Part? {
      FilterShape(n);
    } else {
      PeriodShape();
    }
    hide Spelling;
    hide Decimal;
  }

  lemma SourceShape(i: nat)
    ensures var s := Spelling(Source(i)); s != [] && s[0] == 's' && s[6..] == Decimal(i) + []
  {
    hide Decimal;
    Dropped("source", Decimal(i));
  }

  lemma PeriodShape()
    ensures var s := Spelling(PeriodFrom); s != [] && s[0] == 'p'
    ensures var s := Spelling(PeriodTo); s != [] && s[0] == 'p'
  {
  }

  lemma FilterShape(n: Name)
    requires n.Whole? || n.Part?
    ensures var s := Spelling(n); s != [] && s[0] == 'f' && s[1..] == Decimal(n.i) + Suffix(n)
  {
    hide Decimal;
    Dropped("f", Decimal(n.i) + Suffix(n));
    if n.Part? { assert Spelling(n) == "f" + (Decimal(n.i) + ("_" + Decimal(n.j))); }
  }

  // ---------------------------------------------------------------- clauses and bindings

  function FixedClause(f: FixedFilter, i: nat, column: Column): Clause {
    match f
    case StartsWith(_, _) => LikeClause(column, Spelling(Source(i)), None)
    case Equals(_, _) => Compare(column, EQ, Spelling(Source(i)))
  }

  function FixedValue(f: FixedFilter): Parameter {
    match f
    case StartsWith(_, v) => Value(Text(PrefixPattern(v)))
    case Equals(_, v) => Value(Text(v))
  }

  /** `String(value)` of a scalar. */
  function ScalarText(v: Scalar): string {
    match v
    case Null => "null"
    case Text(s) => s
    case Number(n) => Integer(n)
    case Boolean(b) => if b then "true" else "false"
  }

  /** The text of a scalar reads back as the scalar: a text as itself, a number by its sign and digits. */
  lemma ScalarTextReads(v: Scalar)
    ensures match v
      case Null => ScalarText(v) == "null"
      case Text(s) => ScalarText(v) == s
      case Boolean(b) => ScalarText(v) == if b then "true" else "false"
      case Number(n) =>
        var digits := if n < 0 then ScalarText(v)[1..] else ScalarText(v);
        && (n < 0 ==> ScalarText(v)[0] == '-')
        && (forall i :: 0 <= i < |digits| ==> IsDigit(digits[i])) && Numeral(digits) == if n < 0 then -n else n
  {
    if v.Number? {
      NumeralOfDecimal(if v.n < 0 then -v.n else v.n);
      if v.n < 0 { assert ScalarText(v)[1..] == Decimal(-v.n); }
    }
  }

  /** The shapes the validator lets through, operator by operator. */
  predicate WellShaped(operator: Operator, value: FilterValue) {
    match value
    case Malformed => false
    case One(_) => operator !in {IN, NOT_IN, BETWEEN}
    case Many(vs) =>
      && operator in {IN, NOT_IN, BETWEEN} && (forall v :: v in vs ==> v != Null)
      && (if operator == BETWEEN then |vs| == 2 else |vs| > 0)
  }

  function FilterClause(operator: Operator, value: FilterValue, i: nat, column: Column): Outcome<Clause>
    requires WellShaped(operator, value)
  {
    match value
    case One(v) =>
      if v == Null then
        if operator == EQ || operator == NEQ then Ok(IsNull(column, operator == NEQ)) else Failed(QUERY_INVALID)
      else if operator == CONTAINS then Ok(LikeClause(column, Spelling(Whole(i)), BACKSLASH))
      else Ok(Compare(column, operator, Spelling(Whole(i))))
    case Many(vs) =>
      if operator == BETWEEN then Ok(Between(column, Spelling(Part(i, 0)), Spelling(Part(i, 1))))
      else Ok(Among(column, PartNames(i, |vs|), operator == NOT_IN))
  }

  function PartNames(i: nat, n: nat): (names: seq<string>)
    ensures |names| == n && forall j :: 0 <= j < n ==> names[j] == Spelling(Part(i, j))
  {
    seq(n, j requires 0 <= j => Spelling(Part(i, j)))
  }

  /** What filter `i` binds. */
  function FilterBindings(operator: Operator, value: FilterValue, i: nat): Parameters {
    match value
    case One(v) =>
      if v == Null then map[]
      else map[Spelling(Whole(i)) := Value(if operator == CONTAINS then Text(ContainsPattern(ScalarText(v))) else v)]
    case Many(vs) => PartBindings(vs, i, |vs|)
    case Malformed => map[]
  }

  function PartBindings(vs: seq<Scalar>, i: nat, n: nat): Parameters
    requires n <= |vs|
  {
    if n == 0 then map[] else PartBindings(vs, i, n - 1)[Spelling(Part(i, n - 1)) := Value(vs[n - 1])]
  }

  datatype Where = Where(clauses: seq<Clause>, parameters: Parameters)

  function FixedWhere(resource: Resource, n: nat): Outcome<Where>
    requires n <= |resource.fixedFilters|
  {
    if n == 0 then Ok(Where([], map[]))
    else
      var w :- FixedWhere(resource, n - 1);
      var f := resource.fixedFilters[n - 1];
      var column :- Expression(resource, f.expression);
      Ok(Where(w.clauses + [FixedClause(f, n - 1, column)], w.parameters[Spelling(Source(n - 1)) := FixedValue(f)]))
  }

  /** The bounds of a period as the source stores dates: civil days, which need midnights, or instants. */
  function PeriodBounds(resource: Resource, period: ResolvedPeriod, zone: Zone): Outcome<(Parameter, Parameter)> {
    if resource.localDate then
      if LocalMidnight(zone, period.fromInclusive) && LocalMidnight(zone, period.toExclusive)
      then Ok((Day(LocalDate(zone, period.fromInclusive)), Day(LocalDate(zone, period.toExclusive))))
      else Failed(QUERY_INVALID)
    else Ok((At(period.fromInclusive), At(period.toExclusive)))
  }

  function PeriodWhere(resource: Resource, period: Option<ResolvedPeriod>, zone: Zone, w: Where): Outcome<Where> {
    if period.None? then Ok(w)
    else
      var column :- Expression(resource, period.value.dateDimension);
      var bounds :- PeriodBounds(resource, period.value, zone);
      var from, to := Spelling(PeriodFrom), Spelling(PeriodTo);
      Ok(Where(w.clauses + [Within(column, from, to)], w.parameters[from := bounds.0][to := bounds.1]))
  }

  function FilterWhere(resource: Resource, filters: seq<BoundFilter>, n: nat, w: Where): Outcome<Where>
    requires n <= |filters| && forall f :: f in filters ==> WellShaped(f.operator, f.value)
  {
    if n == 0 then Ok(w)
    else
      var before :- FilterWhere(resource, filters, n - 1, w);
      var f := filters[n - 1];
      var column :- Expression(resource, f.dimension.expression);
      var clause :- FilterClause(f.operator, f.value, n - 1, column);
      Ok(Where(before.clauses + [clause], before.parameters + FilterBindings(f.operator, f.value, n - 1)))
  }

  function Groups(resource: Resource, dimensions: seq<Dimension>): Outcome<seq<Group>> {
    if dimensions == [] then Ok([])
    else
      var column :- Expression(resource, dimensions[0].expression);
      var rest :- Groups(resource, dimensions[1..]);
      Ok([Group(column, dimensions[0].key)] + rest)
  }

  /** Every alias must be a reviewed identifier too. */
  predicate AliasesReviewed(dimensions: seq<Dimension>) {
    forall d :: d in dimensions ==> IsIdentifier(d.key)
  }

  function GroupOf(groups: seq<Group>, key: string): Outcome<Group> {
    if groups == [] then Failed(INTERNAL_ERROR)
    else if groups[0].alias == key then Ok(groups[0])
    else GroupOf(groups[1..], key)
  }

  function SortOrder(groups: seq<Group>, sort: seq<Sort>): Outcome<seq<Ordering>> {
    if sort == [] then Ok([])
    else
      var g :- GroupOf(groups, sort[0].field);
      var rest :- SortOrder(groups, sort[1..]);
      Ok([Ordering(g, sort[0].ascending)] + rest)
  }

  function DefaultOrder(groups: seq<Group>): (r: seq<Ordering>)
    ensures |r| == |groups| && forall i :: 0 <= i < |r| ==> r[i] == Ordering(groups[i], true)
  {
    if groups == [] then [] else [Ordering(groups[0], true)] + DefaultOrder(groups[1..])
  }

  function WhereOf(resource: Resource, filters: seq<BoundFilter>, period: Option<ResolvedPeriod>,
                   zone: Zone): Outcome<Where>
    requires forall f :: f in filters ==> WellShaped(f.operator, f.value)
  {
    var fixed :- FixedWhere(resource, |resource.fixedFilters|);
    var dated :- PeriodWhere(resource, period, zone, fixed);
    FilterWhere(resource, filters, |filters|, dated)
  }

  const DEFAULT_LIMIT := 1000

  function Compile(metric: Metric, resource: Resource, dimensions: seq<Dimension>, filters: seq<BoundFilter>,
                   period: Option<ResolvedPeriod>, zone: Zone, sort: seq<Sort>, limit: Option<int>): Outcome<Compiled>
    requires forall f :: f in filters ==> WellShaped(f.operator, f.value)
  {
    var measure :- Expression(resource, metric.measure);
    var groups :- Groups(resource, dimensions);
    if !AliasesReviewed(dimensions) then Failed(NOT_CONFIGURED)
    else
      var w :- WhereOf(resource, filters, period, zone);
      var table :- Path(resource.table);
      var order :- if sort != [] then SortOrder(groups, sort) else Ok(DefaultOrder(groups));
      var top := if limit.Some? then limit.value else DEFAULT_LIMIT;
      var exact := metric.dataType == CURRENCY;
      Ok(Compiled(Statement(top, metric.aggregation, exact, measure, groups, table, w.clauses, order), w.parameters))
  }

  // ---------------------------------------------------------------- the compiler's loops

  /** `compile`, filling the clauses and the parameters in place. */
  method CompileStatement(metric: Metric, resource: Resource, dimensions: seq<Dimension>, filters: seq<BoundFilter>,
                          period: Option<ResolvedPeriod>, zone: Zone, sort: seq<Sort>, limit: Option<int>)
    returns (r: Outcome<Compiled>)
    requires forall f :: f in filters ==> WellShaped(f.operator, f.value)
    ensures r == Compile(metric, resource, dimensions, filters, period, zone, sort, limit)
  {
    hide FilterClause;
    hide FilterBindings;
    hide PeriodBounds;
    hide Path;
    hide Expression;
    hide Groups;
    hide SortOrder;
    var measure :- Expression(resource, metric.measure);
    var groups :- Groups(resource, dimensions);
    if !AliasesReviewed(dimensions) { return Failed(NOT_CONFIGURED); }
    var w := BuildWhere(resource, filters, period, zone);
    if w.Failed? { return Failed(w.code); }
    var table :- Path(resource.table);
    var order :- if sort != [] then SortOrder(groups, sort) else Ok(DefaultOrder(groups));
    var top := if limit.Some? then limit.value else DEFAULT_LIMIT;
    var exact := metric.dataType == CURRENCY;
    var st := Statement(top, metric.aggregation, exact, measure, groups, table, w.value.clauses, order);
    r := Ok(Compiled(st, w.value.parameters));
  }

  method BuildWhere(resource: Resource, filters: seq<BoundFilter>, period: Option<ResolvedPeriod>, zone: Zone)
    returns (r: Outcome<Where>)
    requires forall f :: f in filters ==> WellShaped(f.operator, f.value)
    ensures r == WhereOf(resource, filters, period, zone)
  {
    hide FilterClause;
    hide FilterBindings;
    hide PeriodBounds;
    hide Expression;
    var clauses, parameters: Parameters := [], map[];
    var i := 0;
    while i < |resource.fixedFilters|
      invariant 0 <= i <= |resource.fixedFilters|
      invariant FixedWhere(resource, i) == Ok(Where(clauses, parameters))
    {
      var f := resource.fixedFilters[i];
      var column := Expression(resource, f.expression);
      if column.Failed? {
        FixedFailureStays(resource, i + 1, |resource.fixedFilters|);
        return Failed(column.code);
      }
      parameters := parameters[Spelling(Source(i)) := FixedValue(f)];
      clauses := clauses + [FixedClause(f, i, column.value)];
      i := i + 1;
    }
    if period.Some? {
      var column :- Expression(resource, period.value.dateDimension);
      var bounds :- PeriodBounds(resource, period.value, zone);
      parameters := parameters[Spelling(PeriodFrom) := bounds.0];
      parameters := parameters[Spelling(PeriodTo) := bounds.1];
      clauses := clauses + [Within(column, Spelling(PeriodFrom), Spelling(PeriodTo))];
    }
    ghost var dated := Where(clauses, parameters);
    i := 0;
    while i < |filters|
      invariant 0 <= i <= |filters|
      invariant FilterWhere(resource, filters, i, dated) == Ok(Where(clauses, parameters))
    {
      var f := filters[i];
      var column := Expression(resource, f.dimension.expression);
      if column.Failed? {
        FilterFailureStays(resource, filters, i + 1, |filters|, dated);
        return Failed(column.code);
      }
      var clause := FilterClause(f.operator, f.value, i, column.value);
      if clause.Failed? {
        FilterFailureStays(resource, filters, i + 1, |filters|, dated);
        return Failed(clause.code);
      }
      parameters := parameters + FilterBindings(f.operator, f.value, i);
      clauses := clauses + [clause.value];
      i := i + 1;
    }
    r := Ok(Where(clauses, parameters));
  }

  lemma {:induction false} FixedFailureStays(resource: Resource, m: nat, n: nat)
    requires m <= n <= |resource.fixedFilters| && FixedWhere(resource, m).Failed?
    ensures FixedWhere(resource, n) == Failed(FixedWhere(resource, m).code)
    decreases n - m
  {
    if m < n { FixedFailureStays(resource, m, n - 1); }
  }

  lemma {:induction false} FilterFailureStays(resource: Resource, filters: seq<BoundFilter>, m: nat, n: nat, w: Where)
    requires m <= n <= |filters| && forall f :: f in filters ==> WellShaped(f.operator, f.value)
    requires FilterWhere(resource, filters, m, w).Failed?
    ensures FilterWhere(resource, filters, n, w) == Failed(FilterWhere(resource, filters, m, w).code)
    decreases n - m
  {
    if m < n { FilterFailureStays(resource, filters, m, n - 1, w); }
  }
}
