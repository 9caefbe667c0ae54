/** What a compiled statement selects and groups, and that it is what the request asks for. */
module SqlMeaning {
  import opened Contracts
  import opened Calendar
  import opened PeriodResolver
  import opened Registry
  import opened Like
  import opened SqlCompiler
  import Sets

  // ---------------------------------------------------------------- tables and truth

  datatype Cell = NullCell | Plain(scalar: Scalar) | DayCell(date: Date) | InstantCell(instant: Instant)

  /** A column the row does not carry reads as NULL. */
  type Row = map<Column, Cell>

  function CellAt(row: Row, column: Column): Cell {
    if column in row then row[column] else NullCell
  }

  /** What is left to the source: the collation, the text of a cell, and the aggregates. */
  datatype Sql = Sql(
    same: (Cell, Cell) -> bool,
    before: (Cell, Cell) -> bool,
    text: Cell -> string,
    aggregate: (Aggregation, bool, multiset<Cell>) -> Cell)

  type Database = string -> seq<Row>

  datatype Truth = True | False | Unknown

  function Known(b: bool): Truth { if b then True else False }

  function And(p: Truth, q: Truth): Truth {
    if p == False || q == False then False else if p == True && q == True then True else Unknown
  }

  function Or(p: Truth, q: Truth): Truth {
    if p == True || q == True then True else if p == False && q == False then False else Unknown
  }

  function Not(p: Truth): Truth {
    match p case True => False case False => True case Unknown => Unknown
  }

  // ---------------------------------------------------------------- evaluation

  function CellOf(p: Parameter): Cell {
    match p
    case Value(v) => if v == Null then NullCell else Plain(v)
    case Day(d) => DayCell(d)
    case At(t) => InstantCell(t)
  }

  /** Every name the clause uses is bound. */
  predicate Bound(c: Clause, ps: Parameters) {
    match c
    case Compare(_, _, name) => name in ps
    case LikeClause(_, name, _) => name in ps
    case Between(_, low, high) => low in ps && high in ps
    case Within(_, low, high) => low in ps && high in ps
    case IsNull(_, _) => true
    case Among(_, names, _) => forall name :: name in names ==> name in ps
  }

  function Compared(sql: Sql, operator: Operator, x: Cell, v: Cell): Truth {
    if x == NullCell || v == NullCell then Unknown
    else
      match operator
      case EQ => Known(sql.same(x, v))
      case NEQ => Not(Known(sql.same(x, v)))
      case LT => Known(sql.before(x, v))
      case GTE => Not(Known(sql.before(x, v)))
      case GT => Known(sql.before(v, x))
      case LTE => Not(Known(sql.before(v, x)))
      case _ => Unknown
  }

  function AnyOf(sql: Sql, x: Cell, names: seq<string>, ps: Parameters): Truth
    requires forall name :: name in names ==> name in ps
  {
    if names == [] then False
    else Or(Compared(sql, EQ, x, CellOf(ps[names[0]])), AnyOf(sql, x, names[1..], ps))
  }

  function Eval(sql: Sql, row: Row, c: Clause, ps: Parameters): Truth
    requires Bound(c, ps)
  {
    match c
    case Compare(column, operator, name) => Compared(sql, operator, CellAt(row, column), CellOf(ps[name]))
    case LikeClause(column, name, escape) =>
      var pattern := CellOf(ps[name]);
      if CellAt(row, column) == NullCell || pattern == NullCell then Unknown
      else Known(IsLike(sql.text(CellAt(row, column)), sql.text(pattern), escape))
    case Between(column, low, high) =>
      var x := CellAt(row, column);
      And(Compared(sql, GTE, x, CellOf(ps[low])), Compared(sql, LTE, x, CellOf(ps[high])))
    case Within(column, low, high) =>
      var x := CellAt(row, column);
      And(Compared(sql, GTE, x, CellOf(ps[low])), Compared(sql, LT, x, CellOf(ps[high])))
    case IsNull(column, negated) => Known((CellAt(row, column) == NullCell) != negated)
    case Among(column, names, negated) =>
      var any := AnyOf(sql, CellAt(row, column), names, ps);
      if negated then Not(any) else any
  }

  predicate AllBound(clauses: seq<Clause>, ps: Parameters) {
    forall c :: c in clauses ==> Bound(c, ps)
  }

  /** Every parameter the statement names is bound. */
  predicate Executable(c: Compiled) { AllBound(c.statement.clauses, c.parameters) }

  /** The clauses joined by AND. */
  function Conjunction(sql: Sql, row: Row, clauses: seq<Clause>, ps: Parameters): Truth
    requires AllBound(clauses, ps)
  {
    if clauses == [] then True else And(Eval(sql, row, clauses[0], ps), Conjunction(sql, row, clauses[1..], ps))
  }

  /** The source keeps text as it is. */
  ghost predicate KeepsText(sql: Sql) {
    forall s :: sql.text(Plain(Text(s))) == s
  }

  // ---------------------------------------------------------------- what a request asks of a row

  datatype Test =
    | Prefix(column: Column, text: string)
    | Equal(column: Column, text: string)
    | During(column: Column, start: Parameter, end: Parameter)
    | Filtered(column: Column, operator: Operator, value: FilterValue)

  predicate SameAs(sql: Sql, x: Cell, v: Scalar) { sql.same(x, Plain(v)) }

  /** How `contains` and `starts_with` are read: as the substring and prefix they stand for, or as
      the LIKE patterns they are compiled to. */
  datatype Reading = AsText | AsPattern

  ghost predicate Has(reading: Reading, s: string, v: string) {
    match reading case AsText => IsSubstring(v, s) case AsPattern => IsLike(s, ContainsPattern(v), BACKSLASH)
  }

  ghost predicate Begins(reading: Reading, s: string, v: string) {
    match reading case AsText => v <= s case AsPattern => IsLike(s, PrefixPattern(v), None)
  }

  /** What a filter asks of a cell: NULL is only ever found by comparing with null itself. */
  ghost predicate Satisfies(reading: Reading, sql: Sql, x: Cell, operator: Operator, value: FilterValue) {
    match value
    case One(Null) => if operator == EQ then x == NullCell else x != NullCell
    case One(v) =>
      x != NullCell &&
      (match operator
       case EQ => SameAs(sql, x, v)
       case NEQ => !SameAs(sql, x, v)
       case LT => sql.before(x, Plain(v))
       case LTE => !sql.before(Plain(v), x)
       case GT => sql.before(Plain(v), x)
       case GTE => !sql.before(x, Plain(v))
       case CONTAINS => Has(reading, sql.text(x), ScalarText(v))
       case _ => false)
    case Many(vs) =>
      x != NullCell &&
      (match operator
       case IN => exists v :: v in vs && SameAs(sql, x, v)
       case NOT_IN => forall v :: v in vs ==> !SameAs(sql, x, v)
       case BETWEEN => |vs| == 2 && !sql.before(x, Plain(vs[0])) && !sql.before(Plain(vs[1]), x)
       case _ => false)
    case Malformed => false
  }

  ghost predicate Passes(reading: Reading, sql: Sql, row: Row, t: Test) {
    var x := CellAt(row, t.column);
    match t
    case Prefix(_, v) => x != NullCell && Begins(reading, sql.text(x), v)
    case Equal(_, v) => x != NullCell && SameAs(sql, x, Text(v))
    case During(_, start, end) => x != NullCell && !sql.before(x, CellOf(start)) && sql.before(x, CellOf(end))
    case Filtered(_, operator, value) => Satisfies(reading, sql, x, operator, value)
  }

  /** The column of an expression the registry configures. */
  function ColumnOf(resource: Resource, id: string): Column {
    match Expression(resource, id) case Ok(c) => c case Failed(_) => []
  }

  function FixedTest(resource: Resource, f: FixedFilter): Test {
    match f
    case StartsWith(id, v) => Prefix(ColumnOf(resource, id), v)
    case Equals(id, v) => Equal(ColumnOf(resource, id), v)
  }

  function FilterTest(resource: Resource, f: BoundFilter): Test {
    Filtered(ColumnOf(resource, f.dimension.expression), f.operator, f.value)
  }

  function PeriodTests(resource: Resource, period: Option<ResolvedPeriod>, zone: Zone): set<Test> {
    if period.None? then {}
    else
      match PeriodBounds(resource, period.value, zone)
      case Ok(bounds) => {During(ColumnOf(resource, period.value.dateDimension), bounds.0, bounds.1)}
      case Failed(_) => {}
  }

  /** Everything a request asks of a row; a set, so nothing depends on the order of the filters. */
  function Tests(resource: Resource, filters: seq<BoundFilter>, period: Option<ResolvedPeriod>, zone: Zone): set<Test> {
    (set f | f in resource.fixedFilters :: FixedTest(resource, f))
    + PeriodTests(resource, period, zone)
    + (set f | f in filters :: FilterTest(resource, f))
  }

  ghost predicate PassesAll(reading: Reading, sql: Sql, row: Row, tests: set<Test>) {
    forall t :: t in tests ==> Passes(reading, sql, row, t)
  }

  /** Texts the generated patterns read literally. */
  predicate Literally(f: BoundFilter) {
    f.operator == CONTAINS && f.value.One? && f.value.scalar != Null ==> ContainsSafe(ScalarText(f.value.scalar))
  }

  predicate LiteralPrefix(f: FixedFilter) { f.StartsWith? ==> PrefixSafe(f.value) }

  predicate LiteralPatterns(resource: Resource, filters: seq<BoundFilter>) {
    && (forall f :: f in resource.fixedFilters ==> LiteralPrefix(f))
    && (forall f :: f in filters ==> Literally(f))
  }

  predicate AllWellShaped(filters: seq<BoundFilter>) {
    forall f :: f in filters ==> WellShaped(f.operator, f.value)
  }

  // ---------------------------------------------------------------- one clause

  predicate Extends(ps: Parameters, part: Parameters) {
    forall k :: k in part ==> k in ps && ps[k] == part[k]
  }

  /** The clause says of every row what the test says. */
  ghost predicate Says(reading: Reading, sql: Sql, row: Row, c: Clause, ps: Parameters, t: Test) {
    Bound(c, ps) && (Eval(sql, row, c, ps) == True <==> Passes(reading, sql, row, t))
  }

  lemma FixedClauseMeans(reading: Reading, sql: Sql, row: Row, f: FixedFilter, i: nat, column: Column, ps: Parameters)
    requires (reading == AsText ==> LiteralPrefix(f)) && KeepsText(sql)
    requires Spelling(Source(i)) in ps && ps[Spelling(Source(i))] == FixedValue(f)
    ensures Bound(FixedClause(f, i, column), ps)
    ensures Eval(sql, row, FixedClause(f, i, column), ps) == True
       <==> Passes(reading, sql, row, if f.StartsWith? then Prefix(column, f.value) else Equal(column, f.value))
  {
    if f.StartsWith? && reading == AsText { StartsWithMeansPrefix(f.value, sql.text(CellAt(row, column))); }
  }

  lemma {:induction false} PartIsBound(vs: seq<Scalar>, i: nat, n: nat, j: nat)
    requires j < n <= |vs|
    ensures Spelling(Part(i, j)) in PartBindings(vs, i, n)
    ensures PartBindings(vs, i, n)[Spelling(Part(i, j))] == Value(vs[j])
  {
    if j < n - 1 {
      PartIsBound(vs, i, n - 1, j);
      if Spelling(Part(i, j)) == Spelling(Part(i, n - 1)) { SpellingInjective(Part(i, j), Part(i, n - 1)); }
    }
  }

  lemma {:induction false} AnyOfMeans(sql: Sql, x: Cell, names: seq<string>, ps: Parameters, vs: seq<Scalar>)
    requires |names| == |vs| && forall v :: v in vs ==> v != Null
    requires forall j :: 0 <= j < |vs| ==> names[j] in ps && ps[names[j]] == Value(vs[j])
    ensures x == NullCell && vs != [] ==> AnyOf(sql, x, names, ps) == Unknown
    ensures x != NullCell ==> AnyOf(sql, x, names, ps) == Known(exists v :: v in vs && SameAs(sql, x, v))
  {
    if vs != [] {
      assert forall v :: v in vs <==> v == vs[0] || v in vs[1..];
      AnyOfMeans(sql, x, names[1..], ps, vs[1..]);
      var first := vs[0];
      assert first in vs && names[0] in ps;
      assert x != NullCell ==> Compared(sql, EQ, x, CellOf(ps[names[0]])) == Known(SameAs(sql, x, first));
    }
  }

  lemma PartsAreBound(vs: seq<Scalar>, i: nat, ps: Parameters)
    requires Extends(ps, PartBindings(vs, i, |vs|))
    ensures var names := PartNames(i, |vs|);
      |names| == |vs| && forall j :: 0 <= j < |vs| ==> names[j] in ps && ps[names[j]] == Value(vs[j])
  {
    hide Spelling;
    forall j | 0 <= j < |vs| ensures Spelling(Part(i, j)) in ps && ps[Spelling(Part(i, j))] == Value(vs[j]) {
      PartIsBound(vs, i, |vs|, j);
    }
    hide PartBindings;
    hide Extends;
  }

  lemma AmongMeans(reading: Reading, sql: Sql, row: Row, vs: seq<Scalar>, negated: bool, i: nat, column: Column,
                   ps: Parameters)
    requires |vs| > 0 && forall v :: v in vs ==> v != Null
    requires Extends(ps, PartBindings(vs, i, |vs|))
    ensures Bound(Among(column, PartNames(i, |vs|), negated), ps)
    ensures Eval(sql, row, Among(column, PartNames(i, |vs|), negated), ps) == True
       <==> Satisfies(reading, sql, CellAt(row, column), if negated then NOT_IN else IN, Many(vs))
  {
    hide Extends;
    hide PartBindings;
    hide PartNames;
    hide SameAs;
    PartsAreBound(vs, i, ps);
    AnyOfMeans(sql, CellAt(row, column), PartNames(i, |vs|), ps, vs);
    hide AnyOf;
  }

  lemma ScalarClauseMeans(reading: Reading, sql: Sql, row: Row, f: BoundFilter, v: Scalar, i: nat, column: Column,
                          ps: Parameters)
    requires f.value == FilterValue.One(v) && WellShaped(f.operator, f.value)
    requires (reading == AsText ==> Literally(f)) && KeepsText(sql)
    requires Extends(ps, FilterBindings(f.operator, f.value, i))
    requires FilterClause(f.operator, f.value, i, column).Ok?
    ensures var c := FilterClause(f.operator, f.value, i, column).value;
      Says(reading, sql, row, c, ps, Filtered(column, f.operator, f.value))
  {
    hide IsLike;
    hide IsSubstring;
    hide ContainsPattern;
    hide ScalarText;
    hide Spelling;
    if v != Null {
      assert Spelling(Whole(i)) in FilterBindings(f.operator, f.value, i);
      if f.operator == CONTAINS && reading == AsText {
        ContainsMeansSubstring(ScalarText(v), sql.text(CellAt(row, column)));
      }
    }
  }

  lemma BetweenIsTrue(sql: Sql, x: Cell, low: Scalar, high: Scalar)
    requires low != Null && high != Null
    ensures And(Compared(sql, GTE, x, Plain(low)), Compared(sql, LTE, x, Plain(high))) == True
       <==> x != NullCell && !sql.before(x, Plain(low)) && !sql.before(Plain(high), x)
  {
  }

  lemma BetweenMeans(reading: Reading, sql: Sql, row: Row, vs: seq<Scalar>, i: nat, column: Column, ps: Parameters)
    requires WellShaped(BETWEEN, Many(vs))
    requires Extends(ps, PartBindings(vs, i, |vs|))
    ensures var c := Between(column, Spelling(Part(i, 0)), Spelling(Part(i, 1)));
      Says(reading, sql, row, c, ps, Filtered(column, BETWEEN, Many(vs)))
  {
    hide Spelling;
    PartIsBound(vs, i, 2, 0);
    PartIsBound(vs, i, 2, 1);
    assert vs[0] in vs && vs[1] in vs;
    var low, high := Spelling(Part(i, 0)), Spelling(Part(i, 1));
    assert low in ps && ps[low] == Value(vs[0]) && high in ps && ps[high] == Value(vs[1]);
    hide PartBindings;
    hide Extends;
    BetweenIsTrue(sql, CellAt(row, column), vs[0], vs[1]);
    hide Compared;
    hide And;
  }

  lemma FilterClauseMeans(reading: Reading, sql: Sql, row: Row, f: BoundFilter, i: nat, column: Column, ps: Parameters)
    requires WellShaped(f.operator, f.value) && (reading == AsText ==> Literally(f)) && KeepsText(sql)
    requires Extends(ps, FilterBindings(f.operator, f.value, i))
    requires FilterClause(f.operator, f.value, i, column).Ok?
    ensures var c := FilterClause(f.operator, f.value, i, column).value;
      Says(reading, sql, row, c, ps, Filtered(column, f.operator, f.value))
  {
    match f.value {
      case One(v) => ScalarClauseMeans(reading, sql, row, f, v, i, column, ps);
      case Many(vs) =>
        if f.operator == BETWEEN {
          BetweenMeans(reading, sql, row, vs, i, column, ps);
        } else {
          AmongMeans(reading, sql, row, vs, f.operator == NOT_IN, i, column, ps);
        }
    }
  }

  /** A compiled `contains` filter means "has the value as a substring", whatever text the column
      holds, exactly when the value has neither a backslash nor an opening bracket. */
  lemma ContainsClauseIsExactWhenSafe(sql: Sql, v: Scalar, i: nat, column: Column)
    requires v != Null && KeepsText(sql)
    ensures var c := FilterClause(CONTAINS, FilterValue.One(v), i, column).value;
      var ps := FilterBindings(CONTAINS, FilterValue.One(v), i);
      && Bound(c, ps)
      && (ContainsSafe(ScalarText(v)) <==>
          forall s :: Eval(sql, map[column := Plain(Text(s))], c, ps) == True <==> IsSubstring(ScalarText(v), s))
  {
    var c := FilterClause(CONTAINS, FilterValue.One(v), i, column).value;
    var ps := FilterBindings(CONTAINS, FilterValue.One(v), i);
    var pattern := ContainsPattern(ScalarText(v));
    forall s ensures Eval(sql, map[column := Plain(Text(s))], c, ps) == True <==> IsLike(s, pattern, BACKSLASH) {
      assert sql.text(Plain(Text(s))) == s && sql.text(Plain(Text(pattern))) == pattern;
    }
    ContainsIsExactWhenSafe(ScalarText(v));
  }

  // ---------------------------------------------------------------- no binding is overwritten

  lemma {:induction false} PartsBindParts(vs: seq<Scalar>, i: nat, n: nat, name: Name)
    requires n <= |vs| && Spelling(name) in PartBindings(vs, i, n)
    ensures name.Part? && name.i == i && name.j < n
  {
    if Spelling(name) == Spelling(Part(i, n - 1)) {
      SpellingInjective(name, Part(i, n - 1));
    } else {
      PartsBindParts(vs, i, n - 1, name);
    }
  }

  /** A filter binds only names of its own index. */
  lemma FilterBindsItsOwn(operator: Operator, value: FilterValue, i: nat, name: Name)
    requires Spelling(name) in FilterBindings(operator, value, i)
    ensures name.Whole? || name.Part?
    ensures name.i == i
  {
    match value {
      case One(v) => SpellingInjective(name, Whole(i));
      case Many(vs) => PartsBindParts(vs, i, |vs|, name);
    }
  }

  /** Fixed filter `i` is bound once and for all, under a name of its own. */
  lemma {:induction false} FixedLookup(resource: Resource, n: nat, i: nat)
    requires i < n <= |resource.fixedFilters| && FixedWhere(resource, n).Ok?
    ensures var w, f := FixedWhere(resource, n).value, resource.fixedFilters[i];
      && Expression(resource, f.expression).Ok?
      && |w.clauses| == n && w.clauses[i] == FixedClause(f, i, ColumnOf(resource, f.expression))
      && Spelling(Source(i)) in w.parameters && w.parameters[Spelling(Source(i))] == FixedValue(f)
  {
    hide Expression;
    FixedClauseCount(resource, n - 1);
    if i < n - 1 {
      FixedLookup(resource, n - 1, i);
      if Spelling(Source(i)) == Spelling(Source(n - 1)) { SpellingInjective(Source(i), Source(n - 1)); }
    }
  }

  lemma {:induction false} FixedClauseCount(resource: Resource, n: nat)
    requires n <= |resource.fixedFilters| && FixedWhere(resource, n).Ok?
    ensures |FixedWhere(resource, n).value.clauses| == n
  {
    hide Expression;
    if n > 0 { FixedClauseCount(resource, n - 1); }
  }

  /** The filters leave every binding that is not one of theirs as it was. */
  lemma {:induction false} FiltersKeepOtherNames(resource: Resource, filters: seq<BoundFilter>, n: nat, w: Where,
                                                 name: Name)
    requires n <= |filters| && AllWellShaped(filters) && FilterWhere(resource, filters, n, w).Ok?
    requires name.Source? || name.PeriodFrom? || name.PeriodTo?
    ensures var ps := FilterWhere(resource, filters, n, w).value.parameters;
      Spelling(name) in w.parameters ==> Spelling(name) in ps && ps[Spelling(name)] == w.parameters[Spelling(name)]
  {
    hide Expression;
    hide FilterClause;
    hide FilterBindings;
    if n > 0 {
      FiltersKeepOtherNames(resource, filters, n - 1, w, name);
      var f := filters[n - 1];
      if Spelling(name) in FilterBindings(f.operator, f.value, n - 1) {
        FilterBindsItsOwn(f.operator, f.value, n - 1, name);
      }
    }
  }

  lemma {:induction false} FilterClauseCount(resource: Resource, filters: seq<BoundFilter>, n: nat, w: Where)
    requires n <= |filters| && AllWellShaped(filters) && FilterWhere(resource, filters, n, w).Ok?
    ensures var r := FilterWhere(resource, filters, n, w).value;
      |r.clauses| == |w.clauses| + n && w.clauses <= r.clauses
  {
    hide Expression;
    hide FilterClause;
    hide FilterBindings;
    if n > 0 { FilterClauseCount(resource, filters, n - 1, w); }
  }

  ghost predicate FilterCompiled(resource: Resource, f: BoundFilter, i: nat, c: Clause, ps: Parameters)
    requires WellShaped(f.operator, f.value)
  {
    && Expression(resource, f.dimension.expression).Ok?
    && FilterClause(f.operator, f.value, i, ColumnOf(resource, f.dimension.expression)) == Ok(c)
    && Extends(ps, FilterBindings(f.operator, f.value, i))
  }

  /** Filter `i`'s clause and bindings survive to the end. */
  lemma {:induction false} FilterLookup(resource: Resource, filters: seq<BoundFilter>, n: nat, w: Where, i: nat)
    requires i < n <= |filters| && AllWellShaped(filters) && FilterWhere(resource, filters, n, w).Ok?
    ensures var r := FilterWhere(resource, filters, n, w).value;
      && |w.clauses| + i < |r.clauses|
      && WellShaped(filters[i].operator, filters[i].value)
      && FilterCompiled(resource, filters[i], i, r.clauses[|w.clauses| + i], r.parameters)
  {
    hide Expression;
    hide FilterClause;
    hide FilterBindings;
    FilterClauseCount(resource, filters, n - 1, w);
    assert WellShaped(filters[i].operator, filters[i].value);
    if i < n - 1 {
      FilterLookup(resource, filters, n - 1, w, i);
      var f, last := filters[i], filters[n - 1];
      forall k | k in FilterBindings(f.operator, f.value, i)
        ensures k !in FilterBindings(last.operator, last.value, n - 1)
      {
        BindingsApart(f, i, last, n - 1, k);
      }
    }
  }

  lemma BindingsApart(f: BoundFilter, i: nat, g: BoundFilter, j: nat, k: string)
    requires i != j && k in FilterBindings(f.operator, f.value, i)
    ensures k !in FilterBindings(g.operator, g.value, j)
  {
    var name := NameBound(f.operator, f.value, i, k);
    if k in FilterBindings(g.operator, g.value, j) { FilterBindsItsOwn(g.operator, g.value, j, name); }
  }

  lemma NameBound(operator: Operator, value: FilterValue, i: nat, k: string) returns (name: Name)
    requires k in FilterBindings(operator, value, i)
    ensures k == Spelling(name) && (name.Whole? || name.Part?) && name.i == i
  {
    match value {
      case One(v) => name := Whole(i);
      case Many(vs) => name := PartBound(vs, i, |vs|, k);
    }
  }

  lemma {:induction false} PartBound(vs: seq<Scalar>, i: nat, n: nat, k: string) returns (name: Name)
    requires n <= |vs| && k in PartBindings(vs, i, n)
    ensures k == Spelling(name) && name.Part? && name.i == i
  {
    if k == Spelling(Part(i, n - 1)) { name := Part(i, n - 1); } else { name := PartBound(vs, i, n - 1, k); }
  }

  // ---------------------------------------------------------------- the WHERE clause

  lemma {:induction false} ConjunctionIsAll(sql: Sql, row: Row, clauses: seq<Clause>, ps: Parameters)
    requires AllBound(clauses, ps)
    ensures Conjunction(sql, row, clauses, ps) == True <==>
      forall k :: 0 <= k < |clauses| ==> Eval(sql, row, clauses[k], ps) == True
  {
    hide Eval;
    if clauses != [] {
      ConjunctionIsAll(sql, row, clauses[1..], ps);
      assert forall k :: 0 < k < |clauses| ==> clauses[k] == clauses[1..][k - 1];
      assert forall k :: 0 <= k < |clauses[1..]| ==> clauses[1..][k] == clauses[k + 1];
    }
  }

  lemma FixedClauseSays(reading: Reading, sql: Sql, row: Row, resource: Resource, filters: seq<BoundFilter>,
                        period: Option<ResolvedPeriod>, zone: Zone, i: nat)
    requires AllWellShaped(filters) && (reading == AsText ==> LiteralPatterns(resource, filters)) && KeepsText(sql)
    requires WhereOf(resource, filters, period, zone).Ok? && i < |resource.fixedFilters|
    ensures var w := WhereOf(resource, filters, period, zone).value;
      && i < |w.clauses|
      && Says(reading, sql, row, w.clauses[i], w.parameters, FixedTest(resource, resource.fixedFilters[i]))
  {
    hide Expression;
    hide FixedWhere;
    hide FilterWhere;
    hide PeriodBounds;
    hide Passes;
    hide Eval;
    hide Bound;
    var w := WhereOf(resource, filters, period, zone).value;
    var f := resource.fixedFilters[i];
    FixedLookup(resource, |resource.fixedFilters|, i);
    var fixed := FixedWhere(resource, |resource.fixedFilters|).value;
    var dated := PeriodWhere(resource, period, zone, fixed).value;
    PeriodKeeps(resource, period, zone, fixed, i);
    FilterClauseCount(resource, filters, |filters|, dated);
    FiltersKeepOtherNames(resource, filters, |filters|, dated, Source(i));
    assert reading == AsText ==> LiteralPrefix(f);
    FixedClauseMeans(reading, sql, row, f, i, ColumnOf(resource, f.expression), w.parameters);
  }

  lemma PeriodKeeps(resource: Resource, period: Option<ResolvedPeriod>, zone: Zone, fixed: Where, i: nat)
    requires PeriodWhere(resource, period, zone, fixed).Ok? && Spelling(Source(i)) in fixed.parameters
    ensures var dated, name := PeriodWhere(resource, period, zone, fixed).value, Spelling(Source(i));
      && fixed.clauses <= dated.clauses
      && name in dated.parameters && dated.parameters[name] == fixed.parameters[name]
  {
    SpellingShape(Source(i));
  }

  lemma PeriodClauseSays(reading: Reading, sql: Sql, row: Row, resource: Resource, filters: seq<BoundFilter>,
                         period: ResolvedPeriod, zone: Zone)
    requires AllWellShaped(filters)
    requires WhereOf(resource, filters, Some(period), zone).Ok?
    ensures var w, k := WhereOf(resource, filters, Some(period), zone).value, |resource.fixedFilters|;
      && k < |w.clauses| && PeriodBounds(resource, period, zone).Ok?
      && var bounds := PeriodBounds(resource, period, zone).value;
      var test := During(ColumnOf(resource, period.dateDimension), bounds.0, bounds.1);
      && PeriodTests(resource, Some(period), zone) == {test}
      && Says(reading, sql, row, w.clauses[k], w.parameters, test)
  {
    hide Expression;
    hide FixedWhere;
    hide FilterWhere;
    hide Passes;
    hide Eval;
    hide Bound;
    hide LocalMidnight;
    hide LocalDate;
    var w := WhereOf(resource, filters, Some(period), zone).value;
    FixedClauseCount(resource, |resource.fixedFilters|);
    var fixed := FixedWhere(resource, |resource.fixedFilters|).value;
    var dated := PeriodWhere(resource, Some(period), zone, fixed).value;
    FilterClauseCount(resource, filters, |filters|, dated);
    FiltersKeepOtherNames(resource, filters, |filters|, dated, PeriodFrom);
    FiltersKeepOtherNames(resource, filters, |filters|, dated, PeriodTo);
    var bounds := PeriodBounds(resource, period, zone).value;
    assert Spelling(PeriodFrom) != Spelling(PeriodTo);
    assert dated.parameters[Spelling(PeriodFrom)] == bounds.0 && dated.parameters[Spelling(PeriodTo)] == bounds.1;
    WithinMeans(reading, sql, row, ColumnOf(resource, period.dateDimension), bounds.0, bounds.1, w.parameters);
  }

  lemma WithinMeans(reading: Reading, sql: Sql, row: Row, column: Column, start: Parameter, end: Parameter,
                    ps: Parameters)
    requires !start.Value? && !end.Value?
    requires Extends(ps, map[Spelling(PeriodFrom) := start, Spelling(PeriodTo) := end])
    ensures var c := Within(column, Spelling(PeriodFrom), Spelling(PeriodTo));
      Says(reading, sql, row, c, ps, During(column, start, end))
  {
    assert Spelling(PeriodFrom) != Spelling(PeriodTo);
  }

  function FilterBase(resource: Resource, period: Option<ResolvedPeriod>): nat {
    |resource.fixedFilters| + if period.Some? then 1 else 0
  }

  lemma FilterClauseSays(reading: Reading, sql: Sql, row: Row, resource: Resource, filters: seq<BoundFilter>,
                         period: Option<ResolvedPeriod>, zone: Zone, i: nat)
    requires AllWellShaped(filters) && (reading == AsText ==> LiteralPatterns(resource, filters)) && KeepsText(sql)
    requires WhereOf(resource, filters, period, zone).Ok? && i < |filters|
    ensures var w, k := WhereOf(resource, filters, period, zone).value, FilterBase(resource, period) + i;
      k < |w.clauses| && Says(reading, sql, row, w.clauses[k], w.parameters, FilterTest(resource, filters[i]))
  {
    hide Expression;
    hide FixedWhere;
    hide FilterWhere;
    hide PeriodBounds;
    hide Passes;
    hide Eval;
    hide Bound;
    hide FilterClause;
    hide FilterBindings;
    var w := WhereOf(resource, filters, period, zone).value;
    FixedClauseCount(resource, |resource.fixedFilters|);
    var fixed := FixedWhere(resource, |resource.fixedFilters|).value;
    var dated := PeriodWhere(resource, period, zone, fixed).value;
    FilterLookup(resource, filters, |filters|, dated, i);
    var f := filters[i];
    assert reading == AsText ==> Literally(f);
    FilterClauseMeans(reading, sql, row, f, i, ColumnOf(resource, f.dimension.expression), w.parameters);
  }

  lemma WhereCount(resource: Resource, filters: seq<BoundFilter>, period: Option<ResolvedPeriod>, zone: Zone)
    requires AllWellShaped(filters) && WhereOf(resource, filters, period, zone).Ok?
    ensures |WhereOf(resource, filters, period, zone).value.clauses| == FilterBase(resource, period) + |filters|
  {
    hide Expression;
    hide FixedWhere;
    hide FilterWhere;
    hide PeriodBounds;
    FixedClauseCount(resource, |resource.fixedFilters|);
    var fixed := FixedWhere(resource, |resource.fixedFilters|).value;
    FilterClauseCount(resource, filters, |filters|, PeriodWhere(resource, period, zone, fixed).value);
  }

  /** Which test clause `k` stands for. */
  function TestAt(resource: Resource, filters: seq<BoundFilter>, period: Option<ResolvedPeriod>, zone: Zone,
                  k: nat): Test
    requires k < FilterBase(resource, period) + |filters|
    requires period.Some? ==> PeriodBounds(resource, period.value, zone).Ok?
  {
    if k < |resource.fixedFilters| then FixedTest(resource, resource.fixedFilters[k])
    else if k < FilterBase(resource, period) then
      var bounds := PeriodBounds(resource, period.value, zone).value;
      During(ColumnOf(resource, period.value.dateDimension), bounds.0, bounds.1)
    else FilterTest(resource, filters[k - FilterBase(resource, period)])
  }

  lemma BoundsKnown(resource: Resource, filters: seq<BoundFilter>, period: Option<ResolvedPeriod>, zone: Zone)
    requires AllWellShaped(filters) && WhereOf(resource, filters, period, zone).Ok?
    ensures period.Some? ==> PeriodBounds(resource, period.value, zone).Ok?
  {
  }

  lemma ClauseSays(reading: Reading, sql: Sql, row: Row, resource: Resource, filters: seq<BoundFilter>,
                   period: Option<ResolvedPeriod>, zone: Zone, k: nat)
    requires AllWellShaped(filters) && (reading == AsText ==> LiteralPatterns(resource, filters)) && KeepsText(sql)
    requires WhereOf(resource, filters, period, zone).Ok? && k < FilterBase(resource, period) + |filters|
    requires period.Some? ==> PeriodBounds(resource, period.value, zone).Ok?
    ensures var w := WhereOf(resource, filters, period, zone).value;
      k < |w.clauses| && Says(reading, sql, row, w.clauses[k], w.parameters, TestAt(resource, filters, period, zone, k))
  {
    hide WhereOf;
    hide Says;
    hide PeriodBounds;
    hide FixedTest;
    hide FilterTest;
    if k < |resource.fixedFilters| {
      FixedClauseSays(reading, sql, row, resource, filters, period, zone, k);
    } else if k < FilterBase(resource, period) {
      PeriodClauseSays(reading, sql, row, resource, filters, period.value, zone);
    } else {
      FilterClauseSays(reading, sql, row, resource, filters, period, zone, k - FilterBase(resource, period));
    }
  }

  lemma TestsAreListed(resource: Resource, filters: seq<BoundFilter>, period: Option<ResolvedPeriod>, zone: Zone,
                       t: Test)
    requires period.Some? ==> PeriodBounds(resource, period.value, zone).Ok?
    ensures t in Tests(resource, filters, period, zone) <==>
      exists k: nat :: k < FilterBase(resource, period) + |filters| && TestAt(resource, filters, period, zone, k) == t
  {
    hide PeriodBounds;
    hide FixedTest;
    hide FilterTest;
    var n := FilterBase(resource, period);
    if t in Tests(resource, filters, period, zone) {
      if f :| f in resource.fixedFilters && t == FixedTest(resource, f) {
        var k :| 0 <= k < |resource.fixedFilters| && resource.fixedFilters[k] == f;
        assert TestAt(resource, filters, period, zone, k) == t;
      } else if t in PeriodTests(resource, period, zone) {
        assert TestAt(resource, filters, period, zone, |resource.fixedFilters|) == t;
      } else {
        var f :| f in filters && t == FilterTest(resource, f);
        var k :| 0 <= k < |filters| && filters[k] == f;
        assert TestAt(resource, filters, period, zone, n + k) == t;
      }
    }
    if k: nat :| k < n + |filters| && TestAt(resource, filters, period, zone, k) == t {
      if k >= n { assert filters[k - n] in filters; }
    }
  }

  /** Every name of the statement is bound, and its WHERE clause keeps exactly the rows that pass
      the fixed filters of the source, the period and the filters of the request. */
  lemma WhereMeansRequest(reading: Reading, sql: Sql, row: Row, resource: Resource, filters: seq<BoundFilter>,
                          period: Option<ResolvedPeriod>, zone: Zone)
    requires AllWellShaped(filters) && (reading == AsText ==> LiteralPatterns(resource, filters)) && KeepsText(sql)
    requires WhereOf(resource, filters, period, zone).Ok?
    ensures var w := WhereOf(resource, filters, period, zone).value;
      && AllBound(w.clauses, w.parameters)
      && (Conjunction(sql, row, w.clauses, w.parameters) == True <==>
            PassesAll(reading, sql, row, Tests(resource, filters, period, zone)))
  {
    hide Tests;
    hide Passes;
    hide Eval;
    hide Bound;
    hide TestAt;
    hide PeriodBounds;
    WhereCount(resource, filters, period, zone);
    BoundsKnown(resource, filters, period, zone);
    hide WhereOf;
    var w := WhereOf(resource, filters, period, zone).value;
    forall k | 0 <= k < |w.clauses|
      ensures Says(reading, sql, row, w.clauses[k], w.parameters, TestAt(resource, filters, period, zone, k)) {
      ClauseSays(reading, sql, row, resource, filters, period, zone, k);
    }
    ConjunctionIsAll(sql, row, w.clauses, w.parameters);
    forall t ensures t in Tests(resource, filters, period, zone)
        <==> exists k: nat :: k < |w.clauses| && TestAt(resource, filters, period, zone, k) == t {
      TestsAreListed(resource, filters, period, zone, t);
    }
  }

  // ---------------------------------------------------------------- grouping

  datatype ResultRow = ResultRow(key: map<string, Cell>, value: Cell, count: nat)

  /** The rows the WHERE clause keeps. */
  function Kept(sql: Sql, rows: seq<Row>, clauses: seq<Clause>, ps: Parameters): seq<Row>
    requires AllBound(clauses, ps)
  {
    if rows == [] then []
    else (if Conjunction(sql, rows[0], clauses, ps) == True then [rows[0]] else []) + Kept(sql, rows[1..], clauses, ps)
  }

  function Cells(groups: seq<Group>, row: Row): (r: seq<Cell>)
    ensures |r| == |groups| && forall i :: 0 <= i < |r| ==> r[i] == CellAt(row, groups[i].column)
  {
    seq(|groups|, i requires 0 <= i < |groups| => CellAt(row, groups[i].column))
  }

  /** Cells under the names the SELECT list gives them. */
  function Labelled<T>(groups: seq<Group>, cells: seq<T>): map<string, T>
    requires |cells| == |groups|
  {
    if groups == [] then map[] else Labelled(groups[1..], cells[1..])[groups[0].alias := cells[0]]
  }

  function OfGroup(groups: seq<Group>, rows: seq<Row>, cells: seq<Cell>): seq<Row> {
    if rows == [] then []
    else (if Cells(groups, rows[0]) == cells then [rows[0]] else []) + OfGroup(groups, rows[1..], cells)
  }

  function Measured(rows: seq<Row>, measure: Column): multiset<Cell> {
    if rows == [] then multiset{} else multiset{CellAt(rows[0], measure)} + Measured(rows[1..], measure)
  }

  function Aggregated(sql: Sql, st: Statement, key: map<string, Cell>, rows: seq<Row>): ResultRow {
    ResultRow(key, sql.aggregate(st.aggregation, st.exact, Measured(rows, st.measure)), |rows|)
  }

  /** The rows of the statement before TOP: one for each group that occurs, and exactly one when
      there is no GROUP BY. */
  ghost function Grouped(sql: Sql, db: Database, c: Compiled): set<ResultRow>
    requires Executable(c)
  {
    var st := c.statement;
    var kept := Kept(sql, db(st.table), st.clauses, c.parameters);
    if st.groups == [] then {Aggregated(sql, st, map[], kept)}
    else set i | 0 <= i < |kept| :: GroupRow(sql, st, kept, Cells(st.groups, kept[i]))
  }

  function GroupRow(sql: Sql, st: Statement, kept: seq<Row>, cells: seq<Cell>): ResultRow
    requires |cells| == |st.groups|
  {
    Aggregated(sql, st, Labelled(st.groups, cells), OfGroup(st.groups, kept, cells))
  }

  // ---------------------------------------------------------------- the question behind a request

  /** What a request means, with nothing in it that depends on the order of its parts. */
  datatype Question = Question(
    aggregation: Aggregation,
    exact: bool,
    measure: Column,
    table: string,
    groups: map<string, Column>,
    tests: set<Test>)

  function Answers(row: Row, groups: map<string, Column>): map<string, Cell> {
    map k | k in groups :: CellAt(row, groups[k])
  }

  ghost function Chosen(reading: Reading, sql: Sql, rows: seq<Row>, tests: set<Test>): seq<Row> {
    if rows == [] then []
    else (if PassesAll(reading, sql, rows[0], tests) then [rows[0]] else []) + Chosen(reading, sql, rows[1..], tests)
  }

  function Answering(groups: map<string, Column>, rows: seq<Row>, key: map<string, Cell>): seq<Row> {
    if rows == [] then []
    else (if Answers(rows[0], groups) == key then [rows[0]] else []) + Answering(groups, rows[1..], key)
  }

  function AnswerRow(sql: Sql, q: Question, rows: seq<Row>, key: map<string, Cell>): ResultRow {
    var those := Answering(q.groups, rows, key);
    ResultRow(key, sql.aggregate(q.aggregation, q.exact, Measured(those, q.measure)), |those|)
  }

  /** The result rows: one for each combination of dimension values that occurs among the chosen
      rows, and a single one, possibly counting nothing, for a question without dimensions. */
  ghost function Answer(reading: Reading, sql: Sql, db: Database, q: Question): set<ResultRow> {
    var chosen := Chosen(reading, sql, db(q.table), q.tests);
    if q.groups == map[] then {AnswerRow(sql, q, chosen, map[])}
    else set i | 0 <= i < |chosen| :: AnswerRow(sql, q, chosen, Answers(chosen[i], q.groups))
  }

  function Columns(groups: seq<Group>): (r: seq<Column>)
    ensures |r| == |groups| && forall i :: 0 <= i < |r| ==> r[i] == groups[i].column
  {
    seq(|groups|, i requires 0 <= i < |groups| => groups[i].column)
  }

  function QuestionOf(metric: Metric, resource: Resource, dimensions: seq<Dimension>, filters: seq<BoundFilter>,
                      period: Option<ResolvedPeriod>, zone: Zone): Question
    requires Groups(resource, dimensions).Ok? && Path(resource.table).Ok?
  {
    var groups := Groups(resource, dimensions).value;
    var measure, table := ColumnOf(resource, metric.measure), Path(resource.table).value;
    Question(metric.aggregation, metric.dataType == CURRENCY, measure, table, Labelled(groups, Columns(groups)),
             Tests(resource, filters, period, zone))
  }

  predicate DistinctAliases(groups: seq<Group>) {
    forall i, j :: 0 <= i < j < |groups| ==> groups[i].alias != groups[j].alias
  }

  predicate DistinctKeys(dimensions: seq<Dimension>) {
    forall i, j :: 0 <= i < j < |dimensions| ==> dimensions[i].key != dimensions[j].key
  }

  // ---------------------------------------------------------------- the statement answers the question

  lemma {:induction false} LabelledLookup<T>(groups: seq<Group>, cells: seq<T>, i: nat)
    requires |cells| == |groups| && DistinctAliases(groups) && i < |groups|
    ensures groups[i].alias in Labelled(groups, cells) && Labelled(groups, cells)[groups[i].alias] == cells[i]
  {
    if i > 0 { LabelledLookup(groups[1..], cells[1..], i - 1); }
  }

  lemma {:induction false} LabelledKeys<T>(groups: seq<Group>, cells: seq<T>, k: string)
    requires |cells| == |groups|
    ensures k in Labelled(groups, cells) <==> exists i :: 0 <= i < |groups| && groups[i].alias == k
  {
    if groups != [] {
      LabelledKeys(groups[1..], cells[1..], k);
      if i :| 0 <= i < |groups| && groups[i].alias == k {
        if i > 0 { assert groups[1..][i - 1].alias == k; }
      }
      if i :| 0 <= i < |groups[1..]| && groups[1..][i].alias == k { assert groups[i + 1].alias == k; }
    }
  }

  /** The labelled cells of a row are its answers. */
  lemma LabelsAreAnswers(groups: seq<Group>, row: Row)
    requires DistinctAliases(groups)
    ensures Labelled(groups, Cells(groups, row)) == Answers(row, Labelled(groups, Columns(groups)))
  {
    var labels, columns := Labelled(groups, Cells(groups, row)), Labelled(groups, Columns(groups));
    forall k ensures k in labels <==> k in columns {
      LabelledKeys(groups, Cells(groups, row), k);
      LabelledKeys(groups, Columns(groups), k);
    }
    forall k | k in labels ensures labels[k] == Answers(row, columns)[k] {
      LabelledKeys(groups, Cells(groups, row), k);
      var i :| 0 <= i < |groups| && groups[i].alias == k;
      LabelledLookup(groups, Cells(groups, row), i);
      LabelledLookup(groups, Columns(groups), i);
    }
  }

  /** Labels tell groups apart. */
  lemma LabelsSeparate(groups: seq<Group>, a: seq<Cell>, b: seq<Cell>)
    requires |a| == |groups| == |b| && DistinctAliases(groups)
    requires Labelled(groups, a) == Labelled(groups, b)
    ensures a == b
  {
    forall i | 0 <= i < |a| ensures a[i] == b[i] {
      LabelledLookup(groups, a, i);
      LabelledLookup(groups, b, i);
    }
  }

  lemma {:induction false} KeptAreChosen(reading: Reading, sql: Sql, rows: seq<Row>, resource: Resource,
                                         filters: seq<BoundFilter>, period: Option<ResolvedPeriod>, zone: Zone)
    requires AllWellShaped(filters) && (reading == AsText ==> LiteralPatterns(resource, filters)) && KeepsText(sql)
    requires WhereOf(resource, filters, period, zone).Ok?
    ensures var w := WhereOf(resource, filters, period, zone).value;
      && AllBound(w.clauses, w.parameters)
      && Kept(sql, rows, w.clauses, w.parameters) == Chosen(reading, sql, rows, Tests(resource, filters, period, zone))
  {
    hide WhereOf;
    hide Tests;
    hide PassesAll;
    hide Conjunction;
    hide LiteralPatterns;
    if rows == [] {
      WhereMeansRequest(reading, sql, map[], resource, filters, period, zone);
    } else {
      WhereMeansRequest(reading, sql, rows[0], resource, filters, period, zone);
      KeptAreChosen(reading, sql, rows[1..], resource, filters, period, zone);
    }
  }

  lemma {:induction false} SameGroup(groups: seq<Group>, rows: seq<Row>, cells: seq<Cell>)
    requires |cells| == |groups| && DistinctAliases(groups)
    ensures OfGroup(groups, rows, cells) == Answering(Labelled(groups, Columns(groups)), rows, Labelled(groups, cells))
  {
    hide Labelled;
    hide Answers;
    if rows != [] {
      LabelsAreAnswers(groups, rows[0]);
      if Labelled(groups, Cells(groups, rows[0])) == Labelled(groups, cells) {
        LabelsSeparate(groups, Cells(groups, rows[0]), cells);
      }
      SameGroup(groups, rows[1..], cells);
    }
  }

  lemma {:induction false} NoGroupsNoKey(rows: seq<Row>)
    ensures Answering(map[], rows, map[]) == rows
  {
    if rows != [] {
      assert Answers(rows[0], map[]) == map[];
      NoGroupsNoKey(rows[1..]);
    }
  }

  lemma {:induction false} GroupsOfDimensions(resource: Resource, dimensions: seq<Dimension>)
    requires Groups(resource, dimensions).Ok?
    ensures var g := Groups(resource, dimensions).value;
      && |g| == |dimensions|
      && forall i :: 0 <= i < |g| ==> g[i] == Group(ColumnOf(resource, dimensions[i].expression), dimensions[i].key)
  {
    hide Expression;
    if dimensions != [] { GroupsOfDimensions(resource, dimensions[1..]); }
  }

  /** Compilation preserves meaning: whenever a request compiles, every parameter the statement
      names is bound, and the statement's groups are the answer to the request's question. */
  lemma CompilationPreservesMeaning(reading: Reading, sql: Sql, db: Database, metric: Metric, resource: Resource,
                                    dimensions: seq<Dimension>, filters: seq<BoundFilter>,
                                    period: Option<ResolvedPeriod>, zone: Zone, sort: seq<Sort>, limit: Option<int>)
    requires AllWellShaped(filters) && (reading == AsText ==> LiteralPatterns(resource, filters))
    requires KeepsText(sql) && DistinctKeys(dimensions)
    requires Compile(metric, resource, dimensions, filters, period, zone, sort, limit).Ok?
    ensures var c := Compile(metric, resource, dimensions, filters, period, zone, sort, limit).value;
      && Executable(c)
      && Groups(resource, dimensions).Ok? && Path(resource.table).Ok?
      && var question := QuestionOf(metric, resource, dimensions, filters, period, zone);
         Grouped(sql, db, c) == Answer(reading, sql, db, question)
  {
    hide Expression;
    hide WhereOf;
    hide Tests;
    hide Path;
    hide Groups;
    hide Kept;
    hide Chosen;
    hide Labelled;
    hide OfGroup;
    hide Answering;
    hide LiteralPatterns;
    hide SortOrder;
    var c := Compile(metric, resource, dimensions, filters, period, zone, sort, limit).value;
    var q := QuestionOf(metric, resource, dimensions, filters, period, zone);
    var rows := db(q.table);
    KeptAreChosen(reading, sql, rows, resource, filters, period, zone);
    GroupsOfDimensions(resource, dimensions);
    StatementAnswers(reading, sql, db, c, q);
  }

  lemma StatementAnswers(reading: Reading, sql: Sql, db: Database, c: Compiled, q: Question)
    requires var st := c.statement;
      && Executable(c) && DistinctAliases(st.groups)
      && q == Question(st.aggregation, st.exact, st.measure, st.table, Labelled(st.groups, Columns(st.groups)), q.tests)
      && Kept(sql, db(st.table), st.clauses, c.parameters) == Chosen(reading, sql, db(st.table), q.tests)
    ensures Grouped(sql, db, c) == Answer(reading, sql, db, q)
  {
    hide Kept;
    hide Chosen;
    hide OfGroup;
    hide Answering;
    hide AllBound;
    hide Answers;
    hide Measured;
    var st := c.statement;
    var kept := Chosen(reading, sql, db(st.table), q.tests);
    if st.groups == [] {
      NoGroupsNoKey(kept);
    } else {
      LabelledLookup(st.groups, Columns(st.groups), 0);
      forall i | 0 <= i < |kept| ensures SameRow(sql, st, q, kept, kept[i]) { RowsAgree(sql, st, q, kept, kept[i]); }
      hide GroupRow;
      hide AnswerRow;
      hide Labelled;
    }
  }

  ghost predicate SameRow(sql: Sql, st: Statement, q: Question, kept: seq<Row>, row: Row) {
    GroupRow(sql, st, kept, Cells(st.groups, row)) == AnswerRow(sql, q, kept, Answers(row, q.groups))
  }

  lemma RowsAgree(sql: Sql, st: Statement, q: Question, kept: seq<Row>, row: Row)
    requires DistinctAliases(st.groups)
    requires var groups := Labelled(st.groups, Columns(st.groups));
      q == Question(st.aggregation, st.exact, st.measure, st.table, groups, q.tests)
    ensures SameRow(sql, st, q, kept, row)
  {
    hide Labelled;
    hide Answers;
    hide OfGroup;
    hide Answering;
    LabelsAreAnswers(st.groups, row);
    SameGroup(st.groups, kept, Cells(st.groups, row));
  }

  // ---------------------------------------------------------------- ORDER BY and TOP

  function KeyCell(r: ResultRow, alias: string): Cell {
    if alias in r.key then r.key[alias] else NullCell
  }

  /** Ascending order, NULL first. */
  predicate CellBefore(sql: Sql, x: Cell, y: Cell) {
    if x == NullCell || y == NullCell then x == NullCell && y != NullCell else sql.before(x, y)
  }

  predicate Earlier(sql: Sql, order: seq<Ordering>, a: ResultRow, b: ResultRow) {
    order != [] &&
      var alias, ascending := order[0].group.alias, order[0].ascending;
      var x, y := KeyCell(a, alias), KeyCell(b, alias);
      var first, last := if ascending then (x, y) else (y, x), if ascending then (y, x) else (x, y);
      CellBefore(sql, first.0, first.1) || (!CellBefore(sql, last.0, last.1) && Earlier(sql, order[1..], a, b))
  }

  /** How many of `n` rows TOP lets through. */
  function Cut(top: int, n: nat): nat {
    if n <= top then n else if top <= 0 then 0 else top
  }

  /** `out` lists the first rows of `all`, as many as TOP lets through; ties fall either way. */
  ghost predicate FirstRows(sql: Sql, order: seq<Ordering>, top: int, all: set<ResultRow>, out: seq<ResultRow>) {
    && |out| == Cut(top, |all|)
    && (forall i, j :: 0 <= i < j < |out| ==> out[i] != out[j] && !Earlier(sql, order, out[j], out[i]))
    && (forall r :: r in out ==> r in all)
    && (forall r, o :: r in all && r !in out && o in out ==> !Earlier(sql, order, r, o))
  }

  /** `out` is a possible answer of the statement: its first rows in the statement's order. */
  ghost predicate Returned(sql: Sql, db: Database, c: Compiled, out: seq<ResultRow>)
    requires Executable(c)
  {
    FirstRows(sql, c.statement.orderBy, c.statement.top, Grouped(sql, db, c), out)
  }

  /** A statement that TOP does not cut returns every group. */
  lemma UncutReturnsEverything(sql: Sql, db: Database, c: Compiled, out: seq<ResultRow>)
    requires Executable(c)
    requires Returned(sql, db, c, out) && |Grouped(sql, db, c)| <= c.statement.top
    ensures (set r | r in out) == Grouped(sql, db, c)
  {
    hide Grouped;
    hide Earlier;
    Sets.AsManyAsDistinct(out);
    Sets.SubsetOfSameSize((set r | r in out), Grouped(sql, db, c));
  }
}
