/** The table and columns a statement names: read back, they are the texts the registry configures. */
module StatementNames {
  import opened Contracts
  import opened PeriodResolver
  import opened Registry
  import opened SqlCompiler
  import opened SqlMeaning

  // ---------------------------------------------------------------- one path

  /** The text without its brackets. */
  function Unbracketed(s: string): string {
    if s == [] then [] else (if s[0] == '[' || s[0] == ']' then [] else [s[0]]) + Unbracketed(s[1..])
  }

  /** The text with a bracket on either side of every dot. */
  function DotsBracketed(s: string): string {
    if s == [] then [] else (if s[0] == '.' then "].[" else [s[0]]) + DotsBracketed(s[1..])
  }

  predicate Starts(c: char) { 'A' <= c <= 'Z' || 'a' <= c <= 'z' || c == '_' }

  predicate Continues(c: char) { Starts(c) || '0' <= c <= '9' }

  /** Every dot is followed by the first character of a name, and nothing but names and dots occurs. */
  predicate NamesFollow(s: string) { forall i :: 0 <= i < |s| ==> NameFollows(s, i) }

  predicate NameFollows(s: string, i: nat)
    requires i < |s|
  {
    Continues(s[i]) || (s[i] == '.' && i + 1 < |s| && Starts(s[i + 1]))
  }

  /** Names joined by dots: the text starts with a name, and so does what follows each dot. */
  predicate IsReviewedPath(s: string) { s != [] && Starts(s[0]) && NamesFollow(s) }

  predicate Unbroken(s: string) { forall i :: 0 <= i < |s| ==> Continues(s[i]) }

  lemma IdentifierIsName(s: string)
    ensures IsIdentifier(s) <==> s != [] && Starts(s[0]) && Unbroken(s)
  {
  }

  lemma {:induction false} NamesFollowInParts(s: string)
    ensures var parts := SplitDots(s); NamesFollow(s) <==> Unbroken(parts[0]) && Identifiers(parts[1..]).Ok?
  {
    hide IsIdentifier;
    if s == [] {
    } else {
      var rest := SplitDots(s[1..]);
      NamesFollowInParts(s[1..]);
      NamesFollowOn(s);
      IdentifierIsName(rest[0]);
      FirstOfParts(s[1..]);
      if s[0] == '.' {
        assert SplitDots(s)[1..] == rest;
      } else {
        assert SplitDots(s)[0] == [s[0]] + rest[0] && SplitDots(s)[1..] == rest[1..];
        UnbrokenFollows(s[0], rest[0]);
      }
    }
  }

  lemma FirstOfParts(s: string)
    ensures var first := SplitDots(s)[0];
      && (first != [] <==> s != [] && s[0] != '.')
      && (first != [] ==> first[0] == s[0])
  {
  }

  lemma UnbrokenFollows(c: char, s: string)
    ensures Unbroken([c] + s) <==> Continues(c) && Unbroken(s)
  {
    if Unbroken([c] + s) {
      assert ([c] + s)[0] == c;
      assert forall i :: 0 <= i < |s| ==> s[i] == ([c] + s)[i + 1];
    }
  }

  lemma NamesFollowOn(s: string)
    requires s != []
    ensures NamesFollow(s) <==> NameFollows(s, 0) && NamesFollow(s[1..])
  {
    hide Starts;
    hide Continues;
    var rest := s[1..];
    assert forall i :: 0 <= i < |rest| ==> NameFollows(rest, i) == NameFollows(s, i + 1);
    assert forall i :: 0 < i < |s| ==> NameFollows(s, i) == NameFollows(rest, i - 1);
  }

  /** Exactly the names joined by dots compile. */
  lemma CompilesReviewedPaths(s: string)
    ensures Path(s).Ok? <==> IsReviewedPath(s)
  {
    hide IsIdentifier;
    NamesFollowInParts(s);
    IdentifierIsName(SplitDots(s)[0]);
    FirstOfParts(s);
  }

  function Bracketed(parts: seq<string>): seq<string> {
    if parts == [] then [] else ["[" + parts[0] + "]"] + Bracketed(parts[1..])
  }

  lemma {:induction false} IdentifiersAreBracketed(parts: seq<string>)
    requires Identifiers(parts).Ok?
    ensures Identifiers(parts).value == Bracketed(parts)
  {
    if parts != [] { IdentifiersAreBracketed(parts[1..]); }
  }

  /** What a joined text consists of. */
  lemma BracketedFirst(first: string, rest: seq<string>)
    ensures JoinDots(Bracketed([first] + rest)) ==
      "[" + first + "]" + if rest == [] then [] else "." + JoinDots(Bracketed(rest))
  {
    assert ([first] + rest)[1..] == rest;
    assert (["[" + first + "]"] + Bracketed(rest))[1..] == Bracketed(rest);
    assert rest == [] <==> Bracketed(rest) == [];
  }

  lemma Behind(c: char, first: string, tail: string, text: string)
    requires "[" + first + "]" + tail == "[" + text + "]"
    ensures "[" + ([c] + first) + "]" + tail == "[" + ([c] + text) + "]"
  {
    assert first + "]" + tail == ("[" + first + "]" + tail)[1..];
    assert text + "]" == ("[" + text + "]")[1..];
    assert "[" + ([c] + first) + "]" + tail == "[" + [c] + (first + "]" + tail);
    assert "[" + ([c] + text) + "]" == "[" + [c] + (text + "]");
  }

  lemma {:induction false} JoinedParts(s: string)
    ensures JoinDots(Bracketed(SplitDots(s))) == "[" + DotsBracketed(s) + "]"
  {
    if s == [] {
      assert Bracketed([[]]) == ["[" + [] + "]"];
    } else {
      hide JoinDots;
      hide Bracketed;
      JoinedParts(s[1..]);
      var parts := SplitDots(s[1..]);
      if s[0] == '.' {
        DotOn(parts, DotsBracketed(s[1..]));
      } else {
        assert parts == [parts[0]] + parts[1..];
        LetterOn(s[0], parts[0], parts[1..], DotsBracketed(s[1..]));
      }
    }
  }

  lemma DotOn(parts: seq<string>, text: string)
    requires parts != [] && JoinDots(Bracketed(parts)) == "[" + text + "]"
    ensures JoinDots(Bracketed([[]] + parts)) == "[" + ("].[" + text) + "]"
  {
    BracketedFirst([], parts);
    hide JoinDots;
    hide Bracketed;
    assert "[" + [] + "]" + ("." + ("[" + text + "]")) == "[" + ("].[" + text) + "]";
  }

  lemma LetterOn(c: char, first: string, rest: seq<string>, text: string)
    requires JoinDots(Bracketed([first] + rest)) == "[" + text + "]"
    ensures JoinDots(Bracketed([[c] + first] + rest)) == "[" + ([c] + text) + "]"
  {
    BracketedFirst([c] + first, rest);
    BracketedFirst(first, rest);
    hide JoinDots;
    hide Bracketed;
    Behind(c, first, if rest == [] then [] else "." + JoinDots(Bracketed(rest)), text);
  }

  lemma {:induction false} UnbracketedSum(s: string, t: string)
    ensures Unbracketed(s + t) == Unbracketed(s) + Unbracketed(t)
  {
    if s == [] {
      assert s + t == t;
    } else {
      assert (s + t)[1..] == s[1..] + t;
      UnbracketedSum(s[1..], t);
    }
  }

  lemma {:induction false} DotsReadBack(s: string)
    requires '[' !in s && ']' !in s
    ensures Unbracketed(DotsBracketed(s)) == s
  {
    if s != [] {
      DotsReadBack(s[1..]);
      UnbracketedSum(if s[0] == '.' then "].[" else [s[0]], DotsBracketed(s[1..]));
      assert Unbracketed("].[") == ".";
    }
  }

  lemma ReviewedHasNoBrackets(s: string)
    requires IsReviewedPath(s)
    ensures '[' !in s && ']' !in s
  {
    forall i | 0 <= i < |s| ensures s[i] != '[' && s[i] != ']' { assert NameFollows(s, i); }
  }

  /** A compiled path is the configured text with every name of it in brackets, and dropping the
      brackets gives that text back. */
  lemma PathReadsBack(s: string)
    requires Path(s).Ok?
    ensures Path(s).value == "[" + DotsBracketed(s) + "]"
    ensures Unbracketed(Path(s).value) == s
  {
    CompilesReviewedPaths(s);
    ReviewedHasNoBrackets(s);
    IdentifiersAreBracketed(SplitDots(s));
    JoinedParts(s);
    hide Path;
    DotsReadBack(s);
    UnbracketedSum("[" + DotsBracketed(s), "]");
    UnbracketedSum("[", DotsBracketed(s));
    assert Unbracketed("[") == [] == Unbracketed("]");
  }

  /** Compiled paths are equal exactly when the configured texts are. */
  lemma PathsIdentifyTexts(s: string, t: string)
    requires Path(s).Ok? && Path(t).Ok?
    ensures Path(s).value == Path(t).value <==> s == t
  {
    PathReadsBack(s);
    PathReadsBack(t);
    hide Path;
  }

  // ---------------------------------------------------------------- a whole statement

  /** The compiled name is the one configured under an id. */
  predicate Names(resource: Resource, column: Column, id: string) {
    && id in resource.expressions && IsReviewedPath(resource.expressions[id])
    && column == "[" + DotsBracketed(resource.expressions[id]) + "]"
    && Unbracketed(column) == resource.expressions[id]
  }

  lemma ColumnNames(resource: Resource, id: string)
    requires Expression(resource, id).Ok?
    ensures Names(resource, ColumnOf(resource, id), id)
  {
    hide Path;
    PathReadsBack(resource.expressions[id]);
    CompilesReviewedPaths(resource.expressions[id]);
  }

  /** An expression compiles exactly when it is configured with a reviewed path. */
  lemma ExpressionsExactly(resource: Resource, id: string)
    ensures Expression(resource, id).Ok? <==> id in resource.expressions && IsReviewedPath(resource.expressions[id])
  {
    hide Path;
    if id in resource.expressions { CompilesReviewedPaths(resource.expressions[id]); }
  }

  /** Every clause of a WHERE is about the column it was asked about: first the fixed filters of the
      source, then the period, then the filters of the request. */
  ghost predicate ClausesNamed(resource: Resource, filters: seq<BoundFilter>, period: Option<ResolvedPeriod>,
                               clauses: seq<Clause>) {
    var base := FilterBase(resource, period);
    && |clauses| == base + |filters|
    && (forall i :: 0 <= i < |resource.fixedFilters| ==>
          Names(resource, clauses[i].column, resource.fixedFilters[i].expression))
    && (period.Some? ==> Names(resource, clauses[|resource.fixedFilters|].column, period.value.dateDimension))
    && (forall i :: 0 <= i < |filters| ==>
          Names(resource, clauses[base + i].column, filters[i].dimension.expression))
  }

  lemma FixedClauseNamed(resource: Resource, filters: seq<BoundFilter>, period: Option<ResolvedPeriod>, zone: Zone,
                         i: nat)
    requires AllWellShaped(filters) && WhereOf(resource, filters, period, zone).Ok? && i < |resource.fixedFilters|
    ensures var w := WhereOf(resource, filters, period, zone).value;
      i < |w.clauses| && Names(resource, w.clauses[i].column, resource.fixedFilters[i].expression)
  {
    hide Expression;
    hide FixedWhere;
    hide FilterWhere;
    hide PeriodBounds;
    hide Names;
    FixedLookup(resource, |resource.fixedFilters|, i);
    var fixed := FixedWhere(resource, |resource.fixedFilters|).value;
    var dated := PeriodWhere(resource, period, zone, fixed).value;
    FilterClauseCount(resource, filters, |filters|, dated);
    ColumnNames(resource, resource.fixedFilters[i].expression);
  }

  lemma PeriodClauseNamed(resource: Resource, filters: seq<BoundFilter>, period: ResolvedPeriod, zone: Zone)
    requires AllWellShaped(filters) && WhereOf(resource, filters, Some(period), zone).Ok?
    ensures var w, k := WhereOf(resource, filters, Some(period), zone).value, |resource.fixedFilters|;
      k < |w.clauses| && Names(resource, w.clauses[k].column, period.dateDimension)
  {
    hide Expression;
    hide FixedWhere;
    hide FilterWhere;
    hide PeriodBounds;
    hide Names;
    FixedClauseCount(resource, |resource.fixedFilters|);
    var fixed := FixedWhere(resource, |resource.fixedFilters|).value;
    var dated := PeriodWhere(resource, Some(period), zone, fixed).value;
    FilterClauseCount(resource, filters, |filters|, dated);
    ColumnNames(resource, period.dateDimension);
  }

  lemma FilterClauseNamed(resource: Resource, filters: seq<BoundFilter>, period: Option<ResolvedPeriod>, zone: Zone,
                          i: nat)
    requires AllWellShaped(filters) && WhereOf(resource, filters, period, zone).Ok? && i < |filters|
    ensures var w, k := WhereOf(resource, filters, period, zone).value, FilterBase(resource, period) + i;
      k < |w.clauses| && Names(resource, w.clauses[k].column, filters[i].dimension.expression)
  {
    hide Expression;
    hide FixedWhere;
    hide FilterWhere;
    hide FilterBindings;
    hide PeriodBounds;
    hide Names;
    FixedClauseCount(resource, |resource.fixedFilters|);
    var fixed := FixedWhere(resource, |resource.fixedFilters|).value;
    var dated := PeriodWhere(resource, period, zone, fixed).value;
    FilterLookup(resource, filters, |filters|, dated, i);
    ColumnNames(resource, filters[i].dimension.expression);
  }

  lemma WhereNamed(resource: Resource, filters: seq<BoundFilter>, period: Option<ResolvedPeriod>, zone: Zone)
    requires AllWellShaped(filters) && WhereOf(resource, filters, period, zone).Ok?
    ensures ClausesNamed(resource, filters, period, WhereOf(resource, filters, period, zone).value.clauses)
  {
    hide WhereOf;
    hide Names;
    WhereCount(resource, filters, period, zone);
    var w := WhereOf(resource, filters, period, zone).value;
    forall i | 0 <= i < |resource.fixedFilters|
      ensures Names(resource, w.clauses[i].column, resource.fixedFilters[i].expression) {
      FixedClauseNamed(resource, filters, period, zone, i);
    }
    if period.Some? { PeriodClauseNamed(resource, filters, period.value, zone); }
    forall i | 0 <= i < |filters|
      ensures Names(resource, w.clauses[FilterBase(resource, period) + i].column, filters[i].dimension.expression) {
      FilterClauseNamed(resource, filters, period, zone, i);
    }
  }

  /** One column for each dimension, under the dimension's key. */
  ghost predicate GroupsNamed(resource: Resource, dimensions: seq<Dimension>, groups: seq<Group>) {
    && |groups| == |dimensions|
    && forall i :: 0 <= i < |groups| ==>
         Names(resource, groups[i].column, dimensions[i].expression) && groups[i].alias == dimensions[i].key
  }

  lemma {:induction false} GroupsAreNamed(resource: Resource, dimensions: seq<Dimension>)
    requires Groups(resource, dimensions).Ok?
    ensures GroupsNamed(resource, dimensions, Groups(resource, dimensions).value)
  {
    hide Expression;
    hide Names;
    if dimensions != [] {
      ColumnNames(resource, dimensions[0].expression);
      GroupsAreNamed(resource, dimensions[1..]);
      assert forall i :: 0 < i < |dimensions| ==> dimensions[i] == dimensions[1..][i - 1];
    }
  }

  /** What the request sorts by: its own list, or every dimension in ascending order. */
  function SortedBy(dimensions: seq<Dimension>, sort: seq<Sort>): (r: seq<Sort>) {
    if sort != [] then sort else seq(|dimensions|, i requires 0 <= i < |dimensions| => Sort(dimensions[i].key, true))
  }

  /** The rows are ordered by the columns of the dimensions sorted by, each the way it is asked. */
  ghost predicate OrderNamed(resource: Resource, dimensions: seq<Dimension>, wanted: seq<Sort>,
                             order: seq<Ordering>) {
    && |order| == |wanted|
    && forall i :: 0 <= i < |order| ==>
         && order[i].ascending == wanted[i].ascending
         && NamesDimension(resource, dimensions, order[i].group.column, wanted[i].field)
  }

  predicate NamesDimension(resource: Resource, dimensions: seq<Dimension>, column: Column, key: string) {
    exists d :: d in dimensions && d.key == key && Names(resource, column, d.expression)
  }

  lemma {:induction false} GroupOfKey(groups: seq<Group>, key: string) returns (i: nat)
    requires GroupOf(groups, key).Ok?
    ensures i < |groups| && GroupOf(groups, key).value == groups[i] && groups[i].alias == key
  {
    if groups[0].alias == key {
      i := 0;
    } else {
      i := GroupOfKey(groups[1..], key);
      i := i + 1;
    }
  }

  lemma {:induction false} SortsAreNamed(resource: Resource, dimensions: seq<Dimension>, groups: seq<Group>,
                                         sort: seq<Sort>)
    requires GroupsNamed(resource, dimensions, groups) && SortOrder(groups, sort).Ok?
    ensures OrderNamed(resource, dimensions, sort, SortOrder(groups, sort).value)
  {
    hide Names;
    if sort != [] {
      var i := GroupOfKey(groups, sort[0].field);
      assert dimensions[i] in dimensions;
      SortsAreNamed(resource, dimensions, groups, sort[1..]);
      assert forall i :: 0 < i < |sort| ==> sort[i] == sort[1..][i - 1];
    }
  }

  /** A compiled statement reads the table the resource is configured with, aggregates the metric's
      measure, groups by the column of every dimension under the dimension's key, asks each clause of the
      column it is about, and sorts by the dimensions it is asked to: every name in it, read back
      without its brackets, is the text configured for it. */
  lemma StatementNamesWhatIsConfigured(metric: Metric, resource: Resource, dimensions: seq<Dimension>,
                                       filters: seq<BoundFilter>, period: Option<ResolvedPeriod>, zone: Zone,
                                       sort: seq<Sort>, limit: Option<int>)
    requires AllWellShaped(filters)
    requires Compile(metric, resource, dimensions, filters, period, zone, sort, limit).Ok?
    ensures var st := Compile(metric, resource, dimensions, filters, period, zone, sort, limit).value.statement;
      && Unbracketed(st.table) == resource.table && st.table == "[" + DotsBracketed(resource.table) + "]"
      && Names(resource, st.measure, metric.measure)
      && GroupsNamed(resource, dimensions, st.groups)
      && ClausesNamed(resource, filters, period, st.clauses)
      && OrderNamed(resource, dimensions, SortedBy(dimensions, sort), st.orderBy)
      && st.top == (if limit.Some? then limit.value else 1000)
      && st.aggregation == metric.aggregation && (st.exact <==> metric.dataType == CURRENCY)
  {
    hide Names;
    hide Expression;
    hide WhereOf;
    hide Path;
    hide Groups;
    hide SortOrder;
    hide ClausesNamed;
    PathReadsBack(resource.table);
    ColumnNames(resource, metric.measure);
    GroupsAreNamed(resource, dimensions);
    WhereNamed(resource, filters, period, zone);
    var groups := Groups(resource, dimensions).value;
    if sort != [] {
      SortsAreNamed(resource, dimensions, groups, sort);
    } else {
      assert forall i :: 0 <= i < |dimensions| ==> dimensions[i] in dimensions;
    }
  }

  // ---------------------------------------------------------------- values stay out of the statement

  /** The two values differ at most in their scalars: both null or neither, or lists of one length. */
  predicate SameShape(v: FilterValue, w: FilterValue) {
    match v
    case One(x) => w.One? && (x == Null <==> w.scalar == Null)
    case Many(xs) => w.Many? && |xs| == |w.scalars|
    case Malformed => w.Malformed?
  }

  predicate SameButForValues(a: seq<BoundFilter>, b: seq<BoundFilter>) {
    && |a| == |b|
    && forall i :: 0 <= i < |a| ==>
         SameButForValue(a[i], b[i])
  }

  predicate SameButForValue(f: BoundFilter, g: BoundFilter) {
    f.dimension == g.dimension && f.operator == g.operator && SameShape(f.value, g.value)
  }

  lemma ClauseIgnoresValue(f: BoundFilter, g: BoundFilter, i: nat, column: Column)
    requires WellShaped(f.operator, f.value) && WellShaped(g.operator, g.value) && SameButForValue(f, g)
    ensures FilterClause(f.operator, f.value, i, column) == FilterClause(g.operator, g.value, i, column)
  {
    hide Spelling;
    hide PartNames;
  }

  /** The clauses come out the same, or the same code does. */
  predicate SameClauses(r: Outcome<Where>, t: Outcome<Where>) {
    if r.Ok? then t.Ok? && t.value.clauses == r.value.clauses else t == r
  }

  lemma OneMoreClause(resource: Resource, a: seq<BoundFilter>, b: seq<BoundFilter>, n: nat, w: Where, x: Where)
    requires SameButForValues(a, b) && 0 < n <= |a| && AllWellShaped(a) && AllWellShaped(b)
    requires SameClauses(FilterWhere(resource, a, n - 1, w), FilterWhere(resource, b, n - 1, x))
    ensures SameClauses(FilterWhere(resource, a, n, w), FilterWhere(resource, b, n, x))
  {
    hide Expression;
    hide FilterBindings;
    hide FilterClause;
    hide WellShaped;
    hide SameShape;
    var f, g := a[n - 1], b[n - 1];
    assert f in a && g in b && SameButForValue(f, g);
    var column := Expression(resource, f.dimension.expression);
    if column.Ok? { ClauseIgnoresValue(f, g, n - 1, column.value); }
    hide SameButForValues;
    hide AllWellShaped;
  }

  lemma {:induction false} ClausesIgnoreValues(resource: Resource, a: seq<BoundFilter>, b: seq<BoundFilter>, n: nat,
                                               w: Where, x: Where)
    requires SameButForValues(a, b) && n <= |a| && AllWellShaped(a) && AllWellShaped(b) && w.clauses == x.clauses
    ensures SameClauses(FilterWhere(resource, a, n, w), FilterWhere(resource, b, n, x))
  {
    hide FilterWhere;
    hide SameClauses;
    hide WellShaped;
    hide SameShape;
    if n == 0 {
      NoClauses(resource, a, b, w, x);
    } else {
      ClausesIgnoreValues(resource, a, b, n - 1, w, x);
      OneMoreClause(resource, a, b, n, w, x);
    }
  }

  lemma NoClauses(resource: Resource, a: seq<BoundFilter>, b: seq<BoundFilter>, w: Where, x: Where)
    requires AllWellShaped(a) && AllWellShaped(b) && w.clauses == x.clauses
    ensures SameClauses(FilterWhere(resource, a, 0, w), FilterWhere(resource, b, 0, x))
  {
    hide WellShaped;
    hide Expression;
    hide FilterClause;
    hide FilterBindings;
  }

  /** The statement never depends on what a filter is compared with, nor on the bounds of the period: those
      are parameters. Requests that differ in nothing else have one statement, or fail alike. */
  lemma StatementsIgnoreValues(metric: Metric, resource: Resource, dimensions: seq<Dimension>, a: seq<BoundFilter>,
                               b: seq<BoundFilter>, p: Option<ResolvedPeriod>, q: Option<ResolvedPeriod>, zone: Zone,
                               sort: seq<Sort>, limit: Option<int>)
    requires AllWellShaped(a) && AllWellShaped(b) && SameButForValues(a, b)
    requires if p.Some? then q.Some? && p.value.dateDimension == q.value.dateDimension else q.None?
    requires p.Some? ==> (PeriodBounds(resource, p.value, zone).Ok? <==> PeriodBounds(resource, q.value, zone).Ok?)
    ensures var r := Compile(metric, resource, dimensions, a, p, zone, sort, limit);
      var t := Compile(metric, resource, dimensions, b, q, zone, sort, limit);
      if r.Ok? then t.Ok? && t.value.statement == r.value.statement else t == r
  {
    hide Expression;
    hide FixedWhere;
    hide FilterWhere;
    hide Groups;
    hide Path;
    hide SortOrder;
    hide LocalMidnight;
    hide LocalDate;
    var fixed := FixedWhere(resource, |resource.fixedFilters|);
    if fixed.Ok? {
      var w, x := PeriodWhere(resource, p, zone, fixed.value), PeriodWhere(resource, q, zone, fixed.value);
      if w.Ok? && x.Ok? { ClausesIgnoreValues(resource, a, b, |a|, w.value, x.value); }
    }
  }
}
