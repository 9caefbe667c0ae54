/** Exactly when requests with one fingerprint return the same rows of every table: the default ORDER BY
    follows the order of the request's dimensions, which the fingerprint forgets. */
module CutAnswers {
  import opened Contracts
  import opened PeriodResolver
  import opened Registry
  import opened QueryValidator
  import opened SqlCompiler
  import opened SqlMeaning
  import opened RowOrder
  import opened QueryPlanner
  import opened CacheAgreement
  import Fingerprint
  import Sets

  /** A database whose every table holds these rows. */
  function Holding(rows: seq<Row>): Database { (table: string) => rows }

  /** On a table of these rows any two answers of the two statements hold the same rows. */
  ghost predicate AgreeOn(sql: Sql, rows: seq<Row>, c: Compiled, d: Compiled) {
    forall a, b :: IsAnswer(sql, rows, c, a) && IsAnswer(sql, rows, d, b) ==> SameRows(a, b)
  }

  ghost predicate IsAnswer(sql: Sql, rows: seq<Row>, c: Compiled, out: seq<ResultRow>) {
    Executable(c) && Returned(sql, Holding(rows), c, out)
  }

  ghost predicate OrdersNumbers(sql: Sql) {
    forall m, n :: sql.before(Plain(Number(m)), Plain(Number(n))) <==> m < n
  }

  predicate DistinctColumns(groups: seq<Group>) {
    forall i, j :: 0 <= i < j < |groups| ==> groups[i].column != groups[j].column
  }

  /** The rows differ at most in the columns that are grouped by. */
  ghost predicate SameOutside(row: Row, base: Row, groups: seq<Group>) {
    forall column :: (forall g :: g in groups ==> g.column != column) ==> CellAt(row, column) == CellAt(base, column)
  }

  /** The WHERE clause keeps `base` whatever stands in the columns that are grouped by. */
  ghost predicate LeavesGroupsFree(sql: Sql, c: Compiled, base: Row) {
    && Executable(c)
    && forall row :: SameOutside(row, base, c.statement.groups) ==>
         Conjunction(sql, row, c.statement.clauses, c.parameters) == True
  }

  // ---------------------------------------------------------------- tables of numbers

  /** The number row `i` of a table has under a dimension. */
  type Numbers = (string, int) -> int

  function Paint(base: Row, groups: seq<Group>, f: Numbers, i: int): Row {
    if groups == [] then base
    else Paint(base, groups[1..], f, i)[groups[0].column := Plain(Number(f(groups[0].alias, i)))]
  }

  function Table(base: Row, groups: seq<Group>, f: Numbers, n: nat): (rows: seq<Row>)
    ensures |rows| == n && forall i :: 0 <= i < n ==> rows[i] == Paint(base, groups, f, i)
  {
    seq(n, i requires 0 <= i < n => Paint(base, groups, f, i))
  }

  lemma {:induction false} Painted(base: Row, groups: seq<Group>, f: Numbers, i: int, m: nat)
    requires DistinctColumns(groups) && m < |groups|
    ensures CellAt(Paint(base, groups, f, i), groups[m].column) == Plain(Number(f(groups[m].alias, i)))
  {
    if m > 0 { Painted(base, groups[1..], f, i, m - 1); }
  }

  lemma {:induction false} PaintKeepsTheRest(base: Row, groups: seq<Group>, f: Numbers, i: int, column: Column)
    requires forall g :: g in groups ==> g.column != column
    ensures CellAt(Paint(base, groups, f, i), column) == CellAt(base, column)
  {
    if groups != [] {
      assert groups[0] in groups;
      PaintKeepsTheRest(base, groups[1..], f, i, column);
    }
  }

  lemma {:induction false} AllAreKept(sql: Sql, c: Compiled, rows: seq<Row>)
    requires Executable(c)
    requires forall i :: 0 <= i < |rows| ==> Conjunction(sql, rows[i], c.statement.clauses, c.parameters) == True
    ensures Kept(sql, rows, c.statement.clauses, c.parameters) == rows
  {
    hide Conjunction;
    if rows != [] {
      assert forall i :: 0 <= i < |rows[1..]| ==> rows[1..][i] == rows[i + 1];
      AllAreKept(sql, c, rows[1..]);
    }
  }

  lemma TableIsKept(sql: Sql, c: Compiled, base: Row, f: Numbers, n: nat)
    requires LeavesGroupsFree(sql, c, base)
    ensures var rows := Table(base, c.statement.groups, f, n);
      Kept(sql, rows, c.statement.clauses, c.parameters) == rows
  {
    hide Conjunction;
    hide Paint;
    hide Kept;
    var groups := c.statement.groups;
    var rows := Table(base, groups, f, n);
    forall i | 0 <= i < n ensures SameOutside(rows[i], base, groups) {
      forall column | forall g :: g in groups ==> g.column != column
        ensures CellAt(rows[i], column) == CellAt(base, column)
      {
        PaintKeepsTheRest(base, groups, f, i, column);
      }
    }
    AllAreKept(sql, c, rows);
  }

  /** A statement without WHERE leaves them free. */
  lemma NoClausesLeaveGroupsFree(sql: Sql, c: Compiled, base: Row)
    requires c.statement.clauses == []
    ensures LeavesGroupsFree(sql, c, base)
  {
  }

  /** The result row of row `i`. */
  function ResultOf(sql: Sql, st: Statement, rows: seq<Row>, i: nat): ResultRow
    requires i < |rows|
  {
    GroupRow(sql, st, rows, Cells(st.groups, rows[i]))
  }

  lemma ResultKeys(sql: Sql, st: Statement, base: Row, f: Numbers, n: nat, i: nat, m: nat)
    requires DistinctColumns(st.groups) && DistinctAliases(st.groups) && i < n && m < |st.groups|
    ensures var result, alias := ResultOf(sql, st, Table(base, st.groups, f, n), i), st.groups[m].alias;
      KeyCell(result, alias) == Plain(Number(f(alias, i)))
  {
    hide Paint;
    hide GroupRow;
    hide KeyCell;
    var rows := Table(base, st.groups, f, n);
    Painted(base, st.groups, f, i, m);
    RowOfGroup(sql, st, rows, Cells(st.groups, rows[i]), m);
  }

  /** The results of a table in which some dimension numbers the rows. */
  lemma TableResults(sql: Sql, c: Compiled, base: Row, f: Numbers, n: nat, m: nat) returns (results: seq<ResultRow>)
    requires LeavesGroupsFree(sql, c, base)
    requires DistinctColumns(c.statement.groups) && DistinctAliases(c.statement.groups) && m < |c.statement.groups|
    requires forall i :: 0 <= i < n ==> f(c.statement.groups[m].alias, i) == i
    ensures |results| == n && (forall i, j :: 0 <= i < j < n ==> results[i] != results[j])
    ensures Grouped(sql, Holding(Table(base, c.statement.groups, f, n)), c) == set i | 0 <= i < n :: results[i]
    ensures forall i, l :: 0 <= i < n && 0 <= l < |c.statement.groups| ==>
      KeyCell(results[i], c.statement.groups[l].alias) == Plain(Number(f(c.statement.groups[l].alias, i)))
  {
    hide Paint;
    hide Kept;
    hide GroupRow;
    hide KeyCell;
    hide LeavesGroupsFree;
    var st := c.statement;
    var rows := Table(base, st.groups, f, n);
    TableIsKept(sql, c, base, f, n);
    results := seq(n, i requires 0 <= i < n => ResultOf(sql, st, rows, i));
    forall i, l | 0 <= i < n && 0 <= l < |st.groups|
      ensures KeyCell(results[i], st.groups[l].alias) == Plain(Number(f(st.groups[l].alias, i)))
    {
      ResultKeys(sql, st, base, f, n, i, l);
    }
    forall i, j | 0 <= i < j < n ensures results[i] != results[j] {
      assert KeyCell(results[i], st.groups[m].alias) == Plain(Number(i));
      assert KeyCell(results[j], st.groups[m].alias) == Plain(Number(j));
    }
    assert Holding(rows)(st.table) == rows;
    assert forall i :: 0 <= i < n ==> results[i] == GroupRow(sql, st, rows, Cells(st.groups, rows[i]));
  }

  // ---------------------------------------------------------------- the first rows of a list

  /** `list` lists all rows once, sorted for the statement. */
  ghost predicate ListsInOrder(sql: Sql, order: seq<Ordering>, all: set<ResultRow>, list: seq<ResultRow>) {
    && all == (set i | 0 <= i < |list| :: list[i])
    && forall i, j :: 0 <= i < j < |list| ==> list[i] != list[j] && !Earlier(sql, order, list[j], list[i])
  }

  /** The first rows of a sorted list of all rows are an answer. */
  lemma PrefixIsAnswer(sql: Sql, order: seq<Ordering>, top: nat, all: set<ResultRow>, list: seq<ResultRow>)
    requires |list| == top + 1 && ListsInOrder(sql, order, all, list)
    ensures FirstRows(sql, order, top, all, list[..top])
  {
    hide Earlier;
    var out := list[..top];
    Sets.AsManyAsDistinct(list);
    assert all == set x | x in list;
    forall r, o | r in all && r !in out && o in out ensures !Earlier(sql, order, r, o) {
      LastIsLeftOut(list, top, r);
      var j :| 0 <= j < top && list[j] == o;
    }
  }

  lemma LastIsLeftOut(list: seq<ResultRow>, top: nat, r: ResultRow)
    requires |list| == top + 1 && r in list && r !in list[..top]
    ensures r == list[top]
  {
    assert list == list[..top] + [list[top]];
  }

  /** A list that ends with `first` does not have it among the rows before. */
  lemma DifferentPrefixes(list: seq<ResultRow>, other: seq<ResultRow>, top: nat)
    requires top > 0 && |list| == |other| == top + 1 && other[top] == list[0]
    requires forall i, j :: 0 <= i < j < |other| ==> other[i] != other[j]
    ensures list[0] in list[..top] && list[0] !in other[..top]
  {
    assert list[..top][0] == list[0];
  }

  // ---------------------------------------------------------------- orders on results

  lemma {:induction false} EqualIsNotEarlier(sql: Sql, order: seq<Ordering>, r: ResultRow, s: ResultRow)
    requires OrdersCells(sql)
    requires forall i :: 0 <= i < |order| ==> KeyCell(r, order[i].group.alias) == KeyCell(s, order[i].group.alias)
    ensures !Earlier(sql, order, s, r)
  {
    if order != [] {
      assert forall i :: 0 <= i < |order[1..]| ==> order[1..][i] == order[i + 1];
      EqualIsNotEarlier(sql, order[1..], r, s);
    }
  }

  lemma {:induction false} LaterIsNotEarlier(sql: Sql, order: seq<Ordering>, r: ResultRow, s: ResultRow, m: nat)
    requires OrdersCells(sql) && m < |order| && (forall i :: 0 <= i <= m ==> order[i].ascending)
    requires forall i :: 0 <= i < m ==> KeyCell(r, order[i].group.alias) == KeyCell(s, order[i].group.alias)
    requires var x, y := KeyCell(r, order[m].group.alias), KeyCell(s, order[m].group.alias);
      x != NullCell && y != NullCell && sql.before(x, y) && !sql.before(y, x)
    ensures !Earlier(sql, order, s, r)
  {
    if m > 0 {
      assert forall i :: 0 <= i < |order[1..]| ==> order[1..][i] == order[i + 1];
      LaterIsNotEarlier(sql, order[1..], r, s, m - 1);
    }
  }

  // ---------------------------------------------------------------- two answers

  lemma TwoAnswers(sql: Sql, rows: seq<Row>, c: Compiled, d: Compiled, list: seq<ResultRow>, other: seq<ResultRow>)
    requires Executable(c) && Executable(d)
    requires c.statement.top == d.statement.top > 0 && |list| == |other| == c.statement.top + 1
    requires Grouped(sql, Holding(rows), c) == Grouped(sql, Holding(rows), d)
    requires ListsInOrder(sql, c.statement.orderBy, Grouped(sql, Holding(rows), c), list)
    requires ListsInOrder(sql, d.statement.orderBy, Grouped(sql, Holding(rows), d), other)
    requires other[c.statement.top] == list[0]
    ensures !AgreeOn(sql, rows, c, d)
  {
    hide Grouped;
    hide Earlier;
    var top := c.statement.top;
    PrefixIsAnswer(sql, c.statement.orderBy, top, Grouped(sql, Holding(rows), c), list);
    PrefixIsAnswer(sql, d.statement.orderBy, top, Grouped(sql, Holding(rows), d), other);
    DifferentPrefixes(list, other, top);
    hide FirstRows;
    var a, b := list[..top], other[..top];
    assert IsAnswer(sql, rows, c, a) && IsAnswer(sql, rows, d, b);
    hide IsAnswer;
    assert list[0] in a && list[0] !in b;
  }

  lemma {:induction false} ReversedLists<T>(list: seq<T>) returns (other: seq<T>)
    ensures |other| == |list| && forall i :: 0 <= i < |list| ==> other[i] == list[|list| - 1 - i]
    ensures (set i | 0 <= i < |list| :: list[i]) == (set i | 0 <= i < |other| :: other[i])
  {
    other := seq(|list|, i requires 0 <= i < |list| => list[|list| - 1 - i]);
    assert forall i :: 0 <= i < |list| ==> list[i] == other[|list| - 1 - i];
  }

  lemma RotatedList<T>(list: seq<T>) returns (other: seq<T>)
    requires list != []
    ensures |other| == |list| && other == list[1..] + [list[0]]
    ensures (set i | 0 <= i < |list| :: list[i]) == (set i | 0 <= i < |other| :: other[i])
  {
    other := list[1..] + [list[0]];
    assert forall i :: 0 < i < |list| ==> list[i] == other[i - 1];
    assert list[0] == other[|list| - 1];
  }

  /** The results differ first in column `m` of the order, where they count up. */
  ghost predicate CountsUp(order: seq<Ordering>, list: seq<ResultRow>, m: nat)
    requires m < |order|
  {
    && (forall l :: 0 <= l <= m ==> order[l].ascending)
    && (forall i :: 0 <= i < |list| ==> KeyCell(list[i], order[m].group.alias) == Plain(Number(i)))
    && (forall i, l :: 0 <= i < |list| && 0 <= l < m ==> KeyCell(list[i], order[l].group.alias) == Plain(Number(0)))
  }

  lemma CountingUpIsInOrder(sql: Sql, order: seq<Ordering>, list: seq<ResultRow>, m: nat)
    requires OrdersCells(sql) && OrdersNumbers(sql) && m < |order| && CountsUp(order, list, m)
    ensures forall i, j :: 0 <= i < j < |list| ==> list[i] != list[j] && !Earlier(sql, order, list[j], list[i])
  {
    hide Earlier;
    forall i, j | 0 <= i < j < |list| ensures list[i] != list[j] && !Earlier(sql, order, list[j], list[i]) {
      assert KeyCell(list[i], order[m].group.alias) == Plain(Number(i));
      assert KeyCell(list[j], order[m].group.alias) == Plain(Number(j));
      LaterIsNotEarlier(sql, order, list[i], list[j], m);
    }
  }

  ghost predicate GroupAlike(sql: Sql, rows: seq<Row>, c: Compiled, d: Compiled) {
    Executable(c) && Executable(d) && Grouped(sql, Holding(rows), c) == Grouped(sql, Holding(rows), d)
  }

  /** What the two statements have in common. */
  ghost predicate SameQuestion(sql: Sql, c: Compiled, d: Compiled) {
    && c.statement.top == d.statement.top > 0
    && Executable(c) && Executable(d)
    && DistinctAliases(c.statement.groups) && DistinctColumns(c.statement.groups)
    && forall rows :: GroupAlike(sql, rows, c, d)
  }

  /** Counts up under `x`, down under `y`, and stays 0 elsewhere. */
  function UpAndDown(x: string, y: string, top: int): Numbers {
    (alias: string, i: int) => if alias == x then i else if alias == y then top - i else 0
  }

  /** The cells of some results are the numbers of `f`. */
  ghost predicate Numbered(groups: seq<Group>, f: Numbers, list: seq<ResultRow>) {
    forall i, l :: 0 <= i < |list| && 0 <= l < |groups| ==>
      KeyCell(list[i], groups[l].alias) == Plain(Number(f(groups[l].alias, i)))
  }

  lemma {:induction false} FirstCountsUp(g: seq<Group>, y: string, top: int, list: seq<ResultRow>, m: nat)
    requires m < |g| && y != g[m].alias && Numbered(g, UpAndDown(g[m].alias, y, top), list)
    requires forall l :: 0 <= l < m ==> g[l].alias != g[m].alias && g[l].alias != y
    ensures CountsUp(DefaultOrder(g), list, m)
  {
    hide KeyCell;
  }

  lemma {:induction false} SecondCountsUp(g: seq<Group>, h: seq<Group>, top: nat, list: seq<ResultRow>,
                                          other: seq<ResultRow>, m: nat)
    requires m < |g| && m < |h| && g[m].alias != h[m].alias
    requires Numbered(g, UpAndDown(g[m].alias, h[m].alias, top), list)
    requires forall l :: 0 <= l < m ==> h[l].alias == g[l].alias && g[l].alias != g[m].alias && h[l].alias != h[m].alias
    requires exists w :: 0 <= w < |g| && g[w].alias == h[m].alias
    requires |other| == |list| == top + 1 && forall i :: 0 <= i <= top ==> other[i] == list[top - i]
    ensures CountsUp(DefaultOrder(h), other, m)
  {
    hide KeyCell;
    hide Numbered;
    var w :| 0 <= w < |g| && g[w].alias == h[m].alias;
    var f := UpAndDown(g[m].alias, h[m].alias, top);
    forall i | 0 <= i <= top ensures KeyCell(other[i], h[m].alias) == Plain(Number(i)) {
      NumberOf(g, f, list, top - i, w);
    }
    forall i, l | 0 <= i <= top && 0 <= l < m ensures KeyCell(other[i], h[l].alias) == Plain(Number(0)) {
      NumberOf(g, f, list, top - i, l);
    }
    hide UpAndDown;
    assert forall l :: 0 <= l <= m ==> DefaultOrder(h)[l] == Ordering(h[l], true);
    hide DefaultOrder;
  }

  lemma NumberOf(groups: seq<Group>, f: Numbers, list: seq<ResultRow>, i: nat, l: nat)
    requires Numbered(groups, f, list) && i < |list| && l < |groups|
    ensures KeyCell(list[i], groups[l].alias) == Plain(Number(f(groups[l].alias, i)))
  {
  }

  /** Two default orders whose dimensions differ first at place `m`: a table of one row more than TOP
      lets through that counts up in one of them and down in the other. */
  lemma DimensionOrdersDisagree(sql: Sql, c: Compiled, d: Compiled, base: Row, m: nat) returns (rows: seq<Row>)
    requires SameQuestion(sql, c, d) && LeavesGroupsFree(sql, c, base) && OrdersCells(sql) && OrdersNumbers(sql)
    requires DistinctAliases(d.statement.groups)
    requires c.statement.orderBy == DefaultOrder(c.statement.groups)
    requires d.statement.orderBy == DefaultOrder(d.statement.groups)
    requires m < |c.statement.groups| == |d.statement.groups|
    requires forall l :: 0 <= l < m ==> c.statement.groups[l].alias == d.statement.groups[l].alias
    requires c.statement.groups[m].alias != d.statement.groups[m].alias
    requires exists w :: 0 <= w < |c.statement.groups| && c.statement.groups[w].alias == d.statement.groups[m].alias
    ensures !AgreeOn(sql, rows, c, d)
  {
    hide Earlier;
    hide OrdersCells;
    hide OrdersNumbers;
    hide LeavesGroupsFree;
    hide Table;
    hide AgreeOn;
    hide KeyCell;
    hide CountsUp;
    hide Grouped;
    hide DefaultOrder;
    var g, h, top := c.statement.groups, d.statement.groups, c.statement.top;
    var f := UpAndDown(g[m].alias, h[m].alias, top);
    assert forall i :: f(g[m].alias, i) == i;
    rows := Table(base, g, f, top + 1);
    var list := TableResults(sql, c, base, f, top + 1, m);
    assert Numbered(g, f, list);
    assert GroupAlike(sql, rows, c, d);
    hide Numbered;
    hide SameQuestion;
    var other := ReversedLists(list);
    FirstCountsUp(g, h[m].alias, top, list, m);
    SecondCountsUp(g, h, top, list, other, m);
    CountingUpIsInOrder(sql, c.statement.orderBy, list, m);
    CountingUpIsInOrder(sql, d.statement.orderBy, other, m);
    TwoAnswers(sql, rows, c, d, list, other);
  }

  lemma {:induction false} EqualInSortedColumns(sql: Sql, order: seq<Ordering>, list: seq<ResultRow>)
    requires OrdersCells(sql)
    requires forall i, l ::
      0 <= i < |list| && 0 <= l < |order| ==> KeyCell(list[i], order[l].group.alias) == Plain(Number(0))
    ensures forall i, j :: 0 <= i < |list| && 0 <= j < |list| ==> !Earlier(sql, order, list[j], list[i])
  {
    hide Earlier;
    forall i, j | 0 <= i < |list| && 0 <= j < |list| {
      EqualIsNotEarlier(sql, order, list[i], list[j]);
    }
  }

  /** Orders that leave a dimension out: a table whose rows differ in that dimension alone, all of them ties. */
  lemma TiesDisagree(sql: Sql, c: Compiled, d: Compiled, base: Row, z: nat) returns (rows: seq<Row>)
    requires SameQuestion(sql, c, d) && LeavesGroupsFree(sql, c, base) && OrdersCells(sql)
    requires SameNames(c.statement.orderBy, d.statement.orderBy) && z < |c.statement.groups|
    requires forall l :: 0 <= l < |c.statement.orderBy| ==>
      var g := c.statement.orderBy[l].group; g in c.statement.groups && g.alias != c.statement.groups[z].alias
    ensures !AgreeOn(sql, rows, c, d)
  {
    hide Earlier;
    hide OrdersCells;
    hide LeavesGroupsFree;
    hide Table;
    hide AgreeOn;
    var g, top, order := c.statement.groups, c.statement.top, c.statement.orderBy;
    var f := UpAndDown(g[z].alias, g[z].alias, top);
    rows := Table(base, g, f, top + 1);
    var list := TableResults(sql, c, base, f, top + 1, z);
    var other := RotatedList(list);
    forall i, l | 0 <= i <= top && 0 <= l < |order| ensures KeyCell(list[i], order[l].group.alias) == Plain(Number(0)) {
      var w :| 0 <= w < |g| && g[w] == order[l].group;
      assert KeyCell(list[i], g[w].alias) == Plain(Number(f(g[w].alias, i)));
    }
    forall i, l | 0 <= i <= top && 0 <= l < |order|
      ensures KeyCell(other[i], order[l].group.alias) == Plain(Number(0))
    {
      assert other[i] == if i < top then list[i + 1] else list[0];
    }
    hide KeyCell;
    EqualInSortedColumns(sql, order, list);
    EqualInSortedColumns(sql, d.statement.orderBy, other);
    assert forall i, j :: 0 <= i < j <= top ==> other[i] != other[j];
    assert GroupAlike(sql, rows, c, d);
    hide Grouped;
    TwoAnswers(sql, rows, c, d, list, other);
  }

  // ---------------------------------------------------------------- exactly when plans agree

  lemma {:induction false} FirstDifference(a: seq<string>, b: seq<string>) returns (m: nat)
    requires |a| == |b| && a != b
    ensures m < |a| && a[m] != b[m] && forall l :: 0 <= l < m ==> a[l] == b[l]
  {
    if a[0] != b[0] {
      m := 0;
    } else {
      assert a == [a[0]] + a[1..] && b == [b[0]] + b[1..];
      var n := FirstDifference(a[1..], b[1..]);
      m := n + 1;
    }
  }

  lemma {:induction false} SortedGroups(groups: seq<Group>, sort: seq<Sort>)
    requires SortOrder(groups, sort).Ok?
    ensures forall i :: 0 <= i < |SortOrder(groups, sort).value| ==> SortOrder(groups, sort).value[i].group in groups
  {
    if sort != [] {
      SortedGroups(groups, sort[1..]);
      GroupIsListed(groups, sort[0].field);
    }
  }

  lemma {:induction false} GroupIsListed(groups: seq<Group>, key: string)
    requires GroupOf(groups, key).Ok?
    ensures GroupOf(groups, key).value in groups
  {
    if groups[0].alias != key { GroupIsListed(groups[1..], key); }
  }

  /** The statement's groups carry the names of the dimensions, in their order. */
  predicate NamedAfter(groups: seq<Group>, keys: seq<string>) {
    |groups| == |keys| && forall i :: 0 <= i < |keys| ==> groups[i].alias == keys[i]
  }

  lemma UnlikeDimensionsDisagree(sql: Sql, c: Compiled, d: Compiled, base: Row, a: seq<string>, b: seq<string>)
    returns (rows: seq<Row>)
    requires SameQuestion(sql, c, d) && LeavesGroupsFree(sql, c, base) && OrdersCells(sql) && OrdersNumbers(sql)
    requires NamedAfter(c.statement.groups, a) && NamedAfter(d.statement.groups, b) && DistinctTexts(b)
    requires multiset(a) == multiset(b) && a != b
    requires c.statement.orderBy == DefaultOrder(c.statement.groups)
    requires d.statement.orderBy == DefaultOrder(d.statement.groups)
    ensures !AgreeOn(sql, rows, c, d)
  {
    hide SameQuestion;
    hide LeavesGroupsFree;
    hide OrdersCells;
    hide OrdersNumbers;
    hide AgreeOn;
    hide DefaultOrder;
    assert |multiset(a)| == |a| && |multiset(b)| == |b|;
    var m := FirstDifference(a, b);
    assert b[m] in multiset(a);
    var w :| 0 <= w < |a| && a[w] == b[m];
    assert c.statement.groups[w].alias == d.statement.groups[m].alias;
    rows := DimensionOrdersDisagree(sql, c, d, base, m);
  }

  lemma {:induction false} UnsortedDimensionDisagrees(sql: Sql, c: Compiled, d: Compiled, base: Row, a: seq<string>,
                                                      sort: seq<Sort>, z: nat)
    returns (rows: seq<Row>)
    requires SameQuestion(sql, c, d) && LeavesGroupsFree(sql, c, base) && OrdersCells(sql)
    requires NamedAfter(c.statement.groups, a) && z < |a| && forall i :: 0 <= i < |sort| ==> sort[i].field != a[z]
    requires SortOrder(c.statement.groups, sort) == Ok(c.statement.orderBy)
    requires SortOrder(d.statement.groups, sort) == Ok(d.statement.orderBy)
    ensures !AgreeOn(sql, rows, c, d)
  {
    hide SameQuestion;
    hide LeavesGroupsFree;
    hide OrdersCells;
    hide AgreeOn;
    hide SortOrder;
    SortedByFields(c.statement.groups, sort);
    SortedByFields(d.statement.groups, sort);
    SortedGroups(c.statement.groups, sort);
    rows := TiesDisagree(sql, c, d, base, z);
  }

  lemma LimitIsPositive(registry: SemanticRegistry, zone: Option<Zone>, call: Call, p: Plan)
    requires Plans(registry, zone, call, p)
    ensures LimitOf(call.request) > 0
  {
    hide Validate;
    hide Resolve;
    hide Compile;
    AcceptsExactly(registry, call.request, call.user, call.candidate);
  }

  /** Two plans of one fingerprint whose statements leave the grouped columns free. */
  ghost predicate Comparable(sql: Sql, registry: SemanticRegistry, r: Call, p: Plan, s: Call, q: Plan,
                             zone: Option<Zone>, o: Fingerprint.Collation, base: Row) {
    && KeepsText(sql) && OrdersCells(sql) && OrdersNumbers(sql) && registry.Registered() && Fingerprint.Collates(o)
    && Plans(registry, zone, r, p) && Plans(registry, zone, s, q)
    && Fingerprint.PreImage(p.semantic, o) == Fingerprint.PreImage(q.semantic, o)
    && DistinctColumns(p.execution.statement.groups)
    && LeavesGroupsFree(sql, p.execution, base)
  }

  lemma PlansGroupAlike(sql: Sql, registry: SemanticRegistry, r: Call, p: Plan, s: Call, q: Plan, zone: Option<Zone>,
                        o: Fingerprint.Collation, base: Row, rows: seq<Row>)
    requires Comparable(sql, registry, r, p, s, q, zone, o, base)
    ensures Executable(p.execution) && Executable(q.execution) && GroupAlike(sql, rows, p.execution, q.execution)
    ensures p.execution.statement.top == q.execution.statement.top == LimitOf(r.request)
  {
    hide Plans;
    hide CompiledFor;
    hide Listed;
    hide ComparisonPeriod;
    hide SemanticOf;
    hide Executable;
    hide Grouped;
    hide Fingerprint.PreImage;
    hide OrdersCells;
    hide OrdersNumbers;
    hide LeavesGroupsFree;
    var rr, ss, clock := r.request, s.request, ClockOf(zone);
    CallIsPlanned(registry, zone, r, p);
    CallIsPlanned(registry, zone, s, q);
    PlansShare(registry, rr, p, ss, q, zone, o);
    StatementsAgree(sql, Holding(rows), registry, p.metric, p.resource, rr, ss, p.period, clock, p.execution,
                    q.execution);
  }

  /** The groups and the order of a plan's statement. */
  ghost predicate OrderedFor(request: Request, c: Compiled) {
    && NamedAfter(c.statement.groups, request.dimensions) && DistinctTexts(request.dimensions)
    && if SortsOf(request) == [] then c.statement.orderBy == DefaultOrder(c.statement.groups)
       else SortOrder(c.statement.groups, SortsOf(request)) == Ok(c.statement.orderBy)
  }

  lemma PlanIsOrdered(registry: SemanticRegistry, zone: Option<Zone>, call: Call, p: Plan)
    requires registry.Registered() && Plans(registry, zone, call, p)
    ensures OrderedFor(call.request, p.execution)
  {
    hide Plans;
    hide Compile;
    hide ComparisonPeriod;
    hide SemanticOf;
    hide DimensionsOf;
    hide FiltersOf;
    hide DefaultOrder;
    hide SortOrder;
    hide Groups;
    var r := call.request;
    CallIsPlanned(registry, zone, call, p);
    CompiledOrder(registry, p.metric, p.resource, r.dimensions, p.filters, p.period, ClockOf(zone), SortsOf(r), r.limit,
                  p.execution);
  }

  lemma PlansAskOneQuestion(sql: Sql, registry: SemanticRegistry, r: Call, p: Plan, s: Call, q: Plan,
                            zone: Option<Zone>, o: Fingerprint.Collation, base: Row)
    requires Comparable(sql, registry, r, p, s, q, zone, o, base)
    ensures SameQuestion(sql, p.execution, q.execution)
    ensures OrderedFor(r.request, p.execution) && OrderedFor(s.request, q.execution)
    ensures multiset(r.request.dimensions) == multiset(s.request.dimensions) && SortsOf(r.request) == SortsOf(s.request)
  {
    hide Plans;
    hide PlannedFrom;
    hide GroupAlike;
    hide Fingerprint.PreImage;
    hide OrdersCells;
    hide OrdersNumbers;
    hide LeavesGroupsFree;
    hide DefaultOrder;
    hide SortOrder;
    PlansGroupAlike(sql, registry, r, p, s, q, zone, o, base, []);
    forall rows ensures GroupAlike(sql, rows, p.execution, q.execution) {
      PlansGroupAlike(sql, registry, r, p, s, q, zone, o, base, rows);
    }
    CallIsPlanned(registry, zone, r, p);
    CallIsPlanned(registry, zone, s, q);
    PlansShare(registry, r.request, p, s.request, q, zone, o);
    LimitIsPositive(registry, zone, r, p);
    PlanIsOrdered(registry, zone, r, p);
    PlanIsOrdered(registry, zone, s, q);
  }

  /** Requests with one fingerprint return the same rows of every table if and only if they are ordered
      alike: without a sort their dimensions are in one order, and a sort names every dimension. Stated for
      statements whose columns differ and whose WHERE clause leaves those columns free. */
  lemma AnswersAgreeExactlyWhenOrderedAlike(sql: Sql, registry: SemanticRegistry, r: Call, p: Plan, s: Call, q: Plan,
                                            zone: Option<Zone>, o: Fingerprint.Collation, base: Row)
    requires Comparable(sql, registry, r, p, s, q, zone, o, base)
    ensures Executable(p.execution) && Executable(q.execution)
    ensures (forall rows :: AgreeOn(sql, rows, p.execution, q.execution)) <==> OrderedAlike(r.request, s.request)
  {
    hide Plans;
    hide Fingerprint.PreImage;
    hide AgreeOn;
    hide OrdersCells;
    hide OrdersNumbers;
    hide LeavesGroupsFree;
    hide DefaultOrder;
    hide SortOrder;
    PlansAskOneQuestion(sql, registry, r, p, s, q, zone, o, base);
    assert GroupAlike(sql, [], p.execution, q.execution);
    var a, b, sort := r.request.dimensions, s.request.dimensions, SortsOf(r.request);
    if OrderedAlike(r.request, s.request) {
      forall rows ensures AgreeOn(sql, rows, p.execution, q.execution) {
        OrderedPlansAgree(sql, rows, registry, r, p, s, q, zone, o);
      }
    } else if sort == [] {
      var rows := UnlikeDimensionsDisagree(sql, p.execution, q.execution, base, a, b);
    } else {
      var k :| k in a && forall i :: 0 <= i < |sort| ==> sort[i].field != k;
      var z :| 0 <= z < |a| && a[z] == k;
      var rows := UnsortedDimensionDisagrees(sql, p.execution, q.execution, base, a, sort, z);
    }
  }

  lemma OrderedPlansAgree(sql: Sql, rows: seq<Row>, registry: SemanticRegistry, r: Call, p: Plan, s: Call, q: Plan,
                          zone: Option<Zone>, o: Fingerprint.Collation)
    requires KeepsText(sql) && OrdersCells(sql) && registry.Registered() && Fingerprint.Collates(o)
    requires Plans(registry, zone, r, p) && Plans(registry, zone, s, q)
    requires Fingerprint.PreImage(p.semantic, o) == Fingerprint.PreImage(q.semantic, o)
    requires OrderedAlike(r.request, s.request)
    ensures AgreeOn(sql, rows, p.execution, q.execution)
  {
    hide Plans;
    hide Fingerprint.PreImage;
    hide OrdersCells;
    hide OrderedAlike;
    hide Returned;
    OrderedAlikeAgreesEvenCut(sql, Holding(rows), registry, r, p, s, q, zone, o);
  }
}
