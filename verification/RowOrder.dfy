/** When ORDER BY leaves no choice: two answers to one statement are then the same rows in the same order. */
module RowOrder {
  import opened SqlCompiler
  import opened SqlMeaning
  import Sets

  /** NULL apart, the source puts any two different cells in an order, and no cell before itself. */
  ghost predicate OrdersCells(sql: Sql) {
    forall x, y :: x != NullCell && y != NullCell ==> (sql.before(x, y) || sql.before(y, x) <==> x != y)
  }

  /** Any two different rows of `all` have an order. */
  ghost predicate TellsApart(sql: Sql, order: seq<Ordering>, all: set<ResultRow>) {
    forall r, s :: r in all && s in all && r != s ==> Earlier(sql, order, r, s) || Earlier(sql, order, s, r)
  }

  /** The two lists sort by the same names in the same directions. */
  predicate SameNames(order: seq<Ordering>, other: seq<Ordering>) {
    |order| == |other| && forall i :: 0 <= i < |order| ==>
      order[i].group.alias == other[i].group.alias && order[i].ascending == other[i].ascending
  }

  lemma {:induction false} SameNamesSameOrder(sql: Sql, order: seq<Ordering>, other: seq<Ordering>, r: ResultRow,
                                              s: ResultRow)
    requires SameNames(order, other)
    ensures Earlier(sql, order, r, s) == Earlier(sql, other, r, s)
  {
    if order != [] { SameNamesSameOrder(sql, order[1..], other[1..], r, s); }
  }

  /** A difference in a column that is sorted by decides the order, unless an earlier one does. */
  lemma {:induction false} DifferenceDecides(sql: Sql, order: seq<Ordering>, r: ResultRow, s: ResultRow, i: nat)
    requires OrdersCells(sql) && i < |order|
    requires KeyCell(r, order[i].group.alias) != KeyCell(s, order[i].group.alias)
    ensures Earlier(sql, order, r, s) || Earlier(sql, order, s, r)
  {
    if i > 0 && KeyCell(r, order[0].group.alias) == KeyCell(s, order[0].group.alias) {
      DifferenceDecides(sql, order[1..], r, s, i - 1);
    }
  }

  /** Every group is sorted by. */
  predicate Covers(order: seq<Ordering>, groups: seq<Group>) {
    forall g :: g in groups ==> exists i :: 0 <= i < |order| && order[i].group.alias == g.alias
  }

  lemma RowOfGroup(sql: Sql, st: Statement, kept: seq<Row>, cells: seq<Cell>, m: nat)
    requires |cells| == |st.groups| && DistinctAliases(st.groups) && m < |cells|
    ensures KeyCell(GroupRow(sql, st, kept, cells), st.groups[m].alias) == cells[m]
  {
    LabelledLookup(st.groups, cells, m);
  }

  lemma GroupsAreOrdered(sql: Sql, st: Statement, order: seq<Ordering>, kept: seq<Row>, a: seq<Cell>, b: seq<Cell>)
    requires |a| == |b| == |st.groups| && DistinctAliases(st.groups)
    requires OrdersCells(sql) && Covers(order, st.groups) && a != b
    ensures var r, s := GroupRow(sql, st, kept, a), GroupRow(sql, st, kept, b);
      Earlier(sql, order, r, s) || Earlier(sql, order, s, r)
  {
    hide GroupRow;
    hide Earlier;
    hide KeyCell;
    hide OrdersCells;
    var m :| 0 <= m < |a| && a[m] != b[m];
    RowOfGroup(sql, st, kept, a, m);
    RowOfGroup(sql, st, kept, b, m);
    assert st.groups[m] in st.groups;
    var i :| 0 <= i < |order| && order[i].group.alias == st.groups[m].alias;
    DifferenceDecides(sql, order, GroupRow(sql, st, kept, a), GroupRow(sql, st, kept, b), i);
  }

  /** Sorting by every group tells any two result rows apart. */
  lemma CoveringOrderTellsApart(sql: Sql, db: Database, c: Compiled)
    requires Executable(c) && DistinctAliases(c.statement.groups)
    requires OrdersCells(sql) && Covers(c.statement.orderBy, c.statement.groups)
    ensures TellsApart(sql, c.statement.orderBy, Grouped(sql, db, c))
  {
    hide GroupRow;
    hide Earlier;
    hide OrdersCells;
    hide Covers;
    var st, order := c.statement, c.statement.orderBy;
    var kept := Kept(sql, db(st.table), st.clauses, c.parameters);
    if st.groups != [] {
      forall r, s | r in Grouped(sql, db, c) && s in Grouped(sql, db, c) && r != s
        ensures Earlier(sql, order, r, s) || Earlier(sql, order, s, r)
      {
        var i :| 0 <= i < |kept| && r == GroupRow(sql, st, kept, Cells(st.groups, kept[i]));
        var j :| 0 <= j < |kept| && s == GroupRow(sql, st, kept, Cells(st.groups, kept[j]));
        GroupsAreOrdered(sql, st, order, kept, Cells(st.groups, kept[i]), Cells(st.groups, kept[j]));
      }
    }
  }

  // ---------------------------------------------------------------- one answer

  lemma NoneMissing(sql: Sql, order: seq<Ordering>, top: int, all: set<ResultRow>, a: seq<ResultRow>,
                    b: seq<ResultRow>, x: ResultRow)
    requires FirstRows(sql, order, top, all, a) && FirstRows(sql, order, top, all, b) && TellsApart(sql, order, all)
    requires x in a
    ensures x in b
  {
    hide Earlier;
    var left, right := (set y | y in a), (set y | y in b);
    Sets.AsManyAsDistinct(a);
    Sets.AsManyAsDistinct(b);
    if right <= left {
      Sets.SubsetOfSameSize(right, left);
      assert x in left;
    } else {
      var y :| y in right && y !in left;
      assert x in all && y in all && x != y;
      assert Earlier(sql, order, x, y);
    }
  }

  /** Sorted without ties and repetitions. */
  ghost predicate Sorted(sql: Sql, order: seq<Ordering>, out: seq<ResultRow>) {
    forall i, j :: 0 <= i < j < |out| ==> out[i] != out[j] && !Earlier(sql, order, out[j], out[i])
  }

  lemma {:induction false} SortedIsUnique(sql: Sql, order: seq<Ordering>, all: set<ResultRow>, a: seq<ResultRow>,
                                          b: seq<ResultRow>)
    requires Sorted(sql, order, a) && Sorted(sql, order, b) && TellsApart(sql, order, all)
    requires |a| == |b| && forall x :: x in a <==> x in b
    requires forall x :: x in a ==> x in all
    ensures a == b
  {
    hide Earlier;
    if a != [] {
      assert a[0] in b && b != [] && b[0] in a;
      FirstIsFirst(sql, order, all, a, b);
      forall x ensures x in a[1..] <==> x in b[1..] {
        assert x in a <==> x == a[0] || x in a[1..];
        assert x in b <==> x == b[0] || x in b[1..];
        assert a[0] !in a[1..] && b[0] !in b[1..];
      }
      assert Sorted(sql, order, a[1..]) && Sorted(sql, order, b[1..]);
      SortedIsUnique(sql, order, all, a[1..], b[1..]);
      assert a == [a[0]] + a[1..] && b == [b[0]] + b[1..];
    }
  }

  lemma FirstIsFirst(sql: Sql, order: seq<Ordering>, all: set<ResultRow>, a: seq<ResultRow>, b: seq<ResultRow>)
    requires Sorted(sql, order, a) && Sorted(sql, order, b) && TellsApart(sql, order, all)
    requires a != [] && b != [] && a[0] in b && b[0] in a && a[0] in all && b[0] in all
    ensures a[0] == b[0]
  {
    hide Earlier;
    var i :| 0 <= i < |b| && b[i] == a[0];
    var j :| 0 <= j < |a| && a[j] == b[0];
  }

  lemma FirstRowsAreUnique(sql: Sql, order: seq<Ordering>, top: int, all: set<ResultRow>, a: seq<ResultRow>,
                           b: seq<ResultRow>)
    requires FirstRows(sql, order, top, all, a) && FirstRows(sql, order, top, all, b) && TellsApart(sql, order, all)
    ensures a == b
  {
    hide Earlier;
    hide TellsApart;
    forall x ensures x in a <==> x in b {
      if x in a { NoneMissing(sql, order, top, all, a, b, x); }
      if x in b { NoneMissing(sql, order, top, all, b, a, x); }
    }
    SortedIsUnique(sql, order, all, a, b);
  }

  /** Two statements with the same groups and limit that sort by the same names, every group among
      them, return the same rows in the same order, whether TOP cuts them or not. */
  lemma CoveringOrderFixesTheAnswer(sql: Sql, db: Database, c: Compiled, d: Compiled, a: seq<ResultRow>,
                                    b: seq<ResultRow>)
    requires Executable(c) && Executable(d)
    requires OrdersCells(sql) && DistinctAliases(c.statement.groups) && Covers(c.statement.orderBy, c.statement.groups)
    requires Grouped(sql, db, c) == Grouped(sql, db, d) && c.statement.top == d.statement.top
    requires SameNames(c.statement.orderBy, d.statement.orderBy)
    requires Returned(sql, db, c, a) && Returned(sql, db, d, b)
    ensures a == b
  {
    hide Earlier;
    hide Grouped;
    hide OrdersCells;
    hide Covers;
    hide SameNames;
    var order, all := c.statement.orderBy, Grouped(sql, db, c);
    CoveringOrderTellsApart(sql, db, c);
    forall r, s ensures Earlier(sql, order, r, s) == Earlier(sql, d.statement.orderBy, r, s) {
      SameNamesSameOrder(sql, order, d.statement.orderBy, r, s);
    }
    assert FirstRows(sql, order, c.statement.top, all, b);
    hide FirstRows;
    FirstRowsAreUnique(sql, order, c.statement.top, all, a, b);
  }
}
