/** What `runQuery` makes of validated rows: the rows it keeps, their count, and the join of a
    comparison; with the month shift that aligns the two. */
module ComparisonJoin {
  import opened Contracts
  import opened PeriodResolver
  import opened Registry
  import opened Json
  import opened Text
  import opened ResultPolicy

  // ---------------------------------------------------------------- rows kept

  predicate Kept(rt: Runtime, policy: Option<Registry.ResultPolicy>, row: Row) {
    || (policy.Some? && !policy.value.preserveEmpty)
    || Get(row, ROW_COUNT) == Undefined
    || (CountOf(rt, row).Some? && CountOf(rt, row).value > 0)
  }

  function Normalize(rt: Runtime, policy: Option<Registry.ResultPolicy>, rows: seq<Row>): seq<Row> {
    if rows == [] then []
    else (if Kept(rt, policy, rows[0]) then [rows[0] - {ROW_COUNT}] else []) + Normalize(rt, policy, rows[1..])
  }

  datatype SourceRows = Counted(n: int) | Unavailable

  function Total(rt: Runtime, rows: seq<Row>): int {
    if rows == [] then 0
    else
      var count := if Get(rows[0], ROW_COUNT) == Undefined then Some(0) else CountOf(rt, rows[0]);
      (if count.Some? then count.value else 0) + Total(rt, rows[1..])
  }

  /** How many source rows the result rests on, when the agent said so. */
  function SourceCount(rt: Runtime, rows: seq<Row>): SourceRows {
    if rows == [] then Counted(0)
    else if exists i :: 0 <= i < |rows| && Get(rows[i], ROW_COUNT) != Undefined then Counted(Total(rt, rows))
    else Unavailable
  }

  predicate Positive(rt: Runtime, row: Row) { CountOf(rt, row).Some? && CountOf(rt, row).value > 0 }

  /** The counting, preserving policy. */
  predicate CountsEverything(policy: Registry.ResultPolicy) { policy.countRequired && policy.preserveEmpty }

  lemma {:induction false} KeptRows(rt: Runtime, policy: Option<Registry.ResultPolicy>, rows: seq<Row>, r: Row)
    ensures r in Normalize(rt, policy, rows) <==>
      exists row :: row in rows && Kept(rt, policy, row) && r == row - {ROW_COUNT}
  {
    hide Kept;
    if rows != [] {
      var first := rows[0];
      assert first in rows && forall row :: row in rows <==> row == first || row in rows[1..];
      KeptRows(rt, policy, rows[1..], r);
    }
  }

  lemma {:induction false} TotalOfCounts(rt: Runtime, rows: seq<Row>)
    requires Standard(rt) && forall i :: 0 <= i < |rows| ==> ValidCount(rt, rows[i])
    ensures Total(rt, rows) >= 0
    ensures Total(rt, rows) == 0 <==> forall i :: 0 <= i < |rows| ==> !Positive(rt, rows[i])
  {
    if rows != [] {
      TotalOfCounts(rt, rows[1..]);
      assert ValidCount(rt, rows[0]);
      assert forall i :: 0 <= i < |rows[1..]| ==> rows[1..][i] == rows[i + 1];
      assert forall i :: 0 < i < |rows| ==> rows[i] == rows[1..][i - 1];
    }
  }

  lemma {:induction false} NothingKept(rt: Runtime, policy: Option<Registry.ResultPolicy>, rows: seq<Row>)
    ensures Normalize(rt, policy, rows) == [] <==> forall i :: 0 <= i < |rows| ==> !Kept(rt, policy, rows[i])
  {
    hide Kept;
    if rows != [] {
      NothingKept(rt, policy, rows[1..]);
      assert forall i :: 0 <= i < |rows[1..]| ==> rows[1..][i] == rows[i + 1];
      assert forall i :: 0 < i < |rows| ==> rows[i] == rows[1..][i - 1];
    }
  }

  /** Rows that carry no count, and all rows under a policy that fills empty results with zero, are kept, in
      their order and without the count column. */
  lemma {:induction false} NothingIsDropped(rt: Runtime, policy: Option<Registry.ResultPolicy>, rows: seq<Row>)
    requires (policy.Some? && !policy.value.preserveEmpty)
             || forall i :: 0 <= i < |rows| ==> Get(rows[i], "__source_row_count") == Undefined
    ensures var kept := Normalize(rt, policy, rows);
      |kept| == |rows| && forall i :: 0 <= i < |rows| ==> kept[i] == rows[i] - {"__source_row_count"}
  {
    if rows != [] {
      assert forall i :: 0 <= i < |rows[1..]| ==> rows[1..][i] == rows[i + 1];
      NothingIsDropped(rt, policy, rows[1..]);
      assert forall i :: 0 < i < |rows| ==> rows[i] == rows[1..][i - 1];
    }
  }

  /** A row that carries a count which is not positive is dropped under every other policy. */
  lemma UncountedRowsAreDropped(rt: Runtime, policy: Option<Registry.ResultPolicy>, row: Row, before: seq<Row>,
                                after: seq<Row>)
    requires policy.None? || policy.value.preserveEmpty
    requires Get(row, "__source_row_count") != Undefined && !Positive(rt, row)
    ensures Normalize(rt, policy, before + [row] + after)
         == Normalize(rt, policy, before) + Normalize(rt, policy, after)
  {
    assert before + [row] + after == before + ([row] + after);
    NormalizeInParts(rt, policy, before, [row] + after);
    assert ([row] + after)[1..] == after;
  }

  lemma {:induction false} NormalizeInParts(rt: Runtime, policy: Option<Registry.ResultPolicy>, a: seq<Row>,
                                            b: seq<Row>)
    ensures Normalize(rt, policy, a + b) == Normalize(rt, policy, a) + Normalize(rt, policy, b)
  {
    hide Kept;
    if a == [] {
      assert a + b == b;
    } else {
      assert (a + b)[1..] == a[1..] + b;
      NormalizeInParts(rt, policy, a[1..], b);
    }
  }

  lemma {:induction false} TotalInParts(rt: Runtime, a: seq<Row>, b: seq<Row>)
    ensures Total(rt, a + b) == Total(rt, a) + Total(rt, b)
  {
    if a == [] {
      assert a + b == b;
    } else {
      assert (a + b)[1..] == a[1..] + b;
      TotalInParts(rt, a[1..], b);
    }
  }

  /** The source count adds up over the parts of a result: a counted row counts for what it says, one
      without a count for nothing, and rows that never say leave it unavailable. */
  lemma SourceCountAddsUp(rt: Runtime, a: seq<Row>, row: Row, n: int)
    requires CountOf(rt, row) == Some(n) && Get(row, "__source_row_count") != Undefined
    ensures SourceCount(rt, a + [row]) ==
      match SourceCount(rt, a)
      case Counted(m) => Counted(m + n)
      case Unavailable => Counted(n)
  {
    assert (a + [row])[|a|] == row && [row][1..] == [];
    TotalInParts(rt, a, [row]);
    if SourceCount(rt, a).Unavailable? {
      NothingCounted(rt, a);
    } else if a != [] {
      var i :| 0 <= i < |a| && Get(a[i], ROW_COUNT) != Undefined;
      assert (a + [row])[i] == a[i];
    }
  }

  lemma {:induction false} NothingCounted(rt: Runtime, rows: seq<Row>)
    requires forall i :: 0 <= i < |rows| ==> Get(rows[i], "__source_row_count") == Undefined
    ensures Total(rt, rows) == 0
    ensures SourceCount(rt, rows) == if rows == [] then Counted(0) else Unavailable
  {
    if rows != [] {
      assert forall i :: 0 <= i < |rows[1..]| ==> rows[1..][i] == rows[i + 1];
      NothingCounted(rt, rows[1..]);
    }
  }

  lemma CountsDecide(rt: Runtime, policy: Registry.ResultPolicy, dimensions: seq<Dimension>, row: Row)
    requires Standard(rt) && CountsEverything(policy) && RowAccepted(rt, policy, dimensions, row)
    ensures ValidCount(rt, row) && Get(row, ROW_COUNT) != Undefined
    ensures Kept(rt, Some(policy), row) <==> Positive(rt, row)
  {
  }

  /** Empty is never confused with zero: once the rows are accepted under the counting, preserving
      policy, the result is empty exactly when the source counts sum to 0. */
  lemma EmptyExactlyWhenNothingWasCounted(rt: Runtime, policy: Registry.ResultPolicy, dimensions: seq<Dimension>,
                                          rows: seq<Row>)
    requires Standard(rt) && CountsEverything(policy) && RowsAccepted(rt, policy, dimensions, rows)
    ensures Normalize(rt, Some(policy), rows) == [] <==> SourceCount(rt, rows) == Counted(0)
  {
    hide RowAccepted;
    forall i | 0 <= i < |rows|
      ensures ValidCount(rt, rows[i]) && Get(rows[i], ROW_COUNT) != Undefined
      ensures Kept(rt, Some(policy), rows[i]) <==> Positive(rt, rows[i])
    {
      CountsDecide(rt, policy, dimensions, rows[i]);
    }
    hide Kept;
    NothingKept(rt, Some(policy), rows);
    TotalOfCounts(rt, rows);
    if rows != [] { assert Get(rows[0], ROW_COUNT) != Undefined; }
  }

  /** The rows kept are exactly those with a positive count. */
  lemma KeptRowsAreCounted(rt: Runtime, policy: Registry.ResultPolicy, dimensions: seq<Dimension>, rows: seq<Row>,
                           r: Row)
    requires Standard(rt) && CountsEverything(policy) && RowsAccepted(rt, policy, dimensions, rows)
    ensures r in Normalize(rt, Some(policy), rows) <==>
      exists row :: row in rows && Positive(rt, row) && r == row - {ROW_COUNT}
  {
    hide RowAccepted;
    KeptRows(rt, Some(policy), rows, r);
    forall row | row in rows ensures Kept(rt, Some(policy), row) <==> Positive(rt, row) {
      CountsDecide(rt, policy, dimensions, row);
    }
    hide Kept;
    hide Positive;
  }

  /** Every row kept carries a decimal text of the declared scale, when the policy asks for one. */
  lemma KeptRowsAreDecimals(rt: Runtime, policy: Registry.ResultPolicy, dimensions: seq<Dimension>, rows: seq<Row>,
                            r: Row)
    requires Standard(rt) && CountsEverything(policy) && RowsAccepted(rt, policy, dimensions, rows)
    requires r in Normalize(rt, Some(policy), rows) && policy.decimalText
    ensures Get(r, ROW_VALUE).String? && IsDecimal(Get(r, ROW_VALUE).s, policy.scale)
  {
    hide RowAccepted;
    hide IsDecimal;
    hide Normalize;
    KeptRowsAreCounted(rt, policy, dimensions, rows, r);
    var row :| row in rows && Positive(rt, row) && r == row - {ROW_COUNT};
    assert |ROW_VALUE| != |ROW_COUNT|;
    assert Get(r, ROW_VALUE) == Get(row, ROW_VALUE);
    ValueIsChecked(rt, policy, dimensions, row);
  }

  lemma ValueIsChecked(rt: Runtime, policy: Registry.ResultPolicy, dimensions: seq<Dimension>, row: Row)
    requires RowAccepted(rt, policy, dimensions, row) && Positive(rt, row) && policy.decimalText
    ensures Get(row, ROW_VALUE).String? && IsDecimal(Get(row, ROW_VALUE).s, policy.scale)
  {
    hide IsDecimal;
  }

  // ---------------------------------------------------------------- months

  /** `/^\d{4}-\d{2}$/`. */
  predicate IsMonthText(s: string) {
    |s| == 7 && s[4] == '-' && forall i :: 0 <= i < 7 && i != 4 ==> IsDigit(s[i])
  }

  function DigitValue(c: char): nat
    requires IsDigit(c)
  {
    c as int - '0' as int
  }

  function YearNumber(s: string): int
    requires IsMonthText(s)
  {
    1000 * DigitValue(s[0]) + 100 * DigitValue(s[1]) + 10 * DigitValue(s[2]) + DigitValue(s[3])
  }

  function MonthNumber(s: string): int
    requires IsMonthText(s)
  {
    10 * DigitValue(s[5]) + DigitValue(s[6])
  }

  /** Months since year 0. */
  function MonthIndex(s: string): int
    requires IsMonthText(s)
  {
    12 * YearNumber(s) + MonthNumber(s) - 1
  }

  /** The remainder of `%`, with the sign of the dividend. */
  function Remainder(i: int): int { if i >= 0 then i % 12 else -((-i) % 12) }

  /** `padStart(2, '0')`. */
  function Padded(s: string): string {
    if |s| == 0 then "00" else if |s| == 1 then "0" + s else s
  }

  function YearAndMonth(year: int, month: int): string { Integer(year) + ("-" + Padded(Integer(month))) }

  function MonthText(index: int): string { YearAndMonth(index / 12, Remainder(index) + 1) }

  /** The month number of an instant, in the period's time zone. */
  function MonthOf(zone: Zone, t: Instant): int {
    var x := LocalDate(zone, t);
    12 * x.y + x.m - 1
  }

  /** How many months the comparison lies before the period; None without both. */
  function MonthOffset(period: Option<ResolvedPeriod>, comparison: Option<ResolvedPeriod>, zone: Zone): Option<int> {
    if period.None? || comparison.None? then None
    else Some(MonthOf(zone, period.value.fromInclusive) - MonthOf(zone, comparison.value.fromInclusive))
  }

  function DimensionNamed(dimensions: seq<Dimension>, key: string): Option<Dimension> {
    if dimensions == [] then None
    else if dimensions[0].key == key then Some(dimensions[0])
    else DimensionNamed(dimensions[1..], key)
  }

  /** `comparisonDimensionValue`. */
  function Aligned(dimensions: seq<Dimension>, offset: Option<int>, key: string, current: Value): Value {
    var d := DimensionNamed(dimensions, key);
    if d.None? || !d.value.aligned || offset.None? || !current.String? || !IsMonthText(current.s) then current
    else String(MonthText(MonthIndex(current.s) - offset.value))
  }

  // ---------------------------------------------------------------- the shift is injective on months

  lemma RemainderRange(i: int)
    ensures -11 <= Remainder(i) <= 11
    ensures i == 12 * (i / 12) + if Remainder(i) >= 0 then Remainder(i) else Remainder(i) + 12
  {
  }

  lemma DecimalOfOne(n: nat)
    requires n < 10
    ensures Decimal(n) == [Digit(n)]
  {
  }

  lemma PaddedDigits(n: int)
    requires -10 <= n <= 12
    ensures n < 0 ==> Padded(Integer(n)) == Integer(n)
    ensures 0 <= n < 10 ==> Padded(Integer(n)) == ['0', Digit(n)]
    ensures n >= 10 ==> Padded(Integer(n)) == ['1', Digit(n - 10)]
  {
    if n < 0 {
      assert |Integer(n)| >= 2;
    } else if n < 10 {
      DecimalOfOne(n);
    } else {
      DecimalOfOne(n / 10);
      assert Decimal(n) == Decimal(n / 10) + [Digit(n % 10)];
    }
  }

  lemma PaddedUnambiguous(m: int, n: int)
    requires -10 <= m <= 12 && -10 <= n <= 12
    requires Padded(Integer(m)) == Padded(Integer(n))
    ensures m == n
  {
    PaddedDigits(m);
    PaddedDigits(n);
    IntegerSign(m, []);
    IntegerSign(n, []);
    if m < 0 && n < 0 { IntegerInjective(m, n); }
    assert Integer(m) + [] == Integer(m) && Integer(n) + [] == Integer(n);
  }

  lemma YearsAndMonthsDiffer(y: int, m: int, z: int, n: int)
    requires -10 <= m <= 12 && -10 <= n <= 12 && YearAndMonth(y, m) == YearAndMonth(z, n)
    ensures y == z && m == n
  {
    hide Padded;
    hide Integer;
    var a, b := Padded(Integer(m)), Padded(Integer(n));
    IntegerUnambiguous(y, "-" + a, z, "-" + b);
    assert ("-" + a)[1..] == a && ("-" + b)[1..] == b;
    PaddedUnambiguous(m, n);
  }

  /** No two months are printed alike. */
  lemma MonthTextsDiffer(i: int, j: int)
    requires MonthText(i) == MonthText(j)
    ensures i == j
  {
    hide YearAndMonth;
    RemainderRange(i);
    RemainderRange(j);
    YearsAndMonthsDiffer(i / 12, Remainder(i) + 1, j / 12, Remainder(j) + 1);
  }

  /** A four-digit year and a month from 01 to 12. */
  predicate IsCalendarMonth(s: string) { IsMonthText(s) && 1 <= MonthNumber(s) <= 12 }

  lemma DigitsDiffer(c: char, d: char)
    requires IsDigit(c) && IsDigit(d) && DigitValue(c) == DigitValue(d)
    ensures c == d
  {
  }

  lemma MonthIndexDiffers(a: string, b: string)
    requires IsCalendarMonth(a) && IsCalendarMonth(b) && MonthIndex(a) == MonthIndex(b)
    ensures a == b
  {
    assert YearNumber(a) == YearNumber(b) && MonthNumber(a) == MonthNumber(b);
    hide DigitValue;
    DigitsDiffer(a[0], b[0]);
    DigitsDiffer(a[1], b[1]);
    DigitsDiffer(a[2], b[2]);
    DigitsDiffer(a[3], b[3]);
    DigitsDiffer(a[5], b[5]);
    DigitsDiffer(a[6], b[6]);
    assert forall i :: 0 <= i < 7 ==> a[i] == b[i];
  }

  /** The shift keeps two month texts apart exactly when they name different months. */
  lemma ShiftIsInjectiveOnMonths(a: string, b: string, offset: int)
    requires IsMonthText(a) && IsMonthText(b)
    ensures MonthText(MonthIndex(a) - offset) == MonthText(MonthIndex(b) - offset) <==> MonthIndex(a) == MonthIndex(b)
    ensures IsCalendarMonth(a) && IsCalendarMonth(b) ==> (MonthIndex(a) == MonthIndex(b) <==> a == b)
  {
    hide MonthText;
    hide MonthIndex;
    hide MonthNumber;
    hide IsMonthText;
    if MonthText(MonthIndex(a) - offset) == MonthText(MonthIndex(b) - offset) {
      MonthTextsDiffer(MonthIndex(a) - offset, MonthIndex(b) - offset);
    }
    if IsCalendarMonth(a) && IsCalendarMonth(b) && MonthIndex(a) == MonthIndex(b) { MonthIndexDiffers(a, b); }
  }

  /** The pattern lets a thirteenth month through, which shifts like the January after it. */
  lemma ThirteenthMonthCollides(offset: int)
    ensures IsMonthText("2024-13") && IsMonthText("2025-01") && "2024-13" != "2025-01"
    ensures MonthText(MonthIndex("2024-13") - offset) == MonthText(MonthIndex("2025-01") - offset)
  {
    assert "2024-13"[3] != "2025-01"[3];
    assert MonthIndex("2024-13") == MonthIndex("2025-01") == 12 * 2025;
  }

  // ---------------------------------------------------------------- the join

  const PREVIOUS := "previous_value"

  /** The comparison row stands for the same group, one shift earlier. */
  predicate Matches(dimensions: seq<Dimension>, offset: Option<int>, row: Row, other: Row) {
    forall d :: d in dimensions ==> Get(other, d.key) == Aligned(dimensions, offset, d.key, Get(row, d.key))
  }

  function FindMatch(dimensions: seq<Dimension>, offset: Option<int>, row: Row, others: seq<Row>): Option<Row> {
    if others == [] then None
    else if Matches(dimensions, offset, row, others[0]) then Some(others[0])
    else FindMatch(dimensions, offset, row, others[1..])
  }

  function ValueOrNull(other: Option<Row>): Value {
    if other.None? || Get(other.value, ROW_VALUE) == Undefined then Value.Null else Get(other.value, ROW_VALUE)
  }

  function Joined(dimensions: seq<Dimension>, offset: Option<int>, row: Row, others: seq<Row>): Row {
    row[PREVIOUS := ValueOrNull(FindMatch(dimensions, offset, row, others))]
  }

  function Join(dimensions: seq<Dimension>, offset: Option<int>, rows: seq<Row>, others: seq<Row>): (r: seq<Row>)
    ensures |r| == |rows|
    ensures forall i :: 0 <= i < |r| ==> r[i] == Joined(dimensions, offset, rows[i], others)
  {
    seq(|rows|, i requires 0 <= i < |rows| => Joined(dimensions, offset, rows[i], others))
  }

  /** No dimension is named like the row count. */
  predicate PlainNames(dimensions: seq<Dimension>) {
    forall d :: d in dimensions ==> d.key != ROW_COUNT
  }

  lemma ApartWithoutCount(dimensions: seq<Dimension>, a: Row, b: Row)
    requires PlainNames(dimensions)
    ensures Apart(dimensions, a - {ROW_COUNT}, b - {ROW_COUNT}) <==> Apart(dimensions, a, b)
  {
    assert forall d :: d in dimensions ==>
      Get(a - {ROW_COUNT}, d.key) == Get(a, d.key) && Get(b - {ROW_COUNT}, d.key) == Get(b, d.key);
  }

  /** Rows kept still stand for different groups. */
  lemma {:induction false} KeptRowsStayApart(rt: Runtime, policy: Option<Registry.ResultPolicy>,
                                             dimensions: seq<Dimension>, rows: seq<Row>)
    requires PlainNames(dimensions) && AllApart(dimensions, rows)
    ensures AllApart(dimensions, Normalize(rt, policy, rows))
  {
    hide Apart;
    hide Kept;
    hide PlainNames;
    if rows != [] {
      var first, rest := rows[0], Normalize(rt, policy, rows[1..]);
      assert forall i, j :: 0 <= i < j < |rows[1..]| ==> rows[1..][i] == rows[i + 1] && rows[1..][j] == rows[j + 1];
      KeptRowsStayApart(rt, policy, dimensions, rows[1..]);
      forall j | 0 <= j < |rest| ensures Apart(dimensions, first - {ROW_COUNT}, rest[j]) {
        KeptRows(rt, policy, rows[1..], rest[j]);
        var row :| row in rows[1..] && rest[j] == row - {ROW_COUNT};
        var k :| 0 <= k < |rows[1..]| && rows[1..][k] == row;
        assert rows[k + 1] == row;
        ApartWithoutCount(dimensions, first, row);
      }
    }
  }

  lemma {:induction false} FindMatchFinds(dimensions: seq<Dimension>, offset: Option<int>, row: Row, others: seq<Row>)
    ensures var found := FindMatch(dimensions, offset, row, others);
      && (found.Some? ==> found.value in others && Matches(dimensions, offset, row, found.value))
      && (found.None? <==> forall o :: o in others ==> !Matches(dimensions, offset, row, o))
  {
    hide Matches;
    if others != [] {
      var first := others[0];
      assert first in others && forall o :: o in others <==> o == first || o in others[1..];
      FindMatchFinds(dimensions, offset, row, others[1..]);
    }
  }

  lemma OneMatchAtMost(dimensions: seq<Dimension>, offset: Option<int>, row: Row, others: seq<Row>, a: Row, b: Row)
    requires AllApart(dimensions, others) && a in others && b in others
    requires Matches(dimensions, offset, row, a) && Matches(dimensions, offset, row, b)
    ensures a == b
  {
    var i :| 0 <= i < |others| && others[i] == a;
    var j :| 0 <= j < |others| && others[j] == b;
    assert !Apart(dimensions, a, b) && !Apart(dimensions, b, a);
    assert !(i < j) && !(j < i);
  }

  lemma TheMatch(dimensions: seq<Dimension>, offset: Option<int>, row: Row, others: seq<Row>, o: Row)
    requires AllApart(dimensions, others) && o in others && Matches(dimensions, offset, row, o)
    ensures FindMatch(dimensions, offset, row, others) == Some(o)
  {
    hide Matches;
    FindMatchFinds(dimensions, offset, row, others);
    OneMatchAtMost(dimensions, offset, row, others, o, FindMatch(dimensions, offset, row, others).value);
  }

  /** The joined row is the row itself, with the value of the comparison row aligned with it under
      "previous_value": null when that row has none, and when there is no such row. */
  ghost predicate Extended(dimensions: seq<Dimension>, offset: Option<int>, row: Row, others: seq<Row>, joined: Row) {
    && (forall key :: key != "previous_value" ==> Get(joined, key) == Get(row, key))
    && (forall o :: o in others && Matches(dimensions, offset, row, o) ==>
          Get(joined, "previous_value") == if Get(o, "value") == Undefined then Value.Null else Get(o, "value"))
    && ((forall o :: o in others ==> !Matches(dimensions, offset, row, o)) ==>
          Get(joined, "previous_value") == Value.Null)
  }

  /** The comparison is a left join: the kept rows stay, once each and in order, and every one gets
      the value of the one comparison row aligned with it, or null when there is none. */
  lemma ComparisonIsALeftJoin(rt: Runtime, policy: Registry.ResultPolicy, dimensions: seq<Dimension>,
                              offset: Option<int>, current: seq<Row>, previous: seq<Row>)
    requires PlainNames(dimensions)
    requires RowsAccepted(rt, policy, dimensions, current) && RowsAccepted(rt, policy, dimensions, previous)
    ensures var rows, others := Normalize(rt, Some(policy), current), Normalize(rt, Some(policy), previous);
      var joined := Join(dimensions, offset, rows, others);
      && |joined| == |rows|
      && (forall i :: 0 <= i < |rows| ==> Extended(dimensions, offset, rows[i], others, joined[i]))
      && (forall i, o, m :: 0 <= i < |rows| && o in others && m in others
                            && Matches(dimensions, offset, rows[i], o) && Matches(dimensions, offset, rows[i], m)
                            ==> o == m)
  {
    hide RowAccepted;
    hide Matches;
    hide Normalize;
    hide Apart;
    hide PlainNames;
    var rows, others := Normalize(rt, Some(policy), current), Normalize(rt, Some(policy), previous);
    KeptRowsStayApart(rt, Some(policy), dimensions, previous);
    forall i | 0 <= i < |rows|
      ensures Extended(dimensions, offset, rows[i], others, Joined(dimensions, offset, rows[i], others))
    {
      JoinedExtends(dimensions, offset, rows[i], others);
    }
    forall i, o, m | 0 <= i < |rows| && o in others && m in others && Matches(dimensions, offset, rows[i], o)
                     && Matches(dimensions, offset, rows[i], m)
      ensures o == m
    {
      OneMatchAtMost(dimensions, offset, rows[i], others, o, m);
    }
  }

  lemma JoinedExtends(dimensions: seq<Dimension>, offset: Option<int>, row: Row, others: seq<Row>)
    requires AllApart(dimensions, others)
    ensures Extended(dimensions, offset, row, others, Joined(dimensions, offset, row, others))
  {
    hide Matches;
    hide AllApart;
    FindMatchFinds(dimensions, offset, row, others);
    forall o | o in others && Matches(dimensions, offset, row, o)
      ensures FindMatch(dimensions, offset, row, others) == Some(o)
    {
      TheMatch(dimensions, offset, row, others, o);
    }
  }

  /** The order in which the agent returns the comparison rows does not matter. */
  lemma JoinIgnoresComparisonOrder(dimensions: seq<Dimension>, offset: Option<int>, rows: seq<Row>, others: seq<Row>,
                                   shuffled: seq<Row>)
    requires AllApart(dimensions, others) && multiset(others) == multiset(shuffled)
    ensures Join(dimensions, offset, rows, others) == Join(dimensions, offset, rows, shuffled)
  {
    hide Matches;
    hide AllApart;
    assert forall o :: o in others <==> o in multiset(others);
    assert forall o :: o in shuffled <==> o in multiset(shuffled);
    forall i | 0 <= i < |rows|
      ensures FindMatch(dimensions, offset, rows[i], others) == FindMatch(dimensions, offset, rows[i], shuffled) {
      FindMatchFinds(dimensions, offset, rows[i], others);
      FindMatchFinds(dimensions, offset, rows[i], shuffled);
      var found := FindMatch(dimensions, offset, rows[i], shuffled);
      if found.Some? { TheMatch(dimensions, offset, rows[i], others, found.value); }
    }
  }

  // ---------------------------------------------------------------- no comparison row is used twice

  predicate HoldsMonth(v: Value) { v.String? && IsCalendarMonth(v.s) }

  /** Every aligned dimension of the rows holds a calendar month. */
  predicate InCalendarMonths(dimensions: seq<Dimension>, rows: seq<Row>) {
    forall row, d :: row in rows && d in dimensions && d.aligned ==> HoldsMonth(Get(row, d.key))
  }

  predicate DistinctNames(dimensions: seq<Dimension>) {
    forall i, j :: 0 <= i < j < |dimensions| ==> dimensions[i].key != dimensions[j].key
  }

  lemma {:induction false} NamedItself(dimensions: seq<Dimension>, i: nat)
    requires DistinctNames(dimensions) && i < |dimensions|
    ensures DimensionNamed(dimensions, dimensions[i].key) == Some(dimensions[i])
  {
    if i > 0 { NamedItself(dimensions[1..], i - 1); }
  }

  lemma AlignedKeepsApart(dimensions: seq<Dimension>, offset: Option<int>, d: Dimension, a: Value, b: Value)
    requires DimensionNamed(dimensions, d.key) == Some(d)
    requires d.aligned ==> HoldsMonth(a) && HoldsMonth(b)
    requires Aligned(dimensions, offset, d.key, a) == Aligned(dimensions, offset, d.key, b)
    ensures a == b
  {
    hide DimensionNamed;
    hide MonthText;
    hide MonthIndex;
    hide MonthNumber;
    hide IsMonthText;
    if d.aligned && offset.Some? { ShiftIsInjectiveOnMonths(a.s, b.s, offset.value); }
  }

  /** A comparison row is aligned with a row when it has the same value in every dimension, but for the
      month texts of aligned dimensions, which lie as many months earlier as the comparison does. */
  lemma AlignedRowsAreOfOneGroup(dimensions: seq<Dimension>, offset: Option<int>, row: Row, o: Row)
    requires DistinctNames(dimensions)
    ensures Matches(dimensions, offset, row, o) <==>
      forall d :: d in dimensions ==>
        Get(o, d.key) == if d.aligned && offset.Some? && Get(row, d.key).String? && IsMonthText(Get(row, d.key).s)
                         then String(MonthText(MonthIndex(Get(row, d.key).s) - offset.value)) else Get(row, d.key)
  {
    hide MonthText;
    hide MonthIndex;
    hide IsMonthText;
    hide DimensionNamed;
    forall d | d in dimensions ensures DimensionNamed(dimensions, d.key) == Some(d) {
      var k :| 0 <= k < |dimensions| && dimensions[k] == d;
      NamedItself(dimensions, k);
    }
  }

  /** Two different groups are never compared with the same row. */
  lemma NoComparisonRowIsUsedTwice(dimensions: seq<Dimension>, offset: Option<int>, rows: seq<Row>, i: nat, j: nat,
                                   o: Row)
    requires DistinctNames(dimensions) && InCalendarMonths(dimensions, rows) && AllApart(dimensions, rows)
    requires i < j < |rows|
    ensures !(Matches(dimensions, offset, rows[i], o) && Matches(dimensions, offset, rows[j], o))
  {
    hide Aligned;
    hide HoldsMonth;
    assert Apart(dimensions, rows[i], rows[j]);
    assert rows[i] in rows && rows[j] in rows;
    var d :| d in dimensions && Get(rows[i], d.key) != Get(rows[j], d.key);
    var k :| 0 <= k < |dimensions| && dimensions[k] == d;
    NamedItself(dimensions, k);
    var a, b := Get(rows[i], d.key), Get(rows[j], d.key);
    if Aligned(dimensions, offset, d.key, a) == Aligned(dimensions, offset, d.key, b) {
      AlignedKeepsApart(dimensions, offset, d, Get(rows[i], d.key), Get(rows[j], d.key));
    }
  }
}
