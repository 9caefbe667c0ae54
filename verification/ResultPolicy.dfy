/** `validateMetricRows`: which rows an agent may return, and what is kept of them. */
module ResultPolicy {
  import opened Contracts
  import opened Registry
  import opened Json
  import opened Text

  /** A row of an agent; a column it does not carry is undefined. */
  type Row = map<string, Value>

  function Get(row: Row, key: string): Value { if key in row then row[key] else Undefined }

  const ROW_COUNT := "__source_row_count"
  const ROW_VALUE := "value"

  /** What is left to the runtime: `Number()` of a value when it is an integer, which texts
      `Date.parse` understands, and the reviewed patterns of the dimensions. */
  datatype Runtime = Runtime(
    number: Value -> Option<int>,
    isDate: string -> bool,
    patterns: map<string, string -> bool>)

  ghost predicate Standard(rt: Runtime) {
    && rt.number(Undefined) == None && rt.number(Value.Null) == Some(0)
    && forall n :: rt.number(Value.Number(n)) == Some(n)
  }

  const MAX_SAFE_INTEGER := 9007199254740991

  // ---------------------------------------------------------------- values

  predicate AllDigits(s: string) { s != [] && forall i :: 0 <= i < |s| ==> IsDigit(s[i]) }

  function Unsigned(s: string): string { if s != [] && s[0] == '-' then s[1..] else s }

  lemma {:induction false} DigitRunFits(s: string)
    ensures DigitRun(s) <= |s|
  {
    if s != [] && IsDigit(s[0]) { DigitRunFits(s[1..]); }
  }

  /** An optional sign, digits, and a fraction of exactly `scale` digits; of any length without a scale. */
  predicate IsDecimal(s: string, scale: Option<nat>) {
    var u := Unsigned(s);
    DigitRunFits(u);
    var rest := u[DigitRun(u)..];
    DigitRun(u) > 0 &&
      if scale == Some(0) then rest == []
      else if scale.Some? then |rest| == scale.value + 1 && rest[0] == '.' && AllDigits(rest[1..])
      else rest == [] || (rest[0] == '.' && AllDigits(rest[1..]))
  }

  /** A sign or none, some digits, and a fraction: none, or a dot and digits. */
  predicate MakesUp(s: string, sign: string, whole: string, fraction: string) {
    && (sign == "" || sign == "-") && AllDigits(whole) && (fraction == "" || AllDigits(fraction))
    && s == sign + (whole + if fraction == "" then "" else "." + fraction)
  }

  lemma MadeUpIsDecimal(s: string, sign: string, whole: string, fraction: string, scale: Option<nat>)
    requires MakesUp(s, sign, whole, fraction) && (scale.Some? ==> |fraction| == scale.value)
    ensures IsDecimal(s, scale)
  {
    var tail := if fraction == "" then "" else "." + fraction;
    assert IsDigit(whole[0]) && (whole + tail)[0] == whole[0];
    assert Unsigned(s) == whole + tail;
    DigitRunOfNumber(whole, tail);
    assert (whole + tail)[|whole|..] == tail;
    if fraction != "" { assert tail[1..] == fraction; }
  }

  lemma {:induction false} RunIsDigits(s: string)
    ensures DigitRun(s) <= |s| && forall i :: 0 <= i < DigitRun(s) ==> IsDigit(s[i])
  {
    if s != [] && IsDigit(s[0]) {
      RunIsDigits(s[1..]);
      assert forall i :: 0 < i < DigitRun(s) ==> s[i] == s[1..][i - 1];
    }
  }

  lemma UnsignedIsMadeUp(u: string, scale: Option<nat>) returns (whole: string, fraction: string)
    requires IsDecimal(u, scale) && Unsigned(u) == u
    ensures MakesUp(u, "", whole, fraction) && (scale.Some? ==> |fraction| == scale.value)
  {
    RunIsDigits(u);
    whole := u[..DigitRun(u)];
    var rest := u[DigitRun(u)..];
    assert u == "" + (whole + rest);
    if rest == [] {
      fraction := "";
    } else {
      fraction := rest[1..];
      assert rest == "." + fraction;
    }
  }

  lemma SignIsPutBack(s: string, whole: string, fraction: string)
    requires s != [] && s[0] == '-' && MakesUp(s[1..], "", whole, fraction)
    ensures MakesUp(s, "-", whole, fraction)
  {
    assert s == "-" + s[1..];
  }

  lemma DecimalIsMadeUp(s: string, scale: Option<nat>) returns (sign: string, whole: string, fraction: string)
    requires IsDecimal(s, scale)
    ensures MakesUp(s, sign, whole, fraction) && (scale.Some? ==> |fraction| == scale.value)
  {
    var u := Unsigned(s);
    RunIsDigits(u);
    whole, fraction := UnsignedIsMadeUp(u, scale);
    hide MakesUp;
    if u == s {
      sign := "";
    } else {
      sign := "-";
      SignIsPutBack(s, whole, fraction);
    }
  }

  /** The texts taken for decimals are exactly an optional sign, digits and a fraction of the scale's length,
      or of any length, even none, without a scale. */
  lemma DecimalsExactly(s: string, scale: Option<nat>)
    ensures IsDecimal(s, scale) <==>
      exists sign, whole, fraction ::
        MakesUp(s, sign, whole, fraction) && (scale.Some? ==> |fraction| == scale.value)
  {
    if IsDecimal(s, scale) {
      var sign, whole, fraction := DecimalIsMadeUp(s, scale);
    }
    forall sign, whole, fraction | MakesUp(s, sign, whole, fraction) && (scale.Some? ==> |fraction| == scale.value)
      ensures IsDecimal(s, scale)
    {
      MadeUpIsDecimal(s, sign, whole, fraction, scale);
    }
  }

  function DigitsIn(s: string): nat {
    if s == [] then 0 else (if IsDigit(s[0]) then 1 else 0) + DigitsIn(s[1..])
  }

  function ValueText(v: Value): string {
    match v case String(s) => s case Number(n) => Integer(n) case _ => ""
  }

  predicate IsZero(v: Value) {
    match v
    case Number(n) => n == 0
    case String(s) => forall c :: c in s && IsDigit(c) ==> c == '0'
    case _ => false
  }

  // ---------------------------------------------------------------- one row

  function CountOf(rt: Runtime, row: Row): Option<int> { rt.number(Get(row, ROW_COUNT)) }

  predicate ValidCount(rt: Runtime, row: Row) {
    CountOf(rt, row).Some? && 0 <= CountOf(rt, row).value <= MAX_SAFE_INTEGER
  }

  predicate CountAccepted(rt: Runtime, policy: ResultPolicy, row: Row) {
    policy.countRequired || Get(row, ROW_COUNT) != Undefined ==> ValidCount(rt, row)
  }

  /** The rows whose value is checked. */
  predicate CarriesValue(policy: ResultPolicy, count: Option<int>) {
    (count.Some? && count.value > 0) || !policy.preserveEmpty || (!policy.countRequired && count != Some(0))
  }

  predicate ValueAccepted(policy: ResultPolicy, count: Option<int>, v: Value) {
    && (if policy.decimalText then v.String? && IsDecimal(v.s, policy.scale) else v.Number?)
    && (policy.precision.Some? && policy.precision.value > 0 ==> DigitsIn(ValueText(v)) <= policy.precision.value)
    && (count == Some(0) ==> IsZero(v))
  }

  predicate MeasureAccepted(rt: Runtime, policy: ResultPolicy, row: Row) {
    var count, v := CountOf(rt, row), Get(row, ROW_VALUE);
    && (count == Some(0) && policy.preserveEmpty ==> v == Value.Null)
    && (CarriesValue(policy, count) ==> ValueAccepted(policy, count, v))
  }

  predicate DimensionAccepted(rt: Runtime, d: Dimension, v: Value) {
    && v != Undefined && v != Value.Null
    && (match d.dataType
        case STRING => v.String?
        case NUMERIC => v.Number?
        case BOOLEAN => v.Bool?
        case DATE => v.String? && rt.isDate(v.s))
    && (d.key in rt.patterns ==> v.String? && rt.patterns[d.key](v.s))
  }

  function AllowedKeys(dimensions: seq<Dimension>): set<string> {
    {ROW_VALUE, ROW_COUNT} + set d | d in dimensions :: d.key
  }

  predicate RowAccepted(rt: Runtime, policy: ResultPolicy, dimensions: seq<Dimension>, row: Row) {
    && row.Keys <= AllowedKeys(dimensions)
    && CountAccepted(rt, policy, row)
    && MeasureAccepted(rt, policy, row)
    && forall d :: d in dimensions ==> DimensionAccepted(rt, d, Get(row, d.key))
  }

  /** What can be wrong with a row. */
  datatype RowFault = UnknownColumn | BadCount | EmptyNotNull | BadValue | TooPrecise | EmptyNotZero | BadDimension

  ghost predicate Has(fault: RowFault, rt: Runtime, policy: ResultPolicy, dimensions: seq<Dimension>, row: Row) {
    var count, v := rt.number(Get(row, "__source_row_count")), Get(row, "value");
    var judged := (count.Some? && count.value > 0) || !policy.preserveEmpty
                  || (!policy.countRequired && count != Some(0));
    match fault
    case UnknownColumn =>
      exists key :: key in row && key != "value" && key != "__source_row_count"
                    && forall d :: d in dimensions ==> d.key != key
    case BadCount =>
      (policy.countRequired || Get(row, "__source_row_count") != Undefined)
      && (count.None? || count.value < 0 || count.value > 9007199254740991)
    case EmptyNotNull => count == Some(0) && policy.preserveEmpty && v != Value.Null
    case BadValue => judged && if policy.decimalText then !v.String? || !IsDecimal(v.s, policy.scale) else !v.Number?
    case TooPrecise =>
      judged && policy.precision.Some? && policy.precision.value > 0 && DigitsIn(ValueText(v)) > policy.precision.value
    case EmptyNotZero =>
      judged && count == Some(0)
      && !(v == Value.Number(0) || (v.String? && forall c :: c in v.s ==> !('1' <= c <= '9')))
    case BadDimension =>
      exists d :: d in dimensions && !IsOfType(rt, d, Get(row, d.key))
  }

  /** A value of the dimension's type, in its reviewed pattern. */
  predicate IsOfType(rt: Runtime, d: Dimension, v: Value) {
    && (match v
        case Undefined | Null | Array(_) | Object(_) => false
        case String(s) => d.dataType == STRING || (d.dataType == DATE && rt.isDate(s))
        case Number(_) => d.dataType == NUMERIC
        case Bool(_) => d.dataType == BOOLEAN)
    && (d.key in rt.patterns ==> v.String? && rt.patterns[d.key](v.s))
  }

  lemma ColumnsAreKnown(rt: Runtime, policy: ResultPolicy, dimensions: seq<Dimension>, row: Row)
    ensures row.Keys <= AllowedKeys(dimensions) <==> !Has(UnknownColumn, rt, policy, dimensions, row)
  {
    forall key ensures key in AllowedKeys(dimensions) <==>
        key == "value" || key == "__source_row_count" || exists d :: d in dimensions && d.key == key
    {
    }
  }

  lemma MeasureIsChecked(rt: Runtime, policy: ResultPolicy, dimensions: seq<Dimension>, row: Row)
    ensures CountAccepted(rt, policy, row) <==> !Has(BadCount, rt, policy, dimensions, row)
    ensures MeasureAccepted(rt, policy, row) <==>
      && !Has(EmptyNotNull, rt, policy, dimensions, row) && !Has(BadValue, rt, policy, dimensions, row)
      && !Has(TooPrecise, rt, policy, dimensions, row) && !Has(EmptyNotZero, rt, policy, dimensions, row)
  {
    hide IsDecimal;
    hide DigitsIn;
    hide ValueText;
  }

  lemma DimensionsAreChecked(rt: Runtime, policy: ResultPolicy, dimensions: seq<Dimension>, row: Row)
    ensures (forall d :: d in dimensions ==> DimensionAccepted(rt, d, Get(row, d.key))) <==>
      !Has(BadDimension, rt, policy, dimensions, row)
  {
    forall d: Dimension ensures DimensionAccepted(rt, d, Get(row, d.key)) <==> IsOfType(rt, d, Get(row, d.key)) {
    }
    hide DimensionAccepted;
    hide IsOfType;
  }

  /** A row is accepted exactly when nothing is wrong with it. */
  lemma AcceptedUnlessFaulty(rt: Runtime, policy: ResultPolicy, dimensions: seq<Dimension>, row: Row)
    ensures RowAccepted(rt, policy, dimensions, row) <==> forall fault :: !Has(fault, rt, policy, dimensions, row)
  {
    ColumnsAreKnown(rt, policy, dimensions, row);
    MeasureIsChecked(rt, policy, dimensions, row);
    DimensionsAreChecked(rt, policy, dimensions, row);
    hide CountAccepted;
    hide MeasureAccepted;
    hide DimensionAccepted;
    hide AllowedKeys;
    hide Has;
    if RowAccepted(rt, policy, dimensions, row) {
      forall fault ensures !Has(fault, rt, policy, dimensions, row) {
        match fault
        case UnknownColumn | BadCount | EmptyNotNull | BadValue | TooPrecise | EmptyNotZero | BadDimension =>
      }
    }
  }

  /** One digit after another. */
  lemma {:induction false} DigitsAreCounted(a: string, c: char)
    ensures DigitsIn(a + [c]) == DigitsIn(a) + if '0' <= c <= '9' then 1 else 0
    ensures DigitsIn("") == 0
  {
    if a == [] {
      assert a + [c] == [c];
    } else {
      assert (a + [c])[1..] == a[1..] + [c];
      DigitsAreCounted(a[1..], c);
    }
  }

  // ---------------------------------------------------------------- all rows

  function Tuple(dimensions: seq<Dimension>, row: Row): (r: seq<Value>)
    ensures |r| == |dimensions| && forall i :: 0 <= i < |r| ==> r[i] == Get(row, dimensions[i].key)
  {
    seq(|dimensions|, i requires 0 <= i < |dimensions| => Get(row, dimensions[i].key))
  }

  /** `JSON.stringify` of the dimension values; they are scalars, so no keys are ever ordered. */
  function TupleText(dimensions: seq<Dimension>, row: Row): string {
    Canonical(Array(Tuple(dimensions, row)), (a: string, b: string) => true)
  }

  /** Two rows differ in some dimension. */
  predicate Apart(dimensions: seq<Dimension>, a: Row, b: Row) {
    exists d :: d in dimensions && Get(a, d.key) != Get(b, d.key)
  }

  predicate AllApart(dimensions: seq<Dimension>, rows: seq<Row>) {
    forall i, j :: 0 <= i < j < |rows| ==> Apart(dimensions, rows[i], rows[j])
  }

  /** What validation guarantees: every row is acceptable, and no two rows stand for the same group. */
  predicate RowsAccepted(rt: Runtime, policy: ResultPolicy, dimensions: seq<Dimension>, rows: seq<Row>) {
    && (forall i :: 0 <= i < |rows| ==> RowAccepted(rt, policy, dimensions, rows[i]))
    && AllApart(dimensions, rows)
  }

  lemma TuplesAreScalar(rt: Runtime, policy: ResultPolicy, dimensions: seq<Dimension>, a: Row)
    requires RowAccepted(rt, policy, dimensions, a)
    ensures forall i :: 0 <= i < |dimensions| ==> Scalar?(Tuple(dimensions, a)[i])
  {
    forall i | 0 <= i < |dimensions| ensures Scalar?(Tuple(dimensions, a)[i]) {
      assert dimensions[i] in dimensions;
    }
  }

  lemma SameTextSameTuple(x: seq<Value>, y: seq<Value>, le: (string, string) -> bool)
    requires |x| == |y| && forall i :: 0 <= i < |x| ==> Scalar?(x[i]) && Scalar?(y[i])
    requires Canonical(Array(x), le) == Canonical(Array(y), le)
    ensures x == y
  {
    ValueBeforeIsCanonical(Array(x), [], le);
    ValueBeforeIsCanonical(Array(y), [], le);
    ValueUnambiguous(Array(x), [], Array(y), [], le);
    ArraysAgree(x, y);
    forall i | 0 <= i < |x| ensures x[i] == y[i] { ScalarsMean(x[i], y[i]); }
  }

  lemma TupleTextsDiffer(rt: Runtime, policy: ResultPolicy, dimensions: seq<Dimension>, a: Row, b: Row)
    requires RowAccepted(rt, policy, dimensions, a) && RowAccepted(rt, policy, dimensions, b)
    ensures TupleText(dimensions, a) != TupleText(dimensions, b) <==> Apart(dimensions, a, b)
  {
    hide RowAccepted;
    var x, y := Tuple(dimensions, a), Tuple(dimensions, b);
    TuplesAreScalar(rt, policy, dimensions, a);
    TuplesAreScalar(rt, policy, dimensions, b);
    if TupleText(dimensions, a) == TupleText(dimensions, b) {
      SameTextSameTuple(x, y, (s: string, t: string) => true);
      forall d | d in dimensions ensures Get(a, d.key) == Get(b, d.key) {
        var i :| 0 <= i < |dimensions| && dimensions[i] == d;
        assert x[i] == y[i];
      }
    } else {
      assert x != y;
      var i :| 0 <= i < |dimensions| && x[i] != y[i];
      assert dimensions[i] in dimensions && Get(a, dimensions[i].key) != Get(b, dimensions[i].key);
    }
  }

  predicate Scalar?(v: Value) { v.String? || v.Number? || v.Bool? }

  lemma ScalarsMean(a: Value, b: Value)
    requires Scalar?(a) && Scalar?(b) && MeaningOf(a) == MeaningOf(b)
    ensures a == b
  {
  }

  /** `validateMetricRows`. */
  method ValidateMetricRows(rt: Runtime, policy: Option<ResultPolicy>, dimensions: seq<Dimension>, rows: seq<Row>)
    returns (r: Outcome<()>)
    ensures policy.None? ==> r.Ok?
    ensures policy.Some? ==> (r.Ok? <==> RowsAccepted(rt, policy.value, dimensions, rows))
    ensures r.Failed? ==> r.code == SOURCE_SCHEMA_MISMATCH
  {
    hide RowAccepted;
    hide TupleText;
    hide Apart;
    if policy.None? { return Ok(()); }
    if dimensions == [] && |rows| > 1 {
      NoDimensionsNoDifference(rows[0], rows[1]);
      return Failed(SOURCE_SCHEMA_MISMATCH);
    }
    var tuples: set<string> := {};
    for n := 0 to |rows|
      invariant RowsAccepted(rt, policy.value, dimensions, rows[..n])
      invariant dimensions != [] ==> tuples == set i | 0 <= i < n :: TupleText(dimensions, rows[i])
    {
      var row := rows[n];
      assert rows[..n + 1][n] == row;
      if !RowAccepted(rt, policy.value, dimensions, row) { return Failed(SOURCE_SCHEMA_MISMATCH); }
      forall i | 0 <= i < n
        ensures TupleText(dimensions, rows[i]) != TupleText(dimensions, row) <==> Apart(dimensions, rows[i], row) {
        assert rows[..n][i] == rows[i];
        TupleTextsDiffer(rt, policy.value, dimensions, rows[i], row);
      }
      if dimensions != [] {
        var tuple := TupleText(dimensions, row);
        if tuple in tuples { return Failed(SOURCE_SCHEMA_MISMATCH); }
        tuples := tuples + {tuple};
      }
    }
    assert rows[..|rows|] == rows;
    r := Ok(());
  }

  lemma NoDimensionsNoDifference(a: Row, b: Row)
    ensures !Apart([], a, b)
  {
  }
}
