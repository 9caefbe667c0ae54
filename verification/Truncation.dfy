/** Two requests with one fingerprint and different answers, in a registry with two dimensions. */
module Truncation {
  import opened Contracts
  import opened Calendar
  import opened Registry
  import opened QueryValidator
  import opened SqlCompiler
  import opened SqlMeaning
  import opened Compilability
  import opened QueryPlanner
  import opened RowOrder
  import opened CacheAgreement
  import opened CutAnswers
  import Fingerprint

  // ---------------------------------------------------------------- a registry with two dimensions

  function Axis(key: string): Dimension { Dimension(key, NUMERIC, "c", "r", key, {}, false, false) }

  function Source(): Resource { Resource("c", "r", "1", "T", map["a" := "A", "b" := "B", "m" := "M"], false, []) }

  function Measure(): Metric {
    Metric("m", MeasureType.NUMBER, SUM, ["a", "b"], [], {}, [], "c", "r", "m", None, None, None, CERTIFIED, false,
           ("read", "m"))
  }

  function Registered(): SemanticRegistry {
    SemanticRegistry("1", map["m" := Measure()], map["a" := Axis("a"), "b" := Axis("b")], map["c:r" := Source()])
  }

  function Ask(dimensions: seq<string>): Request {
    Request("2", {}, "m", dimensions, [], None, None, None, None, Some(1))
  }

  function Reader(): User { User("u", Some("o"), {("read", "m")}) }

  function AskFor(dimensions: seq<string>): Call { Call(Ask(dimensions), Reader(), false, "UTC", 0) }

  lemma SingleLetters()
    ensures Path("A") == Ok("[A]") && Path("B") == Ok("[B]") && Path("M") == Ok("[M]") && Path("T") == Ok("[T]")
  {
    SingleLetter('A');
    SingleLetter('B');
    SingleLetter('M');
    SingleLetter('T');
    hide Path;
    assert ['A'] == "A" && ['B'] == "B" && ['M'] == "M" && ['T'] == "T";
    assert "[" + "A" + "]" == "[A]" && "[" + "B" + "]" == "[B]" && "[" + "M" + "]" == "[M]" && "[" + "T" + "]" == "[T]";
  }

  lemma SingleLetter(c: char)
    requires IsLetter(c)
    ensures Path([c]) == Ok("[" + [c] + "]")
  {
    var s := [c];
    assert s[1..] == [] && s[0] != '.';
    var rest := SplitDots(s[1..]);
    assert rest == [[]] && rest[1..] == [] && [c] + rest[0] == s;
    assert [s] + rest[1..] == [s];
    assert SplitDots(s) == [s];
    assert Identifier(s) == Ok("[" + s + "]");
    var parts := [s];
    assert parts[1..] == [] && Identifiers(parts[1..]) == Ok([]);
    assert ["[" + s + "]"] + [] == ["[" + s + "]"];
    assert Identifiers(parts) == Ok(["[" + s + "]"]);
  }

  lemma Expressions()
    ensures Expression(Source(), "a") == Ok("[A]") && Expression(Source(), "b") == Ok("[B]")
    ensures Expression(Source(), "m") == Ok("[M]")
  {
    SingleLetters();
  }

  ghost predicate TwoAxes(x: string, y: string) { (x == "a" && y == "b") || (x == "b" && y == "a") }

  lemma SourceIsFound()
    ensures Registered().ResourceNamed("c", "r") == Ok(Source())
    ensures Registered().Registered()
  {
    assert ResourceId("c", "r") == "c:r";
  }

  lemma BothAreAccepted(x: string, y: string)
    requires TwoAxes(x, y)
    ensures Validate(Registered(), Ask([x, y]), Reader(), false) == Ok((Measure(), Source()))
    ensures Acceptable(Registered(), Ask([x, y]), Reader(), false)
  {
    hide Validate;
    SourceIsFound();
    BothAreAcceptable(x, y);
    hide Acceptable;
    AcceptsExactly(Registered(), Ask([x, y]), Reader(), false);
    ResourceIsLookedUp(Registered(), Ask([x, y]), Reader(), false);
  }

  lemma BothAreAcceptable(x: string, y: string)
    requires TwoAxes(x, y)
    ensures Acceptable(Registered(), Ask([x, y]), Reader(), false)
  {
    SourceIsFound();
    AxesAreGood();
    MeasureIsGood([x, y]);
    hide GoodMetric;
    hide GoodDimension;
    hide GoodFilter;
    assert "a" != "b";
  }

  lemma MeasureIsGood(keys: seq<string>)
    ensures GoodMetric(Registered(), Ask(keys), Reader(), false)
  {
    SourceIsFound();
  }

  lemma AxesAreGood()
    ensures GoodDimension(Registered(), Measure(), Source(), "a")
    ensures GoodDimension(Registered(), Measure(), Source(), "b")
  {
  }

  // ---------------------------------------------------------------- a source that orders all cells

  predicate TextBefore(s: string, t: string) {
    t != [] && (s == [] || s[0] < t[0] || (s[0] == t[0] && TextBefore(s[1..], t[1..])))
  }

  lemma {:induction false} TextsAreOrdered(s: string, t: string)
    ensures TextBefore(s, t) || TextBefore(t, s) <==> s != t
  {
    if s != [] && t != [] && s[0] == t[0] {
      TextsAreOrdered(s[1..], t[1..]);
      assert s == [s[0]] + s[1..] && t == [t[0]] + t[1..];
    }
  }

  function KindOf(x: Cell): int {
    match x
    case NullCell => 0
    case Plain(Null) => 1 case Plain(Text(_)) => 2 case Plain(Number(_)) => 3 case Plain(Boolean(_)) => 4
    case DayCell(_) => 5
    case InstantCell(_) => 6
  }

  predicate KindBefore(x: Cell, y: Cell) {
    match (x, y)
    case (Plain(Text(s)), Plain(Text(t))) => TextBefore(s, t)
    case (Plain(Number(m)), Plain(Number(n))) => m < n
    case (Plain(Boolean(p)), Plain(Boolean(q))) => !p && q
    case (DayCell(a), DayCell(b)) => Before(a, b)
    case (InstantCell(s), InstantCell(t)) => s < t
    case _ => KindOf(x) < KindOf(y)
  }

  function Engine(): Sql {
    Sql((x: Cell, y: Cell) => x == y,
        (x: Cell, y: Cell) => KindBefore(x, y),
        (x: Cell) => if x.Plain? && x.scalar.Text? then x.scalar.s else "",
        (a: Aggregation, exact: bool, cells: multiset<Cell>) => NullCell)
  }

  lemma CellsAreOrdered(x: Cell, y: Cell)
    ensures KindBefore(x, y) || KindBefore(y, x) <==> x != y
  {
    if x.Plain? && y.Plain? && x.scalar.Text? && y.scalar.Text? { TextsAreOrdered(x.scalar.s, y.scalar.s); }
  }

  lemma EngineOrders()
    ensures OrdersCells(Engine()) && OrdersNumbers(Engine()) && KeepsText(Engine())
  {
    forall x, y ensures KindBefore(x, y) || KindBefore(y, x) <==> x != y { CellsAreOrdered(x, y); }
  }

  // ---------------------------------------------------------------- the two plans

  ghost predicate Columned(c: Compiled, x: string, y: string) {
    && c.statement.clauses == []
    && c.statement.groups == [Group(ColumnOf(Source(), x), x), Group(ColumnOf(Source(), y), y)]
    && c.statement.orderBy == DefaultOrder(c.statement.groups) && c.statement.top == 1
  }

  lemma BothAreCompilable(x: string, y: string)
    requires TwoAxes(x, y)
    ensures Compilable(Measure(), Source(), [Axis(x), Axis(y)], [], None, NoOffset, [])
  {
    hide Path;
    hide Expression;
    assert Expression(Source(), "m").Ok? && Path("T").Ok? by { Expressions(); SingleLetters(); }
    assert Expression(Source(), x).Ok? && Expression(Source(), y).Ok? by { Expressions(); }
    assert IsIdentifier("a") && IsIdentifier("b");
  }

  lemma BothCompile(x: string, y: string)
    requires TwoAxes(x, y)
    ensures var r := Compile(Measure(), Source(), [Axis(x), Axis(y)], [], None, NoOffset, [], Some(1));
      r.Ok? && Columned(r.value, x, y)
  {
    hide Compilable;
    hide Compile;
    hide Groups;
    hide ColumnOf;
    var dimensions := [Axis(x), Axis(y)];
    BothAreCompilable(x, y);
    CompilesExactlyWhen(Measure(), Source(), dimensions, [], None, NoOffset, [], Some(1));
    NothingToFilter(dimensions);
    GroupsOfDimensions(Source(), dimensions);
  }

  lemma NothingToFilter(dimensions: seq<Dimension>)
    requires Compile(Measure(), Source(), dimensions, [], None, NoOffset, [], Some(1)).Ok?
    ensures var st := Compile(Measure(), Source(), dimensions, [], None, NoOffset, [], Some(1)).value.statement;
      && st.clauses == [] && st.top == 1
      && Groups(Source(), dimensions) == Ok(st.groups) && st.orderBy == DefaultOrder(st.groups)
  {
    hide Path;
    hide Expression;
    hide Groups;
  }

  lemma BothArePlanned(x: string, y: string) returns (p: Plan)
    requires TwoAxes(x, y)
    ensures Plans(Registered(), None, AskFor([x, y]), p) && Columned(p.execution, x, y)
  {
    hide Validate;
    hide Compile;
    hide Columned;
    BothAreAccepted(x, y);
    hide Acceptable;
    BothCompile(x, y);
    assert DimensionsOf(Registered(), [x, y]) == [Axis(x), Axis(y)];
    assert FiltersOf(Registered(), []) == [];
    p := PlanRequest(Registered(), Ask([x, y]), Reader(), false, None, "UTC", 0).value;
  }

  function ColumnFor(x: string): Column { if x == "a" then "[A]" else "[B]" }

  lemma GroupsByColumn(x: string, y: string, c: Compiled)
    requires TwoAxes(x, y) && Columned(c, x, y)
    ensures DistinctColumns(c.statement.groups)
  {
    Expressions();
    assert c.statement.groups == [Group(ColumnFor(x), x), Group(ColumnFor(y), y)];
    assert "[A]"[1] != "[B]"[1];
  }

  lemma NothingIsFiltered(c: Compiled, base: Row)
    requires Columned(c, "a", "b")
    ensures LeavesGroupsFree(Engine(), c, base)
  {
    hide Engine;
    NoClausesLeaveGroupsFree(Engine(), c, base);
  }

  lemma TwoComparablePlans(o: Fingerprint.Collation) returns (r: Call, p: Plan, s: Call, q: Plan)
    requires Fingerprint.Collates(o)
    ensures Comparable(Engine(), Registered(), r, p, s, q, None, o, map[])
    ensures !OrderedAlike(r.request, s.request)
  {
    hide Fingerprint.PreImage;
    hide Plans;
    hide Registered;
    hide Reader;
    hide TwoAxes;
    hide Columned;
    SourceIsFound();
    EngineOrders();
    hide Engine;
    hide OrdersCells;
    hide OrdersNumbers;
    r, s := AskFor(["a", "b"]), AskFor(["b", "a"]);
    TheTwoAxes();
    p := BothArePlanned("a", "b");
    q := BothArePlanned("b", "a");
    ReorderedRequestsShareAFingerprint(Registered(), r, p, s, q, None, o);
    GroupsByColumn("a", "b", p.execution);
    NothingIsFiltered(p.execution, map[]);
  }

  lemma TheTwoAxes()
    ensures TwoAxes("a", "b") && TwoAxes("b", "a") && multiset(["a", "b"]) == multiset(["b", "a"])
    ensures ["a", "b"] != ["b", "a"]
  {
    assert "a"[0] != "b"[0] && ["a", "b"][0] != ["b", "a"][0];
  }

  /** Two requests with one fingerprint whose answers differ on some table, because TOP cuts them. */
  lemma CutAnswersDiffer(o: Fingerprint.Collation) returns (r: Call, p: Plan, s: Call, q: Plan, rows: seq<Row>)
    requires Fingerprint.Collates(o)
    ensures Plans(Registered(), None, r, p) && Plans(Registered(), None, s, q)
    ensures Fingerprint.PreImage(p.semantic, o) == Fingerprint.PreImage(q.semantic, o)
    ensures Executable(p.execution) && Executable(q.execution) && !AgreeOn(Engine(), rows, p.execution, q.execution)
  {
    hide Fingerprint.PreImage;
    hide Plans;
    hide AgreeOn;
    hide Registered;
    hide Engine;
    hide Executable;
    hide LeavesGroupsFree;
    hide OrdersCells;
    hide OrdersNumbers;
    hide DistinctColumns;
    r, p, s, q := TwoComparablePlans(o);
    AnswersAgreeExactlyWhenOrderedAlike(Engine(), Registered(), r, p, s, q, None, o, map[]);
    rows :| !AgreeOn(Engine(), rows, p.execution, q.execution);
  }
}
