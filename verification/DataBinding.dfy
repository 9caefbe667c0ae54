/** `DataBindingService`: the contract a widget stores, and why the engine will serve it. */
module DataBinding {
  import opened Contracts
  import opened PeriodResolver
  import opened Registry
  import opened Json
  import opened QueryValidator
  import Fingerprint

  /** The query part of a binding. */
  datatype BoundQuery = BoundQuery(dimensions: seq<string>, comparison: Option<ComparisonType>)

  /** `defaults`, `query` and `presentation` are None when the stored object has no such field. */
  datatype Binding = Binding(
    metric: string,
    defaults: Option<Option<ComparisonType>>,
    query: Option<BoundQuery>,
    presentation: Option<Shape>)

  /** What the widget store throws, and what the registry throws for an unknown dimension. */
  datatype Fault = BadRequest | UnknownDimension

  datatype Verdict = Accepted(binding: Option<Binding>) | Rejected(fault: Fault)

  // ---------------------------------------------------------------- reading raw values

  /** A property of an object; undefined when it has none of that name. */
  function Field(ms: seq<Member>, key: string): Value {
    if ms == [] then Undefined else if ms[0].key == key then ms[0].value else Field(ms[1..], key)
  }

  predicate ExactKeys(ms: seq<Member>, allowed: set<string>) {
    forall m :: m in ms ==> m.key in allowed
  }

  const KIND := "data_engine_v2"

  /** `undefined`, or one of the two comparisons a binding may ask for. */
  function ReadComparison(v: Value): Option<Option<ComparisonType>> {
    if v == Undefined then Some(None)
    else if v == String("previous_period") then Some(Some(ComparisonType.PREVIOUS_PERIOD))
    else if v == String("previous_year") then Some(Some(ComparisonType.PREVIOUS_YEAR))
    else None
  }

  function ReadTexts(items: seq<Value>): Option<seq<string>> {
    if items == [] then Some([])
    else if !items[0].String? then None
    else
      var rest := ReadTexts(items[1..]);
      if rest.None? then None else Some([items[0].s] + rest.value)
  }

  function ReadDimensions(v: Value): Option<seq<string>> {
    if v == Undefined then Some([])
    else if !v.Array? then None
    else
      var texts := ReadTexts(v.items);
      if texts.Some? && DistinctTexts(texts.value) then texts else None
  }

  function ReadDefaults(v: Value): Option<Option<ComparisonType>> {
    if !v.Object? || !ExactKeys(v.members, {"comparison"}) then None
    else ReadComparison(Field(v.members, "comparison"))
  }

  function ReadQuery(v: Value): Option<BoundQuery> {
    if !v.Object? || !ExactKeys(v.members, {"dimensions", "comparison"}) then None
    else
      var dimensions := ReadDimensions(Field(v.members, "dimensions"));
      var comparison := ReadComparison(Field(v.members, "comparison"));
      if dimensions.None? || comparison.None? then None else Some(BoundQuery(dimensions.value, comparison.value))
  }

  function ReadShape(v: Value): Option<Shape> {
    if !v.Object? || !ExactKeys(v.members, {"shape"}) then None
    else if Field(v.members, "shape") == String("scalar") then Some(SCALAR)
    else if Field(v.members, "shape") == String("time_series") then Some(TIME_SERIES)
    else None
  }

  // ---------------------------------------------------------------- what a binding asks for

  function ComparisonOf(b: Binding): Option<ComparisonType> {
    if b.defaults.Some? then b.defaults.value else if b.query.Some? then b.query.value.comparison else None
  }

  function BindingDimensions(b: Binding): seq<string> { if b.query.Some? then b.query.value.dimensions else [] }

  function BindingShape(b: Binding): Shape { if b.presentation.Some? then b.presentation.value else SCALAR }

  /** The stored object read as a binding; None when its form is wrong. */
  function ReadBinding(v: Value): Option<Binding> {
    if !v.Object? || !ExactKeys(v.members, {"kind", "metric", "defaults", "query", "presentation"}) then None
    else
      var metric, defaults := Field(v.members, "metric"), Field(v.members, "defaults");
      var query, presentation := Field(v.members, "query"), Field(v.members, "presentation");
      if Field(v.members, "kind") != String(KIND) || !metric.String? || metric.s == "" then None
      else if defaults != Undefined && query != Undefined then None
      else
        var d := if defaults == Undefined then None else Some(ReadDefaults(defaults));
        var q := if query == Undefined then None else Some(ReadQuery(query));
        var p := if presentation == Undefined then None else Some(ReadShape(presentation));
        if d == Some(None) || q == Some(None) || p == Some(None) then None
        else
          var form := if d.None? then None else Some(d.value.value);
          Some(Binding(metric.s, form, if q.None? then None else q.value, if p.None? then None else p.value))
  }

  /** One dimension of a binding against its metric. */
  predicate Fits(metric: Metric, d: Dimension, shape: Shape, comparison: Option<ComparisonType>) {
    && d.connector == metric.connector && d.resource == metric.resource
    && (shape == TIME_SERIES ==> d.monthly) && (comparison.Some? ==> d.aligned)
  }

  function CheckKeys(registry: SemanticRegistry, metric: Metric, keys: seq<string>, shape: Shape,
                     comparison: Option<ComparisonType>): Option<Fault> {
    if keys == [] then None
    else if keys[0] !in metric.allowedDimensions then Some(BadRequest)
    else if keys[0] !in registry.dimensions then Some(UnknownDimension)
    else if !Fits(metric, registry.dimensions[keys[0]], shape, comparison) then Some(BadRequest)
    else CheckKeys(registry, metric, keys[1..], shape, comparison)
  }

  function CheckBinding(registry: SemanticRegistry, b: Binding, visualization: Option<string>): Option<Fault> {
    var comparison, dimensions, shape := ComparisonOf(b), BindingDimensions(b), BindingShape(b);
    if b.metric !in registry.metrics then Some(BadRequest)
    else
      var metric := registry.metrics[b.metric];
      if metric.certification != CERTIFIED then Some(BadRequest)
      else if comparison.Some? && comparison.value !in metric.comparisons then Some(BadRequest)
      else if metric.policy.Some? && shape !in metric.policy.value.shapes then Some(BadRequest)
      else if (shape == SCALAR && dimensions != []) || (shape == TIME_SERIES && |dimensions| != 1) then Some(BadRequest)
      else
        var fault := CheckKeys(registry, metric, dimensions, shape, comparison);
        if fault.Some? then fault
        else if visualization.Some? && visualization.value != "" && visualization.value !in metric.visualizations
        then Some(BadRequest)
        else None
  }

  /** The verdict on a stored value. */
  function Verdicted(registry: SemanticRegistry, v: Value, visualization: Option<string>): Verdict {
    if v == Undefined || v == Value.Null then Accepted(None)
    else
      var b := ReadBinding(v);
      if b.None? then Rejected(BadRequest)
      else
        var fault := CheckBinding(registry, b.value, visualization);
        if fault.Some? then Rejected(fault.value) else Accepted(b)
  }

  /** `validate`, settling the comparison, the dimensions and the shape as it reads. */
  method ValidateBinding(registry: SemanticRegistry, value: Value, visualization: Option<string>) returns (r: Verdict)
    ensures r == Verdicted(registry, value, visualization)
  {
    hide ExactKeys;
    hide Field;
    hide ReadComparison;
    hide ReadDimensions;
    hide CheckKeys;
    if value == Undefined || value == Value.Null { return Accepted(None); }
    if !value.Object? { return Rejected(BadRequest); }
    var binding := value.members;
    if !ExactKeys(binding, {"kind", "metric", "defaults", "query", "presentation"}) { return Rejected(BadRequest); }
    var name := Field(binding, "metric");
    if Field(binding, "kind") != String(KIND) || !name.String? || name.s == "" { return Rejected(BadRequest); }
    var rawDefaults, rawQuery := Field(binding, "defaults"), Field(binding, "query");
    var rawPresentation := Field(binding, "presentation");
    if rawDefaults != Undefined && rawQuery != Undefined { return Rejected(BadRequest); }
    var comparison: Option<ComparisonType> := None;
    if rawDefaults != Undefined {
      if !rawDefaults.Object? || !ExactKeys(rawDefaults.members, {"comparison"}) { return Rejected(BadRequest); }
      var raw := ReadComparison(Field(rawDefaults.members, "comparison"));
      if raw.None? { return Rejected(BadRequest); }
      comparison := raw.value;
    }
    var dimensions: seq<string> := [];
    if rawQuery != Undefined {
      if !rawQuery.Object? || !ExactKeys(rawQuery.members, {"dimensions", "comparison"}) {
        return Rejected(BadRequest);
      }
      var keys := ReadDimensions(Field(rawQuery.members, "dimensions"));
      if keys.None? { return Rejected(BadRequest); }
      dimensions := keys.value;
      var raw := ReadComparison(Field(rawQuery.members, "comparison"));
      if raw.None? { return Rejected(BadRequest); }
      comparison := raw.value;
    }
    var shape := SCALAR;
    if rawPresentation != Undefined {
      var given := ReadShape(rawPresentation);
      if given.None? { return Rejected(BadRequest); }
      shape := given.value;
    }
    var defaults := if rawDefaults != Undefined then Some(comparison) else None;
    var query := if rawQuery != Undefined then Some(BoundQuery(dimensions, comparison)) else None;
    var b := Binding(name.s, defaults, query, if rawPresentation != Undefined then Some(shape) else None);
    assert ReadBinding(value) == Some(b);
    assert ComparisonOf(b) == comparison && BindingDimensions(b) == dimensions && BindingShape(b) == shape;
    hide ReadBinding;
    hide ComparisonOf;
    hide BindingDimensions;
    hide BindingShape;
    if name.s !in registry.metrics { return Rejected(BadRequest); }
    var metric := registry.metrics[name.s];
    if metric.certification != CERTIFIED { return Rejected(BadRequest); }
    if comparison.Some? && comparison.value !in metric.comparisons { return Rejected(BadRequest); }
    if metric.policy.Some? && shape !in metric.policy.value.shapes { return Rejected(BadRequest); }
    if (shape == SCALAR && dimensions != []) || (shape == TIME_SERIES && |dimensions| != 1) {
      return Rejected(BadRequest);
    }
    var fault := FindFault(registry, metric, dimensions, shape, comparison);
    if fault.Some? { return Rejected(fault.value); }
    if visualization.Some? && visualization.value != "" && visualization.value !in metric.visualizations {
      return Rejected(BadRequest);
    }
    r := Accepted(Some(b));
  }

  method FindFault(registry: SemanticRegistry, metric: Metric, dimensions: seq<string>, shape: Shape,
                   comparison: Option<ComparisonType>)
    returns (fault: Option<Fault>)
    ensures fault == CheckKeys(registry, metric, dimensions, shape, comparison)
  {
    var i := 0;
    while i < |dimensions|
      invariant 0 <= i <= |dimensions|
      invariant CheckKeys(registry, metric, dimensions, shape, comparison)
             == CheckKeys(registry, metric, dimensions[i..], shape, comparison)
    {
      var key := dimensions[i];
      assert dimensions[i..][1..] == dimensions[i + 1..];
      if key !in metric.allowedDimensions { return Some(BadRequest); }
      if key !in registry.dimensions { return Some(UnknownDimension); }
      if !Fits(metric, registry.dimensions[key], shape, comparison) { return Some(BadRequest); }
      i := i + 1;
    }
    fault := None;
  }

  // ---------------------------------------------------------------- what a stored value says

  predicate SaysComparison(v: Value, c: Option<ComparisonType>) {
    match c
    case None => v == Undefined
    case Some(PREVIOUS_PERIOD) => v == String("previous_period")
    case Some(PREVIOUS_YEAR) => v == String("previous_year")
    case _ => false
  }

  /** No list at all, or a list of texts that are all different. */
  predicate SaysTexts(v: Value, texts: seq<string>) {
    || (v == Undefined && texts == [])
    || (v.Array? && |v.items| == |texts| && (forall i :: 0 <= i < |texts| ==> v.items[i] == String(texts[i]))
        && forall i, j :: 0 <= i < j < |texts| ==> texts[i] != texts[j])
  }

  predicate SaysDefaults(v: Value, defaults: Option<Option<ComparisonType>>) {
    if defaults.None? then v == Undefined
    else v.Object? && ExactKeys(v.members, {"comparison"})
         && SaysComparison(Field(v.members, "comparison"), defaults.value)
  }

  predicate SaysQuery(v: Value, query: Option<BoundQuery>) {
    if query.None? then v == Undefined
    else v.Object? && ExactKeys(v.members, {"dimensions", "comparison"})
         && SaysTexts(Field(v.members, "dimensions"), query.value.dimensions)
         && SaysComparison(Field(v.members, "comparison"), query.value.comparison)
  }

  predicate SaysShape(v: Value, shape: Option<Shape>) {
    if shape.None? then v == Undefined
    else v.Object? && ExactKeys(v.members, {"shape"})
         && Field(v.members, "shape") == String(if shape.value == SCALAR then "scalar" else "time_series")
  }

  /** The stored value says the binding, and nothing else. */
  predicate Says(v: Value, b: Binding) {
    && v.Object? && ExactKeys(v.members, {"kind", "metric", "defaults", "query", "presentation"})
    && Field(v.members, "kind") == String("data_engine_v2")
    && Field(v.members, "metric") == String(b.metric) && b.metric != ""
    && SaysDefaults(Field(v.members, "defaults"), b.defaults)
    && SaysQuery(Field(v.members, "query"), b.query)
    && SaysShape(Field(v.members, "presentation"), b.presentation)
    && (b.defaults.None? || b.query.None?)
  }

  lemma ComparisonIsRead(v: Value, c: Option<ComparisonType>)
    ensures ReadComparison(v) == Some(c) <==> SaysComparison(v, c)
  {
    ComparisonsDistinct();
  }

  lemma {:induction false} TextsAreRead(items: seq<Value>, texts: seq<string>)
    ensures ReadTexts(items) == Some(texts) <==>
      |items| == |texts| && forall i :: 0 <= i < |texts| ==> items[i] == String(texts[i])
  {
    if items != [] && texts != [] {
      TextsAreRead(items[1..], texts[1..]);
      assert texts == [texts[0]] + texts[1..];
      if |items| == |texts| && forall i :: 0 <= i < |texts| ==> items[i] == String(texts[i]) {
        assert forall i :: 0 <= i < |texts[1..]| ==> items[1..][i] == String(texts[1..][i]);
      }
      if ReadTexts(items) == Some(texts) {
        assert forall i :: 0 < i < |texts| ==> items[i] == items[1..][i - 1] && texts[i] == texts[1..][i - 1];
      }
    }
  }

  lemma DimensionsAreRead(v: Value, texts: seq<string>)
    ensures ReadDimensions(v) == Some(texts) <==> SaysTexts(v, texts)
  {
    if v.Array? { TextsAreRead(v.items, texts); }
    hide ReadTexts;
  }

  lemma DefaultsAreRead(v: Value, defaults: Option<ComparisonType>)
    ensures v != Undefined && ReadDefaults(v) == Some(defaults) <==> SaysDefaults(v, Some(defaults))
  {
    hide ExactKeys;
    hide Field;
    if v.Object? { ComparisonIsRead(Field(v.members, "comparison"), defaults); }
    hide ReadComparison;
    hide SaysComparison;
  }

  lemma QueryIsRead(v: Value, query: BoundQuery)
    ensures v != Undefined && ReadQuery(v) == Some(query) <==> SaysQuery(v, Some(query))
  {
    hide ExactKeys;
    hide Field;
    if v.Object? {
      ComparisonIsRead(Field(v.members, "comparison"), query.comparison);
      DimensionsAreRead(Field(v.members, "dimensions"), query.dimensions);
    }
    hide ReadComparison;
    hide SaysComparison;
    hide ReadDimensions;
    hide SaysTexts;
  }

  lemma ShapeIsRead(v: Value, shape: Shape)
    ensures v != Undefined && ReadShape(v) == Some(shape) <==> SaysShape(v, Some(shape))
  {
    hide ExactKeys;
    hide Field;
    assert |"scalar"| != |"time_series"|;
  }

  /** A stored value is read as a binding exactly when it says that binding and nothing else. */
  lemma ReadsExactlyWhatIsSaid(v: Value, b: Binding)
    ensures ReadBinding(v) == Some(b) <==> Says(v, b)
  {
    hide ExactKeys;
    hide Field;
    if v.Object? {
      var defaults, query := Field(v.members, "defaults"), Field(v.members, "query");
      if b.defaults.Some? { DefaultsAreRead(defaults, b.defaults.value); }
      if b.query.Some? { QueryIsRead(query, b.query.value); }
      if b.presentation.Some? { ShapeIsRead(Field(v.members, "presentation"), b.presentation.value); }
    }
    hide ReadDefaults;
    hide ReadQuery;
    hide ReadShape;
    hide SaysComparison;
    hide SaysTexts;
  }

  // ---------------------------------------------------------------- which bindings are accepted

  /** A binding the widget store takes, stated without an order of checks. */
  predicate Fitting(registry: SemanticRegistry, b: Binding, visualization: Option<string>) {
    && b.metric in registry.metrics
    && var metric := registry.metrics[b.metric];
    && var comparison, dimensions, series := ComparisonOf(b), BindingDimensions(b), b.presentation == Some(TIME_SERIES);
    && metric.certification == CERTIFIED
    && (comparison.Some? ==> comparison.value in metric.comparisons)
    && (metric.policy.Some? ==> (if series then TIME_SERIES else SCALAR) in metric.policy.value.shapes)
    && |dimensions| == (if series then 1 else 0)
    && (visualization.Some? && visualization.value != "" ==> visualization.value in metric.visualizations)
    && forall k :: k in dimensions ==>
         && k in metric.allowedDimensions && k in registry.dimensions
         && var d := registry.dimensions[k];
            d.connector == metric.connector && d.resource == metric.resource && d.monthly
            && (comparison.Some? ==> d.aligned)
  }

  /** The store accepts nothing, as nothing, and exactly the fitting bindings. */
  lemma StoreAcceptsExactly(registry: SemanticRegistry, v: Value, visualization: Option<string>, b: Binding)
    ensures Verdicted(registry, v, visualization) == Accepted(Some(b)) <==>
      Says(v, b) && Fitting(registry, b, visualization)
    ensures Verdicted(registry, v, visualization) == Accepted(None) <==> v == Undefined || v == Value.Null
  {
    hide ReadBinding;
    hide ExactKeys;
    hide Field;
    hide SaysDefaults;
    hide SaysQuery;
    hide SaysShape;
    ReadsExactlyWhatIsSaid(v, b);
    hide CheckBinding;
    hide Fitting;
    FittingIsChecked(registry, b, visualization);
  }

  lemma FittingIsChecked(registry: SemanticRegistry, b: Binding, visualization: Option<string>)
    ensures CheckBinding(registry, b, visualization).None? <==> Fitting(registry, b, visualization)
  {
    if b.metric in registry.metrics {
      var keys := BindingDimensions(b);
      KeysPass(registry, registry.metrics[b.metric], keys, BindingShape(b), ComparisonOf(b));
      hide CheckKeys;
      if Fitting(registry, b, visualization) { assert BindingShape(b) == SCALAR ==> keys == []; }
    }
  }

  // ---------------------------------------------------------------- storing and reading back

  function ComparisonMember(c: Option<ComparisonType>): seq<Member> {
    if c.None? then [] else [Member("comparison", String(Fingerprint.ComparisonText(c.value)))]
  }

  function TextValues(texts: seq<string>): (r: seq<Value>)
    ensures |r| == |texts| && forall i :: 0 <= i < |r| ==> r[i] == String(texts[i])
  {
    seq(|texts|, i requires 0 <= i < |texts| => String(texts[i]))
  }

  function ShapeText(s: Shape): string { if s == SCALAR then "scalar" else "time_series" }

  function Head(b: Binding): seq<Member> { [Member("kind", String(KIND)), Member("metric", String(b.metric))] }

  function Defaults(b: Binding): seq<Member> {
    if b.defaults.None? then [] else [Member("defaults", Object(ComparisonMember(b.defaults.value)))]
  }

  function QueryMembers(q: BoundQuery): seq<Member> {
    [Member("dimensions", Array(TextValues(q.dimensions)))] + ComparisonMember(q.comparison)
  }

  function Query(b: Binding): seq<Member> {
    if b.query.None? then []
    else [Member("query", Object(QueryMembers(b.query.value)))]
  }

  function Presentation(b: Binding): seq<Member> {
    if b.presentation.None? then []
    else [Member("presentation", Object([Member("shape", String(ShapeText(b.presentation.value)))]))]
  }

  /** The object `validate` returns, as it is stored. */
  function ToJson(b: Binding): Value {
    Object(Head(b) + Defaults(b) + Query(b) + Presentation(b))
  }

  /** Only comparisons a binding can carry, and never both contracts at once. */
  predicate Storable(b: Binding) {
    && b.metric != "" && (b.defaults.None? || b.query.None?)
    && (ComparisonOf(b).Some? ==>
          ComparisonOf(b).value in {ComparisonType.PREVIOUS_PERIOD, ComparisonType.PREVIOUS_YEAR})
    && DistinctTexts(BindingDimensions(b))
  }

  lemma {:induction false} ReadsTexts(texts: seq<string>)
    ensures ReadTexts(TextValues(texts)) == Some(texts)
  {
    if texts != [] {
      assert TextValues(texts)[1..] == TextValues(texts[1..]);
      ReadsTexts(texts[1..]);
      assert texts == [texts[0]] + texts[1..];
    }
  }

  lemma ComparisonsDistinct()
    ensures "previous_period" != "previous_year"
  {
    assert |"previous_period"| != |"previous_year"|;
  }

  lemma ReadsComparison(c: Option<ComparisonType>)
    requires c.Some? ==> c.value in {ComparisonType.PREVIOUS_PERIOD, ComparisonType.PREVIOUS_YEAR}
    ensures ExactKeys(ComparisonMember(c), {"comparison"})
    ensures ReadComparison(Field(ComparisonMember(c), "comparison")) == Some(c)
  {
    ComparisonsDistinct();
  }

  lemma ReadsQuery(q: BoundQuery)
    requires q.comparison.Some? ==> q.comparison.value in {ComparisonType.PREVIOUS_PERIOD, ComparisonType.PREVIOUS_YEAR}
    requires DistinctTexts(q.dimensions)
    ensures ReadQuery(Object(QueryMembers(q))) == Some(q)
  {
    var ms := QueryMembers(q);
    assert "dimensions"[0] != "comparison"[0];
    assert ms[1..] == ComparisonMember(q.comparison);
    ReadsComparison(q.comparison);
    ReadsTexts(q.dimensions);
    assert Field(ms, "comparison") == Field(ms[1..], "comparison");
  }

  lemma ReadsShape(s: Shape)
    ensures ReadShape(Object([Member("shape", String(ShapeText(s)))])) == Some(s)
  {
    assert |"scalar"| != |"time_series"|;
  }

  // ---------------------------------------------------------------- idempotence

  lemma {:induction false} FieldOfConcat(a: seq<Member>, b: seq<Member>, key: string)
    requires forall m :: m in a ==> m.value != Undefined
    ensures Field(a + b, key) == if Field(a, key) != Undefined then Field(a, key) else Field(b, key)
  {
    if a == [] {
      assert a + b == b;
    } else {
      assert (a + b)[1..] == a[1..] + b;
      FieldOfConcat(a[1..], b, key);
    }
  }

  lemma KeysApart()
    ensures "kind"[0] == 'k' && "metric"[0] == 'm' && "defaults"[0] == 'd' && "query"[0] == 'q'
    ensures "presentation"[0] == 'p'
  {
  }

  lemma FieldOfOne(k: string, v: Value, key: string)
    ensures Field([Member(k, v)], key) == if k == key then v else Undefined
  {
    assert [Member(k, v)][1..] == [];
  }

  lemma FieldsOfHead(b: Binding, key: string)
    ensures Field(Head(b), key) == if key == "kind" then String(KIND)
                                   else if key == "metric" then String(b.metric)
                                   else Undefined
  {
    assert Head(b)[1..] == [Member("metric", String(b.metric))];
    FieldOfOne("metric", String(b.metric), key);
  }

  lemma FieldsOfParts(b: Binding, key: string)
    ensures key != "defaults" || b.defaults.None? ==> Field(Defaults(b), key) == Undefined
    ensures key != "query" || b.query.None? ==> Field(Query(b), key) == Undefined
    ensures key != "presentation" || b.presentation.None? ==> Field(Presentation(b), key) == Undefined
  {
    if b.defaults.Some? { FieldOfOne("defaults", Defaults(b)[0].value, key); }
    if b.query.Some? { FieldOfOne("query", Query(b)[0].value, key); }
    if b.presentation.Some? { FieldOfOne("presentation", Presentation(b)[0].value, key); }
  }

  lemma FieldsStored(b: Binding, key: string)
    requires key in {"kind", "metric", "defaults", "query", "presentation"}
    ensures var ms := ToJson(b).members;
      Field(ms, key) == if key == "kind" then String(KIND)
                        else if key == "metric" then String(b.metric)
                        else if key == "defaults" then Field(Defaults(b), key)
                        else if key == "query" then Field(Query(b), key)
                        else Field(Presentation(b), key)
  {
    KeysApart();
    FieldOfConcat(Head(b) + Defaults(b) + Query(b), Presentation(b), key);
    FieldOfConcat(Head(b) + Defaults(b), Query(b), key);
    FieldOfConcat(Head(b), Defaults(b), key);
    FieldsOfHead(b, key);
    FieldsOfParts(b, key);
    hide Field;
    hide Head;
    hide Defaults;
    hide Query;
    hide Presentation;
  }

  lemma KeysStored(b: Binding)
    ensures ExactKeys(ToJson(b).members, {"kind", "metric", "defaults", "query", "presentation"})
  {
  }

  lemma StoredFields(b: Binding)
    ensures var ms := ToJson(b).members;
      && Field(ms, "kind") == String(KIND) && Field(ms, "metric") == String(b.metric)
      && Field(ms, "defaults") == (if b.defaults.Some? then Defaults(b)[0].value else Undefined)
      && Field(ms, "query") == (if b.query.Some? then Query(b)[0].value else Undefined)
      && Field(ms, "presentation") == (if b.presentation.Some? then Presentation(b)[0].value else Undefined)
  {
    FieldsStored(b, "kind");
    FieldsStored(b, "metric");
    FieldsStored(b, "defaults");
    FieldsStored(b, "query");
    FieldsStored(b, "presentation");
    KeysApart();
    hide ToJson;
    hide ComparisonMember;
    if b.defaults.Some? { FieldOfOne("defaults", Defaults(b)[0].value, "defaults"); }
    if b.query.Some? { FieldOfOne("query", Query(b)[0].value, "query"); }
    if b.presentation.Some? { FieldOfOne("presentation", Presentation(b)[0].value, "presentation"); }
    hide Field;
  }

  /** A stored binding reads back as itself. */
  lemma ReadsWhatIsStored(b: Binding)
    requires Storable(b)
    ensures ReadBinding(ToJson(b)) == Some(b)
  {
    KeysStored(b);
    StoredFields(b);
    KeysApart();
    assert ToJson(b).Object?;
    hide ToJson;
    hide ExactKeys;
    hide Field;
    hide ReadQuery;
    hide ReadShape;
    hide ReadComparison;
    hide ComparisonMember;
    if b.defaults.Some? { ReadsComparison(b.defaults.value); }
    if b.query.Some? { ReadsQuery(b.query.value); }
    if b.presentation.Some? { ReadsShape(b.presentation.value); }
  }

  lemma ReadingsAreStorable(v: Value)
    ensures ReadBinding(v).Some? ==> Storable(ReadBinding(v).value)
  {
    hide ExactKeys;
    hide Field;
  }

  /** Validation is idempotent: what it returns is accepted again, unchanged, and the public value of
      a stored binding is that binding. */
  lemma ValidationIsIdempotent(registry: SemanticRegistry, v: Value, visualization: Option<string>)
    requires Verdicted(registry, v, visualization).Accepted? && Verdicted(registry, v, visualization).binding.Some?
    ensures var b := Verdicted(registry, v, visualization).binding.value;
      && Verdicted(registry, ToJson(b), visualization) == Accepted(Some(b))
      && PublicValue(registry, ToJson(b), visualization) == Shown(b)
  {
    hide ReadBinding;
    hide CheckBinding;
    hide Storable;
    ReadingsAreStorable(v);
    ReadsWhatIsStored(ReadBinding(v).value);
  }

  /** What the widget store shows: nothing, a binding, or `unavailable` whatever the fault. */
  datatype Public = Nothing | Shown(binding: Binding) | Unavailable

  function PublicValue(registry: SemanticRegistry, v: Value, visualization: Option<string>): Public {
    match Verdicted(registry, v, visualization)
    case Accepted(None) => Nothing
    case Accepted(Some(b)) => Shown(b)
    case Rejected(_) => Unavailable
  }

  // ---------------------------------------------------------------- the engine serves accepted bindings

  /** The request a widget sends for its binding and a period. */
  function RequestOf(b: Binding, period: PeriodDefinition): Request {
    Request("2", {}, b.metric, BindingDimensions(b), [], Some(period), ComparisonOf(b), None, None, None)
  }

  lemma {:induction false} KeysPass(registry: SemanticRegistry, metric: Metric, keys: seq<string>, shape: Shape,
                                    comparison: Option<ComparisonType>)
    ensures CheckKeys(registry, metric, keys, shape, comparison).None? <==>
      forall k :: k in keys ==>
        && k in metric.allowedDimensions && k in registry.dimensions
        && Fits(metric, registry.dimensions[k], shape, comparison)
  {
    if keys != [] {
      var first := keys[0];
      assert first in keys && forall k :: k in keys <==> k == first || k in keys[1..];
      KeysPass(registry, metric, keys[1..], shape, comparison);
    }
  }

  lemma AcceptedMeans(registry: SemanticRegistry, b: Binding, visualization: Option<string>)
    requires CheckBinding(registry, b, visualization).None?
    ensures b.metric in registry.metrics && registry.metrics[b.metric].certification == CERTIFIED
    ensures var metric := registry.metrics[b.metric];
      && (ComparisonOf(b).Some? ==> ComparisonOf(b).value in metric.comparisons)
      && BindingShape(b) == ShapeOf(BindingDimensions(b))
      && (metric.policy.Some? ==> BindingShape(b) in metric.policy.value.shapes)
      && (forall k :: k in BindingDimensions(b) ==>
            && k in metric.allowedDimensions && k in registry.dimensions
            && Fits(metric, registry.dimensions[k], BindingShape(b), ComparisonOf(b)))
  {
    KeysPass(registry, registry.metrics[b.metric], BindingDimensions(b), BindingShape(b), ComparisonOf(b));
  }

  /** The resource the registry finds for the metric is the one the metric names. */
  predicate FindsItsResource(registry: SemanticRegistry, metric: Metric) {
    var found := registry.ResourceNamed(metric.connector, metric.resource);
    found.Ok? && found.value.connector == metric.connector && found.value.key == metric.resource
  }

  /** What an accepted binding still needs to be served: a permitted user, a valid period, a metric
      with a date dimension and a resource, the very resource it names once there are dimensions. */
  predicate Servable(registry: SemanticRegistry, b: Binding, metric: Metric, period: PeriodDefinition, user: User) {
    && user.Authenticated() && user.May(metric.permission)
    && ValidPeriod(Some(period)) && metric.dateDimension.Some?
    && registry.ResourceNamed(metric.connector, metric.resource).Ok?
    && (BindingDimensions(b) == [] || FindsItsResource(registry, metric))
  }

  lemma ServableIsAcceptable(registry: SemanticRegistry, b: Binding, visualization: Option<string>,
                             period: PeriodDefinition, user: User)
    requires CheckBinding(registry, b, visualization).None? && Storable(b)
    ensures Acceptable(registry, RequestOf(b, period), user, false)
       <==> b.metric in registry.metrics && Servable(registry, b, registry.metrics[b.metric], period, user)
  {
    hide CheckBinding;
    AcceptedMeans(registry, b, visualization);
    var metric, request := registry.metrics[b.metric], RequestOf(b, period);
    if registry.ResourceNamed(metric.connector, metric.resource).Ok? {
      var resource := registry.ResourceNamed(metric.connector, metric.resource).value;
      forall k | k in request.dimensions
        ensures GoodDimension(registry, metric, resource, k) <==> FindsItsResource(registry, metric)
      {
      }
      assert FitsPolicy(registry, metric, request);
      hide FitsPolicy;
      if BindingDimensions(b) != [] { assert BindingDimensions(b)[0] in request.dimensions; }
      hide GoodDimension;
      hide FindsItsResource;
      assert (forall k :: k in request.dimensions ==> GoodDimension(registry, metric, resource, k))
        <==> BindingDimensions(b) == [] || FindsItsResource(registry, metric);
    }
  }

  /** A binding the store accepts becomes a request the query validator accepts if and only if the
      user is permitted, the period valid, and the metric finds its date dimension and its resource. */
  lemma AcceptedBindingsAreServedExactlyWhen(registry: SemanticRegistry, v: Value, visualization: Option<string>,
                                             b: Binding, period: PeriodDefinition, user: User)
    requires Verdicted(registry, v, visualization) == Accepted(Some(b))
    ensures b.metric in registry.metrics
    ensures Validate(registry, RequestOf(b, period), user, false).Ok?
       <==> Servable(registry, b, registry.metrics[b.metric], period, user)
  {
    hide ReadBinding;
    hide Validate;
    hide CheckBinding;
    hide Acceptable;
    hide Servable;
    hide Storable;
    ReadingsAreStorable(v);
    AcceptedMeans(registry, b, visualization);
    AcceptsExactly(registry, RequestOf(b, period), user, false);
    ServableIsAcceptable(registry, b, visualization, period, user);
  }

  /** Without colons in connectors every accepted binding is served, to a permitted user, for a valid
      period, when the metric's resource and date dimension exist. */
  lemma AcceptedBindingsAreServed(registry: SemanticRegistry, v: Value, visualization: Option<string>, b: Binding,
                                  period: PeriodDefinition, user: User)
    requires Verdicted(registry, v, visualization) == Accepted(Some(b))
    requires registry.Registered() && registry.PlainConnectors()
    requires b.metric in registry.metrics ==> var metric := registry.metrics[b.metric];
      && ':' !in metric.connector && metric.dateDimension.Some?
      && registry.ResourceNamed(metric.connector, metric.resource).Ok? && user.May(metric.permission)
    requires user.Authenticated() && ValidPeriod(Some(period))
    ensures Validate(registry, RequestOf(b, period), user, false).Ok?
  {
    hide Verdicted;
    hide Validate;
    AcceptedBindingsAreServedExactlyWhen(registry, v, visualization, b, period, user);
    var metric := registry.metrics[b.metric];
    ResourceIsTheOneNamed(registry, metric.connector, metric.resource);
  }

  /** A connector with a colon can make the validator refuse a binding the store accepted. */
  lemma ColonMisleads() returns (registry: SemanticRegistry, b: Binding, user: User)
    ensures registry.Registered() && b.metric in registry.metrics
    ensures var metric := registry.metrics[b.metric];
      && user.May(metric.permission) && registry.ResourceNamed(metric.connector, metric.resource).Ok?
      && metric.dateDimension.Some?
    ensures user.Authenticated() && Verdicted(registry, ToJson(b), None) == Accepted(Some(b))
    ensures !Validate(registry, RequestOf(b, Relative(TODAY)), user, false).Ok?
  {
    hide Validate;
    hide ReadBinding;
    hide CheckKeys;
    var metric := Metric("m", MeasureType.NUMBER, SUM, ["d"], [], {}, [], "c", "x:r", "m", Some("t"), None, None,
                         CERTIFIED, false, ("read", "m"));
    var dimension := Dimension("d", NUMERIC, "c", "x:r", "d", {}, false, true);
    var resource := Resource("c:x", "r", "1", "T", map[], false, []);
    registry := SemanticRegistry("1", map["m" := metric], map["d" := dimension], map["c:x:r" := resource]);
    user := User("u", Some("o"), {("read", "m")});
    b := Binding("m", None, Some(BoundQuery(["d"], None)), Some(TIME_SERIES));
    assert ResourceId("c", "x:r") == "c:x:r" == ResourceId("c:x", "r");
    ReadsWhatIsStored(b);
    assert ToJson(b).Object?;
    hide ToJson;
    KeysPass(registry, metric, ["d"], TIME_SERIES, None);
    assert CheckBinding(registry, b, None).None?;
    hide CheckBinding;
    AcceptedBindingsAreServedExactlyWhen(registry, ToJson(b), None, b, Relative(TODAY), user);
    assert |"c:x"| != |"c"|;
  }
}
