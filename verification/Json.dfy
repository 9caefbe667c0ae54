/** JSON values, the text `canonical` prints for them, and the proof that this text
    identifies a value up to the order of object keys and to undefined fields. */
module Json {
  import opened Sorting
  import opened Text

  datatype Member = Member(key: string, value: Value)

  /** A JavaScript value made of plain data. An object lists its own entries in insertion order. */
  datatype Value =
    | Undefined
    | Null
    | Bool(b: bool)
    | Number(n: int)
    | String(s: string)
    | Array(items: seq<Value>)
    | Object(members: seq<Member>)

  /** What a value says: an object is a map, and its undefined fields are absent. */
  datatype Meaning =
    | MNull
    | MBool(b: bool)
    | MNumber(n: int)
    | MString(s: string)
    | MArray(items: seq<Meaning>)
    | MObject(fields: map<string, Meaning>)

  /** The order used to sort keys. */
  type Order = (string, string) -> bool

  ghost predicate TotalOrder(le: Order) {
    && (forall a, b :: le(a, b) || le(b, a))
    && (forall a, b :: le(a, b) && le(b, a) ==> a == b)
    && (forall a, b, c :: le(a, b) && le(b, c) ==> le(a, c))
  }

  // ---------------------------------------------------------------- well-formed values

  predicate UniqueKeys(ms: seq<Member>) {
    forall i, j :: 0 <= i < j < |ms| ==> ms[i].key != ms[j].key
  }

  /** No undefined array element, and object keys used once, at every depth. */
  ghost predicate Plain(v: Value) {
    match v
    case Undefined => false
    case Array(items) => forall x :: x in items ==> Plain(x)
    case Object(ms) => UniqueKeys(ms) && forall m :: m in ms && m.value != Undefined ==> Plain(m.value)
    case _ => true
  }

  /** Plain members of the object `whole`. */
  ghost predicate PlainIn(whole: Value, ms: seq<Member>) {
    forall m :: m in ms ==> m.value < whole && Plain(m.value)
  }

  ghost predicate SameFields(a: seq<Member>, b: seq<Member>)
    requires |a| == |b|
    requires (forall m :: m in a ==> Plain(m.value)) && (forall m :: m in b ==> Plain(m.value))
  {
    a == [] || (a[0].key == b[0].key && MeaningOf(a[0].value) == MeaningOf(b[0].value) && SameFields(a[1..], b[1..]))
  }

  ghost predicate SameElements(a: seq<Member>, b: seq<Member>) {
    forall m :: m in a <==> m in b
  }

  // ---------------------------------------------------------------- meaning

  ghost function MeaningOf(v: Value): Meaning
    requires Plain(v)
    decreases v, 0
  {
    match v
    case Null => MNull
    case Bool(b) => MBool(b)
    case Number(n) => MNumber(n)
    case String(s) => MString(s)
    case Array(items) => MArray(MeaningsOf(items))
    case Object(ms) => MObject(FieldsOf(v, Defined(ms)))
  }

  ghost function MeaningsOf(items: seq<Value>): (r: seq<Meaning>)
    requires forall x :: x in items ==> Plain(x)
    ensures |r| == |items|
    decreases items, 1
  {
    if items == [] then [] else [MeaningOf(items[0])] + MeaningsOf(items[1..])
  }

  function KeysOf(ms: seq<Member>): set<string> {
    if ms == [] then {} else {ms[0].key} + KeysOf(ms[1..])
  }

  lemma {:induction false} KeyHasMember(ms: seq<Member>, k: string) returns (i: nat)
    requires k in KeysOf(ms)
    ensures i < |ms| && ms[i].key == k
  {
    if ms[0].key == k {
      i := 0;
    } else {
      var j := KeyHasMember(ms[1..], k);
      i := j + 1;
    }
  }

  lemma {:induction false} MemberHasKey(ms: seq<Member>, i: nat)
    requires i < |ms|
    ensures ms[i].key in KeysOf(ms)
  {
    if i > 0 { MemberHasKey(ms[1..], i - 1); }
  }

  /** The fields of some members of the object `whole`. */
  ghost function FieldsOf(whole: Value, ms: seq<Member>): (r: map<string, Meaning>)
    requires PlainIn(whole, ms)
    ensures r.Keys == KeysOf(ms)
    decreases whole, 0, |ms|
  {
    if ms == [] then map[]
    else FieldsOf(whole, ms[1..])[ms[0].key := MeaningOf(ms[0].value)]
  }

  // ---------------------------------------------------------------- printing

  function Hex(d: nat): char
    requires d < 16
  {
    "0123456789abcdef"[d]
  }

  /** One character of a JSON string (section 7 of RFC 8259, in the form JSON.stringify picks). */
  function Escaped(c: char): (s: string)
    ensures |s| > 0 && s[0] != '"'
  {
    if c == '"' then "\\\""
    else if c == '\\' then "\\\\"
    else if c == 8 as char then "\\b"
    else if c == '\t' then "\\t"
    else if c == '\n' then "\\n"
    else if c == 12 as char then "\\f"
    else if c == '\r' then "\\r"
    else if c < ' ' then "\\u00" + [Hex(c as int / 16), Hex(c as int % 16)]
    else [c]
  }

  function EscapedText(s: string): string {
    if s == [] then [] else Escaped(s[0]) + EscapedText(s[1..])
  }

  function Quoted(s: string): string { "\"" + EscapedText(s) + "\"" }

  function Defined(ms: seq<Member>): (r: seq<Member>)
    ensures forall m :: m in r <==> m in ms && m.value != Undefined
  {
    if ms == [] then []
    else if ms[0].value == Undefined then Defined(ms[1..])
    else [ms[0]] + Defined(ms[1..])
  }

  function ByKey(le: Order): (Member, Member) -> bool {
    (a: Member, b: Member) => le(a.key, b.key)
  }

  /** `sort(([a], [b]) => a.localeCompare(b))`. */
  function SortMembers(ms: seq<Member>, le: Order): (r: seq<Member>)
    ensures forall m :: m in r <==> m in ms
  {
    Sorted(ms, ByKey(le))
  }

  function Canonical(v: Value, le: Order): string
    decreases v, 0
  {
    match v
    case Undefined => "undefined"
    case Null => "null"
    case Bool(b) => if b then "true" else "false"
    case Number(n) => Integer(n)
    case String(s) => Quoted(s)
    case Array(items) => "[" + CanonicalItems(items, le) + "]"
    case Object(ms) =>
      "{" + CanonicalMembers(v, SortMembers(Defined(ms), le), le) + "}"
  }

  /** The elements of an array, joined by commas. */
  function CanonicalItems(items: seq<Value>, le: Order): string
    decreases items, 1
  {
    if items == [] then ""
    else Canonical(items[0], le) + if |items| == 1 then "" else "," + CanonicalItems(items[1..], le)
  }

  /** `key:value` pairs of the object `whole`, joined by commas. */
  function CanonicalMembers(whole: Value, ms: seq<Member>, le: Order): string
    requires forall m :: m in ms ==> m.value < whole
    decreases whole, 0, |ms|
  {
    if ms == [] then ""
    else Quoted(ms[0].key) + ":" + Canonical(ms[0].value, le) +
         if |ms| == 1 then "" else "," + CanonicalMembers(whole, ms[1..], le)
  }

  // ---------------------------------------------------------------- printing in front of a text

  lemma Reassociate(a: string, b: string, c: string)
    ensures (a + b) + c == a + (b + c)
  {
  }

  lemma Behind(c: char, x: string)
    ensures ([c] + x)[0] == c && ([c] + x)[1..] == x
  {
  }

  function TextBefore(s: string, x: string): string {
    if s == [] then ['"'] + x else Escaped(s[0]) + TextBefore(s[1..], x)
  }

  function ValueBefore(v: Value, x: string, le: Order): string
    decreases v, 0
  {
    match v
    case String(s) => ['"'] + TextBefore(s, x)
    case Array(items) => ['['] + ItemsBefore(items, x, le)
    case Object(ms) =>
      ['{'] + MembersBefore(v, SortMembers(Defined(ms), le), x, le)
    case _ => Canonical(v, le) + x
  }

  function ItemsBefore(items: seq<Value>, x: string, le: Order): string
    decreases items, 1
  {
    if items == [] then [']'] + x
    else ValueBefore(items[0], if |items| == 1 then [']'] + x else [','] + ItemsBefore(items[1..], x, le), le)
  }

  function MembersBefore(whole: Value, ms: seq<Member>, x: string, le: Order): string
    requires forall m :: m in ms ==> m.value < whole
    decreases whole, 0, |ms|
  {
    if ms == [] then ['}'] + x
    else
      var rest := if |ms| == 1 then ['}'] + x else [','] + MembersBefore(whole, ms[1..], x, le);
      ['"'] + TextBefore(ms[0].key, [':'] + ValueBefore(ms[0].value, rest, le))
  }

  lemma {:induction false} TextBeforeIsQuoted(s: string, x: string)
    ensures EscapedText(s) + (['"'] + x) == TextBefore(s, x)
  {
    if s != [] {
      TextBeforeIsQuoted(s[1..], x);
      Reassociate(Escaped(s[0]), EscapedText(s[1..]), ['"'] + x);
    }
  }

  lemma QuotedBefore(s: string, x: string)
    ensures Quoted(s) + x == ['"'] + TextBefore(s, x)
  {
    TextBeforeIsQuoted(s, x);
    Reassociate("\"" + EscapedText(s), "\"", x);
    Reassociate("\"", EscapedText(s), "\"" + x);
  }

  lemma {:induction false} ValueBeforeIsCanonical(v: Value, x: string, le: Order)
    ensures Canonical(v, le) + x == ValueBefore(v, x, le)
    decreases v, 0
  {
    match v
    case String(s) => QuotedBefore(s, x);
    case Array(items) =>
      ItemsBeforeIsCanonical(items, x, le);
      Reassociate("[" + CanonicalItems(items, le), "]", x);
      Reassociate("[", CanonicalItems(items, le), "]" + x);
    case Object(ms) =>
      var t := CanonicalMembers(v, SortMembers(Defined(ms), le), le);
      MembersBeforeIsCanonical(v, SortMembers(Defined(ms), le), x, le);
      Reassociate("{" + t, "}", x);
      Reassociate("{", t, "}" + x);
    case _ =>
  }

  lemma {:induction false} ItemsBeforeIsCanonical(items: seq<Value>, x: string, le: Order)
    ensures CanonicalItems(items, le) + ("]" + x) == ItemsBefore(items, x, le)
    decreases items, 1
  {
    if items != [] {
      var head := Canonical(items[0], le);
      if |items| == 1 {
        ValueBeforeIsCanonical(items[0], "]" + x, le);
        assert CanonicalItems(items, le) == head;
      } else {
        var tail := CanonicalItems(items[1..], le);
        ItemsBeforeIsCanonical(items[1..], x, le);
        ValueBeforeIsCanonical(items[0], "," + ItemsBefore(items[1..], x, le), le);
        Reassociate(head, "," + tail, "]" + x);
        Reassociate(",", tail, "]" + x);
      }
    }
  }

  lemma {:induction false} MembersBeforeIsCanonical(whole: Value, ms: seq<Member>, x: string, le: Order)
    requires forall m :: m in ms ==> m.value < whole
    ensures CanonicalMembers(whole, ms, le) + ("}" + x) == MembersBefore(whole, ms, x, le)
    decreases whole, 0, |ms|
  {
    if ms != [] {
      var key, value := Quoted(ms[0].key), Canonical(ms[0].value, le);
      var rest := if |ms| == 1 then "" else "," + CanonicalMembers(whole, ms[1..], le);
      if |ms| > 1 {
        MembersBeforeIsCanonical(whole, ms[1..], x, le);
        Reassociate(",", CanonicalMembers(whole, ms[1..], le), "}" + x);
      }
      var after := rest + ("}" + x);
      ValueBeforeIsCanonical(ms[0].value, after, le);
      QuotedBefore(ms[0].key, ":" + (value + after));
      Reassociate(key + ":" + value, rest, "}" + x);
      Reassociate(key + ":", value, after);
      Reassociate(key, ":", value + after);
      assert after == if |ms| == 1 then "}" + x else "," + MembersBefore(whole, ms[1..], x, le);
    }
  }

  // ---------------------------------------------------------------- the text can be read back

  /** What may follow a printed value. */
  predicate Stops(x: string) { x == [] || x[0] in {',', ']', '}'} }

  function Unescape(c: char): char {
    match c
    case 'b' => 8 as char
    case 't' => '\t'
    case 'n' => '\n'
    case 'f' => 12 as char
    case 'r' => '\r'
    case _ => c
  }

  /** The first characters of an escape tell the character and the length of its escape. */
  lemma EscapeShape(c: char, x: string)
    ensures var s := Escaped(c) + x;
      && s[|Escaped(c)|..] == x
      && (s[0] != '\\' ==> c == s[0] && |Escaped(c)| == 1)
      && (s[0] == '\\' ==> |s| > 1 && (s[1] != 'u' ==> |Escaped(c)| == 2 && c == Unescape(s[1])))
      && (s[0] == '\\' && s[1] == 'u' ==>
            && |s| >= 6 && |Escaped(c)| == 6 && c < ' '
            && s[4] == Hex(c as int / 16) && s[5] == Hex(c as int % 16))
  {
    if c == '"' || c == '\\' || c == 8 as char || c == '\t' || c == '\n' || c == 12 as char || c == '\r' {
      assert |Escaped(c)| == 2;
    } else if c < ' ' {
      assert |Escaped(c)| == 6;
    } else {
      assert Escaped(c) == [c];
    }
  }

  lemma HexCode(d: nat)
    requires d < 16
    ensures Hex(d) as int == if d < 10 then '0' as int + d else 'a' as int + d - 10
  {
  }

  lemma HexIdentifies(c: char, d: char)
    requires c < ' ' && d < ' ' && Hex(c as int / 16) == Hex(d as int / 16) && Hex(c as int % 16) == Hex(d as int % 16)
    ensures c == d
  {
    hide Hex;
    HexCode(c as int / 16);
    HexCode(d as int / 16);
    HexCode(c as int % 16);
    HexCode(d as int % 16);
    assert c as int == d as int;
  }

  lemma EscapedUnambiguous(c: char, x: string, d: char, y: string)
    requires Escaped(c) + x == Escaped(d) + y
    ensures c == d && x == y
  {
    EscapeShape(c, x);
    EscapeShape(d, y);
    hide Escaped;
    hide Hex;
    if c < ' ' && d < ' ' && Hex(c as int / 16) == Hex(d as int / 16) && Hex(c as int % 16) == Hex(d as int % 16) {
      HexIdentifies(c, d);
    }
  }

  lemma {:induction false} TextUnambiguous(s: string, x: string, t: string, y: string)
    requires TextBefore(s, x) == TextBefore(t, y)
    ensures s == t && x == y
  {
    assert TextBefore(s, x)[0] == '"' <==> s == [];
    assert TextBefore(t, y)[0] == '"' <==> t == [];
    if s == [] {
      Behind('"', x);
      Behind('"', y);
    } else {
      EscapedUnambiguous(s[0], TextBefore(s[1..], x), t[0], TextBefore(t[1..], y));
      TextUnambiguous(s[1..], x, t[1..], y);
      assert s == [s[0]] + s[1..] && t == [t[0]] + t[1..];
    }
  }

  /** The first character of a printed value tells which kind of value it is. */
  lemma KindIsVisible(v: Value, x: string, le: Order)
    requires Plain(v)
    ensures ValueBefore(v, x, le) != []
    ensures var c := ValueBefore(v, x, le)[0];
      && (c == 'n' <==> v.Null?)
      && (c == 't' <==> v == Bool(true)) && (c == 'f' <==> v == Bool(false))
      && (c == '-' || IsDigit(c) <==> v.Number?)
      && (c == '"' <==> v.String?) && (c == '[' <==> v.Array?) && (c == '{' <==> v.Object?)
      && c !in {',', ']', '}'}
  {
    if v.Number? {
      IntegerSign(v.n, x);
      if v.n >= 0 { assert IsDigit(Decimal(v.n)[0]); }
    }
  }

  lemma {:induction false} ValueUnambiguous(a: Value, x: string, b: Value, y: string, le: Order)
    requires Plain(a) && Plain(b)
    requires ValueBefore(a, x, le) == ValueBefore(b, y, le)
    requires Stops(x) && Stops(y)
    ensures MeaningOf(a) == MeaningOf(b) && x == y
    decreases a, 2
  {
    KindIsVisible(a, x, le);
    KindIsVisible(b, y, le);
    match a
    case Null =>
      assert ("null" + x)[4..] == x && ("null" + y)[4..] == y;
    case Bool(t) =>
      var n := if t then 4 else 5;
      assert (Canonical(a, le) + x)[n..] == x && (Canonical(b, le) + y)[n..] == y;
    case Number(n) => IntegerUnambiguous(n, x, b.n, y);
    case String(t) =>
      Behind('"', TextBefore(t, x));
      Behind('"', TextBefore(b.s, y));
      TextUnambiguous(t, x, b.s, y);
    case Array(items) =>
      Behind('[', ItemsBefore(items, x, le));
      Behind('[', ItemsBefore(b.items, y, le));
      ItemsUnambiguous(items, x, b.items, y, le);
    case Object(ms) => ObjectUnambiguous(a, x, b, y, le);
  }

  lemma {:induction false} ObjectUnambiguous(a: Value, x: string, b: Value, y: string, le: Order)
    requires a.Object? && b.Object? && Plain(a) && Plain(b)
    requires ValueBefore(a, x, le) == ValueBefore(b, y, le)
    ensures MeaningOf(a) == MeaningOf(b) && x == y
    decreases a, 1
  {
    var p, q := Defined(a.members), Defined(b.members);
    var p', q' := SortMembers(p, le), SortMembers(q, le);
    Behind('{', MembersBefore(a, p', x, le));
    Behind('{', MembersBefore(b, q', y, le));
    MembersUnambiguous(a, p', x, b, q', y, le);
    DefinedKeepsKeysUnique(a.members);
    DefinedKeepsKeysUnique(b.members);
    SameMembersSameFields(a, p, p', b, q, q');
  }

  lemma {:induction false} ItemsUnambiguous(a: seq<Value>, x: string, b: seq<Value>, y: string, le: Order)
    requires (forall v :: v in a ==> Plain(v)) && (forall v :: v in b ==> Plain(v))
    requires ItemsBefore(a, x, le) == ItemsBefore(b, y, le)
    ensures MeaningsOf(a) == MeaningsOf(b) && x == y
    decreases a, 3
  {
    Behind(']', x);
    Behind(']', y);
    var u := if |a| <= 1 then [']'] + x else [','] + ItemsBefore(a[1..], x, le);
    var v := if |b| <= 1 then [']'] + y else [','] + ItemsBefore(b[1..], y, le);
    if a != [] { KindIsVisible(a[0], u, le); }
    if b != [] { KindIsVisible(b[0], v, le); }
    if a != [] {
      ValueUnambiguous(a[0], u, b[0], v, le);
      if |a| > 1 {
        Behind(',', ItemsBefore(a[1..], x, le));
        Behind(',', ItemsBefore(b[1..], y, le));
        ItemsUnambiguous(a[1..], x, b[1..], y, le);
      }
    }
  }

  lemma {:induction false} MembersUnambiguous(p: Value, a: seq<Member>, x: string, q: Value, b: seq<Member>,
                                              y: string, le: Order)
    requires PlainIn(p, a)
    requires PlainIn(q, b)
    requires MembersBefore(p, a, x, le) == MembersBefore(q, b, y, le)
    ensures |a| == |b| && x == y
    ensures SameFields(a, b)
    decreases p, 0, |a|
  {
    hide ValueBefore;
    hide TextBefore;
    hide MeaningOf;
    hide Plain;
    Behind('}', x);
    Behind('}', y);
    if a != [] {
      assert MembersBefore(p, a, x, le)[0] == '"';
      assert b != [];
      var u := if |a| == 1 then ['}'] + x else [','] + MembersBefore(p, a[1..], x, le);
      var v := if |b| == 1 then ['}'] + y else [','] + MembersBefore(q, b[1..], y, le);
      FirstMemberUnambiguous(a[0], u, b[0], v, le);
      ValueUnambiguous(a[0].value, u, b[0].value, v, le);
      if |a| > 1 {
        Behind(',', MembersBefore(p, a[1..], x, le));
        Behind(',', MembersBefore(q, b[1..], y, le));
        MembersUnambiguous(p, a[1..], x, q, b[1..], y, le);
      }
    }
  }

  lemma FirstMemberUnambiguous(m: Member, u: string, n: Member, v: string, le: Order)
    requires ['"'] + TextBefore(m.key, [':'] + ValueBefore(m.value, u, le)) ==
             ['"'] + TextBefore(n.key, [':'] + ValueBefore(n.value, v, le))
    ensures m.key == n.key && ValueBefore(m.value, u, le) == ValueBefore(n.value, v, le)
  {
    var u', v' := ValueBefore(m.value, u, le), ValueBefore(n.value, v, le);
    Behind('"', TextBefore(m.key, [':'] + u'));
    Behind('"', TextBefore(n.key, [':'] + v'));
    TextUnambiguous(m.key, [':'] + u', n.key, [':'] + v');
    Behind(':', u');
    Behind(':', v');
  }

  // ---------------------------------------------------------------- members and fields

  lemma {:induction false} DefinedKeepsKeysUnique(ms: seq<Member>)
    requires UniqueKeys(ms)
    ensures UniqueKeys(Defined(ms))
  {
    if ms != [] {
      DefinedKeepsKeysUnique(ms[1..]);
    }
  }

  lemma {:induction false} FieldIsMember(whole: Value, ms: seq<Member>, i: nat)
    requires PlainIn(whole, ms)
    requires UniqueKeys(ms) && i < |ms|
    ensures ms[i].key in FieldsOf(whole, ms)
    ensures FieldsOf(whole, ms)[ms[i].key] == MeaningOf(ms[i].value)
    decreases |ms|
  {
    MemberHasKey(ms, i);
    if i > 0 {
      assert ms[1..][i - 1] == ms[i];
      FieldIsMember(whole, ms[1..], i - 1);
    }
  }

  lemma {:induction false} FieldsMatch(a: seq<Member>, b: seq<Member>, i: nat)
    requires (forall m :: m in a ==> Plain(m.value)) && (forall m :: m in b ==> Plain(m.value))
    requires |a| == |b| && SameFields(a, b) && i < |a|
    ensures a[i].key == b[i].key && MeaningOf(a[i].value) == MeaningOf(b[i].value)
  {
    hide MeaningOf;
    hide Plain;
    if i > 0 { FieldsMatch(a[1..], b[1..], i - 1); }
  }

  lemma {:induction false} FieldsMatchBothWays(a: seq<Member>, b: seq<Member>)
    requires (forall m :: m in a ==> Plain(m.value)) && (forall m :: m in b ==> Plain(m.value))
    requires |a| == |b| && SameFields(a, b)
    ensures SameFields(b, a)
  {
    hide MeaningOf;
    hide Plain;
    if a != [] { FieldsMatchBothWays(a[1..], b[1..]); }
  }

  lemma {:induction false} FieldsMatchThemselves(a: seq<Member>)
    requires forall m :: m in a ==> Plain(m.value)
    ensures SameFields(a, a)
  {
    hide MeaningOf;
    hide Plain;
    if a != [] { FieldsMatchThemselves(a[1..]); }
  }

  /** A field of `a` is a field of `b` when `sa` and `sb` list their members in matching order. */
  lemma FieldCarriesOver(p: Value, a: seq<Member>, sa: seq<Member>, q: Value, b: seq<Member>, sb: seq<Member>,
                         k: string)
    requires PlainIn(p, a)
    requires PlainIn(q, b)
    requires UniqueKeys(a) && UniqueKeys(b)
    requires SameElements(sa, a) && SameElements(sb, b)
    requires |sa| == |sb|
    requires SameFields(sa, sb)
    requires k in FieldsOf(p, a)
    ensures k in FieldsOf(q, b) && FieldsOf(q, b)[k] == FieldsOf(p, a)[k]
  {
    hide MeaningOf;
    hide Plain;
    hide SameFields;
    hide FieldsOf;
    var i := KeyHasMember(a, k);
    assert a[i] in sa;
    var j :| 0 <= j < |sa| && sa[j] == a[i];
    assert sb[j] in b;
    var l :| 0 <= l < |b| && b[l] == sb[j];
    FieldsMatch(sa, sb, j);
    FieldIsMember(p, a, i);
    FieldIsMember(q, b, l);
  }

  lemma FieldsIncluded(p: Value, a: seq<Member>, sa: seq<Member>, q: Value, b: seq<Member>, sb: seq<Member>)
    requires PlainIn(p, a) && PlainIn(q, b) && UniqueKeys(a) && UniqueKeys(b)
    requires SameElements(sa, a) && SameElements(sb, b)
    requires |sa| == |sb| && SameFields(sa, sb)
    ensures forall k :: k in FieldsOf(p, a) ==> k in FieldsOf(q, b) && FieldsOf(q, b)[k] == FieldsOf(p, a)[k]
  {
    forall k | k in FieldsOf(p, a) ensures k in FieldsOf(q, b) && FieldsOf(q, b)[k] == FieldsOf(p, a)[k] {
      FieldCarriesOver(p, a, sa, q, b, sb, k);
    }
  }

  /** Two objects whose sorted members print alike have the same fields. */
  lemma SameMembersSameFields(p: Value, a: seq<Member>, sa: seq<Member>, q: Value, b: seq<Member>, sb: seq<Member>)
    requires PlainIn(p, a) && PlainIn(q, b) && UniqueKeys(a) && UniqueKeys(b)
    requires SameElements(sa, a) && SameElements(sb, b)
    requires |sa| == |sb| && SameFields(sa, sb)
    ensures FieldsOf(p, a) == FieldsOf(q, b)
  {
    hide MeaningOf;
    hide Plain;
    hide SameFields;
    hide FieldsOf;
    FieldsMatchBothWays(sa, sb);
    FieldsIncluded(p, a, sa, q, b, sb);
    FieldsIncluded(q, b, sb, p, a, sa);
  }

  // ---------------------------------------------------------------- equal meanings print alike

  predicate StrictlySorted(ms: seq<Member>, le: Order) {
    forall i, j :: 0 <= i < j < |ms| ==> le(ms[i].key, ms[j].key) && ms[i].key != ms[j].key
  }

  lemma {:induction false} InsertSorts(m: Member, ms: seq<Member>, le: Order)
    requires TotalOrder(le) && StrictlySorted(ms, le)
    requires forall x :: x in ms ==> x.key != m.key
    ensures StrictlySorted(Insert(m, ms, ByKey(le)), le)
  {
    if ms != [] && !le(m.key, ms[0].key) {
      InsertSorts(m, ms[1..], le);
      var r := Insert(m, ms[1..], ByKey(le));
      forall x | x in r ensures le(ms[0].key, x.key) && ms[0].key != x.key {
        assert x == m || x in ms[1..];
      }
    }
  }

  lemma {:induction false} SortSorts(ms: seq<Member>, le: Order)
    requires TotalOrder(le) && UniqueKeys(ms)
    ensures StrictlySorted(SortMembers(ms, le), le)
  {
    if ms != [] {
      SortSorts(ms[1..], le);
      InsertSorts(ms[0], SortMembers(ms[1..], le), le);
    }
  }

  lemma {:induction false} FieldsOrderMembers(p: Value, a: seq<Member>, q: Value, b: seq<Member>, le: Order)
    requires PlainIn(p, a)
    requires PlainIn(q, b)
    requires TotalOrder(le) && StrictlySorted(a, le) && StrictlySorted(b, le)
    requires FieldsOf(p, a) == FieldsOf(q, b)
    ensures |a| == |b|
    ensures SameFields(a, b)
    decreases |a|
  {
    hide MeaningOf;
    hide Plain;
    hide FieldsOf;
    if a == [] || b == [] {
      assert (KeysOf(a) == {} <==> a == []) && (KeysOf(b) == {} <==> b == []);
    } else {
      LeastKeyFirst(a, b, le);
      FieldIsMember(p, a, 0);
      FieldIsMember(q, b, 0);
      RestOfFields(p, a);
      RestOfFields(q, b);
      FieldsOrderMembers(p, a[1..], q, b[1..], le);
    }
  }

  lemma LeastKeyFirst(a: seq<Member>, b: seq<Member>, le: Order)
    requires TotalOrder(le) && StrictlySorted(a, le) && StrictlySorted(b, le)
    requires a != [] && b != [] && KeysOf(a) == KeysOf(b)
    ensures a[0].key == b[0].key
  {
    var i := KeyHasMember(b, a[0].key);
    var j := KeyHasMember(a, b[0].key);
    assert le(a[0].key, a[j].key) && le(b[0].key, b[i].key);
  }

  lemma RestOfFields(p: Value, a: seq<Member>)
    requires a != [] && UniqueKeys(a)
    requires PlainIn(p, a)
    ensures FieldsOf(p, a[1..]) == FieldsOf(p, a) - {a[0].key}
  {
    hide MeaningOf;
    hide Plain;
    var rest := FieldsOf(p, a[1..]);
    if a[0].key in rest {
      var i := KeyHasMember(a[1..], a[0].key);
      assert false;
    }
    assert FieldsOf(p, a) == rest[a[0].key := MeaningOf(a[0].value)];
  }

  lemma {:induction false} SameMeaningSameText(a: Value, b: Value, le: Order)
    requires Plain(a) && Plain(b) && TotalOrder(le)
    requires MeaningOf(a) == MeaningOf(b)
    ensures Canonical(a, le) == Canonical(b, le)
    decreases a, 1
  {
    match a
    case Array(items) => SameMeaningsSameItems(items, b.items, le);
    case Object(ms) =>
      var p, q := Defined(ms), Defined(b.members);
      DefinedKeepsKeysUnique(ms);
      DefinedKeepsKeysUnique(b.members);
      SortSorts(p, le);
      SortSorts(q, le);
      SortKeepsFields(a, p, le);
      SortKeepsFields(b, q, le);
      FieldsOrderMembers(a, SortMembers(p, le), b, SortMembers(q, le), le);
      SameMembersSameText(a, SortMembers(p, le), b, SortMembers(q, le), le);
    case _ =>
  }

  lemma SortKeepsFields(p: Value, a: seq<Member>, le: Order)
    requires PlainIn(p, a)
    requires TotalOrder(le) && UniqueKeys(a)
    ensures PlainIn(p, SortMembers(a, le))
    ensures FieldsOf(p, SortMembers(a, le)) == FieldsOf(p, a)
  {
    SortSorts(a, le);
    var s := SortMembers(a, le);
    FieldsMatchThemselves(s);
    SameMembersSameFields(p, a, s, p, s, s);
  }

  lemma {:induction false} SameMeaningsSameItems(a: seq<Value>, b: seq<Value>, le: Order)
    requires (forall v :: v in a ==> Plain(v)) && (forall v :: v in b ==> Plain(v)) && TotalOrder(le)
    requires MeaningsOf(a) == MeaningsOf(b)
    ensures CanonicalItems(a, le) == CanonicalItems(b, le)
    decreases a, 2
  {
    assert |a| == |b|;
    if a != [] {
      assert MeaningsOf(a)[0] == MeaningOf(a[0]) && MeaningsOf(b)[0] == MeaningOf(b[0]);
      assert MeaningsOf(a)[1..] == MeaningsOf(a[1..]) && MeaningsOf(b)[1..] == MeaningsOf(b[1..]);
      SameMeaningSameText(a[0], b[0], le);
      SameMeaningsSameItems(a[1..], b[1..], le);
    }
  }

  lemma {:induction false} SameMembersSameText(p: Value, a: seq<Member>, q: Value, b: seq<Member>, le: Order)
    requires PlainIn(p, a)
    requires PlainIn(q, b)
    requires TotalOrder(le) && |a| == |b|
    requires SameFields(a, b)
    ensures CanonicalMembers(p, a, le) == CanonicalMembers(q, b, le)
    decreases p, 0, |a|
  {
    if a != [] {
      SameMeaningSameText(a[0].value, b[0].value, le);
      SameMembersSameText(p, a[1..], q, b[1..], le);
    }
  }

  /** Two values print alike exactly when they are equal up to key order and undefined fields. */
  lemma CanonicalIdentifiesMeaning(a: Value, b: Value, le: Order)
    requires Plain(a) && Plain(b) && TotalOrder(le)
    ensures Canonical(a, le) == Canonical(b, le) <==> MeaningOf(a) == MeaningOf(b)
  {
    if MeaningOf(a) == MeaningOf(b) {
      SameMeaningSameText(a, b, le);
    }
    if Canonical(a, le) == Canonical(b, le) {
      ValueBeforeIsCanonical(a, [], le);
      ValueBeforeIsCanonical(b, [], le);
      ValueUnambiguous(a, [], b, [], le);
    }
  }

  // ---------------------------------------------------------------- values built by the same recipe

  /** Two fields say the same: both absent, or both of one meaning. */
  ghost predicate SameValue(a: Value, b: Value) {
    (a == Undefined <==> b == Undefined) && (a != Undefined ==> Plain(a) && Plain(b) && MeaningOf(a) == MeaningOf(b))
  }

  /** What an object built from `ms` says about the key of member `i`. */
  lemma FieldOfObject(ms: seq<Member>, i: nat)
    requires Plain(Object(ms)) && i < |ms|
    ensures var fields := MeaningOf(Object(ms)).fields;
      && (ms[i].key in fields <==> ms[i].value != Undefined)
      && (ms[i].value != Undefined ==> fields[ms[i].key] == MeaningOf(ms[i].value))
  {
    hide FieldsOf;
    hide Defined;
    var defined := Defined(ms);
    DefinedKeepsKeysUnique(ms);
    assert PlainIn(Object(ms), defined);
    if ms[i].key in KeysOf(defined) {
      var j := KeyHasMember(defined, ms[i].key);
      assert defined[j] in ms;
      var k :| 0 <= k < |ms| && ms[k] == defined[j];
      assert k == i;
    }
    if ms[i].value != Undefined {
      assert ms[i] in defined;
      var j :| 0 <= j < |defined| && defined[j] == ms[i];
      FieldIsMember(Object(ms), defined, j);
    }
  }

  lemma KeyOfObject(ms: seq<Member>, k: string) returns (i: nat)
    requires Plain(Object(ms)) && k in MeaningOf(Object(ms)).fields
    ensures i < |ms| && ms[i].key == k
  {
    hide Defined;
    var j := KeyHasMember(Defined(ms), k);
    assert Defined(ms)[j] in ms;
    i :| 0 <= i < |ms| && ms[i] == Defined(ms)[j];
  }

  lemma MembersAgree(a: seq<Member>, b: seq<Member>, i: nat)
    requires Plain(Object(a)) && Plain(Object(b)) && i < |a| == |b| && a[i].key == b[i].key
    ensures var x, y, key := MeaningOfObject(a), MeaningOfObject(b), a[i].key;
      SameValue(a[i].value, b[i].value) <==> (key in x <==> key in y) && (key in x && key in y ==> x[key] == y[key])
  {
    hide FieldsOf;
    hide Defined;
    hide MeaningOf;
    FieldOfObject(a, i);
    FieldOfObject(b, i);
    assert a[i] in a && b[i] in b;
  }

  /** Objects listing the same keys in the same order say the same exactly when their fields do. */
  lemma ObjectsAgree(a: seq<Member>, b: seq<Member>)
    requires Plain(Object(a)) && Plain(Object(b))
    requires |a| == |b| && forall i :: 0 <= i < |a| ==> a[i].key == b[i].key
    ensures MeaningOf(Object(a)) == MeaningOf(Object(b)) <==>
      forall i :: 0 <= i < |a| ==> SameValue(a[i].value, b[i].value)
  {
    hide FieldsOf;
    hide Defined;
    hide MeaningOf;
    hide Plain;
    hide SameValue;
    var x, y := MeaningOfObject(a), MeaningOfObject(b);
    forall i | 0 <= i < |a|
      ensures SameValue(a[i].value, b[i].value) <==>
        (a[i].key in x <==> a[i].key in y) && (a[i].key in x && a[i].key in y ==> x[a[i].key] == y[a[i].key])
    {
      MembersAgree(a, b, i);
    }
    forall k | k in x || k in y ensures exists i :: 0 <= i < |a| && a[i].key == k {
      if k in x { var i := KeyOfObject(a, k); } else { var i := KeyOfObject(b, k); }
    }
  }

  ghost function MeaningOfObject(ms: seq<Member>): (fields: map<string, Meaning>)
    requires Plain(Object(ms))
    ensures MeaningOf(Object(ms)) == MObject(fields)
  {
    MeaningOf(Object(ms)).fields
  }

  lemma {:induction false} MeaningsAt(items: seq<Value>, i: nat)
    requires (forall v :: v in items ==> Plain(v)) && i < |items|
    ensures MeaningsOf(items)[i] == MeaningOf(items[i])
  {
    if i > 0 { MeaningsAt(items[1..], i - 1); }
  }

  /** Arrays say the same exactly when they are as long and their elements say the same. */
  lemma ArraysAgree(a: seq<Value>, b: seq<Value>)
    requires Plain(Array(a)) && Plain(Array(b))
    ensures MeaningOf(Array(a)) == MeaningOf(Array(b))
       <==> |a| == |b| && forall i :: 0 <= i < |a| ==> MeaningOf(a[i]) == MeaningOf(b[i])
  {
    hide MeaningsOf;
    forall i | 0 <= i < |a| ensures MeaningsOf(a)[i] == MeaningOf(a[i]) { MeaningsAt(a, i); }
    forall i | 0 <= i < |b| ensures MeaningsOf(b)[i] == MeaningOf(b[i]) { MeaningsAt(b, i); }
  }
}
