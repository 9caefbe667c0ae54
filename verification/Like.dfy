/** The LIKE operator of the SQL Server dialect, and the patterns the compiler builds for
    `contains` filters and `starts_with` source filters. */
module Like {
  import opened Contracts

  datatype Token =
    | Run                 // %
    | One                 // _
    | Literal(c: char)
    | Range(body: string) // [...]

  predicate Listed(body: string, c: char) {
    if body == [] then false
    else if |body| >= 3 && body[1] == '-' then body[0] <= c <= body[2] || Listed(body[3..], c)
    else body[0] == c || Listed(body[1..], c)
  }

  /** Does a bracket accept a character? A leading caret complements it. */
  predicate Accepts(body: string, c: char) {
    if body != [] && body[0] == '^' then !Listed(body[1..], c) else Listed(body, c)
  }

  /** Position of the first closing bracket, or the length of the text. */
  function Closing(p: string): (k: nat)
    ensures k <= |p| && (k < |p| ==> p[k] == ']') && forall i :: 0 <= i < k ==> p[i] != ']'
  {
    if p == [] || p[0] == ']' then 0 else 1 + Closing(p[1..])
  }

  function Prepend(t: Token, ts: Option<seq<Token>>): Option<seq<Token>> {
    if ts.None? then None else Some([t] + ts.value)
  }

  /** The tokens of a pattern; None when a bracket is not closed or an escape ends the pattern,
      in which case nothing matches. */
  function Tokens(p: string, escape: Option<char>): Option<seq<Token>>
    decreases |p|
  {
    if p == [] then Some([])
    else if escape == Some(p[0]) then
      if |p| == 1 then None else Prepend(Literal(p[1]), Tokens(p[2..], escape))
    else if p[0] == '%' then Prepend(Run, Tokens(p[1..], escape))
    else if p[0] == '_' then Prepend(One, Tokens(p[1..], escape))
    else if p[0] == '[' then
      var k := Closing(p[1..]);
      if k == |p| - 1 then None else Prepend(Range(p[1..k + 1]), Tokens(p[k + 2..], escape))
    else Prepend(Literal(p[0]), Tokens(p[1..], escape))
  }

  predicate Match(ts: seq<Token>, s: string)
    decreases |ts| + |s|
  {
    if ts == [] then s == []
    else
      match ts[0]
      case Run => Match(ts[1..], s) || (s != [] && Match(ts, s[1..]))
      case One => s != [] && Match(ts[1..], s[1..])
      case Literal(c) => s != [] && s[0] == c && Match(ts[1..], s[1..])
      case Range(body) => s != [] && Accepts(body, s[0]) && Match(ts[1..], s[1..])
  }

  /** `s LIKE p [ESCAPE e]`. */
  predicate IsLike(s: string, p: string, escape: Option<char>) {
    Tokens(p, escape).Some? && Match(Tokens(p, escape).value, s)
  }

  const BACKSLASH := Some('\\')

  /** `replace(/[\%_]/g, '\\$&')`: a backslash before every percent sign and underscore. */
  function EscapeLike(v: string): string {
    if v == [] then []
    else (if v[0] == '%' || v[0] == '_' then ['\\', v[0]] else [v[0]]) + EscapeLike(v[1..])
  }

  function ContainsPattern(v: string): string { "%" + EscapeLike(v) + "%" }

  function PrefixPattern(v: string): string { v + "%" }

  ghost predicate IsSubstring(v: string, s: string) {
    exists i :: 0 <= i <= |s| && v <= s[i..]
  }

  /** Values whose `contains` pattern says what it should. */
  predicate ContainsSafe(v: string) { '\\' !in v && '[' !in v }

  predicate PrefixSafe(v: string) { '%' !in v && '_' !in v && '[' !in v }

  function Literals(v: string): seq<Token> {
    if v == [] then [] else [Literal(v[0])] + Literals(v[1..])
  }

  // ---------------------------------------------------------------- patterns that say what they should

  lemma {:induction false} LiteralsThenRun(v: string, s: string)
    ensures Match(Literals(v) + [Run], s) <==> v <= s
  {
    if v == [] {
      RunMatchesAnything(s);
      assert Literals(v) + [Run] == [Run];
    } else {
      var ts := Literals(v) + [Run];
      assert ts[0] == Literal(v[0]) && ts[1..] == Literals(v[1..]) + [Run];
      if s != [] {
        LiteralsThenRun(v[1..], s[1..]);
        assert v <= s <==> v[0] == s[0] && v[1..] <= s[1..] by {
          assert v == [v[0]] + v[1..] && s == [s[0]] + s[1..];
        }
      }
    }
  }

  lemma {:induction false} RunMatchesAnything(s: string)
    ensures Match([Run], s)
  {
    if s != [] { RunMatchesAnything(s[1..]); }
  }

  /** A leading run tries every suffix. */
  lemma {:induction false} RunTriesSuffixes(ts: seq<Token>, s: string)
    ensures Match([Run] + ts, s) <==> exists i :: 0 <= i <= |s| && Match(ts, s[i..])
  {
    var rs := [Run] + ts;
    assert rs[1..] == ts && s[0..] == s;
    if s != [] {
      RunTriesSuffixes(ts, s[1..]);
      assert forall i :: 0 <= i <= |s[1..]| ==> s[1..][i..] == s[i + 1..];
      if i :| 0 <= i <= |s| && Match(ts, s[i..]) {
        if i > 0 { assert s[1..][i - 1..] == s[i..]; }
      }
    }
  }

  /** An escaped value followed by a run, written character by character. */
  function EscapedRun(v: string): string {
    if v == [] then ['%']
    else if v[0] == '%' || v[0] == '_' then ['\\', v[0]] + EscapedRun(v[1..])
    else [v[0]] + EscapedRun(v[1..])
  }

  lemma {:induction false} EscapedRunIsPattern(v: string)
    ensures ContainsPattern(v) == ['%'] + EscapedRun(v)
    ensures EscapeLike(v) + "%" == EscapedRun(v)
  {
    if v != [] {
      EscapedRunIsPattern(v[1..]);
      var head := if v[0] == '%' || v[0] == '_' then ['\\', v[0]] else [v[0]];
      assert head + EscapeLike(v[1..]) + "%" == head + (EscapeLike(v[1..]) + "%");
    }
    assert ContainsPattern(v) == ['%'] + (EscapeLike(v) + "%");
  }

  /** Tokens of a text that starts with an ordinary or an escaped character. */
  lemma OneToken(c: char, x: string)
    ensures c !in {'\\', '%', '_', '['} ==> Tokens([c] + x, BACKSLASH) == Prepend(Literal(c), Tokens(x, BACKSLASH))
    ensures Tokens(['\\', c] + x, BACKSLASH) == Prepend(Literal(c), Tokens(x, BACKSLASH))
    ensures c !in {'%', '_', '['} ==> Tokens([c] + x, None) == Prepend(Literal(c), Tokens(x, None))
  {
    assert ([c] + x)[1..] == x;
    assert (['\\', c] + x)[2..] == x;
  }

  lemma JustRun(escape: Option<char>)
    requires escape != Some('%')
    ensures Tokens(['%'], escape) == Some([Run])
  {
    assert Tokens([], escape) == Some([]);
    assert ['%'][1..] == [] && [Run] + [] == [Run];
  }

  lemma {:induction false} EscapedTokens(v: string)
    requires ContainsSafe(v)
    ensures Tokens(EscapedRun(v), BACKSLASH) == Some(Literals(v) + [Run])
  {
    if v == [] {
      JustRun(BACKSLASH);
      assert Literals(v) + [Run] == [Run];
    } else {
      EscapedTokens(v[1..]);
      OneToken(v[0], EscapedRun(v[1..]));
      assert Literals(v) + [Run] == [Literal(v[0])] + (Literals(v[1..]) + [Run]);
    }
  }

  /** A `contains` filter on a value without backslash or bracket selects exactly the texts that
      have the value as a substring. */
  lemma ContainsMeansSubstring(v: string, s: string)
    requires ContainsSafe(v)
    ensures IsLike(s, ContainsPattern(v), BACKSLASH) <==> IsSubstring(v, s)
  {
    EscapedRunIsPattern(v);
    assert ContainsPattern(v)[1..] == EscapedRun(v);
    EscapedTokens(v);
    RunTriesSuffixes(Literals(v) + [Run], s);
    forall i | 0 <= i <= |s| ensures Match(Literals(v) + [Run], s[i..]) <==> v <= s[i..] {
      LiteralsThenRun(v, s[i..]);
    }
  }

  lemma {:induction false} PrefixTokens(v: string)
    requires PrefixSafe(v)
    ensures Tokens(PrefixPattern(v), None) == Some(Literals(v) + [Run])
  {
    hide Tokens;
    if v == [] {
      JustRun(None);
      assert PrefixPattern(v) == ['%'];
      assert Literals(v) + [Run] == [Run];
    } else {
      PrefixTokens(v[1..]);
      OneToken(v[0], PrefixPattern(v[1..]));
      assert PrefixPattern(v) == [v[0]] + PrefixPattern(v[1..]);
      assert Literals(v) + [Run] == [Literal(v[0])] + (Literals(v[1..]) + [Run]);
    }
  }

  /** A `starts_with` source filter on a value without pattern characters selects exactly the
      texts that begin with the value. */
  lemma StartsWithMeansPrefix(v: string, s: string)
    requires PrefixSafe(v)
    ensures IsLike(s, PrefixPattern(v), None) <==> v <= s
  {
    PrefixTokens(v);
    LiteralsThenRun(v, s);
  }

  // ---------------------------------------------------------------- and patterns that do not

  ghost predicate Satisfiable(ts: seq<Token>) {
    forall i :: 0 <= i < |ts| && ts[i].Range? ==> exists c :: Accepts(ts[i].body, c)
  }

  lemma {:induction false} UnsatisfiableMatchesNothing(ts: seq<Token>, s: string)
    requires !Satisfiable(ts)
    ensures !Match(ts, s)
    decreases |ts| + |s|
  {
    var i :| 0 <= i < |ts| && ts[i].Range? && !exists c :: Accepts(ts[i].body, c);
    if i > 0 {
      assert !Satisfiable(ts[1..]) by { assert ts[1..][i - 1] == ts[i]; }
      if ts[0].Run? { UnsatisfiableMatchesNothing(ts[1..], s); }
      if s != [] {
        UnsatisfiableMatchesNothing(ts[1..], s[1..]);
        if ts[0].Run? { UnsatisfiableMatchesNothing(ts, s[1..]); }
      }
    }
  }

  lemma LoneRunHasNoBracket()
    ensures Closing(EscapedRun("")) >= |EscapedRun("")|
  {
    assert EscapedRun("") == ['%'] && ['%'][1..] == [];
  }

  lemma BracketCloses(v: string)
    requires v != [] && v[0] == ']'
    ensures EscapedRun(v)[Closing(EscapedRun(v)) + 1..] == EscapedRun(v[1..])
  {
    assert EscapedRun(v)[1..] == EscapedRun(v[1..]);
  }

  /** A character other than a closing bracket leaves the text behind the first one as it was. */
  lemma {:induction false} ClosingStep(v: string)
    requires v != [] && v[0] != ']' && Closing(EscapedRun(v)) < |EscapedRun(v)|
    ensures var p, rest := EscapedRun(v), EscapedRun(v[1..]);
      Closing(rest) < |rest| && p[Closing(p) + 1..] == rest[Closing(rest) + 1..]
  {
    var p, rest := EscapedRun(v), EscapedRun(v[1..]);
    var n := |p| - |rest|;
    assert p[n..] == rest;
    assert Closing(p) == n + Closing(rest) by {
      if n == 2 { assert p[1..][1..] == rest; }
    }
    hide EscapedRun;
    hide Closing;
    assert p[n..][Closing(rest) + 1..] == p[n + Closing(rest) + 1..];
  }

  /** Where the first closing bracket of an escaped text comes from. */
  lemma {:induction false} ClosingOfEscaped(v: string) returns (k: nat)
    requires Closing(EscapedRun(v)) < |EscapedRun(v)|
    ensures k < |v| && EscapedRun(v)[Closing(EscapedRun(v)) + 1..] == EscapedRun(v[k + 1..])
  {
    hide EscapedRun;
    hide Closing;
    if v == [] { LoneRunHasNoBracket(); }
    if v[0] == ']' {
      k := 0;
      BracketCloses(v);
    } else {
      ClosingStep(v);
      var k' := ClosingOfEscaped(v[1..]);
      k := k' + 1;
      assert v[1..][k' + 1..] == v[k + 1..];
    }
  }

  lemma RestIsSatisfiable(ts: seq<Token>)
    requires ts != [] && Satisfiable(ts)
    ensures Satisfiable(ts[1..])
  {
    forall i | 0 <= i < |ts[1..]| && ts[1..][i].Range? ensures exists c :: Accepts(ts[1..][i].body, c) {
      assert ts[1..][i] == ts[i + 1];
    }
  }

  /** A token that accepts the first character leaves the rest to the other tokens. */
  lemma MatchFirst(t: Token, ts: seq<Token>, c: char, w: string)
    requires t == Literal(c) || t == One || (t.Range? && Accepts(t.body, c))
    requires Match(ts, w)
    ensures Match([t] + ts, [c] + w)
  {
    assert ([t] + ts)[1..] == ts && ([c] + w)[1..] == w;
  }

  lemma Unprepend(t: Token, p: string)
    requires Prepend(t, Tokens(p, BACKSLASH)).Some? && Satisfiable(Prepend(t, Tokens(p, BACKSLASH)).value)
    ensures Tokens(p, BACKSLASH).Some? && Satisfiable(Tokens(p, BACKSLASH).value)
  {
    var ts := [t] + Tokens(p, BACKSLASH).value;
    RestIsSatisfiable(ts);
    assert ts[1..] == Tokens(p, BACKSLASH).value;
  }

  ghost predicate CanMatch(p: string) {
    Tokens(p, BACKSLASH).Some? && Satisfiable(Tokens(p, BACKSLASH).value)
  }

  ghost predicate Matches(p: string, w: string) {
    Tokens(p, BACKSLASH).Some? && Match(Tokens(p, BACKSLASH).value, w)
  }

  /** A shortest text the escaped value matches: never longer than the value, and different
      from it as soon as the value has a backslash or a bracket. */
  lemma {:induction false} ShortMatch(v: string) returns (w: string)
    requires CanMatch(EscapedRun(v))
    ensures Matches(EscapedRun(v), w)
    ensures |w| <= |v| && (!ContainsSafe(v) ==> w != v)
    decreases |v|, 2
  {
    if v == [] {
      RunMatchesAnything([]);
      JustRun(BACKSLASH);
      w := [];
    } else if v[0] == '\\' {
      w := ShortMatchAfterBackslash(v);
    } else if v[0] == '[' {
      w := ShortMatchAfterBracket(v);
    } else {
      OneToken(v[0], EscapedRun(v[1..]));
      Unprepend(Literal(v[0]), EscapedRun(v[1..]));
      var w' := ShortMatch(v[1..]);
      MatchFirst(Literal(v[0]), Tokens(EscapedRun(v[1..]), BACKSLASH).value, v[0], w');
      w := [v[0]] + w';
      assert w[1..] == w' && v == [v[0]] + v[1..];
    }
  }

  /** The pattern of a value that starts with a bracket is a range and the pattern of what follows
      the bracket that closes it. */
  lemma BracketTokens(v: string) returns (t: Token, after: string)
    requires v != [] && v[0] == '[' && Tokens(EscapedRun(v), BACKSLASH).Some?
    ensures t.Range? && |after| + 1 < |v|
    ensures Tokens(EscapedRun(v), BACKSLASH) == Prepend(t, Tokens(EscapedRun(after), BACKSLASH))
  {
    var p, rest := EscapedRun(v), EscapedRun(v[1..]);
    assert p[1..] == rest;
    var k := ClosingOfEscaped(v[1..]);
    after := v[1..][k + 1..];
    t := Range(p[1..Closing(rest) + 1]);
    assert p[Closing(rest) + 2..] == rest[Closing(rest) + 1..];
  }

  lemma {:induction false} ShortMatchAfterBracket(v: string) returns (w: string)
    requires v != [] && v[0] == '[' && CanMatch(EscapedRun(v))
    ensures Matches(EscapedRun(v), w) && |w| < |v|
    decreases |v|, 0
  {
    hide EscapedRun;
    var t, after := BracketTokens(v);
    var p, q := EscapedRun(v), EscapedRun(after);
    assert Prepend(t, Tokens(q, BACKSLASH)) == Tokens(p, BACKSLASH);
    hide Tokens;
    Unprepend(t, q);
    assert Tokens(p, BACKSLASH).value[0] == t;
    var w' := ShortMatch(after);
    var c :| Accepts(t.body, c);
    MatchFirst(t, Tokens(q, BACKSLASH).value, c, w');
    w := [c] + w';
  }

  lemma {:induction false} ShortMatchAfterBackslash(v: string) returns (w: string)
    requires v != [] && v[0] == '\\' && CanMatch(EscapedRun(v))
    ensures Matches(EscapedRun(v), w) && |w| <= |v| && w != v
    decreases |v|, 1
  {
    if |v| == 1 {
      assert v[1..] == [] && EscapedRun(v) == ['\\', '%'] + [];
      OneToken('%', []);
      assert Tokens([], BACKSLASH) == Some([]) && Match([], []);
      MatchFirst(Literal('%'), [], '%', []);
      w := ['%'] + [];
    } else {
      var d, rest := v[1], EscapedRun(v[2..]);
      assert v[1..][1..] == v[2..];
      if d == '%' || d == '_' {
        w := ShortMatchBeforeWildcard(v);
      } else {
        assert EscapedRun(v) == ['\\', d] + rest;
        OneToken(d, rest);
        Unprepend(Literal(d), rest);
        var w' := ShortMatch(v[2..]);
        MatchFirst(Literal(d), Tokens(rest, BACKSLASH).value, d, w');
        w := [d] + w';
      }
    }
  }

  /** A backslash in front of a percent sign or an underscore undoes its escape. */
  lemma {:induction false} ShortMatchBeforeWildcard(v: string) returns (w: string)
    requires |v| > 1 && v[0] == '\\' && (v[1] == '%' || v[1] == '_') && CanMatch(EscapedRun(v))
    ensures Matches(EscapedRun(v), w) && |w| <= |v| && w != v
    decreases |v|, 0
  {
    var d, rest := v[1], EscapedRun(v[2..]);
    assert v[1..][1..] == v[2..];
    assert EscapedRun(v) == ['\\', '\\'] + ([d] + rest) && ([d] + rest)[1..] == rest;
    OneToken('\\', [d] + rest);
    Unprepend(Literal('\\'), [d] + rest);
    var t := if d == '%' then Run else One;
    Unprepend(t, rest);
    var w' := ShortMatch(v[2..]);
    var ts := Tokens(rest, BACKSLASH).value;
    if d == '%' {
      assert ([t] + ts)[1..] == ts;
      MatchFirst(Literal('\\'), [t] + ts, '\\', w');
      w := ['\\'] + w';
    } else {
      MatchFirst(t, ts, 'x', w');
      MatchFirst(Literal('\\'), [t] + ts, '\\', ['x'] + w');
      w := ['\\'] + (['x'] + w');
      assert w[1] == 'x';
    }
  }

  /** The `contains` pattern selects the texts that contain the value, for all texts, exactly
      when the value has neither a backslash nor an opening bracket. */
  lemma ContainsIsExactWhenSafe(v: string)
    ensures ContainsSafe(v) <==> forall s :: IsLike(s, ContainsPattern(v), BACKSLASH) <==> IsSubstring(v, s)
  {
    if ContainsSafe(v) {
      forall s ensures IsLike(s, ContainsPattern(v), BACKSLASH) <==> IsSubstring(v, s) {
        ContainsMeansSubstring(v, s);
      }
    } else {
      var s := UnsafeWitness(v);
    }
  }

  /** A text on which the pattern of an unsafe value is wrong. */
  lemma UnsafeWitness(v: string) returns (s: string)
    requires !ContainsSafe(v)
    ensures IsLike(s, ContainsPattern(v), BACKSLASH) != IsSubstring(v, s)
  {
    EscapedRunIsPattern(v);
    assert ContainsPattern(v)[1..] == EscapedRun(v);
    var rest := Tokens(EscapedRun(v), BACKSLASH);
    if rest.None? {
      s := v;
      assert v <= v[0..];
    } else if !Satisfiable(rest.value) {
      s := v;
      assert v <= v[0..];
      RunTriesSuffixes(rest.value, v);
      forall i | 0 <= i <= |v| ensures !Match(rest.value, v[i..]) { UnsatisfiableMatchesNothing(rest.value, v[i..]); }
    } else {
      s := ShortMatch(v);
      RunTriesSuffixes(rest.value, s);
      assert s[0..] == s;
      ShorterIsNoSuperstring(v, s);
    }
  }

  lemma ShorterIsNoSuperstring(v: string, s: string)
    requires |s| <= |v| && s != v
    ensures !IsSubstring(v, s)
  {
    forall i | 0 <= i <= |s| ensures !(v <= s[i..]) {
      if i == 0 { assert s[0..] == s; }
    }
  }
}
