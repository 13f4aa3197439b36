/** The path language of the `json_path` assertion: the pattern, the token scan, and how they agree. */
module JsonPath {
  import opened Arithmetic
  import opened Wrappers
  import opened Decimals

  /** What a token captures: a name, or an index's digits. */
  datatype Token = NameToken(name: string) | IndexToken(digits: string)

  datatype Segment = Name(name: string) | Index(index: nat)

  // ---- The pattern, as the set of strings it matches ----

  predicate IsNameChar(c: char) {
    'A' <= c <= 'Z' || 'a' <= c <= 'z' || '0' <= c <= '9' || c == '_' || c == '-'
  }

  predicate IsName(s: string) { s != "" && forall i :: 0 <= i < |s| ==> IsNameChar(s[i]) }

  predicate IsIndex(s: string) {
    |s| >= 3 && s[0] == '[' && s[|s| - 1] == ']' && IsNumeral(s[1..|s| - 1])
  }

  /** A dotted name or an index. */
  predicate IsStep(s: string) { (s != "" && s[0] == '.' && IsName(s[1..])) || IsIndex(s) }

  /** Any number of steps. */
  predicate IsSteps(s: string)
    decreases |s|
  {
    s == "" || exists i :: 0 < i <= |s| && IsStep(s[..i]) && IsSteps(s[i..])
  }

  /** A first step, its leading dot omitted, and any number more. */
  predicate IsRootless(path: string) {
    exists i :: 0 < i <= |path| && (IsName(path[..i]) || IsIndex(path[..i])) && IsSteps(path[i..])
  }

  predicate IsSupported(path: string) {
    (path != "" && path[0] == '$' && IsSteps(path[1..])) || IsRootless(path)
  }

  // ---- The token scan ----

  /** How far a run of characters reaches. */
  function NameRun(s: string): (n: nat)
    ensures n <= |s| && (forall i :: 0 <= i < n ==> IsNameChar(s[i])) && (n < |s| ==> !IsNameChar(s[n]))
  {
    if s != "" && IsNameChar(s[0]) then 1 + NameRun(s[1..]) else 0
  }

  function DigitsRun(s: string): (n: nat)
    ensures n <= |s| && (forall i :: 0 <= i < n ==> IsDigit(s[i])) && (n < |s| ==> !IsDigit(s[n]))
  {
    if s != "" && IsDigit(s[0]) then 1 + DigitsRun(s[1..]) else 0
  }

  /** The match that starts at the front, and its length; no match is length zero. */
  function MatchAt(s: string): (r: (nat, Token))
    ensures r.0 <= |s| && (r.1.IndexToken? ==> AllDigits(r.1.digits))
  {
    var dot := if s != "" && s[0] == '.' then 1 else 0;
    var n := NameRun(s[dot..]);
    if n > 0 then (dot + n, NameToken(s[dot..dot + n]))
    else if s != "" && s[0] == '[' then
      var d := DigitsRun(s[1..]);
      if d > 0 && 1 + d < |s| && s[1 + d] == ']' then (d + 2, IndexToken(s[1..1 + d])) else (0, NameToken(""))
    else (0, NameToken(""))
  }

  /** `matchAll`: each match in turn, passing over characters that start none. */
  function Scan(s: string): (tokens: seq<Token>)
    ensures forall t :: t in tokens && t.IndexToken? ==> AllDigits(t.digits)
    decreases |s|
  {
    if s == "" then []
    else
      var (n, token) := MatchAt(s);
      if n == 0 then Scan(s[1..]) else [token] + Scan(s[n..])
  }

  // ---- Numbers ----

  const TWO53 := 9_007_199_254_740_992

  /** The spacing of doubles near `n`: the least power of two that brings it below 2^53. */
  function Unit(n: nat): (u: nat)
    ensures u > 0 && n / u < TWO53
    ensures if n < TWO53 then u == 1 else u >= 2 && n / u >= TWO53 / 2
    decreases n
  {
    if n < TWO53 then 1 else
      var u := Unit(n / 2);
      HalfThenUnit(n, u);
      2 * u
  }

  lemma HalfThenUnit(n: nat, u: nat)
    requires u > 0
    ensures n / (2 * u) == n / 2 / u
  {
    var q, r := n / 2 / u, n / 2 % u;
    assert n / 2 == u * q + r;
    QuotientIs(n, 2 * u, q);
  }

  /** `n` rounded to a multiple of `u`, ties to the even multiple. */
  function RoundedTo(n: nat, u: nat): nat
    requires u > 0
  {
    var q, r := n / u, n % u;
    u * (if 2 * r > u || (2 * r == u && q % 2 == 1) then q + 1 else q)
  }

  /** `Number` of an integer: the nearest double, ties to even. Past the largest double this is `Infinity`. */
  function ToDouble(n: nat): nat { RoundedTo(n, Unit(n)) }

  /** A number up to 2^53 is its own double, and no rounding comes down across 2^53. */
  lemma SmallIsExact(n: nat)
    ensures n <= TWO53 ==> ToDouble(n) == n
    ensures n >= TWO53 ==> ToDouble(n) >= TWO53
  {
    if n >= TWO53 {
      var u := Unit(n);
      Scaled(TWO53 / 2, n / u, u);
      Scaled(n / u, n / u + 1, u);
      if n == TWO53 {
        assert Unit(n / 2) == 1;
      }
    }
  }

  // ---- Which doubles are the nearest to one integer only ----

  function Pow2(k: nat): (p: nat)
    ensures p > 0
  {
    if k == 0 then 1 else 2 * Pow2(k - 1)
  }

  lemma {:induction false} UnitIs(n: nat, k: nat)
    requires k > 0 && Pow2(k) * (TWO53 / 2) <= n < Pow2(k) * TWO53
    ensures Unit(n) == Pow2(k)
  {
    assert Pow2(k) == 2 * Pow2(k - 1) && n >= TWO53;
    if k > 1 {
      UnitIs(n / 2, k - 1);
    } else {
      assert Unit(n / 2) == 1;
    }
  }

  lemma {:induction false} UnitPower(n: nat) returns (k: nat)
    requires n >= TWO53
    ensures k > 0 && Unit(n) == Pow2(k)
  {
    if n / 2 < TWO53 {
      k := 1;
      assert Pow2(1) == 2 && Unit(n / 2) == 1;
    } else {
      k := UnitPower(n / 2);
      k := k + 1;
    }
  }

  lemma RoundedIsMultiple(n: nat, u: nat) returns (q: nat)
    requires u > 0
    ensures RoundedTo(n, u) == u * q && (q == n / u || q == n / u + 1)
  {
    q := if 2 * (n % u) > u || (2 * (n % u) == u && n / u % 2 == 1) then n / u + 1 else n / u;
  }

  /** The double of an integer from 2^53 on, as a multiple of the spacing there. */
  lemma DoubleIsMultiple(n: nat) returns (k: nat, q: nat)
    requires n >= TWO53
    ensures k > 0 && Unit(n) == Pow2(k) && ToDouble(n) == Pow2(k) * q && TWO53 / 2 <= q <= TWO53
    ensures q == n / Pow2(k) || q == n / Pow2(k) + 1
  {
    k := UnitPower(n);
    q := RoundedIsMultiple(n, Pow2(k));
  }

  /** A multiple of the spacing rounds to itself. */
  lemma ExactMultiple(n: nat, u: nat, q: nat)
    requires u > 0 && n == u * q
    ensures RoundedTo(n, u) == n
  {
    QuotientIs(n, u, q);
    assert n == u * (n / u) + n % u;
  }

  lemma InUnits(n: nat, u: nat, q: nat, lo: nat, hi: nat)
    requires u > 0 && n == u * q && lo <= q < hi
    ensures u * lo <= n < u * hi
  {
    Scaled(lo, q, u);
    Scaled(q + 1, hi, u);
  }

  lemma ExactAt(n: nat, k: nat, q: nat)
    requires k > 0 && n == Pow2(k) * q && TWO53 / 2 <= q < TWO53
    ensures Unit(n) == Pow2(k) && ToDouble(n) == n
  {
    InUnits(n, Pow2(k), q, TWO53 / 2, TWO53);
    UnitIs(n, k);
    ExactMultiple(n, Pow2(k), q);
  }

  /** Rounding up to 2^53 spacings is rounding to half as many of the next spacing. */
  lemma Carried(k: nat)
    ensures Pow2(k) * TWO53 == Pow2(k + 1) * (TWO53 / 2)
  {
  }

  /** A double is its own double. */
  lemma DoubleIsDouble(n: nat)
    ensures ToDouble(ToDouble(n)) == ToDouble(n)
  {
    SmallIsExact(n);
    if n >= TWO53 {
      var k, q := DoubleIsMultiple(n);
      if q < TWO53 {
        ExactAt(ToDouble(n), k, q);
      } else {
        Carried(k);
        ExactAt(ToDouble(n), k + 1, TWO53 / 2);
      }
    }
  }

  /** Below 2^53, or below 2^54 and twice an odd number: both neighbours of the latter round away from it. */
  predicate OneNumeral(v: nat) { v < TWO53 || (v < 2 * TWO53 && v % 2 == 0 && v / 2 % 2 == 1) }

  lemma OneNumeralIsUnique(v: nat, n: nat)
    requires OneNumeral(v) && ToDouble(n) == v
    ensures n == v
  {
    SmallIsExact(n);
    if n >= TWO53 {
      var k, q := DoubleIsMultiple(n);
      SpacingOfOne(v, k, q);
      TwiceOdd(n, Pow2(k), q);
    }
  }

  /** The spacing of a double with one numeral from 2^53 on is two, and it is an odd number of them. */
  lemma SpacingOfOne(v: nat, k: nat, q: nat)
    requires OneNumeral(v) && k > 0 && v == Pow2(k) * q && TWO53 / 2 <= q
    ensures Pow2(k) == 2 && q % 2 == 1
  {
    PowerCases(k);
    Scaled(TWO53 / 2, q, Pow2(k));
  }

  lemma PowerCases(k: nat)
    requires k > 0
    ensures if k == 1 then Pow2(k) == 2 else Pow2(k) >= 4
  {
    assert Pow2(k) == 2 * Pow2(k - 1);
    if k > 1 {
      assert Pow2(k - 1) == 2 * Pow2(k - 2);
    }
  }

  /** Only an odd multiple of two itself rounds to it: a tie goes to the even neighbour. */
  lemma TwiceOdd(n: nat, u: nat, q: nat)
    requires u == 2 && q % 2 == 1 && RoundedTo(n, u) == u * q
    ensures n == u * q
  {
  }

  /** A number just above a multiple of the spacing rounds down to it, unless it is a tie with an odd multiple. */
  lemma RoundsDown(u: nat, q: nat)
    requires u > 2 || (u == 2 && q % 2 == 0)
    ensures RoundedTo(u * q + 1, u) == u * q
  {
    QuotientIs(u * q + 1, u, q);
  }

  lemma StillBelow(u: nat, q: nat, lo: nat, hi: nat)
    requires u > 1 && lo <= q < hi
    ensures u * lo <= u * q + 1 < u * hi
  {
    Scaled(lo, q, u);
    Scaled(q + 1, hi, u);
  }

  lemma NextUnit(k: nat, q: nat)
    requires k > 0 && TWO53 / 2 <= q < TWO53
    ensures Unit(Pow2(k) * q + 1) == Pow2(k)
  {
    assert Pow2(k) == 2 * Pow2(k - 1);
    StillBelow(Pow2(k), q, TWO53 / 2, TWO53);
    UnitIs(Pow2(k) * q + 1, k);
  }

  /** A double is a whole number of spacings. */
  lemma DoubleInUnits(v: nat) returns (k: nat, q: nat)
    requires v >= TWO53 && ToDouble(v) == v
    ensures k > 0 && v == Pow2(k) * q && TWO53 / 2 <= q < TWO53
  {
    k, q := DoubleIsMultiple(v);
    QuotientIs(v, Pow2(k), q);
  }

  /** Among the multiples of two below 2^54, the ones with a second numeral are twice an even number. */
  lemma OtherSpacing(k: nat, q: nat)
    requires k > 0 && TWO53 / 2 <= q < TWO53 && !OneNumeral(Pow2(k) * q)
    ensures Pow2(k) > 2 || (Pow2(k) == 2 && q % 2 == 0)
  {
    if k > 1 {
      assert Pow2(k) == 2 * Pow2(k - 1) && Pow2(k - 1) == 2 * Pow2(k - 2);
    } else {
      assert Pow2(k) == 2;
    }
  }

  lemma RoundsToMultiple(k: nat, q: nat)
    requires k > 0 && TWO53 / 2 <= q < TWO53 && !OneNumeral(Pow2(k) * q)
    ensures ToDouble(Pow2(k) * q + 1) == Pow2(k) * q
  {
    NextUnit(k, q);
    OtherSpacing(k, q);
    RoundsDown(Pow2(k), q);
  }

  /** Any other double is also the nearest to the integer after it. */
  lemma LargeIndexesCollide(v: nat)
    requires ToDouble(v) == v && !OneNumeral(v)
    ensures ToDouble(v + 1) == v
  {
    var k, q := DoubleInUnits(v);
    RoundsToMultiple(k, q);
  }

  /** Exactly when a double is the nearest to one integer only. */
  lemma OneNumeralIff(v: nat)
    requires ToDouble(v) == v
    ensures OneNumeral(v) <==> forall n: nat :: ToDouble(n) == v ==> n == v
  {
    if OneNumeral(v) {
      forall n: nat | ToDouble(n) == v ensures n == v {
        OneNumeralIsUnique(v, n);
      }
    } else {
      LargeIndexesCollide(v);
    }
  }

  // ---- Parsing ----

  /** `$` is the root, not a segment. */
  function Body(path: string): string { if path != "" && path[0] == '$' then path[1..] else path }

  function SegmentOf(t: Token): Segment
    requires t.IndexToken? ==> AllDigits(t.digits)
  {
    match t
    case NameToken(name) => Name(name)
    case IndexToken(digits) => Index(ToDouble(Number(digits)))
  }

  function Segments(tokens: seq<Token>): seq<Segment>
    requires forall t :: t in tokens && t.IndexToken? ==> AllDigits(t.digits)
  {
    if tokens == [] then [] else [SegmentOf(tokens[0])] + Segments(tokens[1..])
  }

  lemma SegmentsCons(t: Token, rest: seq<Token>)
    requires t.IndexToken? ==> AllDigits(t.digits)
    requires forall u :: u in rest && u.IndexToken? ==> AllDigits(u.digits)
    ensures Segments([t] + rest) == [SegmentOf(t)] + Segments(rest)
  {
    assert ([t] + rest)[1..] == rest;
  }

  /** What one turn of the scan adds. */
  lemma ScanTurn(s: string)
    requires s != ""
    ensures var (n, token) := MatchAt(s);
            Segments(Scan(s)) == if n == 0 then Segments(Scan(s[1..])) else [SegmentOf(token)] + Segments(Scan(s[n..]))
  {
    var (n, token) := MatchAt(s);
    if n > 0 {
      SegmentsCons(token, Scan(s[n..]));
    }
  }

  function Parse(path: string): Option<seq<Segment>> {
    if IsSupported(path) then Some(Segments(Scan(Body(path)))) else None
  }

  method ParseJsonPath(path: string) returns (r: Option<seq<Segment>>)
    ensures r == Parse(path)
  {
    if !IsSupported(path) {
      return None;
    }
    var segments, rest := [], Body(path);
    while rest != ""
      invariant Segments(Scan(Body(path))) == segments + Segments(Scan(rest))
      decreases |rest|
    {
      ScanTurn(rest);
      var (n, token) := MatchAt(rest);
      if n == 0 {
        rest := rest[1..];
      } else {
        segments, rest := segments + [SegmentOf(token)], rest[n..];
      }
    }
    assert segments + Segments([]) == segments;
    r := Some(segments);
  }

  // ---- Printing, and the scan as its inverse ----

  predicate IsToken(t: Token) {
    match t
    case NameToken(name) => IsName(name)
    case IndexToken(digits) => IsNumeral(digits)
  }

  ghost predicate AreTokens(tokens: seq<Token>) { forall t :: t in tokens ==> IsToken(t) }

  function Text(t: Token): string {
    match t
    case NameToken(name) => "." + name
    case IndexToken(digits) => "[" + digits + "]"
  }

  function Print(tokens: seq<Token>): string {
    if tokens == [] then "" else Text(tokens[0]) + Print(tokens[1..])
  }

  /** Steps begin with a dot or a bracket, never with a name's character. */
  lemma PrintStarts(tokens: seq<Token>)
    ensures Print(tokens) != "" ==> Print(tokens)[0] == '.' || Print(tokens)[0] == '['
  {
  }

  lemma NameRunIs(name: string, rest: string)
    requires IsName(name) && (rest != "" ==> !IsNameChar(rest[0]))
    ensures NameRun(name + rest) == |name|
  {
    var s := name + rest;
    assert forall i :: 0 <= i < |name| ==> IsNameChar(s[i]);
    assert rest != "" ==> s[|name|] == rest[0];
  }

  lemma DigitsRunIs(digits: string, rest: string)
    requires AllDigits(digits) && (rest != "" ==> !IsDigit(rest[0]))
    ensures DigitsRun(digits + rest) == |digits|
  {
    var s := digits + rest;
    assert forall i :: 0 <= i < |digits| ==> IsDigit(s[i]);
    assert rest != "" ==> s[|digits|] == rest[0];
  }

  lemma MatchName(name: string, rest: string)
    requires IsName(name) && (rest != "" ==> !IsNameChar(rest[0]))
    ensures MatchAt("." + name + rest) == (1 + |name|, NameToken(name))
  {
    var s := "." + name + rest;
    NameRunIs(name, rest);
    assert s[1..] == name + rest;
    assert s[1..1 + |name|] == name;
  }

  lemma MatchIndex(digits: string, rest: string)
    requires IsNumeral(digits)
    ensures MatchAt("[" + digits + "]" + rest) == (2 + |digits|, IndexToken(digits))
  {
    var s := "[" + digits + "]" + rest;
    DigitsRunIs(digits, "]" + rest);
    assert s[0..] == s && NameRun(s) == 0;
    assert s[1..] == digits + ("]" + rest);
    assert s[1..1 + |digits|] == digits && s[1 + |digits|] == ']';
  }

  /** The match at a printed token is that token, all of it. */
  lemma MatchIsToken(t: Token, rest: string)
    requires IsToken(t) && (rest != "" ==> !IsNameChar(rest[0]))
    ensures MatchAt(Text(t) + rest) == (|Text(t)|, t)
  {
    match t
    case NameToken(name) => MatchName(name, rest);
    case IndexToken(digits) => MatchIndex(digits, rest);
  }

  lemma ScanOneMore(t: Token, rest: string)
    requires IsToken(t) && (rest != "" ==> !IsNameChar(rest[0]))
    ensures Scan(Text(t) + rest) == [t] + Scan(rest)
  {
    var s := Text(t) + rest;
    MatchIsToken(t, rest);
    assert s[|Text(t)|..] == rest;
  }

  lemma {:induction false} ScanPrint(tokens: seq<Token>)
    requires AreTokens(tokens)
    ensures Scan(Print(tokens)) == tokens
  {
    if tokens != [] {
      assert tokens[0] in tokens && forall t :: t in tokens[1..] ==> t in tokens;
      PrintStarts(tokens[1..]);
      ScanPrint(tokens[1..]);
      ScanOneMore(tokens[0], Print(tokens[1..]));
    }
  }

  lemma StepIsToken(s: string) returns (t: Token)
    requires IsStep(s)
    ensures IsToken(t) && Text(t) == s
  {
    if s[0] == '.' {
      t := NameToken(s[1..]);
    } else {
      t := IndexToken(s[1..|s| - 1]);
      assert s == "[" + s[1..|s| - 1] + "]";
    }
  }

  lemma TokenIsStep(t: Token)
    requires IsToken(t)
    ensures IsStep(Text(t))
  {
    var s := Text(t);
    match t
    case NameToken(name) => assert s[1..] == name;
    case IndexToken(digits) => assert s[1..|s| - 1] == digits;
  }

  lemma StepsUncons(s: string) returns (i: nat)
    requires IsSteps(s) && s != ""
    ensures 0 < i <= |s| && IsStep(s[..i]) && IsSteps(s[i..])
  {
    i :| 0 < i <= |s| && IsStep(s[..i]) && IsSteps(s[i..]);
  }

  lemma StepsCons(step: string, rest: string)
    requires IsStep(step) && IsSteps(rest)
    ensures IsSteps(step + rest)
  {
    var s := step + rest;
    assert s[..|step|] == step && s[|step|..] == rest;
  }

  lemma PrintCons(t: Token, rest: seq<Token>)
    ensures Print([t] + rest) == Text(t) + Print(rest)
  {
    assert ([t] + rest)[1..] == rest;
  }

  /** Any text of steps is the print of its tokens. */
  lemma {:induction false} StepsArePrinted(s: string) returns (tokens: seq<Token>)
    requires IsSteps(s)
    ensures AreTokens(tokens) && Print(tokens) == s
    decreases |s|
  {
    tokens := [];
    if s != "" {
      var i := StepsUncons(s);
      var t := StepIsToken(s[..i]);
      var rest := StepsArePrinted(s[i..]);
      PrintCons(t, rest);
      tokens := [t] + rest;
      assert s == s[..i] + s[i..];
    }
  }

  lemma {:induction false} PrintIsSteps(tokens: seq<Token>)
    requires AreTokens(tokens)
    ensures IsSteps(Print(tokens))
  {
    if tokens != [] {
      assert tokens[0] in tokens && forall t :: t in tokens[1..] ==> t in tokens;
      PrintIsSteps(tokens[1..]);
      TokenIsStep(tokens[0]);
      StepsCons(Text(tokens[0]), Print(tokens[1..]));
    }
  }

  predicate Undotted(s: string) { s != "" && IsNameChar(s[0]) }

  /** A path with its optional spelling settled: no `$`, and a dot before a leading name. */
  function Settled(path: string): string {
    var body := Body(path);
    if Undotted(body) then "." + body else body
  }

  lemma DotIsOptional(s: string)
    requires Undotted(s)
    ensures Scan("." + s) == Scan(s)
  {
    var d, n := "." + s, NameRun(s);
    assert d[1..] == s && s[0..] == s;
    assert d[1..1 + n] == s[..n] && d[1 + n..] == s[n..];
    assert MatchAt(d) == (1 + n, NameToken(s[..n]));
    assert s[0..0 + n] == s[..n] && MatchAt(s) == (n, NameToken(s[..n]));
  }

  lemma StepsStart(s: string)
    requires IsSteps(s) && s != ""
    ensures s[0] == '.' || s[0] == '['
  {
    var i := StepsUncons(s);
    assert s[..i][0] == s[0];
  }

  lemma DottedIsStep(name: string)
    requires IsName(name)
    ensures IsStep("." + name)
  {
    assert ("." + name)[1..] == name;
  }

  /** An accepted path without its root, split after its first step. */
  lemma NameSettles(first: string, rest: string)
    requires IsName(first)
    ensures Settled(first + rest) == "." + first + rest
  {
    var path := first + rest;
    assert path[0] == first[0];
    assert "." + path == "." + first + rest;
  }

  lemma IndexSettles(first: string, rest: string)
    requires IsIndex(first)
    ensures Settled(first + rest) == first + rest
  {
    assert (first + rest)[0] == first[0];
  }

  lemma FirstSplits(first: string, rest: string)
    requires (IsName(first) || IsIndex(first)) && IsSteps(rest)
    ensures IsSteps(Settled(first + rest))
  {
    if IsName(first) {
      DottedIsStep(first);
      StepsCons("." + first, rest);
      NameSettles(first, rest);
    } else {
      StepsCons(first, rest);
      IndexSettles(first, rest);
    }
  }

  lemma RootlessIsSteps(path: string)
    requires IsRootless(path)
    ensures IsSteps(Settled(path))
  {
    var i :| 0 < i <= |path| && (IsName(path[..i]) || IsIndex(path[..i])) && IsSteps(path[i..]);
    var first, rest := path[..i], path[i..];
    assert path == first + rest;
    FirstSplits(first, rest);
  }

  lemma SupportedIsSteps(path: string)
    requires IsSupported(path)
    ensures IsSteps(Settled(path))
  {
    if IsRootless(path) {
      RootlessIsSteps(path);
    } else if path[1..] != "" {
      StepsStart(path[1..]);
    }
  }

  /** No character of an accepted path is passed over: its tokens print back to it, the optional spelling aside. */
  lemma NothingIsSkipped(path: string)
    requires IsSupported(path)
    ensures AreTokens(Scan(Body(path))) && Print(Scan(Body(path))) == Settled(path)
  {
    SupportedIsSteps(path);
    var tokens := StepsArePrinted(Settled(path));
    ScanPrint(tokens);
    if Undotted(Body(path)) {
      DotIsOptional(Body(path));
    }
  }

  // ---- Segments ----

  predicate IsSegment(s: Segment) { s.Name? ==> IsName(s.name) }

  function TokenOf(s: Segment): Token {
    match s
    case Name(name) => NameToken(name)
    case Index(index) => IndexToken(Decimal(index))
  }

  function TokensOf(segments: seq<Segment>): seq<Token> {
    if segments == [] then [] else [TokenOf(segments[0])] + TokensOf(segments[1..])
  }

  /** A segment list's path, with the root spelled out or not. */
  function Spell(segments: seq<Segment>, dollar: bool): string {
    var steps := Print(TokensOf(segments));
    if dollar then "$" + steps else Rootless(steps)
  }

  /** Each index as a double. */
  function Doubled(segments: seq<Segment>): seq<Segment> {
    if segments == [] then []
    else [if segments[0].Index? then Index(ToDouble(segments[0].index)) else segments[0]] + Doubled(segments[1..])
  }

  lemma {:induction false} TokensRead(segments: seq<Segment>)
    requires forall s :: s in segments ==> IsSegment(s)
    ensures AreTokens(TokensOf(segments))
    ensures forall t :: t in TokensOf(segments) && t.IndexToken? ==> AllDigits(t.digits)
    ensures Segments(TokensOf(segments)) == Doubled(segments)
  {
    if segments != [] {
      assert segments[0] in segments && forall s :: s in segments[1..] ==> s in segments;
      TokensRead(segments[1..]);
      if segments[0].Index? {
        DecimalReads(segments[0].index);
      }
      assert forall t :: t in TokensOf(segments) ==> t == TokenOf(segments[0]) || t in TokensOf(segments[1..]);
      assert TokensOf(segments)[1..] == TokensOf(segments[1..]);
    }
  }

  lemma NameFirst(name: string, rest: string)
    requires IsName(name) && IsSteps(rest)
    ensures IsSupported(name + rest)
  {
    var path := name + rest;
    assert path[..|name|] == name && path[|name|..] == rest;
  }

  lemma IndexFirst(step: string, rest: string)
    requires IsIndex(step) && IsSteps(rest)
    ensures IsSupported(step + rest)
  {
    var path := step + rest;
    assert path[..|step|] == step && path[|step|..] == rest;
  }

  lemma MatchBareName(name: string, rest: string)
    requires IsName(name) && (rest != "" ==> !IsNameChar(rest[0]))
    ensures MatchAt(name + rest) == (|name|, NameToken(name))
  {
    var path := name + rest;
    NameRunIs(name, rest);
    assert path[0] == name[0] && path[0..] == path;
    assert path[0..|name|] == name;
  }

  lemma NameScan(name: string, rest: string)
    requires IsName(name) && (rest != "" ==> !IsNameChar(rest[0]))
    ensures Body(name + rest) == name + rest && Scan(name + rest) == [NameToken(name)] + Scan(rest)
  {
    MatchBareName(name, rest);
    assert (name + rest)[0] == name[0] && (name + rest)[|name|..] == rest;
  }

  lemma RootlessName(name: string, rest: seq<Token>)
    requires IsName(name) && AreTokens(rest)
    ensures var path := name + Print(rest);
            IsSupported(path) && Body(path) == path && Scan(path) == [NameToken(name)] + rest
  {
    PrintIsSteps(rest);
    ScanPrint(rest);
    PrintStarts(rest);
    NameScan(name, Print(rest));
    NameFirst(name, Print(rest));
  }

  lemma RootlessIndex(t: Token, rest: seq<Token>)
    requires t.IndexToken? && IsToken(t) && AreTokens(rest)
    ensures var path := Text(t) + Print(rest);
            IsSupported(path) && Body(path) == path && Scan(path) == [t] + rest
  {
    PrintIsSteps(rest);
    TokenIsStep(t);
    IndexFirst(Text(t), Print(rest));
    ScanPrint(rest);
    PrintStarts(rest);
    ScanOneMore(t, Print(rest));
  }

  /** A path that prints the tokens, and what it reads back as. */
  lemma RootPrint(tokens: seq<Token>)
    requires AreTokens(tokens)
    ensures var q := "$" + Print(tokens);
            IsSupported(q) && Scan(Body(q)) == tokens && Settled(q) == Print(tokens)
  {
    var q := "$" + Print(tokens);
    PrintIsSteps(tokens);
    ScanPrint(tokens);
    PrintStarts(tokens);
    assert q[1..] == Print(tokens);
  }

  lemma RootSpell(segments: seq<Segment>)
    requires AreTokens(TokensOf(segments))
    ensures IsSupported(Spell(segments, true)) && Scan(Body(Spell(segments, true))) == TokensOf(segments)
  {
    RootPrint(TokensOf(segments));
  }

  /** A path without its root: the steps, less a leading dot. */
  function Rootless(steps: string): string { if steps != "" && steps[0] == '.' then steps[1..] else steps }

  lemma RootlessStep(t: Token, rest: string)
    ensures Rootless(Text(t) + rest) == if t.NameToken? then t.name + rest else Text(t) + rest
  {
    if t.NameToken? {
      assert ("." + t.name + rest)[1..] == t.name + rest;
    } else {
      assert (Text(t) + rest)[0] == '[';
    }
  }

  lemma RootlessSpell(segments: seq<Segment>)
    requires AreTokens(TokensOf(segments)) && segments != []
    ensures IsSupported(Spell(segments, false)) && Scan(Body(Spell(segments, false))) == TokensOf(segments)
  {
    var t, rest := TokenOf(segments[0]), TokensOf(segments[1..]);
    PrintCons(t, rest);
    RootlessStep(t, Print(rest));
    assert t in TokensOf(segments) && forall u :: u in rest ==> u in TokensOf(segments);
    if t.NameToken? {
      RootlessName(t.name, rest);
    } else {
      RootlessIndex(t, rest);
    }
  }

  lemma SpellIsSupported(segments: seq<Segment>, dollar: bool)
    requires (forall s :: s in segments ==> IsSegment(s)) && (dollar || segments != [])
    ensures IsSupported(Spell(segments, dollar)) && Scan(Body(Spell(segments, dollar))) == TokensOf(segments)
  {
    TokensRead(segments);
    if dollar {
      RootSpell(segments);
    } else {
      RootlessSpell(segments);
    }
  }

  /**
   * Printing and parsing: a well-formed segment list reads back as itself, each index as its double. It is the very
   * list exactly when every index is a double already.
   */
  lemma ParsePrint(segments: seq<Segment>, dollar: bool)
    requires (forall s :: s in segments ==> IsSegment(s)) && (dollar || segments != [])
    ensures Parse(Spell(segments, dollar)) == Some(Doubled(segments))
    ensures Parse(Spell(segments, dollar)) == Some(segments)
       <==> forall s :: s in segments && s.Index? ==> ToDouble(s.index) == s.index
  {
    SpellIsSupported(segments, dollar);
    TokensRead(segments);
    DoubledIsSame(segments);
  }

  /** A bare word is a path to its own key exactly when it is letters, digits, underscores and dashes. */
  lemma BareName(s: string)
    ensures Parse(s) == Some([Name(s)])
       <==> && s != ""
            && forall i :: 0 <= i < |s| ==>
                 'A' <= s[i] <= 'Z' || 'a' <= s[i] <= 'z' || '0' <= s[i] <= '9' || s[i] == '_' || s[i] == '-'
  {
    if IsName(s) {
      NameReads(s);
    } else {
      OnlyNamesRead(s);
    }
  }

  lemma OneNameSpells(s: string)
    ensures Spell([Name(s)], false) == s
  {
    var one := [Name(s)];
    assert one[1..] == [] && TokensOf(one) == [NameToken(s)] + [];
    PrintCons(NameToken(s), []);
    assert ("." + s)[1..] == s;
  }

  lemma NameReads(s: string)
    requires IsName(s)
    ensures Parse(s) == Some([Name(s)])
  {
    OneNameSpells(s);
    ParsePrint([Name(s)], false);
  }

  lemma OnlyNamesRead(s: string)
    requires !IsName(s)
    ensures Parse(s) != Some([Name(s)])
  {
    if IsSupported(s) {
      NothingIsSkipped(s);
      NoSuchToken(Scan(Body(s)), s);
    }
  }

  lemma NoSuchToken(tokens: seq<Token>, s: string)
    requires AreTokens(tokens) && !IsName(s) && forall t :: t in tokens && t.IndexToken? ==> AllDigits(t.digits)
    ensures Segments(tokens) != [Name(s)]
  {
    if tokens != [] {
      assert tokens[0] in tokens && Segments(tokens)[0] == SegmentOf(tokens[0]);
    }
  }

  lemma {:induction false} DoubledIsSame(segments: seq<Segment>)
    ensures Doubled(segments) == segments <==> forall s :: s in segments && s.Index? ==> ToDouble(s.index) == s.index
  {
    if segments != [] {
      DoubledIsSame(segments[1..]);
      var d := Doubled(segments);
      assert d[1..] == Doubled(segments[1..]);
      assert segments == [segments[0]] + segments[1..];
      assert d == segments <==> d[0] == segments[0] && d[1..] == segments[1..];
      assert forall s :: s in segments <==> s == segments[0] || s in segments[1..];
    }
  }

  /** A token whose number is the only one with its double is its segment's only spelling. */
  lemma SegmentSpelling(t: Token)
    requires IsToken(t) && (SegmentOf(t).Index? ==> OneNumeral(SegmentOf(t).index))
    ensures TokenOf(SegmentOf(t)) == t
  {
    if t.IndexToken? {
      OneNumeralIsUnique(SegmentOf(t).index, Number(t.digits));
      NumeralIsDecimal(t.digits);
    }
  }

  ghost predicate OneSpellingEach(segments: seq<Segment>) {
    forall s :: s in segments && s.Index? ==> OneNumeral(s.index)
  }

  lemma TokensCons(s: Segment, rest: seq<Segment>)
    ensures TokensOf([s] + rest) == [TokenOf(s)] + TokensOf(rest)
  {
    assert ([s] + rest)[1..] == rest;
  }

  lemma {:induction false} SegmentsSpelling(tokens: seq<Token>)
    requires AreTokens(tokens) && (forall t :: t in tokens && t.IndexToken? ==> AllDigits(t.digits))
    requires OneSpellingEach(Segments(tokens))
    ensures TokensOf(Segments(tokens)) == tokens
  {
    if tokens != [] {
      var all, rest := Segments(tokens), Segments(tokens[1..]);
      assert all == [SegmentOf(tokens[0])] + rest && tokens[0] in tokens;
      assert all[0] in all && forall s :: s in rest ==> s in all;
      SegmentSpelling(tokens[0]);
      SegmentsSpelling(tokens[1..]);
      TokensCons(all[0], rest);
    }
  }

  lemma {:induction false} SegmentsAt(tokens: seq<Token>, i: nat)
    requires i < |tokens| && forall t :: t in tokens && t.IndexToken? ==> AllDigits(t.digits)
    ensures |Segments(tokens)| == |tokens| && Segments(tokens)[i] == SegmentOf(tokens[i])
  {
    if i > 0 {
      SegmentsAt(tokens[1..], i - 1);
    } else if |tokens| > 1 {
      SegmentsAt(tokens[1..], 0);
    }
  }

  /** The tokens with the number of one of them replaced. */
  function Renumbered(tokens: seq<Token>, i: nat, n: nat): seq<Token>
    requires i < |tokens|
  {
    tokens[i := IndexToken(Decimal(n))]
  }

  /** A number with the same double reads as the same segments. */
  lemma RenumberedReads(tokens: seq<Token>, i: nat, n: nat)
    requires AreTokens(tokens) && forall t :: t in tokens && t.IndexToken? ==> AllDigits(t.digits)
    requires i < |tokens| && tokens[i].IndexToken? && ToDouble(n) == ToDouble(Number(tokens[i].digits))
    ensures AreTokens(Renumbered(tokens, i, n))
    ensures forall t :: t in Renumbered(tokens, i, n) && t.IndexToken? ==> AllDigits(t.digits)
    ensures Segments(Renumbered(tokens, i, n)) == Segments(tokens)
  {
    var others := Renumbered(tokens, i, n);
    DecimalReads(n);
    forall t | t in others ensures IsToken(t) && (t.IndexToken? ==> AllDigits(t.digits)) {
      var j :| 0 <= j < |others| && others[j] == t;
      assert j != i ==> tokens[j] in tokens;
    }
    SegmentsAt(tokens, i);
    SegmentsAt(others, i);
    forall j | 0 <= j < |tokens| ensures Segments(others)[j] == Segments(tokens)[j] {
      SegmentsAt(tokens, j);
      SegmentsAt(others, j);
    }
  }

  /** Of two numbers with one double, one is not the token's. */
  lemma OtherNumber(t: Token) returns (n: nat)
    requires IsToken(t) && t.IndexToken? && !OneNumeral(ToDouble(Number(t.digits)))
    ensures Decimal(n) != t.digits && ToDouble(n) == ToDouble(Number(t.digits))
  {
    var v := ToDouble(Number(t.digits));
    DoubleIsDouble(Number(t.digits));
    LargeIndexesCollide(v);
    DecimalReads(v);
    DecimalReads(v + 1);
    n := if t.digits == Decimal(v) then v + 1 else v;
  }

  lemma OtherTokens(tokens: seq<Token>, i: nat) returns (others: seq<Token>)
    requires AreTokens(tokens) && (forall t :: t in tokens && t.IndexToken? ==> AllDigits(t.digits))
    requires i < |Segments(tokens)| && Segments(tokens)[i].Index? && !OneNumeral(Segments(tokens)[i].index)
    ensures AreTokens(others) && others != tokens
    ensures forall t :: t in others && t.IndexToken? ==> AllDigits(t.digits)
    ensures Segments(others) == Segments(tokens)
  {
    if tokens != [] {
      SegmentsAt(tokens, 0);
      SegmentsAt(tokens, i);
    }
    assert tokens[i] in tokens;
    var n := OtherNumber(tokens[i]);
    RenumberedReads(tokens, i, n);
    others := Renumbered(tokens, i, n);
    assert others[i] != tokens[i];
  }

  /** An index with a second numeral gives its path a second spelling. */
  lemma OtherSpelling(p: string, i: nat) returns (q: string)
    requires IsSupported(p) && i < |Parse(p).value| && Parse(p).value[i].Index?
    requires !OneNumeral(Parse(p).value[i].index)
    ensures IsSupported(q) && Parse(q) == Parse(p) && Settled(q) != Settled(p)
  {
    NothingIsSkipped(p);
    var tokens := Scan(Body(p));
    var others := OtherTokens(tokens, i);
    RootPrint(others);
    q := "$" + Print(others);
    ScanPrint(tokens);
    ScanPrint(others);
  }

  /** Every path that reads as this one does is spelled as it is, the optional root and leading dot aside. */
  ghost predicate HasOneSpelling(p: string) {
    forall q :: IsSupported(q) && Parse(q) == Parse(p) ==> Settled(q) == Settled(p)
  }

  /** One value has one spelling exactly when each of its indexes has one numeral. */
  lemma OneSpellingIff(p: string)
    requires IsSupported(p)
    ensures HasOneSpelling(p) <==> OneSpellingEach(Parse(p).value)
  {
    if OneSpellingEach(Parse(p).value) {
      forall q | IsSupported(q) && Parse(q) == Parse(p) ensures Settled(q) == Settled(p) {
        NothingIsSkipped(p);
        NothingIsSkipped(q);
        SegmentsSpelling(Scan(Body(p)));
        SegmentsSpelling(Scan(Body(q)));
      }
    } else {
      var s :| s in Parse(p).value && s.Index? && !OneNumeral(s.index);
      var i :| 0 <= i < |Parse(p).value| && Parse(p).value[i] == s;
      var q := OtherSpelling(p, i);
    }
  }

  /** Paths spelled alike read alike; the converse holds wherever each index has one numeral. */
  lemma SegmentsDecideSpelling(p: string, q: string)
    requires IsSupported(p) && IsSupported(q)
    ensures Settled(p) == Settled(q) ==> Parse(p) == Parse(q)
    ensures OneSpellingEach(Parse(p).value) ==> (Parse(p) == Parse(q) <==> Settled(p) == Settled(q))
  {
    NothingIsSkipped(p);
    NothingIsSkipped(q);
    ScanPrint(Scan(Body(p)));
    ScanPrint(Scan(Body(q)));
    if OneSpellingEach(Parse(p).value) {
      OneSpellingIff(p);
    }
  }
}
