/** The decisions a redirect hop needs, after the "HTTP-redirect fetch" section of the WHATWG Fetch Standard. */
module RedirectRules {
  import opened Wrappers

  datatype Url = Url(protocol: string, hostname: string, port: string, rest: string)

  datatype Header = Header(name: string, value: string)

  predicate IsFollowedRedirect(status: int) { status in {301, 302, 303, 307, 308} }

  function UpperChar(c: char): char { if 'a' <= c <= 'z' then c - ('a' - 'A') else c }

  function LowerChar(c: char): char { if 'A' <= c <= 'Z' then c + ('a' - 'A') else c }

  function Upper(s: string): string { seq(|s|, i requires 0 <= i < |s| => UpperChar(s[i])) }

  function Lower(s: string): string { seq(|s|, i requires 0 <= i < |s| => LowerChar(s[i])) }

  predicate IsBodyHeader(name: string) {
    Lower(name) in {"content-encoding", "content-language", "content-location", "content-type"}
  }

  function MethodForRedirect(status: int, verb: string): string {
    var current := Upper(verb);
    if status == 303 then if current == "GET" || current == "HEAD" then current else "GET"
    else if (status == 301 || status == 302) && current == "POST" then "GET"
    else current
  }

  lemma UpperTwice(s: string)
    ensures Upper(Upper(s)) == Upper(s)
  {
  }

  /** Alike but for the case of the letters from a to z. */
  predicate AnyCase(a: string, b: string) {
    && |a| == |b|
    && forall i :: 0 <= i < |a| ==>
         || a[i] == b[i]
         || ('a' <= a[i] <= 'z' && b[i] as int == a[i] as int - 32)
         || ('a' <= b[i] <= 'z' && a[i] as int == b[i] as int - 32)
  }

  /** The upper-case form is the only spelling, in any case, with no small letter. */
  lemma UpperIsAnyCase(s: string, t: string)
    ensures t == Upper(s) <==> AnyCase(s, t) && forall i :: 0 <= i < |t| ==> !('a' <= t[i] <= 'z')
  {
  }

  /** A header is a body header under any spelling of the four names. */
  lemma BodyHeadersInAnyCase(name: string)
    ensures IsBodyHeader(name)
       <==> || AnyCase(name, "content-encoding") || AnyCase(name, "content-language")
            || AnyCase(name, "content-location") || AnyCase(name, "content-type")
  {
    LowerIs(name, "content-encoding");
    LowerIs(name, "content-language");
    LowerIs(name, "content-location");
    LowerIs(name, "content-type");
  }

  lemma LowerIs(s: string, t: string)
    requires forall i :: 0 <= i < |t| ==> !('A' <= t[i] <= 'Z')
    ensures Lower(s) == t <==> AnyCase(s, t)
  {
  }

  predicate Bodyless(verb: string) { verb == "GET" || verb == "HEAD" }

  /** Statuses and methods for which the standard turns the next request into a `GET`. */
  predicate TurnsIntoGet(status: int, verb: string) {
    (status == 303 && !Bodyless(verb)) || ((status == 301 || status == 302) && verb == "POST")
  }

  /** Of an upper-case method the rule changes exactly those the standard does, each to `GET`. */
  lemma RewritesExactly(status: int, verb: string)
    requires Upper(verb) == verb
    ensures var next := MethodForRedirect(status, verb);
            && Upper(next) == next
            && next == (if TurnsIntoGet(status, verb) then "GET" else verb)
            && (next != verb <==> TurnsIntoGet(status, verb))
            && (Bodyless(verb) ==> next == verb)
  {
    assert Upper("GET") == "GET";
  }

  function DefaultPort(u: Url): string { if u.protocol == "https:" then "443" else "80" }

  function PortOf(u: Url): string { if u.port == "" then DefaultPort(u) else u.port }

  /** Scheme, host and port. */
  predicate SameOrigin(a: Url, b: Url) {
    a.protocol + "//" + a.hostname + ":" + PortOf(a) == b.protocol + "//" + b.hostname + ":" + PortOf(b)
  }

  /** Origins agree exactly when scheme, host and port do, a missing port being the scheme's own. */
  lemma OriginIsSchemeHostPort(a: Url, b: Url)
    requires '/' !in a.protocol && '/' !in b.protocol && ':' !in a.port && ':' !in b.port
    ensures SameOrigin(a, b)
       <==> && a.protocol == b.protocol && a.hostname == b.hostname
            && (var own := if a.protocol == "https:" then "443" else "80";
                (if a.port == "" then own else a.port) == if b.port == "" then own else b.port)
  {
    if SameOrigin(a, b) {
      var x, y := "//" + a.hostname + ":" + PortOf(a), "//" + b.hostname + ":" + PortOf(b);
      assert a.protocol + x == a.protocol + "//" + a.hostname + ":" + PortOf(a);
      assert b.protocol + y == b.protocol + "//" + b.hostname + ":" + PortOf(b);
      SplitsOnce(a.protocol, x, b.protocol, y, '/');
      var p, q := "//" + a.hostname, "//" + b.hostname;
      assert p + (":" + PortOf(a)) == x && q + (":" + PortOf(b)) == y;
      SplitsLast(p, PortOf(a), q, PortOf(b));
      assert a.hostname == p[2..] == q[2..] == b.hostname;
    }
  }

  /** Text before the first `c` is the same in equal texts, and so is what follows. */
  lemma SplitsOnce(a: string, x: string, b: string, y: string, c: char)
    requires c !in a && c !in b && x != [] && y != [] && x[0] == y[0] == c && a + x == b + y
    ensures a == b && x == y
  {
    var s := a + x;
    assert s[|a|] == c == s[|b|];
    assert (forall i :: 0 <= i < |a| ==> s[i] != c) && (forall i :: 0 <= i < |b| ==> s[i] != c);
    assert a == s[..|a|] && b == s[..|b|] && x == s[|a|..] && y == s[|b|..];
  }

  /** Text after the last colon is the same in equal texts, and so is what comes before. */
  lemma SplitsLast(p: string, x: string, q: string, y: string)
    requires ':' !in x && ':' !in y && p + (":" + x) == q + (":" + y)
    ensures p == q && x == y
  {
    var s := p + (":" + x);
    assert s[|p|] == ':' == s[|q|];
    assert forall i :: |p| < i < |s| ==> s[i] == x[i - |p| - 1];
    assert forall i :: |q| < i < |s| ==> s[i] == y[i - |q| - 1];
    assert p == s[..|p|] && q == s[..|q|] && x == s[|p| + 1..] && y == s[|q| + 1..];
  }

  function WithoutBodyHeaders(headers: seq<Header>): (kept: seq<Header>)
    ensures forall h :: h in kept <==> h in headers && !IsBodyHeader(h.name)
  {
    if headers == [] then []
    else
      var rest := WithoutBodyHeaders(headers[1..]);
      if IsBodyHeader(headers[0].name) then rest else [headers[0]] + rest
  }

  /** Header by header, in order: a body header goes, any other stays. */
  lemma {:induction false} WithoutOneByOne(a: seq<Header>, h: Header)
    ensures WithoutBodyHeaders(a + [h]) == WithoutBodyHeaders(a) + if IsBodyHeader(h.name) then [] else [h]
  {
    if a == [] {
      assert a + [h] == [h];
    } else {
      WithoutOneByOne(a[1..], h);
      assert (a + [h])[1..] == a[1..] + [h];
    }
  }

  lemma {:induction false} WithoutTwice(headers: seq<Header>)
    ensures WithoutBodyHeaders(WithoutBodyHeaders(headers)) == WithoutBodyHeaders(headers)
  {
    if headers != [] {
      WithoutTwice(headers[1..]);
      var kept := WithoutBodyHeaders(headers);
      if !IsBodyHeader(headers[0].name) {
        assert kept[1..] == WithoutBodyHeaders(headers[1..]);
      }
    }
  }

  /** Headers for the next hop, and whether they are gone for good. */
  function HeadersForHop(headers: seq<Header>, target: Url, origin: Url, alreadyDropped: bool, rewrittenToGet: bool)
    : (seq<Header>, bool)
  {
    if alreadyDropped || !SameOrigin(target, origin) then ([], true)
    else if !rewrittenToGet then (headers, false)
    else (WithoutBodyHeaders(headers), false)
  }
}
