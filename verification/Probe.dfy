/** The redirect loop of a probe: which requests are sent, and how it ends. */
module Probe {
  import opened Wrappers
  import opened RedirectRules

  type Bytes = seq<bv8>

  datatype Endpoint = Endpoint(url: Url, verb: string, headers: seq<Header>, body: Option<Bytes>,
                               followRedirects: bool, maxRedirects: nat)

  /** What one hop meets: a guard's refusal before anything is sent, a network failure, or a response. */
  datatype Reply = Blocked | Broken | Response(status: int, location: Option<string>)

  datatype Verdict = Refused | NetworkFailure | TooManyRedirects | InvalidLocation | Evaluated(status: int)

  /** A request as it goes out. */
  datatype Request = Request(target: Url, verb: string, headers: seq<Header>, body: Option<Bytes>)

  datatype Hop = Hop(target: Url, verb: string, headers: seq<Header>, dropped: bool, redirects: nat)

  /** `new URL(location, target)`. */
  type Resolver = (string, Url) -> Option<Url>

  function Min(a: nat, b: nat): nat { if a < b then a else b }

  function First(e: Endpoint): Hop { Hop(e.url, Upper(e.verb), e.headers, false, 0) }

  function Sent(e: Endpoint, h: Hop): Request {
    Request(h.target, h.verb, h.headers, if Bodyless(h.verb) then None else e.body)
  }

  /** The `Location` of a redirect that is to be followed. */
  function Target(e: Endpoint, r: Reply): Option<string> {
    if r.Response? && e.followRedirects && IsFollowedRedirect(r.status) && r.location.Some? && r.location.value != ""
    then r.location else None
  }

  /** Where a hop leads: a verdict, or the next hop. */
  function Outcome(e: Endpoint, cap: nat, resolve: Resolver, h: Hop, r: Reply): Result<Hop, Verdict> {
    match r
    case Blocked => Err(Refused)
    case Broken => Err(NetworkFailure)
    case Response(status, _) =>
      var location := Target(e, r);
      if location.None? then Err(Evaluated(status))
      else if h.redirects >= Min(e.maxRedirects, cap) then Err(TooManyRedirects)
      else
        match resolve(location.value, h.target)
        case None => Err(InvalidLocation)
        case Some(next) =>
          var verb := MethodForRedirect(status, h.verb);
          var (headers, dropped) := HeadersForHop(h.headers, next, e.url, h.dropped, verb != h.verb);
          Ok(Hop(next, verb, headers, dropped, h.redirects + 1))
  }

  /** The hops from `h` to the one that gives a verdict. */
  function HopsFrom(e: Endpoint, cap: nat, resolve: Resolver, replies: nat -> Reply, h: Hop): (hops: seq<Hop>)
    requires h.redirects <= Min(e.maxRedirects, cap)
    ensures 1 <= |hops| <= Min(e.maxRedirects, cap) + 1 - h.redirects
    decreases Min(e.maxRedirects, cap) - h.redirects
  {
    match Outcome(e, cap, resolve, h, replies(h.redirects))
    case Err(_) => [h]
    case Ok(next) => [h] + HopsFrom(e, cap, resolve, replies, next)
  }

  function Hops(e: Endpoint, cap: nat, resolve: Resolver, replies: nat -> Reply): (hops: seq<Hop>)
    ensures 1 <= |hops| <= Min(e.maxRedirects, cap) + 1
  {
    HopsFrom(e, cap, resolve, replies, First(e))
  }

  /** Hops that lead one to the next, from the configured request. */
  ghost predicate IsChain(e: Endpoint, cap: nat, resolve: Resolver, replies: nat -> Reply, hops: seq<Hop>) {
    && hops != [] && hops[0] == First(e)
    && forall i :: 0 <= i < |hops| - 1 ==> Outcome(e, cap, resolve, hops[i], replies(i)) == Ok(hops[i + 1])
  }

  /** A chain that ends in a verdict. */
  ghost predicate Ends(e: Endpoint, cap: nat, resolve: Resolver, replies: nat -> Reply, hops: seq<Hop>) {
    IsChain(e, cap, resolve, replies, hops) && Outcome(e, cap, resolve, hops[|hops| - 1], replies(|hops| - 1)).Err?
  }

  lemma HopsUnroll(e: Endpoint, cap: nat, resolve: Resolver, replies: nat -> Reply, h: Hop)
    requires h.redirects <= Min(e.maxRedirects, cap)
    ensures var r := Outcome(e, cap, resolve, h, replies(h.redirects));
            && (r.Ok? ==> r.value.redirects == h.redirects + 1 <= Min(e.maxRedirects, cap))
            && HopsFrom(e, cap, resolve, replies, h)
                 == if r.Ok? then [h] + HopsFrom(e, cap, resolve, replies, r.value) else [h]
  {
  }

  /** Hops from `h` count on from its own number of redirects, lead one to the next, and end in a verdict. */
  ghost predicate Leads(e: Endpoint, cap: nat, resolve: Resolver, replies: nat -> Reply, h: Hop, hops: seq<Hop>) {
    && hops != [] && hops[0] == h
    && (forall i :: 0 <= i < |hops| ==> hops[i].redirects == h.redirects + i)
    && (forall i :: 0 <= i < |hops| - 1 ==>
          Outcome(e, cap, resolve, hops[i], replies(hops[i].redirects)) == Ok(hops[i + 1]))
    && Outcome(e, cap, resolve, hops[|hops| - 1], replies(hops[|hops| - 1].redirects)).Err?
  }

  lemma {:induction false} HopsFromLead(e: Endpoint, cap: nat, resolve: Resolver, replies: nat -> Reply, h: Hop)
    requires h.redirects <= Min(e.maxRedirects, cap)
    ensures Leads(e, cap, resolve, replies, h, HopsFrom(e, cap, resolve, replies, h))
    decreases Min(e.maxRedirects, cap) - h.redirects
  {
    HopsUnroll(e, cap, resolve, replies, h);
    var r := Outcome(e, cap, resolve, h, replies(h.redirects));
    if r.Ok? {
      HopsFromLead(e, cap, resolve, replies, r.value);
      LeadsPrepend(e, cap, resolve, replies, h, HopsFrom(e, cap, resolve, replies, r.value));
    }
  }

  lemma LeadsPrepend(e: Endpoint, cap: nat, resolve: Resolver, replies: nat -> Reply, h: Hop, rest: seq<Hop>)
    requires rest != [] && Outcome(e, cap, resolve, h, replies(h.redirects)) == Ok(rest[0])
    requires rest[0].redirects == h.redirects + 1 && Leads(e, cap, resolve, replies, rest[0], rest)
    ensures Leads(e, cap, resolve, replies, h, [h] + rest)
  {
    var hops := [h] + rest;
    assert forall i :: 0 < i < |hops| ==> hops[i] == rest[i - 1];
  }

  /** The hops are the only chain that ends in a verdict, and how it ends is the verdict. */
  lemma HopsAreTheChain(e: Endpoint, cap: nat, resolve: Resolver, replies: nat -> Reply, hops: seq<Hop>)
    ensures hops == Hops(e, cap, resolve, replies) <==> Ends(e, cap, resolve, replies, hops)
  {
    var all := Hops(e, cap, resolve, replies);
    HopsFromLead(e, cap, resolve, replies, First(e));
    LeadsIsChain(e, cap, resolve, replies, all);
    if Ends(e, cap, resolve, replies, hops) {
      OneChainEnds(e, cap, resolve, replies, hops, all);
    }
  }

  lemma LeadsIsChain(e: Endpoint, cap: nat, resolve: Resolver, replies: nat -> Reply, hops: seq<Hop>)
    requires Leads(e, cap, resolve, replies, First(e), hops)
    ensures Ends(e, cap, resolve, replies, hops)
  {
    assert forall i :: 0 <= i < |hops| ==> hops[i].redirects == i;
  }

  lemma OneChainEnds(e: Endpoint, cap: nat, resolve: Resolver, replies: nat -> Reply, a: seq<Hop>, b: seq<Hop>)
    requires Ends(e, cap, resolve, replies, a) && Ends(e, cap, resolve, replies, b)
    ensures a == b
  {
    ChainsAgree(e, cap, resolve, replies, a, b, |a| - 1);
    ChainsAgree(e, cap, resolve, replies, b, a, |b| - 1);
    assert a == a[..|a| - 1 + 1] && b == b[..|b| - 1 + 1];
  }

  lemma {:induction false} ChainsAgree(e: Endpoint, cap: nat, resolve: Resolver, replies: nat -> Reply, a: seq<Hop>,
                                      b: seq<Hop>, k: nat)
    requires IsChain(e, cap, resolve, replies, a) && IsChain(e, cap, resolve, replies, b) && k < |a|
    requires Outcome(e, cap, resolve, b[|b| - 1], replies(|b| - 1)).Err?
    ensures k < |b| && a[..k + 1] == b[..k + 1]
  {
    if k > 0 {
      ChainsAgree(e, cap, resolve, replies, a, b, k - 1);
      assert a[k - 1] == a[..k][k - 1] == b[..k][k - 1] == b[k - 1];
      assert Outcome(e, cap, resolve, a[k - 1], replies(k - 1)) == Ok(a[k - 1 + 1]);
      assert a[..k + 1] == a[..k] + [a[k]] && b[..k + 1] == b[..k] + [b[k]];
    }
  }

  /** One hop: the request it sends, if any, and a verdict or the next hop. */
  method AttemptHop(e: Endpoint, cap: nat, resolve: Resolver, h: Hop, reply: Reply)
    returns (sent: Option<Request>, r: Result<Hop, Verdict>)
    ensures r == Outcome(e, cap, resolve, h, reply)
    ensures sent == if reply.Blocked? then None else Some(Sent(e, h))
  {
    if reply.Blocked? {
      return None, Err(Refused);
    }
    sent := Some(Request(h.target, h.verb, h.headers, if h.verb == "GET" || h.verb == "HEAD" then None else e.body));
    if reply.Broken? {
      return sent, Err(NetworkFailure);
    }
    if !(e.followRedirects && IsFollowedRedirect(reply.status)) || reply.location.None? || reply.location.value == "" {
      return sent, Err(Evaluated(reply.status));
    }
    if h.redirects >= Min(e.maxRedirects, cap) {
      return sent, Err(TooManyRedirects);
    }
    var next := resolve(reply.location.value, h.target);
    if next.None? {
      return sent, Err(InvalidLocation);
    }
    var verb := MethodForRedirect(reply.status, h.verb);
    var (headers, dropped) := HeadersForHop(h.headers, next.value, e.url, h.dropped, verb != h.verb);
    r := Ok(Hop(next.value, verb, headers, dropped, h.redirects + 1));
  }

  /** The requests of these hops, in order. */
  ghost predicate Sends(e: Endpoint, sent: seq<Request>, hops: seq<Hop>) {
    |sent| == |hops| && forall i :: 0 <= i < |sent| ==> sent[i] == Sent(e, hops[i])
  }

  lemma SendsOneMore(e: Endpoint, sent: seq<Request>, hops: seq<Hop>, h: Hop)
    requires Sends(e, sent, hops)
    ensures Sends(e, sent + [Sent(e, h)], hops + [h])
  {
  }

  /** The last hop sends its request too, unless its address was refused. */
  lemma LastIsSent(e: Endpoint, sent: seq<Request>, done: seq<Hop>, last: Hop, request: Option<Request>)
    requires Sends(e, sent, done) && (request.None? || request == Some(Sent(e, last)))
    ensures var hops, all := done + [last], if request.Some? then sent + [request.value] else sent;
            && |all| == (if request.None? then |hops| - 1 else |hops|)
            && forall i :: 0 <= i < |all| ==> all[i] == Sent(e, hops[i])
  {
  }

  lemma HopsJoin(done: seq<Hop>, h: Hop, rest: seq<Hop>)
    ensures done + ([h] + rest) == (done + [h]) + rest
  {
  }

  lemma RefusedIff(e: Endpoint, cap: nat, resolve: Resolver, h: Hop, r: Reply)
    ensures Outcome(e, cap, resolve, h, r) == Err(Refused) <==> r.Blocked?
  {
  }

  /** A response whose `Location` is to be followed: asked for, one of the five statuses, and not empty. */
  predicate Redirects(e: Endpoint, r: Reply) {
    && r.Response? && e.followRedirects && r.status in {301, 302, 303, 307, 308}
    && r.location.Some? && r.location.value != ""
  }

  lemma RedirectsIff(e: Endpoint, r: Reply)
    ensures Redirects(e, r) <==> Target(e, r).Some?
    ensures Redirects(e, r) ==> Target(e, r) == r.location
  {
  }

  /** Each request goes where the response to the one before it sends it, the first to the configured URL. */
  ghost predicate Routed(e: Endpoint, cap: nat, resolve: Resolver, replies: nat -> Reply, sent: seq<Request>) {
    && (sent != [] ==> sent[0].target == e.url && sent[0].verb == Upper(e.verb))
    && forall k :: 0 < k < |sent| ==> GoesOn(e, cap, resolve, k, replies(k - 1), sent[k - 1].target, sent[k].target)
  }

  /** The `k`-th redirect, answering a request to `from`, leads to `to`. */
  ghost predicate GoesOn(e: Endpoint, cap: nat, resolve: Resolver, k: nat, r: Reply, from: Url, to: Url) {
    Redirects(e, r) && k <= e.maxRedirects && k <= cap && resolve(r.location.value, from) == Some(to)
  }

  /** Why the requests end in this verdict: `r` answers the last of them, or the one that would come next. */
  ghost predicate EndsFor(e: Endpoint, cap: nat, resolve: Resolver, replies: nat -> Reply, sent: seq<Request>,
                          verdict: Verdict)
  {
    if verdict.Refused? then replies(|sent|).Blocked?
    else
      && sent != []
      && var n, r := |sent| - 1, replies(|sent| - 1);
         match verdict
         case NetworkFailure => r.Broken?
         case Evaluated(status) => r.Response? && r.status == status && !Redirects(e, r)
         case TooManyRedirects => Redirects(e, r) && n >= Min(e.maxRedirects, cap)
         case InvalidLocation =>
           Redirects(e, r) && n < Min(e.maxRedirects, cap) && resolve(r.location.value, sent[n].target) == None
  }

  lemma ChainIsRouted(e: Endpoint, cap: nat, resolve: Resolver, replies: nat -> Reply, hops: seq<Hop>,
                      sent: seq<Request>)
    requires IsChain(e, cap, resolve, replies, hops) && (forall i :: 0 <= i < |hops| ==> hops[i].redirects == i)
    requires |sent| <= |hops| && forall i :: 0 <= i < |sent| ==> sent[i] == Sent(e, hops[i])
    ensures Routed(e, cap, resolve, replies, sent)
  {
    forall k | 0 < k < |sent|
      ensures GoesOn(e, cap, resolve, k, replies(k - 1), sent[k - 1].target, sent[k].target)
    {
      assert hops[k] == hops[k - 1 + 1];
      HopIsRouted(e, cap, resolve, hops[k - 1], replies(k - 1), hops[k]);
    }
  }

  lemma RunIsRouted(e: Endpoint, cap: nat, resolve: Resolver, replies: nat -> Reply, sent: seq<Request>,
                    verdict: Verdict)
    requires SentAlong(e, cap, resolve, replies, Hops(e, cap, resolve, replies), sent, verdict)
    ensures Routed(e, cap, resolve, replies, sent) && EndsFor(e, cap, resolve, replies, sent, verdict)
  {
    var hops := Hops(e, cap, resolve, replies);
    HopsFromLead(e, cap, resolve, replies, First(e));
    LeadsIsChain(e, cap, resolve, replies, hops);
    LeadsCount(e, cap, resolve, replies, hops);
    ChainIsRouted(e, cap, resolve, replies, hops, sent);
    HopEndsFor(e, cap, resolve, hops[|hops| - 1], replies(|hops| - 1), verdict);
  }

  lemma LeadsCount(e: Endpoint, cap: nat, resolve: Resolver, replies: nat -> Reply, hops: seq<Hop>)
    requires Leads(e, cap, resolve, replies, First(e), hops)
    ensures forall i :: 0 <= i < |hops| ==> hops[i].redirects == i
  {
  }

  lemma HopIsRouted(e: Endpoint, cap: nat, resolve: Resolver, h: Hop, r: Reply, next: Hop)
    requires Outcome(e, cap, resolve, h, r) == Ok(next)
    ensures Redirects(e, r) && h.redirects < e.maxRedirects && h.redirects < cap
    ensures resolve(r.location.value, h.target) == Some(next.target)
  {
    RedirectsIff(e, r);
  }

  lemma HopEndsFor(e: Endpoint, cap: nat, resolve: Resolver, h: Hop, r: Reply, verdict: Verdict)
    requires Outcome(e, cap, resolve, h, r) == Err(verdict)
    ensures match verdict
            case Refused => r.Blocked?
            case NetworkFailure => r.Broken?
            case Evaluated(status) => r.Response? && r.status == status && !Redirects(e, r)
            case TooManyRedirects => Redirects(e, r) && h.redirects >= Min(e.maxRedirects, cap)
            case InvalidLocation =>
              && Redirects(e, r) && h.redirects < Min(e.maxRedirects, cap)
              && resolve(r.location.value, h.target) == None
  {
    RedirectsIff(e, r);
  }

  /** A request for each hop, but for a last one that was refused, and the last hop's verdict. */
  ghost predicate SentAlong(e: Endpoint, cap: nat, resolve: Resolver, replies: nat -> Reply, hops: seq<Hop>,
                            sent: seq<Request>, verdict: Verdict)
  {
    && hops != [] && Outcome(e, cap, resolve, hops[|hops| - 1], replies(|hops| - 1)) == Err(verdict)
    && |sent| == (if verdict.Refused? then |hops| - 1 else |hops|)
    && forall i :: 0 <= i < |sent| ==> sent[i] == Sent(e, hops[i])
  }

  /** A probe's requests and its verdict, told by the responses alone. */
  method FollowRedirects(e: Endpoint, cap: nat, resolve: Resolver, replies: nat -> Reply)
    returns (sent: seq<Request>, verdict: Verdict)
    ensures SentAlong(e, cap, resolve, replies, Hops(e, cap, resolve, replies), sent, verdict)
    ensures |sent| <= Min(e.maxRedirects, cap) + 1
    ensures Routed(e, cap, resolve, replies, sent) && EndsFor(e, cap, resolve, replies, sent, verdict)
  {
    sent, verdict := SendHops(e, cap, resolve, replies);
    RunIsRouted(e, cap, resolve, replies, sent, verdict);
  }

  /** Sends requests until one hop gives a verdict. */
  method SendHops(e: Endpoint, cap: nat, resolve: Resolver, replies: nat -> Reply)
    returns (sent: seq<Request>, verdict: Verdict)
    ensures SentAlong(e, cap, resolve, replies, Hops(e, cap, resolve, replies), sent, verdict)
    ensures |sent| <= Min(e.maxRedirects, cap) + 1
  {
    var hop := First(e);
    sent := [];
    ghost var done := [];
    while true
      invariant hop.redirects <= Min(e.maxRedirects, cap) && |done| == hop.redirects && Sends(e, sent, done)
      invariant Hops(e, cap, resolve, replies) == done + HopsFrom(e, cap, resolve, replies, hop)
      decreases Min(e.maxRedirects, cap) - hop.redirects
    {
      HopsUnroll(e, cap, resolve, replies, hop);
      var request, next := AttemptHop(e, cap, resolve, hop, replies(hop.redirects));
      RefusedIff(e, cap, resolve, hop, replies(hop.redirects));
      LastIsSent(e, sent, done, hop, request);
      SendsOneMore(e, sent, done, hop);
      if request.Some? {
        sent := sent + [request.value];
      }
      if next.Err? {
        return sent, next.error;
      }
      HopsJoin(done, hop, HopsFrom(e, cap, resolve, replies, next.value));
      done, hop := done + [hop], next.value;
    }
  }

  // ---- The whole chain ----

  predicate StayedHome(e: Endpoint, hops: seq<Hop>, k: nat)
    requires k < |hops|
  {
    forall i :: 1 <= i <= k ==> SameOrigin(hops[i].target, e.url)
  }

  /** Some redirect up to hop `k` turned the request into a `GET`. */
  predicate Rewritten(hops: seq<Hop>, k: nat)
    requires k < |hops|
  {
    exists i :: 0 <= i < k && hops[i].verb != hops[i + 1].verb
  }

  lemma HopLeads(e: Endpoint, cap: nat, resolve: Resolver, h: Hop, r: Reply, next: Hop)
    requires Outcome(e, cap, resolve, h, r) == Ok(next)
    ensures next.dropped == (h.dropped || !SameOrigin(next.target, e.url)) && next.redirects == h.redirects + 1
    ensures next.headers == if next.dropped then []
                            else if next.verb != h.verb then WithoutBodyHeaders(h.headers) else h.headers
    ensures r.Response? && next.verb == MethodForRedirect(r.status, h.verb) && Target(e, r).Some?
    ensures h.redirects < Min(e.maxRedirects, cap)
  {
  }

  /** The configured headers, given whether the chain stayed on the original origin and kept its method. */
  function Allowed(e: Endpoint, home: bool, rewritten: bool): seq<Header> {
    if !home then [] else if rewritten then WithoutBodyHeaders(e.headers) else e.headers
  }

  lemma AllowedStep(e: Endpoint, home: bool, rewritten: bool, onOrigin: bool, rewrites: bool)
    ensures (if !home || !onOrigin then []
             else if rewrites then WithoutBodyHeaders(Allowed(e, home, rewritten))
             else Allowed(e, home, rewritten))
         == Allowed(e, home && onOrigin, rewritten || rewrites)
  {
    WithoutTwice(e.headers);
  }

  /**
   * Configured headers go out in full while the chain stays on the original origin and the method stands, without the
   * body headers once the method has changed, and not at all from the first hop off the origin on, even back home.
   */
  lemma {:induction false} HeadersExactly(e: Endpoint, cap: nat, resolve: Resolver, replies: nat -> Reply,
                                          hops: seq<Hop>, k: nat)
    requires IsChain(e, cap, resolve, replies, hops) && k < |hops|
    ensures hops[k].headers == Allowed(e, StayedHome(e, hops, k), Rewritten(hops, k))
    ensures hops[k].dropped <==> !StayedHome(e, hops, k)
    ensures hops[k].redirects == k
  {
    if k > 0 {
      HeadersExactly(e, cap, resolve, replies, hops, k - 1);
      HopLeads(e, cap, resolve, hops[k - 1], replies(k - 1), hops[k - 1 + 1]);
      StayedHomeStep(e, hops, k);
      RewrittenStep(hops, k);
      AllowedStep(e, StayedHome(e, hops, k - 1), Rewritten(hops, k - 1), SameOrigin(hops[k].target, e.url),
                  hops[k - 1].verb != hops[k].verb);
    }
  }

  lemma StayedHomeStep(e: Endpoint, hops: seq<Hop>, k: nat)
    requires 0 < k < |hops|
    ensures StayedHome(e, hops, k) <==> StayedHome(e, hops, k - 1) && SameOrigin(hops[k].target, e.url)
  {
  }

  lemma RewrittenStep(hops: seq<Hop>, k: nat)
    requires 0 < k < |hops|
    ensures Rewritten(hops, k) <==> Rewritten(hops, k - 1) || hops[k - 1].verb != hops[k].verb
  {
    if hops[k - 1].verb != hops[k].verb {
      assert 0 <= k - 1 < k && hops[k - 1].verb != hops[k - 1 + 1].verb;
    }
  }

  /**
   * The method changes at most once, to `GET`, and exactly where the standard changes it; before that it is the
   * configured one.
   */
  lemma {:induction false} MethodsExactly(e: Endpoint, cap: nat, resolve: Resolver, replies: nat -> Reply,
                                          hops: seq<Hop>, k: nat)
    requires IsChain(e, cap, resolve, replies, hops) && k < |hops|
    ensures hops[k].verb == if Rewritten(hops, k) then "GET" else Upper(e.verb)
    ensures Upper(hops[k].verb) == hops[k].verb
    ensures k + 1 < |hops| ==>
              && replies(k).Response?
              && (hops[k + 1].verb != hops[k].verb <==> TurnsIntoGet(replies(k).status, hops[k].verb))
  {
    if k > 0 {
      MethodsExactly(e, cap, resolve, replies, hops, k - 1);
      RewrittenStep(hops, k);
      HopLeads(e, cap, resolve, hops[k - 1], replies(k - 1), hops[k - 1 + 1]);
      RewritesExactly(replies(k - 1).status, hops[k - 1].verb);
    } else {
      UpperTwice(e.verb);
    }
    if k + 1 < |hops| {
      HopLeads(e, cap, resolve, hops[k], replies(k), hops[k + 1]);
      RewritesExactly(replies(k).status, hops[k].verb);
    }
  }

  /**
   * What leaves the worker on hop `k`: a header only if it was configured and no redirect has left the original origin,
   * no body header once the method has changed, and a body only while the configured method still stands.
   */
  lemma WhatIsSent(e: Endpoint, cap: nat, resolve: Resolver, replies: nat -> Reply, hops: seq<Hop>, k: nat)
    requires IsChain(e, cap, resolve, replies, hops) && k < |hops|
    ensures var r := Sent(e, hops[k]);
            && (r.headers != [] ==> StayedHome(e, hops, k))
            && (forall h :: h in r.headers ==> h in e.headers && (Rewritten(hops, k) ==> !IsBodyHeader(h.name)))
            && (r.body.Some? ==> !Rewritten(hops, k) && r.body == e.body && !Bodyless(Upper(e.verb)))
            && (r.body.None? ==> Rewritten(hops, k) || e.body.None? || Bodyless(Upper(e.verb)))
  {
    HeadersExactly(e, cap, resolve, replies, hops, k);
    MethodsExactly(e, cap, resolve, replies, hops, k);
  }

  /**
   * Every redirect followed was asked for, followable, and within the budget; a spent budget never hides a final
   * answer.
   */
  lemma FollowedOnlyWhenAllowed(e: Endpoint, cap: nat, resolve: Resolver, replies: nat -> Reply, hops: seq<Hop>,
                                k: nat, verdict: Verdict)
    requires IsChain(e, cap, resolve, replies, hops) && k < |hops|
    requires Outcome(e, cap, resolve, hops[|hops| - 1], replies(|hops| - 1)) == Err(verdict)
    ensures k < |hops| - 1 ==>
              && e.followRedirects && replies(k).Response? && IsFollowedRedirect(replies(k).status)
              && k < Min(e.maxRedirects, cap)
    ensures verdict.TooManyRedirects?
       <==> |hops| == Min(e.maxRedirects, cap) + 1 && Target(e, replies(|hops| - 1)).Some?
    ensures verdict.Evaluated? <==> replies(|hops| - 1).Response? && Target(e, replies(|hops| - 1)).None?
  {
    HeadersExactly(e, cap, resolve, replies, hops, |hops| - 1);
    ChainInBudget(e, cap, resolve, replies, hops);
    if k < |hops| - 1 {
      HeadersExactly(e, cap, resolve, replies, hops, k);
      HopLeads(e, cap, resolve, hops[k], replies(k), hops[k + 1]);
    }
  }

  lemma ChainInBudget(e: Endpoint, cap: nat, resolve: Resolver, replies: nat -> Reply, hops: seq<Hop>)
    requires IsChain(e, cap, resolve, replies, hops)
    ensures |hops| <= Min(e.maxRedirects, cap) + 1
  {
    if |hops| > 1 {
      HeadersExactly(e, cap, resolve, replies, hops, |hops| - 2);
      HopLeads(e, cap, resolve, hops[|hops| - 2], replies(|hops| - 2), hops[|hops| - 2 + 1]);
    }
  }
}
