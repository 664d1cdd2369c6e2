/**
 * Which route a request reaches (pkg/util/vhost/http.go and vhost.go): the exact host first, then
 * wildcard domains with ever fewer labels, then the catch-all domain.
 */
module VirtualHosts {
  import opened Prelude
  import opened Text
  import opened Routing

  /** The routes of one domain: those of the requesting user first, then those of no particular user. */
  function FindRouter<P>(table: Table<P>, domain: string, path: string, user: string): Option<Router<P>> {
    var own := Longest(table, domain, user, path);
    if own.Some? then own else Longest(table, domain, "", path)
  }

  /** The route of the first domain in the list that has one. */
  function FirstHit<P>(table: Table<P>, domains: seq<string>, path: string, user: string): Option<Router<P>> {
    if domains == [] then None
    else
      var hit := FindRouter(table, domains[0], path, user);
      if hit.Some? then hit else FirstHit(table, domains[1..], path, user)
  }

  /** The domains tried for a host, in order. */
  function Candidates(host: string): seq<string> {
    [host] + Wildcards(host) + ["*"]
  }

  /** Reference resolution: the first candidate domain with a matching route. */
  function Resolve<P>(table: Table<P>, host: string, path: string, user: string): Option<Router<P>> {
    FirstHit(table, Candidates(host), path, user)
  }

  lemma {:induction false} FirstHitAppend<P>(table: Table<P>, a: seq<string>, b: seq<string>, path: string, user: string)
    ensures FirstHit(table, a + b, path, user) ==
            if FirstHit(table, a, path, user).Some? then FirstHit(table, a, path, user)
            else FirstHit(table, b, path, user)
  {
    if a == [] {
      assert a + b == b;
    } else {
      assert (a + b)[1..] == a[1..] + b;
      FirstHitAppend(table, a[1..], b, path, user);
    }
  }

  /** A request reaches the route r: a candidate domain has it and no earlier candidate has any. */
  ghost predicate ReachedAt<P>(table: Table<P>, host: string, path: string, user: string, r: Router<P>, i: nat) {
    && i < |Candidates(host)|
    && FindRouter(table, Candidates(host)[i], path, user) == Some(r)
    && forall j :: 0 <= j < i ==> FindRouter(table, Candidates(host)[j], path, user) == None
  }

  lemma {:induction false} FirstHitIndex<P>(table: Table<P>, domains: seq<string>, path: string, user: string) returns (i: nat)
    ensures i <= |domains|
    ensures forall j :: 0 <= j < i ==> FindRouter(table, domains[j], path, user) == None
    ensures FirstHit(table, domains, path, user) ==
            if i < |domains| then FindRouter(table, domains[i], path, user) else None
    ensures i < |domains| ==> FindRouter(table, domains[i], path, user).Some?
  {
    if domains == [] || FindRouter(table, domains[0], path, user).Some? {
      i := 0;
    } else {
      var k := FirstHitIndex(table, domains[1..], path, user);
      i := k + 1;
      forall j | 0 <= j < i ensures FindRouter(table, domains[j], path, user) == None {
        if j > 0 { assert domains[j] == domains[1..][j - 1]; }
      }
    }
  }

  /**
   * What resolution means, both ways: it answers with a route exactly when the request reaches that
   * route, and the route is registered for the user or for no user, on a location that is the longest
   * registered prefix of the path for that domain and user.
   */
  lemma ResolveExact<P>(table: Table<P>, host: string, path: string, user: string, r: Router<P>)
    ensures Resolve(table, host, path, user) == Some(r) <==> exists i: nat :: ReachedAt(table, host, path, user, r, i)
    ensures Resolve(table, host, path, user) == Some(r) ==>
              && r.domain in Candidates(host)
              && (r.httpUser == user || r.httpUser == "")
              && r.location <= path
              && Filed(r, table, r.domain, r.httpUser)
              && (forall l :: RouteKey(r.domain, r.httpUser, l) in table && l <= path ==> |l| <= |r.location|)
  {
    var domains := Candidates(host);
    var i := FirstHitIndex(table, domains, path, user);
    if Resolve(table, host, path, user) == Some(r) {
      assert ReachedAt(table, host, path, user, r, i);
      LongestIsLongest(table, domains[i], user, path);
      LongestIsLongest(table, domains[i], "", path);
      assert domains[i] in domains;
    }
    if k: nat :| ReachedAt(table, host, path, user, r, k) {
      assert k == i;
    }
  }

  /** Resolution finds nothing exactly when no candidate domain has a matching route for the user or for no user. */
  lemma ResolveNone<P>(table: Table<P>, host: string, path: string, user: string)
    ensures Resolve(table, host, path, user) == None <==>
            forall k :: k in table && k.domain in Candidates(host) && (k.httpUser == user || k.httpUser == "") ==>
                          !(k.location <= path)
  {
    var domains := Candidates(host);
    var i := FirstHitIndex(table, domains, path, user);
    if i < |domains| {
      var r := FindRouter(table, domains[i], path, user).value;
      LongestIsLongest(table, domains[i], user, path);
      LongestIsLongest(table, domains[i], "", path);
      assert domains[i] in domains;
      var k := RouteKey(r.domain, r.httpUser, r.location);
      assert k in table && k.domain in Candidates(host) && k.location <= path;
    } else {
      forall k | k in table && k.domain in Candidates(host) && (k.httpUser == user || k.httpUser == "")
        ensures !(k.location <= path)
      {
        var j :| 0 <= j < |domains| && domains[j] == k.domain;
        assert FindRouter(table, domains[j], path, user) == None;
        LongestIsLongest(table, k.domain, user, path);
        LongestIsLongest(table, k.domain, "", path);
        assert k == RouteKey(k.domain, k.httpUser, k.location);
      }
    }
  }

  // ----- the order of preference, in terms of the registered keys alone -----

  /** The key is for this user or for no particular user, and its location is a prefix of the path. */
  predicate Matches(k: RouteKey, path: string, user: string) {
    (k.httpUser == user || k.httpUser == "") && k.location <= path
  }

  /** A star followed by the host from its dot at this position on, with another dot behind it. */
  predicate Covers(domain: string, host: string, p: nat) {
    p < |host| && host[p] == '.' && (exists q :: p < q < |host| && host[q] == '.') && domain == "*" + host[p..]
  }

  lemma CandidatesAre(host: string, domain: string)
    ensures domain in Candidates(host) <==> domain == host || domain == "*" || exists p: nat :: Covers(domain, host, p)
  {
    WildcardsExact(host, domain);
    forall p: nat ensures CoversFrom(domain, host, p) <==> Covers(domain, host, p) { CoversIs(domain, host, p); }
  }

  lemma CoversIs(domain: string, host: string, p: nat)
    ensures CoversFrom(domain, host, p) <==> Covers(domain, host, p)
  {
    if p < |host| {
      var tail := host[p + 1..];
      if '.' in tail {
        var i :| 0 <= i < |tail| && tail[i] == '.';
        assert host[p + 1 + i] == '.';
      }
      if q :| p < q < |host| && host[q] == '.' { assert tail[q - p - 1] == '.'; }
    }
  }

  /** Something is found exactly when a key matches on the host, a wildcard that covers it, or the star. */
  lemma FoundWhenMatching<P>(table: Table<P>, host: string, path: string, user: string)
    ensures Resolve(table, host, path, user).Some? <==>
            exists k :: k in table && Matches(k, path, user) && (k.domain == host || k.domain == "*" || exists p: nat :: Covers(k.domain, host, p))
  {
    ResolveNone(table, host, path, user);
    forall k | k in table
      ensures k.domain in Candidates(host) <==> k.domain == host || k.domain == "*" || exists p: nat :: Covers(k.domain, host, p)
    {
      CandidatesAre(host, k.domain);
    }
    if Resolve(table, host, path, user).Some? {
      var k :| k in table && k.domain in Candidates(host) && (k.httpUser == user || k.httpUser == "") && k.location <= path;
      assert Matches(k, path, user);
    }
    if k :| k in table && Matches(k, path, user) && (k.domain == host || k.domain == "*" || exists p: nat :: Covers(k.domain, host, p)) {
      assert k.domain in Candidates(host);
    }
  }

  /** A domain that is tried and has a matching key answers at the latest. */
  lemma NoLaterThan<P>(table: Table<P>, host: string, path: string, user: string, i: nat, k: RouteKey, j: nat, r: Router<P>)
    requires ReachedAt(table, host, path, user, r, i) && j < |Candidates(host)| && k.domain == Candidates(host)[j]
    requires k in table && Matches(k, path, user)
    ensures i <= j && r.domain == Candidates(host)[i]
  {
    LongestIsLongest(table, Candidates(host)[i], user, path);
    LongestIsLongest(table, Candidates(host)[i], "", path);
    LongestIsLongest(table, k.domain, user, path);
    LongestIsLongest(table, k.domain, "", path);
    assert k == RouteKey(k.domain, k.httpUser, k.location);
  }

  /** A matching route of the requesting user on the answering domain beats every route for no particular user. */
  lemma UserBeforeUserless<P>(table: Table<P>, host: string, path: string, user: string, r: Router<P>, l: string)
    requires Resolve(table, host, path, user) == Some(r)
    requires RouteKey(r.domain, user, l) in table && l <= path
    ensures r.httpUser == user
  {
    ResolveExact(table, host, path, user, r);
    var i: nat :| ReachedAt(table, host, path, user, r, i);
    LongestIsLongest(table, Candidates(host)[i], user, path);
    LongestIsLongest(table, Candidates(host)[i], "", path);
  }

  /** A matching key on the host itself beats every wildcard and the star. */
  lemma HostBeforeWildcards<P>(table: Table<P>, host: string, path: string, user: string, r: Router<P>, k: RouteKey)
    requires Resolve(table, host, path, user) == Some(r)
    requires k in table && Matches(k, path, user) && k.domain == host
    ensures r.domain == host
  {
    ResolveExact(table, host, path, user, r);
    var i: nat :| ReachedAt(table, host, path, user, r, i);
    NoLaterThan(table, host, path, user, i, k, 0, r);
  }

  lemma WildcardCovers(host: string, i: nat) returns (q: nat)
    requires i < |Wildcards(host)|
    ensures Covers(Wildcards(host)[i], host, q)
  {
    var domain := Wildcards(host)[i];
    WildcardsExact(host, domain);
    q :| CoversFrom(domain, host, q);
    CoversIs(domain, host, q);
  }

  lemma WildcardAt(host: string, domain: string, p: nat) returns (j: nat)
    requires Covers(domain, host, p)
    ensures j < |Wildcards(host)| && Wildcards(host)[j] == domain
  {
    CoversIs(domain, host, p);
    WildcardsExact(host, domain);
    j :| 0 <= j < |Wildcards(host)| && Wildcards(host)[j] == domain;
  }

  /** A matching key on a wildcard that covers the host beats every shorter wildcard and the star. */
  lemma LongerWildcardsFirst<P>(table: Table<P>, host: string, path: string, user: string, r: Router<P>, k: RouteKey, p: nat)
    requires Resolve(table, host, path, user) == Some(r)
    requires k in table && Matches(k, path, user) && Covers(k.domain, host, p)
    ensures r.domain == host || exists q: nat :: Covers(r.domain, host, q) && |r.domain| >= |k.domain|
  {
    ResolveExact(table, host, path, user, r);
    var i: nat :| ReachedAt(table, host, path, user, r, i);
    var j := WildcardAt(host, k.domain, p);
    assert Candidates(host)[j + 1] == k.domain;
    NoLaterThan(table, host, path, user, i, k, j + 1, r);
    if i > 0 { EarlierCovers(host, i - 1, j, r.domain); }
  }

  lemma EarlierCovers(host: string, i: nat, j: nat, domain: string)
    requires i <= j < |Wildcards(host)| && domain == Wildcards(host)[i]
    ensures exists q: nat :: Covers(domain, host, q) && |domain| >= |Wildcards(host)[j]|
  {
    var q := WildcardCovers(host, i);
    if i < j { WildcardsGetShorter(host, i, j); }
  }

  /** The star answers only when no key matches on the host or on a wildcard that covers it. */
  lemma StarIsLast<P>(table: Table<P>, host: string, path: string, user: string, r: Router<P>, k: RouteKey, p: nat)
    requires Resolve(table, host, path, user) == Some(r) && r.domain == "*" && host != "*"
    requires k in table && (k.domain == host || Covers(k.domain, host, p))
    ensures !Matches(k, path, user)
  {
    if Matches(k, path, user) {
      if k.domain == host {
        HostBeforeWildcards(table, host, path, user, r, k);
      } else {
        LongerWildcardsFirst(table, host, path, user, r, k, p);
      }
    }
  }

  lemma {:induction false} LongestAfterAdd<P>(table: Table<P>, key: RouteKey, payload: P, domain: string, user: string, path: string)
    requires key !in table
    ensures var added := Longest(table[key := payload], domain, user, path);
            || added == Longest(table, domain, user, path)
            || added == Some(Router(key.domain, key.location, key.httpUser, payload))
    ensures Longest(table, domain, user, path).Some? ==> Longest(table[key := payload], domain, user, path).Some?
    decreases |path|
  {
    if RouteKey(domain, user, path) !in table[key := payload] && path != "" {
      LongestAfterAdd(table, key, payload, domain, user, path[..|path| - 1]);
    }
  }

  lemma {:induction false} FirstHitAfterAdd<P>(table: Table<P>, key: RouteKey, payload: P, domains: seq<string>, path: string, user: string)
    requires key !in table
    ensures var added := FirstHit(table[key := payload], domains, path, user);
            || added == FirstHit(table, domains, path, user)
            || added == Some(Router(key.domain, key.location, key.httpUser, payload))
  {
    if domains != [] {
      LongestAfterAdd(table, key, payload, domains[0], user, path);
      LongestAfterAdd(table, key, payload, domains[0], "", path);
      FirstHitAfterAdd(table, key, payload, domains[1..], path, user);
    }
  }

  /** A new registration can draw a request to itself, but never redirect it to another route or make it fail. */
  lemma AddOnlyAttractsToItself<P>(table: Table<P>, key: RouteKey, payload: P, host: string, path: string, user: string)
    requires key !in table
    ensures var added := Resolve(table[key := payload], host, path, user);
            || added == Resolve(table, host, path, user)
            || added == Some(Router(key.domain, key.location, key.httpUser, payload))
  {
    FirstHitAfterAdd(table, key, payload, Candidates(host), path, user);
  }

  lemma {:induction false} FirstHitWithout<P>(table: Table<P>, key: RouteKey, domains: seq<string>, path: string, user: string)
    requires FirstHit(table, domains, path, user).Some?
    requires key != RouteKey(FirstHit(table, domains, path, user).value.domain,
                             FirstHit(table, domains, path, user).value.httpUser,
                             FirstHit(table, domains, path, user).value.location)
    ensures FirstHit(table - {key}, domains, path, user) == FirstHit(table, domains, path, user)
  {
    LongestWithout(table, key, domains[0], user, path);
    LongestWithout(table, key, domains[0], "", path);
    if FindRouter(table, domains[0], path, user) == None {
      FirstHitWithout(table, key, domains[1..], path, user);
    }
  }

  lemma {:induction false} LongestWithout<P>(table: Table<P>, key: RouteKey, domain: string, user: string, path: string)
    ensures match Longest(table, domain, user, path)
            case None => Longest(table - {key}, domain, user, path) == None
            case Some(r) =>
              key != RouteKey(r.domain, r.httpUser, r.location) ==> Longest(table - {key}, domain, user, path) == Some(r)
    decreases |path|
  {
    if RouteKey(domain, user, path) !in table && path != "" {
      LongestWithout(table, key, domain, user, path[..|path| - 1]);
    }
  }

  /** Deleting a route other than the one a request reaches does not change where the request goes. */
  lemma DelKeepsOtherRequests<P>(table: Table<P>, key: RouteKey, host: string, path: string, user: string)
    requires Resolve(table, host, path, user).Some?
    requires var r := Resolve(table, host, path, user).value; key != RouteKey(r.domain, r.httpUser, r.location)
    ensures Resolve(table - {key}, host, path, user) == Resolve(table, host, path, user)
  {
    FirstHitWithout(table, key, Candidates(host), path, user);
  }

  /** The shared inner closure of `getVhost` and `getListener`. */
  method Find<P>(router: Routers<P>, inDomain: string, inLocation: string, inUser: string) returns (vr: Option<Router<P>>)
    requires router.Valid()
    ensures vr == FindRouter(router.table, inDomain, inLocation, inUser)
  {
    vr := router.Get(inDomain, inLocation, inUser);
    if vr.Some? {
      return vr;
    }
    // A route without a user matches every user.
    vr := router.Get(inDomain, inLocation, "");
  }

  /** `HTTPReverseProxy.getVhost`. */
  method GetVhost<P>(router: Routers<P>, domain: string, location: string, routeByHTTPUser: string)
    returns (vr: Option<Router<P>>)
    requires router.Valid()
    ensures vr == Resolve(router.table, domain, location, routeByHTTPUser)
  {
    ghost var t := router.table;
    ghost var wild := Wildcards(domain);
    FirstHitAppend(t, [domain] + wild, ["*"], location, routeByHTTPUser);
    FirstHitAppend(t, [domain], wild, location, routeByHTTPUser);
    vr := Find(router, domain, location, routeByHTTPUser);
    if vr.Some? {
      return vr;
    }

    var domainSplit := Split(domain);
    SplitIsDotFree(domain);
    JoinSplit(domain);
    while true
      invariant domainSplit != [] && DotFree(domainSplit)
      invariant FirstHit(t, wild, location, routeByHTTPUser) ==
                FirstHit(t, Wildcards(Join(domainSplit)), location, routeByHTTPUser)
      decreases |domainSplit|
    {
      WildcardsOfLabels(domainSplit);
      if |domainSplit| < 3 {
        break;
      }
      ghost var labels := domainSplit;
      domainSplit := domainSplit[0 := "*"];
      assert domainSplit == ["*"] + labels[1..];
      vr := Find(router, Join(domainSplit), location, routeByHTTPUser);
      if vr.Some? {
        return vr;
      }
      domainSplit := domainSplit[1..];
      assert domainSplit == labels[1..];
    }

    vr := Find(router, "*", location, routeByHTTPUser);
  }

  /** `Muxer.getListener`: the listener stored for the route; the same answer as `GetVhost` on the same table. */
  method GetListener<P>(registryRouter: Routers<P>, name: string, path: string, httpUser: string)
    returns (l: Option<P>)
    requires registryRouter.Valid()
    ensures match Resolve(registryRouter.table, name, path, httpUser)
            case None => l == None
            case Some(r) => l == Some(r.payload)
  {
    ghost var t := registryRouter.table;
    ghost var wild := Wildcards(name);
    FirstHitAppend(t, [name] + wild, ["*"], path, httpUser);
    FirstHitAppend(t, [name], wild, path, httpUser);
    var vr := Find(registryRouter, name, path, httpUser);
    if vr.Some? {
      return Some(vr.value.payload);
    }

    var domainSplit := Split(name);
    SplitIsDotFree(name);
    JoinSplit(name);
    while |domainSplit| >= 3
      invariant domainSplit != [] && DotFree(domainSplit)
      invariant FirstHit(t, wild, path, httpUser) == FirstHit(t, Wildcards(Join(domainSplit)), path, httpUser)
      decreases |domainSplit|
    {
      WildcardsOfLabels(domainSplit);
      ghost var labels := domainSplit;
      domainSplit := domainSplit[0 := "*"];
      assert domainSplit == ["*"] + labels[1..];
      vr := Find(registryRouter, Join(domainSplit), path, httpUser);
      if vr.Some? {
        return Some(vr.value.payload);
      }
      domainSplit := domainSplit[1..];
      assert domainSplit == labels[1..];
    }
    WildcardsOfLabels(domainSplit);

    vr := Find(registryRouter, "*", path, httpUser);
    l := if vr.Some? then Some(vr.value.payload) else None;
  }
}
