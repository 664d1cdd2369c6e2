/**
 * The virtual-host route index (pkg/util/vhost/router.go): per-(domain, user) buckets kept in
 * descending lexicographic order of their locations, so that the first prefix hit is the longest.
 */
module Routing {
  import opened Prelude
  import opened Text

  /** One registered route, with the object stored for it. */
  datatype Router<+P> = Router(domain: string, location: string, httpUser: string, payload: P)

  /** What identifies a route. */
  datatype RouteKey = RouteKey(domain: string, httpUser: string, location: string)

  /** The simple map that the index stands for. */
  type Table<P> = map<RouteKey, P>

  type Bucket<P> = seq<Router<P>>

  type Index<P> = map<string, map<string, Bucket<P>>>

  ghost predicate Descending<P>(bucket: Bucket<P>) {
    forall i, j :: 0 <= i < j < |bucket| ==> Less(bucket[j].location, bucket[i].location)
  }

  ghost predicate Locates<P>(bucket: Bucket<P>, location: string) {
    exists i :: 0 <= i < |bucket| && bucket[i].location == location
  }

  /** A bucket holds exactly the routes that the table has for its domain and user. */
  ghost predicate BucketOf<P>(bucket: Bucket<P>, table: Table<P>, domain: string, user: string) {
    && Descending(bucket)
    && (forall i :: 0 <= i < |bucket| ==> Filed(bucket[i], table, domain, user))
    && (forall l :: RouteKey(domain, user, l) in table ==> Locates(bucket, l))
  }

  /** A route carries the domain and user of its bucket, and the table has it with its payload. */
  ghost predicate Filed<P>(r: Router<P>, table: Table<P>, domain: string, user: string) {
    && r.domain == domain && r.httpUser == user
    && RouteKey(domain, user, r.location) in table
    && table[RouteKey(domain, user, r.location)] == r.payload
  }

  function BucketAt<P>(index: Index<P>, domain: string, user: string): Bucket<P> {
    if domain in index && user in index[domain] then index[domain][user] else []
  }

  ghost predicate Represents<P>(index: Index<P>, table: Table<P>) {
    forall d, u :: BucketOf(BucketAt(index, d, u), table, d, u)
  }

  /**
   * Reference lookup on the table: try the whole path as a location, then the path without its last
   * character, and so on down to the empty location.
   */
  function Longest<P>(table: Table<P>, domain: string, user: string, path: string): (r: Option<Router<P>>)
    decreases |path|
  {
    var key := RouteKey(domain, user, path);
    if key in table then Some(Router(domain, path, user, table[key]))
    else if path == "" then None
    else Longest(table, domain, user, path[..|path| - 1])
  }

  /** The reference lookup returns the longest registered location that is a prefix of the path. */
  lemma {:induction false} LongestIsLongest<P>(table: Table<P>, domain: string, user: string, path: string)
    ensures match Longest(table, domain, user, path)
            case None => forall l :: RouteKey(domain, user, l) in table ==> !(l <= path)
            case Some(r) =>
              && Filed(r, table, domain, user)
              && r.location <= path
              && forall l :: RouteKey(domain, user, l) in table && l <= path ==> |l| <= |r.location|
    decreases |path|
  {
    if RouteKey(domain, user, path) !in table {
      if path == "" {
      } else {
        var shorter := path[..|path| - 1];
        LongestIsLongest(table, domain, user, shorter);
        forall l | RouteKey(domain, user, l) in table && l <= path ensures l <= shorter {
          assert l != path;
          assert l == path[..|l|];
        }
      }
    }
  }

  /** In a descending bucket the first location that is a prefix of the path is the longest one. */
  lemma FirstHitIsLongest<P>(bucket: Bucket<P>, table: Table<P>, domain: string, user: string, path: string, i: nat)
    requires BucketOf(bucket, table, domain, user)
    requires i < |bucket| && bucket[i].location <= path
    requires forall j :: 0 <= j < i ==> !(bucket[j].location <= path)
    ensures Longest(table, domain, user, path) == Some(bucket[i])
  {
    LongestIsLongest(table, domain, user, path);
    assert Filed(bucket[i], table, domain, user);
    var best := Longest(table, domain, user, path).value;
    var j :| 0 <= j < |bucket| && bucket[j].location == best.location;
    if j > i {
      PrefixesOrderByLength(bucket[j].location, bucket[i].location, path);
    }
    assert j == i;
  }

  lemma NoHitMeansNone<P>(bucket: Bucket<P>, table: Table<P>, domain: string, user: string, path: string)
    requires BucketOf(bucket, table, domain, user)
    requires forall j :: 0 <= j < |bucket| ==> !(bucket[j].location <= path)
    ensures Longest(table, domain, user, path) == None
  {
    LongestIsLongest(table, domain, user, path);
  }

  /** An index stands for at most one table. */
  lemma TableIsUnique<P>(index: Index<P>, t1: Table<P>, t2: Table<P>)
    requires Represents(index, t1) && Represents(index, t2)
    ensures t1 == t2
  {
    forall k: RouteKey
      ensures k in t1 <==> k in t2
      ensures k in t1 && k in t2 ==> t1[k] == t2[k]
    {
      var bucket := BucketAt(index, k.domain, k.httpUser);
      assert BucketOf(bucket, t1, k.domain, k.httpUser) && BucketOf(bucket, t2, k.domain, k.httpUser);
      assert k == RouteKey(k.domain, k.httpUser, k.location);
      if Locates(bucket, k.location) {
        var i :| 0 <= i < |bucket| && bucket[i].location == k.location;
        assert Filed(bucket[i], t1, k.domain, k.httpUser) && Filed(bucket[i], t2, k.domain, k.httpUser);
      }
    }
  }

  /** The result of sorting: a rearrangement in strictly descending order. */
  ghost predicate SortedFrom<P>(sorted: Bucket<P>, original: Bucket<P>) {
    Descending(sorted) && multiset(sorted) == multiset(original)
  }

  /** `sort.Sort(sort.Reverse(ByLocation(vrs)))`, for routes whose locations differ. */
  method SortByLocation<P>(vrs: Bucket<P>) returns (sorted: Bucket<P>)
    requires forall i, j :: 0 <= i < j < |vrs| ==> vrs[i].location != vrs[j].location
    ensures SortedFrom(sorted, vrs)
  {
    sorted := [];
    for n := 0 to |vrs|
      invariant SortedFrom(sorted, vrs[..n])
    {
      var r := vrs[n];
      var at := 0;
      while at < |sorted| && Less(r.location, sorted[at].location)
        invariant at <= |sorted|
        invariant forall i :: 0 <= i < at ==> Less(r.location, sorted[i].location)
      {
        at := at + 1;
      }
      InsertKeepsOrder(sorted, vrs[..n], r, at);
      assert vrs[..n + 1] == vrs[..n] + [r];
      sorted := sorted[..at] + [r] + sorted[at..];
    }
    assert vrs[..|vrs|] == vrs;
  }

  lemma InsertKeepsOrder<P>(sorted: Bucket<P>, before: Bucket<P>, r: Router<P>, at: nat)
    requires SortedFrom(sorted, before) && at <= |sorted|
    requires forall i :: 0 <= i < at ==> Less(r.location, sorted[i].location)
    requires at < |sorted| ==> !Less(r.location, sorted[at].location)
    requires forall i :: 0 <= i < |before| ==> before[i].location != r.location
    ensures SortedFrom(sorted[..at] + [r] + sorted[at..], before + [r])
  {
    forall i | at <= i < |sorted| ensures Less(sorted[i].location, r.location) {
      assert sorted[at] in multiset(before);
      var j :| 0 <= j < |before| && before[j] == sorted[at];
      SmallerFromHere(sorted, r, at, i);
    }
    InsertedElements(sorted, r, at);
  }

  lemma SmallerFromHere<P>(sorted: Bucket<P>, r: Router<P>, at: nat, i: nat)
    requires Descending(sorted) && at <= i < |sorted|
    requires !Less(r.location, sorted[at].location) && sorted[at].location != r.location
    ensures Less(sorted[i].location, r.location)
  {
    LessTotal(r.location, sorted[at].location);
    if i > at { LessTransitive(sorted[i].location, sorted[at].location, r.location); }
  }

  lemma InsertedElements<P>(sorted: Bucket<P>, r: Router<P>, at: nat)
    requires at <= |sorted|
    ensures multiset(sorted[..at] + [r] + sorted[at..]) == multiset(sorted) + multiset{r}
  {
    assert sorted == sorted[..at] + sorted[at..];
  }

  lemma DescendingIsDistinct<P>(bucket: Bucket<P>)
    requires Descending(bucket)
    ensures forall i, j :: 0 <= i < j < |bucket| ==> bucket[i].location != bucket[j].location
  {
    forall i, j | 0 <= i < j < |bucket| ensures bucket[i].location != bucket[j].location {
      LessIrreflexive(bucket[i].location);
    }
  }

  /** Sorting a bucket with one new route yields the bucket of the extended table. */
  lemma AddedBucket<P>(bucket: Bucket<P>, table: Table<P>, domain: string, user: string, r: Router<P>, sorted: Bucket<P>)
    requires BucketOf(bucket, table, domain, user)
    requires r.domain == domain && r.httpUser == user
    requires SortedFrom(sorted, bucket + [r])
    requires RouteKey(domain, user, r.location) !in table
    ensures BucketOf(sorted, table[RouteKey(domain, user, r.location) := r.payload], domain, user)
  {
    var next := table[RouteKey(domain, user, r.location) := r.payload];
    forall i | 0 <= i < |sorted| ensures Filed(sorted[i], next, domain, user) {
      assert sorted[i] in multiset(bucket + [r]);
      if sorted[i] != r {
        var j :| 0 <= j < |bucket| && bucket[j] == sorted[i];
        assert Filed(bucket[j], table, domain, user);
      }
    }
    forall l | RouteKey(domain, user, l) in next ensures Locates(sorted, l) {
      var e := r;
      if l != r.location {
        var j :| 0 <= j < |bucket| && bucket[j].location == l;
        e := bucket[j];
        assert (bucket + [r])[j] == e;
      } else {
        assert (bucket + [r])[|bucket|] == e;
      }
      assert e in multiset(bucket + [r]);
      assert e in multiset(sorted);
    }
  }

  /** The routes of a bucket other than those at one location, in the same order. */
  function Without<P>(bucket: Bucket<P>, location: string): Bucket<P> {
    if bucket == [] then []
    else
      var front := Without(bucket[..|bucket| - 1], location);
      if bucket[|bucket| - 1].location != location then front + [bucket[|bucket| - 1]] else front
  }

  lemma {:induction false} WithoutElements<P>(bucket: Bucket<P>, location: string, r: Router<P>)
    ensures r in Without(bucket, location) <==> r in bucket && r.location != location
  {
    if bucket != [] {
      var last := |bucket| - 1;
      WithoutElements(bucket[..last], location, r);
      assert bucket == bucket[..last] + [bucket[last]];
    }
  }

  lemma {:induction false} WithoutDescends<P>(bucket: Bucket<P>, location: string)
    requires Descending(bucket)
    ensures Descending(Without(bucket, location))
  {
    if bucket != [] {
      var last := |bucket| - 1;
      var front := Without(bucket[..last], location);
      WithoutDescends(bucket[..last], location);
      forall i | 0 <= i < |front| ensures Less(bucket[last].location, front[i].location) {
        WithoutElements(bucket[..last], location, front[i]);
        var j :| 0 <= j < last && bucket[j] == front[i];
      }
    }
  }

  lemma DeletedBucket<P>(bucket: Bucket<P>, table: Table<P>, domain: string, user: string, location: string)
    requires BucketOf(bucket, table, domain, user)
    ensures BucketOf(Without(bucket, location), table - {RouteKey(domain, user, location)}, domain, user)
  {
    var rest := Without(bucket, location);
    var next := table - {RouteKey(domain, user, location)};
    WithoutDescends(bucket, location);
    forall i | 0 <= i < |rest| ensures Filed(rest[i], next, domain, user) {
      WithoutElements(bucket, location, rest[i]);
      var j :| 0 <= j < |bucket| && bucket[j] == rest[i];
      assert Filed(bucket[j], table, domain, user);
    }
    forall l | RouteKey(domain, user, l) in next ensures Locates(rest, l) {
      LocatedAfterDelete(bucket, table, domain, user, location, l);
    }
  }

  lemma LocatedAfterDelete<P>(bucket: Bucket<P>, table: Table<P>, domain: string, user: string, location: string, l: string)
    requires BucketOf(bucket, table, domain, user)
    requires RouteKey(domain, user, l) in table && l != location
    ensures Locates(Without(bucket, location), l)
  {
    var j :| 0 <= j < |bucket| && bucket[j].location == l;
    WithoutElements(bucket, location, bucket[j]);
    assert bucket[j] in Without(bucket, location);
  }

  /** A bucket whose domain and user no change touched still fits the changed table. */
  lemma OtherBucket<P>(bucket: Bucket<P>, before: Table<P>, after: Table<P>, domain: string, user: string)
    requires BucketOf(bucket, before, domain, user)
    requires forall l :: RouteKey(domain, user, l) in after <==> RouteKey(domain, user, l) in before
    requires forall l :: RouteKey(domain, user, l) in before ==>
                           after[RouteKey(domain, user, l)] == before[RouteKey(domain, user, l)]
    ensures BucketOf(bucket, after, domain, user)
  {
    forall i | 0 <= i < |bucket| ensures Filed(bucket[i], after, domain, user) {
      assert Filed(bucket[i], before, domain, user);
    }
  }

  /** The index with another bucket for one domain and user. */
  function Put<P>(index: Index<P>, domain: string, user: string, bucket: Bucket<P>): Index<P> {
    index[domain := (if domain in index then index[domain] else map[])[user := bucket]]
  }

  /** Putting the new bucket of one domain and user into the index represents the changed table. */
  lemma PutRepresents<P>(index: Index<P>, before: Table<P>, after: Table<P>, key: RouteKey, bucket: Bucket<P>)
    requires Represents(index, before)
    requires after - {key} == before - {key}
    requires BucketOf(bucket, after, key.domain, key.httpUser)
    ensures Represents(Put(index, key.domain, key.httpUser, bucket), after)
  {
    var next := Put(index, key.domain, key.httpUser, bucket);
    forall d, u ensures BucketOf(BucketAt(next, d, u), after, d, u) {
      if d != key.domain || u != key.httpUser {
        assert BucketOf(BucketAt(index, d, u), before, d, u);
        forall l ensures RouteKey(d, u, l) in after <==> RouteKey(d, u, l) in before
          ensures RouteKey(d, u, l) in before ==> after[RouteKey(d, u, l)] == before[RouteKey(d, u, l)]
        {
          var k := RouteKey(d, u, l);
          assert k in after <==> k in after - {key};
          assert k in before <==> k in before - {key};
        }
        OtherBucket(BucketAt(index, d, u), before, after, d, u);
      }
    }
  }

  lemma PutNew<P>(index: Index<P>, table: Table<P>, r: Router<P>, sorted: Bucket<P>)
    requires Represents(index, table)
    requires RouteKey(r.domain, r.httpUser, r.location) !in table
    requires SortedFrom(sorted, BucketAt(index, r.domain, r.httpUser) + [r])
    ensures Represents(Put(index, r.domain, r.httpUser, sorted),
                       table[RouteKey(r.domain, r.httpUser, r.location) := r.payload])
  {
    var key := RouteKey(r.domain, r.httpUser, r.location);
    var after := table[key := r.payload];
    var vrs := BucketAt(index, r.domain, r.httpUser);
    assert BucketOf(vrs, table, r.domain, r.httpUser);
    AddedBucket(vrs, table, r.domain, r.httpUser, r, sorted);
    assert after - {key} == table - {key};
    PutRepresents(index, table, after, key, sorted);
  }

  lemma NewLocation<P>(bucket: Bucket<P>, table: Table<P>, r: Router<P>)
    requires BucketOf(bucket, table, r.domain, r.httpUser)
    requires RouteKey(r.domain, r.httpUser, r.location) !in table
    ensures forall i, j :: 0 <= i < j < |bucket + [r]| ==> (bucket + [r])[i].location != (bucket + [r])[j].location
  {
    DescendingIsDistinct(bucket);
    forall i | 0 <= i < |bucket| ensures bucket[i].location != r.location {
      assert Filed(bucket[i], table, r.domain, r.httpUser);
    }
  }

  class Routers<P> {
    var indexByDomain: Index<P>

    /** The abstract map kept by the index. */
    ghost var table: Table<P>

    ghost predicate Valid()
      reads this
    {
      Represents(indexByDomain, table)
    }

    constructor ()
      ensures Valid() && table == map[]
    {
      indexByDomain := map[];
      table := map[];
    }

    /** Registers a route; fails, and changes nothing, exactly when the same key is already registered. */
    method Add(domain: string, location: string, httpUser: string, payload: P) returns (added: bool)
      requires Valid()
      modifies this
      ensures Valid()
      ensures added <==> RouteKey(domain, httpUser, location) !in old(table)
      ensures added ==> table == old(table)[RouteKey(domain, httpUser, location) := payload]
      ensures !added ==> table == old(table) && indexByDomain == old(indexByDomain)
    {
      var known := Exist(domain, location, httpUser);
      if known.Some? {
        return false;
      }
      var byUser: map<string, Bucket<P>> := map[];
      if domain in indexByDomain {
        byUser := indexByDomain[domain];
      }
      var vrs: Bucket<P> := [];
      if httpUser in byUser {
        vrs := byUser[httpUser];
      }
      var vr := Router(domain, location, httpUser, payload);
      assert vrs == BucketAt(indexByDomain, domain, httpUser);
      assert BucketOf(vrs, table, domain, httpUser);
      NewLocation(vrs, table, vr);
      var sorted := SortByLocation(vrs + [vr]);
      PutNew(indexByDomain, table, vr, sorted);
      byUser := byUser[httpUser := sorted];
      indexByDomain := indexByDomain[domain := byUser];
      table := table[RouteKey(domain, httpUser, location) := payload];
      return true;
    }

    /** Removes the route with this key, if there is one, and no other. */
    method Del(domain: string, location: string, httpUser: string)
      requires Valid()
      modifies this
      ensures Valid()
      ensures table == old(table) - {RouteKey(domain, httpUser, location)}
    {
      ghost var key := RouteKey(domain, httpUser, location);
      assert BucketOf(BucketAt(indexByDomain, domain, httpUser), table, domain, httpUser);
      if domain !in indexByDomain || httpUser !in indexByDomain[domain] {
        assert key !in table;
        assert table - {key} == table;
        return;
      }
      var vrs := indexByDomain[domain][httpUser];
      var newVrs: Bucket<P> := [];
      for i := 0 to |vrs|
        invariant newVrs == Without(vrs[..i], location)
      {
        assert vrs[..i + 1][..i] == vrs[..i];
        if vrs[i].location != location {
          newVrs := newVrs + [vrs[i]];
        }
      }
      assert vrs[..|vrs|] == vrs;
      DeletedBucket(vrs, table, domain, httpUser, location);
      assert (table - {key}) - {key} == table - {key};
      PutRepresents(indexByDomain, table, table - {key}, key, newVrs);
      indexByDomain := indexByDomain[domain := indexByDomain[domain][httpUser := newVrs]];
      table := table - {key};
    }

    /** The longest registered location of this host and user that is a prefix of the path. */
    method Get(host: string, path: string, httpUser: string) returns (vr: Option<Router<P>>)
      requires Valid()
      ensures vr == Longest(table, host, httpUser, path)
    {
      assert BucketOf(BucketAt(indexByDomain, host, httpUser), table, host, httpUser);
      if host !in indexByDomain || httpUser !in indexByDomain[host] {
        NoHitMeansNone([], table, host, httpUser, path);
        return None;
      }
      var vrs := indexByDomain[host][httpUser];
      for i := 0 to |vrs|
        invariant forall j :: 0 <= j < i ==> !(vrs[j].location <= path)
      {
        if vrs[i].location <= path {
          FirstHitIsLongest(vrs, table, host, httpUser, path, i);
          return Some(vrs[i]);
        }
      }
      NoHitMeansNone(vrs, table, host, httpUser, path);
      return None;
    }

    /** The route registered for exactly this key. */
    method Exist(host: string, path: string, httpUser: string) returns (route: Option<Router<P>>)
      requires Valid()
      ensures route.Some? <==> RouteKey(host, httpUser, path) in table
      ensures route.Some? ==> route.value == Router(host, path, httpUser, table[RouteKey(host, httpUser, path)])
    {
      assert BucketOf(BucketAt(indexByDomain, host, httpUser), table, host, httpUser);
      if host !in indexByDomain || httpUser !in indexByDomain[host] {
        return None;
      }
      var routers := indexByDomain[host][httpUser];
      for i := 0 to |routers|
        invariant forall j :: 0 <= j < i ==> routers[j].location != path
      {
        if path == routers[i].location {
          assert Filed(routers[i], table, host, httpUser);
          return Some(routers[i]);
        }
      }
      return None;
    }

    /** Adding a new route and deleting it again leaves the table as it was. */
    method AddThenDel(domain: string, location: string, httpUser: string, payload: P)
      requires Valid() && RouteKey(domain, httpUser, location) !in table
      modifies this
      ensures Valid() && table == old(table)
    {
      var added := Add(domain, location, httpUser, payload);
      Del(domain, location, httpUser);
      assert table == old(table);
    }
  }
}
