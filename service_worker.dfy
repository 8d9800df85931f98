/**
 * The offline layer of public/sw.js: which requests the worker answers and
 * with which strategy, the three strategies over the worker's caches, and
 * the removal of stale caches on activation.
 *
 * Requests and cache entries are keyed by their URL string. The Cache
 * Storage is an ordered list of named caches (`caches.match` looks in them
 * in creation order); a network fetch is a parameter, None when `fetch`
 * throws. Writes the source does not await (`cache.put`) complete before
 * the response here.
 */
module ServiceWorker {
  import opened Js

  const StaticCache: string := "genius-ai-static-v1.0.0"
  const DynamicCache: string := "genius-ai-dynamic-v1.0.0"

  /** The files listed as static assets, as written (site-relative paths). */
  const StaticAssets: seq<string> := [
    "/", "/index.html", "/manifest.json", "/favicon.ico",
    "/icon-72x72.png", "/icon-96x96.png", "/icon-128x128.png", "/icon-144x144.png",
    "/icon-152x152.png", "/icon-192x192.png", "/icon-384x384.png", "/icon-512x512.png",
    "/LOGO.png"]

  /** The substrings that mark a static asset. */
  const StaticMarkers: seq<string> := ["/assets/", "/icon-", ".png", ".jpg", ".jpeg", ".svg", ".css", ".js", ".woff", ".woff2"]

  /** The substrings that mark an API request. */
  const ApiMarkers: seq<string> := ["/functions/", "supabase", "api.openai.com", "generativelanguage.googleapis.com"]

  predicate HasMarker(url: string, markers: seq<string>) {
    exists k :: 0 <= k < |markers| && Contains(url, markers[k])
  }

  /** `isStaticAsset(url)`. */
  predicate IsStaticAsset(url: string) {
    url in StaticAssets || HasMarker(url, StaticMarkers)
  }

  /** `isAPIRequest(url)`. */
  predicate IsApiRequest(url: string) {
    HasMarker(url, ApiMarkers)
  }

  /** A URL that mentions ".json" counts as static, through its ".js". */
  lemma {:induction false} JsonIsStatic(url: string)
    requires Contains(url, ".json")
    ensures IsStaticAsset(url)
  {
    var i :| 0 <= i <= |url| && OccursAt(url, ".json", i);
    assert url[i..i + 3] == url[i..i + 5][..3];
    assert OccursAt(url, ".js", i);
    assert Contains(url, StaticMarkers[7]);
  }

  /**
   * The asset list holds site-relative paths, so an absolute request URL
   * (such as "https://host/index.html") is static only through a marker.
   */
  lemma {:induction false} AbsoluteUrlSkipsAssetList(url: string)
    requires |url| > 0 && url[0] != '/'
    ensures IsStaticAsset(url) <==> HasMarker(url, StaticMarkers)
  {
    assert forall k :: 0 <= k < |StaticAssets| ==> StaticAssets[k][0] == '/';
  }

  /** Which handler answers a request. */
  datatype Route = NotIntercepted | CacheFirstRoute | NetworkFirstRoute | NavigationRoute

  /** The fetch listener's decision: only GET is answered; static, then API, then navigation, else network first. */
  function RouteFor(httpMethod: string, url: string, isNavigate: bool): (r: Route)
    ensures r == NotIntercepted <==> httpMethod != "GET"
    ensures r == CacheFirstRoute <==> httpMethod == "GET" && IsStaticAsset(url)
    ensures r == NavigationRoute <==> httpMethod == "GET" && !IsStaticAsset(url) && !IsApiRequest(url) && isNavigate
    ensures r == NetworkFirstRoute <==> httpMethod == "GET" && !IsStaticAsset(url) && (IsApiRequest(url) || !isNavigate)
  {
    if httpMethod != "GET" then NotIntercepted
    else if IsStaticAsset(url) then CacheFirstRoute
    else if IsApiRequest(url) then NetworkFirstRoute
    else if isNavigate then NavigationRoute
    else NetworkFirstRoute
  }

  datatype Response = Response(status: int, statusText: string, body: string)

  predicate IsOk(r: Response) {
    200 <= r.status <= 299
  }

  /** The worker's own offline answer. */
  const Offline: Response := Response(503, "Service Unavailable", "Hors ligne")

  /** The first cache, in `order`, that holds `url`, and its entry. */
  function MatchIn(order: seq<string>, tables: map<string, map<string, Response>>, url: string): Option<Response> {
    if order == [] then None
    else if order[0] in tables && url in tables[order[0]] then Some(tables[order[0]][url])
    else MatchIn(order[1..], tables, url)
  }

  predicate Holds(tables: map<string, map<string, Response>>, name: string, url: string) {
    name in tables && url in tables[name]
  }

  lemma {:induction false} MatchNone(order: seq<string>, tables: map<string, map<string, Response>>, url: string)
    ensures MatchIn(order, tables, url).None? <==> forall k :: 0 <= k < |order| ==> !Holds(tables, order[k], url)
  {
    if order != [] {
      MatchNone(order[1..], tables, url);
      assert forall k :: 1 <= k < |order| ==> order[k] == order[1..][k - 1];
    }
  }

  lemma {:induction false} MatchFirst(order: seq<string>, tables: map<string, map<string, Response>>, url: string, i: nat)
    requires i < |order| && Holds(tables, order[i], url)
    requires forall k :: 0 <= k < i ==> !Holds(tables, order[k], url)
    ensures MatchIn(order, tables, url) == Some(tables[order[i]][url])
  {
    if i > 0 {
      assert forall k :: 0 <= k < i - 1 ==> order[1..][k] == order[k + 1];
      MatchFirst(order[1..], tables, url, i - 1);
    }
  }

  /** `order` without `name`. */
  function Without(order: seq<string>, name: string): (r: seq<string>)
    ensures forall n :: n in r <==> n in order && n != name
  {
    if order == [] then [] else (if order[0] == name then [] else [order[0]]) + Without(order[1..], name)
  }

  lemma {:induction false} WithoutAppend(a: seq<string>, b: seq<string>, name: string)
    ensures Without(a + b, name) == Without(a, name) + Without(b, name)
  {
    if a == [] {
      assert a + b == b;
    } else {
      assert (a + b)[1..] == a[1..] + b;
      WithoutAppend(a[1..], b, name);
    }
  }

  lemma {:induction false} WithoutAbsent(a: seq<string>, name: string)
    requires name !in a
    ensures Without(a, name) == a
  {
    if a != [] {
      WithoutAbsent(a[1..], name);
    }
  }

  /** The caches activation keeps. */
  predicate Current(name: string) {
    name == StaticCache || name == DynamicCache
  }

  /** The names left after activation, in order. */
  function KeptNames(order: seq<string>): (r: seq<string>)
    ensures forall n :: n in r <==> n in order && Current(n)
  {
    if order == [] then [] else KeptNames(order[..|order| - 1]) + (if Current(order[|order| - 1]) then [order[|order| - 1]] else [])
  }

  /** Every cache of `t` is in `u`, with the same entries. */
  predicate Within(t: map<string, map<string, Response>>, u: map<string, map<string, Response>>) {
    forall n :: n in t ==> n in u && t[n] == u[n]
  }

  predicate Distinct(order: seq<string>) {
    forall i, j :: 0 <= i < j < |order| ==> order[i] != order[j]
  }

  /** The cache names after `caches.open(name)`: a new name goes last. */
  function Opened(order: seq<string>, name: string): seq<string> {
    if name in order then order else order + [name]
  }

  /** The caches' entries after `cache.put(url, response)` on the cache `name`. */
  function PutInto(tables: map<string, map<string, Response>>, name: string, url: string, response: Response)
    : map<string, map<string, Response>>
  {
    tables[name := (if name in tables then tables[name] else map[])[url := response]]
  }

  /** The contents of the Cache Storage: the names in creation order and each cache's entries. */
  datatype Store = Store(order: seq<string>, tables: map<string, map<string, Response>>)

  /** `caches.match(url)` on a store. */
  function Lookup(s: Store, url: string): Option<Response> {
    MatchIn(s.order, s.tables, url)
  }

  /** What `cacheFirst` answers: the cached entry, else the network's answer, else the offline 503. */
  function CacheFirstAnswer(s: Store, url: string, network: Option<Response>): Response {
    if Lookup(s, url).Some? then Lookup(s, url).value
    else if network.Some? then network.value
    else Offline
  }

  /**
   * What `networkFirst` answers: the network's answer, else the cached
   * entry, else the cached index page for a navigation, else the offline 503.
   */
  function NetworkFirstAnswer(s: Store, url: string, isNavigate: bool, indexUrl: string, network: Option<Response>)
    : Option<Response>
  {
    if network.Some? then network
    else if Lookup(s, url).Some? then Lookup(s, url)
    else if isNavigate then Lookup(s, indexUrl)
    else Some(Offline)
  }

  /** What `navigationFallback` answers: the network's answer, else the cached page, else the cached index page. */
  function NavigationAnswer(s: Store, url: string, indexUrl: string, network: Option<Response>): Option<Response> {
    if network.Some? then network
    else if Lookup(s, url).Some? then Lookup(s, url)
    else Lookup(s, indexUrl)
  }

  /** The answer of the fetch listener on each route; None when the request is left to the browser. */
  function FetchAnswer(route: Route, s: Store, url: string, isNavigate: bool, indexUrl: string, network: Option<Response>)
    : Option<Response>
  {
    match route
    case NotIntercepted => None
    case CacheFirstRoute => Some(CacheFirstAnswer(s, url, network))
    case NetworkFirstRoute => NetworkFirstAnswer(s, url, isNavigate, indexUrl, network)
    case NavigationRoute => NavigationAnswer(s, url, indexUrl, network)
  }

  /**
   * The cache the fetch listener writes the network's answer to, if any: the
   * static cache on a cache-first miss, the dynamic cache on network first,
   * in both cases only for an OK answer.
   */
  function FetchWrite(route: Route, s: Store, url: string, network: Option<Response>): Option<string> {
    if network.None? || !IsOk(network.value) then None
    else match route
      case CacheFirstRoute => if Lookup(s, url).None? then Some(StaticCache) else None
      case NetworkFirstRoute => Some(DynamicCache)
      case _ => None
  }

  /** The Cache Storage after the fetch listener has handled a request. */
  function AfterFetch(route: Route, s: Store, url: string, network: Option<Response>): Store {
    match FetchWrite(route, s, url, network)
    case None => s
    case Some(name) => Store(Opened(s.order, name), PutInto(s.tables, name, url, network.value))
  }

  /** The worker's Cache Storage. */
  class CacheStorage {
    /** Cache names in creation order. */
    var order: seq<string>
    /** Each cache's entries, by request URL. */
    var tables: map<string, map<string, Response>>

    ghost predicate Valid()
      reads this
    {
      Distinct(order) && forall n :: n in tables <==> n in order
    }

    constructor ()
      ensures Valid() && order == [] && tables == map[]
    {
      order := [];
      tables := map[];
    }

    /** `caches.match(url)`. */
    function Match(url: string): Option<Response>
      reads this
    {
      MatchIn(order, tables, url)
    }

    /** `caches.open(name)` followed by `cache.put(url, response)`. */
    method Put(name: string, url: string, response: Response)
      requires Valid()
      modifies this
      ensures Valid()
      ensures order == Opened(old(order), name)
      ensures tables == PutInto(old(tables), name, url, response)
    {
      if name !in tables {
        order := order + [name];
        tables := tables[name := map[]];
      }
      tables := tables[name := tables[name][url := response]];
    }

    /**
     * `cacheFirst`: a cached entry is served without the network; on a miss
     * the network's answer is served and, when OK, stored in the static
     * cache; a failed fetch is answered with the offline 503.
     */
    method CacheFirst(url: string, network: Option<Response>) returns (r: Response, fetched: bool)
      requires Valid()
      modifies this
      ensures Valid()
      ensures r == CacheFirstAnswer(old(Store(order, tables)), url, network)
      ensures fetched <==> old(Match(url)).None?
      ensures Store(order, tables) == AfterFetch(CacheFirstRoute, old(Store(order, tables)), url, network)
      ensures old(Match(url)).None? && network.Some? && IsOk(network.value) ==> Match(url) == Some(network.value)
    {
      var cachedResponse := Match(url);
      if cachedResponse.Some? {
        return cachedResponse.value, false;
      }
      fetched := true;
      if network.None? {
        return Offline, fetched;
      }
      var networkResponse := network.value;
      if IsOk(networkResponse) {
        ghost var order0, tables0 := order, tables;
        Put(StaticCache, url, networkResponse);
        PutThenMatch(order0, tables0, StaticCache, url, networkResponse);
      }
      r := networkResponse;
    }

    /**
     * `networkFirst`: the network's answer is served, stored in the dynamic
     * cache when OK; when the fetch fails the cached entry is served, else
     * the cached index page for a navigation (None when that is missing
     * too), else the offline 503.
     */
    method NetworkFirst(url: string, isNavigate: bool, indexUrl: string, network: Option<Response>) returns (r: Option<Response>)
      requires Valid()
      modifies this
      ensures Valid()
      ensures r == NetworkFirstAnswer(old(Store(order, tables)), url, isNavigate, indexUrl, network)
      ensures Store(order, tables) == AfterFetch(NetworkFirstRoute, old(Store(order, tables)), url, network)
    {
      if network.Some? {
        var networkResponse := network.value;
        if IsOk(networkResponse) {
          Put(DynamicCache, url, networkResponse);
        }
        return Some(networkResponse);
      }
      var cachedResponse := Match(url);
      if cachedResponse.Some? {
        return cachedResponse;
      }
      if isNavigate {
        return Match(indexUrl);
      }
      return Some(Offline);
    }

    /**
     * `navigationFallback`: the network's answer, whatever its status; on a
     * failed fetch the cached page, else the cached index page (None when
     * missing). It never writes a cache.
     */
    method NavigationFallback(url: string, indexUrl: string, network: Option<Response>) returns (r: Option<Response>)
      ensures r == NavigationAnswer(Store(order, tables), url, indexUrl, network)
    {
      if network.Some? {
        return network;
      }
      var cachedResponse := Match(url);
      if cachedResponse.Some? {
        return cachedResponse;
      }
      return Match(indexUrl);
    }

    /**
     * The fetch listener: route the request and answer with that strategy.
     * `handled` is false for a request the worker leaves to the browser.
     */
    method HandleFetch(httpMethod: string, url: string, isNavigate: bool, indexUrl: string, network: Option<Response>)
      returns (handled: bool, r: Option<Response>)
      requires Valid()
      modifies this
      ensures Valid()
      ensures handled <==> httpMethod == "GET"
      ensures r == FetchAnswer(RouteFor(httpMethod, url, isNavigate), old(Store(order, tables)), url, isNavigate, indexUrl, network)
      ensures Store(order, tables) == AfterFetch(RouteFor(httpMethod, url, isNavigate), old(Store(order, tables)), url, network)
    {
      var route := RouteFor(httpMethod, url, isNavigate);
      handled := route != NotIntercepted;
      match route
      case NotIntercepted =>
        r := None;
      case CacheFirstRoute =>
        var response, _ := CacheFirst(url, network);
        r := Some(response);
      case NetworkFirstRoute =>
        r := NetworkFirst(url, isNavigate, indexUrl, network);
      case NavigationRoute =>
        r := NavigationFallback(url, indexUrl, network);
    }

    /** The activate listener: delete every cache but the current static and dynamic ones. */
    method Activate()
      requires Valid()
      modifies this
      ensures Valid()
      ensures order == KeptNames(old(order))
      ensures Within(tables, old(tables)) && forall n :: n in tables ==> Current(n)
    {
      order, tables := DeleteStale(order, tables);
    }
  }

  /**
   * The deletions of activation, over the cache names in creation order and
   * the caches' contents. The source runs them concurrently; they are
   * applied here one name at a time.
   */
  method DeleteStale(cacheNames: seq<string>, tables: map<string, map<string, Response>>)
    returns (names: seq<string>, caches: map<string, map<string, Response>>)
    requires Distinct(cacheNames) && forall n :: n in tables <==> n in cacheNames
    ensures Distinct(names) && forall n :: n in caches <==> n in names
    ensures names == KeptNames(cacheNames)
    ensures Within(caches, tables) && forall n :: n in caches ==> Current(n)
  {
    names, caches := cacheNames, tables;
    assert cacheNames[..0] == [];
    for i := 0 to |cacheNames|
      invariant Walked(cacheNames, i, names, caches, tables)
    {
      var cacheName := cacheNames[i];
      WalkStep(cacheNames, i, names, caches, tables);
      if cacheName != StaticCache && cacheName != DynamicCache {
        names := Without(names, cacheName);
        caches := caches - {cacheName};
      }
    }
    WalkDone(cacheNames, names, caches, tables);
  }

  /** Activation has walked the first `i` names: the stale ones among them are gone. */
  ghost predicate Walked(cacheNames: seq<string>, i: nat, names: seq<string>,
                         caches: map<string, map<string, Response>>, tables: map<string, map<string, Response>>) {
    && i <= |cacheNames|
    && Distinct(names) && (forall n :: n in caches <==> n in names)
    && names == KeptNames(cacheNames[..i]) + cacheNames[i..]
    && Within(caches, tables)
  }

  /** A sequence around its element at `i`. */
  lemma SliceAt(s: seq<string>, i: nat)
    requires i < |s|
    ensures s[..i + 1] == s[..i] + [s[i]] && s[i..] == [s[i]] + s[i + 1..]
  {
  }

  lemma {:induction false} WalkStep(cacheNames: seq<string>, i: nat, names: seq<string>,
                 caches: map<string, map<string, Response>>, tables: map<string, map<string, Response>>)
    requires i < |cacheNames| && Walked(cacheNames, i, names, caches, tables)
    ensures var name := cacheNames[i];
            if Current(name) then Walked(cacheNames, i + 1, names, caches, tables)
            else Walked(cacheNames, i + 1, Without(names, name), caches - {name}, tables)
  {
    var name := cacheNames[i];
    var kept, rest := KeptNames(cacheNames[..i]), cacheNames[i + 1..];
    KeptStep(cacheNames[..i], name);
    SliceAt(cacheNames, i);
    assert names == kept + [name] + rest;
    if !Current(name) {
      ActivateStep(kept, name, rest, names);
      DistinctWithout(names, name);
    }
  }

  lemma {:induction false} WalkDone(cacheNames: seq<string>, names: seq<string>,
                 caches: map<string, map<string, Response>>, tables: map<string, map<string, Response>>)
    requires Walked(cacheNames, |cacheNames|, names, caches, tables)
    ensures names == KeptNames(cacheNames)
    ensures forall n :: n in caches ==> Current(n)
  {
    assert cacheNames[..|cacheNames|] == cacheNames;
  }

  lemma {:induction false} DistinctWithout(order: seq<string>, name: string)
    requires Distinct(order)
    ensures Distinct(Without(order, name))
  {
    if order != [] {
      DistinctWithout(order[1..], name);
      var rest := Without(order[1..], name);
      assert order[0] !in order[1..];
      assert order[0] !in rest;
      assert forall k :: 0 <= k < |rest| ==> rest[k] in rest;
    }
  }

  lemma {:induction false} KeptStep(prefix: seq<string>, name: string)
    ensures KeptNames(prefix + [name]) == KeptNames(prefix) + (if Current(name) then [name] else [])
  {
    assert (prefix + [name])[..|prefix|] == prefix;
  }

  /** Deleting a stale cache from the middle of the walk keeps the walk's shape. */
  lemma {:induction false} ActivateStep(kept: seq<string>, name: string, rest: seq<string>, order: seq<string>)
    requires order == kept + [name] + rest
    requires Distinct(order) && !Current(name)
    requires forall n :: n in kept ==> Current(n)
    ensures Without(order, name) == kept + rest
  {
    assert name !in kept;
    NotLater(kept, name, rest, order);
    var front := kept + [name];
    WithoutAppend(front, rest, name);
    WithoutAppend(kept, [name], name);
    WithoutAbsent(kept, name);
    WithoutAbsent(rest, name);
    assert Without([name], name) == [] by {
      assert [name][1..] == [];
    }
    assert Without(front, name) == kept;
  }

  lemma {:induction false} NotLater(kept: seq<string>, name: string, rest: seq<string>, order: seq<string>)
    requires order == kept + [name] + rest
    requires Distinct(order)
    ensures name !in rest
  {
    forall k | 0 <= k < |rest| ensures rest[k] != name {
      assert order[|kept| + 1 + k] == rest[k] && order[|kept|] == name;
    }
  }

  /** Lookups that see the same entries for `u` in every cache of `order` give the same answer. */
  lemma {:induction false} MatchSameEntries(order: seq<string>, t1: map<string, map<string, Response>>,
                                            t2: map<string, map<string, Response>>, u: string)
    requires forall n :: n in order ==>
               (Holds(t1, n, u) <==> Holds(t2, n, u)) && (Holds(t1, n, u) ==> t1[n][u] == t2[n][u])
    ensures MatchIn(order, t1, u) == MatchIn(order, t2, u)
  {
    if order != [] {
      MatchSameEntries(order[1..], t1, t2, u);
    }
  }

  /** A cache appended last that does not hold `u` changes no lookup of `u`. */
  lemma {:induction false} MatchAppendMiss(order: seq<string>, tables: map<string, map<string, Response>>, name: string, u: string)
    requires !Holds(tables, name, u)
    ensures MatchIn(order + [name], tables, u) == MatchIn(order, tables, u)
  {
    if order == [] {
      assert ([name])[1..] == [];
    } else {
      assert (order + [name])[1..] == order[1..] + [name];
      MatchAppendMiss(order[1..], tables, name, u);
    }
  }

  /** A store whose names are distinct and are exactly its caches. */
  ghost predicate Consistent(s: Store) {
    Distinct(s.order) && forall n :: n in s.tables <==> n in s.order
  }

  /**
   * Handling a request writes at most the entry for its own URL: a lookup of
   * any other URL answers as before, whatever the route.
   */
  lemma {:induction false} FetchKeepsOtherUrls(route: Route, s: Store, url: string, network: Option<Response>, u: string)
    requires Consistent(s) && u != url
    ensures Lookup(AfterFetch(route, s, url, network), u) == Lookup(s, u)
  {
    var w := FetchWrite(route, s, url, network);
    if w.Some? {
      var name := w.value;
      var t' := PutInto(s.tables, name, url, network.value);
      MatchSameEntries(s.order, s.tables, t', u);
      if name !in s.order {
        assert !Holds(t', name, u);
        MatchAppendMiss(s.order, t', name, u);
      }
    }
  }

  /**
   * What was fetched online is served offline: after a cache-first miss or a
   * network-first fetch stored an OK answer for a URL nothing cached, the
   * same route answers that URL with it when the network is down.
   */
  lemma {:induction false} OfflineAfterOnline(route: Route, s: Store, url: string, isNavigate: bool, indexUrl: string,
                                              response: Response)
    requires Consistent(s) && Lookup(s, url).None?
    requires route == CacheFirstRoute || route == NetworkFirstRoute
    requires IsOk(response)
    ensures FetchAnswer(route, AfterFetch(route, s, url, Some(response)), url, isNavigate, indexUrl, None) == Some(response)
  {
    var name := FetchWrite(route, s, url, Some(response)).value;
    PutThenMatch(s.order, s.tables, name, url, response);
  }


  /** After an entry is put for a URL that no cache held, matching the URL finds that entry. */
  lemma {:induction false} PutThenMatch(order: seq<string>, tables: map<string, map<string, Response>>, name: string, url: string, response: Response)
    requires Distinct(order) && forall n :: n in tables <==> n in order
    requires MatchIn(order, tables, url).None?
    ensures MatchIn(Opened(order, name), PutInto(tables, name, url, response), url) == Some(response)
  {
    var order' := Opened(order, name);
    var tables' := PutInto(tables, name, url, response);
    MatchNone(order, tables, url);
    var i :| 0 <= i < |order'| && order'[i] == name;
    forall k | 0 <= k < i ensures !Holds(tables', order'[k], url) {
      assert order'[k] != name;
      assert order'[k] == order[k];
    }
    MatchFirst(order', tables', url, i);
  }
}
