/** The ingress watcher: it registers routes one event at a time or all at once,
    and keeps the local cache that the fallback router looks hosts up in. */
module IngressWatcher {
  import opened Wire
  import opened IngressRoutes

  type Cache = map<string, Route>

  // ----- What the two paths put into the cache -----

  /** Entering routes one by one: the last route of a host stays. */
  function Overlay(cache: Cache, routes: seq<Route>): Cache {
    if routes == [] then cache
    else var last := routes[|routes| - 1];
         Overlay(cache, routes[..|routes| - 1])[last.host := last]
  }

  /** The sync stores a route as it goes through the tunnel: to the controller. */
  function Via(c: Controller, r: Route): Route {
    r.(service := c.name, namespace := c.namespace, port := c.port)
  }

  function ViaAll(c: Controller, routes: seq<Route>): seq<Route> {
    seq(|routes|, i requires 0 <= i < |routes| => Via(c, routes[i]))
  }

  ghost predicate LastIs(routes: seq<Route>, host: string, r: Route) {
    var own := ForHost(routes, host);
    own != [] && own[|own| - 1] == r
  }

  lemma {:induction false} OverlayAt(cache: Cache, routes: seq<Route>, host: string)
    ensures host in Overlay(cache, routes) <==> host in cache || ForHost(routes, host) != []
    ensures host in Overlay(cache, routes) ==>
              if ForHost(routes, host) != [] then LastIs(routes, host, Overlay(cache, routes)[host])
              else Overlay(cache, routes)[host] == cache[host]
  {
    if routes != [] {
      OverlayAt(cache, routes[..|routes| - 1], host);
    }
  }

  lemma {:induction false} OverlayAppend(cache: Cache, a: seq<Route>, b: seq<Route>)
    ensures Overlay(cache, a + b) == Overlay(Overlay(cache, a), b)
  {
    if b == [] {
      assert a + b == a;
    } else {
      var rest := b[..|b| - 1];
      OverlayAppend(cache, a, rest);
      assert (a + b)[..|a + b| - 1] == a + rest;
    }
  }

  lemma {:induction false} ForHostVia(c: Controller, routes: seq<Route>, host: string)
    ensures ForHost(ViaAll(c, routes), host) == ViaAll(c, ForHost(routes, host))
  {
    if routes != [] {
      var rest, last := routes[..|routes| - 1], routes[|routes| - 1];
      ForHostVia(c, rest, host);
      assert ViaAll(c, routes)[..|routes| - 1] == ViaAll(c, rest);
    }
  }

  lemma ViaAppend(c: Controller, a: seq<Route>, b: seq<Route>)
    ensures ViaAll(c, a + b) == ViaAll(c, a) + ViaAll(c, b)
  {
  }

  /** Whether events or a bulk sync bring the routes in, the same hosts are cached
      with the same route, except that the sync names the controller as its target. */
  lemma SyncAndEventsCacheAlike(cache: Cache, routes: seq<Route>, c: Controller, host: string)
    ensures host in Overlay(cache, ViaAll(c, routes)) <==> host in Overlay(cache, routes)
    ensures ForHost(routes, host) != [] ==>
              && host in Overlay(cache, routes) && host in Overlay(cache, ViaAll(c, routes))
              && Overlay(cache, ViaAll(c, routes))[host] == Via(c, Overlay(cache, routes)[host])
  {
    OverlayAt(cache, routes, host);
    OverlayAt(cache, ViaAll(c, routes), host);
    ForHostVia(c, routes, host);
  }

  /** Only where the route leads to changes. */
  lemma ViaMeans(c: Controller, r: Route)
    ensures Via(c, r) == Route(r.host, r.path, r.pathType, c.name, c.namespace, r.ingressName, c.port, r.tls,
                               r.annotations)
  {
  }

  // ----- What the two paths tell the control plane -----

  datatype Registration = Registration(host: string, ingressName: string, target: string, entry: Entry)

  function RegistrationOf(r: Route, c: Controller): Registration {
    Registration(r.host, r.ingressName, c.namespace, EntryOf(r, c))
  }

  function RegistrationsOf(routes: seq<Route>, c: Controller): seq<Registration> {
    seq(|routes|, i requires 0 <= i < |routes| => RegistrationOf(routes[i], c))
  }

  /** The entries registered for a host, in order. */
  function EventEntries(registered: seq<Registration>, host: string): seq<Entry> {
    if registered == [] then []
    else EventEntries(registered[..|registered| - 1], host)
         + (var last := registered[|registered| - 1]; if last.host == host then [last.entry] else [])
  }

  /** A route is registered under its host, as coming from its ingress, with where it
      matches, and always with the controller as its target. */
  lemma RegistrationMeans(routes: seq<Route>, c: Controller, i: nat)
    requires i < |routes|
    ensures |RegistrationsOf(routes, c)| == |routes|
    ensures RegistrationsOf(routes, c)[i] ==
            Registration(routes[i].host, routes[i].ingressName, c.namespace,
                         Entry(routes[i].path, routes[i].pathType, routes[i].tls, c.name, c.port))
  {
  }

  /** The entries compared for a host are those registered for it. */
  lemma {:induction false} EventEntriesAre(registered: seq<Registration>, host: string, e: Entry)
    ensures e in EventEntries(registered, host) <==> exists g :: g in registered && g.host == host && g.entry == e
  {
    if registered != [] {
      var rest, last := registered[..|registered| - 1], registered[|registered| - 1];
      EventEntriesAre(rest, host, e);
      assert registered == rest + [last];
    }
  }

  /** And those of the bulk request are the paths under the rules of that host. */
  lemma {:induction false} HostEntriesAre(rules: seq<BulkRule>, host: string, e: Entry)
    ensures e in HostEntries(rules, host) <==>
            exists rule, p :: rule in rules && rule.host == host && p in rule.paths
                              && e == Entry(p.path, p.pathType, rule.tls, p.service, p.port)
  {
    if rules != [] {
      var rest, last := rules[..|rules| - 1], rules[|rules| - 1];
      HostEntriesAre(rest, host, e);
      assert rules == rest + [last];
      if last.host == host {
        RuleEntriesAre(last, e);
      }
    }
  }

  lemma RuleEntriesAre(rule: BulkRule, e: Entry)
    ensures e in RuleEntries(rule) <==>
            exists p :: p in rule.paths && e == Entry(p.path, p.pathType, rule.tls, p.service, p.port)
  {
    if p :| p in rule.paths && e == Entry(p.path, p.pathType, rule.tls, p.service, p.port) {
      var i :| 0 <= i < |rule.paths| && rule.paths[i] == p;
      assert RuleEntries(rule)[i] == e;
    }
    if e in RuleEntries(rule) {
      var i :| 0 <= i < |RuleEntries(rule)| && RuleEntries(rule)[i] == e;
      assert rule.paths[i] in rule.paths;
    }
  }

  lemma {:induction false} BulkEntriesAre(data: seq<IngressData>, host: string, e: Entry)
    ensures e in BulkEntries(data, host) <==> exists d :: d in data && e in HostEntries(d.rules, host)
  {
    if data != [] {
      var rest, last := data[..|data| - 1], data[|data| - 1];
      BulkEntriesAre(rest, host, e);
      assert data == rest + [last];
    }
  }

  lemma {:induction false} EventEntriesByHost(routes: seq<Route>, c: Controller, host: string)
    ensures EventEntries(RegistrationsOf(routes, c), host) == EntriesOf(ForHost(routes, host), c)
  {
    if routes != [] {
      var rest, last := routes[..|routes| - 1], routes[|routes| - 1];
      EventEntriesByHost(rest, c, host);
      assert RegistrationsOf(routes, c)[..|routes| - 1] == RegistrationsOf(rest, c);
    }
  }

  /** How many paths a bulk request carries. */
  function RulePathCount(rules: seq<BulkRule>): nat {
    if rules == [] then 0 else RulePathCount(rules[..|rules| - 1]) + |rules[|rules| - 1].paths|
  }

  function PathCount(data: seq<IngressData>): nat {
    if data == [] then 0 else PathCount(data[..|data| - 1]) + RulePathCount(data[|data| - 1].rules)
  }

  function CountIn(routes: seq<Route>, hosts: set<string>): nat {
    if routes == [] then 0
    else CountIn(routes[..|routes| - 1], hosts) + if routes[|routes| - 1].host in hosts then 1 else 0
  }

  lemma {:induction false} CountInOneMore(routes: seq<Route>, hosts: set<string>, h: string)
    requires h !in hosts
    ensures CountIn(routes, hosts + {h}) == CountIn(routes, hosts) + |ForHost(routes, h)|
  {
    if routes != [] {
      CountInOneMore(routes[..|routes| - 1], hosts, h);
    }
  }

  lemma {:induction false} CountInAll(routes: seq<Route>, hosts: set<string>)
    requires forall r | r in routes :: r.host in hosts
    ensures CountIn(routes, hosts) == |routes|
  {
    if routes != [] {
      var rest, last := routes[..|routes| - 1], routes[|routes| - 1];
      assert routes == rest + [last];
      CountInAll(rest, hosts);
    }
  }

  lemma {:induction false} CountInNone(routes: seq<Route>)
    ensures CountIn(routes, {}) == 0
  {
    if routes != [] {
      CountInNone(routes[..|routes| - 1]);
    }
  }

  lemma HostEntriesAfter(rules: seq<BulkRule>, rule: BulkRule, host: string)
    ensures HostEntries(rules + [rule], host) ==
            HostEntries(rules, host) + if rule.host == host then RuleEntries(rule) else []
    ensures RulePathCount(rules + [rule]) == RulePathCount(rules) + |rule.paths|
  {
    assert (rules + [rule])[..|rules|] == rules;
  }

  lemma GroupedEntries(groups: map<string, BulkRule>, hosts: set<string>, routes: seq<Route>,
                       tls: bool, c: Controller, h: string)
    requires Grouped(groups, hosts, routes, tls, c) && h in hosts
    ensures RuleEntries(groups[h]) == EntriesOf(ForHost(routes, h), c)
    ensures |groups[h].paths| == |ForHost(routes, h)|
  {
    forall r | r in ForHost(routes, h)
      ensures r.tls == tls
    {
      ForHostIsPart(routes, h, r);
    }
  }

  lemma {:induction false} ForHostIsPart(routes: seq<Route>, h: string, r: Route)
    requires r in ForHost(routes, h)
    ensures r in routes
  {
    var rest, last := routes[..|routes| - 1], routes[|routes| - 1];
    assert routes == rest + [last];
    if r in ForHost(rest, h) {
      ForHostIsPart(rest, h, r);
    }
  }

  /** The routes of an ingress carry its name and annotations. */
  ghost predicate OfIngress(ing: Ingress, r: Route) {
    r.ingressName == ing.name && r.annotations == ing.annotations && r.tls == (ing.tlsEntries > 0)
  }

  lemma {:induction false} PathRoutesOfIngress(services: Services, ing: Ingress, host: string, paths: seq<Path>)
    ensures forall r | r in RoutesOfPaths(services, ing, host, paths) :: OfIngress(ing, r) && r.host == host
  {
    if paths != [] {
      PathRoutesOfIngress(services, ing, host, paths[..|paths| - 1]);
    }
  }

  lemma {:induction false} RuleRoutesOfIngress(services: Services, ing: Ingress, rules: seq<Rule>)
    ensures forall r | r in RoutesOfRules(services, ing, rules) ::
              OfIngress(ing, r) && exists i | 0 <= i < |rules| :: rules[i].host == r.host
  {
    if rules != [] {
      var rest, last := rules[..|rules| - 1], rules[|rules| - 1];
      RuleRoutesOfIngress(services, ing, rest);
      if last.http.Some? {
        PathRoutesOfIngress(services, ing, last.host, last.http.value);
      }
      forall r | r in RoutesOfRules(services, ing, rules)
        ensures OfIngress(ing, r) && exists i | 0 <= i < |rules| :: rules[i].host == r.host
      {
        if r in RoutesOfRules(services, ing, rest) {
          var i :| 0 <= i < |rest| && rest[i].host == r.host;
          assert rules[i] == rest[i];
        } else {
          assert rules[|rules| - 1].host == r.host;
        }
      }
    }
  }

  /** Emits the grouped rules, in whatever order the map yields them, and caches
      every path of theirs.  Neither the per-host contents of the request nor the
      cache depends on that order. */
  method EmitRules(groups: map<string, BulkRule>, ing: Ingress, c: Controller, cache: Cache,
                   ghost hosts: set<string>, ghost routes: seq<Route>)
    returns (rules: seq<BulkRule>, filled: Cache)
    requires Grouped(groups, hosts, routes, ing.tlsEntries > 0, c)
    requires forall r | r in routes :: OfIngress(ing, r)
    ensures forall h :: HostEntries(rules, h) == EntriesOf(ForHost(routes, h), c)
    ensures RulePathCount(rules) == |routes|
    ensures filled == Overlay(cache, ViaAll(c, routes))
  {
    rules, filled := [], cache;
    var left := groups.Keys;
    ghost var handled: set<string> := {};
    ghost var overlaid := Overlay(cache, ViaAll(c, routes));
    CountInNone(routes);
    while left != {}
      invariant left == hosts - handled && handled <= hosts
      invariant Emitted(rules, routes, handled, c)
      invariant Filled(cache, filled, overlaid, handled)
    {
      var h :| h in left;
      rules, filled := EmitRule(groups, h, ing, c, rules, filled, cache, overlaid, handled, hosts, routes);
      left := left - {h};
      handled := handled + {h};
    }
    assert handled == hosts;
    EmittedAll(rules, routes, hosts, c);
    FilledIsOverlay(cache, filled, overlaid, routes, hosts, c);
  }

  /** One turn of that loop. */
  method EmitRule(groups: map<string, BulkRule>, h: string, ing: Ingress, c: Controller,
                  sent: seq<BulkRule>, was: Cache,
                  ghost cache: Cache, ghost overlaid: Cache,
                  ghost handled: set<string>, ghost hosts: set<string>, ghost routes: seq<Route>)
    returns (rules: seq<BulkRule>, filled: Cache)
    requires Grouped(groups, hosts, routes, ing.tlsEntries > 0, c) && h in hosts && h !in handled
    requires overlaid == Overlay(cache, ViaAll(c, routes)) && forall r | r in routes :: OfIngress(ing, r)
    requires Emitted(sent, routes, handled, c) && Filled(cache, was, overlaid, handled)
    ensures Emitted(rules, routes, handled + {h}, c) && Filled(cache, filled, overlaid, handled + {h})
  {
    EmitOneMore(sent, groups, hosts, routes, handled, ing.tlsEntries > 0, c, h);
    rules := sent + [groups[h]];
    filled := CachePaths(groups[h], ing, c, was, ForHost(routes, h), routes);
    FillOneMore(cache, was, filled, overlaid, routes, handled, c, h, ForHost(routes, h));
  }

  /** The rules sent so far say about each host handled what its routes say. */
  ghost predicate Emitted(rules: seq<BulkRule>, routes: seq<Route>, handled: set<string>, c: Controller) {
    && (forall h :: HostEntries(rules, h) == if h in handled then EntriesOf(ForHost(routes, h), c) else [])
    && RulePathCount(rules) == CountIn(routes, handled)
  }

  lemma EmitOneMore(rules: seq<BulkRule>, groups: map<string, BulkRule>, hosts: set<string>, routes: seq<Route>,
                    handled: set<string>, tls: bool, c: Controller, h: string)
    requires Grouped(groups, hosts, routes, tls, c) && Emitted(rules, routes, handled, c)
    requires h in hosts && h !in handled
    ensures Emitted(rules + [groups[h]], routes, handled + {h}, c)
  {
    GroupedEntries(groups, hosts, routes, tls, c, h);
    CountInOneMore(routes, handled, h);
    HostEntriesAfter(rules, groups[h], h);
    forall k
      ensures HostEntries(rules + [groups[h]], k) ==
              if k in handled + {h} then EntriesOf(ForHost(routes, k), c) else []
    {
      EntriesOneMore(rules, groups[h], routes, handled, c, h, k);
    }
  }

  lemma EntriesOneMore(rules: seq<BulkRule>, rule: BulkRule, routes: seq<Route>, handled: set<string>, c: Controller,
                       h: string, k: string)
    requires HostEntries(rules, k) == if k in handled then EntriesOf(ForHost(routes, k), c) else []
    requires rule.host == h && h !in handled && RuleEntries(rule) == EntriesOf(ForHost(routes, h), c)
    ensures HostEntries(rules + [rule], k) == if k in handled + {h} then EntriesOf(ForHost(routes, k), c) else []
  {
    HostEntriesAfter(rules, rule, k);
  }

  lemma EmittedAll(rules: seq<BulkRule>, routes: seq<Route>, hosts: set<string>, c: Controller)
    requires Emitted(rules, routes, hosts, c) && forall r | r in routes :: r.host in hosts
    ensures forall h :: HostEntries(rules, h) == EntriesOf(ForHost(routes, h), c)
    ensures RulePathCount(rules) == |routes|
  {
    CountInAll(routes, hosts);
    forall h
      ensures h !in hosts ==> ForHost(routes, h) == []
    {
      ForHostHasHost(routes, h);
    }
  }

  ghost predicate SameAt(a: Cache, b: Cache, h: string) {
    (h in a <==> h in b) && (h in a ==> a[h] == b[h])
  }

  /** The cache is overlaid for the hosts handled, and as before for the others. */
  ghost predicate Filled(cache: Cache, filled: Cache, overlaid: Cache, handled: set<string>) {
    forall h :: SameAt(filled, if h in handled then overlaid else cache, h)
  }

  /** A host gets the last of its routes via the controller, if it has any. */
  lemma OverlaidAt(cache: Cache, overlaid: Cache, routes: seq<Route>, c: Controller, h: string, own: seq<Route>)
    requires overlaid == Overlay(cache, ViaAll(c, routes)) && own == ForHost(routes, h)
    ensures if own == [] then SameAt(overlaid, cache, h)
            else h in overlaid && overlaid[h] == Via(c, own[|own| - 1])
  {
    OverlayAt(cache, ViaAll(c, routes), h);
    ForHostVia(c, routes, h);
  }

  lemma FillOneMore(cache: Cache, was: Cache, filled: Cache, overlaid: Cache, routes: seq<Route>,
                    handled: set<string>, c: Controller, h: string, own: seq<Route>)
    requires Filled(cache, was, overlaid, handled) && h !in handled
    requires overlaid == Overlay(cache, ViaAll(c, routes)) && own == ForHost(routes, h)
    requires filled == if own == [] then was else was[h := Via(c, own[|own| - 1])]
    ensures Filled(cache, filled, overlaid, handled + {h})
  {
    OverlaidAt(cache, overlaid, routes, c, h, own);
    assert SameAt(was, cache, h);
    forall k
      ensures SameAt(filled, if k in handled + {h} then overlaid else cache, k)
    {
      assert SameAt(was, if k in handled then overlaid else cache, k);
    }
  }

  lemma FilledIsOverlay(cache: Cache, filled: Cache, overlaid: Cache, routes: seq<Route>, hosts: set<string>,
                        c: Controller)
    requires Filled(cache, filled, overlaid, hosts) && overlaid == Overlay(cache, ViaAll(c, routes))
    requires forall r | r in routes :: r.host in hosts
    ensures filled == overlaid
  {
    forall h
      ensures SameAt(filled, overlaid, h)
    {
      assert SameAt(filled, if h in hosts then overlaid else cache, h);
      if h !in hosts {
        ForHostHasHost(routes, h);
        OverlaidAt(cache, overlaid, routes, c, h, []);
      }
    }
    SameEverywhere(filled, overlaid);
  }

  lemma SameEverywhere(a: Cache, b: Cache)
    requires forall h :: SameAt(a, b, h)
    ensures a == b
  {
    assert forall h :: h in a <==> h in b by {
      forall h ensures h in a <==> h in b { assert SameAt(a, b, h); }
    }
    assert forall h | h in a :: a[h] == b[h] by {
      forall h | h in a ensures a[h] == b[h] { assert SameAt(a, b, h); }
    }
  }

  /** Every path of a rule overwrites the cache entry of its host. */
  method CachePaths(rule: BulkRule, ing: Ingress, c: Controller, cache: Cache,
                    ghost own: seq<Route>, ghost routes: seq<Route>)
    returns (filled: Cache)
    requires own == ForHost(routes, rule.host) && forall r | r in routes :: OfIngress(ing, r)
    requires rule == BulkRule(rule.host, ing.tlsEntries > 0, BulkPathsOf(own, c))
    ensures filled == if own == [] then cache else cache[rule.host := Via(c, own[|own| - 1])]
  {
    filled := cache;
    for i := 0 to |rule.paths|
      invariant filled == if i == 0 then cache else cache[rule.host := Via(c, own[i - 1])]
    {
      ForHostIsPart(routes, rule.host, own[i]);
      ForHostHasHost(routes, rule.host);
      var p := rule.paths[i];
      filled := filled[rule.host := Route(rule.host, p.path, p.pathType, p.service, c.namespace, ing.name,
                                          p.port, rule.tls, ing.annotations)];
      assert own[i] in own;
    }
  }

  // ----- The fallback lookup -----

  /** The part of a host name before its first colon, if that is not empty. */
  function WithoutPort(host: string): string {
    var i := FirstColon(host);
    if 0 < i < |host| then host[..i] else host
  }

  /** The index of the first colon, or the length when there is none. */
  function FirstColon(s: string): (i: nat)
    ensures i <= |s|
  {
    if s == "" || s[0] == ':' then 0 else 1 + FirstColon(s[1..])
  }

  lemma {:induction false} FirstColonAt(s: string, k: nat)
    requires k < |s| && s[k] == ':' && ':' !in s[..k]
    ensures FirstColon(s) == k
  {
    if k > 0 {
      assert s[0] in s[..k];
      assert s[..k] == [s[0]] + s[1..][..k - 1];
      FirstColonAt(s[1..], k - 1);
    }
  }

  function LookupRoute(cache: Cache, hostname: string): Option<Route> {
    if hostname in cache then Some(cache[hostname])
    else if WithoutPort(hostname) in cache then Some(cache[WithoutPort(hostname)])
    else None
  }

  /** A cached host is found as it is.  Nothing is found exactly when neither the name is
      cached nor what stands before its first colon, if anything stands there. */
  lemma LookupFinds(cache: Cache, hostname: string)
    ensures hostname in cache ==> LookupRoute(cache, hostname) == Some(cache[hostname])
    ensures LookupRoute(cache, hostname) == None <==>
            && hostname !in cache
            && forall k | 0 < k < |hostname| && hostname[k] == ':' && ':' !in hostname[..k] :: hostname[..k] !in cache
  {
    forall k | 0 < k < |hostname| && hostname[k] == ':' && ':' !in hostname[..k]
      ensures FirstColon(hostname) == k
    {
      FirstColonAt(hostname, k);
    }
    FirstColonIs(hostname);
  }

  lemma {:induction false} FirstColonIs(s: string)
    ensures FirstColon(s) < |s| ==> s[FirstColon(s)] == ':' && ':' !in s[..FirstColon(s)]
  {
    if s != "" && s[0] != ':' {
      FirstColonIs(s[1..]);
      var i := FirstColon(s[1..]);
      assert s[..i + 1] == [s[0]] + s[1..][..i];
    }
  }

  /** A cached host is found with any port behind it, unless that very string is
      cached on its own. */
  lemma LookupIgnoresPort(cache: Cache, host: string, port: string)
    requires host in cache && host != "" && ':' !in host
    ensures LookupRoute(cache, host + ":" + port) ==
            if host + ":" + port in cache then Some(cache[host + ":" + port]) else Some(cache[host])
  {
    var full := host + ":" + port;
    assert full[..|host|] == host && full[|host|] == ':';
    FirstColonAt(full, |host|);
    assert WithoutPort(full) == host;
  }

  // ----- The watcher -----

  type Key = (string, string)

  datatype Action = Add | Update | Delete

  /** The managed ingresses there are, each with the routes extracted from its latest
      version. */
  type Live = map<Key, seq<Route>>

  ghost predicate HasHost(routes: seq<Route>, h: string) {
    exists r :: r in routes && r.host == h
  }

  /** A live ingress other than `key` has a route for the host. */
  ghost predicate LiveElsewhere(live: Live, key: Key, h: string) {
    exists k :: k in live && k != key && HasHost(live[k], h)
  }

  ghost predicate LiveHost(live: Live, h: string) {
    exists k :: k in live && HasHost(live[k], h)
  }

  /** Every host with a route of a live ingress is in the cache. */
  ghost predicate Mirrors(cache: Cache, live: Live) {
    forall h :: LiveHost(live, h) ==> h in cache
  }

  /** A cached host without a live route. */
  ghost predicate Stale(cache: Cache, live: Live, h: string) {
    h in cache && !LiveHost(live, h)
  }

  /** Which hosts are live after an ingress was replaced or removed. */
  lemma LiveAfter(live: Live, key: Key, routes: seq<Route>, h: string)
    ensures LiveHost(live[key := routes], h) <==> HasHost(routes, h) || LiveElsewhere(live, key, h)
    ensures LiveHost(live - {key}, h) <==> LiveElsewhere(live, key, h)
    ensures LiveElsewhere(live, key, h) ==> LiveHost(live, h)
  {
    if HasHost(routes, h) {
      assert key in live[key := routes] && HasHost(live[key := routes][key], h);
    }
    if LiveElsewhere(live, key, h) {
      var k :| k in live && k != key && HasHost(live[k], h);
      assert k in live[key := routes] && HasHost(live[key := routes][k], h);
      assert k in live - {key} && HasHost((live - {key})[k], h);
    }
    if LiveHost(live - {key}, h) {
      var k :| k in live - {key} && HasHost((live - {key})[k], h);
      assert k in live && k != key && HasHost(live[k], h);
    }
    if LiveHost(live[key := routes], h) && !HasHost(routes, h) {
      var k :| k in live[key := routes] && HasHost(live[key := routes][k], h);
      assert k in live && k != key && HasHost(live[k], h);
    }
  }

  lemma CachedAfter(cache: Cache, routes: seq<Route>, h: string)
    ensures h in Overlay(cache, routes) <==> h in cache || HasHost(routes, h)
    ensures h in Without(cache, routes) <==> h in cache && !HasHost(routes, h)
  {
    OverlayAt(cache, routes, h);
    ForHostHasHost(routes, h);
    WithoutAt(cache, routes);
  }

  /** Deleting an ingress keeps the mirror exactly when no other live ingress has a
      route for a host that is dropped. */
  lemma DeletingMirrors(cache: Cache, live: Live, key: Key, routes: seq<Route>)
    requires Mirrors(cache, live)
    ensures Mirrors(Without(cache, routes), live - {key}) <==>
            forall r | r in routes :: !LiveElsewhere(live, key, r.host)
  {
    forall h
      ensures h in Without(cache, routes) <==> h in cache && !HasHost(routes, h)
      ensures LiveHost(live - {key}, h) <==> LiveElsewhere(live, key, h)
      ensures LiveElsewhere(live, key, h) ==> h in cache
    {
      CachedAfter(cache, routes, h);
      LiveAfter(live, key, routes, h);
    }
    forall r | r in routes
      ensures HasHost(routes, r.host)
    {
    }
  }

  /** Adding or updating one always keeps it once its routes are cached; without a
      controller they are not, and then exactly an ingress without routes does. */
  lemma AddingMirrors(cache: Cache, live: Live, key: Key, routes: seq<Route>)
    requires Mirrors(cache, live)
    ensures Mirrors(Overlay(cache, routes), live[key := routes])
    ensures cache == map[] ==> (Mirrors(cache, live[key := routes]) <==> routes == [])
  {
    forall h
      ensures LiveHost(live[key := routes], h) ==> h in Overlay(cache, routes)
      ensures LiveHost(live[key := routes], h) <==> HasHost(routes, h) || LiveElsewhere(live, key, h)
      ensures LiveElsewhere(live, key, h) ==> h in cache
    {
      CachedAfter(cache, routes, h);
      LiveAfter(live, key, routes, h);
    }
    if routes != [] {
      assert routes[0] in routes && HasHost(routes, routes[0].host);
    }
  }

  /** When an ingress event keeps the mirror. */
  ghost predicate KeepsMirror(live: Live, ing: Ingress, action: Action, routes: seq<Route>, known: bool) {
    if !IsManaged(ing) then true
    else if action.Delete? then forall r | r in routes :: !LiveElsewhere(live, (ing.namespace, ing.name), r.host)
    else known || routes == []
  }

  /** Which hosts are cached without a live route after an event that overlaid or
      dropped these routes, or did neither: those that were cached, are not among the
      routes and belong to no other live ingress. */
  lemma StaleAfter(cache: Cache, live: Live, key: Key, routes: seq<Route>, h: string)
    ensures Stale(Overlay(cache, routes), live[key := routes], h) <==>
            h in cache && !HasHost(routes, h) && !LiveElsewhere(live, key, h)
    ensures Stale(Without(cache, routes), live - {key}, h) <==>
            h in cache && !HasHost(routes, h) && !LiveElsewhere(live, key, h)
  {
    CachedAfter(cache, routes, h);
    LiveAfter(live, key, routes, h);
  }

  /** An ingress seen before the controller was known stays out of the cache: events of
      others that come later do not bring it in. */
  lemma SeenTooEarly(first: Key, early: seq<Route>, r: Route, second: Key, later: seq<Route>, cache: Cache)
    requires first != second && r in early && !HasHost(later, r.host)
    requires cache == Overlay(map[], later)
    ensures !Mirrors(cache, map[first := early][second := later])
  {
    CachedAfter(map[], later, r.host);
    assert HasHost(early, r.host);
    LiveAfter(map[first := early], second, later, r.host);
    assert first in map[first := early] && HasHost(map[first := early][first], r.host);
  }

  /** The live ingresses of a full list. */
  function LiveOf(services: Services, ings: seq<Ingress>): Live {
    if ings == [] then map[]
    else var last := ings[|ings| - 1];
         var rest := LiveOf(services, ings[..|ings| - 1]);
         if IsManaged(last) then rest[(last.namespace, last.name) := Routes(services, last)] else rest
  }

  ghost predicate DistinctKeys(ings: seq<Ingress>) {
    forall i, j | 0 <= i < j < |ings| :: (ings[i].namespace, ings[i].name) != (ings[j].namespace, ings[j].name)
  }

  lemma {:induction false} UnlistedIsNotLive(services: Services, ings: seq<Ingress>, k: Key)
    requires forall i | 0 <= i < |ings| :: (ings[i].namespace, ings[i].name) != k
    ensures k !in LiveOf(services, ings)
  {
    if ings != [] {
      UnlistedIsNotLive(services, ings[..|ings| - 1], k);
    }
  }

  lemma HasHostAppend(a: seq<Route>, b: seq<Route>, h: string)
    ensures HasHost(a + b, h) <==> HasHost(a, h) || HasHost(b, h)
  {
    if HasHost(a, h) {
      var r :| r in a && r.host == h;
      assert r in a + b;
    }
    if HasHost(b, h) {
      var r :| r in b && r.host == h;
      assert r in a + b;
    }
  }

  /** The live hosts of a list are among those of its routes, and are all of them when
      the list names no ingress twice. */
  lemma {:induction false} LiveHostsOfList(services: Services, ings: seq<Ingress>, h: string)
    ensures LiveHost(LiveOf(services, ings), h) ==> HasHost(AllRoutes(services, ings), h)
    ensures DistinctKeys(ings) ==> (HasHost(AllRoutes(services, ings), h) ==> LiveHost(LiveOf(services, ings), h))
  {
    if ings != [] {
      var rest, last := ings[..|ings| - 1], ings[|ings| - 1];
      var key, live, own := (last.namespace, last.name), LiveOf(services, rest), OwnRoutes(services, last);
      LiveHostsOfList(services, rest, h);
      HasHostAppend(AllRoutes(services, rest), own, h);
      LiveAfter(live, key, own, h);
      if DistinctKeys(ings) {
        UnlistedIsNotLive(services, rest, key);
      }
      if LiveHost(live, h) && key !in live {
        var k :| k in live && HasHost(live[k], h);
        assert LiveElsewhere(live, key, h);
      }
    }
  }

  lemma HasHostVia(c: Controller, routes: seq<Route>, h: string)
    ensures HasHost(ViaAll(c, routes), h) <==> HasHost(routes, h)
  {
    ForHostVia(c, routes, h);
    ForHostHasHost(routes, h);
    ForHostHasHost(ViaAll(c, routes), h);
  }

  /** After a sync of the list the cache mirrors it, whatever it held before; what is
      left without a live route are the hosts the list no longer has. */
  lemma SyncMirrors(before: Cache, services: Services, ings: seq<Ingress>, c: Controller, cache: Cache, live: Live)
    requires cache == Overlay(before, ViaAll(c, AllRoutes(services, ings))) && live == LiveOf(services, ings)
    ensures Mirrors(cache, live)
    ensures DistinctKeys(ings) ==>
              forall h :: Stale(cache, live, h) <==> h in before && !HasHost(AllRoutes(services, ings), h)
  {
    forall h
      ensures LiveHost(live, h) ==> h in cache
      ensures DistinctKeys(ings) ==>
                (Stale(cache, live, h) <==> h in before && !HasHost(AllRoutes(services, ings), h))
    {
      LiveHostsOfList(services, ings, h);
      HasHostVia(c, AllRoutes(services, ings), h);
      CachedAfter(before, ViaAll(c, AllRoutes(services, ings)), h);
    }
  }

  /** The request and the cache so far stand for `routes`. */
  ghost predicate Synced(data: seq<IngressData>, total: nat, before: Cache, cache: Cache,
                         routes: seq<Route>, c: Controller)
  {
    && (forall h :: BulkEntries(data, h) == EntriesOf(ForHost(routes, h), c))
    && total == PathCount(data) == |routes|
    && cache == Overlay(before, ViaAll(c, routes))
  }

  /** This part of the request carries the name of its ingress and says about every host
      what that ingress's routes say. */
  ghost predicate StandsFor(d: IngressData, services: Services, ing: Ingress, c: Controller) {
    && d.namespace == ing.namespace && d.name == ing.name && d.annotations == ing.annotations
    && forall h :: HostEntries(d.rules, h) == EntriesOf(ForHost(Routes(services, ing), h), c)
  }

  /** The request has one part for each managed ingress with an HTTP rule, in order. */
  ghost predicate PartsFor(data: seq<IngressData>, services: Services, ings: seq<Ingress>, c: Controller) {
    if ings == [] then data == []
    else
      var last, rest := ings[|ings| - 1], ings[..|ings| - 1];
      if IsManaged(last) && HttpHosts(last.rules) != {}
      then data != [] && StandsFor(data[|data| - 1], services, last, c)
           && PartsFor(data[..|data| - 1], services, rest, c)
      else PartsFor(data, services, rest, c)
  }

  lemma PartsOneMore(data: seq<IngressData>, more: seq<IngressData>, services: Services, ings: seq<Ingress>, i: nat,
                     c: Controller)
    requires i < |ings| && PartsFor(data, services, ings[..i], c)
    requires if IsManaged(ings[i]) && HttpHosts(ings[i].rules) != {}
             then |more| == 1 && StandsFor(more[0], services, ings[i], c) else more == []
    ensures PartsFor(data + more, services, ings[..i + 1], c)
  {
    assert ings[..i + 1][..i] == ings[..i];
    if more == [] {
      assert data + more == data;
    } else {
      assert (data + more)[..|data|] == data;
    }
  }

  lemma {:induction false} BulkAppend(a: seq<IngressData>, b: seq<IngressData>, host: string)
    ensures BulkEntries(a + b, host) == BulkEntries(a, host) + BulkEntries(b, host)
    ensures PathCount(a + b) == PathCount(a) + PathCount(b)
  {
    if b == [] {
      assert a + b == a;
    } else {
      var rest := b[..|b| - 1];
      BulkAppend(a, rest, host);
      assert (a + b)[..|a + b| - 1] == a + rest;
      Assoc(BulkEntries(a, host), BulkEntries(rest, host), HostEntries(b[|b| - 1].rules, host));
    }
  }

  lemma SyncedOneMore(data: seq<IngressData>, more: seq<IngressData>, total: nat, before: Cache, was: Cache,
                      now: Cache, routes: seq<Route>, own: seq<Route>, c: Controller)
    requires Synced(data, total, before, was, routes, c) && Synced(more, |own|, was, now, own, c)
    ensures Synced(data + more, total + |own|, before, now, routes + own, c)
  {
    BulkAppend(data, more, "");
    forall h
      ensures BulkEntries(data + more, h) == EntriesOf(ForHost(routes + own, h), c)
    {
      BulkAppend(data, more, h);
      ForHostAppend(routes, own, h);
    }
    ViaAppend(c, routes, own);
    OverlayAppend(before, ViaAll(c, routes), ViaAll(c, own));
  }

  class Watcher {
    var routeCache: Cache
    var ingressService: Option<Controller>
    /** The managed ingresses there are, by the events and lists received. */
    ghost var live: Live

    /** Nothing is cached before the controller is known. */
    ghost predicate Valid()
      reads this
    {
      routeCache != map[] ==> ingressService.Some?
    }

    constructor ()
      ensures Valid() && routeCache == map[] && ingressService.None? && live == map[]
    {
      routeCache, ingressService, live := map[], None, map[];
    }

    /** Keeps the known controller, or takes the one just detected. */
    method EnsureController(detected: Option<Controller>) returns (ok: bool)
      modifies this`ingressService
      ensures ingressService == if old(ingressService).Some? then old(ingressService) else detected
      ensures ok == ingressService.Some?
    {
      if ingressService.None? {
        ingressService := detected;
      }
      return ingressService.Some?;
    }

    method RegisterAll(routes: seq<Route>, c: Controller) returns (registered: seq<Registration>)
      modifies this`routeCache
      ensures routeCache == Overlay(old(routeCache), routes)
      ensures registered == RegistrationsOf(routes, c)
    {
      registered := [];
      for i := 0 to |routes|
        invariant routeCache == Overlay(old(routeCache), routes[..i])
        invariant registered == RegistrationsOf(routes[..i], c)
      {
        assert routes[..i + 1][..i] == routes[..i];
        routeCache := routeCache[routes[i].host := routes[i]];
        registered := registered + [RegistrationOf(routes[i], c)];
      }
      assert routes[..|routes|] == routes;
    }

    method UnregisterAll(routes: seq<Route>) returns (unregistered: seq<string>)
      modifies this`routeCache
      ensures routeCache == Without(old(routeCache), routes)
      ensures unregistered == HostsOf(routes)
    {
      unregistered := [];
      assert Without(routeCache, []) == routeCache;
      for i := 0 to |routes|
        invariant routeCache == Without(old(routeCache), routes[..i])
        invariant unregistered == HostsOf(routes[..i])
      {
        assert routes[..i + 1] == routes[..i] + [routes[i]];
        WithoutAfter(old(routeCache), routes[..i], routes[i]);
        routeCache := routeCache - {routes[i].host};
        unregistered := unregistered + [routes[i].host];
      }
      assert routes[..|routes|] == routes;
    }

    /** An informer event, with the services and the controller search of its moment.
        An added or updated ingress has each of its routes cached and registered, in
        order; a deleted one has its hosts dropped and unregistered.  An ingress that
        is not managed or has no route changes nothing, nor does an addition while the
        controller is unknown.  The last two clauses say exactly when the cache keeps
        mirroring the live ingresses, and which hosts it then holds without need. */
    method OnIngressEvent(ing: Ingress, action: Action, services: Services, detected: Option<Controller>)
      returns (registered: seq<Registration>, unregistered: seq<string>)
      requires Valid()
      modifies this
      ensures Valid()
      ensures !IsManaged(ing) || Routes(services, ing) == [] ==>
                && routeCache == old(routeCache) && ingressService == old(ingressService)
                && registered == [] && unregistered == []
      ensures IsManaged(ing) && Routes(services, ing) != [] && action.Delete? ==>
                && routeCache == Without(old(routeCache), Routes(services, ing))
                && ingressService == old(ingressService)
                && registered == [] && unregistered == HostsOf(Routes(services, ing))
      ensures IsManaged(ing) && Routes(services, ing) != [] && !action.Delete? ==>
                && ingressService == (if old(ingressService).Some? then old(ingressService) else detected)
                && unregistered == []
                && (if ingressService.None? then routeCache == old(routeCache) && registered == []
                    else && routeCache == Overlay(old(routeCache), Routes(services, ing))
                         && registered == RegistrationsOf(Routes(services, ing), ingressService.value))
      ensures live == if action.Delete? || !IsManaged(ing) then old(live) - {(ing.namespace, ing.name)}
                      else old(live)[(ing.namespace, ing.name) := Routes(services, ing)]
      ensures Mirrors(old(routeCache), old(live)) ==>
                (Mirrors(routeCache, live) <==>
                 KeepsMirror(old(live), ing, action, Routes(services, ing), ingressService.Some?))
      ensures forall h :: Stale(routeCache, live, h) <==>
                && h in old(routeCache) && !HasHost(OwnRoutes(services, ing), h)
                && !LiveElsewhere(old(live), (ing.namespace, ing.name), h)
    {
      registered, unregistered := [], [];
      ghost var key := (ing.namespace, ing.name);
      EventMirror(routeCache, live, key, OwnRoutes(services, ing));
      if !IsManaged(ing) {
        live := live - {key};
        return;
      }
      var routes := ExtractRoutes(services, ing);
      live := if action.Delete? then live - {key} else live[key := routes];
      if |routes| == 0 {
        return;
      }
      if action.Delete? {
        WithoutAt(routeCache, routes);
        unregistered := UnregisterAll(routes);
        return;
      }
      var known := EnsureController(detected);
      if !known {
        return;
      }
      registered := RegisterAll(routes, ingressService.value);
    }

    /** Where a request without routing information goes: a cached host goes to the
        ingress controller, never to the service the route names. */
    method FallbackTarget(hostname: string) returns (target: Option<Controller>)
      requires Valid()
      ensures target == if LookupRoute(routeCache, hostname).Some? then ingressService else None
      ensures target.Some? <==> LookupRoute(routeCache, hostname).Some?
      ensures hostname in routeCache ==> target.Some? && target == ingressService
      ensures Mirrors(routeCache, live) && LiveHost(live, hostname) ==> target.Some? && target == ingressService
    {
      LookupFinds(routeCache, hostname);
      var route := LookupRoute(routeCache, hostname);
      if route.None? {
        return None;
      }
      target := Some(Controller(route.value.service, route.value.namespace, route.value.port));
      if ingressService.Some? {
        target := ingressService;
      }
    }

    /** The bulk sync of a full list, if the list call gives one.  The request says
        about every host what the routes of all managed ingresses say, in the same
        order, and `total` counts them; the cache is overlaid with those routes.  It
        then mirrors the listed ingresses, whatever it held before; hosts that no
        longer have a route stay in it.  Without a controller or a list nothing is
        sent or cached. */
    method SyncExistingIngresses(listed: Option<seq<Ingress>>, services: Services, detected: Option<Controller>)
      returns (ok: bool, data: seq<IngressData>, total: nat)
      requires Valid()
      modifies this
      ensures Valid()
      ensures ingressService == if old(ingressService).Some? then old(ingressService) else detected
      ensures ok == (ingressService.Some? && listed.Some?)
      ensures !ok ==> routeCache == old(routeCache) && data == [] && live == old(live)
      ensures ok ==>
                && Synced(data, total, old(routeCache), routeCache, AllRoutes(services, listed.value),
                          ingressService.value)
                && PartsFor(data, services, listed.value, ingressService.value)
                && live == LiveOf(services, listed.value) && Mirrors(routeCache, live)
      ensures ok && DistinctKeys(listed.value) ==>
                forall h :: Stale(routeCache, live, h) <==>
                  h in old(routeCache) && !HasHost(AllRoutes(services, listed.value), h)
    {
      data, total := [], 0;
      ok := EnsureController(detected);
      if !ok {
        return;
      }
      if listed.None? {
        ok := false;
        return;
      }
      var c, ings := ingressService.value, listed.value;
      ghost var before := routeCache;
      data, total, routeCache := SyncAll(services, ings, c, routeCache);
      live := LiveOf(services, ings);
      SyncMirrors(before, services, ings, c, routeCache, live);
    }
  }

  /** What an event's possible outcomes do to the mirror and to stale hosts. */
  lemma EventMirror(cache: Cache, live: Live, key: Key, routes: seq<Route>)
    ensures Mirrors(cache, live) ==>
              && Mirrors(Overlay(cache, routes), live[key := routes])
              && (Mirrors(Without(cache, routes), live - {key}) <==>
                  forall r | r in routes :: !LiveElsewhere(live, key, r.host))
              && (cache == map[] ==> (Mirrors(cache, live[key := routes]) <==> routes == []))
    ensures forall h :: Stale(Overlay(cache, routes), live[key := routes], h) <==>
              h in cache && !HasHost(routes, h) && !LiveElsewhere(live, key, h)
    ensures forall h :: Stale(Without(cache, routes), live - {key}, h) <==>
              h in cache && !HasHost(routes, h) && !LiveElsewhere(live, key, h)
    ensures routes == [] ==> Overlay(cache, routes) == cache == Without(cache, routes)
  {
    if Mirrors(cache, live) {
      AddingMirrors(cache, live, key, routes);
      DeletingMirrors(cache, live, key, routes);
    }
    forall h
      ensures Stale(Overlay(cache, routes), live[key := routes], h) <==>
                h in cache && !HasHost(routes, h) && !LiveElsewhere(live, key, h)
      ensures Stale(Without(cache, routes), live - {key}, h) <==>
                h in cache && !HasHost(routes, h) && !LiveElsewhere(live, key, h)
    {
      StaleAfter(cache, live, key, routes, h);
    }
  }

  /** The same list as one addition event after the other, for a controller that is
      known or found at once: all registrations in order, and the cache they fill. */
  method ReplayAsEvents(w: Watcher, ings: seq<Ingress>, services: Services, detected: Option<Controller>)
    returns (registered: seq<Registration>)
    requires w.Valid() && (w.ingressService.Some? || detected.Some?)
    modifies w
    ensures w.Valid()
    ensures var c := if old(w.ingressService).Some? then old(w.ingressService).value else detected.value;
            && (w.ingressService.Some? ==> w.ingressService == Some(c))
            && registered == RegistrationsOf(AllRoutes(services, ings), c)
    ensures w.routeCache == Overlay(old(w.routeCache), AllRoutes(services, ings))
  {
    ghost var c := if w.ingressService.Some? then w.ingressService.value else detected.value;
    ghost var before := w.routeCache;
    registered := [];
    for i := 0 to |ings|
      invariant w.Valid() && (w.ingressService == old(w.ingressService) || w.ingressService == Some(c))
      invariant Replayed(registered, before, w.routeCache, AllRoutes(services, ings[..i]), c)
    {
      ghost var cache := w.routeCache;
      var more := ReplayOne(w, ings[i], services, detected, c);
      AllRoutesAfter(services, ings, i);
      ReplayedOneMore(registered, before, cache, AllRoutes(services, ings[..i]),
                      more, w.routeCache, OwnRoutes(services, ings[i]), c);
      registered := registered + more;
    }
    assert ings[..|ings|] == ings;
  }

  /** The registrations sent and the cache filled are those of these routes. */
  ghost predicate Replayed(registered: seq<Registration>, before: Cache, cache: Cache, routes: seq<Route>,
                           c: Controller)
  {
    registered == RegistrationsOf(routes, c) && cache == Overlay(before, routes)
  }

  method ReplayOne(w: Watcher, ing: Ingress, services: Services, detected: Option<Controller>, ghost c: Controller)
    returns (registered: seq<Registration>)
    requires w.Valid() && Some(c) == if w.ingressService.Some? then w.ingressService else detected
    modifies w
    ensures w.Valid() && (w.ingressService == old(w.ingressService) || w.ingressService == Some(c))
    ensures Replayed(registered, old(w.routeCache), w.routeCache, OwnRoutes(services, ing), c)
  {
    var gone;
    registered, gone := w.OnIngressEvent(ing, Add, services, detected);
  }

  lemma ReplayedOneMore(registered: seq<Registration>, before: Cache, cache: Cache, done: seq<Route>,
                        more: seq<Registration>, after: Cache, own: seq<Route>, c: Controller)
    requires Replayed(registered, before, cache, done, c) && Replayed(more, cache, after, own, c)
    ensures Replayed(registered + more, before, after, done + own, c)
  {
    OverlayAppend(before, done, own);
  }

  lemma AllRoutesAfter(services: Services, ings: seq<Ingress>, i: nat)
    requires i < |ings|
    ensures AllRoutes(services, ings[..i + 1]) == AllRoutes(services, ings[..i]) + OwnRoutes(services, ings[i])
  {
    assert ings[..i + 1][..i] == ings[..i];
  }

  /** The bulk request and the replayed events tell the control plane the same about
      every host: the same paths, path types, TLS flags and targets, in the same order. */
  lemma BulkRefinesEvents(services: Services, ings: seq<Ingress>, c: Controller, total: nat,
                          data: seq<IngressData>, before: Cache, cache: Cache, host: string)
    requires Synced(data, total, before, cache, AllRoutes(services, ings), c)
    ensures BulkEntries(data, host) == EventEntries(RegistrationsOf(AllRoutes(services, ings), c), host)
    ensures host in cache <==> host in Overlay(before, AllRoutes(services, ings))
  {
    EventEntriesByHost(AllRoutes(services, ings), c, host);
    SyncAndEventsCacheAlike(before, AllRoutes(services, ings), c, host);
  }

  /** The loop over the list. */
  method SyncAll(services: Services, ings: seq<Ingress>, c: Controller, cache: Cache)
    returns (data: seq<IngressData>, total: nat, filled: Cache)
    ensures Synced(data, total, cache, filled, AllRoutes(services, ings), c)
    ensures PartsFor(data, services, ings, c)
  {
    data, total, filled := [], 0, cache;
    for i := 0 to |ings|
      invariant Synced(data, total, cache, filled, AllRoutes(services, ings[..i]), c)
      invariant PartsFor(data, services, ings[..i], c)
    {
      data, total, filled := SyncTurn(services, ings, i, c, data, total, filled, cache);
    }
    assert ings[..|ings|] == ings;
  }

  /** One turn of it. */
  method SyncTurn(services: Services, ings: seq<Ingress>, i: nat, c: Controller,
                  sent: seq<IngressData>, count: nat, cache: Cache, ghost before: Cache)
    returns (data: seq<IngressData>, total: nat, filled: Cache)
    requires i < |ings| && Synced(sent, count, before, cache, AllRoutes(services, ings[..i]), c)
    requires PartsFor(sent, services, ings[..i], c)
    ensures Synced(data, total, before, filled, AllRoutes(services, ings[..i + 1]), c)
    ensures PartsFor(data, services, ings[..i + 1], c)
  {
    AllRoutesAfter(services, ings, i);
    if !IsManaged(ings[i]) {
      assert AllRoutes(services, ings[..i]) + [] == AllRoutes(services, ings[..i]);
      PartsOneMore(sent, [], services, ings, i, c);
      assert sent + [] == sent;
      return sent, count, cache;
    }
    var more, added;
    more, added, filled := SyncIngress(services, ings[i], c, cache);
    SyncedOneMore(sent, more, count, before, cache, filled,
                  AllRoutes(services, ings[..i]), Routes(services, ings[i]), c);
    PartsOneMore(sent, more, services, ings, i, c);
    return sent + more, count + added, filled;
  }

  lemma NoHostNoRoute(routes: seq<Route>, hosts: set<string>)
    requires forall r | r in routes :: r.host in hosts
    ensures routes == [] || hosts != {}
  {
    if routes != [] {
      assert routes[0].host in hosts;
    }
  }

  /** The sync of one managed ingress: grouped by host, sent only if it has a rule. */
  method SyncIngress(services: Services, ing: Ingress, c: Controller, cache: Cache)
    returns (more: seq<IngressData>, count: nat, filled: Cache)
    ensures count == |Routes(services, ing)|
    ensures Synced(more, count, cache, filled, Routes(services, ing), c)
    ensures if HttpHosts(ing.rules) != {} then |more| == 1 && StandsFor(more[0], services, ing, c) else more == []
  {
    var groups;
    ghost var routes := Routes(services, ing);
    groups, count := GroupRules(services, ing, c);
    RuleRoutesOfIngress(services, ing, ing.rules);
    if |groups| > 0 {
      var rules;
      rules, filled := EmitRules(groups, ing, c, cache, HttpHosts(ing.rules), routes);
      more := [IngressData(ing.namespace, ing.name, ing.annotations, rules)];
      assert more[..0] == [];
      assert forall h :: BulkEntries(more, h) == [] + HostEntries(rules, h) == HostEntries(rules, h);
    } else {
      more, filled := [], cache;
      assert groups == map[];
      assert HttpHosts(ing.rules) == {};
      NoHostNoRoute(routes, HttpHosts(ing.rules));
    }
  }

  function Without(cache: Cache, routes: seq<Route>): Cache {
    cache - set r | r in routes :: r.host
  }

  function HostsOf(routes: seq<Route>): seq<string> {
    seq(|routes|, i requires 0 <= i < |routes| => routes[i].host)
  }

  /** Each route's host is unregistered, in order. */
  lemma HostsOfMeans(routes: seq<Route>, i: nat)
    requires i < |routes|
    ensures |HostsOf(routes)| == |routes| && HostsOf(routes)[i] == routes[i].host
  {
  }

  lemma WithoutAfter(cache: Cache, routes: seq<Route>, r: Route)
    ensures Without(cache, routes + [r]) == Without(cache, routes) - {r.host}
  {
    assert (set q | q in routes + [r] :: q.host) == (set q | q in routes :: q.host) + {r.host} by {
      forall q | q in routes
        ensures q in routes + [r]
      {
      }
      assert r in routes + [r];
    }
  }

  /** Deleting drops the hosts of the routes and keeps every other entry. */
  lemma WithoutAt(cache: Cache, routes: seq<Route>)
    ensures forall h :: h in Without(cache, routes) <==> h in cache && forall r | r in routes :: r.host != h
    ensures forall h | h in Without(cache, routes) :: Without(cache, routes)[h] == cache[h]
  {
  }
}
