/** Routes extracted from ingress objects: what one ingress event registers, what
    the bulk sync groups by host, and the cache both of them fill. */
module IngressRoutes {
  import opened Wire

  // ----- Kubernetes objects -----

  /** A named service port; the resolved number may be anything the API holds. */
  datatype ServicePort = ServicePort(name: string, port: int)

  datatype ServiceKind = ClusterIp | NodePort | LoadBalancer | ExternalName

  datatype Service = Service(kind: ServiceKind, ports: seq<ServicePort>)

  /** The services of the cluster at one moment, by namespace and name. */
  type Services = map<(string, string), Service>

  datatype Backend = Backend(service: string, portNumber: int, portName: string)

  datatype Path = Path(path: string, pathType: Option<string>, backend: Option<Backend>)

  datatype Rule = Rule(host: string, http: Option<seq<Path>>)

  datatype Ingress = Ingress(namespace: string, name: string, labels: map<string, string>,
                             annotations: map<string, string>, tlsEntries: nat, rules: seq<Rule>)

  predicate IsManaged(ing: Ingress) {
    || ("pipeops.io/managed" in ing.labels && ing.labels["pipeops.io/managed"] == "true")
    || ("pipeops.io/managed-by" in ing.annotations && ing.annotations["pipeops.io/managed-by"] == "pipeops")
  }

  /** The ingress controller's own service. */
  datatype Controller = Controller(name: string, namespace: string, port: int)

  datatype Route = Route(host: string, path: string, pathType: string, service: string, namespace: string,
                         ingressName: string, port: int, tls: bool, annotations: map<string, string>)

  // ----- Which paths become routes -----

  function PortByName(ports: seq<ServicePort>, name: string): Option<int> {
    if ports == [] then None
    else if ports[0].name == name then Some(ports[0].port)
    else PortByName(ports[1..], name)
  }

  function ResolveServicePort(services: Services, namespace: string, service: string, port: string): Option<int> {
    if (namespace, service) in services then PortByName(services[(namespace, service)].ports, port) else None
  }

  predicate IsServiceAllowed(services: Services, namespace: string, service: string) {
    && !(namespace == "default" && service == "kubernetes")
    && namespace != "kube-system" && namespace != "kube-public" && namespace != "kube-node-lease"
    && (namespace, service) in services
    && !services[(namespace, service)].kind.LoadBalancer?
    && !services[(namespace, service)].kind.ExternalName?
  }

  /** The number wins over the name; neither, or a name that does not resolve, is no port. */
  function PortOf(services: Services, namespace: string, b: Backend): int {
    if b.portNumber != 0 then b.portNumber
    else if b.portName == "" then 0
    else match ResolveServicePort(services, namespace, b.service, b.portName)
         case Some(port) => port
         case None => 0
  }

  function RouteOf(services: Services, ing: Ingress, host: string, p: Path): seq<Route> {
    if p.backend.None? then [] else
    var b := p.backend.value;
    var port := PortOf(services, ing.namespace, b);
    if port == 0 || !IsServiceAllowed(services, ing.namespace, b.service) then [] else
    [Route(host, p.path, if p.pathType.Some? then p.pathType.value else "Prefix", b.service, ing.namespace,
           ing.name, port, ing.tlsEntries > 0, ing.annotations)]
  }

  function RoutesOfPaths(services: Services, ing: Ingress, host: string, paths: seq<Path>): seq<Route> {
    if paths == [] then []
    else RoutesOfPaths(services, ing, host, paths[..|paths| - 1]) + RouteOf(services, ing, host, paths[|paths| - 1])
  }

  function RoutesOfRules(services: Services, ing: Ingress, rules: seq<Rule>): seq<Route> {
    if rules == [] then []
    else RoutesOfRules(services, ing, rules[..|rules| - 1])
         + (var last := rules[|rules| - 1];
            if last.http.None? then [] else RoutesOfPaths(services, ing, last.host, last.http.value))
  }

  function Routes(services: Services, ing: Ingress): seq<Route> {
    RoutesOfRules(services, ing, ing.rules)
  }

  function OwnRoutes(services: Services, ing: Ingress): seq<Route> {
    if IsManaged(ing) then Routes(services, ing) else []
  }

  /** The routes of all managed ingresses of a list, in order. */
  function AllRoutes(services: Services, ings: seq<Ingress>): seq<Route> {
    if ings == [] then []
    else AllRoutes(services, ings[..|ings| - 1])
         + OwnRoutes(services, ings[|ings| - 1])
  }

  // ----- What is a route -----

  /** A service that may be reached through the tunnel: no system namespace, not the API
      server, and neither load balancer nor alias. */
  ghost predicate Exposable(services: Services, namespace: string, service: string) {
    && namespace !in {"kube-system", "kube-public", "kube-node-lease"}
    && (namespace, service) != ("default", "kubernetes")
    && exists ports :: (namespace, service) in services
                       && services[(namespace, service)] in {Service(ClusterIp, ports), Service(NodePort, ports)}
  }

  /** The first port of that name. */
  ghost predicate NamesPort(services: Services, namespace: string, service: string, name: string, port: int) {
    && (namespace, service) in services
    && exists i | 0 <= i < |services[(namespace, service)].ports| ::
         && services[(namespace, service)].ports[i] == ServicePort(name, port)
         && forall j | 0 <= j < i :: services[(namespace, service)].ports[j].name != name
  }

  /** `r` is the route of this path: everything the ingress says, and a port that is not
      zero, by number or else by name. */
  ghost predicate IsRouteOf(services: Services, ing: Ingress, host: string, p: Path, r: Route) {
    && p.backend.Some? && Exposable(services, ing.namespace, p.backend.value.service)
    && r.host == host && r.path == p.path && r.service == p.backend.value.service
    && r.pathType == (if p.pathType == None then "Prefix" else p.pathType.value)
    && r.namespace == ing.namespace && r.ingressName == ing.name && r.annotations == ing.annotations
    && (r.tls <==> ing.tlsEntries > 0)
    && r.port != 0
    && (if p.backend.value.portNumber != 0 then r.port == p.backend.value.portNumber
        else p.backend.value.portName != ""
             && NamesPort(services, ing.namespace, r.service, p.backend.value.portName, r.port))
  }

  lemma {:induction false} PortIsFirst(ports: seq<ServicePort>, name: string, port: int)
    ensures PortByName(ports, name) == Some(port) <==>
            exists i | 0 <= i < |ports| ::
              ports[i] == ServicePort(name, port) && forall j | 0 <= j < i :: ports[j].name != name
  {
    if ports != [] && ports[0].name != name {
      var rest := ports[1..];
      PortIsFirst(rest, name, port);
      if PortByName(rest, name) == Some(port) {
        var i :| 0 <= i < |rest| && rest[i] == ServicePort(name, port) && forall j | 0 <= j < i :: rest[j].name != name;
        assert ports[i + 1] == ServicePort(name, port);
        forall j | 0 <= j < i + 1
          ensures ports[j].name != name
        {
          assert j > 0 ==> ports[j] == rest[j - 1];
        }
      }
      if i :| 0 <= i < |ports| && ports[i] == ServicePort(name, port)
              && forall j | 0 <= j < i :: ports[j].name != name {
        assert rest[i - 1] == ServicePort(name, port);
        assert forall j | 0 <= j < i - 1 :: rest[j] == ports[j + 1];
      }
    } else if ports != [] {
      assert ports[0] == ServicePort(name, ports[0].port);
    }
  }

  lemma AllowedMeansExposable(services: Services, namespace: string, service: string)
    ensures IsServiceAllowed(services, namespace, service) <==> Exposable(services, namespace, service)
  {
    if (namespace, service) in services {
      var s := services[(namespace, service)];
      assert s == Service(s.kind, s.ports);
    }
  }

  /** A path gives exactly that route, and none when there is none. */
  lemma RouteOfMeans(services: Services, ing: Ingress, host: string, p: Path, r: Route)
    ensures RouteOf(services, ing, host, p) == [r] <==> IsRouteOf(services, ing, host, p, r)
    ensures |RouteOf(services, ing, host, p)| <= 1
  {
    if p.backend.Some? {
      var b := p.backend.value;
      AllowedMeansExposable(services, ing.namespace, b.service);
      if (ing.namespace, b.service) in services {
        PortIsFirst(services[(ing.namespace, b.service)].ports, b.portName, r.port);
      }
    }
  }

  /** Extraction goes through the rules and their paths in order. */
  lemma {:induction false} PathsInOrder(services: Services, ing: Ingress, host: string, a: seq<Path>, b: seq<Path>)
    ensures RoutesOfPaths(services, ing, host, a + b) ==
            RoutesOfPaths(services, ing, host, a) + RoutesOfPaths(services, ing, host, b)
  {
    if b == [] {
      assert a + b == a;
    } else {
      var rest, last := b[..|b| - 1], b[|b| - 1];
      PathsInOrder(services, ing, host, a, rest);
      assert (a + b)[..|a + b| - 1] == a + rest && (a + b)[|a + b| - 1] == last;
      Assoc(RoutesOfPaths(services, ing, host, a), RoutesOfPaths(services, ing, host, rest),
            RouteOf(services, ing, host, last));
    }
  }

  lemma {:induction false} RulesInOrder(services: Services, ing: Ingress, a: seq<Rule>, b: seq<Rule>)
    ensures RoutesOfRules(services, ing, a + b) == RoutesOfRules(services, ing, a) + RoutesOfRules(services, ing, b)
  {
    if b == [] {
      assert a + b == a;
    } else {
      var rest, last := b[..|b| - 1], b[|b| - 1];
      RulesInOrder(services, ing, a, rest);
      assert (a + b)[..|a + b| - 1] == a + rest && (a + b)[|a + b| - 1] == last;
      Assoc(RoutesOfRules(services, ing, a), RoutesOfRules(services, ing, rest),
            if last.http.None? then [] else RoutesOfPaths(services, ing, last.host, last.http.value));
    }
  }

  lemma {:induction false} PathRoutesAre(services: Services, ing: Ingress, host: string, paths: seq<Path>, r: Route)
    ensures r in RoutesOfPaths(services, ing, host, paths) <==>
            exists p :: p in paths && IsRouteOf(services, ing, host, p, r)
  {
    if paths != [] {
      var rest, last := paths[..|paths| - 1], paths[|paths| - 1];
      PathRoutesAre(services, ing, host, rest, r);
      RouteOfMeans(services, ing, host, last, r);
      assert paths == rest + [last];
      var own := RouteOf(services, ing, host, last);
      assert r in own <==> own == [r];
    }
  }

  /** The routes of an ingress are those of the paths of its rules, and no others. */
  lemma {:induction false} RoutesAre(services: Services, ing: Ingress, rules: seq<Rule>, r: Route)
    ensures r in RoutesOfRules(services, ing, rules) <==>
            exists rule, p :: rule in rules && rule.http.Some? && p in rule.http.value
                              && IsRouteOf(services, ing, rule.host, p, r)
  {
    if rules != [] {
      var rest, last := rules[..|rules| - 1], rules[|rules| - 1];
      RoutesAre(services, ing, rest, r);
      if last.http.Some? {
        PathRoutesAre(services, ing, last.host, last.http.value, r);
      }
      assert rules == rest + [last];
    }
  }

  /** The label or the annotation makes an ingress managed, with just these values. */
  lemma ManagedBy(ing: Ingress)
    ensures ing.labels == map["pipeops.io/managed" := "true"] ==> IsManaged(ing)
    ensures ing.annotations == map["pipeops.io/managed-by" := "pipeops"] ==> IsManaged(ing)
    ensures IsManaged(ing) ==>
              || ("pipeops.io/managed", "true") in ing.labels.Items
              || ("pipeops.io/managed-by", "pipeops") in ing.annotations.Items
  {
  }

  /** The event path's extraction: in rule order, then path order. */
  method ExtractRoutes(services: Services, ing: Ingress) returns (routes: seq<Route>)
    ensures routes == Routes(services, ing)
  {
    routes := [];
    var hasTls := ing.tlsEntries > 0;
    for i := 0 to |ing.rules|
      invariant routes == RoutesOfRules(services, ing, ing.rules[..i])
    {
      var rule := ing.rules[i];
      assert ing.rules[..i + 1][..i] == ing.rules[..i];
      if rule.http.None? {
        continue;
      }
      var more := ExtractPaths(services, ing, rule.host, rule.http.value, hasTls);
      routes := routes + more;
    }
    assert ing.rules[..|ing.rules|] == ing.rules;
  }

  /** The paths of one rule, in order. */
  method ExtractPaths(services: Services, ing: Ingress, host: string, paths: seq<Path>, hasTls: bool)
    returns (routes: seq<Route>)
    requires hasTls == (ing.tlsEntries > 0)
    ensures routes == RoutesOfPaths(services, ing, host, paths)
  {
    routes := [];
    for j := 0 to |paths|
      invariant routes == RoutesOfPaths(services, ing, host, paths[..j])
    {
      assert paths[..j + 1][..j] == paths[..j];
      if paths[j].backend.None? {
        continue;
      }
      var b := paths[j].backend.value;
      var pathType := if paths[j].pathType.Some? then paths[j].pathType.value else "Prefix";
      var port := 0;
      if b.portNumber != 0 {
        port := b.portNumber;
      } else if b.portName != "" {
        var resolved := ResolveServicePort(services, ing.namespace, b.service, b.portName);
        if resolved.None? {
          continue;
        }
        port := resolved.value;
      }
      if port == 0 || !IsServiceAllowed(services, ing.namespace, b.service) {
        continue;
      }
      routes := routes + [Route(host, paths[j].path, pathType, b.service, ing.namespace,
                                ing.name, port, hasTls, ing.annotations)];
    }
    assert paths[..|paths|] == paths;
  }

  // ----- Routes by host -----

  function ForHost(routes: seq<Route>, host: string): seq<Route> {
    if routes == [] then []
    else ForHost(routes[..|routes| - 1], host)
         + (if routes[|routes| - 1].host == host then [routes[|routes| - 1]] else [])
  }

  lemma ForHostAfter(routes: seq<Route>, r: Route, host: string)
    ensures ForHost(routes + [r], host) == ForHost(routes, host) + if r.host == host then [r] else []
  {
    assert (routes + [r])[..|routes|] == routes;
  }

  lemma {:induction false} ForHostAppend(a: seq<Route>, b: seq<Route>, host: string)
    ensures ForHost(a + b, host) == ForHost(a, host) + ForHost(b, host)
  {
    if b == [] {
      assert a + b == a;
    } else {
      var rest, last := b[..|b| - 1], b[|b| - 1];
      ForHostAppend(a, rest, host);
      assert a + b == (a + rest) + [last] && b == rest + [last];
      ForHostAfter(a + rest, last, host);
      ForHostAfter(rest, last, host);
    }
  }

  lemma {:induction false} ForHostHasHost(routes: seq<Route>, host: string)
    ensures forall r | r in ForHost(routes, host) :: r.host == host
    ensures ForHost(routes, host) == [] <==> forall r | r in routes :: r.host != host
  {
    if routes != [] {
      var rest, last := routes[..|routes| - 1], routes[|routes| - 1];
      ForHostHasHost(rest, host);
      assert routes == rest + [last];
    }
  }

  /** What the control plane learns of a route: where it matches and where the tunnel
      goes.  The target is always the ingress controller. */
  datatype Entry = Entry(path: string, pathType: string, tls: bool, service: string, port: int)

  function EntryOf(r: Route, c: Controller): Entry {
    Entry(r.path, r.pathType, r.tls, c.name, c.port)
  }

  function EntriesOf(routes: seq<Route>, c: Controller): seq<Entry> {
    seq(|routes|, i requires 0 <= i < |routes| => EntryOf(routes[i], c))
  }

  // ----- The bulk request -----

  datatype BulkPath = BulkPath(path: string, pathType: string, service: string, port: int)

  datatype BulkRule = BulkRule(host: string, tls: bool, paths: seq<BulkPath>)

  datatype IngressData = IngressData(namespace: string, name: string, annotations: map<string, string>,
                                     rules: seq<BulkRule>)

  function BulkPathsOf(routes: seq<Route>, c: Controller): seq<BulkPath> {
    seq(|routes|, i requires 0 <= i < |routes| =>
      BulkPath(routes[i].path, routes[i].pathType, c.name, c.port))
  }

  function RuleEntries(rule: BulkRule): seq<Entry> {
    seq(|rule.paths|, i requires 0 <= i < |rule.paths| =>
      Entry(rule.paths[i].path, rule.paths[i].pathType, rule.tls, rule.paths[i].service, rule.paths[i].port))
  }

  /** All the bulk request says about a host, rule by rule in the order sent. */
  function HostEntries(rules: seq<BulkRule>, host: string): seq<Entry> {
    if rules == [] then []
    else HostEntries(rules[..|rules| - 1], host)
         + (if rules[|rules| - 1].host == host then RuleEntries(rules[|rules| - 1]) else [])
  }

  function BulkEntries(data: seq<IngressData>, host: string): seq<Entry> {
    if data == [] then []
    else BulkEntries(data[..|data| - 1], host) + HostEntries(data[|data| - 1].rules, host)
  }

  /** `groups` holds one rule for each of `hosts`, with the paths of its routes in order. */
  ghost predicate Grouped(groups: map<string, BulkRule>, hosts: set<string>, routes: seq<Route>,
                          tls: bool, c: Controller)
  {
    && groups.Keys == hosts
    && (forall h | h in hosts :: groups[h] == BulkRule(h, tls, BulkPathsOf(ForHost(routes, h), c)))
    && (forall r | r in routes :: r.host in hosts && r.tls == tls)
  }

  lemma GroupedNewHost(groups: map<string, BulkRule>, hosts: set<string>, routes: seq<Route>,
                       tls: bool, c: Controller, host: string)
    requires Grouped(groups, hosts, routes, tls, c) && host !in hosts
    ensures Grouped(groups[host := BulkRule(host, tls, [])], hosts + {host}, routes, tls, c)
  {
    ForHostHasHost(routes, host);
  }

  lemma GroupedNewRoute(groups: map<string, BulkRule>, hosts: set<string>, routes: seq<Route>,
                        tls: bool, c: Controller, r: Route)
    requires Grouped(groups, hosts, routes, tls, c) && r.host in hosts && r.tls == tls
    ensures var g := groups[r.host];
            Grouped(groups[r.host := g.(paths := g.paths + [BulkPath(r.path, r.pathType, c.name, c.port)])],
                    hosts, routes + [r], tls, c)
  {
    forall h | h in hosts
      ensures ForHost(routes + [r], h) == ForHost(routes, h) + if r.host == h then [r] else []
    {
      ForHostAfter(routes, r, h);
    }
    var old', new' := ForHost(routes, r.host), ForHost(routes + [r], r.host);
    assert BulkPathsOf(new', c) == BulkPathsOf(old', c) + [BulkPath(r.path, r.pathType, c.name, c.port)];
  }

  /** The hosts of the rules that have an HTTP part, even one without valid paths. */
  ghost function HttpHosts(rules: seq<Rule>): set<string> {
    set i | 0 <= i < |rules| && rules[i].http.Some? :: rules[i].host
  }

  /** The grouping loops of the bulk sync. */
  method GroupRules(services: Services, ing: Ingress, c: Controller)
    returns (groups: map<string, BulkRule>, count: nat)
    ensures Grouped(groups, HttpHosts(ing.rules), Routes(services, ing), ing.tlsEntries > 0, c)
    ensures count == |Routes(services, ing)|
  {
    groups, count := map[], 0;
    var hasTls := ing.tlsEntries > 0;
    ghost var hosts: set<string> := {};
    ghost var routes: seq<Route> := [];
    for i := 0 to |ing.rules|
      invariant hosts == HttpHosts(ing.rules[..i])
      invariant routes == RoutesOfRules(services, ing, ing.rules[..i])
      invariant Grouped(groups, hosts, routes, hasTls, c) && count == |routes|
    {
      var rule := ing.rules[i];
      assert ing.rules[..i + 1][..i] == ing.rules[..i];
      HttpHostsAfter(ing.rules[..i], rule);
      assert ing.rules[..i + 1] == ing.rules[..i] + [rule];
      if rule.http.None? {
        continue;
      }
      if rule.host !in groups {
        GroupedNewHost(groups, hosts, routes, hasTls, c, rule.host);
        groups := groups[rule.host := BulkRule(rule.host, hasTls, [])];
      } else {
        assert hosts + {rule.host} == hosts;
      }
      hosts := hosts + {rule.host};
      groups, count := GroupPaths(services, ing, rule.host, rule.http.value, c, groups, count, hosts, routes);
      routes := routes + RoutesOfPaths(services, ing, rule.host, rule.http.value);
    }
    assert ing.rules[..|ing.rules|] == ing.rules;
  }

  lemma HttpHostsAfter(rules: seq<Rule>, rule: Rule)
    ensures HttpHosts(rules + [rule]) == HttpHosts(rules) + if rule.http.Some? then {rule.host} else {}
  {
    var all := rules + [rule];
    forall h | h in HttpHosts(rules)
      ensures h in HttpHosts(all)
    {
      var i :| 0 <= i < |rules| && rules[i].http.Some? && rules[i].host == h;
      assert all[i] == rules[i];
    }
    assert all[|rules|] == rule;
  }

  /** The checks of the inner loop, which the sync has in a copy of its own: whether
      the path is kept, and the path type it is sent with. */
  method KeepPath(services: Services, ing: Ingress, p: Path, ghost host: string)
    returns (keep: bool, pathType: string, ghost route: Route)
    ensures RouteOf(services, ing, host, p) == if keep then [route] else []
    ensures keep ==> route.host == host && route.path == p.path && route.pathType == pathType
                     && route.tls == (ing.tlsEntries > 0)
  {
    keep, pathType := false, "Prefix";
    route := Route(host, p.path, pathType, "", "", "", 0, false, map[]);
    if p.backend.None? {
      return;
    }
    var b := p.backend.value;
    if p.pathType.Some? {
      pathType := p.pathType.value;
    }
    var port := 0;
    if b.portNumber != 0 {
      port := b.portNumber;
    } else if b.portName != "" {
      var resolved := ResolveServicePort(services, ing.namespace, b.service, b.portName);
      if resolved.None? {
        return;
      }
      port := resolved.value;
    }
    if port == 0 {
      return;
    }
    if !IsServiceAllowed(services, ing.namespace, b.service) {
      return;
    }
    keep := true;
    route := Route(host, p.path, pathType, b.service, ing.namespace, ing.name, port,
                   ing.tlsEntries > 0, ing.annotations);
  }

  /** The inner loop: the paths of one rule go to the group of its host. */
  method GroupPaths(services: Services, ing: Ingress, host: string, paths: seq<Path>, c: Controller,
                    start: map<string, BulkRule>, startCount: nat, ghost hosts: set<string>, ghost before: seq<Route>)
    returns (groups: map<string, BulkRule>, count: nat)
    requires Grouped(start, hosts, before, ing.tlsEntries > 0, c) && host in hosts && startCount == |before|
    ensures Grouped(groups, hosts, before + RoutesOfPaths(services, ing, host, paths), ing.tlsEntries > 0, c)
    ensures count == |before + RoutesOfPaths(services, ing, host, paths)|
  {
    groups, count := start, startCount;
    ghost var routes := before;
    for j := 0 to |paths|
      invariant routes == before + RoutesOfPaths(services, ing, host, paths[..j])
      invariant Grouped(groups, hosts, routes, ing.tlsEntries > 0, c) && count == |routes|
    {
      assert paths[..j + 1][..j] == paths[..j];
      Assoc(before, RoutesOfPaths(services, ing, host, paths[..j]), RouteOf(services, ing, host, paths[j]));
      var keep, pathType;
      ghost var r;
      keep, pathType, r := KeepPath(services, ing, paths[j], host);
      if !keep {
        continue;
      }
      GroupedNewRoute(groups, hosts, routes, ing.tlsEntries > 0, c, r);
      var group := groups[host];
      groups := groups[host := group.(paths := group.paths + [BulkPath(paths[j].path, pathType, c.name, c.port)])];
      count := count + 1;
      routes := routes + [r];
    }
    assert paths[..|paths|] == paths;
  }
}
