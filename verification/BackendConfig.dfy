/** The service's config: built by the client from its proxies and routes, and read back by the
    service when it starts. The text of the file in between carries the values unchanged. */
module BackendConfig {
  import opened Wrappers
  import opened Text
  import opened AppIdentity
  import opened RouteTable
  import opened SessionRegistry

  datatype Proxy = Proxy(id: string, host: string, port: nat)

  /** The rule of one proxy in the config. */
  datatype ProxyRule = ProxyRule(appNames: seq<string>, endpoint: string)

  datatype ServiceConfig = ServiceConfig(rules: seq<ProxyRule>, appRoutes: seq<Route>)

  datatype BuildError = DuplicateProxyId

  /** The name the service matches a route's program by; what it depends on is not modelled. */
  type Resolver = Route -> string

  type Fold = string -> string

  function Endpoint(p: Proxy): string {
    p.host + ":" + Decimal(p.port)
  }

  // ----- building -----

  predicate DistinctIds(proxies: seq<Proxy>) {
    forall i, j | 0 <= i < j < |proxies| :: proxies[i].id != proxies[j].id
  }

  /** The routes whose names go into the rule of proxy `id`. */
  predicate Named(resolve: Resolver, id: string, r: Route) {
    r.enabled && !r.ipcManaged && r.proxyId == id && resolve(r) != ""
  }

  /** Some name of the list is the same up to case. */
  predicate Holds(fold: Fold, names: seq<string>, name: string) {
    exists i :: 0 <= i < |names| && fold(names[i]) == fold(name)
  }

  /** The names among the first `n` routes, without repetitions up to case. */
  function AppNames(fold: Fold, resolve: Resolver, rs: seq<Route>, id: string, n: nat): seq<string>
    requires n <= |rs|
  {
    if n == 0 then []
    else
      var before := AppNames(fold, resolve, rs, id, n - 1);
      if Named(resolve, id, rs[n - 1]) && !Holds(fold, before, resolve(rs[n - 1])) then before + [resolve(rs[n - 1])]
      else before
  }

  function RuleOf(fold: Fold, resolve: Resolver, rs: seq<Route>, p: Proxy): ProxyRule {
    ProxyRule(AppNames(fold, resolve, rs, p.id, |rs|), Endpoint(p))
  }

  function Rules(fold: Fold, resolve: Resolver, rs: seq<Route>, proxies: seq<Proxy>): seq<ProxyRule> {
    seq(|proxies|, i requires 0 <= i < |proxies| => RuleOf(fold, resolve, rs, proxies[i]))
  }

  function Built(fold: Fold, resolve: Resolver, proxies: seq<Proxy>, rs: seq<Route>): Result<ServiceConfig,
                 BuildError> {
    if !DistinctIds(proxies) then Failure(DuplicateProxyId)
    else Success(ServiceConfig(Rules(fold, resolve, rs, proxies), PersistentOf(rs)))
  }

  method CollectAppNames(fold: Fold, resolve: Resolver, rs: seq<Route>, id: string) returns (names: seq<string>)
    ensures names == AppNames(fold, resolve, rs, id, |rs|)
  {
    names := [];
    var i := 0;
    while i < |rs|
      invariant 0 <= i <= |rs|
      invariant names == AppNames(fold, resolve, rs, id, i)
    {
      var r := rs[i];
      if r.enabled && !r.ipcManaged && r.proxyId == id {
        var name := resolve(r);
        if name != "" && !Holds(fold, names, name) {
          names := names + [name];
        }
      }
      i := i + 1;
    }
  }

  /** One rule per configured proxy, in order, whether or not it has names. */
  method BuildConfig(fold: Fold, resolve: Resolver, proxies: seq<Proxy>, rs: seq<Route>)
    returns (built: Result<ServiceConfig, BuildError>)
    ensures built == Built(fold, resolve, proxies, rs)
  {
    if !DistinctIds(proxies) {
      return Failure(DuplicateProxyId);
    }
    var rules := [];
    var i := 0;
    while i < |proxies|
      invariant 0 <= i <= |proxies|
      invariant rules == Rules(fold, resolve, rs, proxies)[..i]
    {
      var names := CollectAppNames(fold, resolve, rs, proxies[i].id);
      rules := rules + [ProxyRule(names, Endpoint(proxies[i]))];
      i := i + 1;
    }
    assert Rules(fold, resolve, rs, proxies)[..|proxies|] == Rules(fold, resolve, rs, proxies);
    built := Success(ServiceConfig(rules, PersistentOf(rs)));
  }

  /** The config cannot be built exactly when two proxies have one id. */
  lemma BuildFailsIff(fold: Fold, resolve: Resolver, proxies: seq<Proxy>, rs: seq<Route>)
    ensures Built(fold, resolve, proxies, rs).Failure? <==>
      exists i, j :: 0 <= i < j < |proxies| && proxies[i].id == proxies[j].id
  {
  }

  // ----- the service start -----

  /** A name handed to the router for a proxy. */
  datatype Association = Association(name: string, endpoint: string, handle: ProxyHandle)

  /** The handle that stands for a failed registration. */
  const NO_PROXY: ProxyHandle := -1

  function AssociationsOf(rule: ProxyRule, handle: ProxyHandle): seq<Association> {
    if handle == NO_PROXY then []
    else
      seq(|rule.appNames|, j requires 0 <= j < |rule.appNames| => Association(rule.appNames[j], rule.endpoint, handle))
  }

  /** What the first `n` turns of the start loop hand to the router; `handles` are its answers to
      the registrations. */
  function Associations(rules: seq<ProxyRule>, handles: seq<ProxyHandle>, n: nat): seq<Association>
    requires n <= |rules| == |handles|
  {
    if n == 0 then [] else Associations(rules, handles, n - 1) + AssociationsOf(rules[n - 1], handles[n - 1])
  }

  function ProxyMap(rules: seq<ProxyRule>, handles: seq<ProxyHandle>, n: nat): map<string, ProxyHandle>
    requires n <= |rules| == |handles|
  {
    if n == 0 then map[]
    else if handles[n - 1] == NO_PROXY then ProxyMap(rules, handles, n - 1)
    else ProxyMap(rules, handles, n - 1)[rules[n - 1].endpoint := handles[n - 1]]
  }

  method Start(rules: seq<ProxyRule>, handles: seq<ProxyHandle>)
    returns (proxyMap: map<string, ProxyHandle>, associations: seq<Association>)
    requires |rules| == |handles|
    ensures proxyMap == ProxyMap(rules, handles, |rules|)
    ensures associations == Associations(rules, handles, |rules|)
  {
    proxyMap, associations := map[], [];
    var i := 0;
    while i < |rules|
      invariant 0 <= i <= |rules|
      invariant proxyMap == ProxyMap(rules, handles, i)
      invariant associations == Associations(rules, handles, i)
    {
      var proxy := handles[i];
      if proxy != NO_PROXY {
        proxyMap := proxyMap[rules[i].endpoint := proxy];
      }
      var made := AssociateNames(rules[i], proxy);
      associations := associations + made;
      i := i + 1;
    }
  }

  method AssociateNames(rule: ProxyRule, proxy: ProxyHandle) returns (made: seq<Association>)
    ensures made == AssociationsOf(rule, proxy)
  {
    made := [];
    var j := 0;
    while j < |rule.appNames|
      invariant 0 <= j <= |rule.appNames|
      invariant made == if proxy == NO_PROXY then [] else AssociationsOf(rule, proxy)[..j]
    {
      if proxy != NO_PROXY {
        made := made + [Association(rule.appNames[j], rule.endpoint, proxy)];
      }
      j := j + 1;
    }
  }

  // ----- what survives the way from one program to the other -----

  /** The names of a rule are those of its routes, each once up to case. */
  lemma {:induction false} AppNamesExact(fold: Fold, resolve: Resolver, rs: seq<Route>, id: string, n: nat,
                                         name: string)
    requires n <= |rs|
    ensures Holds(fold, AppNames(fold, resolve, rs, id, n), name) <==>
      exists i :: 0 <= i < n && rs[i].enabled && !rs[i].ipcManaged && rs[i].proxyId == id
                  && resolve(rs[i]) != "" && fold(resolve(rs[i])) == fold(name)
  {
    if n > 0 {
      AppNamesExact(fold, resolve, rs, id, n - 1, name);
      AppNamesStep(fold, resolve, rs, id, n, name);
    }
  }

  lemma AppNamesStep(fold: Fold, resolve: Resolver, rs: seq<Route>, id: string, n: nat, name: string)
    requires 0 < n <= |rs|
    ensures Holds(fold, AppNames(fold, resolve, rs, id, n), name) <==>
      Holds(fold, AppNames(fold, resolve, rs, id, n - 1), name)
      || (Named(resolve, id, rs[n - 1]) && fold(resolve(rs[n - 1])) == fold(name))
  {
    var before, after := AppNames(fold, resolve, rs, id, n - 1), AppNames(fold, resolve, rs, id, n);
    if Holds(fold, before, name) {
      var i :| 0 <= i < |before| && fold(before[i]) == fold(name);
      assert after[i] == before[i];
    }
    if after != before {
      assert after[|before|] == resolve(rs[n - 1]);
    }
  }

  predicate FoldDistinct(fold: Fold, names: seq<string>) {
    forall i, j | 0 <= i < j < |names| :: fold(names[i]) != fold(names[j])
  }

  lemma {:induction false} AppNamesDistinct(fold: Fold, resolve: Resolver, rs: seq<Route>, id: string, n: nat)
    requires n <= |rs|
    ensures FoldDistinct(fold, AppNames(fold, resolve, rs, id, n))
  {
    if n > 0 {
      AppNamesDistinct(fold, resolve, rs, id, n - 1);
      var before, name := AppNames(fold, resolve, rs, id, n - 1), resolve(rs[n - 1]);
      var names := AppNames(fold, resolve, rs, id, n);
      forall i, j | 0 <= i < j < |names|
        ensures fold(names[i]) != fold(names[j])
      {
        assert names[i] == before[i];
        if j < |before| {
          assert names[j] == before[j] && fold(before[i]) != fold(before[j]);
        } else {
          assert names == before + [name] && !Holds(fold, before, name);
          assert fold(before[i]) != fold(name);
        }
      }
    }
  }

  /** The service is told to send programs called `name`, up to case, to the proxy with this endpoint
      and this handle. */
  ghost predicate Told(fold: Fold, told: seq<Association>, name: string, endpoint: string, handle: ProxyHandle) {
    exists k :: 0 <= k < |told| && fold(told[k].name) == fold(name)
                && told[k].endpoint == endpoint && told[k].handle == handle
  }

  /** Some enabled route that is not managed over the pipe names the program for proxy `id`. */
  ghost predicate AskedOf(fold: Fold, resolve: Resolver, rs: seq<Route>, id: string, name: string) {
    exists r :: r in rs && r.enabled && !r.ipcManaged && r.proxyId == id
                && resolve(r) != "" && fold(resolve(r)) == fold(name)
  }

  /** Among the first `n` rules, one with this endpoint holds the name, and its proxy was registered
      with this handle. */
  ghost predicate RuleHolds(fold: Fold, rules: seq<ProxyRule>, handles: seq<ProxyHandle>, n: nat,
                            name: string, endpoint: string, handle: ProxyHandle)
    requires n <= |rules| == |handles|
  {
    exists i :: 0 <= i < n && handles[i] == handle != NO_PROXY
                && rules[i].endpoint == endpoint && Holds(fold, rules[i].appNames, name)
  }

  lemma RuleHoldsStep(fold: Fold, rules: seq<ProxyRule>, handles: seq<ProxyHandle>, n: nat,
                      name: string, endpoint: string, handle: ProxyHandle)
    requires 0 < n <= |rules| == |handles|
    ensures RuleHolds(fold, rules, handles, n, name, endpoint, handle) <==>
      || RuleHolds(fold, rules, handles, n - 1, name, endpoint, handle)
      || (handles[n - 1] == handle != NO_PROXY
          && rules[n - 1].endpoint == endpoint && Holds(fold, rules[n - 1].appNames, name))
  {
  }

  lemma RuleTold(fold: Fold, rule: ProxyRule, given: ProxyHandle, name: string, endpoint: string, handle: ProxyHandle)
    ensures Told(fold, AssociationsOf(rule, given), name, endpoint, handle) <==>
      given == handle != NO_PROXY && rule.endpoint == endpoint && Holds(fold, rule.appNames, name)
  {
    var told := AssociationsOf(rule, given);
    if given == handle != NO_PROXY && rule.endpoint == endpoint && Holds(fold, rule.appNames, name) {
      var j :| 0 <= j < |rule.appNames| && fold(rule.appNames[j]) == fold(name);
      assert told[j].name == rule.appNames[j];
    }
    if k :| 0 <= k < |told| && fold(told[k].name) == fold(name)
            && told[k].endpoint == endpoint && told[k].handle == handle {
      assert told[k].name == rule.appNames[k];
    }
  }

  lemma ToldEither(fold: Fold, a: seq<Association>, b: seq<Association>,
                   name: string, endpoint: string, handle: ProxyHandle)
    ensures Told(fold, a + b, name, endpoint, handle) <==>
      Told(fold, a, name, endpoint, handle) || Told(fold, b, name, endpoint, handle)
  {
    if k :| 0 <= k < |a| && fold(a[k].name) == fold(name) && a[k].endpoint == endpoint && a[k].handle == handle {
      assert (a + b)[k] == a[k];
    }
    if k :| 0 <= k < |b| && fold(b[k].name) == fold(name) && b[k].endpoint == endpoint && b[k].handle == handle {
      assert (a + b)[|a| + k] == b[k];
    }
  }

  lemma {:induction false} AssociationsExact(fold: Fold, rules: seq<ProxyRule>, handles: seq<ProxyHandle>, n: nat,
                                             name: string, endpoint: string, handle: ProxyHandle)
    requires n <= |rules| == |handles|
    ensures Told(fold, Associations(rules, handles, n), name, endpoint, handle) <==>
      RuleHolds(fold, rules, handles, n, name, endpoint, handle)
  {
    if n > 0 {
      AssociationsExact(fold, rules, handles, n - 1, name, endpoint, handle);
      RuleHoldsStep(fold, rules, handles, n, name, endpoint, handle);
      RuleTold(fold, rules[n - 1], handles[n - 1], name, endpoint, handle);
      ToldEither(fold, Associations(rules, handles, n - 1), AssociationsOf(rules[n - 1], handles[n - 1]),
                 name, endpoint, handle);
    }
  }

  lemma RuleAsked(fold: Fold, resolve: Resolver, rs: seq<Route>, p: Proxy, name: string)
    ensures Holds(fold, RuleOf(fold, resolve, rs, p).appNames, name) <==> AskedOf(fold, resolve, rs, p.id, name)
  {
    AppNamesExact(fold, resolve, rs, p.id, |rs|, name);
    if r :| r in rs && r.enabled && !r.ipcManaged && r.proxyId == p.id
            && resolve(r) != "" && fold(resolve(r)) == fold(name) {
      var i :| 0 <= i < |rs| && rs[i] == r;
    }
  }

  /** A route asks for the program to go to a proxy with this endpoint that got this handle. */
  ghost predicate Asked(fold: Fold, resolve: Resolver, proxies: seq<Proxy>, rs: seq<Route>, handles: seq<ProxyHandle>,
                        name: string, endpoint: string, handle: ProxyHandle)
    requires |handles| == |proxies|
  {
    exists i :: 0 <= i < |proxies| && handles[i] == handle != NO_PROXY
                && Endpoint(proxies[i]) == endpoint && AskedOf(fold, resolve, rs, proxies[i].id, name)
  }

  /** The config keeps its meaning from one program to the other: for every outcome of the
      registrations the service is told exactly what the route table asks for, up to case, of the
      proxies that could be registered, each with the handle of its own registration. */
  lemma MeaningPreserved(fold: Fold, resolve: Resolver, proxies: seq<Proxy>, rs: seq<Route>, handles: seq<ProxyHandle>,
                         name: string, endpoint: string, handle: ProxyHandle)
    requires DistinctIds(proxies) && |handles| == |proxies|
    ensures var config := Built(fold, resolve, proxies, rs).value;
            Told(fold, Associations(config.rules, handles, |proxies|), name, endpoint, handle)
            <==> Asked(fold, resolve, proxies, rs, handles, name, endpoint, handle)
  {
    var rules := Rules(fold, resolve, rs, proxies);
    AssociationsExact(fold, rules, handles, |proxies|, name, endpoint, handle);
    forall i | 0 <= i < |proxies|
      ensures rules[i].endpoint == Endpoint(proxies[i])
      ensures Holds(fold, rules[i].appNames, name) <==> AskedOf(fold, resolve, rs, proxies[i].id, name)
    {
      RuleAsked(fold, resolve, rs, proxies[i], name);
    }
  }

  /** With all proxies registered, nothing that the table asks for is left out. */
  lemma NothingLeftOut(fold: Fold, resolve: Resolver, proxies: seq<Proxy>, rs: seq<Route>, handles: seq<ProxyHandle>,
                       name: string, endpoint: string)
    requires DistinctIds(proxies) && |handles| == |proxies| && NO_PROXY !in handles
    ensures var config := Built(fold, resolve, proxies, rs).value;
            (exists handle :: Told(fold, Associations(config.rules, handles, |proxies|), name, endpoint, handle))
            <==> exists p :: p in proxies && Endpoint(p) == endpoint && AskedOf(fold, resolve, rs, p.id, name)
  {
    var told := Associations(Built(fold, resolve, proxies, rs).value.rules, handles, |proxies|);
    if handle :| Told(fold, told, name, endpoint, handle) {
      MeaningPreserved(fold, resolve, proxies, rs, handles, name, endpoint, handle);
    }
    if p :| p in proxies && Endpoint(p) == endpoint && AskedOf(fold, resolve, rs, p.id, name) {
      var i :| 0 <= i < |proxies| && proxies[i] == p;
      assert handles[i] in handles;
      MeaningPreserved(fold, resolve, proxies, rs, handles, name, endpoint, handles[i]);
    }
  }

  /** Among the first `n`, rule `i` is the last one with this endpoint that could be registered. */
  predicate LastRegistered(rules: seq<ProxyRule>, handles: seq<ProxyHandle>, n: nat, endpoint: string, i: nat)
    requires n <= |rules| == |handles|
  {
    && i < n && handles[i] != NO_PROXY && rules[i].endpoint == endpoint
    && forall j | i < j < n && rules[j].endpoint == endpoint :: handles[j] == NO_PROXY
  }

  /** An endpoint is in the proxy map exactly when a rule with it could be registered, and it stands
      for the handle of the last such rule. */
  lemma {:induction false} ProxyMapExact(rules: seq<ProxyRule>, handles: seq<ProxyHandle>, n: nat, endpoint: string)
    requires n <= |rules| == |handles|
    ensures endpoint in ProxyMap(rules, handles, n) <==>
      exists i :: 0 <= i < n && handles[i] != NO_PROXY && rules[i].endpoint == endpoint
    ensures endpoint in ProxyMap(rules, handles, n) ==>
      exists i: nat :: LastRegistered(rules, handles, n, endpoint, i)
                       && ProxyMap(rules, handles, n)[endpoint] == handles[i]
  {
    if n > 0 {
      ProxyMapExact(rules, handles, n - 1, endpoint);
      var before := ProxyMap(rules, handles, n - 1);
      if rules[n - 1].endpoint == endpoint && handles[n - 1] != NO_PROXY {
        assert LastRegistered(rules, handles, n, endpoint, n - 1);
      } else if endpoint in before {
        var i: nat :| LastRegistered(rules, handles, n - 1, endpoint, i) && before[endpoint] == handles[i];
        assert LastRegistered(rules, handles, n, endpoint, i);
      }
    }
  }

  /** An endpoint is never blank: its colon is no white space. */
  lemma EndpointNotBlank(p: Proxy)
    ensures !IsBlank(Endpoint(p))
  {
    assert Endpoint(p)[|p.host|] == ':';
    assert ':' in Endpoint(p) && !IsWhiteSpace(':');
  }

  /** What an endpoint says: the host, and after its last colon the port in decimal digits. */
  lemma EndpointReads(p: Proxy) returns (digits: string)
    ensures Endpoint(p) == p.host + ":" + digits
    ensures digits != "" && (forall c | c in digits :: IsDigit(c)) && ValueOf(digits) == p.port
  {
    digits := Decimal(p.port);
    DecimalReads(p.port);
  }

  /** Two proxies have one endpoint exactly when they have one host and one port. */
  lemma EndpointExact(p: Proxy, q: Proxy)
    ensures Endpoint(p) == Endpoint(q) <==> p.host == q.host && p.port == q.port
  {
    DecimalReads(p.port);
    DecimalReads(q.port);
    DecimalInjective(p.port, q.port);
    JoinedEqual(':', p.host, Decimal(p.port), q.host, Decimal(q.port));
    NotMadeUp(p.host, Decimal(p.port), q.host, Decimal(q.port));
    NotMadeUp(q.host, Decimal(q.port), p.host, Decimal(p.port));
  }

  lemma NotMadeUp(p: string, x: string, q: string, y: string)
    requires forall c | c in x :: IsDigit(c)
    ensures !MakesUp(':', p, x, q, y)
  {
    assert !IsDigit(':') && ':' !in x;
    assert MakesUp(':', p, x, q, y) ==> ':' in x;
  }

  /** Proxy `i` is at this host and port and could be registered. */
  predicate Registered(proxies: seq<Proxy>, handles: seq<ProxyHandle>, host: string, port: nat, i: nat)
    requires |handles| == |proxies|
  {
    i < |proxies| && handles[i] != NO_PROXY && proxies[i].host == host && proxies[i].port == port
  }

  /** The handle is one that a proxy at this host and port was registered with. */
  ghost predicate HandleFor(proxies: seq<Proxy>, handles: seq<ProxyHandle>, host: string, port: nat,
                            handle: ProxyHandle)
    requires |handles| == |proxies|
  {
    exists i: nat :: Registered(proxies, handles, host, port, i) && handles[i] == handle
  }

  lemma EndpointMapped(fold: Fold, resolve: Resolver, proxies: seq<Proxy>, rs: seq<Route>, handles: seq<ProxyHandle>,
                       p: Proxy)
    requires |handles| == |proxies|
    ensures var known := ProxyMap(Rules(fold, resolve, rs, proxies), handles, |proxies|);
            && (Endpoint(p) in known <==> exists i: nat :: Registered(proxies, handles, p.host, p.port, i))
            && (Endpoint(p) in known ==> HandleFor(proxies, handles, p.host, p.port, known[Endpoint(p)]))
  {
    var rules := Rules(fold, resolve, rs, proxies);
    var known := ProxyMap(rules, handles, |proxies|);
    ProxyMapExact(rules, handles, |proxies|, Endpoint(p));
    forall i | 0 <= i < |proxies|
      ensures rules[i].endpoint == Endpoint(p) <==> proxies[i].host == p.host && proxies[i].port == p.port
    {
      EndpointExact(proxies[i], p);
    }
    if Endpoint(p) in known {
      var i: nat :| LastRegistered(rules, handles, |proxies|, Endpoint(p), i) && known[Endpoint(p)] == handles[i];
      assert Registered(proxies, handles, p.host, p.port, i);
    }
    if i: nat :| Registered(proxies, handles, p.host, p.port, i) {
      assert rules[i].endpoint == Endpoint(p);
    }
  }

  /** Across all three programs: a session created for a configured proxy is accepted by the service
      that was started from the built config, exactly when some proxy at that host and port could be
      registered, and gets the handle that such a proxy was registered with. */
  lemma SessionFindsHandle(fold: Fold, resolve: Resolver, proxies: seq<Proxy>, rs: seq<Route>,
                           handles: seq<ProxyHandle>, k: nat, id: string)
    requires DistinctIds(proxies) && |handles| == |proxies| && k < |proxies| && !IsBlank(id)
    ensures var p := proxies[k];
            var rules := Built(fold, resolve, proxies, rs).value.rules;
            var (registry, reply) := Create(Started(ProxyMap(rules, handles, |proxies|)), id, Endpoint(p));
            && (reply.Accepted? <==> exists i: nat :: Registered(proxies, handles, p.host, p.port, i))
            && (reply.Accepted? ==>
                  id in registry.sessions && HandleFor(proxies, handles, p.host, p.port, registry.sessions[id].proxy))
  {
    EndpointNotBlank(proxies[k]);
    EndpointMapped(fold, resolve, proxies, rs, handles, proxies[k]);
  }
}
