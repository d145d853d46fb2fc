/** The session route server: a registry of client sessions that keeps the router's PID table in
    step. Every request runs under one lock, so that requests are atomic steps. */
module SessionRegistry {
  import opened Text

  type Pid = p: int | 0 <= p < 0x1_0000_0000

  /** A proxy handle of the router. */
  type ProxyHandle = int

  datatype PidRoute = PidRoute(proxy: ProxyHandle, createdAt: int)

  type Router = map<Pid, PidRoute>

  datatype SessionState = SessionState(endpoint: string, proxy: ProxyHandle, pids: set<Pid>)

  /** Sessions by id, the router's PID table, and the endpoints registered at startup. */
  datatype Registry = Registry(sessions: map<string, SessionState>, router: Router, proxies: map<string, ProxyHandle>)

  /** `associates` is the router's own answer to an association, which may fail. */
  datatype Request =
    | CreateSession(id: string, endpoint: string)
    | AddPid(id: string, pid: Pid, createdAt: int, associates: bool)
    | RemovePid(id: string, pid: Pid)
    | CloseSession(id: string)

  datatype Reason = MissingSessionId | MissingEndpoint | EndpointNotFound | SessionNotFound | RouterRefused

  datatype Reply = Accepted | Rejected(reason: Reason)

  // ----- one request, as a function of the registry -----

  function Started(proxies: map<string, ProxyHandle>): Registry {
    Registry(map[], map[], proxies)
  }

  function Create(r: Registry, id: string, endpoint: string): (Registry, Reply) {
    if IsBlank(id) then (r, Rejected(MissingSessionId))
    else if IsBlank(endpoint) then (r, Rejected(MissingEndpoint))
    else if endpoint !in r.proxies then (r, Rejected(EndpointNotFound))
    else (r.(sessions := r.sessions[id := SessionState(endpoint, r.proxies[endpoint], {})]), Accepted)
  }

  function Add(r: Registry, id: string, pid: Pid, createdAt: int, associates: bool): (Registry, Reply) {
    if IsBlank(id) then (r, Rejected(MissingSessionId))
    else if id !in r.sessions then (r, Rejected(SessionNotFound))
    else if !associates then (r, Rejected(RouterRefused))
    else
      var state := r.sessions[id];
      (r.(sessions := r.sessions[id := state.(pids := state.pids + {pid})],
          router := r.router[pid := PidRoute(state.proxy, createdAt)]), Accepted)
  }

  function Remove(r: Registry, id: string, pid: Pid): (Registry, Reply) {
    if IsBlank(id) then (r, Rejected(MissingSessionId))
    else if id !in r.sessions then (r, Rejected(SessionNotFound))
    else
      var state := r.sessions[id];
      (r.(sessions := r.sessions[id := state.(pids := state.pids - {pid})], router := r.router - {pid}), Accepted)
  }

  function Close(r: Registry, id: string): (Registry, Reply) {
    if IsBlank(id) then (r, Rejected(MissingSessionId))
    else if id !in r.sessions then (r, Rejected(SessionNotFound))
    else (r.(sessions := r.sessions - {id}, router := r.router - r.sessions[id].pids), Accepted)
  }

  function Serve(r: Registry, q: Request): (Registry, Reply) {
    match q
    case CreateSession(id, endpoint) => Create(r, id, endpoint)
    case AddPid(id, pid, createdAt, associates) => Add(r, id, pid, createdAt, associates)
    case RemovePid(id, pid) => Remove(r, id, pid)
    case CloseSession(id) => Close(r, id)
  }

  /** The registry after a run of requests. */
  function Run(r: Registry, qs: seq<Request>): Registry {
    if qs == [] then r else Serve(Run(r, qs[..|qs| - 1]), qs[|qs| - 1]).0
  }

  // ----- the classes -----

  /** The router behind the server, as far as its PID table. */
  class Socksifier {
    var pidRoutes: Router

    constructor ()
      ensures pidRoutes == map[]
    {
      pidRoutes := map[];
    }

    method AssociateProcessIdToProxy(pid: Pid, proxy: ProxyHandle, createdAt: int, associates: bool) returns (ok: bool)
      modifies this
      ensures ok == associates
      ensures pidRoutes == if ok then old(pidRoutes)[pid := PidRoute(proxy, createdAt)] else old(pidRoutes)
    {
      ok := associates;
      if ok {
        pidRoutes := pidRoutes[pid := PidRoute(proxy, createdAt)];
      }
    }

    method RemoveProcessId(pid: Pid)
      modifies this
      ensures pidRoutes == old(pidRoutes) - {pid}
    {
      pidRoutes := pidRoutes - {pid};
    }

    method ClearPidRoutes()
      modifies this
      ensures pidRoutes == map[]
    {
      pidRoutes := map[];
    }
  }

  class SessionRouteServer {
    const socksify: Socksifier
    const proxyMap: map<string, ProxyHandle>
    var sessions: map<string, SessionState>

    ghost function View(): Registry
      reads this, socksify
    {
      Registry(sessions, socksify.pidRoutes, proxyMap)
    }

    constructor (socksify: Socksifier, proxyMap: map<string, ProxyHandle>)
      ensures this.socksify == socksify && View() == Registry(map[], socksify.pidRoutes, proxyMap)
    {
      this.socksify := socksify;
      this.proxyMap := proxyMap;
      this.sessions := map[];
    }

    method DoCreateSession(id: string, endpoint: string) returns (reply: Reply)
      modifies this
      ensures (View(), reply) == Serve(old(View()), CreateSession(id, endpoint))
    {
      if IsBlank(id) {
        return Rejected(MissingSessionId);
      }
      if IsBlank(endpoint) {
        return Rejected(MissingEndpoint);
      }
      if endpoint !in proxyMap {
        return Rejected(EndpointNotFound);
      }
      sessions := sessions[id := SessionState(endpoint, proxyMap[endpoint], {})];
      return Accepted;
    }

    method DoAddPid(id: string, pid: Pid, createdAt: int, associates: bool) returns (reply: Reply)
      modifies this, socksify
      ensures (View(), reply) == Serve(old(View()), AddPid(id, pid, createdAt, associates))
    {
      if IsBlank(id) {
        return Rejected(MissingSessionId);
      }
      if id !in sessions {
        return Rejected(SessionNotFound);
      }
      var state := sessions[id];
      var ok := socksify.AssociateProcessIdToProxy(pid, state.proxy, createdAt, associates);
      if !ok {
        return Rejected(RouterRefused);
      }
      sessions := sessions[id := state.(pids := state.pids + {pid})];
      return Accepted;
    }

    method DoRemovePid(id: string, pid: Pid) returns (reply: Reply)
      modifies this, socksify
      ensures (View(), reply) == Serve(old(View()), RemovePid(id, pid))
    {
      if IsBlank(id) {
        return Rejected(MissingSessionId);
      }
      if id !in sessions {
        return Rejected(SessionNotFound);
      }
      var state := sessions[id];
      socksify.RemoveProcessId(pid);
      sessions := sessions[id := state.(pids := state.pids - {pid})];
      return Accepted;
    }

    /** The loop that takes a session's PIDs out of the router one by one. */
    method RemoveAll(pids: set<Pid>)
      modifies socksify
      ensures socksify.pidRoutes == old(socksify.pidRoutes) - pids
    {
      var left := pids;
      while left != {}
        invariant left <= pids
        invariant socksify.pidRoutes == old(socksify.pidRoutes) - (pids - left)
        decreases left
      {
        var pid :| pid in left;
        socksify.RemoveProcessId(pid);
        left := left - {pid};
      }
    }

    method DoCloseSession(id: string) returns (reply: Reply)
      modifies this, socksify
      ensures (View(), reply) == Serve(old(View()), CloseSession(id))
    {
      if IsBlank(id) {
        return Rejected(MissingSessionId);
      }
      if id !in sessions {
        return Rejected(SessionNotFound);
      }
      RemoveAll(sessions[id].pids);
      sessions := sessions - {id};
      return Accepted;
    }

    /** The cleanup at shutdown: all sessions' PIDs, then the whole table. */
    method Dispose()
      modifies this, socksify
      ensures View() == Started(proxyMap)
    {
      var ids := sessions.Keys;
      while ids != {}
        invariant ids <= sessions.Keys
        decreases ids
      {
        var id :| id in ids;
        RemoveAll(sessions[id].pids);
        ids := ids - {id};
      }
      sessions := map[];
      socksify.ClearPidRoutes();
    }
  }

  // ----- routes and their owners -----

  ghost predicate Owned(r: Registry, pid: Pid) {
    exists id :: id in r.sessions && pid in r.sessions[id].pids
  }

  ghost predicate OwnedByOther(r: Registry, pid: Pid, id: string) {
    exists other :: other in r.sessions && other != id && pid in r.sessions[other].pids
  }

  /** The routed PIDs that no open session lists. */
  ghost function Orphans(r: Registry): set<Pid> {
    set pid | pid in r.router && !Owned(r, pid)
  }

  /** Every route belongs to an open session of that very proxy, and every session's proxy is
      one of the registered ones. */
  ghost predicate Settled(r: Registry) {
    && (forall pid | pid in r.router :: OwnedWith(r, pid, r.router[pid].proxy))
    && (forall id | id in r.sessions :: r.sessions[id].proxy in r.proxies.Values)
  }

  ghost predicate OwnedWith(r: Registry, pid: Pid, proxy: ProxyHandle) {
    exists id :: id in r.sessions && pid in r.sessions[id].pids && r.sessions[id].proxy == proxy
  }

  /** A create that replaces an open session. */
  predicate Replaces(r: Registry, q: Request) {
    q.CreateSession? && q.id in r.sessions && Serve(r, q).1.Accepted?
  }

  lemma SettledStep(r: Registry, q: Request)
    requires Settled(r) && !Replaces(r, q)
    ensures Settled(Serve(r, q).0)
  {
    var s := Serve(r, q).0;
    forall pid | pid in s.router
      ensures OwnedWith(s, pid, s.router[pid].proxy)
    {
      if q.AddPid? && pid == q.pid && Serve(r, q).1.Accepted? {
        assert s.router[pid].proxy == s.sessions[q.id].proxy;
      } else {
        assert pid in r.router && s.router[pid] == r.router[pid];
        var id :| id in r.sessions && pid in r.sessions[id].pids && r.sessions[id].proxy == r.router[pid].proxy;
        assert id in s.sessions && pid in s.sessions[id].pids && s.sessions[id].proxy == r.router[pid].proxy;
      }
    }
  }

  /** No request of the run replaces an open session. */
  predicate NeverReplaces(r: Registry, qs: seq<Request>) {
    qs == [] || (NeverReplaces(r, qs[..|qs| - 1]) && !Replaces(Run(r, qs[..|qs| - 1]), qs[|qs| - 1]))
  }

  lemma {:induction false} SettledRun(r: Registry, qs: seq<Request>)
    requires Settled(r) && NeverReplaces(r, qs)
    ensures Settled(Run(r, qs)) && Run(r, qs).proxies == r.proxies
  {
    if qs != [] {
      SettledRun(r, qs[..|qs| - 1]);
      SettledStep(Run(r, qs[..|qs| - 1]), qs[|qs| - 1]);
    }
  }

  /** No orphaned routes: over every run from startup in which no create replaces an open session,
      whatever PIDs sessions share or remove for each other, each routed PID is listed by an open
      session with the proxy it is routed to, and that proxy is registered; without open sessions
      the router is empty. */
  lemma NoOrphanedRoutes(proxies: map<string, ProxyHandle>, qs: seq<Request>)
    requires NeverReplaces(Started(proxies), qs)
    ensures var r := Run(Started(proxies), qs);
            && Settled(r) && Orphans(r) == {}
            && (r.sessions == map[] ==> r.router == map[])
            && (forall pid | pid in r.router :: r.router[pid].proxy in proxies.Values)
  {
    SettledRun(Started(proxies), qs);
    SettledHasNoOrphans(Run(Started(proxies), qs));
  }

  lemma SettledHasNoOrphans(r: Registry)
    requires Settled(r)
    ensures Orphans(r) == {}
    ensures r.sessions == map[] ==> r.router == map[]
    ensures forall pid | pid in r.router :: r.router[pid].proxy in r.proxies.Values
  {
    forall pid | pid in r.router
      ensures Owned(r, pid) && r.router[pid].proxy in r.proxies.Values && r.sessions != map[]
    {
      assert OwnedWith(r, pid, r.router[pid].proxy);
    }
    if r.sessions == map[] {
      assert r.router.Keys == {};
    }
  }

  /** What each accepted request does to the orphans, in any registry: only a replacing create
      makes any, and it makes exactly the replaced session's routed PIDs that no other session
      lists. */
  ghost function OrphansAfter(r: Registry, q: Request): set<Pid> {
    if !Serve(r, q).1.Accepted? then Orphans(r)
    else match q
      case CreateSession(id, _) =>
        if id !in r.sessions then Orphans(r)
        else Orphans(r) + set pid | pid in r.sessions[id].pids && pid in r.router && !OwnedByOther(r, pid, id)
      case AddPid(_, pid, _, _) => Orphans(r) - {pid}
      case RemovePid(_, pid) => Orphans(r) - {pid}
      case CloseSession(id) => Orphans(r) - r.sessions[id].pids
  }

  lemma OrphansExact(r: Registry, q: Request)
    ensures Orphans(Serve(r, q).0) == OrphansAfter(r, q)
  {
    var s := Serve(r, q).0;
    forall pid
      ensures pid in Orphans(s) <==> pid in OrphansAfter(r, q)
    {
      if Serve(r, q).1.Accepted? {
        OwnedExact(r, q, pid);
      }
    }
  }

  /** How a request changes whether a PID is listed by some session. */
  lemma OwnedExact(r: Registry, q: Request, pid: Pid)
    requires Serve(r, q).1.Accepted?
    ensures q.CreateSession? ==> (Owned(Serve(r, q).0, pid) <==> OwnedByOther(r, pid, q.id))
    ensures q.AddPid? ==> (Owned(Serve(r, q).0, pid) <==> pid == q.pid || Owned(r, pid))
    ensures q.RemovePid? && pid != q.pid ==> (Owned(Serve(r, q).0, pid) <==> Owned(r, pid))
    ensures q.CloseSession? ==> (Owned(Serve(r, q).0, pid) <==> OwnedByOther(r, pid, q.id))
  {
    var s := Serve(r, q).0;
    if Owned(s, pid) {
      var id :| id in s.sessions && pid in s.sessions[id].pids;
      assert id in r.sessions || q.CreateSession?;
    }
    if Owned(r, pid) {
      var id :| id in r.sessions && pid in r.sessions[id].pids;
      if q.AddPid? || (q.RemovePid? && pid != q.pid) {
        assert id in s.sessions && pid in s.sessions[id].pids;
      }
    }
    if OwnedByOther(r, pid, q.id) {
      var id :| id in r.sessions && id != q.id && pid in r.sessions[id].pids;
      if q.CreateSession? || q.CloseSession? {
        assert id in s.sessions && pid in s.sessions[id].pids;
      }
    }
    if q.AddPid? {
      assert q.id in s.sessions && q.pid in s.sessions[q.id].pids;
    }
  }

  /** Every orphan goes back to a replacing create of the run that lost it. */
  lemma {:induction false} OrphanOrigin(r: Registry, qs: seq<Request>, pid: Pid) returns (k: nat)
    requires Orphans(r) == {} && pid in Orphans(Run(r, qs))
    ensures k < |qs| && Replaces(Run(r, qs[..k]), qs[k])
    ensures pid in Run(r, qs[..k]).sessions[qs[k].id].pids
    ensures !OwnedByOther(Run(r, qs[..k]), pid, qs[k].id)
  {
    var n := |qs| - 1;
    var before := Run(r, qs[..n]);
    OrphansExact(before, qs[n]);
    if pid in Orphans(before) {
      k := OrphanOrigin(r, qs[..n], pid);
      assert qs[..n][..k] == qs[..k];
    } else {
      k := n;
    }
  }

  // ----- what is answered, and what becomes of sessions -----

  /** When each answer is given: no two of them for one request, and blank ids come first. */
  lemma RepliesExact(r: Registry, q: Request)
    ensures var reply := Serve(r, q).1;
            && (reply == Rejected(MissingSessionId) <==> IsBlank(q.id))
            && (reply == Rejected(MissingEndpoint) <==> !IsBlank(q.id) && q.CreateSession? && IsBlank(q.endpoint))
            && (reply == Rejected(EndpointNotFound) <==>
                  !IsBlank(q.id) && q.CreateSession? && !IsBlank(q.endpoint) && q.endpoint !in r.proxies)
            && (reply == Rejected(SessionNotFound) <==>
                  !IsBlank(q.id) && !q.CreateSession? && q.id !in r.sessions)
            && (reply == Rejected(RouterRefused) <==>
                  !IsBlank(q.id) && q.AddPid? && q.id in r.sessions && !q.associates)
            && (reply.Rejected? ==> Serve(r, q).0 == r)
  {
  }

  /** What an accepted request makes of the sessions: a create opens a session of that endpoint's proxy
      with no PIDs, an add and a removal change its PIDs by one, a close ends it; other sessions and
      the registered proxies are not touched. */
  lemma SessionsAfter(r: Registry, q: Request)
    requires Serve(r, q).1.Accepted?
    ensures var s := Serve(r, q).0;
            && s.proxies == r.proxies
            && (forall id | id != q.id :: id in s.sessions <==> id in r.sessions)
            && (forall id | id != q.id && id in r.sessions :: s.sessions[id] == r.sessions[id])
            && (q.id in s.sessions <==> !q.CloseSession?)
            && (q.CreateSession? ==> s.sessions[q.id] == SessionState(q.endpoint, r.proxies[q.endpoint], {}))
            && (q.AddPid? || q.RemovePid? ==>
                  && q.id in r.sessions && s.sessions[q.id].endpoint == r.sessions[q.id].endpoint
                  && s.sessions[q.id].proxy == r.sessions[q.id].proxy
                  && s.sessions[q.id].pids == if q.AddPid? then r.sessions[q.id].pids + {q.pid}
                                              else r.sessions[q.id].pids - {q.pid})
  {
  }

  // ----- what a route says -----

  /** An accepted add of the PID. */
  predicate Takes(r: Registry, q: Request, pid: Pid) {
    q.AddPid? && q.pid == pid && Serve(r, q).1.Accepted?
  }

  /** An accepted removal of the PID, through any session, or a close of a session that lists it. */
  predicate Drops(r: Registry, q: Request, pid: Pid) {
    && Serve(r, q).1.Accepted?
    && ((q.RemovePid? && q.pid == pid) || (q.CloseSession? && q.id in r.sessions && pid in r.sessions[q.id].pids))
  }

  /** What one request does to the route of one PID: an add leaves the session's proxy and the given
      creation time, a removal leaves nothing, and everything else leaves the route as it was. */
  lemma RouteStep(r: Registry, q: Request, pid: Pid)
    ensures var s := Serve(r, q).0;
            && (Takes(r, q, pid) ==>
                  q.id in r.sessions && pid in s.router
                  && s.router[pid] == PidRoute(r.sessions[q.id].proxy, q.createdAt))
            && (Drops(r, q, pid) ==> pid !in s.router)
            && (!Takes(r, q, pid) && !Drops(r, q, pid) ==>
                  (pid in s.router <==> pid in r.router) && (pid in r.router ==> s.router[pid] == r.router[pid]))
  {
  }

  /** After its first `k` requests the run neither takes nor drops the PID. */
  predicate SparedSince(r: Registry, qs: seq<Request>, pid: Pid, k: nat) {
    |qs| <= k
    || (var init, last := qs[..|qs| - 1], qs[|qs| - 1];
        SparedSince(r, init, pid, k) && !Takes(Run(r, init), last, pid) && !Drops(Run(r, init), last, pid))
  }

  /** The `k`-th request of the run took the PID, and it has been left alone since. */
  predicate LastTaken(r: Registry, qs: seq<Request>, pid: Pid, k: nat) {
    k < |qs| && Takes(Run(r, qs[..k]), qs[k], pid) && SparedSince(r, qs, pid, k + 1)
  }

  /** Over every run from startup a routed PID has been taken and left alone since. */
  lemma {:induction false} RouteTaken(proxies: map<string, ProxyHandle>, qs: seq<Request>, pid: Pid) returns (k: nat)
    requires pid in Run(Started(proxies), qs).router
    ensures LastTaken(Started(proxies), qs, pid, k)
  {
    var r, n := Started(proxies), |qs| - 1;
    RouteStep(Run(r, qs[..n]), qs[n], pid);
    if Takes(Run(r, qs[..n]), qs[n], pid) {
      k := n;
    } else {
      k := RouteTaken(proxies, qs[..n], pid);
      assert qs[..n][..k] == qs[..k];
    }
  }

  /** And conversely: a PID that has been taken and left alone since is routed, and its route carries
      the proxy that the session then had and the creation time of that very add. */
  lemma {:induction false} TakenRouted(r: Registry, qs: seq<Request>, pid: Pid, k: nat)
    requires LastTaken(r, qs, pid, k)
    ensures var before, after := Run(r, qs[..k]), Run(r, qs);
            && qs[k].id in before.sessions && pid in after.router
            && after.router[pid] == PidRoute(before.sessions[qs[k].id].proxy, qs[k].createdAt)
  {
    var n := |qs| - 1;
    RouteStep(Run(r, qs[..n]), qs[n], pid);
    if k < n {
      assert qs[..n][..k] == qs[..k];
      TakenRouted(r, qs[..n], pid, k);
    }
  }
}
