/** The table of routes: who may add to it, who owns what is in it, and how it is imported. */
module RouteTable {
  import opened Wrappers
  import opened AppIdentity

  /** What the model does not look into: case folding, file names, and package detection. */
  datatype Environment = Environment(
    fold: string -> string, fileName: string -> string, packageOf: string -> Option<(string, string)>)

  /** One call of the executable form of `EnsureRoute`; `newId` is the id a new route would get. */
  datatype Ensure = Ensure(
    exePath: string, proxyId: string, isPersistent: bool, sessionId: Option<string>, ipcManaged: bool, newId: string)

  // ----- the operations, as functions of the table -----

  predicate Matches(env: Environment, r: Route, exePath: string, proxyId: string) {
    env.fold(r.exePath) == env.fold(exePath) && r.proxyId == proxyId
  }

  /** The first route for this path and proxy, or the length of the list. */
  function FirstMatch(env: Environment, rs: seq<Route>, exePath: string, proxyId: string): (at: nat)
    ensures at <= |rs|
    ensures forall i | 0 <= i < at :: !Matches(env, rs[i], exePath, proxyId)
    ensures at < |rs| ==> Matches(env, rs[at], exePath, proxyId)
  {
    if rs == [] || Matches(env, rs[0], exePath, proxyId) then 0 else 1 + FirstMatch(env, rs[1..], exePath, proxyId)
  }

  /** An existing route is enabled; it can become persistent but not the reverse, and a session-only
      call leaves its session's name on it. */
  function Refreshed(r: Route, e: Ensure): Route {
    var promoted := if e.isPersistent && !r.isPersistent then r.(isPersistent := true, sessionId := None) else r;
    promoted.(enabled := true,
              sessionId := if e.isPersistent then promoted.sessionId else e.sessionId,
              ipcManaged := e.ipcManaged)
  }

  function NewRoute(env: Environment, e: Ensure): Route {
    var package := env.packageOf(e.exePath);
    Route(e.newId, e.exePath, env.fileName(e.exePath), e.proxyId, true, e.isPersistent, e.ipcManaged,
          if e.isPersistent then None else e.sessionId,
          if package.Some? then MSIX_PACKAGE else PATH,
          if package.Some? then package.value.0 else "", if package.Some? then package.value.1 else "", "")
  }

  function Ensured(env: Environment, rs: seq<Route>, e: Ensure): seq<Route> {
    if e.exePath == "" || e.proxyId == "" then rs
    else
      var at := FirstMatch(env, rs, e.exePath, e.proxyId);
      if at < |rs| then rs[at := Refreshed(rs[at], e)] else rs + [NewRoute(env, e)]
  }

  function RemovedByExe(env: Environment, rs: seq<Route>, exePath: string, proxyId: string): seq<Route> {
    var at := FirstMatch(env, rs, exePath, proxyId);
    if at < |rs| then rs[..at] + rs[at + 1..] else rs
  }

  /** A session-only route of this session. */
  predicate TemporaryFor(r: Route, sessionId: string) {
    !r.isPersistent && r.sessionId == Some(sessionId)
  }

  /** The first `n` routes without the session's temporary ones. */
  function WithoutTemporary(rs: seq<Route>, sessionId: string, n: nat): seq<Route>
    requires n <= |rs|
  {
    if n == 0 then []
    else WithoutTemporary(rs, sessionId, n - 1) + if TemporaryFor(rs[n - 1], sessionId) then [] else [rs[n - 1]]
  }

  function CleanedUp(rs: seq<Route>, sessionId: string): seq<Route> {
    if sessionId == "" then rs else WithoutTemporary(rs, sessionId, |rs|)
  }

  /** Some route of the same proxy has the same key. */
  predicate Covered(rs: seq<Route>, r: Route) {
    exists i :: 0 <= i < |rs| && rs[i].proxyId == r.proxyId && StableRouteKey(rs[i]) == StableRouteKey(r)
  }

  predicate Importable(r: Route) {
    r.enabled && r.isPersistent && r.proxyId != ""
  }

  function Imported(rs: seq<Route>, file: seq<Route>): seq<Route> {
    if file == [] then rs
    else
      var before := Imported(rs, file[..|file| - 1]);
      var r := file[|file| - 1];
      if Importable(r) && !Covered(before, r) then before + [r] else before
  }

  /** The routes a built config carries for the next import. */
  function PersistentOf(rs: seq<Route>): seq<Route> {
    if rs == [] then []
    else
      var last := rs[|rs| - 1];
      PersistentOf(rs[..|rs| - 1]) + if last.isPersistent && last.enabled then [last] else []
  }

  // ----- the classes -----

  /** A route object, whose fields change in place. */
  class AppRoute {
    const id: string
    const exePath: string
    const processName: string
    const proxyId: string
    const matchKind: string
    const packageFamilyName: string
    const packageRelativeExePath: string
    const appUserModelId: string
    var enabled: bool
    var isPersistent: bool
    var ipcManaged: bool
    var sessionId: Option<string>

    function View(): Route
      reads this
    {
      Route(id, exePath, processName, proxyId, enabled, isPersistent, ipcManaged, sessionId,
            matchKind, packageFamilyName, packageRelativeExePath, appUserModelId)
    }

    constructor (r: Route)
      ensures View() == r
    {
      id, exePath, processName, proxyId := r.id, r.exePath, r.processName, r.proxyId;
      matchKind, appUserModelId := r.matchKind, r.appUserModelId;
      packageFamilyName, packageRelativeExePath := r.packageFamilyName, r.packageRelativeExePath;
      enabled, isPersistent, ipcManaged, sessionId := r.enabled, r.isPersistent, r.ipcManaged, r.sessionId;
    }

    /** The branch of `EnsureRoute` for a route that exists. */
    method Refresh(e: Ensure) returns (changed: bool)
      modifies this
      ensures View() == Refreshed(old(View()), e)
      ensures changed <==> View() != old(View())
    {
      changed := false;
      if !enabled {
        enabled, changed := true, true;
      }
      if e.isPersistent && !isPersistent {
        isPersistent, sessionId, changed := true, None, true;
      }
      if !e.isPersistent && sessionId != e.sessionId {
        sessionId, changed := e.sessionId, true;
      }
      if ipcManaged != e.ipcManaged {
        ipcManaged, changed := e.ipcManaged, true;
      }
    }
  }

  class ProxiFyreBackend {
    const env: Environment
    var appRoutes: seq<AppRoute>

    /** No object is in the list twice. */
    ghost predicate Valid()
      reads this
    {
      NoDuplicates(appRoutes)
    }

    static ghost predicate NoDuplicates(rs: seq<AppRoute>) {
      forall i, j | 0 <= i < j < |rs| :: rs[i] != rs[j]
    }

    static lemma RemovalKeepsDistinct(rs: seq<AppRoute>, at: nat)
      requires NoDuplicates(rs) && at < |rs|
      ensures NoDuplicates(rs[..at] + rs[at + 1..])
    {
      var left := rs[..at] + rs[at + 1..];
      forall i, j | 0 <= i < j < |left|
        ensures left[i] != left[j]
      {
        assert left[i] == rs[if i < at then i else i + 1] && left[j] == rs[if j < at then j else j + 1];
      }
    }

    ghost function View(): seq<Route>
      reads this, appRoutes
    {
      seq(|appRoutes|, i requires 0 <= i < |appRoutes| reads this, appRoutes => appRoutes[i].View())
    }

    constructor (env: Environment)
      ensures Valid() && View() == [] && this.env == env
    {
      this.env := env;
      appRoutes := [];
    }

    method FindRoute(exePath: string, proxyId: string) returns (at: nat)
      ensures at == FirstMatch(env, View(), exePath, proxyId)
    {
      at := 0;
      while at < |appRoutes|
        invariant 0 <= at <= |appRoutes|
        invariant FirstMatch(env, View(), exePath, proxyId) == at + FirstMatch(env, View()[at..], exePath, proxyId)
      {
        assert View()[at..][0] == View()[at] && View()[at..][1..] == View()[at + 1..];
        if Matches(env, appRoutes[at].View(), exePath, proxyId) {
          return;
        }
        at := at + 1;
      }
    }

    method EnsureRoute(e: Ensure) returns (changed: bool)
      requires Valid()
      modifies this, appRoutes
      ensures Valid() && View() == Ensured(env, old(View()), e)
      ensures changed <==> View() != old(View())
    {
      if e.exePath == "" || e.proxyId == "" {
        return false;
      }
      var at := FindRoute(e.exePath, e.proxyId);
      if at < |appRoutes| {
        changed := appRoutes[at].Refresh(e);
        assert forall i | 0 <= i < |appRoutes| && i != at :: appRoutes[i] != appRoutes[at];
        assert View() == old(View())[at := appRoutes[at].View()];
        assert View()[at] == appRoutes[at].View() && old(View())[at] == old(appRoutes[at].View());
      } else {
        var route := new AppRoute(NewRoute(env, e));
        appRoutes := appRoutes + [route];
        changed := true;
        assert |View()| == |old(View())| + 1;
        assert View() == old(View()) + [NewRoute(env, e)];
      }
    }

    method RemoveRouteByExe(exePath: string, proxyId: string) returns (removed: bool)
      requires Valid()
      modifies this
      ensures Valid() && View() == RemovedByExe(env, old(View()), exePath, proxyId)
      ensures removed <==> |View()| < |old(View())|
    {
      var at := FindRoute(exePath, proxyId);
      removed := at < |appRoutes|;
      if removed {
        RemovalKeepsDistinct(appRoutes, at);
        ghost var before := View();
        appRoutes := appRoutes[..at] + appRoutes[at + 1..];
        assert View() == before[..at] + before[at + 1..];
      }
    }

    /** `view` is what the objects say. */
    static ghost predicate Shows(rs: seq<AppRoute>, view: seq<Route>)
      reads rs
    {
      |view| == |rs| && forall k | 0 <= k < |rs| :: rs[k].View() == view[k]
    }

    /** The objects that a session's end keeps. */
    static function Kept(rs: seq<AppRoute>, sessionId: string, n: nat): seq<AppRoute>
      requires n <= |rs|
      reads rs
    {
      if n == 0 then []
      else Kept(rs, sessionId, n - 1) + if TemporaryFor(rs[n - 1].View(), sessionId) then [] else [rs[n - 1]]
    }

    static lemma {:induction false} KeptDistinct(rs: seq<AppRoute>, sessionId: string, n: nat)
      requires NoDuplicates(rs) && n <= |rs|
      ensures NoDuplicates(Kept(rs, sessionId, n)) && |Kept(rs, sessionId, n)| <= n
      ensures forall r | r in Kept(rs, sessionId, n) :: r in rs[..n]
    {
      if n > 0 {
        KeptDistinct(rs, sessionId, n - 1);
        assert rs[..n] == rs[..n - 1] + [rs[n - 1]];
        assert rs[n - 1] !in rs[..n - 1];
      }
    }

    static lemma {:induction false} KeptShows(rs: seq<AppRoute>, view: seq<Route>, sessionId: string, n: nat)
      requires Shows(rs, view) && n <= |rs|
      ensures Shows(Kept(rs, sessionId, n), WithoutTemporary(view, sessionId, n))
    {
      if n > 0 {
        KeptShows(rs, view, sessionId, n - 1);
        assert rs[n - 1].View() == view[n - 1];
      }
    }

    method RemoveTmpRoutesForSession(sessionId: string) returns (removed: bool)
      requires Valid()
      modifies this
      ensures Valid() && View() == CleanedUp(old(View()), sessionId)
      ensures removed <==> |View()| < |old(View())|
    {
      if sessionId == "" {
        return false;
      }
      var kept := [];
      var i := 0;
      while i < |appRoutes|
        invariant 0 <= i <= |appRoutes|
        invariant kept == Kept(appRoutes, sessionId, i)
      {
        if !TemporaryFor(appRoutes[i].View(), sessionId) {
          kept := kept + [appRoutes[i]];
        }
        i := i + 1;
      }
      KeptDistinct(appRoutes, sessionId, i);
      KeptShows(appRoutes, View(), sessionId, i);
      ghost var cleaned := CleanedUp(View(), sessionId);
      removed := |kept| < |appRoutes|;
      appRoutes := kept;
      assert View() == cleaned;
    }

    method IsCovered(r: Route) returns (covered: bool)
      ensures covered <==> Covered(View(), r)
    {
      var i := 0;
      while i < |appRoutes|
        invariant 0 <= i <= |appRoutes|
        invariant forall j | 0 <= j < i ::
          !(View()[j].proxyId == r.proxyId && StableRouteKey(View()[j]) == StableRouteKey(r))
      {
        if appRoutes[i].proxyId == r.proxyId && StableRouteKey(appRoutes[i].View()) == StableRouteKey(r) {
          assert View()[i] == appRoutes[i].View();
          return true;
        }
        i := i + 1;
      }
      return false;
    }

    /** `file` holds the routes of an existing config file, if it could be read. */
    method ImportPersistentRoutesFromAppConfig(file: Option<seq<Route>>) returns (imported: nat)
      requires Valid()
      modifies this
      ensures Valid() && View() == if file.Some? then Imported(old(View()), file.value) else old(View())
      ensures |View()| == |old(View())| + imported
    {
      imported := 0;
      if file.None? {
        return;
      }
      var i := 0;
      while i < |file.value|
        invariant 0 <= i <= |file.value|
        invariant Valid()
        invariant forall k | 0 <= k < |appRoutes| :: appRoutes[k] in old(appRoutes) || fresh(appRoutes[k])
        invariant forall k | 0 <= k < |appRoutes| :: allocated(appRoutes[k])
        invariant View() == Imported(old(View()), file.value[..i])
        invariant |View()| == |old(View())| + imported
      {
        var r := file.value[i];
        assert file.value[..i + 1][..i] == file.value[..i];
        var covered := IsCovered(r);
        if r.enabled && r.isPersistent && r.proxyId != "" && !covered {
          ghost var before := View();
          var route := new AppRoute(r);
          appRoutes := appRoutes + [route];
          assert View() == before + [r];
          imported := imported + 1;
        }
        i := i + 1;
      }
      assert file.value[..|file.value|] == file.value;
    }
  }

  // ----- ownership over runs -----

  /** The other calls that runs are made of. */
  datatype Call = Ensuring(e: Ensure) | Removing(exePath: string, proxyId: string) | Ending(sessionId: string)

  function Done(env: Environment, rs: seq<Route>, c: Call): seq<Route> {
    match c
    case Ensuring(e) => Ensured(env, rs, e)
    case Removing(exePath, proxyId) => RemovedByExe(env, rs, exePath, proxyId)
    case Ending(sessionId) => CleanedUp(rs, sessionId)
  }

  function Run(env: Environment, rs: seq<Route>, cs: seq<Call>): seq<Route> {
    if cs == [] then rs else Done(env, Run(env, rs, cs[..|cs| - 1]), cs[|cs| - 1])
  }

  predicate SameTarget(env: Environment, r: Route, s: Route) {
    env.fold(r.exePath) == env.fold(s.exePath) && r.proxyId == s.proxyId
  }

  /** At most one route per folded path and proxy. */
  predicate Unique(env: Environment, rs: seq<Route>) {
    forall i, j | 0 <= i < j < |rs| :: !SameTarget(env, rs[i], rs[j])
  }

  lemma EnsuredUnique(env: Environment, rs: seq<Route>, e: Ensure)
    requires Unique(env, rs)
    ensures Unique(env, Ensured(env, rs, e))
  {
  }

  /** The positions among the first `n` that hold no temporary route of the session. */
  function KeptPositions(rs: seq<Route>, sessionId: string, n: nat): seq<nat>
    requires n <= |rs|
  {
    if n == 0 then []
    else KeptPositions(rs, sessionId, n - 1) + if TemporaryFor(rs[n - 1], sessionId) then [] else [n - 1]
  }

  lemma {:induction false} KeptPositionsExact(rs: seq<Route>, sessionId: string, n: nat)
    requires n <= |rs|
    ensures var kept := KeptPositions(rs, sessionId, n);
            && (forall j, k | 0 <= j < k < |kept| :: kept[j] < kept[k])
            && (forall j | 0 <= j < |kept| :: kept[j] < n)
            && (forall i: nat :: i in kept <==> i < n && !TemporaryFor(rs[i], sessionId))
  {
    if n > 0 {
      KeptPositionsExact(rs, sessionId, n - 1);
    }
  }

  /** What a session's end leaves is exactly the routes that are not its temporary ones, in order. */
  lemma {:induction false} CleanupExact(rs: seq<Route>, sessionId: string, n: nat)
    requires n <= |rs|
    ensures var kept := KeptPositions(rs, sessionId, n);
            && |kept| == |WithoutTemporary(rs, sessionId, n)|
            && forall k | 0 <= k < |kept| :: kept[k] < n && WithoutTemporary(rs, sessionId, n)[k] == rs[kept[k]]
  {
    if n > 0 {
      CleanupExact(rs, sessionId, n - 1);
    }
  }

  /** Persistent routes and other sessions' routes are not touched, and the session's own temporary ones
      are all gone. */
  lemma CleanupSpares(rs: seq<Route>, sessionId: string, r: Route)
    requires sessionId != ""
    ensures r in CleanedUp(rs, sessionId) <==> r in rs && (r.isPersistent || r.sessionId != Some(sessionId))
  {
    CleanupExact(rs, sessionId, |rs|);
    KeptPositionsExact(rs, sessionId, |rs|);
    if r in rs && (r.isPersistent || r.sessionId != Some(sessionId)) {
      var i :| 0 <= i < |rs| && rs[i] == r;
      var j := CleanupKeeps(rs, sessionId, i);
    }
    if r in CleanedUp(rs, sessionId) {
      var k :| 0 <= k < |CleanedUp(rs, sessionId)| && CleanedUp(rs, sessionId)[k] == r;
      var kept := KeptPositions(rs, sessionId, |rs|);
      assert kept[k] in kept;
    }
  }

  lemma CleanedUpUnique(env: Environment, rs: seq<Route>, sessionId: string)
    requires Unique(env, rs)
    ensures Unique(env, CleanedUp(rs, sessionId))
  {
    CleanupExact(rs, sessionId, |rs|);
    KeptPositionsExact(rs, sessionId, |rs|);
  }

  /** In every run of ensures, rollbacks and session ends there is at most one route per target. */
  lemma {:induction false} RunUnique(env: Environment, rs: seq<Route>, cs: seq<Call>)
    requires Unique(env, rs)
    ensures Unique(env, Run(env, rs, cs))
  {
    if cs != [] {
      var before, c := Run(env, rs, cs[..|cs| - 1]), cs[|cs| - 1];
      RunUnique(env, rs, cs[..|cs| - 1]);
      match c
      case Ensuring(e) => EnsuredUnique(env, before, e);
      case Removing(_, _) =>
      case Ending(sessionId) => CleanedUpUnique(env, before, sessionId);
    }
  }

  /** No rollback of the run is for the route's target. */
  predicate Spared(env: Environment, cs: seq<Call>, r: Route) {
    forall c | c in cs && c.Removing? :: !Matches(env, r, c.exePath, c.proxyId)
  }

  predicate OnlyEnsures(cs: seq<Call>) {
    forall c | c in cs :: c.Ensuring?
  }

  /** `after` is what has become of `before`: the same target, not demoted and not disabled. */
  predicate NotDemoted(env: Environment, before: Route, after: Route) {
    && SameTarget(env, after, before)
    && (before.isPersistent ==> after.isPersistent)
    && (before.enabled ==> after.enabled)
  }

  /** One call moves a route at most forward, and does not take a persistent one away unless it is a
      rollback of its target. */
  lemma CallKeeps(env: Environment, rs: seq<Route>, c: Call, i: nat) returns (j: nat)
    requires i < |rs| && (rs[i].isPersistent || c.Ensuring?)
    requires c.Removing? ==> !Matches(env, rs[i], c.exePath, c.proxyId)
    ensures j <= i && j < |Done(env, rs, c)| && NotDemoted(env, rs[i], Done(env, rs, c)[j])
    ensures c.Ensuring? ==> j == i
  {
    j := i;
    match c
    case Ensuring(_) =>
    case Removing(exePath, proxyId) =>
      if FirstMatch(env, rs, exePath, proxyId) < i {
        j := i - 1;
      }
    case Ending(sessionId) =>
      if sessionId != "" {
        j := CleanupKeeps(rs, sessionId, i);
      }
  }

  lemma CleanupKeeps(rs: seq<Route>, sessionId: string, i: nat) returns (j: nat)
    requires i < |rs| && !TemporaryFor(rs[i], sessionId)
    ensures j <= i && j < |WithoutTemporary(rs, sessionId, |rs|)|
    ensures WithoutTemporary(rs, sessionId, |rs|)[j] == rs[i]
  {
    KeptPositionsExact(rs, sessionId, |rs|);
    CleanupExact(rs, sessionId, |rs|);
    var kept := KeptPositions(rs, sessionId, |rs|);
    assert i in kept;
    j :| 0 <= j < |kept| && kept[j] == i;
    IncreasingAbove(kept, j);
  }

  lemma {:induction false} IncreasingAbove(s: seq<nat>, j: nat)
    requires j < |s| && forall k, l | 0 <= k < l < |s| :: s[k] < s[l]
    ensures j <= s[j]
  {
    if j > 0 {
      IncreasingAbove(s, j - 1);
    }
  }

  /** A persistent route is never demoted or disabled in a run of ensures, session ends and rollbacks
      of other targets; when the run is of ensures alone, every route keeps its place as well. */
  lemma {:induction false} NeverDemoted(env: Environment, rs: seq<Route>, cs: seq<Call>, i: nat) returns (j: nat)
    requires i < |rs| && (rs[i].isPersistent || OnlyEnsures(cs)) && Spared(env, cs, rs[i])
    ensures j <= i && j < |Run(env, rs, cs)| && NotDemoted(env, rs[i], Run(env, rs, cs)[j])
    ensures OnlyEnsures(cs) ==> j == i
  {
    if cs == [] {
      j := i;
    } else {
      var c := cs[|cs| - 1];
      assert c in cs;
      var k := NeverDemoted(env, rs, cs[..|cs| - 1], i);
      j := CallKeeps(env, Run(env, rs, cs[..|cs| - 1]), c, k);
    }
  }

  /** A call takes effect: afterwards there is an enabled route for its target, managed as it says,
      persistent if it says so or the route was before; a session-only call leaves its session's name
      on it, a promotion takes the name off. All other routes stay as they are. */
  lemma EnsureTakesEffect(env: Environment, rs: seq<Route>, e: Ensure) returns (at: nat)
    requires e.exePath != "" && e.proxyId != ""
    ensures var after := Ensured(env, rs, e);
            && at < |after| && after[at].enabled && after[at].ipcManaged == e.ipcManaged
            && env.fold(after[at].exePath) == env.fold(e.exePath) && after[at].proxyId == e.proxyId
            && (after[at].isPersistent <==> e.isPersistent || (at < |rs| && rs[at].isPersistent))
            && (!e.isPersistent ==> after[at].sessionId == e.sessionId)
            && (e.isPersistent && !(at < |rs| && rs[at].isPersistent) ==> after[at].sessionId == None)
            && |rs| <= |after| <= |rs| + 1 && forall i | 0 <= i < |rs| && i != at :: after[i] == rs[i]
  {
    at := FirstMatch(env, rs, e.exePath, e.proxyId);
  }

  /** A new route names its program: the package and the program in it if the executable belongs to
      one, and the path otherwise. */
  lemma NewRouteNames(env: Environment, e: Ensure)
    ensures var r, package := NewRoute(env, e), env.packageOf(e.exePath);
            && r.id == e.newId && r.exePath == e.exePath && r.processName == env.fileName(e.exePath)
            && (package.None? ==> r.matchKind == "path" && Identity(r) == e.exePath)
            && (package.Some? ==>
                  r.matchKind == "msix-package" && Identity(r) == package.value.0 + "/" + package.value.1)
  {
  }

  /** A repeated call finds nothing to change. */
  lemma EnsureIdempotent(env: Environment, rs: seq<Route>, e: Ensure)
    ensures Ensured(env, Ensured(env, rs, e), e) == Ensured(env, rs, e)
  {
    var once := Ensured(env, rs, e);
    if e.exePath != "" && e.proxyId != "" {
      var at := FirstMatch(env, rs, e.exePath, e.proxyId);
      assert at < |once| && Matches(env, once[at], e.exePath, e.proxyId);
      assert forall i | 0 <= i < at :: once[i] == rs[i];
      assert FirstMatch(env, once, e.exePath, e.proxyId) == at;
      assert Refreshed(once[at], e) == once[at];
    }
  }

  predicate Targets(env: Environment, e: Ensure, r: Route) {
    e.exePath != "" && e.proxyId != "" && Matches(env, r, e.exePath, e.proxyId)
  }

  predicate TargetedBy(env: Environment, r: Route, c: Call) {
    c.Ensuring? && Targets(env, c.e, r)
  }

  /** The owner of a session-only route is the last session that ensured it, in every run of ensures,
      rollbacks and session ends: if `last` is the last call of the run for the route's target, the
      route carries its session, and `last` was itself a session-only call. */
  lemma {:induction false} LatestSessionOwns(env: Environment, rs: seq<Route>, cs: seq<Call>, last: nat, r: Route)
    requires Unique(env, rs) && r in Run(env, rs, cs) && !r.isPersistent
    requires last < |cs| && TargetedBy(env, r, cs[last])
    requires forall k | last < k < |cs| :: !TargetedBy(env, r, cs[k])
    ensures r.sessionId == cs[last].e.sessionId && !cs[last].e.isPersistent
  {
    var n := |cs| - 1;
    var before := Run(env, rs, cs[..n]);
    RunUnique(env, rs, cs[..n]);
    if last == n {
      LatestOwns(env, before, cs[n].e, r);
    } else {
      StillThere(env, before, cs[n], r);
      LatestSessionOwns(env, rs, cs[..n], last, r);
    }
  }

  lemma LatestOwns(env: Environment, rs: seq<Route>, e: Ensure, r: Route)
    requires Unique(env, rs) && r in Ensured(env, rs, e) && !r.isPersistent && Targets(env, e, r)
    ensures r.sessionId == e.sessionId && !e.isPersistent
  {
    var after := Ensured(env, rs, e);
    var at := FirstMatch(env, rs, e.exePath, e.proxyId);
    var i :| 0 <= i < |after| && after[i] == r;
    if at < |rs| {
      UniqueTarget(env, rs, at, i);
    }
  }

  /** What a call leaves and did not ensure was there before. */
  lemma StillThere(env: Environment, rs: seq<Route>, c: Call, r: Route)
    requires r in Done(env, rs, c) && !TargetedBy(env, r, c)
    ensures r in rs
  {
    if c.Ending? && c.sessionId != "" {
      CleanupExact(rs, c.sessionId, |rs|);
    }
  }

  lemma UniqueTarget(env: Environment, rs: seq<Route>, i: nat, j: nat)
    requires Unique(env, rs) && i < |rs| && j < |rs| && SameTarget(env, rs[i], rs[j])
    ensures i == j
  {
  }

  /** A rollback after a launch that failed restores the table exactly when there was no route for
      the target before; otherwise it takes the older route away. */
  lemma RollbackExact(env: Environment, rs: seq<Route>, e: Ensure)
    ensures RemovedByExe(env, Ensured(env, rs, e), e.exePath, e.proxyId) == rs
       <==> FirstMatch(env, rs, e.exePath, e.proxyId) == |rs|
  {
    var ensured := Ensured(env, rs, e);
    var at := FirstMatch(env, rs, e.exePath, e.proxyId);
    if at < |rs| {
      assert Matches(env, ensured[at], e.exePath, e.proxyId);
      assert |RemovedByExe(env, ensured, e.exePath, e.proxyId)| < |rs|;
    } else if e.exePath != "" && e.proxyId != "" {
      assert Matches(env, ensured[at], e.exePath, e.proxyId);
      assert forall i | 0 <= i < at :: ensured[i] == rs[i];
      assert FirstMatch(env, ensured, e.exePath, e.proxyId) == at;
      assert RemovedByExe(env, ensured, e.exePath, e.proxyId) == rs;
    }
  }

  lemma {:induction false} SamePrefix(rs: seq<Route>, more: seq<Route>, sessionId: string, n: nat)
    requires n <= |rs| && rs <= more
    ensures WithoutTemporary(more, sessionId, n) == WithoutTemporary(rs, sessionId, n)
  {
    if n > 0 {
      SamePrefix(rs, more, sessionId, n - 1);
    }
  }

  /** A session-only launch leaves no trace once its session ends, if it added its route. */
  lemma LaunchAndEnd(env: Environment, rs: seq<Route>, e: Ensure, sessionId: string)
    requires e.exePath != "" && e.proxyId != "" && !e.isPersistent && e.sessionId == Some(sessionId) && sessionId != ""
    requires FirstMatch(env, rs, e.exePath, e.proxyId) == |rs|
    ensures CleanedUp(Ensured(env, rs, e), sessionId) == CleanedUp(rs, sessionId)
  {
    var more := rs + [NewRoute(env, e)];
    assert Ensured(env, rs, e) == more && TemporaryFor(more[|rs|], sessionId);
    SamePrefix(rs, more, sessionId, |rs|);
    assert WithoutTemporary(more, sessionId, |rs| + 1) == WithoutTemporary(more, sessionId, |rs|) + [];
  }

  // ----- importing -----

  /** Importing keeps what is there, and makes every importable route of the file covered. */
  lemma {:induction false} ImportComplete(rs: seq<Route>, file: seq<Route>)
    ensures rs <= Imported(rs, file)
    ensures forall r | r in file && r.enabled && r.isPersistent && r.proxyId != "" :: Covered(Imported(rs, file), r)
  {
    if file != [] {
      var init, last := file[..|file| - 1], file[|file| - 1];
      ImportComplete(rs, init);
      var before, after := Imported(rs, init), Imported(rs, file);
      assert before <= after;
      forall r | r in file && Importable(r)
        ensures Covered(after, r)
      {
        if r in init {
          CoveredMore(before, after, r);
        } else if Covered(before, last) {
          CoveredMore(before, after, last);
        } else {
          assert after[|before|] == r;
        }
      }
    }
  }

  lemma CoveredMore(rs: seq<Route>, more: seq<Route>, r: Route)
    requires rs <= more && Covered(rs, r)
    ensures Covered(more, r)
  {
    var i :| 0 <= i < |rs| && rs[i].proxyId == r.proxyId && StableRouteKey(rs[i]) == StableRouteKey(r);
    assert more[i] == rs[i];
  }

  /** Only importable routes of the file are added, and no two of them with one proxy and key. */
  lemma {:induction false} ImportSound(rs: seq<Route>, file: seq<Route>)
    ensures rs <= Imported(rs, file)
    ensures forall i | |rs| <= i < |Imported(rs, file)| ::
      var r := Imported(rs, file)[i]; r in file && r.enabled && r.isPersistent && r.proxyId != ""
    ensures forall i | |rs| <= i < |Imported(rs, file)| :: !Covered(Imported(rs, file)[..i], Imported(rs, file)[i])
  {
    if file != [] {
      ImportSound(rs, file[..|file| - 1]);
      var before, after := Imported(rs, file[..|file| - 1]), Imported(rs, file);
      forall i | |rs| <= i < |after|
        ensures after[i] in file && Importable(after[i]) && !Covered(after[..i], after[i])
      {
        if i < |before| {
          assert after[..i] == before[..i] && after[i] == before[i];
        } else {
          assert after[..i] == before;
        }
      }
    }
  }

  /** Nothing is added when everything is covered. */
  lemma {:induction false} ImportNothing(rs: seq<Route>, file: seq<Route>)
    requires forall r | r in file && Importable(r) :: Covered(rs, r)
    ensures Imported(rs, file) == rs
  {
    if file != [] {
      ImportNothing(rs, file[..|file| - 1]);
    }
  }

  /** A second import of the same file adds nothing. */
  lemma ImportIdempotent(rs: seq<Route>, file: seq<Route>)
    ensures Imported(Imported(rs, file), file) == Imported(rs, file)
  {
    ImportComplete(rs, file);
    ImportNothing(Imported(rs, file), file);
  }

  lemma {:induction false} PersistentExact(rs: seq<Route>)
    ensures forall r :: r in PersistentOf(rs) <==> r in rs && r.isPersistent && r.enabled
  {
    if rs != [] {
      PersistentExact(rs[..|rs| - 1]);
    }
  }

  /** Importing a config that was built from the table adds nothing to it. */
  lemma ImportOwnConfig(rs: seq<Route>)
    ensures Imported(rs, PersistentOf(rs)) == rs
  {
    PersistentExact(rs);
    forall r | r in PersistentOf(rs)
      ensures Covered(rs, r)
    {
      var i :| 0 <= i < |rs| && rs[i] == r;
    }
    ImportNothing(rs, PersistentOf(rs));
  }

  /** No route of the list shares proxy and key with an earlier one. */
  predicate KeysDistinct(rs: seq<Route>) {
    forall i | 0 <= i < |rs| :: !Covered(rs[..i], rs[i])
  }

  lemma {:induction false} DistinctComeBack(file: seq<Route>)
    requires KeysDistinct(file) && forall r | r in file :: Importable(r)
    ensures Imported([], file) == file
  {
    if file != [] {
      var init := file[..|file| - 1];
      KeysDistinctInit(file);
      DistinctComeBack(init);
      assert !Covered(init, file[|init|]) && file[|init|] in file;
      assert file == init + [file[|init|]];
    }
  }

  lemma KeysDistinctInit(file: seq<Route>)
    requires KeysDistinct(file) && file != []
    ensures KeysDistinct(file[..|file| - 1])
  {
    var init := file[..|file| - 1];
    forall i | 0 <= i < |init|
      ensures !Covered(init[..i], init[i])
    {
      assert init[..i] == file[..i] && init[i] == file[i];
    }
  }

  /** Built into a config and imported into an empty table, persistent routes that name a proxy come
      back as they were exactly when no two of them share proxy and key. */
  lemma ConfigRoundTrip(rs: seq<Route>)
    requires forall r | r in PersistentOf(rs) :: r.proxyId != ""
    ensures Imported([], PersistentOf(rs)) == PersistentOf(rs) <==> KeysDistinct(PersistentOf(rs))
  {
    PersistentExact(rs);
    ImportSound([], PersistentOf(rs));
    if KeysDistinct(PersistentOf(rs)) {
      DistinctComeBack(PersistentOf(rs));
    }
  }
}
