/** Routes and the keys that identify them. */
module AppIdentity {
  import opened Text
  import opened Wrappers

  const PATH := "path"
  const MSIX_PACKAGE := "msix-package"
  const APP_USER_MODEL_ID := "app-user-model-id"
  const PROCESS_NAME := "process-name"

  /** What a route says, as a value. */
  datatype Route = Route(
    id: string, exePath: string, processName: string, proxyId: string,
    enabled: bool, isPersistent: bool, ipcManaged: bool, sessionId: Option<string>,
    matchKind: string, packageFamilyName: string, packageRelativeExePath: string, appUserModelId: string)

  predicate EndsWithExe(s: string) {
    && |s| >= 4
    && s[|s| - 4] == '.'
    && (s[|s| - 3] == 'e' || s[|s| - 3] == 'E')
    && (s[|s| - 2] == 'x' || s[|s| - 2] == 'X')
    && (s[|s| - 1] == 'e' || s[|s| - 1] == 'E')
  }

  function LowerAscii(c: char): char {
    if 'A' <= c <= 'Z' then (c as int + 32) as char else c
  }

  function Lowered(s: string): string {
    seq(|s|, i requires 0 <= i < |s| => LowerAscii(s[i]))
  }

  /** The suffix in any mixture of cases. */
  lemma EndsWithExeExact(s: string)
    ensures EndsWithExe(s) <==> |s| >= 4 && Lowered(s[|s| - 4..]) == ".exe"
  {
    if |s| >= 4 {
      var low := Lowered(s[|s| - 4..]);
      assert low == ".exe" <==> low[0] == '.' && low[1] == 'e' && low[2] == 'x' && low[3] == 'e';
    }
  }

  /** Process names as the system reports them, with their suffix. */
  function NormalizeProcessName(name: string): string {
    if name == "" then ""
    else if EndsWithExe(Trim(name)) then Trim(name)
    else Trim(name) + ".exe"
  }

  lemma TrimmedAlready(s: string)
    requires s == [] || (!IsWhiteSpace(s[0]) && !IsWhiteSpace(s[|s| - 1]))
    ensures Trim(s) == s
  {
  }

  lemma SuffixedName(t: string, u: string)
    requires t == [] || (!IsWhiteSpace(t[0]) && !IsWhiteSpace(t[|t| - 1]))
    requires u == t + ".exe"
    ensures EndsWithExe(u) && Trim(u) == u
  {
    assert |u| == |t| + 4 && u[|t|] == '.' && u[|t| + 1] == 'e' && u[|t| + 2] == 'x' && u[|t| + 3] == 'e';
    assert u[0] == if t == [] then '.' else t[0];
    assert u != [] && !IsWhiteSpace(u[0]) && !IsWhiteSpace(u[|u| - 1]);
    TrimmedAlready(u);
  }

  /** What a trimmed name turns into is itself trimmed, and has the suffix. */
  lemma NormalizedShape(t: string, n: string)
    requires t == [] || (!IsWhiteSpace(t[0]) && !IsWhiteSpace(t[|t| - 1]))
    requires n == if EndsWithExe(t) then t else t + ".exe"
    ensures n != "" && EndsWithExe(n) && Trim(n) == n
  {
    if EndsWithExe(t) {
      TrimmedAlready(t);
    } else {
      SuffixedName(t, n);
    }
  }

  /** Normalizing is idempotent, and gives a trimmed name with its suffix for every name but the
      empty one. */
  lemma NormalizeIdempotent(name: string)
    ensures NormalizeProcessName(NormalizeProcessName(name)) == NormalizeProcessName(name)
    ensures name != "" ==>
      EndsWithExe(NormalizeProcessName(name)) && Trim(NormalizeProcessName(name)) == NormalizeProcessName(name)
  {
    if name != "" {
      NormalizedShape(Trim(name), NormalizeProcessName(name));
    }
  }

  /** A name is normalized by taking the white space off both ends and adding the suffix if it is
      missing. */
  lemma NormalizeExact(name: string) returns (i: nat, j: nat)
    requires name != ""
    ensures i <= j <= |name| && forall k | 0 <= k < i || j <= k < |name| :: IsWhiteSpace(name[k])
    ensures i < j ==> !IsWhiteSpace(name[i]) && !IsWhiteSpace(name[j - 1])
    ensures NormalizeProcessName(name) == name[i..j] || NormalizeProcessName(name) == name[i..j] + ".exe"
    ensures NormalizeProcessName(name) == name[i..j] <==> EndsWithExe(name[i..j])
    ensures NormalizeProcessName("") == ""
  {
    i, j := TrimExact(name);
    var base := Trim(name);
    assert i < j ==> base[0] == name[i] && base[|base| - 1] == name[j - 1];
  }

  /** The identity a route declares, by its kind. */
  function Identity(r: Route): string {
    if r.matchKind == MSIX_PACKAGE then r.packageFamilyName + "/" + r.packageRelativeExePath
    else if r.matchKind == APP_USER_MODEL_ID then r.appUserModelId
    else if r.matchKind == PROCESS_NAME then NormalizeProcessName(r.processName)
    else r.exePath
  }

  function StableRouteKey(r: Route): string {
    r.matchKind + ":" + r.proxyId + ":" + Identity(r)
  }

  /** `p` with the separator begins `q`, and `x` makes up for what `p` lacks. */
  predicate MakesUp(c: char, p: string, x: string, q: string, y: string) {
    p + [c] <= q && x == q[|p| + 1..] + [c] + y
  }

  /** Two texts with a separator between their parts are the same exactly when the parts are, or when
      one second part makes up for what its first part lacks. */
  lemma JoinedEqual(c: char, p: string, x: string, q: string, y: string)
    ensures p + [c] + x == q + [c] + y <==>
      || (p == q && x == y)
      || MakesUp(c, p, x, q, y)
      || MakesUp(c, q, y, p, x)
  {
    if MakesUp(c, p, x, q, y) {
      JoinedEqualIf(c, p, x, q, y);
    }
    if MakesUp(c, q, y, p, x) {
      JoinedEqualIf(c, q, y, p, x);
    }
    if p + [c] + x == q + [c] + y {
      if |p| <= |q| {
        JoinedEqualOnlyIf(c, p, x, q, y);
      } else {
        JoinedEqualOnlyIf(c, q, y, p, x);
      }
    }
  }

  lemma JoinedEqualIf(c: char, p: string, x: string, q: string, y: string)
    requires MakesUp(c, p, x, q, y)
    ensures p + [c] + x == q + [c] + y
  {
    assert q == p + [c] + q[|p| + 1..];
  }

  lemma JoinedEqualOnlyIf(c: char, p: string, x: string, q: string, y: string)
    requires p + [c] + x == q + [c] + y && |p| <= |q|
    ensures (p == q && x == y) || MakesUp(c, p, x, q, y)
  {
    var s := p + [c] + x;
    assert p == s[..|p|] && q == s[..|q|] && x == s[|p| + 1..] && y == s[|q| + 1..];
    if |p| < |q| {
      assert q[|p|] == s[|p|] == c;
      assert x == s[|p| + 1..|q|] + s[|q|..] && s[|q|..] == [c] + y;
    }
  }

  /** One of the two texts, followed by the separator, begins the other. */
  predicate Confusable(c: char, p: string, q: string) {
    p + [c] <= q || q + [c] <= p
  }

  /** When two keys are equal, whatever the proxy ids: same kind, and either the same proxy and
      identity, or one identity makes up for what its proxy id lacks. */
  lemma KeyEqualIff(r: Route, s: Route)
    requires ':' !in r.matchKind && ':' !in s.matchKind
    ensures StableRouteKey(r) == StableRouteKey(s) <==>
      r.matchKind == s.matchKind
      && (|| (r.proxyId == s.proxyId && Identity(r) == Identity(s))
          || MakesUp(':', r.proxyId, Identity(r), s.proxyId, Identity(s))
          || MakesUp(':', s.proxyId, Identity(s), r.proxyId, Identity(r)))
  {
    KeyTail(r);
    KeyTail(s);
    var x, y := r.proxyId + ":" + Identity(r), s.proxyId + ":" + Identity(s);
    PlainNotConfusable(':', r.matchKind, s.matchKind);
    JoinedEqual(':', r.matchKind, x, s.matchKind, y);
    JoinedEqual(':', r.proxyId, Identity(r), s.proxyId, Identity(s));
  }

  /** Equal keys mean equal kind, proxy and identity, when kinds have no colon and the proxy ids are
      not confusable; so in particular when ids have no colon. */
  lemma KeyInjective(r: Route, s: Route)
    requires ':' !in r.matchKind && ':' !in s.matchKind && !Confusable(':', r.proxyId, s.proxyId)
    ensures StableRouteKey(r) == StableRouteKey(s)
       <==> r.matchKind == s.matchKind && r.proxyId == s.proxyId && Identity(r) == Identity(s)
  {
    KeyEqualIff(r, s);
  }

  /** Texts without the separator are never confusable. */
  lemma PlainNotConfusable(c: char, p: string, q: string)
    requires c !in p && c !in q
    ensures !Confusable(c, p, q)
  {
    assert c in p + [c] && c in q + [c];
    assert p + [c] <= q ==> c in q;
    assert q + [c] <= p ==> c in p;
  }

  lemma KeyTail(r: Route)
    ensures StableRouteKey(r) == r.matchKind + ":" + (r.proxyId + ":" + Identity(r))
  {
  }

  /** What an equal key says about two routes of one kind: the same package and program, the same
      application, the same process name up to its form, or the same path. */
  predicate SameProgram(r: Route, s: Route) {
    if r.matchKind == MSIX_PACKAGE then
      r.packageFamilyName == s.packageFamilyName && r.packageRelativeExePath == s.packageRelativeExePath
    else if r.matchKind == APP_USER_MODEL_ID then r.appUserModelId == s.appUserModelId
    else if r.matchKind == PROCESS_NAME then NormalizeProcessName(r.processName) == NormalizeProcessName(s.processName)
    else r.exePath == s.exePath
  }

  /** Keys identify programs: with proxy ids, and package family names where they count, that are not
      confusable, keys are equal exactly for routes of one kind and one proxy that name the same
      program. */
  lemma KeyIdentifiesProgram(r: Route, s: Route)
    requires ':' !in r.matchKind && ':' !in s.matchKind && !Confusable(':', r.proxyId, s.proxyId)
    requires r.matchKind == s.matchKind == MSIX_PACKAGE ==> !Confusable('/', r.packageFamilyName, s.packageFamilyName)
    ensures StableRouteKey(r) == StableRouteKey(s)
       <==> r.matchKind == s.matchKind && r.proxyId == s.proxyId && SameProgram(r, s)
  {
    KeyInjective(r, s);
    if r.matchKind == s.matchKind == MSIX_PACKAGE {
      JoinedEqual('/', r.packageFamilyName, r.packageRelativeExePath, s.packageFamilyName, s.packageRelativeExePath);
    }
  }

  /** When the proxies are known to be the same, as on import, colons in their ids do no harm. */
  lemma KeyInjectiveForProxy(r: Route, s: Route)
    requires ':' !in r.matchKind && ':' !in s.matchKind && r.proxyId == s.proxyId
    ensures StableRouteKey(r) == StableRouteKey(s) <==> r.matchKind == s.matchKind && Identity(r) == Identity(s)
  {
    KeyEqualIff(r, s);
  }

  /** Two routes of these proxies, of kinds without a colon, have one key. */
  predicate Collide(r: Route, s: Route, p: string, q: string) {
    && r.proxyId == p && s.proxyId == q && ':' !in r.matchKind && ':' !in s.matchKind
    && StableRouteKey(r) == StableRouteKey(s)
  }

  /** Exactly when routes of two different proxies can be mistaken for one another. */
  lemma ProxiesCollideIff(p: string, q: string)
    requires p != q
    ensures (exists r, s :: Collide(r, s, p, q)) <==> Confusable(':', p, q)
  {
    if r, s :| Collide(r, s, p, q) {
      KeyEqualIff(r, s);
    }
    if p + ":" <= q {
      var r, s := PathRoute(p, q[|p| + 1..] + ":"), PathRoute(q, "");
      KeyEqualIff(r, s);
      assert q[|p| + 1..] + ":" + "" == q[|p| + 1..] + ":";
      assert Collide(r, s, p, q);
    }
    if q + ":" <= p {
      var r, s := PathRoute(p, ""), PathRoute(q, p[|q| + 1..] + ":");
      KeyEqualIff(r, s);
      assert p[|q| + 1..] + ":" + "" == p[|q| + 1..] + ":";
      assert Collide(r, s, p, q);
    }
  }

  function PathRoute(proxyId: string, exePath: string): Route {
    Route("", exePath, "", proxyId, true, true, false, None, PATH, "", "", "")
  }

  /** And they can be: two routes of different proxies with one key. */
  lemma KeysCollide(r: Route)
    requires r.matchKind == PATH
    ensures var s, t := r.(proxyId := "a:b", exePath := "c"), r.(proxyId := "a", exePath := "b:c");
            StableRouteKey(s) == StableRouteKey(t) && s.proxyId != t.proxyId
  {
    var s, t := r.(proxyId := "a:b", exePath := "c"), r.(proxyId := "a", exePath := "b:c");
    assert StableRouteKey(s) == PATH + ":a:b:c" == StableRouteKey(t);
  }
}
