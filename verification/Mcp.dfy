/** Gateway projections of hosted MCP services: threaded sets and running totals against plain
    quantified specifications. crates/contracts/src/mcp.rs. In every entity `wellFormed` stands for
    the checks of single fields (names, digests, endpoints, origins, verifier hashes). */
module Mcp {
  import opened Base
  import opened Text
  import opened McpPrefixes
  import opened McpDurations

  const MAX_HEADER_BYTES: int := 131072
  const FIVE_MINUTES: nat := 300000
  const TEN_MINUTES: nat := 600000
  const ONE_HOUR: nat := 3600000
  const ONE_DAY: nat := 86400000

  datatype Profile = Profile(digest: string, maxRequestBytes: U64, maxResponseBytes: U64, wellFormed: bool)

  datatype Credential = Credential(
    credentialId: Uuid, environmentId: Uuid, prefix: string, generation: U64, revoked: bool, wellFormed: bool)

  datatype Target = Target(
    targetId: Uuid, nodeId: Uuid, releaseId: Uuid, unitId: string, generation: U64, service: string,
    profileDigest: string, priority: U32, weight: U32, wellFormed: bool)

  datatype Grant = Grant(credentialId: Uuid, generation: U64, wellFormed: bool)

  datatype Route = Route(
    routeId: Uuid, router: string, environmentId: Uuid, profileDigest: string,
    maxHeaderBytes: U64, maxRequestBytes: U64, maxResponseBytes: U64,
    firstResponse: string, streamIdle: string, streamTotal: string, drain: string,
    targets: seq<Target>, grants: seq<Grant>, wellFormed: bool)

  datatype Projection = Projection(
    current: bool, profiles: seq<Profile>, credentials: seq<Credential>, routes: seq<Route>)

  // ---------------------------------------------------------------------------------------
  // What is admissible

  /** What a Runtime observation is told apart by. */
  datatype RuntimeKey = RuntimeKey(nodeId: Uuid, unitId: string, generation: U64)

  function TargetIds(ts: seq<Target>): (r: seq<Uuid>) {
    seq(|ts|, i requires 0 <= i < |ts| => ts[i].targetId)
  }

  function RuntimeOf(t: Target): (r: RuntimeKey) {
    RuntimeKey(t.nodeId, t.unitId, t.generation)
  }

  function Runtimes(ts: seq<Target>): (r: seq<RuntimeKey>) {
    seq(|ts|, i requires 0 <= i < |ts| => RuntimeOf(ts[i]))
  }

  function Services(ts: seq<Target>): (r: seq<string>) {
    seq(|ts|, i requires 0 <= i < |ts| => ts[i].service)
  }

  /** The summed weight of the targets of one priority. */
  function WeightAt(ts: seq<Target>, priority: U32): (n: nat) {
    if ts == [] then 0
    else
      var last := ts[|ts| - 1];
      WeightAt(ts[..|ts| - 1], priority) + (if last.priority == priority then last.weight else 0)
  }

  function Priorities(ts: seq<Target>): (r: set<U32>) {
    set i | 0 <= i < |ts| :: ts[i].priority
  }

  /** A set of priorities is 0, 1, ..., k - 1. */
  ghost predicate CountsFromZero(ps: set<U32>) {
    exists k: nat :: ArePrioritiesBelow(ps, k)
  }

  ghost predicate ArePrioritiesBelow(ps: set<U32>, k: nat) {
    forall p: U32 :: p in ps <==> p < k
  }

  predicate TargetOk(route: Route, t: Target) {
    && t.targetId != NIL && t.nodeId != NIL && t.releaseId != NIL
    && t.wellFormed
    && t.profileDigest == route.profileDigest
    && t.weight > 0
  }

  predicate Fits(weights: nat) {
    weights <= U32_MAX
  }

  ghost predicate TargetsOk(route: Route, ts: seq<Target>) {
    && (forall i :: 0 <= i < |ts| ==> TargetOk(route, ts[i]))
    && Distinct(Services(ts))
    && WeightsFit(ts)
  }

  ghost predicate WeightsFit(ts: seq<Target>) {
    forall p: U32 :: Fits(WeightAt(ts, p))
  }

  predicate BoundsOk(route: Route, profile: Profile) {
    && profile.digest == route.profileDigest
    && 0 < route.maxHeaderBytes <= MAX_HEADER_BYTES
    && 0 < route.maxRequestBytes <= profile.maxRequestBytes
    && 0 < route.maxResponseBytes <= profile.maxResponseBytes
  }

  predicate TimeoutsOk(route: Route) {
    var first := ParseDuration(route.firstResponse, FIVE_MINUTES);
    var idle := ParseDuration(route.streamIdle, ONE_HOUR);
    var total := ParseDuration(route.streamTotal, ONE_DAY);
    && first.Some? && idle.Some? && total.Some?
    && ParseDuration(route.drain, TEN_MINUTES).Some?
    && first.value <= total.value && idle.value <= total.value
  }

  /** The grant names a live credential of the route's environment at its current generation. */
  predicate NamesCredential(grant: Grant, route: Route, c: Credential) {
    && c.credentialId == grant.credentialId
    && c.environmentId == route.environmentId
    && !c.revoked
    && c.generation == grant.generation
  }

  ghost predicate GrantOk(grant: Grant, route: Route, credentials: seq<Credential>) {
    grant.wellFormed && exists c :: c in credentials && NamesCredential(grant, route, c)
  }

  function GrantIds(gs: seq<Grant>): (r: seq<Uuid>) {
    seq(|gs|, i requires 0 <= i < |gs| => gs[i].credentialId)
  }

  ghost predicate GrantsOk(route: Route, gs: seq<Grant>, credentials: seq<Credential>) {
    && Distinct(GrantIds(gs))
    && forall i :: 0 <= i < |gs| ==> GrantOk(gs[i], route, credentials)
  }

  ghost predicate HeaderOk(route: Route, profiles: seq<Profile>) {
    && route.routeId != NIL && route.environmentId != NIL && route.wellFormed
    && (exists p :: p in profiles && BoundsOk(route, p))
    && TimeoutsOk(route)
    && 1 <= |route.targets| <= 64
    && 1 <= |route.grants| <= 10000
  }

  ghost predicate RouteOk(route: Route, profiles: seq<Profile>, credentials: seq<Credential>) {
    && HeaderOk(route, profiles)
    && TargetsOk(route, route.targets)
    && CountsFromZero(Priorities(route.targets))
    && GrantsOk(route, route.grants, credentials)
  }

  function Digests(ps: seq<Profile>): (r: seq<string>) {
    seq(|ps|, i requires 0 <= i < |ps| => ps[i].digest)
  }

  function CredentialIds(cs: seq<Credential>): (r: seq<Uuid>) {
    seq(|cs|, i requires 0 <= i < |cs| => cs[i].credentialId)
  }

  function Prefixes(cs: seq<Credential>): (r: seq<string>) {
    seq(|cs|, i requires 0 <= i < |cs| => cs[i].prefix)
  }

  function RouteIds(rs: seq<Route>): (r: seq<Uuid>) {
    seq(|rs|, i requires 0 <= i < |rs| => rs[i].routeId)
  }

  function Routers(rs: seq<Route>): (r: seq<string>) {
    seq(|rs|, i requires 0 <= i < |rs| => rs[i].router)
  }

  /** The targets of all routes, in order. */
  function AllTargets(rs: seq<Route>): (r: seq<Target>) {
    if rs == [] then [] else AllTargets(rs[..|rs| - 1]) + rs[|rs| - 1].targets
  }

  ghost predicate ProfilesOk(ps: seq<Profile>) {
    (forall i :: 0 <= i < |ps| ==> ps[i].wellFormed) && Distinct(Digests(ps))
  }

  ghost predicate CredentialsOk(cs: seq<Credential>) {
    && (forall i :: 0 <= i < |cs| ==> cs[i].wellFormed)
    && Distinct(CredentialIds(cs))
    && PrefixFree(Prefixes(cs))
  }

  ghost predicate RoutesOk(rs: seq<Route>, profiles: seq<Profile>, credentials: seq<Credential>) {
    && Distinct(RouteIds(rs))
    && Distinct(Routers(rs))
    && EachRouteOk(rs, profiles, credentials)
    && Distinct(TargetIds(AllTargets(rs)))
    && Distinct(Runtimes(AllTargets(rs)))
  }

  ghost predicate Admissible(p: Projection) {
    && p.current
    && 1 <= |p.profiles| <= 1000
    && 1 <= |p.routes| <= 1000
    && |p.credentials| <= 10000
    && ProfilesOk(p.profiles)
    && CredentialsOk(p.credentials)
    && RoutesOk(p.routes, p.profiles, p.credentials)
  }

  // ---------------------------------------------------------------------------------------
  // Targets of one route

  /** Target n of a route passes behind its predecessors and everything seen in earlier routes. */
  predicate NextTargetOk(route: Route, ts: seq<Target>, seen: seq<Target>, t: Target) {
    && TargetOk(route, t)
    && t.targetId !in TargetIds(seen + ts)
    && RuntimeOf(t) !in Runtimes(seen + ts)
    && t.service !in Services(ts)
    && Fits(WeightAt(ts, t.priority) + t.weight)
  }

  ghost predicate TargetsPass(route: Route, ts: seq<Target>, seen: seq<Target>) {
    TargetsOk(route, ts) && Distinct(TargetIds(seen + ts)) && Distinct(Runtimes(seen + ts))
  }

  lemma OneMoreTarget(route: Route, ts: seq<Target>, seen: seq<Target>, t: Target)
    requires TargetsPass(route, ts, seen)
    ensures TargetsPass(route, ts + [t], seen) <==> NextTargetOk(route, ts, seen, t)
  {
    assert seen + (ts + [t]) == (seen + ts) + [t];
    assert TargetIds((seen + ts) + [t]) == TargetIds(seen + ts) + [t.targetId];
    assert Runtimes((seen + ts) + [t]) == Runtimes(seen + ts) + [RuntimeOf(t)];
    assert Services(ts + [t]) == Services(ts) + [t.service];
    DistinctExtend(TargetIds(seen + ts), t.targetId);
    DistinctExtend(Runtimes(seen + ts), RuntimeOf(t));
    DistinctExtend(Services(ts), t.service);
    WeightsExtend(ts, t);
    if TargetsOk(route, ts + [t]) {
      assert TargetOk(route, (ts + [t])[|ts|]);
      assert Fits(WeightAt(ts + [t], t.priority));
    }
  }

  lemma WeightsExtend(ts: seq<Target>, t: Target)
    ensures forall p: U32 :: WeightAt(ts + [t], p) == WeightAt(ts, p) + (if t.priority == p then t.weight else 0)
  {
    assert (ts + [t])[..|ts|] == ts;
  }

  lemma {:induction false} PrefixPasses(route: Route, ts: seq<Target>, seen: seq<Target>, n: nat)
    requires TargetsPass(route, ts, seen) && n <= |ts|
    ensures TargetsPass(route, ts[..n], seen)
    decreases |ts|
  {
    if n < |ts| {
      var m := |ts| - 1;
      assert ts == ts[..m] + [ts[m]];
      FrontPasses(route, ts[..m], seen, ts[m]);
      PrefixPasses(route, ts[..m], seen, n);
      assert ts[..m][..n] == ts[..n];
    } else {
      assert ts[..n] == ts;
    }
  }

  lemma FrontPasses(route: Route, ts: seq<Target>, seen: seq<Target>, t: Target)
    requires TargetsPass(route, ts + [t], seen)
    ensures TargetsPass(route, ts, seen)
  {
    assert seen + (ts + [t]) == (seen + ts) + [t];
    assert TargetIds(seen + ts) <= TargetIds((seen + ts) + [t]);
    assert Runtimes(seen + ts) <= Runtimes((seen + ts) + [t]);
    assert Services(ts) <= Services(ts + [t]);
    DistinctPrefix(TargetIds(seen + ts), TargetIds((seen + ts) + [t]));
    DistinctPrefix(Runtimes(seen + ts), Runtimes((seen + ts) + [t]));
    DistinctPrefix(Services(ts), Services(ts + [t]));
    WeightsExtend(ts, t);
    forall p: U32
      ensures Fits(WeightAt(ts, p))
    {
      assert Fits(WeightAt(ts + [t], p));
    }
    assert forall i :: 0 <= i < |ts| ==> ts[i] == (ts + [t])[i];
  }

  lemma TargetsRefused(route: Route, ts: seq<Target>, seen: seq<Target>, n: nat)
    requires n <= |ts| && !TargetsPass(route, ts[..n], seen)
    ensures !TargetsPass(route, ts, seen)
  {
    if TargetsPass(route, ts, seen) {
      PrefixPasses(route, ts, seen, n);
    }
  }

  function WeightSoFar(weights: map<U32, U64>, p: U32): (n: nat) {
    if p in weights then weights[p] else 0
  }

  /** The sets and totals a route's target loop threads through. */
  datatype Ledger = Ledger(targetIds: set<Uuid>, runtimes: set<RuntimeKey>)

  predicate Balances(ledger: Ledger, seen: seq<Target>) {
    ledger.targetIds == Elements(TargetIds(seen)) && ledger.runtimes == Elements(Runtimes(seen))
  }

  lemma BalanceExtends(ledger: Ledger, seen: seq<Target>, t: Target)
    requires Balances(ledger, seen)
    ensures Balances(Ledger(ledger.targetIds + {t.targetId}, ledger.runtimes + {RuntimeOf(t)}), seen + [t])
  {
    assert TargetIds(seen + [t]) == TargetIds(seen) + [t.targetId];
    assert Runtimes(seen + [t]) == Runtimes(seen) + [RuntimeOf(t)];
  }

  /** One turn of the target loop against the running sets: it refuses exactly when the target does
      not pass. The 64-bit addition cannot overflow behind the 32-bit check. */
  method ValidateTarget(
    route: Route, t: Target, ledger: Ledger, services: set<string>, weights: map<U32, U64>,
    ghost ts: seq<Target>, ghost seen: seq<Target>) returns (ok: bool, total: U64)
    requires Balances(ledger, seen + ts) && services == Elements(Services(ts))
    requires forall p: U32 :: WeightSoFar(weights, p) == WeightAt(ts, p) && Fits(WeightAt(ts, p))
    ensures ok <==> NextTargetOk(route, ts, seen, t)
    ensures ok ==> total == WeightAt(ts, t.priority) + t.weight
  {
    total := 0;
    if t.targetId == NIL || t.nodeId == NIL || t.releaseId == NIL || t.targetId in ledger.targetIds {
      return false, total;
    }
    if !t.wellFormed || t.profileDigest != route.profileDigest || t.weight == 0 {
      return false, total;
    }
    if RuntimeOf(t) in ledger.runtimes || t.service in services {
      return false, total;
    }
    var before := if t.priority in weights then weights[t.priority] else 0;
    assert before == WeightSoFar(weights, t.priority) && Fits(WeightAt(ts, t.priority));
    if before + t.weight > U64_MAX {
      return false, total;
    }
    total := before + t.weight;
    return total <= U32_MAX, total;
  }

  method ValidateTargets(route: Route, before: Ledger, ghost seen: seq<Target>) returns (ok: bool, ledger: Ledger)
    requires Balances(before, seen) && Distinct(TargetIds(seen)) && Distinct(Runtimes(seen))
    ensures ok <==> TargetsPass(route, route.targets, seen) && CountsFromZero(Priorities(route.targets))
    ensures ok ==> Balances(ledger, seen + route.targets)
  {
    ledger := before;
    var ts := route.targets;
    var services: set<string> := {};
    var priorities: set<U32> := {};
    var weights: map<U32, U64> := map[];
    assert seen + ts[..0] == seen;
    for n := 0 to |ts|
      invariant Balances(ledger, seen + ts[..n])
      invariant services == Elements(Services(ts[..n]))
      invariant priorities == Priorities(ts[..n])
      invariant forall p: U32 :: WeightSoFar(weights, p) == WeightAt(ts[..n], p)
      invariant TargetsPass(route, ts[..n], seen)
    {
      var t := ts[n];
      ghost var done := ts[..n];
      TakeOneMore(ts, n);
      var pass, total := ValidateTarget(route, t, ledger, services, weights, done, seen);
      OneMoreTarget(route, done, seen, t);
      if !pass {
        TargetsRefused(route, ts, seen, n + 1);
        return false, ledger;
      }
      BalanceExtends(ledger, seen + done, t);
      assert seen + ts[..n + 1] == (seen + done) + [t];
      ledger := Ledger(ledger.targetIds + {t.targetId}, ledger.runtimes + {RuntimeOf(t)});
      assert Services(done + [t]) == Services(done) + [t.service];
      services := services + {t.service};
      PrioritiesExtend(done, t);
      priorities := priorities + {t.priority};
      WeightsExtend(done, t);
      weights := weights[t.priority := total];
    }
    assert ts[..|ts|] == ts;
    ok := CheckPriorities(priorities);
  }

  lemma PrioritiesExtend(ts: seq<Target>, t: Target)
    ensures Priorities(ts + [t]) == Priorities(ts) + {t.priority}
  {
    var longer := ts + [t];
    assert longer[|ts|] == t;
    forall p | p in Priorities(ts)
      ensures p in Priorities(longer)
    {
      var i :| 0 <= i < |ts| && ts[i].priority == p;
      assert longer[i] == ts[i];
    }
  }

  predicate IsLeast(m: U32, s: set<U32>) {
    m in s && forall x :: x in s ==> m <= x
  }

  lemma {:induction false} LeastExists(s: set<U32>)
    requires s != {}
    ensures exists m :: IsLeast(m, s)
  {
    var a :| a in s;
    if s == {a} {
      assert IsLeast(a, s);
    } else {
      LeastExists(s - {a});
      var m :| IsLeast(m, s - {a});
      forall x | x in s
        ensures a <= x || m <= x
      {
        assert x == a || x in s - {a};
      }
      assert IsLeast(if a <= m then a else m, s);
    }
  }

  /** Enumerating the ordered set against 0, 1, 2, ... */
  method CheckPriorities(priorities: set<U32>) returns (ok: bool)
    ensures ok <==> CountsFromZero(priorities)
  {
    var rest, expected := priorities, 0;
    while rest != {}
      invariant 0 <= expected
      invariant forall p: U32 :: p in rest <==> p in priorities && expected <= p
      invariant forall p: U32 :: p < expected ==> p in priorities
      decreases |rest|
    {
      LeastExists(rest);
      var actual :| IsLeast(actual, rest);
      if actual != expected {
        GapIsNotCounted(priorities, expected, actual);
        return false;
      }
      rest := rest - {actual};
      expected := expected + 1;
    }
    assert ArePrioritiesBelow(priorities, expected);
    return true;
  }

  lemma GapIsNotCounted(ps: set<U32>, missing: U32, present: U32)
    requires missing !in ps && present in ps && missing < present
    ensures !CountsFromZero(ps)
  {
  }

  // ---------------------------------------------------------------------------------------
  // Grants of one route

  lemma CredentialIsUnique(cs: seq<Credential>, c: Credential, d: Credential)
    requires Distinct(CredentialIds(cs)) && c in cs && d in cs && c.credentialId == d.credentialId
    ensures c == d
  {
    var i :| 0 <= i < |cs| && cs[i] == c;
    var j :| 0 <= j < |cs| && cs[j] == d;
    var ids := CredentialIds(cs);
    assert ids[i] == ids[j];
    assert i == j;
  }

  /** The lookup takes the first credential of the id; with distinct ids it is the only one. */
  method ValidateGrant(grant: Grant, route: Route, credentials: seq<Credential>) returns (ok: bool)
    requires Distinct(CredentialIds(credentials))
    ensures ok <==> GrantOk(grant, route, credentials)
  {
    if !grant.wellFormed {
      return false;
    }
    for n := 0 to |credentials|
      invariant forall i :: 0 <= i < n ==> credentials[i].credentialId != grant.credentialId
    {
      var c := credentials[n];
      if c.credentialId == grant.credentialId {
        if c.environmentId != route.environmentId || c.revoked || grant.generation != c.generation {
          forall d | d in credentials
            ensures !NamesCredential(grant, route, d)
          {
            if d.credentialId == c.credentialId {
              CredentialIsUnique(credentials, c, d);
            }
          }
          return false;
        }
        assert NamesCredential(grant, route, c);
        return true;
      }
    }
    return false;
  }

  lemma GrantsExtend(route: Route, gs: seq<Grant>, g: Grant, credentials: seq<Credential>)
    ensures GrantsOk(route, gs + [g], credentials) <==>
            && GrantsOk(route, gs, credentials)
            && g.credentialId !in GrantIds(gs)
            && GrantOk(g, route, credentials)
  {
    var longer := gs + [g];
    assert GrantIds(longer) == GrantIds(gs) + [g.credentialId];
    DistinctExtend(GrantIds(gs), g.credentialId);
    assert longer[|gs|] == g;
    assert forall i :: 0 <= i < |gs| ==> longer[i] == gs[i];
  }

  lemma GrantsPrefix(route: Route, gs: seq<Grant>, n: nat, credentials: seq<Credential>)
    requires n <= |gs| && GrantsOk(route, gs, credentials)
    ensures GrantsOk(route, gs[..n], credentials)
  {
    assert GrantIds(gs[..n]) <= GrantIds(gs);
    DistinctPrefix(GrantIds(gs[..n]), GrantIds(gs));
  }

  lemma GrantsRefused(route: Route, gs: seq<Grant>, n: nat, credentials: seq<Credential>)
    requires n <= |gs| && !GrantsOk(route, gs[..n], credentials)
    ensures !GrantsOk(route, gs, credentials)
  {
    if GrantsOk(route, gs, credentials) {
      GrantsPrefix(route, gs, n, credentials);
    }
  }

  method ValidateGrants(route: Route, credentials: seq<Credential>) returns (ok: bool)
    requires Distinct(CredentialIds(credentials))
    ensures ok <==> GrantsOk(route, route.grants, credentials)
  {
    var gs := route.grants;
    var ids: set<Uuid> := {};
    for n := 0 to |gs|
      invariant ids == Elements(GrantIds(gs[..n]))
      invariant GrantsOk(route, gs[..n], credentials)
    {
      var g := gs[n];
      TakeOneMore(gs, n);
      GrantsExtend(route, gs[..n], g, credentials);
      ok := g.credentialId !in ids;
      if ok {
        ok := ValidateGrant(g, route, credentials);
      }
      if !ok {
        GrantsRefused(route, gs, n + 1, credentials);
        return false;
      }
      assert GrantIds(gs[..n + 1]) == GrantIds(gs[..n]) + [g.credentialId];
      ids := ids + {g.credentialId};
    }
    assert gs[..|gs|] == gs;
    return true;
  }

  // ---------------------------------------------------------------------------------------
  // Routes and projections

  /** The map holds exactly the listed profiles, by digest. */
  ghost predicate Indexes(profiles: map<string, Profile>, listed: seq<Profile>) {
    && (forall p :: p in listed ==> p.digest in profiles && profiles[p.digest] == p)
    && (forall d :: d in profiles ==> profiles[d] in listed && profiles[d].digest == d)
  }

  lemma BoundsByLookup(route: Route, profiles: map<string, Profile>, listed: seq<Profile>)
    requires Indexes(profiles, listed)
    ensures (exists p :: p in listed && BoundsOk(route, p)) <==>
            route.profileDigest in profiles && BoundsOk(route, profiles[route.profileDigest])
  {
  }

  method ValidateHeader(route: Route, profiles: map<string, Profile>, ghost listed: seq<Profile>) returns (ok: bool)
    requires Indexes(profiles, listed)
    ensures ok <==> HeaderOk(route, listed)
  {
    BoundsByLookup(route, profiles, listed);
    if route.routeId == NIL || route.environmentId == NIL || !route.wellFormed {
      return false;
    }
    if route.profileDigest !in profiles || !BoundsOk(route, profiles[route.profileDigest]) {
      return false;
    }
    if !TimeoutsOk(route) {
      return false;
    }
    return 1 <= |route.targets| <= 64 && 1 <= |route.grants| <= 10000;
  }

  /** A route passes behind the targets of the routes before it. */
  ghost predicate RoutePasses(route: Route, profiles: seq<Profile>, credentials: seq<Credential>, seen: seq<Target>) {
    && HeaderOk(route, profiles)
    && TargetsPass(route, route.targets, seen)
    && CountsFromZero(Priorities(route.targets))
    && GrantsOk(route, route.grants, credentials)
  }

  lemma RouteNamesExtend(rs: seq<Route>, r: Route)
    ensures Distinct(RouteIds(rs + [r])) <==> Distinct(RouteIds(rs)) && r.routeId !in RouteIds(rs)
    ensures Distinct(Routers(rs + [r])) <==> Distinct(Routers(rs)) && r.router !in Routers(rs)
    ensures AllTargets(rs + [r]) == AllTargets(rs) + r.targets
  {
    var longer := rs + [r];
    assert RouteIds(longer) == RouteIds(rs) + [r.routeId];
    assert Routers(longer) == Routers(rs) + [r.router];
    DistinctExtend(RouteIds(rs), r.routeId);
    DistinctExtend(Routers(rs), r.router);
    assert longer[..|rs|] == rs;
  }

  ghost predicate EachRouteOk(rs: seq<Route>, profiles: seq<Profile>, credentials: seq<Credential>) {
    forall i :: 0 <= i < |rs| ==> RouteOk(rs[i], profiles, credentials)
  }

  lemma EachRouteExtend(rs: seq<Route>, r: Route, profiles: seq<Profile>, credentials: seq<Credential>)
    ensures EachRouteOk(rs + [r], profiles, credentials) <==>
            EachRouteOk(rs, profiles, credentials) && RouteOk(r, profiles, credentials)
  {
    var longer := rs + [r];
    assert longer[|rs|] == r && forall i :: 0 <= i < |rs| ==> longer[i] == rs[i];
  }

  lemma RoutesExtend(rs: seq<Route>, r: Route, profiles: seq<Profile>, credentials: seq<Credential>)
    requires RoutesOk(rs, profiles, credentials)
    ensures RoutesOk(rs + [r], profiles, credentials) <==>
            && r.routeId !in RouteIds(rs)
            && r.router !in Routers(rs)
            && RoutePasses(r, profiles, credentials, AllTargets(rs))
  {
    RouteNamesExtend(rs, r);
    EachRouteExtend(rs, r, profiles, credentials);
  }

  lemma {:induction false} AllTargetsPrefix(rs: seq<Route>, n: nat)
    requires n <= |rs|
    ensures AllTargets(rs[..n]) <= AllTargets(rs)
    decreases |rs|
  {
    if n < |rs| {
      AllTargetsPrefix(rs[..|rs| - 1], n);
      assert rs[..|rs| - 1][..n] == rs[..n];
    } else {
      assert rs[..n] == rs;
    }
  }

  lemma RoutesPrefix(rs: seq<Route>, n: nat, profiles: seq<Profile>, credentials: seq<Credential>)
    requires n <= |rs| && RoutesOk(rs, profiles, credentials)
    ensures RoutesOk(rs[..n], profiles, credentials)
  {
    AllTargetsPrefix(rs, n);
    assert RouteIds(rs[..n]) <= RouteIds(rs) && Routers(rs[..n]) <= Routers(rs);
    assert TargetIds(AllTargets(rs[..n])) <= TargetIds(AllTargets(rs));
    assert Runtimes(AllTargets(rs[..n])) <= Runtimes(AllTargets(rs));
    DistinctPrefix(RouteIds(rs[..n]), RouteIds(rs));
    DistinctPrefix(Routers(rs[..n]), Routers(rs));
    DistinctPrefix(TargetIds(AllTargets(rs[..n])), TargetIds(AllTargets(rs)));
    DistinctPrefix(Runtimes(AllTargets(rs[..n])), Runtimes(AllTargets(rs)));
  }

  /** McpRoutePolicyProjection::validate, behind the routes already seen. */
  method ValidateRoute(
    route: Route, profiles: map<string, Profile>, credentials: seq<Credential>, before: Ledger,
    ghost listed: seq<Profile>, ghost seen: seq<Target>) returns (ok: bool, ledger: Ledger)
    requires Indexes(profiles, listed)
    requires Distinct(CredentialIds(credentials))
    requires Balances(before, seen) && Distinct(TargetIds(seen)) && Distinct(Runtimes(seen))
    ensures ok <==> RoutePasses(route, listed, credentials, seen)
    ensures ok ==> Balances(ledger, seen + route.targets)
  {
    ledger := before;
    ok := ValidateHeader(route, profiles, listed);
    if !ok {
      return;
    }
    ok, ledger := ValidateTargets(route, before, seen);
    if !ok {
      return;
    }
    ok := ValidateGrants(route, credentials);
  }

  ghost predicate RoutesSeen(ids: set<Uuid>, routers: set<string>, ledger: Ledger, rs: seq<Route>) {
    && ids == Elements(RouteIds(rs))
    && routers == Elements(Routers(rs))
    && Balances(ledger, AllTargets(rs))
  }

  lemma RouteSeen(ids: set<Uuid>, routers: set<string>, ledger: Ledger, rs: seq<Route>, r: Route)
    requires ids == Elements(RouteIds(rs)) && routers == Elements(Routers(rs))
    requires Balances(ledger, AllTargets(rs) + r.targets)
    ensures RoutesSeen(ids + {r.routeId}, routers + {r.router}, ledger, rs + [r])
  {
    assert (rs + [r])[..|rs|] == rs && AllTargets(rs + [r]) == AllTargets(rs) + r.targets;
    assert RouteIds(rs + [r]) == RouteIds(rs) + [r.routeId];
    assert Routers(rs + [r]) == Routers(rs) + [r.router];
  }

  lemma RouteRefused(rs: seq<Route>, n: nat, profiles: seq<Profile>, credentials: seq<Credential>)
    requires n < |rs| && !RoutesOk(rs[..n] + [rs[n]], profiles, credentials)
    ensures !RoutesOk(rs, profiles, credentials)
  {
    assert rs[..n + 1] == rs[..n] + [rs[n]];
    if RoutesOk(rs, profiles, credentials) {
      RoutesPrefix(rs, n + 1, profiles, credentials);
    }
  }

  method ValidateNextRoute(
    r: Route, profiles: map<string, Profile>, credentials: seq<Credential>,
    ids: set<Uuid>, routers: set<string>, before: Ledger, ghost listed: seq<Profile>, ghost done: seq<Route>)
    returns (ok: bool, ledger: Ledger)
    requires Indexes(profiles, listed) && Distinct(CredentialIds(credentials))
    requires RoutesSeen(ids, routers, before, done) && RoutesOk(done, listed, credentials)
    ensures ok <==> RoutesOk(done + [r], listed, credentials)
    ensures ok ==> RoutesSeen(ids + {r.routeId}, routers + {r.router}, ledger, done + [r])
  {
    RoutesExtend(done, r, listed, credentials);
    ledger := before;
    if r.routeId in ids || r.router in routers {
      return false, ledger;
    }
    ok, ledger := ValidateRoute(r, profiles, credentials, before, listed, AllTargets(done));
    if ok {
      RouteSeen(ids, routers, ledger, done, r);
    }
  }

  /** The first n routes passed and are what the running sets hold. */
  ghost predicate PassedUpTo(
    rs: seq<Route>, n: nat, ids: set<Uuid>, routers: set<string>, ledger: Ledger,
    profiles: seq<Profile>, credentials: seq<Credential>)
    requires n <= |rs|
  {
    RoutesSeen(ids, routers, ledger, rs[..n]) && RoutesOk(rs[..n], profiles, credentials)
  }

  lemma NonePassedYet(rs: seq<Route>, profiles: seq<Profile>, credentials: seq<Credential>)
    ensures PassedUpTo(rs, 0, {}, {}, Ledger({}, {}), profiles, credentials)
  {
    assert rs[..0] == [];
    assert RouteIds(rs[..0]) == [] && Routers(rs[..0]) == [] && AllTargets(rs[..0]) == [];
  }

  method PassRoute(
    rs: seq<Route>, n: nat, profiles: map<string, Profile>, credentials: seq<Credential>,
    ids: set<Uuid>, routers: set<string>, before: Ledger, ghost listed: seq<Profile>)
    returns (ok: bool, ledger: Ledger)
    requires Indexes(profiles, listed) && Distinct(CredentialIds(credentials))
    requires n < |rs| && PassedUpTo(rs, n, ids, routers, before, listed, credentials)
    ensures ok ==> PassedUpTo(rs, n + 1, ids + {rs[n].routeId}, routers + {rs[n].router}, ledger, listed, credentials)
    ensures !ok ==> !RoutesOk(rs, listed, credentials)
  {
    TakeOneMore(rs, n);
    ok, ledger := ValidateNextRoute(rs[n], profiles, credentials, ids, routers, before, listed, rs[..n]);
    if !ok {
      RouteRefused(rs, n, listed, credentials);
    }
  }

  method ValidateRoutes(
    rs: seq<Route>, profiles: map<string, Profile>, credentials: seq<Credential>, ghost listed: seq<Profile>)
    returns (ok: bool)
    requires Indexes(profiles, listed) && Distinct(CredentialIds(credentials))
    ensures ok <==> RoutesOk(rs, listed, credentials)
  {
    var ids: set<Uuid> := {};
    var routers: set<string> := {};
    var ledger := Ledger({}, {});
    NonePassedYet(rs, listed, credentials);
    for n := 0 to |rs|
      invariant PassedUpTo(rs, n, ids, routers, ledger, listed, credentials)
    {
      ok, ledger := PassRoute(rs, n, profiles, credentials, ids, routers, ledger, listed);
      if !ok {
        return false;
      }
      ids, routers := ids + {rs[n].routeId}, routers + {rs[n].router};
    }
    assert rs[..|rs|] == rs;
    return true;
  }

  lemma ProfilesExtend(ps: seq<Profile>, p: Profile)
    ensures ProfilesOk(ps + [p]) <==> ProfilesOk(ps) && p.wellFormed && p.digest !in Digests(ps)
  {
    var longer := ps + [p];
    assert Digests(longer) == Digests(ps) + [p.digest];
    DistinctExtend(Digests(ps), p.digest);
    assert longer[|ps|] == p && forall i :: 0 <= i < |ps| ==> longer[i] == ps[i];
  }

  lemma ProfilesPrefix(ps: seq<Profile>, n: nat)
    requires n <= |ps| && ProfilesOk(ps)
    ensures ProfilesOk(ps[..n])
  {
    assert Digests(ps[..n]) <= Digests(ps);
    DistinctPrefix(Digests(ps[..n]), Digests(ps));
  }

  lemma ProfilesRefused(ps: seq<Profile>, n: nat)
    requires n <= |ps| && !ProfilesOk(ps[..n])
    ensures !ProfilesOk(ps)
  {
    if ProfilesOk(ps) {
      ProfilesPrefix(ps, n);
    }
  }

  method ValidateProfiles(ps: seq<Profile>) returns (ok: bool, byDigest: map<string, Profile>)
    ensures ok <==> ProfilesOk(ps)
    ensures ok ==> Indexes(byDigest, ps)
  {
    byDigest := map[];
    for n := 0 to |ps|
      invariant ProfilesOk(ps[..n])
      invariant Indexes(byDigest, ps[..n])
    {
      var p := ps[n];
      TakeOneMore(ps, n);
      ProfilesExtend(ps[..n], p);
      assert p.digest in byDigest <==> p.digest in Digests(ps[..n]) by {
        assert forall i :: 0 <= i < n ==> Digests(ps[..n])[i] == ps[..n][i].digest;
      }
      if !p.wellFormed || p.digest in byDigest {
        ProfilesRefused(ps, n + 1);
        return false, byDigest;
      }
      byDigest := byDigest[p.digest := p];
    }
    assert ps[..|ps|] == ps;
    return true, byDigest;
  }

  ghost predicate CredentialsDistinct(cs: seq<Credential>) {
    && (forall i :: 0 <= i < |cs| ==> cs[i].wellFormed)
    && Distinct(CredentialIds(cs))
    && Distinct(Prefixes(cs))
  }

  lemma CredentialsExtend(cs: seq<Credential>, c: Credential)
    ensures CredentialsDistinct(cs + [c]) <==>
            CredentialsDistinct(cs) && c.wellFormed && c.credentialId !in CredentialIds(cs) && c.prefix !in Prefixes(cs)
  {
    var longer := cs + [c];
    assert CredentialIds(longer) == CredentialIds(cs) + [c.credentialId];
    assert Prefixes(longer) == Prefixes(cs) + [c.prefix];
    DistinctExtend(CredentialIds(cs), c.credentialId);
    DistinctExtend(Prefixes(cs), c.prefix);
    assert longer[|cs|] == c && forall i :: 0 <= i < |cs| ==> longer[i] == cs[i];
  }

  lemma CredentialsPrefix(cs: seq<Credential>, n: nat)
    requires n <= |cs| && CredentialsDistinct(cs)
    ensures CredentialsDistinct(cs[..n])
  {
    assert CredentialIds(cs[..n]) <= CredentialIds(cs) && Prefixes(cs[..n]) <= Prefixes(cs);
    DistinctPrefix(CredentialIds(cs[..n]), CredentialIds(cs));
    DistinctPrefix(Prefixes(cs[..n]), Prefixes(cs));
  }

  lemma PrefixFreeIsDistinct(prefixes: seq<string>)
    requires PrefixFree(prefixes)
    ensures Distinct(prefixes)
  {
    forall i, j | 0 <= i < j < |prefixes|
      ensures prefixes[i] != prefixes[j]
    {
      assert !(prefixes[i] <= prefixes[j]);
    }
  }

  lemma CredentialsRefused(cs: seq<Credential>, n: nat)
    requires n <= |cs| && !CredentialsDistinct(cs[..n])
    ensures !CredentialsOk(cs)
  {
    if CredentialsOk(cs) {
      PrefixFreeIsDistinct(Prefixes(cs));
      CredentialsPrefix(cs, n);
    }
  }

  method ValidateCredentials(cs: seq<Credential>) returns (ok: bool)
    ensures ok <==> CredentialsOk(cs)
  {
    var ids: set<Uuid> := {};
    var prefixes: set<string> := {};
    for n := 0 to |cs|
      invariant ids == Elements(CredentialIds(cs[..n])) && prefixes == Elements(Prefixes(cs[..n]))
      invariant CredentialsDistinct(cs[..n])
    {
      var c := cs[n];
      TakeOneMore(cs, n);
      CredentialsExtend(cs[..n], c);
      if !c.wellFormed || c.credentialId in ids || c.prefix in prefixes {
        CredentialsRefused(cs, n + 1);
        return false;
      }
      assert CredentialIds(cs[..n + 1]) == CredentialIds(cs[..n]) + [c.credentialId];
      assert Prefixes(cs[..n + 1]) == Prefixes(cs[..n]) + [c.prefix];
      ids, prefixes := ids + {c.credentialId}, prefixes + {c.prefix};
    }
    assert cs[..|cs|] == cs;
    ok := CheckPrefixes(Prefixes(cs));
  }

  /** McpGatewayProjection::validate accepts exactly the admissible projections. */
  method ValidateProjection(p: Projection) returns (ok: bool)
    ensures ok <==> Admissible(p)
  {
    if !p.current || |p.profiles| == 0 || |p.profiles| > 1000 || |p.routes| == 0 || |p.routes| > 1000
      || |p.credentials| > 10000
    {
      return false;
    }
    var profiles;
    ok, profiles := ValidateProfiles(p.profiles);
    if !ok {
      return;
    }
    ok := ValidateCredentials(p.credentials);
    if !ok {
      return;
    }
    ok := ValidateRoutes(p.routes, profiles, p.credentials, p.profiles);
  }

  // ---------------------------------------------------------------------------------------
  // What admission means

  lemma {:induction false} TargetPosition(rs: seq<Route>, r: nat, t: nat) returns (k: nat)
    requires r < |rs| && t < |rs[r].targets|
    ensures k == |AllTargets(rs[..r])| + t < |AllTargets(rs)|
    ensures AllTargets(rs)[k] == rs[r].targets[t]
  {
    k := |AllTargets(rs[..r])| + t;
    assert rs[..r + 1][..r] == rs[..r];
    assert AllTargets(rs[..r + 1]) == AllTargets(rs[..r]) + rs[r].targets;
    AllTargetsPrefix(rs, r + 1);
  }

  lemma EarlierRouteEarlierTarget(rs: seq<Route>, r: nat, t: nat, r': nat)
    requires r < r' < |rs| && t < |rs[r].targets|
    ensures |AllTargets(rs[..r])| + t < |AllTargets(rs[..r'])|
  {
    assert rs[..r + 1][..r] == rs[..r];
    assert rs[..r'][..r + 1] == rs[..r + 1];
    AllTargetsPrefix(rs[..r'], r + 1);
  }

  /** Nothing more is asked of them: targets may share a node, a unit or a generation, as long as no two
      share all three. */
  lemma RuntimesDistinctIff(ts: seq<Target>)
    ensures Distinct(Runtimes(ts)) <==>
            forall i, j :: 0 <= i < j < |ts| ==>
              ts[i].nodeId != ts[j].nodeId || ts[i].unitId != ts[j].unitId || ts[i].generation != ts[j].generation
  {
    assert forall i :: 0 <= i < |ts| ==> Runtimes(ts)[i] == RuntimeOf(ts[i]);
  }

  /** A text writes a time of at most `bound` milliseconds. */
  ghost predicate Takes(text: string, ms: nat, bound: nat) {
    bound <= U64_MAX && ParseDuration(text, bound) == Some(ms)
  }

  /** The timeouts of a route, exactly: the first response within five minutes, idling within an hour,
      the stream within a day and draining within ten minutes, and the stream outlasts the first
      response and the idling. */
  lemma TimeoutsIff(route: Route)
    ensures TimeoutsOk(route) <==>
            exists first, idle, total, drain ::
              && Takes(route.firstResponse, first, 5 * 60 * 1000)
              && Takes(route.streamIdle, idle, 60 * 60 * 1000)
              && Takes(route.streamTotal, total, 24 * 60 * 60 * 1000)
              && Takes(route.drain, drain, 10 * 60 * 1000)
              && first <= total && idle <= total
  {
    if TimeoutsOk(route) {
      assert Takes(route.firstResponse, ParseDuration(route.firstResponse, FIVE_MINUTES).value, 5 * 60 * 1000);
      assert Takes(route.streamIdle, ParseDuration(route.streamIdle, ONE_HOUR).value, 60 * 60 * 1000);
      assert Takes(route.streamTotal, ParseDuration(route.streamTotal, ONE_DAY).value, 24 * 60 * 60 * 1000);
      assert Takes(route.drain, ParseDuration(route.drain, TEN_MINUTES).value, 10 * 60 * 1000);
    }
  }

  predicate IsGreatest(m: U32, s: set<U32>) {
    m in s && forall x :: x in s ==> x <= m
  }

  lemma {:induction false} GreatestExists(s: set<U32>)
    requires s != {}
    ensures exists m :: IsGreatest(m, s)
  {
    var a :| a in s;
    if s == {a} {
      assert IsGreatest(a, s);
    } else {
      GreatestExists(s - {a});
      var m :| IsGreatest(m, s - {a});
      forall x | x in s
        ensures x <= a || x <= m
      {
        assert x == a || x in s - {a};
      }
      assert IsGreatest(if m <= a then a else m, s);
    }
  }

  /** A list of priorities leaves none out: with every one it holds all smaller ones. */
  lemma {:induction false} CountsFromZeroIff(ps: set<U32>)
    ensures CountsFromZero(ps) <==> forall p, q: U32 :: p in ps && q < p ==> q in ps
  {
    if forall p, q: U32 :: p in ps && q < p ==> q in ps {
      if ps == {} {
        assert ArePrioritiesBelow(ps, 0);
      } else {
        GreatestExists(ps);
        var m: U32 :| IsGreatest(m, ps);
        assert ArePrioritiesBelow(ps, m + 1);
      }
    }
  }

  /** The profile of a route bounds it. */
  predicate Bounds(profile: Profile, route: Route) {
    && route.profileDigest == profile.digest
    && 1 <= route.maxHeaderBytes <= 128 * 1024
    && 1 <= route.maxRequestBytes <= profile.maxRequestBytes
    && 1 <= route.maxResponseBytes <= profile.maxResponseBytes
  }

  /** The route's own fields, exactly. */
  lemma HeaderOkIff(route: Route, profiles: seq<Profile>)
    ensures HeaderOk(route, profiles) <==>
            && NIL !in {route.routeId, route.environmentId} && route.wellFormed
            && (exists i :: 0 <= i < |profiles| && Bounds(profiles[i], route))
            && TimeoutsOk(route)
            && 0 < |route.targets| <= 64
            && 0 < |route.grants| <= 10000
  {
    if exists p :: p in profiles && BoundsOk(route, p) {
      var p :| p in profiles && BoundsOk(route, p);
      var i :| 0 <= i < |profiles| && profiles[i] == p;
      assert Bounds(profiles[i], route);
    }
    forall i | 0 <= i < |profiles| && Bounds(profiles[i], route)
      ensures exists p :: p in profiles && BoundsOk(route, p)
    {
      assert profiles[i] in profiles && BoundsOk(route, profiles[i]);
    }
  }

  /** A target of an admitted route carries its profile and a weight. */
  lemma TargetOkIff(route: Route, t: Target)
    ensures TargetOk(route, t) <==>
            && NIL !in {t.targetId, t.nodeId, t.releaseId} && t.wellFormed
            && t.profileDigest == route.profileDigest && 1 <= t.weight
  {
  }

  lemma ServicesDistinctIff(ts: seq<Target>)
    ensures Distinct(Services(ts)) <==> forall i, j :: 0 <= i < j < |ts| ==> ts[i].service != ts[j].service
  {
    assert forall i :: 0 <= i < |ts| ==> Services(ts)[i] == ts[i].service;
  }

  /** The targets of an admitted route pass one by one, have services of their own, and the weights of
      one priority add up within 32 bits. */
  lemma TargetsOkIff(route: Route, ts: seq<Target>)
    ensures TargetsOk(route, ts) <==>
            && (forall i :: 0 <= i < |ts| ==> TargetOk(route, ts[i]))
            && (forall i, j :: 0 <= i < j < |ts| ==> ts[i].service != ts[j].service)
            && WeightsFit(ts)
    ensures WeightsFit(ts) <==> forall p: U32 :: WeightAt(ts, p) < 0x1_0000_0000
  {
    ServicesDistinctIff(ts);
    if WeightsFit(ts) {
      forall p: U32
        ensures WeightAt(ts, p) < 0x1_0000_0000
      {
        assert Fits(WeightAt(ts, p));
      }
    } else {
      var p: U32 :| !Fits(WeightAt(ts, p));
      assert WeightAt(ts, p) > U32_MAX;
    }
  }

  /** The grants of an admitted route name distinct credentials, each live, of the route's environment and
      at its current generation. */
  lemma GrantsOkIff(route: Route, gs: seq<Grant>, credentials: seq<Credential>)
    ensures GrantsOk(route, gs, credentials) <==>
            && (forall i, j :: 0 <= i < j < |gs| ==> gs[i].credentialId != gs[j].credentialId)
            && forall i :: 0 <= i < |gs| ==>
                 && gs[i].wellFormed
                 && exists k :: 0 <= k < |credentials| &&
                      var c := credentials[k];
                      && (c.credentialId, c.generation) == (gs[i].credentialId, gs[i].generation)
                      && c.environmentId == route.environmentId && !c.revoked
  {
    assert forall i :: 0 <= i < |gs| ==> GrantIds(gs)[i] == gs[i].credentialId;
    forall i | 0 <= i < |gs| && GrantOk(gs[i], route, credentials)
      ensures exists k :: 0 <= k < |credentials| && NamesCredential(gs[i], route, credentials[k])
    {
      var c :| c in credentials && NamesCredential(gs[i], route, c);
      var k :| 0 <= k < |credentials| && credentials[k] == c;
      assert NamesCredential(gs[i], route, credentials[k]);
    }
    forall i, k | 0 <= i < |gs| && 0 <= k < |credentials| && NamesCredential(gs[i], route, credentials[k]) && gs[i].wellFormed
      ensures GrantOk(gs[i], route, credentials)
    {
      assert credentials[k] in credentials;
    }
  }

  /** Across all routes of an admitted projection, a target id or a Runtime observation names one
      target of one route. */
  lemma TargetsDifferAcrossRoutes(p: Projection, r: nat, t: nat, r': nat, t': nat)
    requires Admissible(p)
    requires r < |p.routes| && t < |p.routes[r].targets| && r' < |p.routes| && t' < |p.routes[r'].targets|
    requires
      var x, y := p.routes[r].targets[t], p.routes[r'].targets[t'];
      || x.targetId == y.targetId
      || (x.nodeId == y.nodeId && x.unitId == y.unitId && x.generation == y.generation)
    ensures r == r' && t == t'
  {
    var all := AllTargets(p.routes);
    var k := TargetPosition(p.routes, r, t);
    var k' := TargetPosition(p.routes, r', t');
    assert TargetIds(all)[k] == all[k].targetId && TargetIds(all)[k'] == all[k'].targetId;
    assert Runtimes(all)[k] == RuntimeOf(all[k]) && Runtimes(all)[k'] == RuntimeOf(all[k']);
    assert k == k';
    if r < r' {
      EarlierRouteEarlierTarget(p.routes, r, t, r');
    } else if r' < r {
      EarlierRouteEarlierTarget(p.routes, r', t', r);
    }
  }

  /** Nor do two routes of an admitted projection share an id or a router. */
  lemma RoutesDiffer(p: Projection, r: nat, r': nat)
    requires Admissible(p) && r < |p.routes| && r' < |p.routes|
    requires p.routes[r].routeId == p.routes[r'].routeId || p.routes[r].router == p.routes[r'].router
    ensures r == r'
  {
    assert RouteIds(p.routes)[r] == p.routes[r].routeId && RouteIds(p.routes)[r'] == p.routes[r'].routeId;
    assert Routers(p.routes)[r] == p.routes[r].router && Routers(p.routes)[r'] == p.routes[r'].router;
  }

  /** A presented token starts with the prefix of at most one admitted credential. */
  lemma TokenMatchesOneCredential(p: Projection, token: string, c: Credential, d: Credential)
    requires Admissible(p) && c in p.credentials && d in p.credentials
    requires c.prefix <= token && d.prefix <= token
    ensures c == d
  {
    var i :| 0 <= i < |p.credentials| && p.credentials[i] == c;
    var j :| 0 <= j < |p.credentials| && p.credentials[j] == d;
    AtMostOnePrefixMatches(Prefixes(p.credentials), token, i, j);
  }

  /** And a grant names exactly one credential, live, of its own environment and generation. */
  lemma GrantNamesOneCredential(p: Projection, r: nat, g: nat) returns (c: Credential)
    requires Admissible(p) && r < |p.routes| && g < |p.routes[r].grants|
    ensures
      var grant := p.routes[r].grants[g];
      && c in p.credentials && c.credentialId == grant.credentialId && c.generation == grant.generation
      && c.environmentId == p.routes[r].environmentId && !c.revoked
    ensures forall d :: d in p.credentials && d.credentialId == p.routes[r].grants[g].credentialId ==> d == c
  {
    var route := p.routes[r];
    assert RouteOk(route, p.profiles, p.credentials);
    assert GrantOk(route.grants[g], route, p.credentials);
    c :| c in p.credentials && NamesCredential(route.grants[g], route, c);
    forall d | d in p.credentials && d.credentialId == route.grants[g].credentialId
      ensures d == c
    {
      CredentialIsUnique(p.credentials, d, c);
    }
  }
}
