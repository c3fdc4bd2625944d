/** The worklist of `resolve_manifest`: one version of every package, with the least features and the
    least dependency edges that satisfy every request. */
module Resolver {
  import opened Ir
  import opened Features

  datatype PackageId = PackageId(name: string, version: string)

  /** A package in the cache, with the checksum of its contents. */
  datatype Cached = Cached(manifest: Manifest, checksum: string)

  type Cache = map<PackageId, Cached>

  datatype Request = Request(id: PackageId, checksum: string, features: set<string>, default_features: bool,
      chain: seq<PackageId>)

  datatype ResolveError =
    | CycleDetected(chain: seq<PackageId>)
    | VersionConflict(id: PackageId)
    | ChecksumConflict(id: PackageId)
    | NotCached(id: PackageId)
    | IdentityMismatch(id: PackageId)
    | BadFeature(id: PackageId)
    | IntegrityError(id: PackageId)

  /** The root package with its selected features. */
  datatype Root = Root(id: PackageId, manifest: Manifest, features: set<string>)

  /** What is known of the packages reached so far. */
  datatype Graph = Graph(requested: map<PackageId, set<string>>, defaults: set<PackageId>,
      selected: map<PackageId, set<string>>, edges: map<PackageId, map<string, PackageId>>)

  datatype Resolution =
    | Resolved(graph: Graph, root_dependencies: map<string, PackageId>, versions: map<string, string>)
    | Failed(error: ResolveError)

  function DependencyId(dep: Dependency): PackageId {
    PackageId(dep.package, dep.version)
  }

  // ----- solutions -----

  /** The request that an active dependency makes is met. */
  ghost predicate Meets(g: Graph, dep: Dependency, forwarded: iset<string>) {
    && DependencyId(dep) in g.requested && dep.features <= g.requested[DependencyId(dep)]
    && (forall c :: c in forwarded ==> c in g.requested[DependencyId(dep)])
    && (dep.default_features ==> DependencyId(dep) in g.defaults)
  }

  ghost function ForwardedSet(m: Manifest, s: set<string>, alias: string): iset<string> {
    iset c | ForwardedTo(m, s, alias, c)
  }

  /** Every dependency that is active in `m` with the features `s` is met. */
  ghost predicate MeetsAll(g: Graph, m: Manifest, s: set<string>) {
    forall alias :: IsActive(m, s, alias) ==> Meets(g, m.dependencies[alias], ForwardedSet(m, s, alias))
  }

  ghost predicate PackageOk(cache: Cache, g: Graph, id: PackageId)
    requires id in g.requested && id in g.selected
  {
    id in cache && IsExpansion(cache[id].manifest, Wanted(cache[id].manifest, g.requested[id], id in g.defaults),
      g.selected[id])
  }

  /** Features and packages closed under feature expansion, optional enabling and forwarding from every
      parent. */
  ghost predicate IsSolution(cache: Cache, root: Root, g: Graph) {
    && g.requested.Keys == g.selected.Keys && g.defaults <= g.requested.Keys
    && MeetsAll(g, root.manifest, root.features)
    && (forall id :: id in g.requested ==> PackageOk(cache, g, id) && MeetsAll(g, cache[id].manifest, g.selected[id]))
  }

  /** Everything in `g` is in `h`. */
  ghost predicate Within(g: Graph, h: Graph) {
    && g.defaults <= h.defaults
    && (forall id :: id in g.requested ==> id in h.requested && g.requested[id] <= h.requested[id])
    && (forall id :: id in g.selected ==> id in h.selected && g.selected[id] <= h.selected[id])
  }

  /** The edges are the active dependencies. */
  ghost predicate EdgesRight(cache: Cache, g: Graph) {
    && g.edges.Keys == g.selected.Keys
    && forall id :: id in g.edges && id in g.selected && id in cache ==>
      EdgesOf(cache[id].manifest, g.selected[id], g.edges[id])
  }

  ghost predicate EdgesOf(m: Manifest, s: set<string>, edges: map<string, PackageId>) {
    && (forall alias :: alias in edges <==> IsActive(m, s, alias))
    && (forall alias :: alias in edges && alias in m.dependencies ==>
      edges[alias] == DependencyId(m.dependencies[alias]))
  }

  ghost predicate OneVersion(versions: map<string, string>, id: PackageId) {
    id.name in versions && versions[id.name] == id.version
  }

  // ----- the worklist -----

  ghost predicate Makes(r: Request, dep: Dependency, forwarded: iset<string>) {
    && r.id == DependencyId(dep) && r.checksum == dep.checksum && r.default_features == dep.default_features
    && dep.features <= r.features && forall c :: c in forwarded ==> c in r.features
  }

  ghost predicate Waiting(queue: seq<Request>, dep: Dependency, forwarded: iset<string>) {
    exists k :: 0 <= k < |queue| && Makes(queue[k], dep, forwarded)
  }

  /** Every active dependency is met, or its request is waiting. */
  ghost predicate MetOrWaiting(g: Graph, queue: seq<Request>, m: Manifest, s: set<string>) {
    forall alias :: IsActive(m, s, alias) ==> Handled(g, queue, m.dependencies[alias], ForwardedSet(m, s, alias))
  }

  ghost predicate Handled(g: Graph, queue: seq<Request>, dep: Dependency, forwarded: iset<string>) {
    Meets(g, dep, forwarded) || Waiting(queue, dep, forwarded)
  }

  /** `b` is an active dependency of `a`. */
  ghost predicate IsEdge(cache: Cache, root: Root, h: Graph, a: PackageId, b: PackageId) {
    if a == root.id then DependsOn(root.manifest, root.features, b)
    else a in cache && a in h.selected && DependsOn(cache[a].manifest, h.selected[a], b)
  }

  ghost predicate DependsOn(m: Manifest, s: set<string>, b: PackageId) {
    exists alias :: IsActive(m, s, alias) && DependencyId(m.dependencies[alias]) == b
  }

  /** An active dependency asks for package `id` with checksum `sum`. */
  ghost predicate AsksIn(m: Manifest, s: set<string>, id: PackageId, sum: string) {
    exists alias :: IsActive(m, s, alias) && DependencyId(m.dependencies[alias]) == id
      && m.dependencies[alias].checksum == sum
  }

  ghost predicate AsksFrom(cache: Cache, h: Graph, a: PackageId, id: PackageId, sum: string) {
    a in cache && a in h.selected && AsksIn(cache[a].manifest, h.selected[a], id, sum)
  }

  /** The root or some selected package asks for it. */
  ghost predicate Asks(cache: Cache, root: Root, h: Graph, id: PackageId, sum: string) {
    AsksIn(root.manifest, root.features, id, sum) || exists a :: AsksFrom(cache, h, a, id, sum)
  }

  /** A chain of active dependencies that starts at the root. */
  ghost predicate IsChain(cache: Cache, root: Root, h: Graph, chain: seq<PackageId>) {
    && chain != [] && chain[0] == root.id
    && forall k :: 0 <= k < |chain| - 1 ==> IsEdge(cache, root, h, chain[k], chain[k + 1])
  }

  /** A request that every solution has to meet, reached by a chain of dependencies of that solution. */
  ghost predicate Needed(cache: Cache, root: Root, r: Request, h: Graph) {
    && r.id in h.requested && r.features <= h.requested[r.id]
    && (r.default_features ==> r.id in h.defaults)
    && IsChain(cache, root, h, r.chain + [r.id])
    && Asks(cache, root, h, r.id, r.checksum)
  }

  ghost predicate AllNeeded(cache: Cache, root: Root, queue: seq<Request>, h: Graph) {
    forall k :: 0 <= k < |queue| ==> Needed(cache, root, queue[k], h)
  }

  /** What holds between requests. */
  ghost predicate Consistent(cache: Cache, root: Root, g: Graph, queue: seq<Request>) {
    && g.requested.Keys == g.selected.Keys && g.defaults <= g.requested.Keys && EdgesRight(cache, g)
    && MetOrWaiting(g, queue, root.manifest, root.features)
    && (forall id :: id in g.requested ==>
      PackageOk(cache, g, id) && MetOrWaiting(g, queue, cache[id].manifest, g.selected[id]))
    && (forall h: Graph :: IsSolution(cache, root, h) ==> Within(g, h) && AllNeeded(cache, root, queue, h))
  }

  ghost predicate VersionsOk(rootId: PackageId, g: Graph, queue: seq<Request>, versions: map<string, string>) {
    && OneVersion(versions, rootId)
    && (forall id :: id in g.requested ==> OneVersion(versions, id))
    && (forall k :: 0 <= k < |queue| ==> OneVersion(versions, queue[k].id))
  }

  /** `ensure_version` */
  method EnsureVersion(versions: map<string, string>, id: PackageId) returns (ok: bool, updated: map<string, string>)
    ensures ok ==> OneVersion(updated, id) && forall n :: n in versions ==> n in updated && updated[n] == versions[n]
    ensures ok ==> forall n :: n in updated ==> (n in versions && updated[n] == versions[n]) || n == id.name
    ensures !ok ==> id.name in versions && versions[id.name] != id.version
  {
    if id.name in versions {
      return versions[id.name] == id.version, versions;
    }
    return true, versions[id.name := id.version];
  }

  // ----- requests of one package -----

  ghost predicate RequestsFor(m: Manifest, s: set<string>, rest: set<string>, requests: seq<Request>,
      edges: map<string, PackageId>)
  {
    && (forall alias :: alias in edges <==> IsActive(m, s, alias) && alias !in rest)
    && (forall alias :: alias in edges && alias in m.dependencies ==>
      edges[alias] == DependencyId(m.dependencies[alias]))
    && (forall alias :: IsActive(m, s, alias) && alias !in rest ==>
      Waiting(requests, m.dependencies[alias], ForwardedSet(m, s, alias)))
    && (forall k :: 0 <= k < |requests| ==> Asked(m, s, requests[k]))
  }

  /** The request is exactly what some active dependency asks for. */
  ghost predicate Asked(m: Manifest, s: set<string>, r: Request) {
    exists alias :: IsActive(m, s, alias) && AskedBy(m, s, alias, r)
  }

  ghost predicate AskedBy(m: Manifest, s: set<string>, alias: string, r: Request) {
    && alias in m.dependencies && r.id == DependencyId(m.dependencies[alias])
    && r.checksum == m.dependencies[alias].checksum
    && r.default_features == m.dependencies[alias].default_features
    && forall c :: c in r.features ==> c in m.dependencies[alias].features || ForwardedTo(m, s, alias, c)
  }

  /** The requests of all active dependencies; fails on a second version of a package. */
  method RequestDependencies(m: Manifest, s: set<string>, chain: seq<PackageId>, versions0: map<string, string>)
    returns (ok: bool, requests: seq<Request>, edges: map<string, PackageId>, versions: map<string, string>,
      failed: PackageId)
    ensures ok ==> RequestsFor(m, s, {}, requests, edges)
    ensures Versioned(m, s, chain, versions0, versions, requests)
    ensures !ok ==> DependsOn(m, s, failed) && failed.name in versions && versions[failed.name] != failed.version
  {
    var active := ActiveDependencies(m, s);
    ok, requests, edges, versions, failed := true, [], map[], versions0, PackageId("", "");
    var rest := active.Keys;
    assert forall a :: a in active ==> a in m.dependencies;
    hide IsActive;
    hide OneVersion;
    while rest != {}
      invariant rest <= active.Keys
      invariant RequestsFor(m, s, rest, requests, edges)
      invariant Versioned(m, s, chain, versions0, versions, requests)
      decreases |rest|
    {
      var alias :| alias in rest;
      var dep := m.dependencies[alias];
      var versionOk, updated := EnsureVersion(versions, DependencyId(dep));
      if !versionOk {
        return false, requests, edges, versions, DependencyId(dep);
      }
      var r := Request(DependencyId(dep), dep.checksum, dep.features + active[alias], dep.default_features, chain);
      RequestedOne(m, s, rest, alias, r, requests, edges);
      VersionedOne(m, s, alias, chain, versions0, versions, updated, requests, r);
      hide RequestsFor;
      hide Versioned;
      versions := updated;
      requests := requests + [r];
      edges := edges[alias := DependencyId(dep)];
      rest := rest - {alias};
    }
  }

  /** A version comes from one of the requests. */
  ghost predicate AskedName(requests: seq<Request>, name: string, version: string) {
    exists k :: 0 <= k < |requests| && requests[k].id == PackageId(name, version)
  }

  /** All requests come from active dependencies, and all versions from the requests or from before. */
  ghost predicate Versioned(m: Manifest, s: set<string>, chain: seq<PackageId>, versions0: map<string, string>,
      versions: map<string, string>, requests: seq<Request>)
  {
    && (forall n :: n in versions0 ==> n in versions && versions[n] == versions0[n])
    && (forall n :: n in versions && n !in versions0 ==> AskedName(requests, n, versions[n]))
    && (forall k :: 0 <= k < |requests| ==>
      OneVersion(versions, requests[k].id) && requests[k].chain == chain && Asked(m, s, requests[k]))
  }

  lemma VersionedOne(m: Manifest, s: set<string>, alias: string, chain: seq<PackageId>, versions0: map<string, string>,
      known: map<string, string>, versions: map<string, string>, requests: seq<Request>, r: Request)
    requires Versioned(m, s, chain, versions0, known, requests) && IsActive(m, s, alias) && AskedBy(m, s, alias, r)
      && r.chain == chain
    requires OneVersion(versions, r.id) && forall n :: n in known ==> n in versions && versions[n] == known[n]
    requires forall n :: n in versions ==> (n in known && versions[n] == known[n]) || n == r.id.name
    ensures Versioned(m, s, chain, versions0, versions, requests + [r])
  {
    hide IsActive;
    hide AskedBy;
    var requests' := requests + [r];
    forall n | n in versions && n !in versions0
      ensures AskedName(requests', n, versions[n])
    {
      if n in known && versions[n] == known[n] {
        var k :| 0 <= k < |requests| && requests[k].id == PackageId(n, known[n]);
        assert requests'[k] == requests[k];
      } else {
        assert requests'[|requests|] == r;
      }
    }
    forall k | 0 <= k < |requests'|
      ensures OneVersion(versions, requests'[k].id) && requests'[k].chain == chain && Asked(m, s, requests'[k])
    {
      if k < |requests| {
        assert OneVersion(known, requests[k].id) && Asked(m, s, requests[k]);
      }
    }
  }

  lemma RequestedOne(m: Manifest, s: set<string>, rest: set<string>, alias: string, r: Request, requests: seq<Request>,
      edges: map<string, PackageId>)
    requires RequestsFor(m, s, rest, requests, edges) && alias in rest && IsActive(m, s, alias)
    requires r.id == DependencyId(m.dependencies[alias]) && r.checksum == m.dependencies[alias].checksum
    requires r.default_features == m.dependencies[alias].default_features
    requires forall c :: c in r.features <==> c in m.dependencies[alias].features || ForwardedTo(m, s, alias, c)
    ensures AskedBy(m, s, alias, r)
    ensures RequestsFor(m, s, rest - {alias}, requests + [r], edges[alias := r.id])
  {
    hide SwitchesOn;
    hide ForwardedTo;
    var requests' := requests + [r];
    assert AskedBy(m, s, alias, r);
    assert requests'[|requests|] == r;
    forall a | IsActive(m, s, a) && a !in rest - {alias}
      ensures a in m.dependencies && Waiting(requests', m.dependencies[a], ForwardedSet(m, s, a))
    {
      if a == alias {
        assert Makes(requests'[|requests|], m.dependencies[a], ForwardedSet(m, s, a));
      } else {
        var k :| 0 <= k < |requests| && Makes(requests[k], m.dependencies[a], ForwardedSet(m, s, a));
        assert requests'[k] == requests[k];
      }
    }
    forall k | 0 <= k < |requests'|
      ensures Asked(m, s, requests'[k])
    {
      assert k < |requests| ==> Asked(m, s, requests[k]);
    }
  }

  // ----- one request -----

  function Requested(g: Graph, id: PackageId): set<string> {
    if id in g.requested then g.requested[id] else {}
  }

  function WithDefault(g: Graph, r: Request): set<PackageId> {
    if r.default_features then g.defaults + {r.id} else g.defaults
  }

  /** The request asks for nothing new. */
  predicate IsMet(g: Graph, r: Request) {
    && r.id in g.requested && r.features <= g.requested[r.id] && (r.default_features ==> r.id in g.defaults)
  }

  function Updated(g: Graph, r: Request, selected: set<string>, edges: map<string, PackageId>): Graph {
    Graph(g.requested[r.id := Requested(g, r.id) + r.features], WithDefault(g, r), g.selected[r.id := selected],
      g.edges[r.id := edges])
  }

  /** Whatever was met or waiting still is, once the first request is met. */
  lemma StillHandled(g: Graph, h: Graph, r: Request, queue: seq<Request>, more: seq<Request>, dep: Dependency,
      forwarded: iset<string>)
    requires Handled(g, [r] + queue, dep, forwarded) && IsMet(h, r) && g.defaults <= h.defaults
    requires forall id :: id in g.requested ==> id in h.requested && g.requested[id] <= h.requested[id]
    ensures Handled(h, queue + more, dep, forwarded)
  {
    if !Meets(g, dep, forwarded) {
      var k :| 0 <= k < |[r] + queue| && Makes(([r] + queue)[k], dep, forwarded);
      if k > 0 {
        assert (queue + more)[k - 1] == ([r] + queue)[k];
      }
    }
  }

  lemma StillAllHandled(g: Graph, h: Graph, r: Request, queue: seq<Request>, more: seq<Request>, m: Manifest,
      s: set<string>)
    requires MetOrWaiting(g, [r] + queue, m, s) && IsMet(h, r) && g.defaults <= h.defaults
    requires forall id :: id in g.requested ==> id in h.requested && g.requested[id] <= h.requested[id]
    ensures MetOrWaiting(h, queue + more, m, s)
  {
    forall alias | IsActive(m, s, alias)
      ensures Handled(h, queue + more, m.dependencies[alias], ForwardedSet(m, s, alias))
    {
      StillHandled(g, h, r, queue, more, m.dependencies[alias], ForwardedSet(m, s, alias));
    }
  }

  /** A request that asks for nothing new can be dropped. */
  lemma DropRequest(cache: Cache, root: Root, g: Graph, r: Request, queue: seq<Request>)
    requires Consistent(cache, root, g, [r] + queue) && IsMet(g, r)
    ensures Consistent(cache, root, g, queue)
  {
    hide PackageOk;
    hide IsSolution;
    hide Within;
    hide EdgesRight;
    assert queue + [] == queue;
    hide MetOrWaiting;
    StillAllHandled(g, g, r, queue, [], root.manifest, root.features);
    forall id | id in g.requested
      ensures id in cache && PackageOk(cache, g, id) && MetOrWaiting(g, queue, cache[id].manifest, g.selected[id])
    {
      InCache(cache, g, id);
      StillAllHandled(g, g, r, queue, [], cache[id].manifest, g.selected[id]);
    }
    forall h: Graph | IsSolution(cache, root, h)
      ensures Within(g, h) && AllNeeded(cache, root, queue, h)
    {
      DropFirst(cache, root, r, queue, h);
    }
  }

  lemma InCache(cache: Cache, g: Graph, id: PackageId)
    requires id in g.requested && id in g.selected && PackageOk(cache, g, id)
    ensures id in cache
  {}

  lemma DropFirst(cache: Cache, root: Root, r: Request, queue: seq<Request>, h: Graph)
    requires AllNeeded(cache, root, [r] + queue, h)
    ensures Needed(cache, root, r, h) && AllNeeded(cache, root, queue, h)
  {
    hide Needed;
    assert ([r] + queue)[0] == r;
    forall k | 0 <= k < |queue|
      ensures Needed(cache, root, queue[k], h)
    {
      assert ([r] + queue)[k + 1] == queue[k];
    }
  }

  /** What a package has to select, every solution selects. */
  lemma SelectedWithin(cache: Cache, root: Root, g: Graph, r: Request, h: Graph)
    requires IsSolution(cache, root, h) && Within(g, h) && Needed(cache, root, r, h)
    ensures r.id in cache && r.id in h.selected
    ensures var m := cache[r.id].manifest;
      Closed(m, h.selected[r.id]) && AllOk(m, h.selected[r.id]) && MeetsAll(h, m, h.selected[r.id]) &&
      Wanted(m, Requested(g, r.id) + r.features, r.id in WithDefault(g, r)) <= h.selected[r.id]
  {
    hide IsChain;
    hide MeetsAll;
    hide Closed;
    hide AllOk;
    assert PackageOk(cache, h, r.id);
    assert Wanted(cache[r.id].manifest, h.requested[r.id], r.id in h.defaults) <= h.selected[r.id];
  }

  /** What an active dependency asks for, every solution meets. */
  lemma AskedNeeded(cache: Cache, root: Root, h: Graph, m: Manifest, s: set<string>, t: set<string>, parent: Request,
      child: Request)
    requires s <= t && MeetsAll(h, m, t) && Asked(m, s, child) && child.chain == parent.chain + [parent.id]
    requires IsChain(cache, root, h, parent.chain + [parent.id])
    requires forall b :: DependsOn(m, t, b) ==> IsEdge(cache, root, h, parent.id, b)
    requires forall b, sum :: AsksIn(m, t, b, sum) ==> Asks(cache, root, h, b, sum)
    ensures Needed(cache, root, child, h)
  {
    var alias :| IsActive(m, s, alias) && AskedBy(m, s, alias, child);
    ActiveGrows(m, s, t, alias);
    hide SwitchesOn;
    hide ForwardedTo;
    hide IsEdge;
    hide Asks;
    assert IsActive(m, t, alias);
    assert AsksIn(m, t, child.id, child.checksum);
    assert Meets(h, m.dependencies[alias], ForwardedSet(m, t, alias));
    assert DependsOn(m, t, child.id);
    LongerChain(cache, root, h, parent.chain + [parent.id], child.id);
  }

  lemma LongerChain(cache: Cache, root: Root, h: Graph, chain: seq<PackageId>, b: PackageId)
    requires IsChain(cache, root, h, chain) && IsEdge(cache, root, h, chain[|chain| - 1], b)
    ensures IsChain(cache, root, h, chain + [b])
  {
    hide IsEdge;
    var longer := chain + [b];
    forall k | 0 <= k < |longer| - 1
      ensures IsEdge(cache, root, h, longer[k], longer[k + 1])
    {
      if k < |chain| - 1 {
        assert longer[k] == chain[k] && longer[k + 1] == chain[k + 1];
      }
    }
  }

  /** What the step of one package gives. */
  ghost predicate Expanded(cache: Cache, g: Graph, r: Request, selected: set<string>, edges: map<string, PackageId>,
      more: seq<Request>)
  {
    && r.id in cache && r.chain != [] && r.id !in r.chain
    && IsExpansion(cache[r.id].manifest,
      Wanted(cache[r.id].manifest, Requested(g, r.id) + r.features, r.id in WithDefault(g, r)), selected)
    && RequestsFor(cache[r.id].manifest, selected, {}, more, edges)
    && forall k :: 0 <= k < |more| ==> more[k].chain == r.chain + [r.id]
  }

  lemma UpdateNeeded(cache: Cache, root: Root, g: Graph, r: Request, queue: seq<Request>, selected: set<string>,
      edges: map<string, PackageId>, more: seq<Request>, h: Graph)
    requires IsSolution(cache, root, h) && Within(g, h) && AllNeeded(cache, root, [r] + queue, h)
    requires Expanded(cache, g, r, selected, edges, more)
    ensures Within(Updated(g, r, selected, edges), h) && AllNeeded(cache, root, queue + more, h)
  {
    hide IsSolution;
    hide Needed;
    hide IsExpansion;
    hide RequestsFor;
    DropFirst(cache, root, r, queue, h);
    SelectedWithin(cache, root, g, r, h);
    LeastSelected(cache, g, r, selected, edges, more, h.selected[r.id]);
    NeededParts(cache, root, r, h);
    forall k | 0 <= k < |more|
      ensures Needed(cache, root, more[k], h)
    {
      MoreNeeded(cache, root, g, r, selected, edges, more, h, k);
    }
    hide Expanded;
  }

  lemma LeastSelected(cache: Cache, g: Graph, r: Request, selected: set<string>, edges: map<string, PackageId>,
      more: seq<Request>, t: set<string>)
    requires Expanded(cache, g, r, selected, edges, more) && Closed(cache[r.id].manifest, t)
    requires Wanted(cache[r.id].manifest, Requested(g, r.id) + r.features, r.id in WithDefault(g, r)) <= t
    ensures selected <= t
  {
    hide RequestsFor;
    hide Closed;
    hide AllOk;
  }

  lemma NeededParts(cache: Cache, root: Root, r: Request, h: Graph)
    requires Needed(cache, root, r, h)
    ensures r.id in h.requested && r.features <= h.requested[r.id] && (r.default_features ==> r.id in h.defaults)
  {}

  lemma MoreNeeded(cache: Cache, root: Root, g: Graph, r: Request, selected: set<string>, edges: map<string, PackageId>,
      more: seq<Request>, h: Graph, k: nat)
    requires Expanded(cache, g, r, selected, edges, more) && k < |more| && Needed(cache, root, r, h)
    requires r.id in h.selected && selected <= h.selected[r.id] && MeetsAll(h, cache[r.id].manifest, h.selected[r.id])
    ensures Needed(cache, root, more[k], h)
  {
    hide IsExpansion;
    hide DependsOn;
    assert (r.chain + [r.id])[0] == r.chain[0];
    assert r.chain[0] in r.chain;
    assert Asked(cache[r.id].manifest, selected, more[k]);
    hide RequestsFor;
    hide AsksIn;
    forall b, sum | AsksIn(cache[r.id].manifest, h.selected[r.id], b, sum)
      ensures Asks(cache, root, h, b, sum)
    {
      assert AsksFrom(cache, h, r.id, b, sum);
    }
    AskedNeeded(cache, root, h, cache[r.id].manifest, selected, h.selected[r.id], r, more[k]);
  }

  lemma UpdateConsistent(cache: Cache, root: Root, g: Graph, r: Request, queue: seq<Request>, selected: set<string>,
      edges: map<string, PackageId>, more: seq<Request>)
    requires Consistent(cache, root, g, [r] + queue) && Expanded(cache, g, r, selected, edges, more)
    ensures Consistent(cache, root, Updated(g, r, selected, edges), queue + more)
  {
    var g' := Updated(g, r, selected, edges);
    hide Expanded;
    hide IsSolution;
    hide Within;
    hide AllNeeded;
    hide MetOrWaiting;
    hide PackageOk;
    UpdatedEdges(cache, g, r, selected, edges, more);
    hide EdgesRight;
    StillAllHandled(g, g', r, queue, more, root.manifest, root.features);
    forall id | id in g'.requested
      ensures id in cache && PackageOk(cache, g', id)
        && MetOrWaiting(g', queue + more, cache[id].manifest, g'.selected[id])
    {
      if id == r.id {
        UpdatedPackage(cache, g, r, queue, selected, edges, more);
      } else {
        OtherPackage(cache, g, r, selected, edges, id);
        StillAllHandled(g, g', r, queue, more, cache[id].manifest, g.selected[id]);
      }
    }
    forall h: Graph | IsSolution(cache, root, h)
      ensures Within(g', h) && AllNeeded(cache, root, queue + more, h)
    {
      UpdateNeeded(cache, root, g, r, queue, selected, edges, more, h);
    }
  }

  lemma UpdatedPackage(cache: Cache, g: Graph, r: Request, queue: seq<Request>, selected: set<string>,
      edges: map<string, PackageId>, more: seq<Request>)
    requires Expanded(cache, g, r, selected, edges, more)
    ensures var g' := Updated(g, r, selected, edges);
      r.id in cache && PackageOk(cache, g', r.id) && MetOrWaiting(g', queue + more, cache[r.id].manifest, selected)
  {
    hide IsExpansion;
    hide RequestsFor;
    hide MetOrWaiting;
    AllWaiting(Updated(g, r, selected, edges), queue, more, cache[r.id].manifest, selected, edges);
  }

  lemma OtherPackage(cache: Cache, g: Graph, r: Request, selected: set<string>, edges: map<string, PackageId>,
      id: PackageId)
    requires id in g.requested && id in g.selected && id != r.id && PackageOk(cache, g, id)
    ensures id in cache && PackageOk(cache, Updated(g, r, selected, edges), id)
  {
    hide IsExpansion;
  }

  lemma UpdatedEdges(cache: Cache, g: Graph, r: Request, selected: set<string>, edges: map<string, PackageId>,
      more: seq<Request>)
    requires EdgesRight(cache, g) && Expanded(cache, g, r, selected, edges, more)
    ensures EdgesRight(cache, Updated(g, r, selected, edges))
  {
    hide EdgesOf;
    hide IsExpansion;
    hide RequestsFor;
    EdgesFromRequests(cache[r.id].manifest, selected, edges, more);
  }

  lemma EdgesFromRequests(m: Manifest, s: set<string>, edges: map<string, PackageId>, more: seq<Request>)
    requires RequestsFor(m, s, {}, more, edges)
    ensures EdgesOf(m, s, edges)
  {
    hide IsActive;
    hide Asked;
    hide Waiting;
  }

  lemma AllWaiting(g: Graph, queue: seq<Request>, more: seq<Request>, m: Manifest, s: set<string>,
      edges: map<string, PackageId>)
    requires RequestsFor(m, s, {}, more, edges)
    ensures MetOrWaiting(g, queue + more, m, s)
  {
    hide IsActive;
    hide ForwardedTo;
    forall alias | IsActive(m, s, alias)
      ensures alias in m.dependencies && Handled(g, queue + more, m.dependencies[alias], ForwardedSet(m, s, alias))
    {
      OnlyListed(m, s, alias);
      var k :| 0 <= k < |more| && Makes(more[k], m.dependencies[alias], ForwardedSet(m, s, alias));
      assert (queue + more)[|queue| + k] == more[k];
    }
  }

  lemma OnlyListed(m: Manifest, s: set<string>, alias: string)
    requires IsActive(m, s, alias)
    ensures alias in m.dependencies
  {}

  // ----- versions -----

  /** Two versions of one package would be needed. */
  ghost predicate SingleVersions(root: Root, h: Graph) {
    forall a, b :: (a in h.requested || a == root.id) && (b in h.requested || b == root.id) && a.name == b.name ==>
      a == b
  }

  /** Every version recorded is that of a package every solution needs. */
  ghost predicate VersionsNeeded(root: Root, versions: map<string, string>, h: Graph) {
    forall n :: n in versions ==> PackageId(n, versions[n]) == root.id || PackageId(n, versions[n]) in h.requested
  }

  lemma VersionsStillNeeded(cache: Cache, root: Root, m: Manifest, s: set<string>, t: set<string>,
      chain: seq<PackageId>,
      versions0: map<string, string>, versions: map<string, string>, requests: seq<Request>, h: Graph)
    requires Versioned(m, s, chain, versions0, versions, requests) && s <= t && MeetsAll(h, m, t)
      && VersionsNeeded(root, versions0, h)
    ensures VersionsNeeded(root, versions, h)
    ensures forall failed: PackageId ::
      (DependsOn(m, s, failed) && failed.name in versions && versions[failed.name] != failed.version) ==>
        !SingleVersions(root, h)
  {
    hide IsActive;
    forall b | DependsOn(m, s, b)
      ensures b in h.requested
    {
      DependencyMet(m, s, t, b, h);
    }
    forall n | n in versions
      ensures PackageId(n, versions[n]) == root.id || PackageId(n, versions[n]) in h.requested
    {
      if n !in versions0 {
        var k :| 0 <= k < |requests| && requests[k].id == PackageId(n, versions[n]);
        AskedDepends(m, s, requests[k]);
      }
    }
  }

  lemma DependencyMet(m: Manifest, s: set<string>, t: set<string>, b: PackageId, h: Graph)
    requires s <= t && MeetsAll(h, m, t) && DependsOn(m, s, b)
    ensures b in h.requested
  {
    var alias :| IsActive(m, s, alias) && DependencyId(m.dependencies[alias]) == b;
    ActiveGrows(m, s, t, alias);
    hide SwitchesOn;
    hide ForwardedTo;
    assert IsActive(m, t, alias);
  }

  lemma AskedDepends(m: Manifest, s: set<string>, r: Request)
    requires Asked(m, s, r)
    ensures DependsOn(m, s, r.id)
  {
    hide ForwardedTo;
    var alias :| IsActive(m, s, alias) && AskedBy(m, s, alias, r);
    hide SwitchesOn;
  }

  // ----- termination -----

  /** The features of cached packages that have not been requested yet. */
  ghost function Unrequested(cache: Cache, g: Graph): set<(PackageId, string)> {
    set id, f | id in cache && f in cache[id].manifest.features && !(id in g.requested && f in g.requested[id]) ::
      (id, f)
  }

  ghost function Remaining(cache: Cache, g: Graph): nat {
    |Unrequested(cache, g)| + |cache.Keys - g.defaults| + |cache.Keys - g.requested.Keys|
  }

  /** A request that asks for something new leaves less to ask for. */
  lemma RemainingShrinks(cache: Cache, g: Graph, r: Request, selected: set<string>, edges: map<string, PackageId>,
      more: seq<Request>)
    requires Expanded(cache, g, r, selected, edges, more) && !IsMet(g, r)
    ensures Remaining(cache, Updated(g, r, selected, edges)) < Remaining(cache, g)
  {
    var g' := Updated(g, r, selected, edges);
    hide IsExpansion;
    hide RequestsFor;
    UnrequestedShrinks(cache, g, r, selected, edges, more);
    hide Unrequested;
    Smaller(cache.Keys - g'.defaults, cache.Keys - g.defaults);
    Smaller(cache.Keys - g'.requested.Keys, cache.Keys - g.requested.Keys);
    if r.default_features && r.id !in g.defaults {
      assert r.id in cache.Keys - g.defaults && r.id !in cache.Keys - g'.defaults;
    }
    if r.id !in g.requested {
      assert r.id in cache.Keys - g.requested.Keys && r.id !in cache.Keys - g'.requested.Keys;
    }
  }

  lemma UnrequestedShrinks(cache: Cache, g: Graph, r: Request, selected: set<string>, edges: map<string, PackageId>,
      more: seq<Request>)
    requires Expanded(cache, g, r, selected, edges, more)
    ensures
      var before, after := Unrequested(cache, g), Unrequested(cache, Updated(g, r, selected, edges));
      |after| <= |before| && (r.id in g.requested && !(r.features <= g.requested[r.id]) ==> |after| < |before|)
  {
    var before, after := Unrequested(cache, g), Unrequested(cache, Updated(g, r, selected, edges));
    hide IsExpansion;
    hide RequestsFor;
    assert after <= before;
    Smaller(after, before);
    if r.id in g.requested && !(r.features <= g.requested[r.id]) {
      var f :| f in r.features && f !in g.requested[r.id];
      RequestedDefined(cache, g, r, selected, edges, more, f);
      assert (r.id, f) in before && (r.id, f) !in after;
    }
  }

  lemma RequestedDefined(cache: Cache, g: Graph, r: Request, selected: set<string>, edges: map<string, PackageId>,
      more: seq<Request>, f: string)
    requires Expanded(cache, g, r, selected, edges, more) && f in r.features
    ensures f in cache[r.id].manifest.features
  {
    hide RequestsFor;
    hide Closed;
    assert f in selected;
  }

  lemma Smaller<T>(s: set<T>, t: set<T>)
    requires s <= t
    ensures |s| <= |t| && (s != t ==> |s| < |t|)
  {
    assert t == s + (t - s);
    assert s != t ==> t - s != {};
  }

  // ----- the resolver -----

  ghost predicate ChainsStart(queue: seq<Request>) {
    forall k :: 0 <= k < |queue| ==> queue[k].chain != []
  }

  ghost predicate NoSolution(cache: Cache, root: Root) {
    forall h: Graph :: !IsSolution(cache, root, h)
  }

  /** What each error means for the solutions of the problem. */
  ghost predicate ErrorRight(cache: Cache, root: Root, error: ResolveError) {
    match error
    case CycleDetected(chain) =>
      |chain| > 0 && chain[|chain| - 1] in chain[..|chain| - 1] && forall h: Graph :: IsSolution(cache, root, h) ==>
        IsChain(cache, root, h, chain)
    case VersionConflict(_) => forall h: Graph :: IsSolution(cache, root, h) ==> !SingleVersions(root, h)
    case NotCached(_) => NoSolution(cache, root)
    case BadFeature(_) => NoSolution(cache, root)
    case ChecksumConflict(id) => forall h: Graph :: IsSolution(cache, root, h) ==> AsksTwo(cache, root, h, id)
    case IdentityMismatch(id) =>
      !IdentityOk(cache, id) && forall h: Graph :: IsSolution(cache, root, h) ==> id in h.requested
    case IntegrityError(id) => forall h: Graph :: IsSolution(cache, root, h) ==> AsksOther(cache, root, h, id)
  }

  /** Two dependencies ask for the package with different checksums. */
  ghost predicate AsksTwo(cache: Cache, root: Root, h: Graph, id: PackageId) {
    exists a, b :: a != b && Asks(cache, root, h, id, a) && Asks(cache, root, h, id, b)
  }

  /** The package is in the cache under its own name and version. */
  predicate IdentityOk(cache: Cache, id: PackageId) {
    id in cache && cache[id].manifest.name == id.name && cache[id].manifest.version == id.version
  }

  /** A dependency asks for the package with a checksum that the cached one does not have. */
  ghost predicate AsksOther(cache: Cache, root: Root, h: Graph, id: PackageId) {
    id in cache && exists sum :: sum != cache[id].checksum && Asks(cache, root, h, id, sum)
  }

  /** Every package is the one its name and version say, with the checksum that every dependency on it
      asks for. */
  ghost predicate Authentic(cache: Cache, root: Root, g: Graph) {
    && (forall id :: id in g.requested ==> IdentityOk(cache, id))
    && (forall id, sum :: Asks(cache, root, g, id, sum) ==> id in g.requested && cache[id].checksum == sum)
  }

  /** The least solution, with its edges, and with one version and the right contents of every package. */
  ghost predicate ResolvedRight(cache: Cache, root: Root, g: Graph, versions: map<string, string>) {
    && IsSolution(cache, root, g) && EdgesRight(cache, g)
    && (forall h: Graph :: IsSolution(cache, root, h) ==> Within(g, h))
    && OneVersion(versions, root.id) && (forall id :: id in g.requested ==> OneVersion(versions, id))
    && Authentic(cache, root, g)
  }

  // ----- checksums -----

  /** The checksum of the dependency has been recorded for its package, or its request is waiting. */
  ghost predicate SumHandled(checksums: map<PackageId, string>, queue: seq<Request>, id: PackageId, sum: string) {
    (id in checksums && checksums[id] == sum) || SumWaiting(queue, id, sum)
  }

  ghost predicate SumWaiting(queue: seq<Request>, id: PackageId, sum: string) {
    exists k :: 0 <= k < |queue| && queue[k].id == id && queue[k].checksum == sum
  }

  ghost predicate SumsHandled(checksums: map<PackageId, string>, queue: seq<Request>, m: Manifest, s: set<string>) {
    forall id, sum :: AsksIn(m, s, id, sum) ==> SumHandled(checksums, queue, id, sum)
  }

  /** Checksums have been recorded for the packages reached, which have their own names, and every
      checksum asked for is recorded or waiting. */
  ghost predicate ChecksumsOk(cache: Cache, root: Root, g: Graph, checksums: map<PackageId, string>,
      queue: seq<Request>)
  {
    && checksums.Keys == g.requested.Keys && SumsHandled(checksums, queue, root.manifest, root.features)
    && (forall id :: id in g.requested ==> IdentityOk(cache, id))
    && (forall id :: id in g.selected && id in cache ==>
      SumsHandled(checksums, queue, cache[id].manifest, g.selected[id]))
  }

  /** Every solution asks for the checksums recorded. */
  ghost predicate AlwaysAsked(cache: Cache, root: Root, checksums: map<PackageId, string>) {
    forall h: Graph, id :: IsSolution(cache, root, h) && id in checksums ==> Asks(cache, root, h, id, checksums[id])
  }

  /** What is recorded differs from the cache only for packages that have been noted down. */
  ghost predicate Noted(cache: Cache, root: Root, checksums: map<PackageId, string>, integrity: seq<PackageId>) {
    && (forall k :: 0 <= k < |integrity| ==> ErrorRight(cache, root, IntegrityError(integrity[k])))
    && (integrity == [] ==> forall id :: id in checksums && id in cache ==> checksums[id] == cache[id].checksum)
  }

  /** The checksum of the request at the head of the queue is recorded. */
  lemma RecordedSum(checksums: map<PackageId, string>, r: Request, rest: seq<Request>, more: seq<Request>, m: Manifest,
      s: set<string>)
    requires SumsHandled(checksums, [r] + rest, m, s)
    requires r.id in checksums ==> checksums[r.id] == r.checksum
    ensures SumsHandled(checksums[r.id := r.checksum], rest + more, m, s)
  {
    hide AsksIn;
    forall id, sum | AsksIn(m, s, id, sum)
      ensures SumHandled(checksums[r.id := r.checksum], rest + more, id, sum)
    {
      assert SumHandled(checksums, [r] + rest, id, sum);
      if SumWaiting([r] + rest, id, sum) {
        var k :| 0 <= k < |[r] + rest| && ([r] + rest)[k].id == id && ([r] + rest)[k].checksum == sum;
        assert k > 0 ==> (rest + more)[k - 1] == ([r] + rest)[k];
      }
    }
  }

  lemma MoreSums(checksums: map<PackageId, string>, rest: seq<Request>, m: Manifest, s: set<string>, more: seq<Request>,
      edges: map<string, PackageId>)
    requires RequestsFor(m, s, {}, more, edges)
    ensures SumsHandled(checksums, rest + more, m, s)
  {
    assert forall alias :: IsActive(m, s, alias) ==> alias in m.dependencies;
    hide IsActive;
    hide Asked;
    forall id, sum | AsksIn(m, s, id, sum)
      ensures SumWaiting(rest + more, id, sum)
    {
      var alias :| IsActive(m, s, alias) && DependencyId(m.dependencies[alias]) == id
        && m.dependencies[alias].checksum == sum;
      assert Waiting(more, m.dependencies[alias], ForwardedSet(m, s, alias));
      var k :| 0 <= k < |more| && Makes(more[k], m.dependencies[alias], ForwardedSet(m, s, alias));
      assert (rest + more)[|rest| + k] == more[k];
    }
  }

  lemma DropChecksums(cache: Cache, root: Root, g: Graph, checksums: map<PackageId, string>, r: Request,
      rest: seq<Request>)
    requires ChecksumsOk(cache, root, g, checksums, [r] + rest) && IsMet(g, r)
      && (r.id in checksums ==> checksums[r.id] == r.checksum)
    ensures ChecksumsOk(cache, root, g, checksums, rest)
  {
    assert checksums[r.id := r.checksum] == checksums && rest + [] == rest;
    RecordedSum(checksums, r, rest, [], root.manifest, root.features);
    hide SumsHandled;
    forall id | id in g.selected && id in cache
      ensures SumsHandled(checksums, rest, cache[id].manifest, g.selected[id])
    {
      RecordedSum(checksums, r, rest, [], cache[id].manifest, g.selected[id]);
    }
  }

  lemma UpdateChecksums(cache: Cache, root: Root, g: Graph, checksums: map<PackageId, string>, r: Request,
      rest: seq<Request>,
      selected: set<string>, edges: map<string, PackageId>, more: seq<Request>)
    requires ChecksumsOk(cache, root, g, checksums, [r] + rest) && (r.id in checksums ==> checksums[r.id] == r.checksum)
    requires Expanded(cache, g, r, selected, edges, more) && IdentityOk(cache, r.id)
    ensures ChecksumsOk(cache, root, Updated(g, r, selected, edges), checksums[r.id := r.checksum], rest + more)
  {
    var sums, g' := checksums[r.id := r.checksum], Updated(g, r, selected, edges);
    RecordedSum(checksums, r, rest, more, root.manifest, root.features);
    MoreSums(sums, rest, cache[r.id].manifest, selected, more, edges);
    hide SumsHandled;
    hide IsExpansion;
    hide RequestsFor;
    forall id | id in g'.selected && id in cache
      ensures SumsHandled(sums, rest + more, cache[id].manifest, g'.selected[id])
    {
      if id != r.id {
        RecordedSum(checksums, r, rest, more, cache[id].manifest, g.selected[id]);
      }
    }
  }

  lemma StartChecksums(cache: Cache, root: Root, queue: seq<Request>, edges: map<string, PackageId>)
    requires RequestsFor(root.manifest, root.features, {}, queue, edges)
    ensures ChecksumsOk(cache, root, Graph(map[], {}, map[], map[]), map[], queue)
  {
    MoreSums(map[], [], root.manifest, root.features, queue, edges);
    assert [] + queue == queue;
    hide RequestsFor;
    hide SumsHandled;
  }

  lemma RecordAsked(cache: Cache, root: Root, g: Graph, r: Request, rest: seq<Request>,
      checksums: map<PackageId, string>)
    requires Consistent(cache, root, g, [r] + rest) && AlwaysAsked(cache, root, checksums)
    ensures AlwaysAsked(cache, root, checksums[r.id := r.checksum])
    ensures r.id in checksums && checksums[r.id] != r.checksum ==> ErrorRight(cache, root, ChecksumConflict(r.id))
    ensures r.id in cache && cache[r.id].checksum != r.checksum ==> ErrorRight(cache, root, IntegrityError(r.id))
    ensures r.id in cache && !IdentityOk(cache, r.id) ==> ErrorRight(cache, root, IdentityMismatch(r.id))
  {
    hide Consistent;
    hide IsSolution;
    forall h: Graph | IsSolution(cache, root, h)
      ensures r.id in h.requested && Asks(cache, root, h, r.id, r.checksum)
      ensures r.id in checksums && checksums[r.id] != r.checksum ==> AsksTwo(cache, root, h, r.id)
    {
      HeadNeeded(cache, root, g, r, rest, h);
      hide Asks;
      hide IsChain;
      assert r.id in checksums ==> Asks(cache, root, h, r.id, checksums[r.id]);
    }
    hide Asks;
  }

  lemma NoteSum(cache: Cache, root: Root, checksums: map<PackageId, string>, integrity: seq<PackageId>, r: Request)
    requires Noted(cache, root, checksums, integrity) && r.id in cache
    requires cache[r.id].checksum != r.checksum ==> ErrorRight(cache, root, IntegrityError(r.id))
    ensures Noted(cache, root, checksums[r.id := r.checksum],
      if cache[r.id].checksum != r.checksum then integrity + [r.id] else integrity)
  {
    hide ErrorRight;
  }

  lemma SameKeys(cache: Cache, root: Root, g: Graph)
    requires Consistent(cache, root, g, [])
    ensures g.selected.Keys == g.requested.Keys
  {}

  lemma AllAuthentic(cache: Cache, root: Root, g: Graph, checksums: map<PackageId, string>)
    requires ChecksumsOk(cache, root, g, checksums, []) && Noted(cache, root, checksums, [])
      && g.selected.Keys == g.requested.Keys
    ensures Authentic(cache, root, g)
  {
    hide AsksIn;
    hide ErrorRight;
    forall id, sum | Asks(cache, root, g, id, sum)
      ensures id in g.requested && id in cache && cache[id].checksum == sum
    {
      if !AsksIn(root.manifest, root.features, id, sum) {
        var a :| AsksFrom(cache, g, a, id, sum);
        assert SumsHandled(checksums, [], cache[a].manifest, g.selected[a]);
      }
      assert SumHandled(checksums, [], id, sum);
      assert IdentityOk(cache, id);
    }
  }

  /** Every solution needs the versions recorded. */
  ghost predicate AlwaysNeeded(cache: Cache, root: Root, versions: map<string, string>) {
    forall h: Graph :: IsSolution(cache, root, h) ==> VersionsNeeded(root, versions, h)
  }

  lemma StartVersions(cache: Cache, root: Root, versions0: map<string, string>, versions: map<string, string>,
      queue: seq<Request>)
    requires versions0 == map[root.id.name := root.id.version]
    requires Versioned(root.manifest, root.features, [root.id], versions0, versions, queue)
    ensures AlwaysNeeded(cache, root, versions)
    ensures forall failed: PackageId ::
      (DependsOn(root.manifest, root.features, failed) && failed.name in versions
        && versions[failed.name] != failed.version) ==>
        ErrorRight(cache, root, VersionConflict(failed))
  {
    hide Versioned;
    hide DependsOn;
    hide SingleVersions;
    forall h: Graph | IsSolution(cache, root, h)
      ensures VersionsNeeded(root, versions, h)
      ensures forall failed: PackageId ::
        (DependsOn(root.manifest, root.features, failed) && failed.name in versions
          && versions[failed.name] != failed.version) ==> !SingleVersions(root, h)
    {
      VersionsStillNeeded(cache, root, root.manifest, root.features, root.features, [root.id], versions0, versions,
        queue, h);
    }
  }

  lemma StartConsistent(cache: Cache, root: Root, queue: seq<Request>, edges: map<string, PackageId>,
      versions: map<string, string>)
    requires RequestsFor(root.manifest, root.features, {}, queue, edges)
    requires Versioned(root.manifest, root.features, [root.id], map[root.id.name := root.id.version], versions, queue)
    ensures Consistent(cache, root, Graph(map[], {}, map[], map[]), queue)
    ensures VersionsOk(root.id, Graph(map[], {}, map[], map[]), queue, versions) && ChainsStart(queue)
  {
    var g := Graph(map[], {}, map[], map[]);
    hide MeetsAll;
    hide AllNeeded;
    hide IsSolution;
    hide MetOrWaiting;
    hide VersionsOk;
    hide ChainsStart;
    hide Versioned;
    hide RequestsFor;
    AllWaiting(g, [], queue, root.manifest, root.features, edges);
    assert [] + queue == queue;
    forall h: Graph
      ensures EdgesRight(cache, g) && Within(g, h)
    {
      EmptyGraph(cache, h);
    }
    hide EdgesRight;
    hide Within;
    hide PackageOk;
    forall h: Graph | IsSolution(cache, root, h)
      ensures AllNeeded(cache, root, queue, h)
    {
      StartNeeded(cache, root, queue, versions, h);
    }
    StartRecorded(root, queue, versions);
  }

  lemma EmptyGraph(cache: Cache, h: Graph)
    ensures EdgesRight(cache, Graph(map[], {}, map[], map[])) && Within(Graph(map[], {}, map[], map[]), h)
  {}

  lemma StartRecorded(root: Root, queue: seq<Request>, versions: map<string, string>)
    requires Versioned(root.manifest, root.features, [root.id], map[root.id.name := root.id.version], versions, queue)
    ensures VersionsOk(root.id, Graph(map[], {}, map[], map[]), queue, versions) && ChainsStart(queue)
  {
    hide Asked;
    hide AskedName;
    assert root.id.name in map[root.id.name := root.id.version];
  }

  lemma StartNeeded(cache: Cache, root: Root, queue: seq<Request>, versions: map<string, string>, h: Graph)
    requires Versioned(root.manifest, root.features, [root.id], map[root.id.name := root.id.version], versions, queue)
    requires IsSolution(cache, root, h)
    ensures AllNeeded(cache, root, queue, h)
  {
    hide DependsOn;
    hide Asked;
    hide MeetsAll;
    hide PackageOk;
    hide OneVersion;
    hide AskedName;
    hide Needed;
    var parent := Request(root.id, "", {}, false, []);
    assert parent.chain + [parent.id] == [root.id];
    assert IsChain(cache, root, h, [root.id]);
    forall b | DependsOn(root.manifest, root.features, b)
      ensures IsEdge(cache, root, h, parent.id, b)
    {}
    hide IsEdge;
    hide AsksIn;
    forall k | 0 <= k < |queue|
      ensures Needed(cache, root, queue[k], h)
    {
      AskedNeeded(cache, root, h, root.manifest, root.features, root.features, parent, queue[k]);
    }
  }

  /** The request at the head of the queue is needed by every solution. */
  lemma HeadNeeded(cache: Cache, root: Root, g: Graph, r: Request, rest: seq<Request>, h: Graph)
    requires Consistent(cache, root, g, [r] + rest) && IsSolution(cache, root, h)
    ensures Within(g, h) && Needed(cache, root, r, h)
  {
    DropFirst(cache, root, r, rest, h);
    hide IsSolution;
    hide Within;
    hide Needed;
  }

  lemma ReportCycle(cache: Cache, root: Root, g: Graph, r: Request, rest: seq<Request>)
    requires Consistent(cache, root, g, [r] + rest) && r.id in r.chain
    ensures ErrorRight(cache, root, CycleDetected(r.chain + [r.id]))
  {
    hide Consistent;
    hide IsSolution;
    var chain := r.chain + [r.id];
    assert chain[..|chain| - 1] == r.chain;
    forall h: Graph | IsSolution(cache, root, h)
      ensures IsChain(cache, root, h, chain)
    {
      HeadNeeded(cache, root, g, r, rest, h);
    }
  }

  lemma ReportMissing(cache: Cache, root: Root, g: Graph, r: Request, rest: seq<Request>)
    requires Consistent(cache, root, g, [r] + rest) && r.id !in cache
    ensures ErrorRight(cache, root, NotCached(r.id))
  {
    hide Consistent;
    hide IsSolution;
    forall h: Graph
      ensures !IsSolution(cache, root, h)
    {
      if IsSolution(cache, root, h) {
        HeadNeeded(cache, root, g, r, rest, h);
        SelectedWithin(cache, root, g, r, h);
      }
    }
  }

  lemma ReportBadFeature(cache: Cache, root: Root, g: Graph, r: Request, rest: seq<Request>)
    requires Consistent(cache, root, g, [r] + rest) && r.id in cache
    requires
      var m := cache[r.id].manifest;
      forall t: set<string> ::
        Wanted(m, Requested(g, r.id) + r.features, r.id in WithDefault(g, r)) <= t && Closed(m, t) ==> !AllOk(m, t)
    ensures ErrorRight(cache, root, BadFeature(r.id))
  {
    hide Consistent;
    hide IsSolution;
    hide Closed;
    hide AllOk;
    forall h: Graph
      ensures !IsSolution(cache, root, h)
    {
      if IsSolution(cache, root, h) {
        HeadNeeded(cache, root, g, r, rest, h);
        SelectedWithin(cache, root, g, r, h);
      }
    }
  }

  /** What the package at the head of the queue selects, every solution selects. */
  lemma HeadSelected(cache: Cache, root: Root, g: Graph, r: Request, rest: seq<Request>, selected: set<string>,
      h: Graph)
    requires Consistent(cache, root, g, [r] + rest) && IsSolution(cache, root, h) && r.id in cache
    requires IsExpansion(cache[r.id].manifest,
      Wanted(cache[r.id].manifest, Requested(g, r.id) + r.features, r.id in WithDefault(g, r)), selected)
    ensures r.id in h.selected && selected <= h.selected[r.id] && MeetsAll(h, cache[r.id].manifest, h.selected[r.id])
  {
    hide Consistent;
    hide IsSolution;
    hide Closed;
    hide AllOk;
    hide MeetsAll;
    HeadNeeded(cache, root, g, r, rest, h);
    SelectedWithin(cache, root, g, r, h);
  }

  lemma MoreVersions(cache: Cache, root: Root, g: Graph, r: Request, rest: seq<Request>, selected: set<string>,
      known: map<string, string>, versions: map<string, string>, more: seq<Request>)
    requires Consistent(cache, root, g, [r] + rest) && r.id in cache && AlwaysNeeded(cache, root, known)
    requires IsExpansion(cache[r.id].manifest,
      Wanted(cache[r.id].manifest, Requested(g, r.id) + r.features, r.id in WithDefault(g, r)), selected)
    requires Versioned(cache[r.id].manifest, selected, r.chain + [r.id], known, versions, more)
    ensures AlwaysNeeded(cache, root, versions)
    ensures forall failed: PackageId ::
      (DependsOn(cache[r.id].manifest, selected, failed) && failed.name in versions
        && versions[failed.name] != failed.version) ==>
        ErrorRight(cache, root, VersionConflict(failed))
  {
    hide Consistent;
    hide IsSolution;
    hide IsExpansion;
    hide Versioned;
    hide DependsOn;
    hide SingleVersions;
    hide VersionsNeeded;
    forall h: Graph | IsSolution(cache, root, h)
      ensures VersionsNeeded(root, versions, h)
      ensures forall failed: PackageId ::
        (DependsOn(cache[r.id].manifest, selected, failed) && failed.name in versions
          && versions[failed.name] != failed.version) ==> !SingleVersions(root, h)
    {
      HeadSelected(cache, root, g, r, rest, selected, h);
      VersionsStillNeeded(cache, root, cache[r.id].manifest, selected, h.selected[r.id], r.chain + [r.id], known,
        versions, more, h);
    }
  }

  lemma FirstChain(r: Request, rest: seq<Request>)
    requires ChainsStart([r] + rest)
    ensures r.chain != [] && ChainsStart(rest)
  {
    assert ([r] + rest)[0] == r;
    forall k | 0 <= k < |rest|
      ensures rest[k].chain != []
    {
      assert ([r] + rest)[k + 1] == rest[k];
    }
  }

  lemma MoreChains(m: Manifest, s: set<string>, chain: seq<PackageId>, known: map<string, string>,
      versions: map<string, string>, more: seq<Request>)
    requires Versioned(m, s, chain, known, versions, more)
    ensures forall k :: 0 <= k < |more| ==> more[k].chain == chain
  {
    hide Asked;
  }

  lemma DropVersions(rootId: PackageId, g: Graph, r: Request, rest: seq<Request>, versions: map<string, string>)
    requires VersionsOk(rootId, g, [r] + rest, versions) && ChainsStart([r] + rest)
    ensures OneVersion(versions, r.id) && VersionsOk(rootId, g, rest, versions) && ChainsStart(rest)
  {
    FirstChain(r, rest);
    hide OneVersion;
    assert ([r] + rest)[0] == r;
    forall k | 0 <= k < |rest|
      ensures OneVersion(versions, rest[k].id)
    {
      assert ([r] + rest)[k + 1] == rest[k];
    }
  }

  lemma UpdateVersions(rootId: PackageId, g: Graph, r: Request, rest: seq<Request>, selected: set<string>,
      edges: map<string, PackageId>,
      m: Manifest, known: map<string, string>, versions: map<string, string>, more: seq<Request>)
    requires VersionsOk(rootId, g, [r] + rest, known) && ChainsStart([r] + rest)
    requires Versioned(m, selected, r.chain + [r.id], known, versions, more)
    ensures VersionsOk(rootId, Updated(g, r, selected, edges), rest + more, versions) && ChainsStart(rest + more)
  {
    DropVersions(rootId, g, r, rest, known);
    hide Asked;
    assert forall id :: OneVersion(known, id) ==> OneVersion(versions, id);
    hide OneVersion;
  }

  lemma Finished(cache: Cache, root: Root, g: Graph, versions: map<string, string>)
    requires Consistent(cache, root, g, []) && VersionsOk(root.id, g, [], versions) && Authentic(cache, root, g)
    ensures ResolvedRight(cache, root, g, versions)
  {
    hide Within;
    hide EdgesRight;
    hide OneVersion;
    hide PackageOk;
    hide Authentic;
    forall m: Manifest, s: set<string> | MetOrWaiting(g, [], m, s)
      ensures MeetsAll(g, m, s)
    {
      NothingWaits(g, m, s);
    }
    hide MetOrWaiting;
    hide MeetsAll;
    forall id | id in g.requested
      ensures id in cache
    {
      InCache(cache, g, id);
    }
  }

  lemma NothingWaits(g: Graph, m: Manifest, s: set<string>)
    requires MetOrWaiting(g, [], m, s)
    ensures MeetsAll(g, m, s)
  {
    hide IsActive;
    hide Meets;
    forall alias | IsActive(m, s, alias)
      ensures alias in m.dependencies && Meets(g, m.dependencies[alias], ForwardedSet(m, s, alias))
    {
      OnlyListed(m, s, alias);
      assert Handled(g, [], m.dependencies[alias], ForwardedSet(m, s, alias));
    }
  }

  /** What holds between requests, of all that the loop keeps. */
  ghost predicate Going(cache: Cache, root: Root, g: Graph, queue: seq<Request>, versions: map<string, string>,
      checksums: map<PackageId, string>, integrity: seq<PackageId>)
  {
    && Consistent(cache, root, g, queue) && VersionsOk(root.id, g, queue, versions) && ChainsStart(queue)
    && AlwaysNeeded(cache, root, versions) && ChecksumsOk(cache, root, g, checksums, queue)
    && AlwaysAsked(cache, root, checksums) && Noted(cache, root, checksums, integrity)
  }

  lemma GoOnWithout(cache: Cache, root: Root, g: Graph, r: Request, rest: seq<Request>, versions: map<string, string>,
      checksums: map<PackageId, string>, integrity: seq<PackageId>)
    requires Going(cache, root, g, [r] + rest, versions, checksums, integrity) && IsMet(g, r)
    requires r.id in checksums ==> checksums[r.id] == r.checksum
    ensures Going(cache, root, g, rest, versions, checksums, integrity)
  {
    DropRequest(cache, root, g, r, rest);
    DropVersions(root.id, g, r, rest, versions);
    DropChecksums(cache, root, g, checksums, r, rest);
    hide Consistent;
    hide VersionsOk;
    hide ChainsStart;
    hide ChecksumsOk;
  }

  /** The part of a step that reads the package: its identity, features and dependencies. */
  method Visit(cache: Cache, root: Root, g: Graph, request: Request, rest: seq<Request>, known: map<string, string>,
      ghost checksums: map<PackageId, string>, ghost integrity: seq<PackageId>)
    returns (error: Option<ResolveError>, after: Graph, more: seq<Request>, versions: map<string, string>)
    requires Going(cache, root, g, [request] + rest, known, checksums, integrity)
    requires request.id in cache && request.id !in request.chain && !IsMet(g, request)
    requires request.id in checksums ==> checksums[request.id] == request.checksum
    ensures error.Some? ==> ErrorRight(cache, root, error.value)
    ensures error.None? ==>
      Going(cache, root, after, rest + more, versions, checksums[request.id := request.checksum],
        if cache[request.id].checksum != request.checksum then integrity + [request.id] else integrity)
    ensures error.None? ==> Remaining(cache, after) < Remaining(cache, g)
  {
    hide Consistent;
    hide VersionsOk;
    hide ChainsStart;
    hide ErrorRight;
    hide IsSolution;
    hide AlwaysNeeded;
    hide AlwaysAsked;
    hide Noted;
    hide ChecksumsOk;
    hide Asks;
    RecordAsked(cache, root, g, request, rest, checksums);
    NoteSum(cache, root, checksums, integrity, request);
    after, more, versions := g, [], known;
    var manifest := cache[request.id].manifest;
    if manifest.name != request.id.name || manifest.version != request.id.version {
      return Some(IdentityMismatch(request.id)), after, more, versions;
    }
    assert IdentityOk(cache, request.id);
    hide IdentityOk;
    var requested, defaults := Requested(g, request.id) + request.features, WithDefault(g, request);
    var selected := ExpandFeatures(manifest, requested, request.id in defaults);
    if selected.None? {
      ReportBadFeature(cache, root, g, request, rest);
      return Some(BadFeature(request.id)), after, more, versions;
    }
    var ok, edges, failed;
    ok, more, edges, versions,
      failed := RequestDependencies(manifest, selected.value, request.chain + [request.id], known);
    MoreVersions(cache, root, g, request, rest, selected.value, known, versions, more);
    if !ok {
      return Some(VersionConflict(failed)), after, more, versions;
    }
    FirstChain(request, rest);
    MoreChains(manifest, selected.value, request.chain + [request.id], known, versions, more);
    assert Expanded(cache, g, request, selected.value, edges, more);
    UpdateConsistent(cache, root, g, request, rest, selected.value, edges, more);
    UpdateVersions(root.id, g, request, rest, selected.value, edges, manifest, known, versions, more);
    UpdateChecksums(cache, root, g, checksums, request, rest, selected.value, edges, more);
    RemainingShrinks(cache, g, request, selected.value, edges, more);
    after := Updated(g, request, selected.value, edges);
    return None, after, more, versions;
  }

  lemma Reports(cache: Cache, root: Root, g: Graph, r: Request, rest: seq<Request>, versions: map<string, string>,
      checksums: map<PackageId, string>, integrity: seq<PackageId>)
    requires Going(cache, root, g, [r] + rest, versions, checksums, integrity)
    ensures r.id in r.chain ==> ErrorRight(cache, root, CycleDetected(r.chain + [r.id]))
    ensures r.id in checksums && checksums[r.id] != r.checksum ==> ErrorRight(cache, root, ChecksumConflict(r.id))
    ensures r.id !in cache ==> ErrorRight(cache, root, NotCached(r.id))
  {
    hide Consistent;
    hide ErrorRight;
    RecordAsked(cache, root, g, r, rest, checksums);
    if r.id in r.chain {
      ReportCycle(cache, root, g, r, rest);
    }
    if r.id !in cache {
      ReportMissing(cache, root, g, r, rest);
    }
  }

  lemma Ready(cache: Cache, root: Root, queue: seq<Request>, edges: map<string, PackageId>,
      versions: map<string, string>)
    requires RequestsFor(root.manifest, root.features, {}, queue, edges) && AlwaysNeeded(cache, root, versions)
    requires Versioned(root.manifest, root.features, [root.id], map[root.id.name := root.id.version], versions, queue)
    ensures Going(cache, root, Graph(map[], {}, map[], map[]), queue, versions, map[], [])
    ensures EdgesOf(root.manifest, root.features, edges)
  {
    StartConsistent(cache, root, queue, edges, versions);
    StartChecksums(cache, root, queue, edges);
    EdgesFromRequests(root.manifest, root.features, edges, queue);
    hide RequestsFor;
    hide Versioned;
    hide EdgesOf;
    hide Consistent;
    hide VersionsOk;
    hide ChainsStart;
    hide ChecksumsOk;
    hide ErrorRight;
    hide IsSolution;
    hide Asks;
  }

  lemma AllDone(cache: Cache, root: Root, g: Graph, versions: map<string, string>, checksums: map<PackageId, string>,
      integrity: seq<PackageId>)
    requires Going(cache, root, g, [], versions, checksums, integrity)
    ensures integrity != [] ==> ErrorRight(cache, root, IntegrityError(integrity[0]))
    ensures integrity == [] ==> ResolvedRight(cache, root, g, versions)
  {
    hide VersionsOk;
    hide ChecksumsOk;
    hide ErrorRight;
    hide ResolvedRight;
    SameKeys(cache, root, g);
    hide Consistent;
    if integrity == [] {
      AllAuthentic(cache, root, g, checksums);
      Finished(cache, root, g, versions);
    }
  }

  /** The loop of `resolve_manifest`, from the features selected for the root. */
  method ResolveFrom(cache: Cache, root: Root) returns (r: Resolution)
    ensures r.Resolved? ==>
      ResolvedRight(cache, root, r.graph, r.versions) && EdgesOf(root.manifest, root.features, r.root_dependencies)
    ensures r.Failed? ==> ErrorRight(cache, root, r.error)
  {
    hide EdgesOf;
    hide ErrorRight;
    hide ResolvedRight;
    hide Going;
    hide AlwaysNeeded;
    var versions0 := map[root.id.name := root.id.version];
    var ok, queue, root_dependencies, versions, failed :=
      RequestDependencies(root.manifest, root.features, [root.id], versions0);
    StartVersions(cache, root, versions0, versions, queue);
    if !ok {
      return Failed(VersionConflict(failed));
    }
    Ready(cache, root, queue, root_dependencies, versions);
    hide RequestsFor;
    hide Versioned;
    var g := Graph(map[], {}, map[], map[]);
    var checksums: map<PackageId, string> := map[];
    var integrity: seq<PackageId> := [];
    while queue != []
      invariant Going(cache, root, g, queue, versions, checksums, integrity)
      decreases Remaining(cache, g), |queue|
    {
      var request, rest := queue[0], queue[1..];
      assert queue == [request] + rest;
      Reports(cache, root, g, request, rest, versions, checksums, integrity);
      if request.id in request.chain {
        return Failed(CycleDetected(request.chain + [request.id]));
      }
      if request.id in checksums && checksums[request.id] != request.checksum {
        return Failed(ChecksumConflict(request.id));
      }
      if IsMet(g, request) {
        GoOnWithout(cache, root, g, request, rest, versions, checksums, integrity);
        queue := rest;
      } else {
        if request.id !in cache {
          return Failed(NotCached(request.id));
        }
        var error, after, more, known := Visit(cache, root, g, request, rest, versions, checksums, integrity);
        if error.Some? {
          return Failed(error.value);
        }
        if cache[request.id].checksum != request.checksum {
          integrity := integrity + [request.id];
        }
        checksums := checksums[request.id := request.checksum];
        g, queue, versions := after, rest + more, known;
      }
    }
    AllDone(cache, root, g, versions, checksums, integrity);
    if integrity != [] {
      return Failed(IntegrityError(integrity[0]));
    }
    return Resolved(g, root_dependencies, versions);
  }

  /** `resolve_manifest` for a root manifest and the features asked of it. */
  method ResolveManifest(cache: Cache, manifest: Manifest, features: set<string>, default_features: bool)
      returns (r: Resolution, root: Root)
    ensures r.Resolved? ==> IsExpansion(manifest, Wanted(manifest, features, default_features), root.features)
    ensures root.manifest == manifest && root.id == PackageId(manifest.name, manifest.version)
    ensures r.Resolved? ==> ResolvedRight(cache, root, r.graph, r.versions)
    ensures r.Failed? ==>
      ErrorRight(cache, root, r.error) || (r.error == BadFeature(root.id) &&
        forall t: set<string> :: Wanted(manifest, features, default_features) <= t && Closed(manifest, t) ==>
          !AllOk(manifest, t))
  {
    var id := PackageId(manifest.name, manifest.version);
    var selected := ExpandFeatures(manifest, features, default_features);
    root := Root(id, manifest, if selected.Some? then selected.value else {});
    if selected.None? {
      return Failed(BadFeature(id)), root;
    }
    r := ResolveFrom(cache, root);
  }
}
