/** NewRegistry: the registry a validated configuration starts with. */
module RegistryInit {
  import opened Options
  import opened Backends
  import RS = RegistryState
  import opened Registry

  /** A model route of the configuration: plain backends, or sub-pools, or a PD group. */
  datatype ModelConfig = ModelConfig(name: string, pd: bool, backends: seq<string>, splits: seq<seq<string>>)

  ghost predicate IdsKnown(ids: seq<string>, known: set<string>) { forall id :: id in ids ==> id in known }

  /** What config validation guarantees: unique ids and names, known references, backends or splits but not both. */
  ghost predicate ConfigOk(backends: seq<Config>, models: seq<ModelConfig>) {
    var ids := set c | c in backends :: c.id;
    && (forall i, j :: 0 <= i < j < |backends| ==> backends[i].id != backends[j].id)
    && UniqueNames(models)
    && (forall m :: m in models ==> RouteKnown(m, ids))
  }

  ghost predicate Table(byId: map<string, Backend>, all: seq<Backend>) {
    RS.IdsAgree(RS.State(byId, all, map[]))
  }

  /** One instance for each entry, in order, with the entry's configuration. */
  ghost predicate InOrder(cfgs: seq<Config>, all: seq<Backend>) {
    |all| == |cfgs| && forall i :: 0 <= i < |cfgs| ==> all[i].cfg == cfgs[i].(weight := NormalizeWeight(cfgs[i].weight))
  }

  lemma {:induction false} NoneYet()
    ensures Table(map[], []) && InOrder([], [])
  {
  }

  lemma {:induction false} OneMore(byId: map<string, Backend>, all: seq<Backend>, b: Backend, cfgs: seq<Config>,
    c: Config)
    requires Table(byId, all) && InOrder(cfgs, all) && c.id !in byId && b !in all
    requires b.cfg == c.(weight := NormalizeWeight(c.weight))
    ensures Table(byId[c.id := b], all + [b]) && InOrder(cfgs + [c], all + [b])
  {
  }

  /** Builds every backend; None if a URL is malformed. */
  method BuildBackends(cfgs: seq<Config>, urlOk: string -> bool)
    returns (r: Option<(map<string, Backend>, seq<Backend>)>)
    requires forall i, j :: 0 <= i < j < |cfgs| ==> cfgs[i].id != cfgs[j].id
    ensures r.Some? <==> forall c :: c in cfgs ==> urlOk(c.url)
    ensures r.Some? ==> Table(r.value.0, r.value.1) && r.value.0.Keys == set c | c in cfgs :: c.id
    ensures r.Some? ==> InOrder(cfgs, r.value.1)
  {
    hide Table, InOrder;
    NoneYet();
    var byId: map<string, Backend>, all: seq<Backend> := map[], [];
    for i := 0 to |cfgs|
      invariant Table(byId, all) && byId.Keys == set c | c in cfgs[..i] :: c.id
      invariant InOrder(cfgs[..i], all)
      invariant forall j :: 0 <= j < i ==> urlOk(cfgs[j].url)
    {
      var c := cfgs[i];
      if !urlOk(c.url) {
        return None;
      }
      assert c.id !in byId;
      var b := new Backend(c);
      assert b !in all && b.cfg.id == c.id;
      OneMore(byId, all, b, cfgs[..i], c);
      byId, all := byId[c.id := b], all + [b];
      assert cfgs[..i + 1] == cfgs[..i] + [c];
    }
    assert cfgs[..|cfgs|] == cfgs;
    r := Some((byId, all));
  }

  ghost function Instances(byId: map<string, Backend>, ids: seq<string>): seq<Backend>
    requires IdsKnown(ids, byId.Keys)
  {
    seq(|ids|, i requires 0 <= i < |ids| => assert ids[i] in ids; byId[ids[i]])
  }

  /** The instances of a list of ids. */
  method Resolve(byId: map<string, Backend>, ids: seq<string>) returns (pool: seq<Backend>)
    requires IdsKnown(ids, byId.Keys)
    ensures pool == Instances(byId, ids)
  {
    pool := [];
    for i := 0 to |ids|
      invariant |pool| == i && forall j :: 0 <= j < i ==> pool[j] == byId[ids[j]]
    {
      pool := pool + [byId[ids[i]]];
    }
  }

  /** `pool` followed by the members of `part` that are new, each once, in order. */
  ghost function Joined(pool: seq<Backend>, part: seq<Backend>): seq<Backend> {
    if part == [] then pool else RS.With(Joined(pool, part[..|part| - 1]), part[|part| - 1])
  }

  lemma {:induction false} JoinedMembers(pool: seq<Backend>, part: seq<Backend>)
    ensures pool <= Joined(pool, part)
    ensures forall b :: b in Joined(pool, part) <==> b in pool || b in part
    ensures RS.NoDuplicates(pool) ==> RS.NoDuplicates(Joined(pool, part))
  {
    if part != [] {
      var n := |part| - 1;
      JoinedMembers(pool, part[..n]);
      assert part == part[..n] + [part[n]];
    }
  }

  /** Appends the members of a sub-pool that are not in the pool yet. */
  method Absorb(pool: seq<Backend>, part: seq<Backend>, ghost byId: map<string, Backend>) returns (out: seq<Backend>)
    requires forall b :: b in pool + part ==> b.cfg.id in byId && byId[b.cfg.id] == b
    ensures out == Joined(pool, part) && pool <= out
    ensures forall b :: b in out <==> b in pool || b in part
    ensures RS.NoDuplicates(pool) ==> RS.NoDuplicates(out)
  {
    out := pool;
    var seen := set b | b in pool :: b.cfg.id;
    for i := 0 to |part|
      invariant out == Joined(pool, part[..i])
      invariant forall b :: b in out <==> b in pool || b in part[..i]
      invariant seen == set b | b in out :: b.cfg.id
    {
      assert part[..i + 1] == part[..i] + [part[i]] && part[..i + 1][..i] == part[..i];
      if part[i].cfg.id !in seen {
        seen := seen + {part[i].cfg.id};
        out := out + [part[i]];
      } else {
        var x :| x in out && x.cfg.id == part[i].cfg.id;
        assert x in pool + part && part[i] in pool + part;
      }
    }
    assert part[..|part|] == part;
    JoinedMembers(pool, part);
  }

  type Pools = map<RS.Slot, array<Backend>>

  ghost predicate RouteKnown(m: ModelConfig, ids: set<string>) {
    IdsKnown(m.backends, ids) && (forall i :: 0 <= i < |m.splits| ==> IdsKnown(m.splits[i], ids))
      && (m.splits != [] ==> m.backends == [])
  }

  /** The whole pool of a route after `k` sub-pools: the plain backends, then what each sub-pool adds. */
  ghost function Collected(m: ModelConfig, byId: map<string, Backend>, k: nat): seq<Backend>
    requires RouteKnown(m, byId.Keys) && k <= |m.splits|
  {
    if k == 0 then Instances(byId, m.backends) else Joined(Collected(m, byId, k - 1), Instances(byId, m.splits[k - 1]))
  }

  lemma {:induction false} CollectedMembers(m: ModelConfig, byId: map<string, Backend>, k: nat, b: Backend)
    requires RouteKnown(m, byId.Keys) && k <= |m.splits|
    ensures b in Collected(m, byId, k) <==>
      b in Instances(byId, m.backends) || exists i: nat :: i < k && b in Instances(byId, m.splits[i])
    ensures b in Collected(m, byId, k) ==> b in byId.Values
  {
    if k > 0 {
      CollectedMembers(m, byId, k - 1, b);
      JoinedMembers(Collected(m, byId, k - 1), Instances(byId, m.splits[k - 1]));
    }
  }

  /** The pools of one route are published and hold exactly what the configuration lists. */
  ghost predicate RouteBuilt(pools: Pools, m: ModelConfig, byId: map<string, Backend>)
    reads pools.Values
  {
    && RouteKnown(m, byId.Keys)
    && RS.Whole(m.name) in pools && pools[RS.Whole(m.name)][..] == Collected(m, byId, |m.splits|)
    && (forall s :: s in pools && s.route == m.name && s.Part? ==> s.index < |m.splits|)
    && (forall i: nat :: i < |m.splits| ==>
      RS.Part(m.name, i) in pools && pools[RS.Part(m.name, i)][..] == Instances(byId, m.splits[i]))
  }

  method BuildRoute(m: ModelConfig, byId: map<string, Backend>, pools: Pools) returns (out: Pools)
    requires RouteKnown(m, byId.Keys) && forall id :: id in byId ==> byId[id].cfg.id == id
    requires forall s :: s in pools ==> s.route != m.name
    ensures RouteBuilt(out, m, byId)
    ensures forall s :: s in pools ==> s in out && out[s] == pools[s]
    ensures forall s :: s in out && s !in pools ==> s.route == m.name
  {
    hide Instances, Joined;
    out := pools;
    var pool := Resolve(byId, m.backends);
    for k := 0 to |m.splits|
      invariant pool == Collected(m, byId, k)
      invariant forall s :: s in pools ==> s in out && out[s] == pools[s]
      invariant forall s :: s in out && s !in pools ==> s.route == m.name && s.Part? && s.index < k
      invariant forall i: nat :: i < k ==>
        RS.Part(m.name, i) in out && out[RS.Part(m.name, i)][..] == Instances(byId, m.splits[i])
    {
      var part := Resolve(byId, m.splits[k]);
      RouteMembers(m, byId, k, part);
      pool := Absorb(pool, part, byId);
      var a := Publish(part);
      out := out[RS.Part(m.name, k) := a];
    }
    var a := Publish(pool);
    out := out[RS.Whole(m.name) := a];
  }

  lemma {:induction false} RouteMembers(m: ModelConfig, byId: map<string, Backend>, k: nat, part: seq<Backend>)
    requires RouteKnown(m, byId.Keys) && k < |m.splits| && part == Instances(byId, m.splits[k]) && forall id ::
      id in byId ==> byId[id].cfg.id == id
    ensures forall b :: b in Collected(m, byId, k) + part ==> b.cfg.id in byId && byId[b.cfg.id] == b
  {
    forall b | b in Collected(m, byId, k) + part ensures b in byId.Values {
      CollectedMembers(m, byId, k, b);
    }
  }

  ghost predicate UniqueNames(models: seq<ModelConfig>) {
    forall i, j :: 0 <= i < j < |models| ==> models[i].name != models[j].name
  }

  function RouteTable(models: seq<ModelConfig>): RS.Routes
    requires UniqueNames(models)
  {
    map m | m in models :: m.name := RS.RouteInfo(m.pd, |m.splits|)
  }

  method BuildRoutes(models: seq<ModelConfig>, byId: map<string, Backend>) returns (pools: Pools)
    requires forall id :: id in byId ==> byId[id].cfg.id == id
    requires UniqueNames(models) && forall m :: m in models ==> RouteKnown(m, byId.Keys)
    ensures AllBuilt(models, byId, pools)
  {
    hide RouteBuilt;
    pools := map[];
    for k := 0 to |models|
      invariant forall m :: m in models[..k] ==> RouteBuilt(pools, m, byId)
      invariant forall s :: s in pools ==> exists m :: m in models[..k] && m.name == s.route
    {
      assert models[..k + 1] == models[..k] + [models[k]];
      ghost var was := pools;
      pools := BuildRoute(models[k], byId, pools);
      forall m | m in models[..k] ensures RouteBuilt(pools, m, byId) {
        OtherRouteKept(was, pools, models[k].name, m, byId);
      }
    }
    assert models[..|models|] == models;
  }

  lemma {:induction false} OtherRouteKept(was: Pools, pools: Pools, name: string, m: ModelConfig,
    byId: map<string, Backend>)
    requires RouteBuilt(was, m, byId) && m.name != name
    requires forall s :: s in was ==> s in pools && pools[s] == was[s]
    requires forall s :: s in pools && s !in was ==> s.route == name
    ensures RouteBuilt(pools, m, byId)
  {
  }

  ghost predicate AllBuilt(models: seq<ModelConfig>, byId: map<string, Backend>, heap: Pools)
    reads heap.Values
  {
    && UniqueNames(models) && (forall m :: m in models ==> RouteBuilt(heap, m, byId))
    && (forall s :: s in heap ==> exists m :: m in models && m.name == s.route)
  }

  lemma {:induction false} OneRoute(m: ModelConfig, byId: map<string, Backend>, heap: Pools, s: RS.Slot)
    requires RouteBuilt(heap, m, byId) && s.route == m.name
    ensures s in heap <==> (s.Part? ==> s.index < |m.splits|)
    ensures s in heap ==> forall b :: b in heap[s][..] ==> b in byId.Values
  {
    if s in heap {
      forall b | b in heap[s][..] ensures b in byId.Values {
        CollectedMembers(m, byId, |m.splits|, b);
      }
    }
  }

  lemma {:induction false} BuiltMember(models: seq<ModelConfig>, byId: map<string, Backend>, all: seq<Backend>,
    heap: Pools, s: RS.Slot, b: Backend)
    requires Table(byId, all) && AllBuilt(models, byId, heap) && s in heap && b in heap[s][..]
    ensures b in all
  {
    hide RouteBuilt;
    var m :| m in models && m.name == s.route;
    OneRoute(m, byId, heap, s);
    assert b in byId.Values;
    var id :| id in byId && byId[id] == b;
  }

  lemma {:induction false} RouteInTable(models: seq<ModelConfig>, m: ModelConfig)
    requires UniqueNames(models) && m in models
    ensures m.name in RouteTable(models) && RouteTable(models)[m.name] == RS.RouteInfo(m.pd, |m.splits|)
  {
  }

  lemma {:induction false} BuiltSlot(models: seq<ModelConfig>, byId: map<string, Backend>, heap: Pools, s: RS.Slot)
    requires AllBuilt(models, byId, heap)
    ensures s in heap <==> RS.IsSlot(RouteTable(models), s)
  {
    hide RouteBuilt;
    if s in heap || s.route in RouteTable(models) {
      var m :| m in models && m.name == s.route;
      RouteInTable(models, m);
      OneRoute(m, byId, heap, s);
    }
  }

  lemma {:induction false} BuiltIsInv(models: seq<ModelConfig>, byId: map<string, Backend>, all: seq<Backend>,
    heap: Pools)
    requires Table(byId, all) && AllBuilt(models, byId, heap)
    ensures RS.Inv(RS.State(byId, all, map s | s in heap :: heap[s][..]), RouteTable(models))
  {
    hide RouteBuilt;
    var st, routes := RS.State(byId, all, map s | s in heap :: heap[s][..]), RouteTable(models);
    forall s, b | s in st.pools && b in st.pools[s] ensures b in all {
      BuiltMember(models, byId, all, heap, s, b);
    }
    forall s ensures s in st.pools <==> RS.IsSlot(routes, s) {
      BuiltSlot(models, byId, heap, s);
    }
    forall name, b | name in routes && routes[name].splits > 0 && RS.Whole(name) in st.pools
      && b in st.pools[RS.Whole(name)] + all
      ensures b in st.pools[RS.Whole(name)] <==> RS.InSomePart(st, name, routes[name].splits, b)
    {
      var m :| m in models && m.name == name;
      RouteInTable(models, m);
      BuiltUnion(m, byId, all, st, heap, b);
    }
  }

  lemma {:induction false} BuiltUnion(m: ModelConfig, byId: map<string, Backend>, all: seq<Backend>, st: RS.State,
    heap: Pools, b: Backend)
    requires RouteBuilt(heap, m, byId) && RS.Whole(m.name) in heap && Table(byId, all) && m.splits != []
      && st == RS.State(byId, all, map s | s in heap :: heap[s][..])
    requires b in heap[RS.Whole(m.name)][..] || b in all
    ensures b in st.pools[RS.Whole(m.name)] <==> RS.InSomePart(st, m.name, |m.splits|, b)
  {
    CollectedMembers(m, byId, |m.splits|, b);
    forall i: nat | i < |m.splits|
      ensures RS.Part(m.name, i) in st.pools && st.pools[RS.Part(m.name, i)] == Instances(byId, m.splits[i])
    {
    }
  }

  /**
   NewRegistry: a consistent registry whose list and pools are exactly those of the configuration, or an error
   when some URL is malformed.
   */
  method NewRegistry(backends: seq<Config>, models: seq<ModelConfig>, urlOk: string -> bool)
    returns (r: Option<Registry>)
    requires ConfigOk(backends, models)
    ensures r.Some? <==> forall c :: c in backends ==> urlOk(c.url)
    ensures r.Some? ==>
      fresh(r.value) && r.value.Valid() && r.value.routes == RouteTable(models) && r.value.urlOk == urlOk
    ensures r.Some? ==> r.value.byId.Keys == (set c | c in backends :: c.id) && InOrder(backends, r.value.all)
    ensures r.Some? ==> AllBuilt(models, r.value.byId, r.value.pools)
  {
    var t := BuildBackends(backends, urlOk);
    if t.None? {
      return None;
    }
    var (byId, all) := t.value;
    var pools := BuildRoutes(models, byId);
    var reg := new Registry(RouteTable(models), urlOk, byId, all, pools);
    BuiltIsInv(models, byId, all, pools);
    r := Some(reg);
  }
}
