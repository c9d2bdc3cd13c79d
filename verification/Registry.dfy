/**
 The registry with its pools on the heap.  A pool is an array that is built, published and never
 written again: no method may modify an array, so every snapshot a reader holds stays as it was.
 */
module Registry {
  import opened Options
  import opened Backends
  import RS = RegistryState

  method Publish(s: seq<Backend>) returns (a: array<Backend>)
    ensures fresh(a) && a[..] == s
  {
    a := new Backend[|s|](i requires 0 <= i < |s| => s[i]);
  }

  method WithoutList(s: seq<Backend>, b: Backend) returns (keep: seq<Backend>)
    ensures keep == RS.Without(s, b)
  {
    keep := [];
    for i := 0 to |s|
      invariant keep == RS.Without(s[..i], b)
    {
      assert s[..i + 1][..i] == s[..i];
      if s[i] != b {
        keep := keep + [s[i]];
      }
    }
    assert s[..|s|] == s;
  }

  /** A new pool without `b`. */
  method WithoutPool(pool: array<Backend>, b: Backend) returns (out: array<Backend>)
    ensures fresh(out) && out[..] == RS.Without(pool[..], b)
  {
    var keep: seq<Backend> := [];
    for i := 0 to pool.Length
      invariant keep == RS.Without(pool[..i], b)
    {
      assert pool[..i + 1][..i] == pool[..i];
      if pool[i] != b {
        keep := keep + [pool[i]];
      }
    }
    assert pool[..pool.Length] == pool[..];
    out := Publish(keep);
  }

  /** A new pool with `b` at its end, unless it is already there. */
  method WithBackend(pool: array<Backend>, b: Backend) returns (out: array<Backend>)
    ensures fresh(out) && out[..] == RS.With(pool[..], b)
    ensures out[..] == if b in pool[..] then pool[..] else pool[..] + [b]
  {
    var copied: seq<Backend> := [];
    for i := 0 to pool.Length
      invariant copied == pool[..i] && b !in copied
    {
      if pool[i] == b {
        assert b in pool[..] && copied + pool[i..] == pool[..];
        out := Publish(copied + pool[i..]);
        return;
      }
      copied := copied + [pool[i]];
    }
    assert copied == pool[..];
    out := Publish(copied + [b]);
  }

  lemma {:induction false} LeftIs(was: map<RS.Slot, seq<Backend>>, now: map<RS.Slot, seq<Backend>>, b: Backend)
    requires now.Keys == was.Keys && forall s :: s in was ==> now[s] == RS.Without(was[s], b)
    ensures now == map s | s in was :: RS.Without(was[s], b)
  {
    hide RS.Without;
  }

  class Registry {
    const routes: RS.Routes
    /** Whether a URL parses to a scheme and a host. */
    const urlOk: string -> bool
    var byId: map<string, Backend>
    var all: seq<Backend>
    var pools: map<RS.Slot, array<Backend>>

    ghost function View(): RS.State
      reads this, pools.Values
    {
      RS.State(byId, all, map s | s in pools :: pools[s][..])
    }

    ghost predicate Valid()
      reads this, pools.Values
    {
      RS.Inv(View(), routes)
    }

    /** A registry over given pools; `NewRegistry` supplies those of the configuration. */
    constructor (routes: RS.Routes, urlOk: string -> bool, byId: map<string, Backend>, all: seq<Backend>,
      pools: map<RS.Slot, array<Backend>>)
      ensures this.routes == routes && this.urlOk == urlOk && this.byId == byId && this.all == all
        && this.pools == pools
    {
      this.routes, this.urlOk, this.byId, this.all, this.pools := routes, urlOk, byId, all, pools;
    }

    /** The loop of removeLocked over all pools. */
    method Leave(b: Backend)
      modifies this`pools
      ensures pools.Keys == old(pools).Keys
      ensures forall s :: s in pools ==> pools[s][..] == RS.Without(old(pools[s][..]), b)
    {
      var todo := pools.Keys;
      while todo != {}
        invariant todo <= pools.Keys == old(pools).Keys
        invariant forall s :: s in todo ==> pools[s] == old(pools)[s]
        invariant forall s :: s in pools && s !in todo ==> pools[s][..] == RS.Without(old(pools[s][..]), b)
        decreases todo
      {
        var s :| s in todo;
        var p := WithoutPool(pools[s], b);
        pools := pools[s := p];
        todo := todo - {s};
      }
    }

    /** removeLocked: the instance leaves the map, the list and every pool. */
    method RemoveLocked(b: Backend)
      modifies this
      ensures View() == RS.Remove(old(View()), b)
    {
      hide RS.Without;
      ghost var was := View();
      byId := byId - {b.cfg.id};
      all := WithoutList(all, b);
      Leave(b);
      LeftIs(was.pools, View().pools, b);
    }

    /** The loop of upsertLocked that puts the new instance into the pools of its routes. */
    method Join(b: Backend, models: seq<string>)
      modifies this`pools
      ensures pools.Keys == old(pools).Keys
      ensures forall s :: s in pools ==> pools[s][..] == if s.route in models then RS.With(old(pools[s][..]), b)
        else old(pools[s][..])
    {
      var todo := set s | s in pools && s.route in models;
      ghost var mine := todo;
      while todo != {}
        invariant todo <= mine <= pools.Keys == old(pools).Keys
        invariant forall s :: s in pools && (s !in mine || s in todo) ==> pools[s] == old(pools)[s]
        invariant forall s :: s in mine && s !in todo ==> pools[s][..] == RS.With(old(pools[s][..]), b)
        decreases todo
      {
        var s :| s in todo;
        var p := WithBackend(pools[s], b);
        pools := pools[s := p];
        todo := todo - {s};
      }
    }

    method CheckModels(models: seq<string>) returns (ok: bool)
      ensures ok <==> RS.ModelsOk(routes, models)
    {
      if |models| == 0 {
        return false;
      }
      for i := 0 to |models|
        invariant forall j :: 0 <= j < i ==> models[j] in routes && !routes[models[j]].pd
      {
        if models[i] !in routes || routes[models[i]].pd {
          return false;
        }
      }
      return true;
    }

    /** The old instance of the same id out, the new one in. */
    method Install(b: Backend, models: seq<string>)
      requires b.cfg.id in byId ==> byId[b.cfg.id].cfg.id == b.cfg.id
      modifies this
      ensures View() == RS.Upsert(old(View()), b, models)
    {
      hide RS.Add, RS.Remove;
      if b.cfg.id in byId {
        RemoveLocked(byId[b.cfg.id]);
      }
      Enter(b, models);
    }

    method Enter(b: Backend, models: seq<string>)
      modifies this
      ensures View() == RS.Add(old(View()), b, models)
    {
      hide RS.With;
      byId := byId[b.cfg.id := b];
      all := all + [b];
      Join(b, models);
      assert View().pools == RS.Add(old(View()), b, models).pools;
    }

    /** upsertLocked: all checks first, then the exchange; a failure changes nothing. */
    method UpsertBackend(bc: Config, models: seq<string>) returns (r: Option<Backend>)
      requires Valid()
      modifies this
      ensures Valid()
      ensures r.Some? <==> RS.ModelsOk(routes, models) && urlOk(bc.url)
      ensures r.Some? <==> models != [] && (forall m :: m in models ==> m in routes && !routes[m].pd) && urlOk(bc.url)
      ensures r.None? ==> View() == old(View()) && pools == old(pools)
      ensures r.Some? ==> RS.Exchanged(old(View()), View(), r.value, models)
      ensures r.Some? ==>
        fresh(r.value) && r.value.cfg == bc.(weight := NormalizeWeight(bc.weight))
        && View() == RS.Upsert(old(View()), r.value, models)
    {
      hide RS.Upsert, RS.Exchanged;
      var ok := CheckModels(models);
      if !ok || !urlOk(bc.url) {
        return None;
      }
      var b := new Backend(bc);
      RS.UpsertKeepsInv(View(), routes, b, models);
      RS.UpsertExchanges(View(), routes, b, models);
      Install(b, models);
      r := Some(b);
    }

    /** AddBackend: as an upsert, but an id that is taken is an error. */
    method AddBackend(bc: Config, models: seq<string>) returns (r: Option<Backend>)
      requires Valid()
      modifies this
      ensures Valid()
      ensures r.Some? <==> bc.id !in old(byId) && RS.ModelsOk(routes, models) && urlOk(bc.url)
      ensures r.None? ==> View() == old(View()) && pools == old(pools)
      ensures r.Some? ==> fresh(r.value) && View() == RS.Add(old(View()), r.value, models)
      ensures r.Some? ==> RS.Exchanged(old(View()), View(), r.value, models)
    {
      hide RS.Exchanged;
      if bc.id in byId {
        return None;
      }
      r := UpsertBackend(bc, models);
    }

    /** RemoveBackend: an unknown id is an error and changes nothing. */
    method RemoveBackend(id: string) returns (ok: bool)
      requires Valid()
      modifies this
      ensures Valid()
      ensures ok <==> id in old(byId)
      ensures View() == if ok then RS.Remove(old(View()), old(byId[id])) else old(View())
      ensures ok ==> RS.Removed(old(View()), View(), old(byId[id]))
    {
      hide RS.Removed, RS.Remove;
      if id !in byId {
        return false;
      }
      RS.RemoveKeepsInv(View(), routes, byId[id]);
      RS.RemoveRemoves(View(), byId[id]);
      RemoveLocked(byId[id]);
      return true;
    }
  }
}
