/** The registry of internal/backend/registry.go as a value, and what every operation keeps. */
module RegistryState {
  import opened Backends

  /** A route's whole pool, or one of its sub-pools. */
  datatype Slot = Whole(route: string) | Part(route: string, index: nat)

  /** The fixed facts of a route: is it a PD route, and how many sub-pools has it. */
  datatype RouteInfo = RouteInfo(pd: bool, splits: nat)
  type Routes = map<string, RouteInfo>

  datatype State = State(byId: map<string, Backend>, all: seq<Backend>, pools: map<Slot, seq<Backend>>)

  function Without(pool: seq<Backend>, b: Backend): (r: seq<Backend>)
    ensures forall x :: x in r ==> x in pool && x != b
    ensures forall x :: x in pool && x != b ==> x in r
    ensures |r| <= |pool|
  {
    if pool == [] then []
    else if pool[|pool| - 1] == b then Without(pool[..|pool| - 1], b)
    else Without(pool[..|pool| - 1], b) + [pool[|pool| - 1]]
  }

  function With(pool: seq<Backend>, b: Backend): seq<Backend> {
    if b in pool then pool else pool + [b]
  }

  predicate NoDuplicates(s: seq<Backend>) {
    forall i, j :: 0 <= i < j < |s| ==> s[i] != s[j]
  }

  predicate IsSlot(routes: Routes, s: Slot) {
    s.route in routes && (s.Part? ==> s.index < routes[s.route].splits)
  }

  // ---------------------------------------------------------------- invariant

  /** The id map and the list hold the same instances, each once. */
  ghost predicate IdsAgree(st: State) {
    && (forall id :: id in st.byId ==> st.byId[id].cfg.id == id && st.byId[id] in st.all)
    && (forall b :: b in st.all ==> b.cfg.id in st.byId && st.byId[b.cfg.id] == b)
    && NoDuplicates(st.all)
  }

  ghost predicate OnlyRegistered(st: State) {
    forall s, b :: s in st.pools && b in st.pools[s] ==> b in st.all
  }

  ghost predicate InSomePart(st: State, route: string, splits: nat, b: Backend) {
    exists i: nat :: i < splits && Part(route, i) in st.pools && b in st.pools[Part(route, i)]
  }

  /** The pool of a split route is the union of its sub-pools. */
  ghost predicate PoolsAreUnions(st: State, routes: Routes) {
    forall m :: m in routes && routes[m].splits > 0 && Whole(m) in st.pools ==>
      forall b :: b in st.pools[Whole(m)] + st.all ==> (b in st.pools[Whole(m)] <==>
        InSomePart(st, m, routes[m].splits, b))
  }

  ghost predicate Inv(st: State, routes: Routes) {
    && IdsAgree(st) && OnlyRegistered(st) && PoolsAreUnions(st, routes)
    && (forall s :: s in st.pools <==> IsSlot(routes, s))
  }

  // ---------------------------------------------------------------- operations

  function Remove(st: State, b: Backend): State {
    State(st.byId - {b.cfg.id}, Without(st.all, b), map s | s in st.pools :: Without(st.pools[s], b))
  }

  function Add(st: State, b: Backend, models: seq<string>): State {
    State(st.byId[b.cfg.id := b], st.all + [b], map s | s in st.pools ::
      if s.route in models then With(st.pools[s], b) else st.pools[s])
  }

  function Upsert(st: State, b: Backend, models: seq<string>): State {
    Add(if b.cfg.id in st.byId then Remove(st, st.byId[b.cfg.id]) else st, b, models)
  }

  /** The models an upsert may name: at least one, all of them existing routes outside PD. */
  predicate ModelsOk(routes: Routes, models: seq<string>) {
    models != [] && forall m :: m in models ==> m in routes && !routes[m].pd
  }

  /** The rest keeps its order: removal works element by element. */
  lemma {:induction false} WithoutConcat(p: seq<Backend>, q: seq<Backend>, b: Backend)
    ensures Without(p + q, b) == Without(p, b) + Without(q, b)
    ensures forall x :: x in p + q ==> Without([x], b) == if x == b then [] else [x]
    decreases |q|
  {
    forall x | x in p + q ensures Without([x], b) == if x == b then [] else [x] {
      assert [x][..0] == [];
    }
    if q == [] {
      assert p + q == p;
    } else {
      var n := |q| - 1;
      assert (p + q)[..|p + q| - 1] == p + q[..n];
      WithoutConcat(p, q[..n], b);
    }
  }

  /** What an upsert or an addition does, member by member: the old instance of the id is out, the new one in. */
  ghost predicate Exchanged(was: State, now: State, b: Backend, models: seq<string>) {
    && now.byId == was.byId[b.cfg.id := b] && now.pools.Keys == was.pools.Keys
    && (forall x :: x in was.all + now.all ==> (x in now.all <==> x == b || (x in was.all && x.cfg.id != b.cfg.id)))
    && (forall s, x :: s in was.pools && x in was.pools[s] + now.pools[s] + [b] ==>
          (x in now.pools[s] <==> (x == b && s.route in models) || (x in was.pools[s] && x.cfg.id != b.cfg.id)))
  }

  lemma {:induction false} UpsertExchanges(st: State, routes: Routes, b: Backend, models: seq<string>)
    requires Inv(st, routes) && b !in st.all
    ensures Exchanged(st, Upsert(st, b, models), b, models)
  {
    hide With, Without, Exchanged;
    if b.cfg.id in st.byId {
      var prev := st.byId[b.cfg.id];
      RemoveRemoves(st, prev);
      AddAdds(Remove(st, prev), b, models);
      Composed(st, Remove(st, prev), Upsert(st, b, models), prev, b, models);
    } else {
      AddAdds(st, b, models);
      NoneBefore(st, routes, Upsert(st, b, models), b, models);
    }
  }

  /** An addition: the new instance joins the list and the pools of its routes, nobody else moves. */
  ghost predicate Added(was: State, now: State, b: Backend, models: seq<string>) {
    && now.byId == was.byId[b.cfg.id := b] && now.pools.Keys == was.pools.Keys && now.all == was.all + [b]
    && (forall s, x :: s in was.pools && x in was.pools[s] + now.pools[s] + [b] ==>
          (x in now.pools[s] <==> x in was.pools[s] || (x == b && s.route in models)))
  }

  lemma {:induction false} AddAdds(st: State, b: Backend, models: seq<string>)
    ensures Added(st, Add(st, b, models), b, models)
  {
  }

  lemma {:induction false} NoneBefore(st: State, routes: Routes, now: State, b: Backend, models: seq<string>)
    requires Inv(st, routes) && b !in st.all && b.cfg.id !in st.byId && Added(st, now, b, models)
    ensures Exchanged(st, now, b, models)
  {
    assert forall s :: s in st.pools ==> b !in st.pools[s];
  }

  lemma {:induction false} Composed(st: State, mid: State, now: State, prev: Backend, b: Backend, models: seq<string>)
    requires IdsAgree(st) && OnlyRegistered(st) && b !in st.all && b.cfg.id in st.byId && prev == st.byId[b.cfg.id]
    requires Removed(st, mid, prev) && Added(mid, now, b, models)
    ensures Exchanged(st, now, b, models)
  {
    assert now.byId == st.byId[b.cfg.id := b];
    forall x | x in st.all + now.all ensures x in now.all <==> x == b || (x in st.all && x.cfg.id != b.cfg.id) {
      assert x in st.all || x == b || x in mid.all;
    }
    forall s, x | s in st.pools && x in st.pools[s] + now.pools[s] + [b]
      ensures x in now.pools[s] <==> (x == b && s.route in models) || (x in st.pools[s] && x.cfg.id != b.cfg.id)
    {
      assert x in st.pools[s] ==> x in st.all;
      assert x in st.pools[s] ==> (x.cfg.id != b.cfg.id <==> x != prev);
    }
  }

  /** What a removal does: every other instance stays where it was. */
  ghost predicate Removed(was: State, now: State, b: Backend) {
    && now.byId == was.byId - {b.cfg.id} && now.pools.Keys == was.pools.Keys
    && (forall x :: x in was.all + now.all ==> (x in now.all <==> x in was.all && x != b))
    && (forall s, x :: s in was.pools && x in was.pools[s] + now.pools[s] ==>
      (x in now.pools[s] <==> x in was.pools[s] && x != b))
  }

  lemma {:induction false} RemoveRemoves(st: State, b: Backend)
    ensures Removed(st, Remove(st, b), b)
  {
  }

  lemma {:induction false} WithoutNoDuplicates(s: seq<Backend>, b: Backend)
    requires NoDuplicates(s)
    ensures NoDuplicates(Without(s, b))
    decreases |s|
  {
    if s != [] {
      var pre, last := s[..|s| - 1], s[|s| - 1];
      WithoutNoDuplicates(pre, b);
      if last != b {
        assert last !in Without(pre, b);
      }
    }
  }

  lemma {:induction false} RemoveKeepsInv(st: State, routes: Routes, b: Backend)
    requires Inv(st, routes) && b in st.all
    ensures Inv(Remove(st, b), routes)
  {
    var st' := Remove(st, b);
    WithoutNoDuplicates(st.all, b);
    forall m, x | m in routes && routes[m].splits > 0 && Whole(m) in st'.pools && x in st'.pools[Whole(m)] + st'.all
      ensures x in st'.pools[Whole(m)] <==> InSomePart(st', m, routes[m].splits, x)
    {
      assert x in st.pools[Whole(m)] + st.all && x != b;
      if InSomePart(st', m, routes[m].splits, x) {
        var i: nat :| i < routes[m].splits && Part(m, i) in st'.pools && x in st'.pools[Part(m, i)];
        assert InSomePart(st, m, routes[m].splits, x);
      }
      if InSomePart(st, m, routes[m].splits, x) {
        var i: nat :| i < routes[m].splits && Part(m, i) in st.pools && x in st.pools[Part(m, i)];
        assert x in st'.pools[Part(m, i)];
      }
    }
  }

  lemma {:induction false} AddKeepsInv(st: State, routes: Routes, b: Backend, models: seq<string>)
    requires Inv(st, routes) && b.cfg.id !in st.byId && b !in st.all
    ensures Inv(Add(st, b, models), routes)
  {
    var st' := Add(st, b, models);
    forall m, x | m in routes && routes[m].splits > 0 && Whole(m) in st'.pools && x in st'.pools[Whole(m)] + st'.all
      ensures x in st'.pools[Whole(m)] <==> InSomePart(st', m, routes[m].splits, x)
    {
      if x == b {
        NewcomerInParts(st, routes, b, models, m);
      } else {
        OthersInParts(st, b, models, m, routes[m].splits, x);
      }
    }
  }

  lemma {:induction false} NewcomerInParts(st: State, routes: Routes, b: Backend, models: seq<string>, m: string)
    requires Inv(st, routes) && b !in st.all && m in routes && routes[m].splits > 0 && Whole(m) in st.pools
    ensures var st' := Add(st, b, models); b in st'.pools[Whole(m)] <==> InSomePart(st', m, routes[m].splits, b)
  {
    assert forall s :: s in st.pools ==> b !in st.pools[s];
    assert IsSlot(routes, Part(m, 0)) && Part(m, 0) in st.pools;
    if m in models {
      assert b in Add(st, b, models).pools[Part(m, 0)];
    }
  }

  lemma {:induction false} OthersInParts(st: State, b: Backend, models: seq<string>, m: string, n: nat, x: Backend)
    requires x != b
    ensures InSomePart(Add(st, b, models), m, n, x) <==> InSomePart(st, m, n, x)
  {
    var st' := Add(st, b, models);
    if InSomePart(st', m, n, x) {
      var i: nat :| i < n && Part(m, i) in st'.pools && x in st'.pools[Part(m, i)];
      assert x in st.pools[Part(m, i)];
    }
    if InSomePart(st, m, n, x) {
      var i: nat :| i < n && Part(m, i) in st.pools && x in st.pools[Part(m, i)];
      assert x in st'.pools[Part(m, i)];
    }
  }

  /** Adding or replacing an instance keeps the registry consistent. */
  lemma {:induction false} UpsertKeepsInv(st: State, routes: Routes, b: Backend, models: seq<string>)
    requires Inv(st, routes) && b !in st.all
    ensures Inv(Upsert(st, b, models), routes)
  {
    if b.cfg.id in st.byId {
      var prev := st.byId[b.cfg.id];
      RemoveKeepsInv(st, routes, prev);
      AddKeepsInv(Remove(st, prev), routes, b, models);
    } else {
      AddKeepsInv(st, routes, b, models);
    }
  }
}
