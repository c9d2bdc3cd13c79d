/** The reconciler of internal/reconcile/reconcile.go: database rows against the local registry. */
module Reconcile {
  import opened Backends
  import RS = RegistryState
  import opened Registry

  datatype Row = Row(backend: Config, models: seq<string>)

  // ---------------------------------------------------------------- comparing labels

  function LabelOr(m: map<string, string>, k: string): string { if k in m then m[k] else "" }

  /** labelsEqual: equal sizes, and every label of `a` read from `b` (a missing label reads as empty). */
  predicate LabelsEqual(a: map<string, string>, b: map<string, string>) {
    |a| == |b| && forall k :: k in a ==> LabelOr(b, k) == a[k]
  }

  method CompareLabels(a: map<string, string>, b: map<string, string>) returns (same: bool)
    ensures same <==> LabelsEqual(a, b)
  {
    if |a| != |b| {
      return false;
    }
    var todo := a.Keys;
    while todo != {}
      invariant todo <= a.Keys
      invariant forall k :: k in a && k !in todo ==> LabelOr(b, k) == a[k]
      decreases todo
    {
      var k :| k in todo;
      if LabelOr(b, k) != a[k] {
        return false;
      }
      todo := todo - {k};
    }
    return true;
  }

  lemma {:induction false} SameSizeSubset<T>(x: set<T>, y: set<T>)
    requires x <= y && |x| == |y|
    ensures x == y
  {
    assert y == x + (y - x);
  }

  /** The comparison decides equality exactly for label sets without empty values. */
  lemma {:induction false} LabelsEqualIsEquality(a: map<string, string>)
    ensures (forall b :: LabelsEqual(a, b) <==> a == b) <==> "" !in a.Values
  {
    if "" !in a.Values {
      forall b | LabelsEqual(a, b) ensures a == b {
        forall k | k in a ensures k in b && b[k] == a[k] {
          assert a[k] in a.Values;
        }
        SameSizeSubset(a.Keys, b.Keys);
      }
    } else {
      var k :| k in a && a[k] == "";
      var fresh_ := Longer(a.Keys);
      var b := (a - {k})[fresh_ := "x"];
      assert b.Keys == a.Keys - {k} + {fresh_};
      assert LabelsEqual(a, b) && a != b;
    }
  }

  /** Some string outside a finite set. */
  lemma {:induction false} Longer(s: set<string>) returns (x: string)
    ensures x !in s
  {
    var n := LongestIn(s);
    x := seq(n + 1, i => 'x');
  }

  lemma {:induction false} LongestIn(s: set<string>) returns (n: nat)
    ensures forall y :: y in s ==> |y| <= n
    decreases s
  {
    if s == {} {
      n := 0;
    } else {
      var y :| y in s;
      var m := LongestIn(s - {y});
      n := if m < |y| then |y| else m;
    }
  }

  // ---------------------------------------------------------------- in sync

  predicate SameConfig(have: Config, want: Config) {
    && have.url == want.url && have.engine == want.engine && have.weight == want.weight
    && have.maxConcurrency == want.maxConcurrency && have.metricsPath == want.metricsPath
    && have.healthPath == want.healthPath && have.bootstrapPort == want.bootstrapPort
    && LabelsEqual(have.labels, want.labels)
  }

  /** backendSynced: the instance has the row's configuration and sits in the pool of every named route. */
  predicate Synced(st: RS.State, routes: RS.Routes, row: Row) {
    && row.backend.id in st.byId
    && SameConfig(st.byId[row.backend.id].cfg, row.backend)
    && forall m :: m in row.models ==> InPool(st, routes, m, st.byId[row.backend.id])
  }

  /**
   A row is in force: the instance of its id has its configuration, labels read from the row as empty where they are
   missing, and it sits in the pool of every route the row names.
   */
  ghost predicate InForce(st: RS.State, row: Row) {
    row.backend.id in st.byId &&
    var b := st.byId[row.backend.id];
    var have, want := b.cfg.labels, row.backend.labels;
    && b.cfg.(labels := want) == row.backend
    && |have| == |want| && (forall k :: k in have ==> if k in want then want[k] == have[k] else have[k] == "")
    && (forall m :: m in row.models ==> RS.Whole(m) in st.pools && b in st.pools[RS.Whole(m)])
  }

  /** The checks of backendSynced decide exactly whether a row is in force. */
  lemma {:induction false} SyncedIff(st: RS.State, routes: RS.Routes, row: Row)
    requires RS.Inv(st, routes)
    ensures Synced(st, routes, row) <==> InForce(st, row)
  {
    forall m | m in row.models && RS.Whole(m) in st.pools ensures m in routes {
      assert RS.IsSlot(routes, RS.Whole(m));
    }
  }

  /** With no empty label stored, being in force means having exactly the row's configuration. */
  lemma {:induction false} InForceIsEqual(st: RS.State, row: Row)
    requires InForce(st, row) && "" !in st.byId[row.backend.id].cfg.labels.Values
    ensures st.byId[row.backend.id].cfg == row.backend
  {
    var have, want := st.byId[row.backend.id].cfg.labels, row.backend.labels;
    forall k | k in have ensures k in want && want[k] == have[k] {
      assert have[k] in have.Values;
    }
    SameSizeSubset(have.Keys, want.Keys);
  }

  method PoolHas(pool: array<Backend>, b: Backend) returns (has: bool)
    ensures has <==> b in pool[..]
  {
    for i := 0 to pool.Length
      invariant b !in pool[..i]
    {
      if pool[i] == b {
        return true;
      }
    }
    return false;
  }

  predicate InPool(st: RS.State, routes: RS.Routes, m: string, b: Backend) {
    m in routes && RS.Whole(m) in st.pools && b in st.pools[RS.Whole(m)]
  }

  method RouteHas(reg: Registry, m: string, b: Backend) returns (has: bool)
    requires reg.Valid()
    ensures has <==> InPool(reg.View(), reg.routes, m, b)
  {
    if m !in reg.routes {
      return false;
    }
    assert RS.IsSlot(reg.routes, RS.Whole(m)) && RS.Whole(m) in reg.View().pools;
    has := PoolHas(reg.pools[RS.Whole(m)], b);
  }

  method BackendSynced(reg: Registry, row: Row) returns (ok: bool)
    requires reg.Valid()
    ensures ok <==> Synced(reg.View(), reg.routes, row)
  {
    hide RS.Inv, InPool, LabelsEqual;
    if row.backend.id !in reg.byId {
      return false;
    }
    var b := reg.byId[row.backend.id];
    var c := row.backend;
    if || b.cfg.url != c.url || b.cfg.engine != c.engine || b.cfg.weight != c.weight
       || b.cfg.maxConcurrency != c.maxConcurrency || b.cfg.metricsPath != c.metricsPath
       || b.cfg.healthPath != c.healthPath || b.cfg.bootstrapPort != c.bootstrapPort {
      return false;
    }
    var labels := CompareLabels(b.cfg.labels, c.labels);
    if !labels {
      return false;
    }
    for i := 0 to |row.models|
      invariant forall j :: 0 <= j < i ==> InPool(reg.View(), reg.routes, row.models[j], b)
    {
      var has := RouteHas(reg, row.models[i], b);
      if !has {
        return false;
      }
    }
    return true;
  }

  /** A row that can be applied and that carries the weight an instance would get from it. */
  predicate RowOk(routes: RS.Routes, urlOk: string -> bool, row: Row) {
    RS.ModelsOk(routes, row.models) && urlOk(row.backend.url) && row.backend.weight > 0.0
  }

  /** An upserted row is in sync, unless its weight is not normalised. */
  lemma {:induction false} UpsertSyncs(st: RS.State, routes: RS.Routes, b: Backend, row: Row)
    requires RS.Inv(st, routes) && RS.ModelsOk(routes, row.models)
      && b.cfg == row.backend.(weight := NormalizeWeight(row.backend.weight))
    ensures Synced(RS.Upsert(st, b, row.models), routes, row) <==> row.backend.weight > 0.0
  {
    var st' := RS.Upsert(st, b, row.models);
    forall m | m in row.models ensures m in routes && RS.Whole(m) in st'.pools && b in st'.pools[RS.Whole(m)] {
      assert RS.IsSlot(routes, RS.Whole(m));
    }
    assert LabelsEqual(row.backend.labels, row.backend.labels);
  }

  /** No instance ever matches a row whose weight is not positive, so such a row is applied again every round. */
  lemma {:induction false} UnnormalisedNeverSynced(st: RS.State, routes: RS.Routes, row: Row)
    requires row.backend.weight <= 0.0
    requires forall id :: id in st.byId ==> st.byId[id].cfg.weight == NormalizeWeight(st.byId[id].cfg.weight)
    ensures !Synced(st, routes, row)
  {
    if row.backend.id in st.byId {
      assert st.byId[row.backend.id].cfg.weight > 0.0;
    }
  }

  lemma {:induction false} UpsertKeepsOthers(st: RS.State, routes: RS.Routes, b: Backend, models: seq<string>, row: Row)
    requires RS.Inv(st, routes) && b !in st.all && row.backend.id != b.cfg.id
    ensures Synced(RS.Upsert(st, b, models), routes, row) <==> Synced(st, routes, row)
  {
    hide RS.Upsert, RS.With, RS.Without, LabelsEqual;
    RS.UpsertExchanges(st, routes, b, models);
    var st' := RS.Upsert(st, b, models);
    if row.backend.id in st.byId {
      var x := st.byId[row.backend.id];
      assert x in st.all && x.cfg.id != b.cfg.id && x != b;
    }
  }

  lemma {:induction false} RemoveKeepsOthers(st: RS.State, routes: RS.Routes, b: Backend, row: Row)
    requires RS.Inv(st, routes) && row.backend.id != b.cfg.id && Synced(st, routes, row)
    ensures Synced(RS.Remove(st, b), routes, row)
  {
  }

  // ---------------------------------------------------------------- one round

  ghost function Ids(rows: seq<Row>): set<string> { set r | r in rows :: r.backend.id }

  ghost predicate DistinctIds(rows: seq<Row>) {
    forall i, j :: 0 <= i < j < |rows| ==> rows[i].backend.id != rows[j].backend.id
  }

  predicate Applicable(routes: RS.Routes, urlOk: string -> bool, row: Row) {
    RS.ModelsOk(routes, row.models) && urlOk(row.backend.url)
  }

  /** Nothing is left to do. */
  ghost predicate Settled(st: RS.State, routes: RS.Routes, urlOk: string -> bool, rows: seq<Row>, yaml: set<string>) {
    && (forall r :: r in rows ==> Synced(st, routes, r) || !Applicable(routes, urlOk, r))
    && (forall b :: b in st.all ==> b.cfg.id in yaml || b.cfg.id in Ids(rows))
  }

  /** What the rows processed so far have done to the table of instances. */
  ghost predicate Touched(was: map<string, Backend>, now: map<string, Backend>, rows: seq<Row>) {
    && (forall id :: id in was ==> id in now)
    && (forall id :: id in now ==> id in was || id in Ids(rows))
    && (forall id :: id in was && id !in Ids(rows) ==> now[id] == was[id])
  }

  lemma {:induction false} NewcomerIsNew(st: RS.State, routes: RS.Routes)
    requires RS.Inv(st, routes)
    ensures forall id :: id in st.byId ==> st.byId[id] in st.all
  {
  }

  /** Unless the row was in sync before, its id has a new instance. */
  ghost predicate Replaced(was: RS.State, now: RS.State, routes: RS.Routes, row: Row) {
    var id := row.backend.id;
    id in was.byId && id in now.byId && now.byId[id] == was.byId[id] ==> Synced(was, routes, row)
  }

  method ApplyRow(reg: Registry, row: Row)
    requires reg.Valid()
    modifies reg
    ensures reg.Valid()
    ensures RowOk(reg.routes, reg.urlOk, row) ==> Synced(reg.View(), reg.routes, row)
    ensures old(Synced(reg.View(), reg.routes, row)) || !Applicable(reg.routes, reg.urlOk, row) ==>
      reg.View() == old(reg.View()) && reg.pools == old(reg.pools)
    ensures Touched(old(reg.byId), reg.byId, [row])
    ensures RowOk(reg.routes, reg.urlOk, row) ==> Replaced(old(reg.View()), reg.View(), reg.routes, row)
    ensures forall r: Row :: r.backend.id != row.backend.id ==>
      (Synced(reg.View(), reg.routes, r) <==> old(Synced(reg.View(), reg.routes, r)))
  {
    hide Synced, RS.Upsert, RS.Inv;
    ghost var st := reg.View();
    NewcomerIsNew(st, reg.routes);
    assert Ids([row]) == {row.backend.id} by { assert [row][0] in [row]; }
    var synced := BackendSynced(reg, row);
    if synced {
      return;
    }
    var r := reg.UpsertBackend(row.backend, row.models);
    if r.Some? {
      UpsertSyncs(st, reg.routes, r.value, row);
      forall o: Row | o.backend.id != row.backend.id
        ensures Synced(reg.View(), reg.routes, o) <==> Synced(st, reg.routes, o)
      {
        UpsertKeepsOthers(st, reg.routes, r.value, row.models, o);
      }
    }
  }

  lemma {:induction false} TouchedMore(was: map<string, Backend>, mid: map<string, Backend>, now: map<string, Backend>,
    rows: seq<Row>, row: Row)
    requires Touched(was, mid, rows) && Touched(mid, now, [row])
    ensures Touched(was, now, rows + [row])
  {
    assert Ids(rows + [row]) == Ids(rows) + Ids([row]);
  }

  /** A row already processed: in sync if it can be, and with a new instance unless it was in sync. */
  ghost predicate RowDone(st: RS.State, now: RS.State, routes: RS.Routes, urlOk: string -> bool, row: Row) {
    RowOk(routes, urlOk, row) ==> Synced(now, routes, row) && Replaced(st, now, routes, row)
  }

  /** A row that was in sync still is, with the same instance. */
  ghost predicate RowKept(st: RS.State, now: RS.State, routes: RS.Routes, row: Row) {
    Synced(st, routes, row) && row.backend.id in st.byId ==>
      Synced(now, routes, row) && row.backend.id in now.byId && now.byId[row.backend.id] == st.byId[row.backend.id]
  }

  /** After the first `i` rows. */
  ghost predicate Progress(st: RS.State, now: RS.State, routes: RS.Routes, urlOk: string -> bool, rows: seq<Row>,
    i: nat)
    requires i <= |rows|
  {
    && Touched(st.byId, now.byId, rows[..i])
    && (forall j :: 0 <= j < i ==> RowDone(st, now, routes, urlOk, rows[j]))
    && (forall j :: 0 <= j < |rows| ==> RowKept(st, now, routes, rows[j]))
    && (forall j :: i <= j < |rows| ==> (Synced(now, routes, rows[j]) <==> Synced(st, routes, rows[j])))
  }

  lemma {:induction false} ProgressStarts(st: RS.State, routes: RS.Routes, urlOk: string -> bool, rows: seq<Row>)
    ensures Progress(st, st, routes, urlOk, rows, 0)
  {
    hide Synced;
  }

  lemma {:induction false} OneRow(st: RS.State, view: RS.State, now: RS.State, routes: RS.Routes, urlOk: string -> bool,
    rows: seq<Row>, i: nat, j: nat)
    requires i < |rows| && j < |rows| && DistinctIds(rows) && Progress(st, view, routes, urlOk, rows, i)
    requires Touched(view.byId, now.byId, [rows[i]]) && (Synced(view, routes, rows[i]) ==> now == view)
    requires RowOk(routes, urlOk, rows[i]) ==> Synced(now, routes, rows[i]) && Replaced(view, now, routes, rows[i])
    requires rows[j].backend.id != rows[i].backend.id ==> (Synced(now, routes, rows[j]) <==>
      Synced(view, routes, rows[j]))
    ensures j <= i ==> RowDone(st, now, routes, urlOk, rows[j])
    ensures RowKept(st, now, routes, rows[j])
    ensures j > i ==> (Synced(now, routes, rows[j]) <==> Synced(st, routes, rows[j]))
  {
    hide Synced, RowOk;
    assert RowKept(st, view, routes, rows[j]);
    if j == i {
      forall r | r in rows[..i] ensures r.backend.id != rows[i].backend.id {
      }
    } else {
      assert rows[j].backend.id != rows[i].backend.id;
      assert j < i ==> RowDone(st, view, routes, urlOk, rows[j]);
    }
  }

  lemma {:induction false} ProgressStep(st: RS.State, view: RS.State, now: RS.State, routes: RS.Routes,
    urlOk: string -> bool, rows: seq<Row>, i: nat)
    requires i < |rows| && DistinctIds(rows) && Progress(st, view, routes, urlOk, rows, i)
    requires Touched(view.byId, now.byId, [rows[i]]) && (Synced(view, routes, rows[i]) ==> now == view)
    requires RowOk(routes, urlOk, rows[i]) ==> Synced(now, routes, rows[i]) && Replaced(view, now, routes, rows[i])
    requires forall r: Row :: r.backend.id != rows[i].backend.id ==>
      (Synced(now, routes, r) <==> Synced(view, routes, r))
    ensures Progress(st, now, routes, urlOk, rows, i + 1)
  {
    hide Synced, RowOk, Replaced, RowDone, RowKept, Touched;
    TouchedMore(st.byId, view.byId, now.byId, rows[..i], rows[i]);
    assert rows[..i + 1] == rows[..i] + [rows[i]];
    forall j: nat | j < |rows|
      ensures j <= i ==> RowDone(st, now, routes, urlOk, rows[j])
      ensures RowKept(st, now, routes, rows[j])
      ensures j > i ==> (Synced(now, routes, rows[j]) <==> Synced(st, routes, rows[j]))
    {
      OneRow(st, view, now, routes, urlOk, rows, i, j);
    }
  }

  lemma {:induction false} ProgressDone(st: RS.State, now: RS.State, routes: RS.Routes, urlOk: string -> bool,
    rows: seq<Row>)
    requires Progress(st, now, routes, urlOk, rows, |rows|)
    ensures Touched(st.byId, now.byId, rows)
    ensures forall r :: r in rows ==> RowDone(st, now, routes, urlOk, r) && RowKept(st, now, routes, r)
  {
    hide RowDone, RowKept;
    assert rows[..|rows|] == rows;
  }

  /** The first loop: missing or outdated rows are applied. */
  method ApplyRows(reg: Registry, rows: seq<Row>)
    requires reg.Valid() && DistinctIds(rows)
    modifies reg
    ensures reg.Valid() && Touched(old(reg.byId), reg.byId, rows)
    ensures forall r :: r in rows ==>
      RowDone(old(reg.View()), reg.View(), reg.routes, reg.urlOk, r)
        && RowKept(old(reg.View()), reg.View(), reg.routes, r)
    ensures (forall r :: r in rows ==>
      old(Synced(reg.View(), reg.routes, r)) || !Applicable(reg.routes, reg.urlOk, r)) ==>
            reg.View() == old(reg.View()) && reg.pools == old(reg.pools)
  {
    hide Synced, RowOk, Applicable, Replaced, Touched, Progress, RowDone, RowKept;
    ghost var st, quiet := reg.View(), forall r :: r in rows ==>
      Synced(reg.View(), reg.routes, r) || !Applicable(reg.routes, reg.urlOk, r);
    ProgressStarts(st, reg.routes, reg.urlOk, rows);
    for i := 0 to |rows|
      invariant reg.Valid() && Progress(st, reg.View(), reg.routes, reg.urlOk, rows, i)
      invariant quiet ==> reg.View() == st && reg.pools == old(reg.pools)
    {
      ghost var view := reg.View();
      ApplyRow(reg, rows[i]);
      ProgressStep(st, view, reg.View(), reg.routes, reg.urlOk, rows, i);
    }
    ProgressDone(st, reg.View(), reg.routes, reg.urlOk, rows);
  }

  ghost predicate Keep(id: string, rows: seq<Row>, yaml: set<string>) { id in yaml || id in Ids(rows) }

  method Evict(reg: Registry, rows: seq<Row>, id: string)
    requires reg.Valid() && id !in Ids(rows)
    modifies reg
    ensures reg.Valid() && reg.byId == old(reg.byId) - {id}
    ensures forall r :: r in rows && Synced(old(reg.View()), reg.routes, r) ==> Synced(reg.View(), reg.routes, r)
  {
    hide Synced, RS.Inv;
    ghost var view := reg.View();
    IdsMatch(view, reg.routes, id);
    var ok := reg.RemoveBackend(id);
    if ok {
      forall r | r in rows && Synced(view, reg.routes, r) ensures Synced(reg.View(), reg.routes, r) {
        assert r.backend.id in Ids(rows);
        RemoveKeepsOthers(view, reg.routes, view.byId[id], r);
      }
    }
  }

  lemma {:induction false} IdsMatch(st: RS.State, routes: RS.Routes, id: string)
    requires RS.Inv(st, routes)
    ensures id in st.byId ==> st.byId[id].cfg.id == id
  {
  }

  /** The second loop: what is neither in the database nor in the YAML baseline goes. */
  method SweepStale(reg: Registry, rows: seq<Row>, yaml: set<string>)
    requires reg.Valid()
    modifies reg
    ensures reg.Valid()
    ensures forall id :: id in reg.byId <==> id in old(reg.byId) && Keep(id, rows, yaml)
    ensures forall id :: id in reg.byId ==> reg.byId[id] == old(reg.byId)[id]
    ensures forall r :: r in rows && old(Synced(reg.View(), reg.routes, r)) ==> Synced(reg.View(), reg.routes, r)
    ensures (forall b :: b in old(reg.all) ==> Keep(b.cfg.id, rows, yaml)) ==>
      reg.View() == old(reg.View()) && reg.pools == old(reg.pools)
  {
    hide Synced, Keep, RS.Inv;
    ghost var st := reg.View();
    ByIdIsAll(st, reg.routes);
    var ids := set r | r in rows :: r.backend.id;
    var all := reg.all;
    for i := 0 to |all|
      invariant reg.Valid()
      invariant forall id :: id in reg.byId <==> id in st.byId && (Keep(id, rows, yaml) || st.byId[id] !in all[..i])
      invariant forall id :: id in reg.byId ==> reg.byId[id] == st.byId[id]
      invariant forall r :: r in rows && Synced(st, reg.routes, r) ==> Synced(reg.View(), reg.routes, r)
      invariant (forall b :: b in all ==> Keep(b.cfg.id, rows, yaml)) ==>
        reg.View() == st && reg.pools == old(reg.pools)
    {
      var b := all[i];
      assert all[..i + 1] == all[..i] + [b];
      assert st.byId[b.cfg.id] == b;
      KeepIs(b.cfg.id, rows, yaml, ids);
      if !(b.cfg.id in yaml || b.cfg.id in ids) {
        assert b in all;
        Evict(reg, rows, b.cfg.id);
      }
    }
    assert all[..|all|] == all;
  }

  lemma {:induction false} ByIdIsAll(st: RS.State, routes: RS.Routes)
    requires RS.Inv(st, routes)
    ensures forall b :: b in st.all ==> b.cfg.id in st.byId && st.byId[b.cfg.id] == b
    ensures forall id :: id in st.byId ==> st.byId[id] in st.all && st.byId[id].cfg.id == id
  {
  }

  lemma {:induction false} KeepIs(id: string, rows: seq<Row>, yaml: set<string>, ids: set<string>)
    requires ids == Ids(rows)
    ensures Keep(id, rows, yaml) <==> id in yaml || id in ids
  {
  }

  /** What the registry can apply as it stands: existing routes outside PD, a good URL and a positive weight. */
  ghost predicate Sound(routes: RS.Routes, urlOk: string -> bool, row: Row) {
    && row.models != [] && (forall m :: m in row.models ==> m in routes && !routes[m].pd)
    && urlOk(row.backend.url) && row.backend.weight > 0.0
  }

  lemma {:induction false} HasEntry(st: RS.State, routes: RS.Routes, row: Row)
    requires Synced(st, routes, row)
    ensures row.backend.id in st.byId
  {
  }

  lemma {:induction false} ReplacedIs(was: RS.State, now: RS.State, routes: RS.Routes, row: Row)
    requires Replaced(was, now, routes, row) && row.backend.id in was.byId && row.backend.id in now.byId
    ensures now.byId[row.backend.id] == was.byId[row.backend.id] ==> Synced(was, routes, row)
  {
  }

  /**
   reconcileBackends.  Every applicable row with a normalised weight ends up in sync; exactly the
   backends in neither the rows nor the baseline are removed; instances that need no change are kept.
   */
  method ReconcileBackends(reg: Registry, rows: seq<Row>, yaml: set<string>)
    requires reg.Valid() && DistinctIds(rows)
    modifies reg
    ensures reg.Valid()
    ensures forall r :: r in rows && RowOk(reg.routes, reg.urlOk, r) ==> Synced(reg.View(), reg.routes, r)
    ensures forall id :: id in old(reg.byId) ==> (id in reg.byId <==> Keep(id, rows, yaml))
    ensures forall id :: id in old(reg.byId) ==> (id in reg.byId <==>
      id in yaml || exists r :: r in rows && r.backend.id == id)
    ensures forall r :: r in rows && Sound(reg.routes, reg.urlOk, r) ==> InForce(reg.View(), r)
    ensures forall r :: r in rows && Sound(reg.routes, reg.urlOk, r) && r.backend.id in old(reg.byId) ==>
      (reg.byId[r.backend.id] == old(reg.byId)[r.backend.id] <==> InForce(old(reg.View()), r))
    ensures forall id :: id in reg.byId ==> id in old(reg.byId) || id in Ids(rows)
    ensures forall id :: id in reg.byId && id in old(reg.byId) && id !in Ids(rows) ==> reg.byId[id] == old(reg.byId)[id]
    ensures forall r :: r in rows && old(Synced(reg.View(), reg.routes, r)) && r.backend.id in old(reg.byId) ==>
            r.backend.id in reg.byId && reg.byId[r.backend.id] == old(reg.byId)[r.backend.id]
    ensures (forall r :: r in rows && Applicable(reg.routes, reg.urlOk, r) ==> r.backend.weight > 0.0) ==>
            Settled(reg.View(), reg.routes, reg.urlOk, rows, yaml)
    ensures old(Settled(reg.View(), reg.routes, reg.urlOk, rows, yaml)) ==>
      reg.View() == old(reg.View()) && reg.pools == old(reg.pools)
  {
    hide Synced, InForce, Replaced;
    ghost var st := reg.View();
    ApplyRows(reg, rows);
    ghost var mid := reg.View();
    SweepStale(reg, rows, yaml);
    forall r | r in rows && Sound(reg.routes, reg.urlOk, r) ensures r.backend.id in reg.byId && InForce(reg.View(), r) {
      SyncedIff(reg.View(), reg.routes, r);
      HasEntry(reg.View(), reg.routes, r);
    }
    forall r | r in rows && Sound(reg.routes, reg.urlOk, r) && r.backend.id in st.byId
      ensures reg.byId[r.backend.id] == st.byId[r.backend.id] <==> InForce(st, r)
    {
      SyncedIff(st, reg.routes, r);
      ReplacedIs(st, mid, reg.routes, r);
    }
    forall b | b in reg.all ensures Keep(b.cfg.id, rows, yaml) {
      assert b.cfg.id in reg.byId;
    }
  }

  /** Over normalised rows a second round changes nothing: not a pool, not an instance. */
  method SecondRoundIsNoOp(reg: Registry, rows: seq<Row>, yaml: set<string>) returns (ghost first: RS.State)
    requires reg.Valid() && DistinctIds(rows)
    requires forall r :: r in rows && Applicable(reg.routes, reg.urlOk, r) ==> r.backend.weight > 0.0
    modifies reg
    ensures reg.Valid() && reg.View() == first
    ensures Settled(first, reg.routes, reg.urlOk, rows, yaml)
  {
    hide Settled, Applicable;
    ReconcileBackends(reg, rows, yaml);
    first := reg.View();
    ReconcileBackends(reg, rows, yaml);
  }
}
