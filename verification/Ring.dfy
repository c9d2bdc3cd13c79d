/**
 Consistent hashing of internal/scheduler/ring.go.

 The hash functions are parameters.  Only where the choice has to be unique are the virtual nodes
 of the pool assumed to have different hashes, because the sort is not stable.
 */
module Ring {
  import opened Options
  import opened Backends

  const VNODES: nat := 64
  const HASH_LIMIT: int := 0x1_0000_0000_0000_0000

  /** `point(id, i)` is the hash of virtual node `i`, `key(k)` that of a request key. */
  datatype Hashes = Hashes(point: (string, nat) -> int, key: string -> int)

  datatype Point = Point(hash: int, b: Backend)

  ghost predicate HashesOk(h: Hashes) {
    && (forall id, i: nat {:trigger h.point(id, i)} :: 0 <= h.point(id, i) < HASH_LIMIT)
    && (forall k {:trigger h.key(k)} :: 0 <= h.key(k) < HASH_LIMIT)
  }

  /** The virtual nodes of the ids of `pool` have different hashes. */
  ghost predicate Distinct(h: Hashes, pool: seq<Backend>) {
    forall a, i: nat, b, j: nat {:trigger h.point(a, i), h.point(b, j)} ::
      a in Ids(pool) && b in Ids(pool) && i < VNODES && j < VNODES && h.point(a, i) == h.point(b, j) ==>
        a == b && i == j
  }

  ghost function Ids(pool: seq<Backend>): set<string> { set b | b in pool :: b.cfg.id }

  ghost function PositionOf(pool: seq<Backend>, id: string): (n: int)
    ensures id in Ids(pool) ==> 0 <= n < |pool| && pool[n].cfg.id == id
    ensures id !in Ids(pool) ==> n == -1
  {
    if id in Ids(pool) then var n :| 0 <= n < |pool| && pool[n].cfg.id == id; n else -1
  }

  /** The assumptions can be met for every pool whose virtual nodes fit the hash range. */
  lemma {:induction false} DistinctHashesExist(pool: seq<Backend>) returns (h: Hashes)
    requires |pool| * VNODES <= HASH_LIMIT
    ensures HashesOk(h) && Distinct(h, pool)
  {
    var ids := Ids(pool);
    var at := map id | id in ids :: PositionOf(pool, id);
    h := Hashes((id, i: nat) => if id in at && i < VNODES then at[id] * VNODES + i else 0, k => 0);
    forall id, i: nat ensures 0 <= h.point(id, i) < HASH_LIMIT {
      assert id in at && i < VNODES ==> 0 <= at[id] < |pool|;
    }
    forall a, i: nat, b, j: nat | a in ids && b in ids && i < VNODES && j < VNODES && h.point(a, i) == h.point(b, j)
      ensures a == b && i == j
    {
      assert at[a] * VNODES + i == at[b] * VNODES + j;
      assert pool[at[a]].cfg.id == a && pool[at[b]].cfg.id == b;
    }
  }

  /** `p` is a virtual node of a backend of `pool`. */
  ghost predicate IsPoint(h: Hashes, pool: seq<Backend>, p: Point) {
    p.b in pool && exists i: nat :: i < VNODES && p.hash == h.point(p.b.cfg.id, i)
  }

  function PointOf(h: Hashes, b: Backend, i: nat): Point { Point(h.point(b.cfg.id, i), b) }

  /** Exactly the virtual nodes of a pool. */
  ghost predicate HasPoints(h: Hashes, pool: seq<Backend>, ps: seq<Point>) {
    && (forall p :: p in ps ==> IsPoint(h, pool, p))
    && (forall b, i: nat {:trigger PointOf(h, b, i)} :: b in pool && i < VNODES ==> PointOf(h, b, i) in ps)
  }

  predicate Sorted(ps: seq<Point>) {
    forall i, j :: 0 <= i < j < |ps| ==> ps[i].hash <= ps[j].hash
  }

  /** A ring of a pool: its points in order of their hashes. */
  ghost predicate IsRing(h: Hashes, pool: seq<Backend>, ring: seq<Point>) {
    Sorted(ring) && HasPoints(h, pool, ring)
  }

  /** One insertion of an insertion sort. */
  method Insert(sorted: seq<Point>, p: Point) returns (out: seq<Point>)
    requires Sorted(sorted)
    ensures Sorted(out) && multiset(out) == multiset(sorted) + multiset{p}
  {
    hide Sorted;
    var k := |sorted|;
    while k > 0 && sorted[k - 1].hash > p.hash
      invariant 0 <= k <= |sorted|
      invariant forall i :: k <= i < |sorted| ==> sorted[i].hash > p.hash
    {
      k := k - 1;
    }
    assert sorted == sorted[..k] + sorted[k..];
    out := sorted[..k] + [p] + sorted[k..];
    InsertedSorted(sorted, k, p);
  }

  lemma {:induction false} InsertedSorted(sorted: seq<Point>, k: nat, p: Point)
    requires Sorted(sorted) && k <= |sorted|
    requires k > 0 ==> sorted[k - 1].hash <= p.hash
    requires forall i :: k <= i < |sorted| ==> sorted[i].hash > p.hash
    ensures Sorted(sorted[..k] + [p] + sorted[k..])
  {
    var out := sorted[..k] + [p] + sorted[k..];
    forall i, j | 0 <= i < j < |out| ensures out[i].hash <= out[j].hash {
      assert out[i] == if i < k then sorted[i] else if i == k then p else sorted[i - 1];
      assert out[j] == if j < k then sorted[j] else if j == k then p else sorted[j - 1];
      if i < k <= j {
        assert sorted[i].hash <= sorted[k - 1].hash;
      }
    }
  }

  method SortPoints(points: seq<Point>) returns (sorted: seq<Point>)
    ensures Sorted(sorted) && multiset(sorted) == multiset(points)
  {
    sorted := [];
    for n := 0 to |points|
      invariant Sorted(sorted) && multiset(sorted) == multiset(points[..n])
    {
      assert points[..n + 1] == points[..n] + [points[n]];
      sorted := Insert(sorted, points[n]);
    }
    assert points[..|points|] == points;
  }

  method BuildRing(h: Hashes, pool: seq<Backend>) returns (ring: seq<Point>)
    ensures IsRing(h, pool, ring) && |ring| == 64 * |pool|
  {
    var points: seq<Point> := [];
    for n := 0 to |pool|
      invariant HasPoints(h, pool[..n], points) && |points| == 64 * n
    {
      var b := pool[n];
      ghost var was := points;
      for i := 0 to VNODES
        invariant was <= points && |points| == 64 * n + i
        invariant forall p :: p in points ==> p in was || IsPoint(h, [b], p)
        invariant forall j: nat {:trigger PointOf(h, b, j)} :: j < i ==> PointOf(h, b, j) in points
      {
        points := points + [PointOf(h, b, i)];
      }
      assert pool[..n + 1] == pool[..n] + [b];
      forall p | p in points ensures IsPoint(h, pool[..n + 1], p) {
        assert p in was || IsPoint(h, [b], p);
      }
      forall c, i: nat | c in pool[..n + 1] && i < VNODES ensures PointOf(h, c, i) in points {
        assert c in pool[..n] ==> PointOf(h, c, i) in was;
      }
    }
    assert pool[..|pool|] == pool;
    ring := SortPoints(points);
    assert |multiset(ring)| == |ring| && |multiset(points)| == |points|;
    assert forall p :: p in points ==> p in multiset(points);
    assert forall p :: p in ring ==> p in multiset(ring);
  }

  // ---------------------------------------------------------------- lookup

  /** How far one has to go clockwise from `h` to `x`. */
  function Distance(h: int, x: int): int { if x >= h then x - h else x - h + HASH_LIMIT }

  predicate Allowed(pool: seq<Backend>, ids: set<string>, b: Backend) { b in pool && b.cfg.id in ids }

  /** `b` owns the nearest point clockwise from `h` among the backends of `pool` whose id is in `ids`. */
  ghost predicate IsChoice(hs: Hashes, pool: seq<Backend>, ids: set<string>, h: int, b: Backend) {
    Allowed(pool, ids, b) && exists i: nat :: i < VNODES && IsNearest(hs, pool, ids, h, PointOf(hs, b, i).hash)
  }

  ghost predicate IsNearest(hs: Hashes, pool: seq<Backend>, ids: set<string>, h: int, x: int) {
    forall c, j: nat {:trigger PointOf(hs, c, j)} :: c in pool && c.cfg.id in ids && j < VNODES ==>
      Distance(h, x) <= Distance(h, PointOf(hs, c, j).hash)
  }

  /** The first position whose hash is at least `h` (binary search). */
  method Search(ring: seq<Point>, h: int) returns (idx: nat)
    requires Sorted(ring)
    ensures idx <= |ring| && (forall i :: 0 <= i < idx ==> ring[i].hash < h)
      && (forall i :: idx <= i < |ring| ==> ring[i].hash >= h)
  {
    var lo, hi := 0, |ring|;
    while lo < hi
      invariant 0 <= lo <= hi <= |ring|
      invariant forall i :: 0 <= i < lo ==> ring[i].hash < h
      invariant forall i :: hi <= i < |ring| ==> ring[i].hash >= h
    {
      var mid := (lo + hi) / 2;
      if ring[mid].hash >= h {
        hi := mid;
      } else {
        lo := mid + 1;
      }
    }
    idx := lo;
  }

  function Turn(idx: nat, i: nat, n: nat): nat
    requires n > 0 && idx <= n && i < n
    ensures Turn(idx, i, n) < n
  {
    if idx + i < n then idx + i else idx + i - n
  }

  lemma {:induction false} TurnIsModulo(idx: nat, i: nat, n: nat)
    requires n > 0 && idx <= n && i < n
    ensures Turn(idx, i, n) == (idx + i) % n
  {
  }

  /** Walking on from the search position only ever gets farther away. */
  lemma {:induction false} FartherOn(ring: seq<Point>, h: int, idx: nat, i: nat, j: nat)
    requires Sorted(ring) && idx <= |ring| && i <= j < |ring| && 0 <= h < HASH_LIMIT
    requires forall k :: 0 <= k < |ring| ==> 0 <= ring[k].hash < HASH_LIMIT
    requires (forall k :: 0 <= k < idx ==> ring[k].hash < h) && (forall k :: idx <= k < |ring| ==> ring[k].hash >= h)
    ensures Distance(h, ring[Turn(idx, i, |ring|)].hash) <= Distance(h, ring[Turn(idx, j, |ring|)].hash)
  {
    var a, b := Turn(idx, i, |ring|), Turn(idx, j, |ring|);
    assert i != j && (idx + i < |ring|) == (idx + j < |ring|) ==> a < b;
  }

  /** The lookup: the nearest allowed point, or nothing if no backend of the pool is allowed. */
  method Get(hs: Hashes, ghost pool: seq<Backend>, ring: seq<Point>, key: string, ids: set<string>)
    returns (r: Option<Backend>)
    requires HashesOk(hs) && IsRing(hs, pool, ring)
    ensures r.Some? ==> IsChoice(hs, pool, ids, hs.key(key), r.value)
    ensures r.None? <==> forall b :: b in pool ==> b.cfg.id !in ids
  {
    if |ring| == 0 {
      assert forall b :: b in pool ==> PointOf(hs, b, 0) in ring;
      return None;
    }
    var h := hs.key(key);
    var idx := Search(ring, h);
    forall k | 0 <= k < |ring| ensures 0 <= ring[k].hash < HASH_LIMIT {
      assert ring[k] in ring && IsPoint(hs, pool, ring[k]);
    }
    var n := |ring|;
    for i := 0 to n
      invariant forall k: nat :: k < i ==> ring[Turn(idx, k, n)].b.cfg.id !in ids
    {
      TurnIsModulo(idx, i, n);
      var p := ring[(idx + i) % n];
      if p.b.cfg.id in ids {
        FirstIsNearest(hs, pool, ring, ids, h, idx, i);
        return Some(p.b);
      }
    }
    forall b | b in pool ensures b.cfg.id !in ids {
      var k := Position(ring, PointOf(hs, b, 0), idx);
    }
    return None;
  }

  lemma {:induction false} Position(ring: seq<Point>, p: Point, idx: nat) returns (k: nat)
    requires p in ring && idx <= |ring|
    ensures k < |ring| && ring[Turn(idx, k, |ring|)] == p
  {
    var x :| 0 <= x < |ring| && ring[x] == p;
    k := if x >= idx then x - idx else x - idx + |ring|;
  }

  lemma {:induction false} FirstIsNearest(hs: Hashes, pool: seq<Backend>, ring: seq<Point>, ids: set<string>, h: int,
    idx: nat, i: nat)
    requires HashesOk(hs) && IsRing(hs, pool, ring) && idx <= |ring| && i < |ring| && 0 <= h < HASH_LIMIT
    requires forall k :: 0 <= k < |ring| ==> 0 <= ring[k].hash < HASH_LIMIT
    requires (forall k :: 0 <= k < idx ==> ring[k].hash < h) && (forall k :: idx <= k < |ring| ==> ring[k].hash >= h)
    requires forall k: nat :: k < i ==> ring[Turn(idx, k, |ring|)].b.cfg.id !in ids
    requires ring[Turn(idx, i, |ring|)].b.cfg.id in ids
    ensures IsChoice(hs, pool, ids, h, ring[Turn(idx, i, |ring|)].b)
  {
    var p := ring[Turn(idx, i, |ring|)];
    assert p in ring && IsPoint(hs, pool, p);
    forall c, j: nat | c in pool && c.cfg.id in ids && j < VNODES
      ensures Distance(h, p.hash) <= Distance(h, PointOf(hs, c, j).hash)
    {
      var k := Position(ring, PointOf(hs, c, j), idx);
      FartherOn(ring, h, idx, i, k);
    }
    var v: nat :| v < VNODES && p.hash == hs.point(p.b.cfg.id, v);
    assert p == PointOf(hs, p.b, v);
  }

  /** `x` comes first clockwise from `h`: the least of the points at or after `h`, or else the least of all. */
  ghost predicate FirstClockwise(hs: Hashes, pool: seq<Backend>, ids: set<string>, h: int, x: int) {
    forall c, j: nat {:trigger hs.point(c, j)} :: j < 64 && c in ids && (exists b :: b in pool && b.cfg.id == c) ==>
      var y := hs.point(c, j); if y >= h then h <= x <= y else x >= h || x <= y
  }

  /** The choice owns such a point. */
  lemma {:induction false} ChoiceIsClockwise(hs: Hashes, pool: seq<Backend>, ids: set<string>, h: int, b: Backend)
    requires HashesOk(hs) && 0 <= h < HASH_LIMIT && IsChoice(hs, pool, ids, h, b)
    ensures b in pool && b.cfg.id in ids
    ensures exists i: nat :: i < 64 && FirstClockwise(hs, pool, ids, h, hs.point(b.cfg.id, i))
  {
    var i: nat :| i < VNODES && IsNearest(hs, pool, ids, h, PointOf(hs, b, i).hash);
    var x := hs.point(b.cfg.id, i);
    forall c, j: nat | j < 64 && c in ids && exists o :: o in pool && o.cfg.id == c
      ensures var y := hs.point(c, j); if y >= h then h <= x <= y else x >= h || x <= y
    {
      var o :| o in pool && o.cfg.id == c;
      assert PointOf(hs, o, j).hash == hs.point(c, j);
    }
    assert FirstClockwise(hs, pool, ids, h, hs.point(b.cfg.id, i));
  }

  // ---------------------------------------------------------------- what the choice depends on

  /** The choice is unique, whichever sorted ring was built. */
  lemma {:induction false} ChoiceUnique(hs: Hashes, pool: seq<Backend>, ids: set<string>, h: int, a: Backend,
    b: Backend)
    requires HashesOk(hs) && Distinct(hs, pool) && IdsIdentify(pool) && IsChoice(hs, pool, ids, h, a)
      && IsChoice(hs, pool, ids, h, b)
    ensures a == b
  {
    var i: nat :| i < VNODES && IsNearest(hs, pool, ids, h, PointOf(hs, a, i).hash);
    var j: nat :| j < VNODES && IsNearest(hs, pool, ids, h, PointOf(hs, b, j).hash);
    var p, q := PointOf(hs, a, i), PointOf(hs, b, j);
    assert Distance(h, p.hash) == Distance(h, q.hash);
    assert p.hash == q.hash;
  }

  /** Looking up on the ring of a sub-pool is looking up on the full ring and skipping the others. */
  lemma {:induction false} SubPoolIsSkipping(hs: Hashes, pool: seq<Backend>, sub: seq<Backend>, ids: set<string>,
    h: int, b: Backend)
    requires IdsIdentify(pool) && forall x :: x in sub ==> x in pool
    ensures IsChoice(hs, sub, ids, h, b) <==> IsChoice(hs, pool, ids * Ids(sub), h, b)
  {
    forall c ensures Allowed(sub, ids, c) <==> Allowed(pool, ids * Ids(sub), c) {
      if Allowed(pool, ids * Ids(sub), c) {
        var x :| x in sub && x.cfg.id == c.cfg.id;
        assert x in pool && x == c;
      }
    }
    forall x ensures IsNearest(hs, sub, ids, h, x) <==> IsNearest(hs, pool, ids * Ids(sub), h, x) {
      assert forall c :: Allowed(sub, ids, c) <==> Allowed(pool, ids * Ids(sub), c);
    }
  }

  /** Taking backends out of service moves only the keys that had chosen one of them. */
  lemma {:induction false} FewerIdsSameChoice(hs: Hashes, pool: seq<Backend>, ids: set<string>, fewer: set<string>,
    h: int, b: Backend)
    requires fewer <= ids && IsChoice(hs, pool, ids, h, b) && b.cfg.id in fewer
    ensures IsChoice(hs, pool, fewer, h, b)
  {
    var i: nat :| i < VNODES && IsNearest(hs, pool, ids, h, PointOf(hs, b, i).hash);
    assert IsNearest(hs, pool, fewer, h, PointOf(hs, b, i).hash);
  }

  /** Minimal disruption: rebuilding the ring without `gone` moves exactly the keys that had chosen `gone`. */
  lemma {:induction false} MinimalDisruption(hs: Hashes, pool: seq<Backend>, rest: seq<Backend>, gone: Backend,
    ids: set<string>, h: int, before: Backend, after: Backend)
    requires HashesOk(hs) && Distinct(hs, pool) && IdsIdentify(pool)
      && (forall x :: x in rest <==> x in pool && x != gone)
    requires IsChoice(hs, pool, ids, h, before) && IsChoice(hs, rest, ids, h, after)
    ensures after == before <==> before != gone
  {
    hide IsChoice, Distinct, HashesOk;
    ChoiceIsAllowed(hs, pool, ids, h, before);
    ChoiceIsAllowed(hs, rest, ids, h, after);
    if before != gone {
      assert before in rest && before.cfg.id in Ids(rest);
      FewerIdsSameChoice(hs, pool, ids, ids * Ids(rest), h, before);
      SubPoolIsSkipping(hs, pool, rest, ids, h, before);
      RestIdentifies(hs, pool, rest);
      ChoiceUnique(hs, rest, ids, h, before, after);
    }
  }

  lemma {:induction false} ChoiceIsAllowed(hs: Hashes, pool: seq<Backend>, ids: set<string>, h: int, b: Backend)
    requires IsChoice(hs, pool, ids, h, b)
    ensures b in pool && b.cfg.id in ids
  {
  }

  lemma {:induction false} RestIdentifies(hs: Hashes, pool: seq<Backend>, rest: seq<Backend>)
    requires IdsIdentify(pool) && Distinct(hs, pool) && forall x :: x in rest ==> x in pool
    ensures IdsIdentify(rest) && Distinct(hs, rest)
  {
    forall i, j | 0 <= i < |rest| && 0 <= j < |rest| && rest[i].cfg.id == rest[j].cfg.id ensures rest[i] == rest[j] {
      assert rest[i] in pool && rest[j] in pool;
    }
    assert Ids(rest) <= Ids(pool);
  }
}
