/** The ring cache of internal/scheduler/scheduler.go. */
module RingCache {
  import opened Options
  import opened Backends
  import opened Ring

  const MAX_RING_CACHE: nat := 128

  datatype CacheEntry = CacheEntry(ring: seq<Point>, pool: seq<Backend>)

  /** Element by element, the same instances. */
  method SameInstances(a: seq<Backend>, b: seq<Backend>) returns (same: bool)
    ensures same <==> a == b
  {
    if |a| != |b| {
      return false;
    }
    for i := 0 to |a|
      invariant a[..i] == b[..i]
    {
      if a[i] != b[i] {
        return false;
      }
    }
    return true;
  }

  class Scheduler {
    const hashes: Hashes
    /** The content signature of a pool: any function at all, collisions included. */
    const sign: seq<Backend> -> string
    var rings: map<string, CacheEntry>

    ghost predicate Valid()
      reads this
    {
      && HashesOk(hashes) && |rings| <= MAX_RING_CACHE
      && forall s :: s in rings ==> IsRing(hashes, rings[s].pool, rings[s].ring)
    }

    constructor (hashes: Hashes, sign: seq<Backend> -> string)
      requires HashesOk(hashes)
      ensures Valid() && this.hashes == hashes && this.sign == sign
    {
      this.hashes, this.sign, rings := hashes, sign, map[];
    }

    /** The ring of `pool`, from the cache if it was built for exactly these instances. */
    method RingFor(pool: seq<Backend>) returns (ring: seq<Point>)
      requires Valid()
      modifies this
      ensures Valid() && IsRing(hashes, pool, ring)
    {
      var sig := sign(pool);
      if sig in rings {
        var same := SameInstances(rings[sig].pool, pool);
        if same {
          return rings[sig].ring;
        }
      }
      ring := BuildRing(hashes, pool);
      if |rings| >= MAX_RING_CACHE {
        rings := map[];
      }
      rings := rings[sig := CacheEntry(ring, pool)];
    }

    /**
     pickHashStable.  Whatever the cache holds, the answer is the choice a freshly built ring
     of the current pool gives, and one of the candidates; the fallback to the first candidate
     is never needed.
     */
    method PickHashStable(pool: seq<Backend>, candidates: seq<Backend>, session: string, prompt: string, model: string)
      returns (r: Option<Backend>)
      requires Valid() && IdsIdentify(pool) && candidates != [] && forall b :: b in candidates ==> b in pool
      modifies this
      ensures Valid()
      ensures r.Some? && r.value in candidates
      ensures var key := if session != "" then session else if prompt != "" then prompt else model;
              IsChoice(hashes, pool, Ids(candidates), hashes.key(key), r.value)
    {
      var key := session;
      if key == "" {
        key := prompt;
      }
      if key == "" {
        key := model;
      }
      var ring := RingFor(pool);
      var ids := set b | b in candidates :: b.cfg.id;
      r := Get(hashes, pool, ring, key, ids);
      assert candidates[0] in pool && candidates[0].cfg.id in ids;
      var b := r.value;
      var c :| c in candidates && c.cfg.id == b.cfg.id;
      assert b in pool && c in pool;
    }
  }

  datatype Call = Call(pool: seq<Backend>, candidates: seq<Backend>, key: string)

  ghost predicate CallOk(c: Call) {
    IdsIdentify(c.pool) && c.candidates != [] && forall b :: b in c.candidates ==> b in c.pool
  }

  /**
   A candidate, and the choice of a ring built for this call alone; with distinct points it is the
   only possible choice, so a lookup without the cache answers the same.
   */
  ghost predicate Answers(hashes: Hashes, c: Call, b: Backend) {
    && b in c.candidates && IsChoice(hashes, c.pool, Ids(c.candidates), hashes.key(c.key), b)
    && (Distinct(hashes, c.pool) ==>
          forall x :: x in c.pool && IsChoice(hashes, c.pool, Ids(c.candidates), hashes.key(c.key), x) ==> x == b)
  }

  method One(s: Scheduler, c: Call) returns (b: Backend)
    requires s.Valid() && CallOk(c)
    modifies s
    ensures s.Valid() && Answers(s.hashes, c, b)
  {
    hide IsChoice;
    var r := s.PickHashStable(c.pool, c.candidates, c.key, "", "");
    b := r.value;
    var h := s.hashes.key(c.key);
    forall x | x in c.pool && Distinct(s.hashes, c.pool) && IsChoice(s.hashes, c.pool, Ids(c.candidates), h, x)
      ensures x == b
    {
      ChoiceUnique(s.hashes, c.pool, Ids(c.candidates), h, x, b);
    }
  }

  /** Any sequence of calls, with pools replaced in between: each answer is that of an uncached lookup. */
  method AnyCalls(s: Scheduler, calls: seq<Call>) returns (answers: seq<Backend>)
    requires s.Valid() && forall i :: 0 <= i < |calls| ==> CallOk(calls[i])
    modifies s
    ensures s.Valid() && |answers| == |calls|
    ensures forall i :: 0 <= i < |calls| ==> Answers(s.hashes, calls[i], answers[i])
  {
    hide Answers, IsRing, HashesOk;
    answers := [];
    for i := 0 to |calls|
      invariant s.Valid() && |answers| == i
      invariant forall j :: 0 <= j < i ==> Answers(s.hashes, calls[j], answers[j])
    {
      assert CallOk(calls[i]);
      var b := One(s, calls[i]);
      answers := answers + [b];
    }
  }
}
