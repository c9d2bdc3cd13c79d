/** The candidate filter every strategy of internal/scheduler/scheduler.go shares. */
module Candidates {
  import opened Options
  import opened Backends

  /** What the filter and the load score read of an instance, at the moment of the call. */
  datatype Status = Status(available: bool, inflight: int, running: real, waiting: real)

  predicate HasRoom(b: Backend, st: Backend -> Status) {
    !(b.cfg.maxConcurrency > 0 && st(b).inflight >= b.cfg.maxConcurrency)
  }

  predicate Usable(b: Backend, st: Backend -> Status, exclude: set<string>) {
    b.cfg.id !in exclude && st(b).available && HasRoom(b, st)
  }

  /** What a caller may rely on: not excluded, available, and below its concurrency limit if it has one. */
  ghost predicate Eligible(b: Backend, st: Backend -> Status, exclude: set<string>) {
    b.cfg.id !in exclude && st(b).available && (b.cfg.maxConcurrency > 0 ==> st(b).inflight < b.cfg.maxConcurrency)
  }

  lemma {:induction false} UsableIff(b: Backend, st: Backend -> Status, exclude: set<string>)
    ensures Usable(b, st, exclude) <==> Eligible(b, st, exclude)
  {
  }

  /** The usable backends of the pool, in pool order. */
  ghost function UsableOf(pool: seq<Backend>, st: Backend -> Status, exclude: set<string>): seq<Backend> {
    if pool == [] then []
    else UsableOf(pool[..|pool| - 1], st, exclude) +
         var b := pool[|pool| - 1]; if Usable(b, st, exclude) then [b] else []
  }

  lemma {:induction false} OnlyOne(b: Backend, st: Backend -> Status, exclude: set<string>)
    ensures UsableOf([b], st, exclude) == if Usable(b, st, exclude) then [b] else []
  {
    assert [b][..0] == [];
  }

  lemma {:induction false} NoneUsable(pool: seq<Backend>, st: Backend -> Status, exclude: set<string>)
    ensures UsableOf(pool, st, exclude) == [] ==> forall b :: b in pool ==> !Usable(b, st, exclude)
  {
    if pool != [] {
      NoneUsable(pool[..|pool| - 1], st, exclude);
    }
  }

  method Filter(pool: seq<Backend>, st: Backend -> Status, exclude: set<string>) returns (candidates: seq<Backend>)
    ensures candidates == UsableOf(pool, st, exclude)
    ensures forall b :: b in candidates <==> b in pool && Usable(b, st, exclude)
    ensures forall b :: b in candidates <==> b in pool && Eligible(b, st, exclude)
    ensures |candidates| <= |pool|
  {
    candidates := [];
    for i := 0 to |pool|
      invariant |candidates| <= i && candidates == UsableOf(pool[..i], st, exclude)
      invariant forall b :: b in candidates ==> b in pool[..i] && Usable(b, st, exclude)
      invariant forall b :: b in pool[..i] && Usable(b, st, exclude) ==> b in candidates
    {
      assert pool[..i + 1] == pool[..i] + [pool[i]] && pool[..i + 1][..i] == pool[..i];
      if Usable(pool[i], st, exclude) {
        candidates := candidates + [pool[i]];
      }
    }
    assert pool[..|pool|] == pool;
  }

  /**
   PickAmong.  `strategy` stands for the configured strategy: given several candidates it answers
   with the position of one of them, or not at all.
   */
  method PickAmong(pool: seq<Backend>, st: Backend -> Status, exclude: set<string>,
    strategy: seq<Backend> -> Option<nat>) returns (r: Option<Backend>)
    ensures r.Some? ==> r.value in pool && Usable(r.value, st, exclude) && Eligible(r.value, st, exclude)
    ensures (forall b :: b in pool ==> !Usable(b, st, exclude)) ==> r.None?
    ensures |UsableOf(pool, st, exclude)| == 1 ==> r == Some(UsableOf(pool, st, exclude)[0])
    ensures |UsableOf(pool, st, exclude)| > 1 ==>
      (r.Some? <==>
        var k := strategy(UsableOf(pool, st, exclude)); k.Some? && k.value < |UsableOf(pool, st, exclude)|)
    ensures |UsableOf(pool, st, exclude)| > 1 && r.Some? ==>
      var k := strategy(UsableOf(pool, st, exclude));
        k.Some? && k.value < |UsableOf(pool, st, exclude)| && r.value == UsableOf(pool, st, exclude)[k.value]
  {
    var candidates := Filter(pool, st, exclude);
    if |candidates| == 0 {
      return None;
    }
    if |candidates| == 1 {
      assert candidates[0] in candidates;
      return Some(candidates[0]);
    }
    var choice := strategy(candidates);
    if choice.None? || choice.value >= |candidates| {
      return None;
    }
    assert candidates[choice.value] in candidates;
    return Some(candidates[choice.value]);
  }
}
