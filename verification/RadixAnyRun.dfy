/** Arbitrary call sequences on one tree: the heap structure follows the map step by step. */
module RadixAnyRun {
  import opened RadixStore
  import opened RadixFilter
  import opened RadixRuns
  import opened RadixMatch
  import opened Radix

  datatype Call = CallInsert(text: string, owner: Owner, now: Time) | CallPrune(now: Time) | CallRemove(owner: Owner)

  /** The steps on the map that one call amounts to; `cut` is what the budget evicted. */
  ghost function Steps(t: Tree, call: Call, cut: Time): seq<Op> {
    match call
    case CallInsert(text, o, now) => [Serve(t.Clip(text), o, now), Drop(NotOlder(cut + 1))]
    case CallPrune(now) => [Drop(NotOlder(now - t.ttl))]
    case CallRemove(o) => [Drop(NotOwner(o))]
  }

  ghost function Trace(t: Tree, calls: seq<Call>, cuts: seq<Time>): seq<Op>
    requires |cuts| == |calls|
  {
    if calls == [] then [] else
      var k := |calls| - 1;
      Trace(t, calls[..k], cuts[..k]) + Steps(t, calls[k], cuts[k])
  }

  lemma {:induction false} RunAppend(ops: seq<Op>, op: Op)
    ensures Run(ops + [op]) == Apply(Run(ops), op)
  {
    assert (ops + [op])[..|ops|] == ops;
  }

  /** The most bytes a call can add. */
  function Size(t: Tree, call: Call): nat { if call.CallInsert? then |t.Clip(call.text)| else 0 }

  function Sizes(t: Tree, calls: seq<Call>): nat {
    if calls == [] then 0 else Sizes(t, calls[..|calls| - 1]) + Size(t, calls[|calls| - 1])
  }

  ghost predicate OnlyInserts(calls: seq<Call>) {
    forall i :: 0 <= i < |calls| ==> calls[i].CallInsert? && calls[i].now > 0
  }

  /** All the calls together fit the budgets: each adds at most two nodes and the bytes of its clipped text. */
  predicate Roomy(t: Tree, calls: seq<Call>, nodes: int, bytes: int) {
    !Over(nodes + 2 * |calls|, bytes + Sizes(t, calls), t.maxNodes, t.maxBytes)
  }

  lemma {:induction false} SizesGrow(t: Tree, calls: seq<Call>, i: nat)
    requires i < |calls|
    ensures Sizes(t, calls[..i + 1]) == Sizes(t, calls[..i]) + Size(t, calls[i])
    ensures Sizes(t, calls[..i + 1]) <= Sizes(t, calls)
    decreases |calls| - i
  {
    assert calls[..i + 1][..i] == calls[..i];
    if i + 1 < |calls| {
      SizesGrow(t, calls, i + 1);
    } else {
      assert calls[..i + 1] == calls;
    }
  }

  /** Executes one call. */
  method Execute(t: Tree, call: Call, ghost ops: seq<Op>) returns (ghost cut: Time)
    requires t.Valid() && t.InBudget() && t.model == Run(ops)
    requires call.CallInsert? ==> call.now > 0
    modifies t, t.shape.cells.Keys
    ensures t.Valid() && t.InBudget() && fresh(t.shape.cells.Keys - old(t.shape).cells.Keys)
    ensures t.model == Run(ops + Steps(t, call, cut))
    ensures call.CallInsert? && !Over(old(t.nodeCount) + 2, old(t.totalBytes) + Size(t, call), t.maxNodes,
      t.maxBytes) ==>
      cut == 0 && t.nodeCount <= old(t.nodeCount) + 2 && t.totalBytes <= old(t.totalBytes) + Size(t, call)
  {
    hide Tree.Valid, Tree.InBudget, Run, Stamp, FilterModel, Denotes, WF, Filtered, Bytes;
    cut := 0;
    match call
    case CallInsert(text, o, now) =>
      var g, c, b := t.Insert(text, o, now);
      cut := c;
      var key := t.Clip(text);
      RunAppend(ops, Serve(key, o, now));
      RunAppend(ops + [Serve(key, o, now)], Drop(NotOlder(cut + 1)));
      assert ops + [Serve(key, o, now)] + [Drop(NotOlder(cut + 1))] == ops + Steps(t, call, cut);
    case CallPrune(now) =>
      var x, y := t.Prune(now);
      RunAppend(ops, Drop(NotOlder(now - t.ttl)));
    case CallRemove(o) =>
      var x, y := t.RemoveBackedBy(o);
      RunAppend(ops, Drop(NotOwner(o)));
  }

  /** Any run of calls from the empty tree leaves the tree denoting the map of its trace, within both budgets. */
  method AnyRun(t: Tree, calls: seq<Call>) returns (ghost cuts: seq<Time>)
    requires t.Valid() && t.InBudget() && t.model == map[]
    requires forall i :: 0 <= i < |calls| && calls[i].CallInsert? ==> calls[i].now > 0
    modifies t, t.shape.cells.Keys
    ensures t.Valid() && t.InBudget()
    ensures |cuts| == |calls| && t.model == Run(Trace(t, calls, cuts))
    ensures (t.maxNodes > 0 ==> t.nodeCount <= t.maxNodes) && (t.maxBytes > 0 ==> t.totalBytes <= t.maxBytes)
    ensures OnlyInserts(calls) && Roomy(t, calls, old(t.nodeCount), old(t.totalBytes)) ==> NothingEvicted(cuts)
  {
    hide *;
    ghost var easy := OnlyInserts(calls) && Roomy(t, calls, t.nodeCount, t.totalBytes);
    ghost var nodes, bytes := t.nodeCount, t.totalBytes;
    cuts := [];
    assert NothingEvicted(cuts) && Sizes(t, calls[..0]) == 0 by { NoCuts(t, calls[..0], cuts); }
    assert t.model == Run(Trace(t, calls[..0], cuts)) by { EmptyTrace(t, calls[..0], cuts); }
    for i := 0 to |calls|
      invariant t.Valid() && t.InBudget() && fresh(t.shape.cells.Keys - old(t.shape).cells.Keys)
      invariant |cuts| == i && t.model == Run(Trace(t, calls[..i], cuts))
      invariant easy ==>
        NothingEvicted(cuts) && t.nodeCount <= nodes + 2 * i && t.totalBytes <= bytes + Sizes(t, calls[..i])
    {
      SizesGrow(t, calls, i);
      if easy {
        RoomForOne(t, calls, i, nodes, bytes, t.nodeCount, t.totalBytes);
      }
      ghost var ops := Trace(t, calls[..i], cuts);
      ghost var cut := Execute(t, calls[i], ops);
      TraceAppend(t, calls[..i], cuts, calls[i], cut);
      assert calls[..i + 1] == calls[..i] + [calls[i]];
      if easy {
        OneMoreZero(cuts, cut);
      }
      cuts := cuts + [cut];
    }
    assert calls[..|calls|] == calls;
    WithinBudgets(t);
  }

  lemma {:induction false} WithinBudgets(t: Tree)
    requires t.InBudget()
    ensures (t.maxNodes > 0 ==> t.nodeCount <= t.maxNodes) && (t.maxBytes > 0 ==> t.totalBytes <= t.maxBytes)
  {
  }

  lemma {:induction false} EmptyTrace(t: Tree, calls: seq<Call>, cuts: seq<Time>)
    requires calls == [] && cuts == []
    ensures Run(Trace(t, calls, cuts)) == map[]
  {
  }

  lemma {:induction false} TraceAppend(t: Tree, calls: seq<Call>, cuts: seq<Time>, call: Call, cut: Time)
    requires |calls| == |cuts|
    ensures Trace(t, calls + [call], cuts + [cut]) == Trace(t, calls, cuts) + Steps(t, call, cut)
  {
    assert (calls + [call])[..|calls|] == calls && (cuts + [cut])[..|cuts|] == cuts;
  }

  ghost predicate NothingEvicted(cuts: seq<Time>) { forall i :: 0 <= i < |cuts| ==> cuts[i] == 0 }

  lemma {:induction false} NoCuts(t: Tree, calls: seq<Call>, cuts: seq<Time>)
    requires calls == [] && cuts == []
    ensures NothingEvicted(cuts) && Sizes(t, calls) == 0
  {
  }

  lemma {:induction false} OneMoreZero(cuts: seq<Time>, cut: Time)
    requires NothingEvicted(cuts) && cut == 0
    ensures NothingEvicted(cuts + [cut])
  {
  }

  lemma {:induction false} RoomForOne(t: Tree, calls: seq<Call>, i: nat, nodes: int, bytes: int, n: int, b: int)
    requires i < |calls| && OnlyInserts(calls) && Roomy(t, calls, nodes, bytes)
    requires n <= nodes + 2 * i && b <= bytes + Sizes(t, calls[..i])
    ensures calls[i].CallInsert? && !Over(n + 2, b + Size(t, calls[i]), t.maxNodes, t.maxBytes)
  {
    hide Sizes, Size;
    SizesGrow(t, calls, i);
  }

  // ---------------------------------------------------------------- runs that lose nothing

  ghost function Serves(t: Tree, calls: seq<Call>): seq<Op>
    requires OnlyInserts(calls)
  {
    seq(|calls|, i requires 0 <= i < |calls| => Serve(t.Clip(calls[i].text), calls[i].owner, calls[i].now))
  }

  ghost predicate PositiveTimes(ops: seq<Op>) { forall i :: 0 <= i < |ops| && ops[i].Serve? ==> ops[i].now > 0 }

  lemma {:induction false} EvictingNothing(ops: seq<Op>)
    requires PositiveTimes(ops)
    ensures FilterModel(NotOlder(1), Run(ops)) == Run(ops)
  {
    forall c | c in Run(ops) ensures Run(ops)[c] >= 1 {
      TimesFromServes(ops, c);
    }
  }

  /** Without evictions the trace of a run of inserts denotes the map of its serves alone. */
  lemma {:induction false} TraceOfInserts(t: Tree, calls: seq<Call>, cuts: seq<Time>)
    requires OnlyInserts(calls) && |cuts| == |calls| && NothingEvicted(cuts)
    ensures Run(Trace(t, calls, cuts)) == Run(Serves(t, calls))
    decreases |calls|
  {
    hide Run;
    if calls != [] {
      var k := |calls| - 1;
      var pre, ops := Trace(t, calls[..k], cuts[..k]), Serves(t, calls);
      TraceOfInserts(t, calls[..k], cuts[..k]);
      assert ops[..k] == Serves(t, calls[..k]) && ops == ops[..k] + [ops[k]];
      assert Trace(t, calls, cuts) == pre + [ops[k], Drop(NotOlder(1))];
      ServeAndEvictNothing(ops, pre);
    } else {
      assert Trace(t, calls, cuts) == Serves(t, calls);
    }
  }

  lemma {:induction false} ServeAndEvictNothing(ops: seq<Op>, pre: seq<Op>)
    requires ops != [] && PositiveTimes(ops) && Run(pre) == Run(ops[..|ops| - 1])
    ensures Run(pre + [ops[|ops| - 1], Drop(NotOlder(1))]) == Run(ops)
  {
    hide FilterModel, Stamp, Run;
    var op := ops[|ops| - 1];
    assert ops == ops[..|ops| - 1] + [op];
    RunAppend(ops[..|ops| - 1], op);
    RunAppend(pre, op);
    RunAppend(pre + [op], Drop(NotOlder(1)));
    assert pre + [op, Drop(NotOlder(1))] == pre + [op] + [Drop(NotOlder(1))];
    EvictingNothing(ops);
  }

  /** The longest common prefix of a query with what `o` served, at least and at most. */
  ghost predicate IsLongest(t: Tree, calls: seq<Call>, key: Key, o: Owner, n: nat) {
    && (n > 0 ==> exists i ::
      0 <= i < |calls| && calls[i].CallInsert? && calls[i].owner == o && Lcp(t.Clip(calls[i].text), key) == n)
    && (forall i :: 0 <= i < |calls| && calls[i].CallInsert? && calls[i].owner == o ==>
      Lcp(t.Clip(calls[i].text), key) <= n)
  }

  /**
   After any run of inserts that evicted nothing, and whenever there is room for all of them nothing is evicted, a query
   answers for each owner the longest common prefix with anything it served.
   */
  method MatchAfterInserts(t: Tree, calls: seq<Call>, text: string)
    returns (best: map<Owner, nat>, ghost cuts: seq<Time>)
    requires t.Valid() && t.InBudget() && t.model == map[] && OnlyInserts(calls)
    modifies t, t.shape.cells.Keys
    ensures t.Valid() && t.InBudget()
    ensures Roomy(t, calls, old(t.nodeCount), old(t.totalBytes)) ==> NothingEvicted(cuts)
    ensures NothingEvicted(cuts) ==> forall o :: IsLongest(t, calls, t.Clip(text), o, if o in best then best[o] else 0)
    ensures forall o :: o in best ==> best[o] > 0
  {
    hide Denotes, WF, Tidy, Bytes, Run, Trace, Roomy, NothingEvicted, BestUpTo, IsLongest;
    cuts := AnyRun(t, calls);
    var len;
    best, len := t.Match(text);
    BestIsPositive(best, t.model, t.Clip(text), len);
    if NothingEvicted(cuts) {
      TraceOfInserts(t, calls, cuts);
      forall o ensures IsLongest(t, calls, t.Clip(text), o, if o in best then best[o] else 0) {
        LongestOf(t, calls, t.Clip(text), best, o);
      }
    }
  }

  lemma {:induction false} BestIsPositive(best: map<Owner, nat>, m: Model, key: Key, n: nat)
    requires n <= |key| && BestUpTo(best, m, key, n)
    ensures forall o :: o in best ==> best[o] > 0
  {
  }

  lemma {:induction false} LongestOf(t: Tree, calls: seq<Call>, key: Key, best: map<Owner, nat>, o: Owner)
    requires OnlyInserts(calls) && BestUpTo(best, Run(Serves(t, calls)), key, |key|)
    ensures IsLongest(t, calls, key, o, if o in best then best[o] else 0)
  {
    hide BestUpTo, Run;
    var ops := Serves(t, calls);
    MatchIsLongestCommonPrefix(ops, key, best, o);
    assert forall i :: 0 <= i < |calls| ==> ops[i] == Serve(t.Clip(calls[i].text), calls[i].owner, calls[i].now);
  }
}
