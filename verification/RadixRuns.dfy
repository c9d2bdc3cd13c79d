/** Whole runs of the prefix tree, on the map it stands for. */
module RadixRuns {
  import opened RadixStore
  import opened RadixFilter
  import opened RadixMatch

  /** Budget eviction up to time `cut` is `Drop(NotOlder(cut + 1))`. */
  datatype Op = Serve(key: Key, owner: Owner, now: Time) | Drop(f: Filter)

  ghost function Apply(m: Model, op: Op): Model {
    match op
    case Serve(key, o, now) => Stamp(m, key, o, now)
    case Drop(f) => FilterModel(f, m)
  }

  ghost function Run(ops: seq<Op>): Model {
    if ops == [] then map[] else Apply(Run(ops[..|ops| - 1]), ops[|ops| - 1])
  }

  ghost predicate Stamps(op: Op, c: Claim) {
    op.Serve? && Stamped(c, op.key, op.owner)
  }

  /** Step `i` served `c`, no later step served it again and no later step dropped it. */
  ghost predicate StandsSince(ops: seq<Op>, c: Claim, i: int) {
    && 0 <= i < |ops| && Stamps(ops[i], c)
    && (forall j :: i < j < |ops| ==> !Stamps(ops[j], c))
    && (forall j :: i < j < |ops| && ops[j].Drop? ==> Keeps(ops[j].f, c.owner, ops[i].now))
  }

  ghost predicate Spares(op: Op, c: Claim, ops: seq<Op>, i: int) {
    !Stamps(op, c) && (op.Drop? && 0 <= i < |ops| && ops[i].Serve? ==> Keeps(op.f, c.owner, ops[i].now))
  }

  lemma {:induction false} StandsStep(ops: seq<Op>, c: Claim, i: int)
    requires ops != []
    ensures var k := |ops| - 1;
            StandsSince(ops, c, i) <==> if i == k then Stamps(ops[k], c) else
              StandsSince(ops[..k], c, i) && Spares(ops[k], c, ops, i)
  {
    var k := |ops| - 1;
    assert forall j :: 0 <= j < k ==> ops[j] == ops[..k][j];
  }

  /** A claim is in the map exactly if its last insert survived, and carries the time of that insert. */
  lemma {:induction false} ClaimsAreLastInserts(ops: seq<Op>, c: Claim)
    ensures c in Run(ops) <==> exists i :: StandsSince(ops, c, i)
    ensures forall i :: StandsSince(ops, c, i) ==> c in Run(ops) && Run(ops)[c] == ops[i].now
  {
    if ops != [] {
      var k := |ops| - 1;
      var pre, op := ops[..k], ops[k];
      ClaimsAreLastInserts(pre, c);
      forall i
        ensures StandsSince(ops, c, i) <==> if i == k then Stamps(op, c) else
          StandsSince(pre, c, i) && Spares(op, c, ops, i)
      {
        StandsStep(ops, c, i);
      }
      if Stamps(op, c) {
        assert StandsSince(ops, c, k);
      } else if c in Run(ops) {
        var i :| StandsSince(pre, c, i);
        assert Spares(op, c, ops, i);
      }
    }
  }

  // ---------------------------------------------------------------- no removals: longest common prefix

  function Lcp(a: Key, b: Key): (n: nat)
    ensures n <= |a| && n <= |b| && a[..n] == b[..n] && (n < |a| && n < |b| ==> a[n] != b[n])
  {
    if a == [] || b == [] || a[0] != b[0] then 0 else 1 + Lcp(a[1..], b[1..])
  }

  ghost predicate OnlyServes(ops: seq<Op>) {
    forall i :: 0 <= i < |ops| ==> ops[i].Serve?
  }

  lemma {:induction false} LastOf(ops: seq<Op>, c: Claim, i: nat) returns (k: nat)
    requires OnlyServes(ops) && i < |ops| && Stamps(ops[i], c)
    ensures StandsSince(ops, c, k)
    decreases |ops| - i
  {
    if j :| i < j < |ops| && Stamps(ops[j], c) {
      k := LastOf(ops, c, j);
    } else {
      k := i;
    }
  }

  /** Without removals a prefix is owned exactly if something the owner served starts with it. */
  lemma {:induction false} OwnedByServes(ops: seq<Op>, key: Key, j: nat, o: Owner)
    requires OnlyServes(ops) && 1 <= j <= |key|
    ensures Owned(Run(ops), key, j, o) <==> exists i :: 0 <= i < |ops| && ops[i].owner == o && j <= Lcp(ops[i].key, key)
  {
    var c := Claim(key[..j], o);
    ClaimsAreLastInserts(ops, c);
    forall i | 0 <= i < |ops| && ops[i].owner == o ensures Stamps(ops[i], c) <==> j <= Lcp(ops[i].key, key) {
      var n := Lcp(ops[i].key, key);
      if j <= n {
        assert key[..j] == ops[i].key[..n][..j];
      }
    }
    if i :| 0 <= i < |ops| && ops[i].owner == o && j <= Lcp(ops[i].key, key) {
      var k := LastOf(ops, c, i);
    }
    if c in Run(ops) {
      var k :| StandsSince(ops, c, k);
    }
  }

  /** Match's answer after a run without removals: the longest common prefix with anything the owner served. */
  lemma {:induction false} MatchIsLongestCommonPrefix(ops: seq<Op>, key: Key, best: map<Owner, nat>, o: Owner)
    requires OnlyServes(ops) && BestUpTo(best, Run(ops), key, |key|)
    ensures o in best ==> exists i :: 0 <= i < |ops| && ops[i].owner == o && Lcp(ops[i].key, key) == best[o]
    ensures forall i :: 0 <= i < |ops| && ops[i].owner == o ==> Lcp(ops[i].key, key) <= if o in best then best[o] else 0
  {
    if o in best {
      assert Owned(Run(ops), key, best[o], o);
      OwnedByServes(ops, key, best[o], o);
    }
    forall i | 0 <= i < |ops| && ops[i].owner == o ensures Lcp(ops[i].key, key) <= if o in best then best[o] else 0 {
      var n := Lcp(ops[i].key, key);
      if n > 0 {
        OwnedByServes(ops, key, n, o);
      }
    }
  }

  // ---------------------------------------------------------------- does an owner of a prefix own all shorter ones?

  ghost predicate NonEmpty(m: Model) {
    forall c :: c in m ==> c.prefix != []
  }

  /** Every owner of a prefix also owns all shorter ones. */
  ghost predicate Contained(m: Model) {
    NonEmpty(m) && forall c, p :: c in m && p != [] && p <= c.prefix ==> Claim(p, c.owner) in m
  }

  /** An insert keeps containment, whatever its stamp. */
  lemma {:induction false} InsertKeepsContained(m: Model, key: Key, o: Owner, now: Time)
    requires Contained(m)
    ensures Contained(Stamp(m, key, o, now))
  {
    var m' := Stamp(m, key, o, now);
    forall c, p | c in m' && p != [] && p <= c.prefix ensures Claim(p, c.owner) in m' {
      if Stamped(c, key, o) {
        assert Stamped(Claim(p, o), key, o);
      }
    }
  }

  /** Every owner of a prefix also owns all shorter ones, served no earlier. */
  ghost predicate Nested(m: Model) {
    NonEmpty(m) &&
    forall c, p :: c in m && p != [] && p <= c.prefix ==> Claim(p, c.owner) in m && m[Claim(p, c.owner)] >= m[c]
  }

  /** Nothing this owner holds that branches off the new key carries a later time. */
  ghost predicate NothingLater(m: Model, key: Key, o: Owner, now: Time) {
    forall c :: c in m && c.owner == o && c.prefix != [] && key != [] && c.prefix[0] == key[0] && !(c.prefix <= key) ==>
      m[c] <= now
  }

  /** The times matter because of pruning: they are in order exactly if every prune keeps containment. */
  lemma {:induction false} NestedIffPrunesContained(m: Model)
    requires Contained(m)
    ensures Nested(m) <==> PrunesContained(m)
  {
    if Nested(m) {
      forall d ensures Contained(FilterModel(NotOlder(d), m)) {
        DropKeepsNested(m, NotOlder(d));
      }
    }
    if PrunesContained(m) {
      forall c, p | c in m && p != [] && p <= c.prefix ensures Claim(p, c.owner) in m && m[Claim(p, c.owner)] >= m[c] {
        var k := FilterModel(NotOlder(m[c]), m);
        assert Contained(k) && c in k;
      }
    }
  }

  /** Whatever is pruned next, owners of a prefix own all shorter ones. */
  ghost predicate PrunesContained(m: Model) {
    forall d :: Contained(FilterModel(NotOlder(d), m))
  }

  /** After an insert every prune keeps containment exactly when no branching claim of that owner is later. */
  lemma {:induction false} InsertIsPruneSafe(m: Model, key: Key, o: Owner, now: Time)
    requires Contained(m) && PrunesContained(m)
    ensures PrunesContained(Stamp(m, key, o, now)) <==> NothingLater(m, key, o, now)
  {
    hide PrunesContained, NothingLater;
    NestedIffPrunesContained(m);
    InsertKeepsContained(m, key, o, now);
    NestedIffPrunesContained(Stamp(m, key, o, now));
    InsertKeepsNested(m, key, o, now);
  }

  /** An insert keeps ownership nested exactly when no branching claim of that owner is later. */
  lemma {:induction false} InsertKeepsNested(m: Model, key: Key, o: Owner, now: Time)
    requires Nested(m)
    ensures Nested(Stamp(m, key, o, now)) <==> NothingLater(m, key, o, now)
  {
    var m' := Stamp(m, key, o, now);
    if NothingLater(m, key, o, now) {
      forall c, p | c in m' && p != [] && p <= c.prefix
        ensures Claim(p, c.owner) in m' && m'[Claim(p, c.owner)] >= m'[c]
      {
        if Stamped(c, key, o) {
          assert Stamped(Claim(p, o), key, o);
        } else if Stamped(Claim(p, c.owner), key, o) {
          assert c.prefix[0] == p[0] == key[0];
        }
      }
    }
    if Nested(m') {
      forall c | c in m && c.owner == o && c.prefix != [] && key != [] && c.prefix[0] == key[0] && !(c.prefix <= key)
        ensures m[c] <= now
      {
        var p := [key[0]];
        assert p <= c.prefix && p <= key && !Stamped(c, key, o);
        assert Stamped(Claim(p, o), key, o);
        assert m'[Claim(p, c.owner)] >= m'[c];
      }
    }
  }

  lemma {:induction false} DropKeepsNested(m: Model, f: Filter)
    requires Nested(m)
    ensures Nested(FilterModel(f, m))
  {
    var k := FilterModel(f, m);
    forall c, p | c in k && p != [] && p <= c.prefix ensures Claim(p, c.owner) in k && k[Claim(p, c.owner)] >= k[c] {
      assert m[Claim(p, c.owner)] >= m[c];
    }
  }

  ghost predicate Clocked(ops: seq<Op>) {
    forall i, j :: 0 <= i < j < |ops| && ops[i].Serve? && ops[j].Serve? ==> ops[i].now <= ops[j].now
  }

  lemma {:induction false} TimesFromServes(ops: seq<Op>, c: Claim)
    requires c in Run(ops)
    ensures c.prefix != [] && exists i :: 0 <= i < |ops| && ops[i].Serve? && ops[i].now == Run(ops)[c]
  {
    ClaimsAreLastInserts(ops, c);
    var i :| StandsSince(ops, c, i);
  }

  /** With times that never go back, ownership stays nested over any run. */
  lemma {:induction false} ClockedRunsAreNested(ops: seq<Op>)
    requires Clocked(ops)
    ensures Nested(Run(ops))
  {
    if ops != [] {
      var k := |ops| - 1;
      var pre := ops[..k];
      ClockedRunsAreNested(pre);
      match ops[k]
      case Serve(key, o, now) =>
        forall c | c in Run(pre) ensures Run(pre)[c] <= now {
          TimesFromServes(pre, c);
        }
        InsertKeepsNested(Run(pre), key, o, now);
      case Drop(f) =>
        DropKeepsNested(Run(pre), f);
    }
  }

  /** Stamps taken out of lock order: an owner of "ab" that does not own "a". */
  lemma {:induction false} UnclockedRunNotNested()
    ensures var ops := [Serve("ab", "w", 5), Serve("a", "w", 3), Drop(NotOlder(4))];
            Claim("ab", "w") in Run(ops) && Claim("a", "w") !in Run(ops)
  {
    var ops := [Serve("ab", "w", 5), Serve("a", "w", 3), Drop(NotOlder(4))];
    var c, d := Claim("ab", "w"), Claim("a", "w");
    ClaimsAreLastInserts(ops, c);
    ClaimsAreLastInserts(ops, d);
    assert c.prefix[..1] == "a";
    assert StandsSince(ops, c, 0);
    forall i ensures !StandsSince(ops, d, i) {
      assert ops[1].key == "a" && Stamps(ops[1], d);
      assert !Keeps(ops[2].f, "w", 3);
    }
  }
}
