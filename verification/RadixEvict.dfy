/** Oldest times, sizes and what one eviction round achieves. */
module RadixEvict {
  import opened RadixStore
  import opened Sums
  import opened RadixFilter

  function OwnerTimes(owners: map<Owner, Time>, os: set<Owner>): set<Time> {
    set o | o in os && o in owners :: owners[o]
  }

  /** All claim times recorded on the nodes of `ns`. */
  ghost function Times<N>(s: Shape<N>, ns: set<N>): set<Time> {
    set q, o | q in ns && q in s.cells && o in s.cells[q].owners :: s.cells[q].owners[o]
  }

  /** `t` is the least element, or 0 when there is none. */
  ghost predicate IsOldest(ts: set<Time>, t: Time) {
    if ts == {} then t == 0 else t in ts && forall x :: x in ts ==> t <= x
  }

  function Older(a: Time, b: Time): Time {
    if b != 0 && (a == 0 || b < a) then b else a
  }

  lemma {:induction false} OldestUnion(x: set<Time>, a: Time, y: set<Time>, b: Time)
    requires IsOldest(x, a) && IsOldest(y, b)
    requires forall t :: t in x + y ==> t > 0
    ensures IsOldest(x + y, Older(a, b))
  {
    assert a != 0 ==> a in x + y;
    assert b != 0 ==> b in x + y;
  }

  lemma {:induction false} TimesUnion<N>(s: Shape<N>, x: set<N>, y: set<N>)
    ensures Times(s, x + y) == Times(s, x) + Times(s, y)
  {
  }

  lemma {:induction false} TimesPositive<N>(s: Shape<N>, ns: set<N>)
    requires Tidy(s)
    ensures forall t :: t in Times(s, ns) ==> t > 0
  {
  }

  lemma {:induction false} TimesOfOne<N>(s: Shape<N>, n: N)
    requires n in s.cells
    ensures Times(s, {n}) == OwnerTimes(s.cells[n].owners, s.cells[n].owners.Keys)
  {
  }

  lemma {:induction false} NothingUnder<N>(s: Shape<N>, n: N)
    requires WF(s) && n in s.cells
    ensures Times(s, Under(s, n, {})) == {}
  {
  }

  /** The times at or below `n` are its own and those below its children. */
  lemma {:induction false} TimesOfSub<N>(s: Shape<N>, n: N)
    requires WF(s) && n in s.cells
    ensures Times(s, Sub(s, n)) == OwnerTimes(s.cells[n].owners, s.cells[n].owners.Keys) + Times(s,
      Under(s, n, s.cells[n].children.Keys))
  {
    UnderAll(s, n);
    assert n in Sub(s, n);
    TimesUnion(s, {n}, Sub(s, n) - {n});
    assert {n} + (Sub(s, n) - {n}) == Sub(s, n);
    TimesOfOne(s, n);
  }

  lemma {:induction false} TimesOfChild<N>(s: Shape<N>, n: N, done: set<char>, b: char)
    requires WF(s) && n in s.cells && b in s.cells[n].children
    ensures s.cells[n].children[b] in s.cells
    ensures Times(s, Under(s, n, done + {b})) == Times(s, Under(s, n, done)) + Times(s, Sub(s, s.cells[n].children[b]))
    ensures Sub(s, s.cells[n].children[b]) < Sub(s, n)
  {
    SubOfChild(s, n, b);
    ChildFacts(s, n, b);
    assert n in Sub(s, n) && n !in Sub(s, s.cells[n].children[b]);
    assert Under(s, n, done + {b}) == Under(s, n, done) + Under(s, n, {b});
    TimesUnion(s, Under(s, n, done), Under(s, n, {b}));
  }

  // ---------------------------------------------------------------- sizes

  lemma {:induction false} SumMonotone<N>(f: map<N, nat>, g: map<N, nat>)
    requires f.Keys <= g.Keys && forall n :: n in f ==> f[n] == g[n]
    ensures Sum(f) <= Sum(g)
    decreases |g|
  {
    if g == map[] {
      assert f == map[];
    } else {
      var n :| n in g;
      SumRemove(g, n);
      if n in f {
        SumRemove(f, n);
      } else {
        assert f - {n} == f;
      }
      SumMonotone(f - {n}, g - {n});
    }
  }

  lemma {:induction false} FilteredSmaller<N>(s: Shape<N>, f: Filter, r: Shape<N>)
    requires Filtered(s, f, r)
    ensures |r.cells| <= |s.cells| && Bytes(r.cells) <= Bytes(s.cells)
  {
    forall n | n in r.cells ensures n in s.cells && r.cells[n].edge == s.cells[n].edge {
      FilteredStays(s, f, r, n);
    }
    SumMonotone(EdgeLengths(r.cells), EdgeLengths(s.cells));
    SubsetSize(r.cells.Keys, s.cells.Keys);
  }

  lemma {:induction false} OnlyRoot<N>(s: Shape<N>)
    requires WF(s) && s.cells.Keys == {s.root}
    ensures |s.cells| == 1 && Bytes(s.cells) == 0
  {
    assert EdgeLengths(s.cells) - {s.root} == map[];
    SumRemove(EdgeLengths(s.cells), s.root);
  }

  /** A tree that occupies anything contains a claim. */
  lemma {:induction false} SizeNeedsOwners<N>(s: Shape<N>)
    requires WF(s) && Tidy(s) && (|s.cells| > 1 || Bytes(s.cells) > 0)
    ensures Times(s, Sub(s, s.root)) != {}
  {
    if s.cells.Keys == {s.root} {
      OnlyRoot(s);
    } else {
      var n :| n in s.cells && n != s.root;
      EveryNodeLives(s, 1, n);
      var q :| q in s.cells && s.path[n] <= s.path[q] && KeepOwners(NotOlder(1), s.cells[q].owners) != map[];
      var o :| o in KeepOwners(NotOlder(1), s.cells[q].owners);
      assert q in Sub(s, s.root);
      assert s.cells[q].owners[o] in Times(s, Sub(s, s.root));
    }
  }

  // ---------------------------------------------------------------- whole traversals

  lemma {:induction false} RootReady<N>(s: Shape<N>, f: Filter)
    requires WF(s)
    ensures Ready(s, f, {}, {}, s.root) && After(s, f, {}, {}, s)
    ensures {} + (Sub(s, s.root) - {s.root}) == s.cells.Keys - {s.root} && {} + Sub(s, s.root) == s.cells.Keys
  {
    NothingDone(s, f);
    assert Sub(s, s.root) == s.cells.Keys;
  }

  /** What a whole traversal leaves behind. */
  lemma {:induction false} FilteredAll<N>(s: Shape<N>, f: Filter, r: Shape<N>, m: Model)
    requires Filtered(s, f, r) && Denotes(s, m) && Tidy(s)
    ensures WF(r) && Tidy(r) && Denotes(r, FilterModel(f, m)) && |r.cells| <= |s.cells|
      && Bytes(r.cells) <= Bytes(s.cells)
  {
    FilteredWF(s, f, r);
    FilteredDenotes(s, f, r, m);
    FilteredTidy(s, f, r);
    FilteredSmaller(s, f, r);
  }

  // ---------------------------------------------------------------- one round

  /** Everything recorded in the tree is at least as young as the oldest time. */
  lemma {:induction false} OldestBounds<N>(s: Shape<N>, t: Time)
    requires WF(s) && t != 0 && IsOldest(Times(s, Sub(s, s.root)), t)
    ensures AllNotOlder(s, t)
  {
    forall n, o | n in s.cells && o in s.cells[n].owners ensures s.cells[n].owners[o] >= t {
      assert n in Sub(s, s.root);
      assert s.cells[n].owners[o] in Times(s, Sub(s, s.root));
    }
  }

  lemma {:induction false} OldestIsLater<N>(s: Shape<N>, d: Time, r: Shape<N>, t: Time)
    requires Filtered(s, NotOlder(d), r) && WF(r) && t != 0 && IsOldest(Times(r, Sub(r, r.root)), t)
    ensures t >= d
  {
    assert t in Times(r, Sub(r, r.root));
    var q, o :| q in Sub(r, r.root) && q in r.cells && o in r.cells[q].owners && r.cells[q].owners[o] == t;
    FilteredStays(s, NotOlder(d), r, q);
  }

  /** The oldest generation holds at least one claim of the map. */
  lemma {:induction false} GenerationShrinks<N>(s: Shape<N>, m: Model, t: Time)
    requires WF(s) && Denotes(s, m) && t != 0 && IsOldest(Times(s, Sub(s, s.root)), t)
    ensures |FilterModel(NotOlder(t + 1), m)| < |m|
  {
    assert t in Times(s, Sub(s, s.root));
    var q, o :| q in Sub(s, s.root) && q in s.cells && o in s.cells[q].owners && s.cells[q].owners[o] == t;
    PathOfNonRoot(s, q);
    assert Agrees(s, m, q, s.path[q], o);
    var k := FilterModel(NotOlder(t + 1), m);
    assert Claim(s.path[q], o) in m && Claim(s.path[q], o) !in k;
    SubsetSize(k.Keys, m.Keys);
  }

  lemma {:induction false} FilterModelTwice(m: Model, a: Time, b: Time)
    requires a <= b
    ensures FilterModel(NotOlder(b), FilterModel(NotOlder(a), m)) == FilterModel(NotOlder(b), m)
  {
  }

  lemma {:induction false} FilterModelNothing<N>(s: Shape<N>, m: Model)
    requires WF(s) && Denotes(s, m) && Tidy(s)
    ensures FilterModel(NotOlder(1), m) == m
  {
    forall c | c in m ensures m[c] >= 1 {
      var n :| n in s.cells && Covers(s, n, c.prefix);
      assert Agrees(s, m, n, c.prefix, c.owner) && c == Claim(c.prefix, c.owner);
    }
  }
}
