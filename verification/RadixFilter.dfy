/**
 Removing claims from the prefix tree: TTL pruning, removal of one owner, eviction.

 All three delete owner entries and then reclaim the nodes that have neither owners nor
 children.  `Reclaim` describes the tree half-way through that traversal: below the nodes of
 `gone` the dead nodes have been unlinked, at the nodes of `swept` the owners were filtered.
 */
module RadixFilter {
  import opened RadixStore

  datatype Filter = NotOlder(deadline: Time) | NotOwner(owner: Owner)

  predicate Keeps(f: Filter, o: Owner, t: Time) {
    match f
    case NotOlder(d) => t >= d
    case NotOwner(w) => o != w
  }

  function KeepOwners(f: Filter, owners: map<Owner, Time>): map<Owner, Time> {
    map o | o in owners && Keeps(f, o, owners[o]) :: owners[o]
  }

  /** The simple map after the same removal. */
  ghost function FilterModel(f: Filter, m: Model): Model {
    map c | c in m && Keeps(f, c.owner, m[c]) :: m[c]
  }

  /** The nodes at or below `n`. */
  ghost function Sub<N>(s: Shape<N>, n: N): set<N>
    requires WF(s) && n in s.cells
  {
    set q | q in s.cells && s.path[n] <= s.path[q]
  }

  /** The nodes strictly below `n`, under one of the children named in `bs`. */
  ghost function Under<N>(s: Shape<N>, n: N, bs: set<char>): set<N>
    requires WF(s) && n in s.cells
  {
    set q | q in s.cells && s.path[n] < s.path[q] && s.path[q][|s.path[n]|] in bs
  }

  /** Some claim at or below `n` survives. */
  ghost predicate Alive<N>(s: Shape<N>, f: Filter, n: N)
    requires WF(s) && n in s.cells
  {
    exists q :: q in s.cells && s.path[n] <= s.path[q] && KeepOwners(f, s.cells[q].owners) != map[]
  }

  ghost predicate Stays<N>(s: Shape<N>, f: Filter, gone: set<N>, n: N)
    requires WF(s)
  {
    n in s.cells && (n in gone ==> Alive(s, f, n))
  }

  ghost predicate CellAfter<N>(s: Shape<N>, f: Filter, gone: set<N>, swept: set<N>, n: N, c: Cell<N>)
    requires WF(s) && n in s.cells
  {
    var was := s.cells[n];
    && c.edge == was.edge
    && c.owners == (if n in swept then KeepOwners(f, was.owners) else was.owners)
    && (forall b :: b in c.children <==> b in was.children && Stays(s, f, gone, was.children[b]))
    && (forall b :: b in c.children ==> c.children[b] == was.children[b])
  }

  /** `r` is `s` after the owners of `swept` were filtered and the dead nodes of `gone` unlinked. */
  ghost predicate After<N>(s: Shape<N>, f: Filter, gone: set<N>, swept: set<N>, r: Shape<N>)
    requires WF(s)
  {
    && r.root == s.root
    && r.path.Keys == r.cells.Keys && r.parent.Keys == r.cells.Keys - {s.root}
    && (forall n :: n in s.cells ==> (n in r.cells <==> Stays(s, f, gone, n)))
    && (forall n :: n in r.cells ==> n in s.cells && r.path[n] == s.path[n])
    && (forall n :: n in r.parent ==> r.parent[n] == s.parent[n])
    && (forall n {:trigger CellAfter(s, f, gone, swept, n, r.cells[n])} ::
          n in r.cells ==> n in s.cells && CellAfter(s, f, gone, swept, n, r.cells[n]))
  }

  /** `r` is `s` after the whole traversal. */
  ghost predicate Filtered<N>(s: Shape<N>, f: Filter, r: Shape<N>) {
    WF(s) && After(s, f, s.cells.Keys - {s.root}, s.cells.Keys, r)
  }

  lemma {:induction false} NothingDone<N>(s: Shape<N>, f: Filter)
    requires WF(s)
    ensures After(s, f, {}, {}, s)
  {
    forall n | n in s.cells ensures CellAfter(s, f, {}, {}, n, s.cells[n]) {
      forall b | b in s.cells[n].children ensures Stays(s, f, {}, s.cells[n].children[b]) {
        assert ChildOk(s, n, b);
      }
    }
  }

  /** The subtree of a child is the part below its parent on the child's byte. */
  lemma {:induction false} SubOfChild<N>(s: Shape<N>, n: N, b: char)
    requires WF(s) && n in s.cells && b in s.cells[n].children
    ensures s.cells[n].children[b] in s.cells
    ensures Sub(s, s.cells[n].children[b]) == Under(s, n, {b})
    ensures |s.path[n]| < |s.path[s.cells[n].children[b]]|
  {
    var c := s.cells[n].children[b];
    assert ChildOk(s, n, b);
    assert ParentOk(s, c);
    forall q | q in s.cells ensures q in Sub(s, c) <==> q in Under(s, n, {b}) {
      if q in Under(s, n, {b}) {
        Below(s, n, q);
      }
    }
  }

  lemma {:induction false} UnderAll<N>(s: Shape<N>, n: N)
    requires WF(s) && n in s.cells
    ensures Under(s, n, s.cells[n].children.Keys) == Sub(s, n) - {n}
  {
    forall q | q in s.cells ensures q in Under(s, n, s.cells[n].children.Keys) <==> q in Sub(s, n) - {n} {
      if q in Sub(s, n) && q != n {
        if s.path[q] == s.path[n] {
          PathInjective(s, q, n);
        }
        Below(s, n, q);
      }
    }
  }

  /** A node lives on exactly if it keeps an owner or a live child. */
  lemma {:induction false} AliveStep<N>(s: Shape<N>, f: Filter, n: N)
    requires WF(s) && n in s.cells
    ensures Alive(s, f, n) <==>
            KeepOwners(f, s.cells[n].owners) != map[] ||
            exists b :: b in s.cells[n].children && s.cells[n].children[b] in s.cells
              && Alive(s, f, s.cells[n].children[b])
  {
    if Alive(s, f, n) {
      var q :| q in s.cells && s.path[n] <= s.path[q] && KeepOwners(f, s.cells[q].owners) != map[];
      if s.path[q] == s.path[n] {
        PathInjective(s, q, n);
      } else {
        Below(s, n, q);
        var b := s.path[q][|s.path[n]|];
        assert Alive(s, f, s.cells[n].children[b]);
      }
    }
    forall b | b in s.cells[n].children && s.cells[n].children[b] in s.cells && Alive(s, f, s.cells[n].children[b])
      ensures Alive(s, f, n)
    {
      var c := s.cells[n].children[b];
      assert ChildOk(s, n, b);
      assert ParentOk(s, c);
      var q :| q in s.cells && s.path[c] <= s.path[q] && KeepOwners(f, s.cells[q].owners) != map[];
      assert s.path[n] <= s.path[q];
    }
  }

  lemma {:induction false} AliveParent<N>(s: Shape<N>, f: Filter, n: N)
    requires WF(s) && n in s.cells && n != s.root && Alive(s, f, n)
    ensures s.parent[n] in s.cells && Alive(s, f, s.parent[n])
  {
    assert ParentOk(s, n);
    var q :| q in s.cells && s.path[n] <= s.path[q] && KeepOwners(f, s.cells[q].owners) != map[];
    assert s.path[s.parent[n]] <= s.path[q];
  }

  /** Mid-traversal, a swept node whose subtree was reclaimed looks empty exactly if it is dead. */
  lemma {:induction false} EmptyMeansDead<N>(s: Shape<N>, f: Filter, gone: set<N>, swept: set<N>, n: N, c: Cell<N>)
    requires WF(s) && n in s.cells && n in swept && Sub(s, n) - {n} <= gone
    requires CellAfter(s, f, gone, swept, n, c)
    ensures c.owners == map[] && c.children == map[] <==> !Alive(s, f, n)
  {
    AliveStep(s, f, n);
    forall b | b in s.cells[n].children
      ensures s.cells[n].children[b] in s.cells && s.cells[n].children[b] in gone
    {
      SubOfChild(s, n, b);
      assert s.cells[n].children[b] in Sub(s, s.cells[n].children[b]);
    }
    if c.children != map[] {
      var b :| b in c.children;
      assert Alive(s, f, s.cells[n].children[b]);
    }
  }

  ghost function Unlink<N>(r: Shape<N>, n: N): Shape<N>
    requires n in r.cells && n in r.parent && r.parent[n] in r.cells && r.cells[n].edge != []
  {
    var u, c := r.parent[n], r.cells[r.parent[n]];
    Shape(r.root, r.cells[u := c.(children := c.children - {r.cells[n].edge[0]})] - {n}, r.path - {n}, r.parent - {n})
  }

  lemma {:induction false} UnlinkCell<N>(s: Shape<N>, f: Filter, gone: set<N>, swept: set<N>, n: N, q: N, c: Cell<N>)
    requires WF(s) && n in s.cells && n != s.root && n !in gone && !Alive(s, f, n)
    requires q in s.cells && s.cells[n].edge != [] && CellAfter(s, f, gone, swept, q, c)
    ensures CellAfter(s, f, gone + {n}, swept, q,
                      if q == s.parent[n] then c.(children := c.children - {s.cells[n].edge[0]}) else c)
  {
    assert ParentOk(s, n);
    forall b | b in s.cells[q].children
      ensures s.cells[q].children[b] in s.cells
      ensures s.cells[q].children[b] == n <==> q == s.parent[n] && b == s.cells[n].edge[0]
      ensures s.cells[q].children[b] != n ==> Stays(s, f, gone + {n}, s.cells[q].children[b]) == Stays(s, f, gone,
        s.cells[q].children[b])
    {
      assert ChildOk(s, q, b);
    }
  }

  /** Unlinking the dead node `n` from its parent is one step of the traversal. */
  lemma {:induction false} UnlinkStep<N>(s: Shape<N>, f: Filter, gone: set<N>, swept: set<N>, n: N, r: Shape<N>)
    requires WF(s) && After(s, f, gone, swept, r) && n in s.cells && n != s.root && n !in gone && !Alive(s, f, n)
    requires s.parent[n] in r.cells
    ensures n in r.cells && n in r.parent && r.parent[n] == s.parent[n] != n && r.cells[n].edge == s.cells[n].edge != []
    ensures After(s, f, gone + {n}, swept, Unlink(r, n))
  {
    var u := s.parent[n];
    assert ParentOk(s, n);
    assert |s.path[u]| < |s.path[n]|;
    assert Stays(s, f, gone, n) && CellAfter(s, f, gone, swept, n, r.cells[n]);
    var z := Unlink(r, n);
    forall q | q in s.cells && q != n ensures Stays(s, f, gone + {n}, q) == Stays(s, f, gone, q) {}
    forall q | q in z.cells ensures CellAfter(s, f, gone + {n}, swept, q, z.cells[q]) {
      assert CellAfter(s, f, gone, swept, q, r.cells[q]);
      UnlinkCell(s, f, gone, swept, n, q, r.cells[q]);
    }
  }

  /** Passing over a live node changes nothing. */
  lemma {:induction false} SkipStep<N>(s: Shape<N>, f: Filter, gone: set<N>, swept: set<N>, n: N, r: Shape<N>)
    requires WF(s) && After(s, f, gone, swept, r) && n in s.cells && Alive(s, f, n)
    ensures After(s, f, gone + {n}, swept, r)
  {
    forall q | q in s.cells ensures Stays(s, f, gone + {n}, q) == Stays(s, f, gone, q) {}
    forall q | q in r.cells ensures CellAfter(s, f, gone + {n}, swept, q, r.cells[q]) {
      assert CellAfter(s, f, gone, swept, q, r.cells[q]);
      forall b | b in s.cells[q].children ensures s.cells[q].children[b] in s.cells {
        assert ChildOk(s, q, b);
      }
    }
  }

  ghost function Sweep<N>(r: Shape<N>, f: Filter, n: N): Shape<N>
    requires n in r.cells
  {
    r.(cells := r.cells[n := r.cells[n].(owners := KeepOwners(f, r.cells[n].owners))])
  }

  lemma {:induction false} UnlinkBytes<N>(r: Shape<N>, n: N)
    requires n in r.cells && n in r.parent && r.parent[n] in r.cells && r.parent[n] != n && r.cells[n].edge != []
    ensures Bytes(Unlink(r, n).cells) == Bytes(r.cells) - |r.cells[n].edge|
    ensures |Unlink(r, n).cells| == |r.cells| - 1
  {
    var u, c := r.parent[n], r.cells[r.parent[n]];
    var d := c.(children := c.children - {r.cells[n].edge[0]});
    var big := r.cells[u := d];
    BytesUpdate(r.cells, u, d);
    assert (big - {n})[n := big[n]] == big;
    BytesUpdate(big - {n}, n, big[n]);
    assert (big - {n}).Keys == r.cells.Keys - {n};
  }

  /** Filtering the owners of `n` is one step of the traversal. */
  lemma {:induction false} SweepStep<N>(s: Shape<N>, f: Filter, gone: set<N>, swept: set<N>, n: N, r: Shape<N>)
    requires WF(s) && After(s, f, gone, swept, r) && n in r.cells && n !in swept
    ensures After(s, f, gone, swept + {n}, Sweep(r, f, n))
  {
    var z := Sweep(r, f, n);
    forall q | q in z.cells ensures CellAfter(s, f, gone, swept + {n}, q, z.cells[q]) {
      assert CellAfter(s, f, gone, swept, q, r.cells[q]);
    }
  }

  // ---------------------------------------------------------------- the loop over the children of one node

  ghost predicate Ready<N>(s: Shape<N>, f: Filter, gone: set<N>, swept: set<N>, n: N) {
    WF(s) && n in s.cells && Sub(s, n) !! gone && Sub(s, n) !! swept
  }

  lemma {:induction false} SweepEnter<N>(s: Shape<N>, f: Filter, gone: set<N>, swept: set<N>, n: N, r: Shape<N>)
    requires Ready(s, f, gone, swept, n) && After(s, f, gone, swept, r)
    ensures n in r.cells && r.cells[n].children.Keys == s.cells[n].children.Keys
    ensures After(s, f, gone + Under(s, n, {}), swept + Under(s, n, {}), r)
  {
    assert n in Sub(s, n) && Stays(s, f, gone, n) && CellAfter(s, f, gone, swept, n, r.cells[n]);
    forall b | b in s.cells[n].children ensures b in r.cells[n].children {
      ChildFacts(s, n, b);
      assert s.cells[n].children[b] in Sub(s, n);
    }
    assert gone + Under(s, n, {}) == gone && swept + Under(s, n, {}) == swept;
  }

  lemma {:induction false} SweepPick<N>(s: Shape<N>, f: Filter, gone: set<N>, swept: set<N>, n: N, done: set<char>,
    b: char, r: Shape<N>)
    requires Ready(s, f, gone, swept, n) && b in s.cells[n].children && b !in done
    requires After(s, f, gone + Under(s, n, done), swept + Under(s, n, done), r)
    ensures n in r.cells && b in r.cells[n].children && r.cells[n].children[b] == s.cells[n].children[b]
    ensures var c := s.cells[n].children[b];
            c in s.cells && Ready(s, f, gone + Under(s, n, done), swept + Under(s, n, done), c) && Sub(s, c) < Sub(s, n)
  {
    var c, g, w := s.cells[n].children[b], gone + Under(s, n, done), swept + Under(s, n, done);
    SubOfChild(s, n, b);
    assert n in Sub(s, n) && n !in Sub(s, c) && Sub(s, c) <= Sub(s, n);
    assert Under(s, n, {b}) !! Under(s, n, done);
    assert c in Sub(s, c) && Stays(s, f, g, c);
    assert Stays(s, f, g, n) && CellAfter(s, f, g, w, n, r.cells[n]);
  }

  lemma {:induction false} SweepBack<N>(s: Shape<N>, f: Filter, gone: set<N>, swept: set<N>, n: N, done: set<char>,
    b: char, r: Shape<N>)
    requires Ready(s, f, gone, swept, n) && b in s.cells[n].children && b !in done && s.cells[n].children[b] in s.cells
    requires var c := s.cells[n].children[b];
             After(s, f, gone + Under(s, n, done) + (Sub(s, c) - {c}), swept + Under(s, n, done) + Sub(s, c), r)
    ensures n in r.cells
    ensures var c := s.cells[n].children[b];
            c in r.cells && c in r.parent && r.parent[c] == n != c && c != r.root && r.cells[c].edge != []
              && r.cells[c].edge[0] == b &&
            After(s, f, gone + Under(s, n, done + {b}), swept + Under(s, n, done + {b}),
                  if r.cells[c].owners == map[] && r.cells[c].children == map[] then Unlink(r, c) else r)
  {
    var c := s.cells[n].children[b];
    var g, w := gone + Under(s, n, done) + (Sub(s, c) - {c}), swept + Under(s, n, done) + Sub(s, c);
    SubOfChild(s, n, b);
    ChildFacts(s, n, b);
    assert c in Sub(s, c) && n in Sub(s, n) && n !in Sub(s, c) && c in Under(s, n, {b});
    assert Under(s, n, done) + Under(s, n, {b}) == Under(s, n, done + {b});
    assert g + {c} == gone + Under(s, n, done + {b});
    assert w == swept + Under(s, n, done + {b});
    assert c in Sub(s, n) && c !in g && Stays(s, f, g, c) && Stays(s, f, g, n);
    assert CellAfter(s, f, g, w, c, r.cells[c]);
    EmptyMeansDead(s, f, g, w, c, r.cells[c]);
    if Alive(s, f, c) {
      SkipStep(s, f, g, w, c, r);
    } else {
      UnlinkStep(s, f, g, w, c, r);
    }
  }

  lemma {:induction false} SweepLeave<N>(s: Shape<N>, f: Filter, gone: set<N>, swept: set<N>, n: N, r: Shape<N>)
    requires Ready(s, f, gone, swept, n) && n in r.cells
    requires After(s, f, gone + Under(s, n, s.cells[n].children.Keys), swept + Under(s, n, s.cells[n].children.Keys), r)
    ensures After(s, f, gone + (Sub(s, n) - {n}), swept + Sub(s, n), Sweep(r, f, n))
  {
    UnderAll(s, n);
    assert n in Sub(s, n);
    assert swept + (Sub(s, n) - {n}) + {n} == swept + Sub(s, n);
    SweepStep(s, f, gone + (Sub(s, n) - {n}), swept + (Sub(s, n) - {n}), n, r);
  }

  // ---------------------------------------------------------------- the result of a traversal

  lemma {:induction false} FilteredStays<N>(s: Shape<N>, f: Filter, r: Shape<N>, n: N)
    requires Filtered(s, f, r) && n in s.cells
    ensures n in r.cells <==> n == s.root || Alive(s, f, n)
    ensures n in r.cells ==> r.cells[n].edge == s.cells[n].edge && r.cells[n].owners == KeepOwners(f, s.cells[n].owners)
    ensures n in r.cells ==> forall b :: b in r.cells[n].children <==>
      b in s.cells[n].children && s.cells[n].children[b] in r.cells
    ensures n in r.cells ==> forall b :: b in r.cells[n].children ==> r.cells[n].children[b] == s.cells[n].children[b]
  {
    if n in r.cells {
      assert CellAfter(s, f, s.cells.Keys - {s.root}, s.cells.Keys, n, r.cells[n]);
      forall b | b in s.cells[n].children ensures s.cells[n].children[b] in s.cells {
        assert ChildOk(s, n, b);
      }
    }
  }

  lemma {:induction false} FilteredWF<N>(s: Shape<N>, f: Filter, r: Shape<N>)
    requires Filtered(s, f, r)
    ensures WF(r)
  {
    FilteredStays(s, f, r, s.root);
    forall n, b | n in r.cells && b in r.cells[n].children ensures ChildOk(r, n, b) {
      FilteredStays(s, f, r, n);
      assert ChildOk(s, n, b);
      FilteredStays(s, f, r, s.cells[n].children[b]);
    }
    forall n | n in r.cells && n != r.root ensures ParentOk(r, n) {
      FilteredStays(s, f, r, n);
      AliveParent(s, f, n);
      assert ParentOk(s, n);
      FilteredStays(s, f, r, s.parent[n]);
    }
  }

  lemma {:induction false} FilteredLeavesOwned<N>(s: Shape<N>, f: Filter, r: Shape<N>)
    requires Filtered(s, f, r)
    ensures LeavesOwned(r)
  {
    forall n | n in r.cells && n != r.root && r.cells[n].children == map[] ensures r.cells[n].owners != map[] {
      FilteredStays(s, f, r, n);
      AliveStep(s, f, n);
      if b :| b in s.cells[n].children && s.cells[n].children[b] in s.cells && Alive(s, f, s.cells[n].children[b]) {
        FilteredStays(s, f, r, s.cells[n].children[b]);
        assert b in r.cells[n].children;
      }
    }
  }

  lemma {:induction false} FilteredCovers<N>(s: Shape<N>, f: Filter, r: Shape<N>, n: N, p: Key)
    requires Filtered(s, f, r) && n in r.cells && Covers(r, n, p)
    ensures n in s.cells && Covers(s, n, p) && r.cells[n].owners == KeepOwners(f, s.cells[n].owners)
  {
    FilteredStays(s, f, r, n);
  }

  lemma {:induction false} FilteredAgrees<N>(s: Shape<N>, f: Filter, r: Shape<N>, m: Model, n: N, p: Key, o: Owner)
    requires Filtered(s, f, r) && Denotes(s, m) && n in r.cells && Covers(r, n, p)
    ensures Agrees(r, FilterModel(f, m), n, p, o)
  {
    hide Filtered, Covers, WF;
    FilteredCovers(s, f, r, n, p);
    assert Agrees(s, m, n, p, o);
  }

  /** A claim that the filter keeps has a node that survives. */
  lemma {:induction false} KeptIsCovered<N>(s: Shape<N>, f: Filter, r: Shape<N>, m: Model, c: Claim)
    requires Filtered(s, f, r) && Denotes(s, m) && c in FilterModel(f, m)
    ensures exists n :: n in r.cells && Covers(r, n, c.prefix)
  {
    var n :| n in s.cells && Covers(s, n, c.prefix);
    assert Agrees(s, m, n, c.prefix, c.owner) && c == Claim(c.prefix, c.owner);
    assert c.owner in KeepOwners(f, s.cells[n].owners);
    SurvivorCovers(s, f, r, n, c.prefix);
  }

  lemma {:induction false} SurvivorCovers<N>(s: Shape<N>, f: Filter, r: Shape<N>, n: N, p: Key)
    requires Filtered(s, f, r) && n in s.cells && Covers(s, n, p) && KeepOwners(f, s.cells[n].owners) != map[]
    ensures n in r.cells && Covers(r, n, p)
  {
    assert Alive(s, f, n);
    FilteredStays(s, f, r, n);
    AliveParent(s, f, n);
    FilteredStays(s, f, r, s.parent[n]);
  }

  /** The traversal removes exactly the claims the filter rejects. */
  lemma {:induction false} FilteredDenotes<N>(s: Shape<N>, f: Filter, r: Shape<N>, m: Model)
    requires Filtered(s, f, r) && Denotes(s, m)
    ensures Denotes(r, FilterModel(f, m))
  {
    hide Filtered, WF, Covers, Agrees, FilterModel;
    var k := FilterModel(f, m);
    forall n, p, o | n in r.cells && Covers(r, n, p) ensures Agrees(r, k, n, p, o) {
      FilteredAgrees(s, f, r, m, n, p, o);
    }
    forall c | c in k ensures exists n :: n in r.cells && Covers(r, n, c.prefix) {
      KeptIsCovered(s, f, r, m, c);
    }
  }

  lemma {:induction false} AliveEarlier<N>(s: Shape<N>, a: Time, b: Time, n: N)
    requires WF(s) && a <= b && n in s.cells && Alive(s, NotOlder(b), n)
    ensures Alive(s, NotOlder(a), n)
    ensures exists q ::
      q in s.cells && s.path[n] <= s.path[q] && KeepOwners(NotOlder(b), s.cells[q].owners) != map[]
      && Alive(s, NotOlder(a), q)
  {
    var q :| q in s.cells && s.path[n] <= s.path[q] && KeepOwners(NotOlder(b), s.cells[q].owners) != map[];
    var o :| o in KeepOwners(NotOlder(b), s.cells[q].owners);
    assert o in KeepOwners(NotOlder(a), s.cells[q].owners);
    assert s.path[q] <= s.path[q];
  }

  lemma {:induction false} AliveAgain<N>(s: Shape<N>, a: Time, b: Time, r: Shape<N>, n: N)
    requires Filtered(s, NotOlder(a), r) && a <= b && WF(r) && n in r.cells
    ensures Alive(r, NotOlder(b), n) <==> Alive(s, NotOlder(b), n)
  {
    forall q | q in r.cells
      ensures KeepOwners(NotOlder(b), r.cells[q].owners) == KeepOwners(NotOlder(b), s.cells[q].owners)
    {
      FilteredStays(s, NotOlder(a), r, q);
    }
    if Alive(s, NotOlder(b), n) {
      AliveEarlier(s, a, b, n);
      var q :| q in s.cells && s.path[n] <= s.path[q] && KeepOwners(NotOlder(b), s.cells[q].owners) != map[]
        && Alive(s, NotOlder(a), q);
      FilteredStays(s, NotOlder(a), r, q);
      assert q in r.cells && r.path[n] <= r.path[q];
    }
  }

  lemma {:induction false} StaysAgain<N>(s: Shape<N>, a: Time, b: Time, r: Shape<N>, z: Shape<N>, n: N)
    requires Filtered(s, NotOlder(a), r) && a <= b && Filtered(r, NotOlder(b), z) && n in s.cells
    ensures n in z.cells <==> n == s.root || Alive(s, NotOlder(b), n)
  {
    FilteredStays(s, NotOlder(a), r, n);
    if n in r.cells {
      FilteredStays(r, NotOlder(b), z, n);
      AliveAgain(s, a, b, r, n);
    } else if Alive(s, NotOlder(b), n) {
      AliveEarlier(s, a, b, n);
    }
  }

  lemma {:induction false} CellAgain<N>(s: Shape<N>, a: Time, b: Time, n: N, c: Cell<N>, d: Cell<N>, kept: set<N>,
    left: set<N>)
    requires WF(s) && a <= b && n in s.cells && left <= kept
    requires c.edge == s.cells[n].edge && c.owners == KeepOwners(NotOlder(a), s.cells[n].owners)
    requires d.edge == c.edge && d.owners == KeepOwners(NotOlder(b), c.owners)
    requires forall k :: k in c.children <==> k in s.cells[n].children && s.cells[n].children[k] in kept
    requires forall k :: k in c.children ==> c.children[k] == s.cells[n].children[k]
    requires forall k :: k in d.children <==> k in c.children && c.children[k] in left
    requires forall k :: k in d.children ==> d.children[k] == c.children[k]
    requires forall q :: q in s.cells ==> (q in left <==> Stays(s, NotOlder(b), s.cells.Keys - {s.root}, q))
    ensures CellAfter(s, NotOlder(b), s.cells.Keys - {s.root}, s.cells.Keys, n, d)
  {
    forall k | k in s.cells[n].children ensures s.cells[n].children[k] in s.cells {
      assert ChildOk(s, n, k);
    }
    assert d.owners == KeepOwners(NotOlder(b), s.cells[n].owners);
  }

  /** Pruning twice, with a later deadline the second time, is pruning once with that deadline. */
  lemma {:induction false} PruneCompose<N>(s: Shape<N>, a: Time, b: Time, r: Shape<N>, z: Shape<N>)
    requires Filtered(s, NotOlder(a), r) && a <= b && Filtered(r, NotOlder(b), z)
    ensures Filtered(s, NotOlder(b), z)
  {
    var gone, all := s.cells.Keys - {s.root}, s.cells.Keys;
    forall n | n in s.cells ensures n in z.cells <==> Stays(s, NotOlder(b), gone, n) {
      StaysAgain(s, a, b, r, z, n);
    }
    forall n | n in z.cells ensures CellAfter(s, NotOlder(b), gone, all, n, z.cells[n]) {
      FilteredStays(s, NotOlder(a), r, n);
      FilteredStays(r, NotOlder(b), z, n);
      CellAgain(s, a, b, n, r.cells[n], z.cells[n], r.cells.Keys, z.cells.Keys);
    }
  }

  ghost predicate AllNotOlder<N>(s: Shape<N>, d: Time) {
    forall n, o :: n in s.cells && o in s.cells[n].owners ==> s.cells[n].owners[o] >= d
  }

  lemma {:induction false} EveryNodeLives<N>(s: Shape<N>, d: Time, n: N)
    requires WF(s) && LeavesOwned(s) && AllNotOlder(s, d) && n in s.cells && n != s.root
    ensures Alive(s, NotOlder(d), n)
    decreases Sub(s, n)
  {
    AliveStep(s, NotOlder(d), n);
    assert KeepOwners(NotOlder(d), s.cells[n].owners) == s.cells[n].owners;
    if s.cells[n].owners == map[] {
      var b :| b in s.cells[n].children;
      var c := s.cells[n].children[b];
      assert ChildOk(s, n, b);
      SubOfChild(s, n, b);
      assert n !in Sub(s, c) && n in Sub(s, n);
      assert Sub(s, c) < Sub(s, n);
      EveryNodeLives(s, d, c);
    }
  }

  /** Pruning a tree in which nothing is older than the deadline changes nothing. */
  lemma {:induction false} PruneNothing<N>(s: Shape<N>, d: Time)
    requires WF(s) && LeavesOwned(s) && AllNotOlder(s, d)
    ensures Filtered(s, NotOlder(d), s)
  {
    var gone, all := s.cells.Keys - {s.root}, s.cells.Keys;
    forall n | n in s.cells ensures Stays(s, NotOlder(d), gone, n) {
      if n != s.root {
        EveryNodeLives(s, d, n);
      }
    }
    forall n | n in s.cells ensures CellAfter(s, NotOlder(d), gone, all, n, s.cells[n]) {
      forall b | b in s.cells[n].children ensures Stays(s, NotOlder(d), gone, s.cells[n].children[b]) {
        assert ChildOk(s, n, b);
      }
      assert KeepOwners(NotOlder(d), s.cells[n].owners) == s.cells[n].owners;
    }
  }

  /** Every leaf has an owner and every time is positive. */
  ghost predicate Tidy<N>(s: Shape<N>) {
    LeavesOwned(s) && AllNotOlder(s, 1)
  }

  lemma {:induction false} TouchTidy<N>(s: Shape<N>, n: N, o: Owner, now: Time)
    requires Tidy(s) && n in s.cells && now > 0
    ensures Tidy(Touch(s, n, o, now))
  {
    assert o in Touch(s, n, o, now).cells[n].owners;
  }

  lemma {:induction false} AddLeafTidy<N>(s: Shape<N>, n: N, x: N, rest: Key, o: Owner, now: Time)
    requires Tidy(s) && n in s.cells && n in s.path && x !in s.cells && rest != [] && now > 0
    ensures Tidy(AddLeaf(s, n, x, rest, o, now))
  {
    var s' := AddLeaf(s, n, x, rest, o, now);
    assert rest[0] in s'.cells[n].children && o in s'.cells[x].owners;
  }

  lemma {:induction false} SplitTidy<N>(s: Shape<N>, c: N, x: N, cl: nat)
    requires Tidy(s) && CanSplit(s, c, x, cl) && s.parent[c] != c
    ensures Tidy(Split(s, c, x, cl))
  {
    var s' := Split(s, c, x, cl);
    assert s.cells[c].edge[0] in s'.cells[s.parent[c]].children && s.cells[c].edge[cl] in s'.cells[x].children;
  }

  /** A node may be split off above `c`. */
  lemma {:induction false} SplitReady<N>(s: Shape<N>, c: N)
    requires WF(s) && c in s.cells && c in s.parent
    ensures c in s.path && s.parent[c] in s.cells && s.parent[c] in s.path && s.parent[c] != c
  {
    assert ParentOk(s, c);
    assert |s.path[s.parent[c]]| < |s.path[c]|;
  }

  /** Splitting an edge and stamping the middle node extends what is stamped by the first part of the edge. */
  lemma {:induction false} SplitTouch<N>(s: Shape<N>, m: Model, c: N, x: N, cl: nat, o: Owner, now: Time)
    requires CanSplit(s, c, x, cl) && c in s.path && s.parent[c] in s.path && s.parent[c] != c && Tidy(s) && now > 0
    requires Denotes(s, Stamp(m, s.path[s.parent[c]], o, now))
    ensures var r := Split(s, c, x, cl);
            x in r.cells && var z := Touch(r, x, o, now);
            && WF(z) && Tidy(z) && z.cells.Keys == s.cells.Keys + {x} && x in z.path
            && z.path[x] == s.path[s.parent[c]] + s.cells[c].edge[..cl]
            && z.cells[x].children.Keys == {s.cells[c].edge[cl]} && Denotes(z, Stamp(m, z.path[x], o, now))
  {
    hide Denotes, Stamp, Tidy;
    var r := Split(s, c, x, cl);
    SplitStep(s, Stamp(m, s.path[s.parent[c]], o, now), c, x, cl);
    SplitWF(s, c, x, cl);
    SplitTidy(s, c, x, cl);
    TouchStep(r, m, x, o, now);
    TouchTidy(r, x, o, now);
  }

  lemma {:induction false} FilteredTidy<N>(s: Shape<N>, f: Filter, r: Shape<N>)
    requires Tidy(s) && Filtered(s, f, r)
    ensures Tidy(r)
  {
    FilteredLeavesOwned(s, f, r);
    forall n, o | n in r.cells && o in r.cells[n].owners ensures r.cells[n].owners[o] >= 1 {
      FilteredStays(s, f, r, n);
    }
  }
}
