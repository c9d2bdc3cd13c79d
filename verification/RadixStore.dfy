/**
 The value theory of the prefix-ownership radix tree.

 A `Shape` is a picture of the node graph: one `Cell` per node, and two labels that the
 program does not store, the full path of every node and its parent.  A `Model` is the simple
 thing the tree speeds up: a map from (non-empty prefix, owner) to the last insert time.
 */
module RadixStore {
  import opened Sums

  type Key = string
  type Owner = string
  type Time = int

  datatype Claim = Claim(prefix: Key, owner: Owner)
  type Model = map<Claim, Time>

  datatype Cell<N> = Cell(edge: Key, children: map<char, N>, owners: map<Owner, Time>)
  datatype Shape<N> = Shape(root: N, cells: map<N, Cell<N>>, path: map<N, Key>, parent: map<N, N>)

  // ---------------------------------------------------------------- well-formed shapes

  ghost predicate ChildOk<N>(s: Shape<N>, n: N, b: char)
    requires n in s.cells && b in s.cells[n].children
  {
    var c := s.cells[n].children[b];
    c in s.cells && c != s.root && c in s.parent && s.parent[c] == n && s.cells[c].edge != [] && s.cells[c].edge[0] == b
  }

  ghost predicate ParentOk<N>(s: Shape<N>, n: N)
    requires n in s.cells && n in s.path && n in s.parent
  {
    var u, e := s.parent[n], s.cells[n].edge;
    u in s.cells && u in s.path && e != [] && e[0] in s.cells[u].children &&
    s.cells[u].children[e[0]] == n && s.path[n] == s.path[u] + e
  }

  /** A tree: children and parents agree, and paths are the concatenated edges. */
  ghost predicate WF<N>(s: Shape<N>) {
    && s.root in s.cells
    && s.path.Keys == s.cells.Keys
    && s.parent.Keys == s.cells.Keys - {s.root}
    && s.path[s.root] == [] && s.cells[s.root].edge == [] && s.cells[s.root].owners == map[]
    && (forall n, b {:trigger ChildOk(s, n, b)} :: n in s.cells && b in s.cells[n].children ==> ChildOk(s, n, b))
    && (forall n {:trigger ParentOk(s, n)} :: n in s.cells && n != s.root ==> ParentOk(s, n))
  }

  /** Only nodes that somebody owns, or that lead to such a node, stay in the tree. */
  ghost predicate LeavesOwned<N>(s: Shape<N>) {
    forall n :: n in s.cells && n != s.root && s.cells[n].children == map[] ==> s.cells[n].owners != map[]
  }

  /** `n` is the node whose edge contains the last byte of `p`. */
  ghost predicate Covers<N>(s: Shape<N>, n: N, p: Key) {
    && n in s.cells && n in s.path && n in s.parent && s.parent[n] in s.path
    && s.path[s.parent[n]] < p <= s.path[n]
  }

  ghost predicate Agrees<N>(s: Shape<N>, m: Model, n: N, p: Key, o: Owner)
    requires n in s.cells
  {
    && (Claim(p, o) in m <==> o in s.cells[n].owners)
    && (o in s.cells[n].owners ==> m[Claim(p, o)] == s.cells[n].owners[o])
  }

  /** The tree `s` represents exactly the map `m`. */
  ghost predicate Denotes<N>(s: Shape<N>, m: Model) {
    && (forall n, p, o {:trigger Agrees(s, m, n, p, o)} :: n in s.cells && Covers(s, n, p) ==> Agrees(s, m, n, p, o))
    && (forall c :: c in m ==> exists n :: n in s.cells && Covers(s, n, c.prefix))
  }

  // ---------------------------------------------------------------- determinism of paths

  lemma {:induction false} PathOfNonRoot<N>(s: Shape<N>, n: N)
    requires WF(s) && n in s.cells
    ensures n != s.root <==> s.path[n] != []
    ensures n != s.root ==> Covers(s, n, s.path[n])
  {
    if n != s.root {
      assert ParentOk(s, n);
    }
  }

  lemma {:induction false} ChildFacts<N>(s: Shape<N>, n: N, b: char)
    requires WF(s) && n in s.cells && b in s.cells[n].children
    ensures n in s.path
    ensures var c := s.cells[n].children[b];
            c in s.cells && c in s.path && c in s.parent && c != s.root && c != n && s.parent[c] == n &&
            s.cells[c].edge != [] && s.cells[c].edge[0] == b && s.path[c] == s.path[n] + s.cells[c].edge
  {
    assert ChildOk(s, n, b);
    assert ParentOk(s, s.cells[n].children[b]);
  }

  /** At most one node covers a prefix. */
  lemma {:induction false} CoverUnique<N>(s: Shape<N>, a: N, b: N, p: Key)
    requires WF(s) && Covers(s, a, p) && Covers(s, b, p)
    ensures a == b
    decreases |p|
  {
    var u, v := s.parent[a], s.parent[b];
    assert ParentOk(s, a) && ParentOk(s, b);
    if |s.path[u]| == |s.path[v]| {
      assert s.path[u] == s.path[v];
      PathOfNonRoot(s, u);
      PathOfNonRoot(s, v);
      if s.path[u] != [] {
        CoverUnique(s, u, v, s.path[u]);
      }
      assert u == v;
      assert s.cells[a].edge[0] == p[|s.path[u]|] == s.cells[b].edge[0];
    } else if |s.path[u]| < |s.path[v]| {
      PathOfNonRoot(s, v);
      assert Covers(s, a, s.path[v]);
      CoverUnique(s, a, v, s.path[v]);
      assert false;
    } else {
      PathOfNonRoot(s, u);
      assert Covers(s, b, s.path[u]);
      CoverUnique(s, b, u, s.path[u]);
      assert false;
    }
  }

  lemma {:induction false} PathInjective<N>(s: Shape<N>, a: N, b: N)
    requires WF(s) && a in s.cells && b in s.cells && s.path[a] == s.path[b]
    ensures a == b
  {
    PathOfNonRoot(s, a);
    PathOfNonRoot(s, b);
    if a != s.root {
      CoverUnique(s, a, b, s.path[a]);
    }
  }

  /** A node whose path extends that of `n` hangs below the child of `n` on the next byte. */
  lemma {:induction false} Below<N>(s: Shape<N>, n: N, q: N)
    requires WF(s) && n in s.cells && q in s.cells && s.path[n] < s.path[q]
    ensures var b := s.path[q][|s.path[n]|];
            b in s.cells[n].children && s.cells[n].children[b] in s.path &&
            s.path[n] < s.path[s.cells[n].children[b]] <= s.path[q]
    decreases |s.path[q]|
  {
    PathOfNonRoot(s, q);
    var u := s.parent[q];
    assert ParentOk(s, q);
    if |s.path[u]| < |s.path[n]| {
      PathOfNonRoot(s, n);
      assert Covers(s, q, s.path[n]);
      CoverUnique(s, q, n, s.path[n]);
      assert false;
    } else if |s.path[u]| == |s.path[n]| {
      assert s.path[u] == s.path[n];
      PathInjective(s, u, n);
    } else {
      assert s.path[n] < s.path[u];
      Below(s, n, u);
      var b := s.path[q][|s.path[n]|];
      assert s.path[u][|s.path[n]|] == b;
    }
  }

  /** A prefix that leaves `n` on a byte without a child is covered by nobody. */
  lemma {:induction false} Uncovered<N>(s: Shape<N>, n: N, p: Key, q: N)
    requires WF(s) && n in s.cells && s.path[n] < p && p[|s.path[n]|] !in s.cells[n].children
    ensures !Covers(s, q, p)
  {
    if Covers(s, q, p) {
      assert s.path[n] < s.path[q];
      assert s.path[q][|s.path[n]|] == p[|s.path[n]|];
      Below(s, n, q);
    }
  }

  /** The model of a tree is determined by the tree. */
  lemma {:induction false} DenotesUnique<N>(s: Shape<N>, m: Model, m': Model)
    requires Denotes(s, m) && Denotes(s, m')
    ensures m == m'
  {
    forall c | c in m || c in m'
      ensures c in m && c in m' && m[c] == m'[c]
    {
      var n :| n in s.cells && Covers(s, n, c.prefix);
      assert Agrees(s, m, n, c.prefix, c.owner) && Agrees(s, m', n, c.prefix, c.owner);
      assert c == Claim(c.prefix, c.owner);
    }
  }

  // ---------------------------------------------------------------- insertion

  ghost predicate Stamped(c: Claim, key: Key, o: Owner) {
    c.owner == o && c.prefix != [] && c.prefix <= key
  }

  /** The map after owner `o` served `key` at time `now`: every non-empty prefix is stamped. */
  ghost function Stamp(m: Model, key: Key, o: Owner, now: Time): (r: Model)
    ensures forall c :: c in r <==> c in m || Stamped(c, key, o)
    ensures forall c :: c in r ==> r[c] == if Stamped(c, key, o) then now else m[c]
    decreases |key|
  {
    if key == [] then m
    else
      var k' := key[..|key| - 1];
      assert forall c :: Stamped(c, key, o) <==> Stamped(c, k', o) || c == Claim(key, o) by {
        forall c | Stamped(c, key, o) && c != Claim(key, o) ensures Stamped(c, k', o) {
          assert |c.prefix| != |key|;
        }
      }
      Stamp(m, k', o, now)[Claim(key, o) := now]
  }

  lemma {:induction false} StampNothing(m: Model, o: Owner, now: Time)
    ensures Stamp(m, [], o, now) == m
  {
  }

  ghost function Touch<N>(s: Shape<N>, n: N, o: Owner, now: Time): Shape<N>
    requires n in s.cells
  {
    var c := s.cells[n];
    s.(cells := s.cells[n := c.(owners := c.owners[o := now])])
  }

  lemma {:induction false} TouchWF<N>(s: Shape<N>, n: N, o: Owner, now: Time)
    requires WF(s) && n in s.cells && n != s.root
    ensures WF(Touch(s, n, o, now))
  {
    var s' := Touch(s, n, o, now);
    forall x, b | x in s'.cells && b in s'.cells[x].children ensures ChildOk(s', x, b) {
      assert ChildOk(s, x, b);
    }
    forall x | x in s'.cells && x != s'.root ensures ParentOk(s', x) {
      assert ParentOk(s, x);
    }
  }

  lemma {:induction false} TouchAgrees<N>(s: Shape<N>, m0: Model, n: N, o: Owner, now: Time, x: N, p: Key, w: Owner)
    requires WF(s) && n in s.cells && n != s.root && s.parent[n] in s.cells
    requires Denotes(s, Stamp(m0, s.path[s.parent[n]], o, now))
    requires x in s.cells && Covers(s, x, p)
    ensures Agrees(Touch(s, n, o, now), Stamp(m0, s.path[n], o, now), x, p, w)
  {
    var u := s.parent[n];
    assert ParentOk(s, n);
    assert Agrees(s, Stamp(m0, s.path[u], o, now), x, p, w);
    if x != n && Covers(s, n, p) {
      CoverUnique(s, n, x, p);
    }
    assert Stamped(Claim(p, w), s.path[n], o) <==> Stamped(Claim(p, w), s.path[u], o) || (w == o && Covers(s, n, p));
  }

  /** Marking a node stamps exactly the prefixes on its edge. */
  lemma {:induction false} TouchStep<N>(s: Shape<N>, m0: Model, n: N, o: Owner, now: Time)
    requires WF(s) && n in s.cells && n != s.root && s.parent[n] in s.cells
    requires Denotes(s, Stamp(m0, s.path[s.parent[n]], o, now))
    ensures WF(Touch(s, n, o, now))
    ensures Denotes(Touch(s, n, o, now), Stamp(m0, s.path[n], o, now))
  {
    TouchWF(s, n, o, now);
    var s', u := Touch(s, n, o, now), s.parent[n];
    var m, m' := Stamp(m0, s.path[u], o, now), Stamp(m0, s.path[n], o, now);
    assert ParentOk(s, n);
    forall x, p, w | x in s'.cells && Covers(s', x, p) ensures Agrees(s', m', x, p, w) {
      assert Covers(s, x, p);
      TouchAgrees(s, m0, n, o, now, x, p, w);
    }
    forall c | c in m' ensures exists x :: x in s'.cells && Covers(s', x, c.prefix) {
      if c in m {
        var x :| x in s.cells && Covers(s, x, c.prefix);
        assert Covers(s', x, c.prefix);
      } else {
        assert Covers(s', n, c.prefix);
      }
    }
  }

  ghost function AddLeaf<N>(s: Shape<N>, n: N, x: N, rest: Key, o: Owner, now: Time): Shape<N>
    requires n in s.cells && n in s.path && rest != []
  {
    var c := s.cells[n];
    Shape(s.root,
          s.cells[n := c.(children := c.children[rest[0] := x])][x := Cell(rest, map[], map[o := now])],
          s.path[x := s.path[n] + rest], s.parent[x := n])
  }

  ghost predicate CanAdd<N>(s: Shape<N>, n: N, x: N, rest: Key) {
    WF(s) && n in s.cells && x !in s.cells && rest != [] && rest[0] !in s.cells[n].children
  }

  lemma {:induction false} AddLeafWF<N>(s: Shape<N>, n: N, x: N, rest: Key, o: Owner, now: Time)
    requires CanAdd(s, n, x, rest)
    ensures WF(AddLeaf(s, n, x, rest, o, now))
  {
    var s' := AddLeaf(s, n, x, rest, o, now);
    assert s'.parent.Keys == s'.cells.Keys - {s'.root};
    forall y, b | y in s'.cells && b in s'.cells[y].children ensures ChildOk(s', y, b) {
      if y != x && !(y == n && b == rest[0]) {
        assert ChildOk(s, y, b);
      }
    }
    forall y | y in s'.cells && y != s'.root ensures ParentOk(s', y) {
      if y != x {
        assert ParentOk(s, y);
      }
    }
  }

  lemma {:induction false} AddLeafAgrees<N>(s: Shape<N>, m0: Model, n: N, x: N, rest: Key, o: Owner, now: Time,
                                            y: N, p: Key, w: Owner)
    requires CanAdd(s, n, x, rest)
    requires Denotes(s, Stamp(m0, s.path[n], o, now))
    requires y in s.cells || y == x
    requires Covers(AddLeaf(s, n, x, rest, o, now), y, p)
    ensures Agrees(AddLeaf(s, n, x, rest, o, now), Stamp(m0, s.path[n] + rest, o, now), y, p, w)
  {
    var full := s.path[n] + rest;
    var c := Claim(p, w);
    assert Stamped(c, s.path[n], o) ==> Stamped(c, full, o);
    if y == x {
      assert p[|s.path[n]|] == rest[0];
      if c in Stamp(m0, s.path[n], o, now) {
        var z :| z in s.cells && Covers(s, z, c.prefix);
        Uncovered(s, n, p, z);
      }
    } else {
      assert ParentOk(s, y);
      assert Covers(s, y, p) && Agrees(s, Stamp(m0, s.path[n], o, now), y, p, w);
      if Stamped(c, full, o) && !Stamped(c, s.path[n], o) {
        assert s.path[n] < p && p[|s.path[n]|] == rest[0];
        Uncovered(s, n, p, y);
      }
    }
  }

  /** Hanging a new leaf stamps exactly the prefixes on its edge. */
  lemma {:induction false} AddLeafStep<N>(s: Shape<N>, m0: Model, n: N, x: N, rest: Key, o: Owner, now: Time)
    requires CanAdd(s, n, x, rest)
    requires Denotes(s, Stamp(m0, s.path[n], o, now))
    ensures WF(AddLeaf(s, n, x, rest, o, now))
    ensures Denotes(AddLeaf(s, n, x, rest, o, now), Stamp(m0, s.path[n] + rest, o, now))
  {
    var s' := AddLeaf(s, n, x, rest, o, now);
    var m, m' := Stamp(m0, s.path[n], o, now), Stamp(m0, s.path[n] + rest, o, now);
    AddLeafWF(s, n, x, rest, o, now);
    forall y, p, w | y in s'.cells && Covers(s', y, p) ensures Agrees(s', m', y, p, w) {
      AddLeafAgrees(s, m0, n, x, rest, o, now, y, p, w);
    }
    forall c | c in m' ensures exists y :: y in s'.cells && Covers(s', y, c.prefix) {
      if c in m {
        var y :| y in s.cells && Covers(s, y, c.prefix);
        assert Covers(s', y, c.prefix);
      } else {
        assert Covers(s', x, c.prefix);
      }
    }
  }

  ghost function Split<N>(s: Shape<N>, c: N, x: N, cl: nat): Shape<N>
    requires c in s.cells && c in s.path && c in s.parent && s.parent[c] in s.cells && s.parent[c] in s.path
    requires 0 < cl < |s.cells[c].edge|
  {
    var n, cell := s.parent[c], s.cells[c];
    var u := s.cells[n];
    Shape(s.root,
          s.cells[n := u.(children := u.children[cell.edge[0] := x])]
                 [c := cell.(edge := cell.edge[cl..])]
                 [x := Cell(cell.edge[..cl], map[cell.edge[cl] := c], cell.owners)],
          s.path[x := s.path[n] + cell.edge[..cl]], s.parent[x := n][c := x])
  }

  ghost predicate CanSplit<N>(s: Shape<N>, c: N, x: N, cl: nat) {
    WF(s) && c in s.cells && c in s.parent && s.parent[c] in s.cells && x !in s.cells && 0 < cl < |s.cells[c].edge|
  }

  lemma {:induction false} SplitWF<N>(s: Shape<N>, c: N, x: N, cl: nat)
    requires CanSplit(s, c, x, cl)
    ensures WF(Split(s, c, x, cl))
    ensures var s' := Split(s, c, x, cl);
            s'.path[c] == s.path[c] && s.path[s.parent[c]] < s'.path[x] < s.path[c] && s.parent[c] != c
  {
    assert ParentOk(s, c);
    var s' := Split(s, c, x, cl);
    var n, e := s.parent[c], s.cells[c].edge;
    assert |s.path[n]| < |s.path[c]|;
    assert e == e[..cl] + e[cl..];
    assert s.path[c] == s.path[n] + e[..cl] + e[cl..];
    assert s'.parent.Keys == s'.cells.Keys - {s'.root};
    forall y, b | y in s'.cells && b in s'.cells[y].children ensures ChildOk(s', y, b) {
      if y != x && !(y == n && b == e[0]) {
        assert ChildOk(s, y, b);
      }
    }
    forall y | y in s'.cells && y != s'.root ensures ParentOk(s', y) {
      if y != x && y != c {
        assert ParentOk(s, y);
      }
    }
  }

  /** Splitting an edge changes nothing in the map. */
  lemma {:induction false} SplitStep<N>(s: Shape<N>, m: Model, c: N, x: N, cl: nat)
    requires CanSplit(s, c, x, cl) && Denotes(s, m)
    ensures WF(Split(s, c, x, cl)) && Denotes(Split(s, c, x, cl), m)
  {
    SplitWF(s, c, x, cl);
    var s' := Split(s, c, x, cl);
    forall y, p, w | y in s'.cells && Covers(s', y, p) ensures Agrees(s', m, y, p, w) {
      var z := if y == x then c else y;
      assert ParentOk(s, z);
      assert Covers(s, z, p);
      assert Agrees(s, m, z, p, w);
    }
    forall k | k in m ensures exists y :: y in s'.cells && Covers(s', y, k.prefix) {
      var z :| z in s.cells && Covers(s, z, k.prefix);
      if z == c && |k.prefix| <= |s'.path[x]| {
        assert Covers(s', x, k.prefix);
      } else {
        assert Covers(s', z, k.prefix);
      }
    }
  }

  // ---------------------------------------------------------------- size

  ghost function EdgeLengths<N>(cells: map<N, Cell<N>>): map<N, nat> {
    map n | n in cells :: |cells[n].edge|
  }

  /** The number of bytes on all edges. */
  ghost function Bytes<N>(cells: map<N, Cell<N>>): nat {
    Sum(EdgeLengths(cells))
  }

  lemma {:induction false} BytesUpdate<N>(cells: map<N, Cell<N>>, n: N, c: Cell<N>)
    ensures Bytes(cells[n := c]) == Bytes(cells) + |c.edge| - (if n in cells then |cells[n].edge| else 0)
  {
    assert EdgeLengths(cells[n := c]) == EdgeLengths(cells)[n := |c.edge|];
    SumUpdate(EdgeLengths(cells), n, |c.edge|);
  }

  lemma {:induction false} AddLeafCells<N>(s: Shape<N>, n: N, x: N, rest: Key, o: Owner, now: Time)
    requires n in s.cells && n in s.path && x !in s.cells && rest != []
    ensures var r := AddLeaf(s, n, x, rest, o, now);
            && r.root == s.root && r.cells.Keys == s.cells.Keys + {x} && r.cells[x] == Cell(rest, map[], map[o := now])
            && r.cells[n] == s.cells[n].(children := s.cells[n].children[rest[0] := x])
            && forall k :: k in s.cells && k != n ==> r.cells[k] == s.cells[k]
  {
  }

  lemma {:induction false} AddLeafBytes<N>(s: Shape<N>, n: N, x: N, rest: Key, o: Owner, now: Time)
    requires n in s.cells && n in s.path && x !in s.cells && rest != []
    ensures Bytes(AddLeaf(s, n, x, rest, o, now).cells) == Bytes(s.cells) + |rest|
    ensures |AddLeaf(s, n, x, rest, o, now).cells| == |s.cells| + 1
  {
    assert AddLeaf(s, n, x, rest, o, now).cells.Keys == s.cells.Keys + {x};
    var c := s.cells[n];
    var d := c.(children := c.children[rest[0] := x]);
    BytesUpdate(s.cells, n, d);
    BytesUpdate(s.cells[n := d], x, Cell(rest, map[], map[o := now]));
  }

  lemma {:induction false} SplitCells<N>(s: Shape<N>, c: N, x: N, cl: nat)
    requires c in s.cells && c in s.path && c in s.parent && s.parent[c] in s.cells && s.parent[c] in s.path
    requires 0 < cl < |s.cells[c].edge| && s.parent[c] != c && x !in s.cells
    ensures var r, n, e := Split(s, c, x, cl), s.parent[c], s.cells[c].edge;
            && r.root == s.root && r.cells.Keys == s.cells.Keys + {x}
            && r.cells[x] == Cell(e[..cl], map[e[cl] := c], s.cells[c].owners)
            && r.cells[n] == s.cells[n].(children := s.cells[n].children[e[0] := x])
            && r.cells[c] == s.cells[c].(edge := e[cl..])
            && forall k :: k in s.cells && k != n && k != c ==> r.cells[k] == s.cells[k]
  {
  }

  lemma {:induction false} SplitBytes<N>(s: Shape<N>, c: N, x: N, cl: nat)
    requires c in s.cells && c in s.path && c in s.parent && s.parent[c] in s.cells && s.parent[c] in s.path
    requires 0 < cl < |s.cells[c].edge| && s.parent[c] != c && x !in s.cells
    ensures Bytes(Split(s, c, x, cl).cells) == Bytes(s.cells)
    ensures |Split(s, c, x, cl).cells| == |s.cells| + 1
  {
    assert Split(s, c, x, cl).cells.Keys == s.cells.Keys + {x};
    var n, cell := s.parent[c], s.cells[c];
    var u := s.cells[n].(children := s.cells[n].children[cell.edge[0] := x]);
    var d := cell.(edge := cell.edge[cl..]);
    BytesUpdate(s.cells, n, u);
    BytesUpdate(s.cells[n := u], c, d);
    BytesUpdate(s.cells[n := u][c := d], x, Cell(cell.edge[..cl], map[cell.edge[cl] := c], cell.owners));
  }
}
