/**
 The prefix-ownership tree of internal/kvcache/radix.go, with its nodes on the heap.

 `Tree.model` is the map the tree stands for; every method states its effect on that map.
 */
module Radix {
  import opened RadixStore
  import opened RadixFilter
  import opened RadixMatch
  import opened RadixEvict

  class Node {
    var edge: Key
    var children: map<char, Node>
    var owners: map<Owner, Time>

    constructor (edge: Key, children: map<char, Node>, owners: map<Owner, Time>)
      ensures this.edge == edge && this.children == children && this.owners == owners
    {
      this.edge, this.children, this.owners := edge, children, owners;
    }
  }

  ghost predicate Fits(n: Node, c: Cell<Node>)
    reads n
  {
    c.edge == n.edge && c.children == n.children && c.owners == n.owners
  }

  /** The length of the longest common prefix. */
  method CommonLen(a: Key, b: Key) returns (i: nat)
    ensures i <= |a| && i <= |b| && a[..i] == b[..i]
    ensures i < |a| && i < |b| ==> a[i] != b[i]
  {
    var n := |a|;
    if |b| < n {
      n := |b|;
    }
    i := 0;
    while i < n && a[i] == b[i]
      invariant i <= n
      invariant a[..i] == b[..i]
    {
      i := i + 1;
    }
  }

  predicate Over(nodes: int, bytes: int, maxNodes: int, maxBytes: int) {
    (maxNodes > 0 && nodes > maxNodes) || (maxBytes > 0 && bytes > maxBytes)
  }

  class Tree {
    const root: Node
    const maxPrefix: nat
    const ttl: Time
    const maxNodes: int
    const maxBytes: int
    var totalBytes: int
    var nodeCount: int

    ghost var shape: Shape<Node>
    ghost var model: Model

    /** `shape` is the picture of the nodes on the heap, and the counters are the true sums over it. */
    ghost predicate Coupled()
      reads this, shape.cells.Keys
    {
      && root == shape.root
      && (forall n {:trigger Fits(n, shape.cells[n])} :: n in shape.cells ==> Fits(n, shape.cells[n]))
      && totalBytes == Bytes(shape.cells) && nodeCount == |shape.cells| - 1
    }

    lemma At(n: Node)
      requires Coupled() && n in shape.cells
      ensures n.edge == shape.cells[n].edge && n.children == shape.cells[n].children
        && n.owners == shape.cells[n].owners
    {
      assert Fits(n, shape.cells[n]);
    }

    lemma Rooted()
      requires Coupled()
      ensures root == shape.root
      ensures WF(shape) ==> root in shape.cells && root in shape.path && shape.path[root] == []
    {
    }

    ghost predicate Valid()
      reads this, shape.cells.Keys
    {
      Coupled() && WF(shape) && Denotes(shape, model) && Tidy(shape)
    }

    ghost predicate InBudget()
      reads this
    {
      !Over(nodeCount, totalBytes, maxNodes, maxBytes)
    }

    constructor (maxPrefix: nat, ttl: Time, maxNodes: int, maxBytes: int)
      ensures Valid() && InBudget() && fresh(shape.cells.Keys)
      ensures model == map[] && this.maxPrefix == maxPrefix && this.ttl == ttl && this.maxNodes == maxNodes
        && this.maxBytes == maxBytes
    {
      var r := new Node([], map[], map[]);
      root := r;
      this.maxPrefix, this.ttl, this.maxNodes, this.maxBytes := maxPrefix, ttl, maxNodes, maxBytes;
      totalBytes, nodeCount, model := 0, 0, map[];
      ghost var none: map<Node, Cell<Node>> := map[];
      shape := Shape(r, none[r := Cell([], map[], map[])], map[r := []], map[]);
      new;
      BytesUpdate(none, root, Cell([], map[], map[]));
      assert EdgeLengths(none) == map[];
    }

    function Clip(text: string): (key: Key)
      ensures key <= text && |key| == if |text| > maxPrefix then maxPrefix else |text|
    {
      if |text| > maxPrefix then text[..maxPrefix] else text
    }

    // -------------------------------------------------------------- insertion

    /** One node is marked for `owner`. */
    method Mark(n: Node, owner: Owner, now: Time)
      requires Coupled() && n in shape.cells
      modifies this`shape, n
      ensures Coupled() && shape == Touch(old(shape), n, owner, now)
    {
      assert Fits(n, shape.cells[n]);
      n.owners := n.owners[owner := now];
      BytesUpdate(shape.cells, n, Cell(n.edge, n.children, n.owners));
      shape := Touch(shape, n, owner, now);
      forall k | k in shape.cells ensures Fits(k, shape.cells[k]) {
        assert old(Fits(k, shape.cells[k]));
      }
    }

    /** The new node `leaf` carries the rest of the key. */
    method Hang(n: Node, leaf: Node, rest: Key, owner: Owner, now: Time)
      requires Coupled() && n in shape.cells && n in shape.path && rest != []
      requires leaf !in shape.cells && Fits(leaf, Cell(rest, map[], map[owner := now]))
      modifies this`shape, this`totalBytes, this`nodeCount, n
      ensures Coupled() && shape == AddLeaf(old(shape), n, leaf, rest, owner, now)
      ensures nodeCount == old(nodeCount) + 1 && totalBytes == old(totalBytes) + |rest|
    {
      hide AddLeaf, Bytes;
      ghost var was, next := shape, AddLeaf(shape, n, leaf, rest, owner, now);
      AddLeafCells(was, n, leaf, rest, owner, now);
      assert Fits(n, was.cells[n]);
      n.children := n.children[rest[0] := leaf];
      totalBytes := totalBytes + |rest|;
      nodeCount := nodeCount + 1;
      AddLeafBytes(was, n, leaf, rest, owner, now);
      shape := next;
      forall k | k in shape.cells ensures Fits(k, shape.cells[k]) {
        if k != leaf && k != n {
          assert next.cells[k] == was.cells[k] && old(Fits(k, was.cells[k]));
        }
      }
    }

    /** The new node `mid` takes over the first `cl` bytes of the edge of `child`. */
    method SplitEdge(n: Node, child: Node, mid: Node, cl: nat)
      requires Coupled() && child in shape.cells && child in shape.path && child in shape.parent
        && shape.parent[child] == n != child
      requires n in shape.cells && n in shape.path && mid !in shape.cells && 0 < cl < |shape.cells[child].edge|
      requires var e := shape.cells[child].edge; Fits(mid, Cell(e[..cl], map[e[cl] := child],
        shape.cells[child].owners))
      modifies this`shape, this`nodeCount, n, child
      ensures Coupled() && shape == Split(old(shape), child, mid, cl) && nodeCount == old(nodeCount) + 1
    {
      hide Split, Bytes;
      ghost var was, next := shape, Split(shape, child, mid, cl);
      SplitCells(was, child, mid, cl);
      assert Fits(child, was.cells[child]) && Fits(n, was.cells[n]);
      SplitBytes(shape, child, mid, cl);
      n.children := n.children[child.edge[0] := mid];
      child.edge := child.edge[cl..];
      nodeCount := nodeCount + 1;
      shape := next;
      forall k | k in shape.cells ensures Fits(k, shape.cells[k]) {
        if k != mid && k != child && k != n {
          assert next.cells[k] == was.cells[k] && old(Fits(k, was.cells[k]));
        }
      }
    }

    /** The prefixes of `done` are stamped, and nothing else has changed. */
    ghost predicate Partly(done: Key, owner: Owner, now: Time)
      reads this, shape.cells.Keys
    {
      Coupled() && WF(shape) && Tidy(shape) && Denotes(shape, Stamp(model, done, owner, now))
    }

    lemma PartlyIs(done: Key, owner: Owner, now: Time)
      requires Partly(done, owner, now)
      ensures Coupled() && WF(shape)
    {
    }

    lemma NotYet(owner: Owner, now: Time)
      requires Valid()
      ensures Partly([], owner, now)
    {
      StampNothing(model, owner, now);
    }

    ghost method Commit(done: Key, owner: Owner, now: Time)
      requires Partly(done, owner, now)
      modifies this`model
      ensures Valid() && model == Stamp(old(model), done, owner, now)
    {
      hide Denotes, Stamp, Tidy, Bytes, WF;
      model := Stamp(model, done, owner, now);
    }

    /** The key leaves the tree at `n`: the whole rest becomes a new leaf. */
    method HangRest(n: Node, rest: Key, full: Key, owner: Owner, now: Time)
      requires n in shape.cells && n in shape.path && Partly(shape.path[n], owner, now) && now > 0
      requires rest != [] && rest[0] !in shape.cells[n].children && shape.path[n] + rest == full
      modifies this, n
      ensures Valid() && fresh(shape.cells.Keys - old(shape).cells.Keys)
      ensures model == Stamp(old(model), full, owner, now)
      ensures nodeCount == old(nodeCount) + 1 && totalBytes == old(totalBytes) + |rest|
    {
      hide Denotes, Stamp, Tidy, Bytes, WF;
      var leaf := new Node(rest, map[], map[owner := now]);
      AddLeafStep(shape, model, n, leaf, rest, owner, now);
      AddLeafTidy(shape, n, leaf, rest, owner, now);
      Hang(n, leaf, rest, owner, now);
      Commit(full, owner, now);
    }

    /** The key leaves the edge of `child` after `cl` bytes: a middle node is put in and marked. */
    method SplitMark(n: Node, child: Node, cl: nat, owner: Owner, now: Time) returns (mid: Node)
      requires n in shape.cells && n in shape.path && Partly(shape.path[n], owner, now) && now > 0
      requires child in shape.cells && child in shape.parent && shape.parent[child] == n
      requires 0 < cl < |shape.cells[child].edge|
      modifies this, n, child
      ensures fresh(mid) && mid in shape.cells && shape.cells.Keys == old(shape).cells.Keys + {mid}
        && model == old(model)
      ensures mid in shape.path && shape.path[mid] == old(shape).path[n] + old(shape).cells[child].edge[..cl]
      ensures shape.cells[mid].children.Keys == {old(shape).cells[child].edge[cl]}
      ensures nodeCount == old(nodeCount) + 1 && totalBytes == old(totalBytes)
      ensures Partly(shape.path[mid], owner, now)
    {
      hide Denotes, Stamp, Tidy, Bytes, Coupled, WF, Split, Touch;
      At(child);
      SplitReady(shape, child);
      mid := new Node(child.edge[..cl], map[child.edge[cl] := child], child.owners);
      SplitTouch(shape, model, child, mid, cl, owner, now);
      SplitEdge(n, child, mid, cl);
      Mark(mid, owner, now);
    }

    /** The key leaves the edge of `child` after `cl` bytes. */
    method Branch(n: Node, child: Node, cl: nat, key: Key, full: Key, owner: Owner, now: Time)
      requires n in shape.cells && n in shape.path && Partly(shape.path[n], owner, now) && now > 0
      requires child in shape.cells && child in shape.parent && shape.parent[child] == n && shape.path[n] + key == full
      requires 0 < cl < |shape.cells[child].edge| && cl <= |key| && key[..cl] == shape.cells[child].edge[..cl]
      requires cl < |key| ==> key[cl] != shape.cells[child].edge[cl]
      modifies this, n, child
      ensures Valid() && fresh(shape.cells.Keys - old(shape).cells.Keys)
      ensures model == Stamp(old(model), full, owner, now)
      ensures nodeCount <= old(nodeCount) + 2 && totalBytes <= old(totalBytes) + |key|
    {
      hide Denotes, Stamp, Tidy, Bytes, Coupled, WF, Partly;
      assert key == key[..cl] + key[cl..];
      assert full == shape.path[n] + key[..cl] + key[cl..];
      var mid := SplitMark(n, child, cl, owner, now);
      if cl == |key| {
        assert shape.path[mid] == full;
        Commit(full, owner, now);
        return;
      }
      HangRest(mid, key[cl..], full, owner, now);
    }

    /** The key runs through the whole edge of `child`. */
    method Descend(n: Node, child: Node, owner: Owner, now: Time)
      requires n in shape.cells && n in shape.path && Partly(shape.path[n], owner, now) && now > 0
      requires child in shape.cells && child in shape.path && child in shape.parent && shape.parent[child] == n
      modifies this`shape, child
      ensures shape.cells.Keys == old(shape).cells.Keys && shape.path == old(shape).path
      ensures Partly(shape.path[child], owner, now)
    {
      hide Denotes, Stamp, Tidy, Bytes, Coupled;
      TouchStep(shape, model, child, owner, now);
      TouchTidy(shape, child, owner, now);
      Mark(child, owner, now);
    }

    /** One round of the walk: the key leaves the tree and the insert is finished, or it runs through a whole edge. */
    method Advance(n: Node, key: Key, full: Key, owner: Owner, now: Time)
      returns (finished: bool, next: Node, rest: Key)
      requires n in shape.cells && n in shape.path && Partly(shape.path[n], owner, now) && now > 0
      requires key != [] && shape.path[n] + key == full
      modifies this, shape.cells.Keys
      ensures finished ==>
        && Valid() && fresh(shape.cells.Keys - old(shape).cells.Keys) && model == Stamp(old(model), full, owner, now)
        && nodeCount <= old(nodeCount) + 2 && totalBytes <= old(totalBytes) + |key|
      ensures !finished ==>
        && shape.cells.Keys == old(shape).cells.Keys && model == old(model)
        && nodeCount == old(nodeCount) && totalBytes == old(totalBytes)
        && next in shape.cells && next in shape.path && shape.path[next] + rest == full && |rest| < |key|
        && Partly(shape.path[next], owner, now)
    {
      hide Denotes, Stamp, Tidy, Bytes, Coupled, WF, Touch, Partly, Valid;
      PartlyIs(shape.path[n], owner, now);
      At(n);
      if key[0] !in n.children {
        HangRest(n, key, full, owner, now);
        return true, n, key;
      }
      var child := n.children[key[0]];
      ChildFacts(shape, n, key[0]);
      At(child);
      var cl := CommonLen(child.edge, key);
      if cl < |child.edge| {
        Branch(n, child, cl, key, full, owner, now);
        return true, n, key;
      }
      assert shape.path[n] + key == shape.path[n] + child.edge + key[cl..];
      Descend(n, child, owner, now);
      return false, child, key[cl..];
    }

    /** The walk of Insert, before the budget is enforced. */
    method Grow(full: Key, owner: Owner, now: Time)
      requires Valid() && now > 0
      modifies this, shape.cells.Keys
      ensures Valid() && fresh(shape.cells.Keys - old(shape).cells.Keys)
      ensures model == Stamp(old(model), full, owner, now)
      ensures nodeCount <= old(nodeCount) + 2 && totalBytes <= old(totalBytes) + |full|
    {
      hide Denotes, Stamp, Tidy, Bytes, Coupled, WF, Partly;
      NotYet(owner, now);
      Rooted();
      var n, key := root, full;
      while key != []
        invariant shape.cells.Keys == old(shape).cells.Keys && model == old(model)
        invariant nodeCount == old(nodeCount) && totalBytes == old(totalBytes)
        invariant n in shape.cells && n in shape.path && shape.path[n] + key == full && |key| <= |full|
        invariant Partly(shape.path[n], owner, now)
        decreases |key|
      {
        var finished;
        finished, n, key := Advance(n, key, full, owner, now);
        if finished {
          return;
        }
      }
      assert shape.path[n] == full;
      Commit(full, owner, now);
    }

    // -------------------------------------------------------------- query

    /** For each owner the longest owned prefix of the clipped text; owners of none are omitted. */
    method Match(text: string) returns (best: map<Owner, nat>, keyLen: nat)
      requires Valid()
      ensures keyLen == |Clip(text)|
      ensures BestUpTo(best, model, Clip(text), keyLen)
      ensures forall o :: o in best ==> 1 <= best[o] <= keyLen && Claim(Clip(text)[..best[o]], o) in model
      ensures forall o, j :: 1 <= j <= keyLen && Claim(Clip(text)[..j], o) in model ==> o in best && j <= best[o]
    {
      hide Valid;
      var key := Clip(text);
      keyLen := |key|;
      best := Follow(key);
      forall o, j | 1 <= j <= keyLen && Claim(Clip(text)[..j], o) in model ensures o in best && j <= best[o] {
        assert Owned(model, key, j, o);
      }
    }

    /** The walk of Match. */
    method Follow(key: Key) returns (best: map<Owner, nat>)
      requires Valid()
      ensures BestUpTo(best, model, key, |key|)
    {
      hide Denotes, Tidy, Bytes, Coupled, WF, BestUpTo;
      var keyLen := |key|;
      best := map[];
      Rooted();
      assert BestUpTo(best, model, key, 0) by { NoneYet(key); }
      var n, matched := root, 0;
      while matched < keyLen
        invariant matched <= keyLen && n in shape.cells && n in shape.path && shape.path[n] == key[..matched]
        invariant BestUpTo(best, model, key, matched)
        decreases keyLen - matched
      {
        At(n);
        if key[matched] !in n.children {
          MatchStop(shape, model, n, key, matched, best);
          return;
        }
        var child := n.children[key[matched]];
        ChildFacts(shape, n, key[matched]);
        At(child);
        var cl := CommonLen(child.edge, key[matched..]);
        assert key[..matched + cl] == key[..matched] + key[matched..][..cl];
        MatchStep(shape, model, n, child, key, matched, matched + cl, best);
        best := Credit(best, child.owners, matched + cl);
        if cl < |child.edge| {
          MatchLeave(shape, model, n, key, matched, matched + cl, best);
          return;
        }
        matched := matched + cl;
        n := child;
      }
    }

    lemma NoneYet(key: Key)
      ensures BestUpTo(map[], model, key, 0)
    {
    }

    // -------------------------------------------------------------- removal

    /** Unlinks the child of `n` on byte `b`. */
    method Unhook(n: Node, child: Node, b: char)
      requires Coupled() && child in shape.cells && child in shape.parent && shape.parent[child] == n != child
        && n in shape.cells
      requires child != root && shape.cells[child].edge != [] && shape.cells[child].edge[0] == b
      modifies this`shape, this`totalBytes, this`nodeCount, n
      ensures Coupled() && shape == Unlink(old(shape), child) && shape.cells.Keys == old(shape).cells.Keys - {child}
    {
      hide Bytes;
      ghost var was, next := shape, Unlink(shape, child);
      At(n);
      At(child);
      UnlinkBytes(shape, child);
      assert next.cells.Keys == was.cells.Keys - {child} && |next.cells| == |was.cells| - 1;
      assert next.cells[n] == was.cells[n].(children := was.cells[n].children - {b});
      n.children := n.children - {b};
      totalBytes := totalBytes - |child.edge|;
      nodeCount := nodeCount - 1;
      shape := next;
      forall k | k in shape.cells ensures Fits(k, shape.cells[k]) {
        if k != n {
          assert next.cells[k] == was.cells[k] && old(Fits(k, was.cells[k]));
        }
      }
    }

    /** Drops the owner entries of `n` that the filter rejects. */
    method DropOwners(n: Node, f: Filter)
      requires Coupled() && n in shape.cells
      modifies this`shape, n
      ensures Coupled() && shape == Sweep(old(shape), f, n) && shape.cells.Keys == old(shape).cells.Keys
    {
      hide Bytes, KeepOwners;
      ghost var was, next := shape, Sweep(shape, f, n);
      At(n);
      BytesUpdate(was.cells, n, next.cells[n]);
      n.owners := KeepOwners(f, n.owners);
      shape := next;
      forall k | k in shape.cells ensures Fits(k, shape.cells[k]) {
        if k != n {
          assert old(Fits(k, was.cells[k]));
        }
      }
    }

    /** One round of the traversal loop: the child of `n` on byte `b`. */
    method SweepChild(n: Node, b: char, f: Filter, ghost s: Shape<Node>, ghost gone: set<Node>, ghost swept: set<Node>,
      ghost done: set<char>)
      requires Coupled() && WF(s) && n in s.cells && n in shape.cells && Ready(s, f, gone, swept, n)
      requires b in s.cells[n].children && b !in done
      requires After(s, f, gone + Under(s, n, done), swept + Under(s, n, done), shape)
      modifies this`shape, this`totalBytes, this`nodeCount, shape.cells.Keys
      ensures Coupled() && shape.cells.Keys <= old(shape).cells.Keys && n in shape.cells
      ensures After(s, f, gone + Under(s, n, done + {b}), swept + Under(s, n, done + {b}), shape)
      decreases Sub(s, n), 0
    {
      hide Coupled, After, Ready, Unlink, WF, Sub, Under;
      SweepPick(s, f, gone, swept, n, done, b, shape);
      At(n);
      var child := n.children[b];
      SweepNode(child, f, s, gone + Under(s, n, done), swept + Under(s, n, done));
      SweepBack(s, f, gone, swept, n, done, b, shape);
      At(child);
      Rooted();
      if child.owners == map[] && child.children == map[] {
        Unhook(n, child, b);
      }
    }

    /** pruneNode and removeOwner: post-order, the parent unlinks a child left without owners and children. */
    method SweepNode(n: Node, f: Filter, ghost s: Shape<Node>, ghost gone: set<Node>, ghost swept: set<Node>)
      requires Coupled() && WF(s) && n in s.cells && Ready(s, f, gone, swept, n) && After(s, f, gone, swept, shape)
      modifies this`shape, this`totalBytes, this`nodeCount, shape.cells.Keys
      ensures Coupled() && shape.cells.Keys <= old(shape).cells.Keys
      ensures After(s, f, gone + (Sub(s, n) - {n}), swept + Sub(s, n), shape)
      decreases Sub(s, n), 1
    {
      hide Coupled, After, Ready, Sweep, WF, Sub, Under;
      SweepEnter(s, f, gone, swept, n, shape);
      At(n);
      var todo := n.children.Keys;
      ghost var done: set<char> := {};
      while todo != {}
        invariant Coupled() && shape.cells.Keys <= old(shape).cells.Keys && n in shape.cells
        invariant todo !! done && todo + done == s.cells[n].children.Keys
        invariant After(s, f, gone + Under(s, n, done), swept + Under(s, n, done), shape)
        decreases todo
      {
        var b :| b in todo;
        SweepChild(n, b, f, s, gone, swept, done);
        todo, done := todo - {b}, done + {b};
      }
      assert done == s.cells[n].children.Keys;
      SweepLeave(s, f, gone, swept, n, shape);
      DropOwners(n, f);
    }

    method SweepRoot(f: Filter)
      requires Coupled() && WF(shape)
      modifies this`shape, this`totalBytes, this`nodeCount, shape.cells.Keys
      ensures Coupled() && shape.cells.Keys <= old(shape).cells.Keys && Filtered(old(shape), f, shape)
    {
      hide Bytes, After, WF, Sub, Ready, Coupled;
      Rooted();
      RootReady(shape, f);
      SweepNode(root, f, shape, {}, {});
    }

    /** The traversal started at the root. */
    method SweepAll(f: Filter)
      requires Valid()
      modifies this, shape.cells.Keys
      ensures Valid() && shape.cells.Keys <= old(shape).cells.Keys
      ensures Filtered(old(shape), f, shape) && model == FilterModel(f, old(model))
      ensures old(InBudget()) ==> InBudget()
    {
      hide Bytes, Denotes, Tidy, FilterModel, WF, Filtered;
      ghost var s := shape;
      SweepRoot(f);
      FilteredAll(s, f, shape, model);
      model := FilterModel(f, model);
    }

    /** Drops the claims whose last insert lies more than `ttl` back. */
    method Prune(now: Time) returns (bytes: int, nodes: int)
      requires Valid()
      modifies this, shape.cells.Keys
      ensures Valid() && shape.cells.Keys <= old(shape).cells.Keys && (old(InBudget()) ==> InBudget())
      ensures model == FilterModel(NotOlder(now - ttl), old(model))
      ensures forall c :: c in model <==> c in old(model) && old(model)[c] >= now - ttl
      ensures forall c :: c in model ==> model[c] == old(model)[c]
      ensures bytes == Bytes(shape.cells) && nodes == |shape.cells| - 1
    {
      SweepAll(NotOlder(now - ttl));
      bytes, nodes := totalBytes, nodeCount;
    }

    /** Drops exactly the claims of one owner. */
    method RemoveBackedBy(owner: Owner) returns (bytes: int, nodes: int)
      requires Valid()
      modifies this, shape.cells.Keys
      ensures Valid() && shape.cells.Keys <= old(shape).cells.Keys && (old(InBudget()) ==> InBudget())
      ensures model == FilterModel(NotOwner(owner), old(model))
      ensures forall c :: c in model <==> c in old(model) && c.owner != owner
      ensures forall c :: c in model ==> model[c] == old(model)[c]
      ensures bytes == Bytes(shape.cells) && nodes == |shape.cells| - 1
    {
      SweepAll(NotOwner(owner));
      bytes, nodes := totalBytes, nodeCount;
    }

    // -------------------------------------------------------------- eviction

    method OldestOwner(owners: map<Owner, Time>) returns (min: Time)
      requires forall o :: o in owners ==> owners[o] > 0
      ensures IsOldest(OwnerTimes(owners, owners.Keys), min)
    {
      min := 0;
      var todo := owners.Keys;
      while todo != {}
        invariant todo <= owners.Keys
        invariant IsOldest(OwnerTimes(owners, owners.Keys - todo), min)
        decreases todo
      {
        var o :| o in todo;
        OldestUnion(OwnerTimes(owners, owners.Keys - todo), min, {owners[o]}, owners[o]);
        assert OwnerTimes(owners, owners.Keys - (todo - {o})) == OwnerTimes(owners, owners.Keys - todo) + {owners[o]};
        min := Older(min, owners[o]);
        todo := todo - {o};
      }
      assert owners.Keys - todo == owners.Keys;
    }

    /** The oldest time recorded at or below `n`; 0 when there is none. */
    method OldestOwnerTs(n: Node) returns (min: Time)
      requires Coupled() && WF(shape) && Tidy(shape) && n in shape.cells
      ensures IsOldest(Times(shape, Sub(shape, n)), min)
      decreases Sub(shape, n)
    {
      hide Coupled, IsOldest, Times, Sub, Under, WF, OwnerTimes;
      At(n);
      TimesPositive(shape, {n});
      TimesOfOne(shape, n);
      assert forall o :: o in n.owners ==> n.owners[o] > 0;
      min := OldestOwner(n.owners);
      var todo := n.children.Keys;
      ghost var done: set<char> := {};
      ghost var own := OwnerTimes(n.owners, n.owners.Keys);
      assert own + Times(shape, Under(shape, n, {})) == own by { NothingUnder(shape, n); }
      while todo != {}
        invariant todo !! done && todo + done == n.children.Keys
        invariant IsOldest(own + Times(shape, Under(shape, n, done)), min)
        decreases todo
      {
        var b :| b in todo;
        var child := n.children[b];
        TimesOfChild(shape, n, done, b);
        var ts := OldestOwnerTs(child);
        TimesPositive(shape, Under(shape, n, done));
        TimesPositive(shape, Sub(shape, child));
        OldestUnion(own + Times(shape, Under(shape, n, done)), min, Times(shape, Sub(shape, child)), ts);
        assert own + Times(shape, Under(shape, n, done + {b})) ==
               own + Times(shape, Under(shape, n, done)) + Times(shape, Sub(shape, child));
        min := Older(min, ts);
        todo, done := todo - {b}, done + {b};
      }
      assert done == n.children.Keys;
      TimesOfSub(shape, n);
    }

    ghost predicate OverShape(s: Shape<Node>) {
      Over(|s.cells| - 1, Bytes(s.cells), maxNodes, maxBytes)
    }

    /** All times are positive. */
    lemma NothingOld()
      requires Valid()
      ensures Filtered(shape, NotOlder(1), shape) && FilterModel(NotOlder(1), model) == model
    {
      hide Bytes;
      PruneNothing(shape, 1);
      FilterModelNothing(shape, model);
    }

    /** One round of the eviction loop: the oldest generation `minTs` goes. */
    method EvictOldest(ghost s: Shape<Node>, ghost cut: Time) returns (ghost minTs: Time)
      requires Valid() && !InBudget() && cut >= 0 && Filtered(s, NotOlder(cut + 1), shape)
      modifies this, shape.cells.Keys
      ensures Valid() && shape.cells.Keys <= old(shape).cells.Keys && minTs > cut
      ensures Filtered(s, NotOlder(minTs), old(shape)) && OverShape(old(shape))
        && Filtered(s, NotOlder(minTs + 1), shape)
      ensures model == FilterModel(NotOlder(minTs + 1), old(model)) && |model| < |old(model)|
    {
      hide Bytes, Denotes, WF, Filtered, FilterModel, IsOldest, Times, Sub;
      Rooted();
      SizeNeedsOwners(shape);
      var oldest := OldestOwnerTs(root);
      OldestFacts(s, cut, oldest);
      ghost var before := shape;
      SweepAll(NotOlder(oldest + 1));
      PruneCompose(s, cut + 1, oldest + 1, before, shape);
      minTs := oldest;
    }

    /** Evicts whole generations, oldest first, until both budgets hold. */
    method EnforceBudget() returns (ghost cut: Time, ghost before: Shape<Node>)
      requires Valid()
      modifies this, shape.cells.Keys
      ensures Valid() && InBudget() && shape.cells.Keys <= old(shape).cells.Keys
      ensures cut >= 0 && Filtered(old(shape), NotOlder(cut + 1), shape)
      ensures model == FilterModel(NotOlder(cut + 1), old(model))
      ensures cut > 0 ==> Filtered(old(shape), NotOlder(cut), before) && OverShape(before)
      ensures cut == 0 <==> old(InBudget())
      ensures (maxNodes > 0 ==> nodeCount <= maxNodes) && (maxBytes > 0 ==> totalBytes <= maxBytes)
      ensures cut == 0 <==>
        (maxNodes > 0 ==> old(nodeCount) <= maxNodes) && (maxBytes > 0 ==> old(totalBytes) <= maxBytes)
      ensures cut > 0 ==> |before.cells| - 1 > maxNodes > 0 || Bytes(before.cells) > maxBytes > 0
      ensures cut == 0 ==> nodeCount == old(nodeCount) && totalBytes == old(totalBytes)
    {
      hide Bytes, Filtered, FilterModel, Valid;
      ghost var s := shape;
      cut, before := 0, shape;
      NothingOld();
      while Over(nodeCount, totalBytes, maxNodes, maxBytes)
        invariant Valid() && shape.cells.Keys <= old(shape).cells.Keys
        invariant cut >= 0 && Filtered(s, NotOlder(cut + 1), shape)
        invariant model == FilterModel(NotOlder(cut + 1), old(model))
        invariant cut > 0 ==> Filtered(s, NotOlder(cut), before) && OverShape(before) && !old(InBudget())
        invariant cut == 0 ==> nodeCount == old(nodeCount) && totalBytes == old(totalBytes)
        decreases |model|
      {
        before := shape;
        ghost var was := cut;
        cut := EvictOldest(s, cut);
        FilterModelTwice(old(model), was + 1, cut + 1);
      }
    }

    lemma OldestFacts(s: Shape<Node>, cut: Time, minTs: Time)
      requires Valid() && root == shape.root && Filtered(s, NotOlder(cut + 1), shape)
      requires IsOldest(Times(shape, Sub(shape, root)), minTs) && Times(shape, Sub(shape, root)) != {}
      ensures minTs != 0 && minTs > cut && |FilterModel(NotOlder(minTs + 1), model)| < |model|
      ensures Filtered(s, NotOlder(minTs), shape)
    {
      TimesPositive(shape, Sub(shape, root));
      OldestIsLater(s, cut + 1, shape, minTs);
      OldestBounds(shape, minTs);
      PruneNothing(shape, minTs);
      PruneCompose(s, cut + 1, minTs, shape, shape);
      GenerationShrinks(shape, model, minTs);
    }

    /**
     Claim by claim: what was served now, or before and kept, if it is later than `cut`; everything else
     as it was.
     */
    ghost predicate Holds(was: Model, key: Key, owner: Owner, now: Time, cut: Time, m: Model) {
      forall p: Key, o: Owner ::
        var mine, c := o == owner && p != [] && p <= key, Claim(p, o);
        && (c in m <==> if mine then now > cut else c in was && was[c] > cut)
        && (c in m ==> m[c] == if mine then now else was[c])
    }

    lemma HoldsAfter(was: Model, key: Key, owner: Owner, now: Time, cut: Time)
      ensures Holds(was, key, owner, now, cut, FilterModel(NotOlder(cut + 1), Stamp(was, key, owner, now)))
    {
    }

    /**
     Records that `owner` served `text`.  `grown` is the tree before eviction: it holds every
     claim made so far plus the non-empty prefixes of the clipped text.  What is evicted is
     exactly all claims up to time `cut`; when something is evicted, the tree that still held
     generation `cut` was over budget.  Nothing is evicted exactly when the grown tree is in budget.
     */
    method Insert(text: string, owner: Owner, now: Time) returns (ghost grown: Shape<Node>, ghost cut: Time,
      ghost before: Shape<Node>)
      requires Valid() && InBudget() && now > 0
      modifies this, shape.cells.Keys
      ensures Valid() && InBudget() && fresh(shape.cells.Keys - old(shape).cells.Keys)
      ensures WF(grown) && Denotes(grown, Stamp(old(model), Clip(text), owner, now))
      ensures cut >= 0 && Filtered(grown, NotOlder(cut + 1), shape)
      ensures model == FilterModel(NotOlder(cut + 1), Stamp(old(model), Clip(text), owner, now))
      ensures cut > 0 ==> Filtered(grown, NotOlder(cut), before) && OverShape(before)
      ensures cut == 0 <==> !OverShape(grown)
      ensures (maxNodes > 0 ==> nodeCount <= maxNodes) && (maxBytes > 0 ==> totalBytes <= maxBytes)
      ensures cut == 0 <==>
        (maxNodes > 0 ==> |grown.cells| - 1 <= maxNodes) && (maxBytes > 0 ==> Bytes(grown.cells) <= maxBytes)
      ensures cut > 0 ==> |before.cells| - 1 > maxNodes > 0 || Bytes(before.cells) > maxBytes > 0
      ensures Holds(old(model), Clip(text), owner, now, cut, model)
      ensures |grown.cells| - 1 <= old(nodeCount) + 2 && Bytes(grown.cells) <= old(totalBytes) + |Clip(text)|
      ensures cut == 0 ==> nodeCount == |grown.cells| - 1 && totalBytes == Bytes(grown.cells)
    {
      hide Bytes, Filtered, FilterModel, Stamp, Clip;
      var key := Clip(text);
      if key == [] {
        grown, cut, before := shape, 0, shape;
        StampNothing(model, owner, now);
        NothingOld();
        HoldsAfter(model, key, owner, now, 0);
        return;
      }
      Grow(key, owner, now);
      grown := shape;
      cut, before := EnforceBudget();
      HoldsAfter(old(model), key, owner, now, cut);
    }
  }
}
