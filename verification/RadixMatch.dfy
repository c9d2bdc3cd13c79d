/** What the longest-prefix query means, in terms of the map alone. */
module RadixMatch {
  import opened RadixStore

  ghost predicate Owned(m: Model, key: Key, j: int, o: Owner) {
    1 <= j <= |key| && Claim(key[..j], o) in m
  }

  /** `best` gives, for each owner, the greatest owned prefix length up to `k`, and omits the others. */
  ghost predicate BestUpTo(best: map<Owner, nat>, m: Model, key: Key, k: nat)
    requires k <= |key|
  {
    && (forall o :: o in best ==> best[o] <= k && Owned(m, key, best[o], o))
    && (forall o, j :: Owned(m, key, j, o) && j <= k ==> o in best && j <= best[o])
  }

  function Credit(best: map<Owner, nat>, owners: map<Owner, Time>, k: nat): map<Owner, nat> {
    best + map o | o in owners :: k
  }

  lemma {:induction false} OnEdge<N>(s: Shape<N>, m: Model, n: N, c: N, key: Key, k: nat, k2: nat, j: nat, o: Owner)
    requires WF(s) && Denotes(s, m) && n in s.cells && c in s.cells && c in s.parent && s.parent[c] == n
    requires k < j <= k2 <= |key| && s.path[n] == key[..k] && key[..k2] <= s.path[c]
    ensures Owned(m, key, j, o) <==> o in s.cells[c].owners
  {
    assert key[..k] < key[..j] <= key[..k2];
    assert Covers(s, c, key[..j]);
    assert Agrees(s, m, c, key[..j], o);
  }

  /** Passing from `k` to `k2` bytes along the edge of `c`. */
  lemma {:induction false} MatchStep<N>(s: Shape<N>, m: Model, n: N, c: N, key: Key, k: nat, k2: nat,
    best: map<Owner, nat>)
    requires WF(s) && Denotes(s, m) && n in s.cells && c in s.cells && c in s.parent && s.parent[c] == n
    requires k < k2 <= |key| && s.path[n] == key[..k] && key[..k2] <= s.path[c]
    requires BestUpTo(best, m, key, k)
    ensures BestUpTo(Credit(best, s.cells[c].owners, k2), m, key, k2)
  {
    hide Owned, WF, Denotes;
    forall j, o | k < j <= k2 ensures Owned(m, key, j, o) <==> o in s.cells[c].owners {
      OnEdge(s, m, n, c, key, k, k2, j, o);
    }
  }

  /** Nothing is owned beyond a byte on which the tree has no edge to follow. */
  lemma {:induction false} MatchStop<N>(s: Shape<N>, m: Model, n: N, key: Key, k: nat, best: map<Owner, nat>)
    requires WF(s) && Denotes(s, m) && n in s.cells && k < |key| && s.path[n] == key[..k]
    requires key[k] !in s.cells[n].children
    requires BestUpTo(best, m, key, k)
    ensures BestUpTo(best, m, key, |key|)
  {
    forall j, o | k < j <= |key| ensures !Owned(m, key, j, o) {
      if Owned(m, key, j, o) {
        var c := Claim(key[..j], o);
        var q :| q in s.cells && Covers(s, q, c.prefix);
        assert key[..k] < key[..j];
        Uncovered(s, n, key[..j], q);
      }
    }
  }

  /** Nothing is owned beyond the byte on which the key leaves an edge. */
  lemma {:induction false} MatchLeave<N>(s: Shape<N>, m: Model, n: N, key: Key, k: nat, k2: nat, best: map<Owner, nat>)
    requires WF(s) && Denotes(s, m) && n in s.cells && k < k2 <= |key| && s.path[n] == key[..k]
    requires key[k] in s.cells[n].children && s.cells[n].children[key[k]] in s.path
    requires var p := s.path[s.cells[n].children[key[k]]]; k2 < |p| && (k2 < |key| ==> p[k2] != key[k2])
    requires BestUpTo(best, m, key, k2)
    ensures BestUpTo(best, m, key, |key|)
  {
    forall j, o | k2 < j <= |key| ensures !Owned(m, key, j, o) {
      if Owned(m, key, j, o) {
        var c := Claim(key[..j], o);
        var q :| q in s.cells && Covers(s, q, c.prefix);
        assert s.path[n] < s.path[q] && s.path[q][k] == key[k];
        assert key[..j][k2] == s.path[q][k2];
        Below(s, n, q);
      }
    }
  }
}
