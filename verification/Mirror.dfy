/**
 Repair of lost broadcasts in internal/cluster/cluster.go: every instance mirrors what it
 observes, the leader merges all mirrors and replays the result.

 Policies and backends share one map; the key says which kind an entry is.
 */
module Mirror {
  import opened Options

  type Id = string

  datatype Key = PolicyKey(name: string) | BackendKey(id: string)

  /** `Gone` is the tombstone of a deleted backend. */
  datatype Content = Policy(filter: string, score: string) | Up(config: string, models: seq<string>) | Gone

  /** `ver` is the moment the content last changed, as the observer saw it. */
  datatype Entry = Entry(origin: Id, content: Content, ver: int)

  type State = map<Key, Entry>

  // ---------------------------------------------------------------- observing

  /** What a mirror shows for a key: an unknown policy looks like one with empty sources. */
  function Known(m: State, k: Key): Option<Content> {
    if k in m then Some(m[k].content) else if k.PolicyKey? then Some(Policy("", "")) else None
  }

  /** An observation changes the mirror only if the content differs. */
  function Observe(m: State, k: Key, origin: Id, content: Content, now: int): State {
    if Known(m, k) == Some(content) then m else m[k := Entry(origin, content, now)]
  }

  class Observer {
    var entries: State

    constructor ()
      ensures entries == map[]
    {
      entries := map[];
    }

    method ObservePolicy(origin: Id, name: string, filter: string, score: string, now: int)
      requires PolicyKey(name) in entries ==> entries[PolicyKey(name)].content.Policy?
      modifies this
      ensures entries == Observe(old(entries), PolicyKey(name), origin, Policy(filter, score), now)
    {
      var k := PolicyKey(name);
      var cur := if k in entries then entries[k] else Entry("", Policy("", ""), 0);
      if cur.content.filter != filter || cur.content.score != score {
        entries := entries[k := Entry(origin, Policy(filter, score), now)];
      }
    }

    /** `change` is `Gone` for a delete; a version of 0 marks a backend never seen. */
    method ObserveBackend(origin: Id, id: string, change: Content, now: int)
      requires !change.Policy?
      requires BackendKey(id) in entries ==>
        !entries[BackendKey(id)].content.Policy? && entries[BackendKey(id)].ver != 0
      modifies this
      ensures entries == Observe(old(entries), BackendKey(id), origin, change, now)
    {
      var k := BackendKey(id);
      var cur := if k in entries then entries[k] else Entry("", Gone, 0);
      if change.Gone? && (cur.content.Up? || cur.ver == 0) {
        entries := entries[k := Entry(origin, Gone, now)];
      } else if !change.Gone? && (!cur.content.Up? || cur.content != change) {
        entries := entries[k := Entry(origin, change, now)];
      }
    }
  }

  // ---------------------------------------------------------------- merging

  function Better(dst: State, src: State, k: Key): bool {
    k in src && (k !in dst || src[k].ver > dst[k].ver)
  }

  /** Entry by entry the later version; the destination wins ties. */
  function Merge(dst: State, src: State): State {
    map k | k in dst.Keys + src.Keys :: if Better(dst, src, k) then src[k] else dst[k]
  }

  method MergeState(dst: State, src: State) returns (out: State)
    ensures out == Merge(dst, src)
    ensures forall k :: k in out <==> k in dst || k in src
    ensures forall k :: k in out ==>
      out[k] == if k !in dst || (k in src && src[k].ver > dst[k].ver) then src[k] else dst[k]
  {
    out := dst;
    var todo := src.Keys;
    while todo != {}
      invariant todo <= src.Keys
      invariant out.Keys == dst.Keys + (src.Keys - todo)
      invariant forall k :: k in out ==> out[k] == if k in src.Keys - todo && Better(dst, src, k) then src[k]
        else dst[k]
      decreases todo
    {
      var k :| k in todo;
      if k !in out || src[k].ver > out[k].ver {
        out := out[k := src[k]];
      }
      todo := todo - {k};
    }
  }

  type Mirrors = map<Id, State>

  /** The leader's own mirror, then the snapshots in the order they are read. */
  function MergeAll(ms: Mirrors, order: seq<Id>): State
    requires order != [] && forall k :: 0 <= k < |order| ==> order[k] in ms
  {
    if |order| == 1 then ms[order[0]]
    else Merge(MergeAll(ms, order[..|order| - 1]), ms[order[|order| - 1]])
  }

  ghost predicate Covers(ms: Mirrors, order: seq<Id>) {
    order != [] && (forall k :: 0 <= k < |order| ==> order[k] in ms) && (forall i :: i in ms ==> i in order)
  }

  ghost predicate IsNewest(ms: Mirrors, ids: set<Id>, k: Key, e: Entry) {
    && (exists i :: i in ids && i in ms && k in ms[i] && ms[i][k] == e)
    && (forall i :: i in ids && i in ms && k in ms[i] ==> ms[i][k].ver <= e.ver)
  }

  function IdSet(order: seq<Id>): set<Id> { set i | i in order }

  /** Merging finds, for every key somebody knows, an entry with the greatest version. */
  lemma {:induction false} MergeFindsNewest(ms: Mirrors, order: seq<Id>, k: Key)
    requires order != [] && forall j :: 0 <= j < |order| ==> order[j] in ms
    ensures k in MergeAll(ms, order) <==> exists i :: i in IdSet(order) && k in ms[i]
    ensures k in MergeAll(ms, order) ==> IsNewest(ms, IdSet(order), k, MergeAll(ms, order)[k])
  {
    var n := |order| - 1;
    if n == 0 {
      assert IdSet(order) == {order[0]};
    } else {
      var pre, last := order[..n], order[n];
      MergeFindsNewest(ms, pre, k);
      assert IdSet(order) == IdSet(pre) + {last};
    }
  }

  /** Equal versions mean equal content. */
  ghost predicate Agreeing(ms: Mirrors) {
    forall i, j, k :: i in ms && j in ms && k in ms[i] && k in ms[j] && ms[i][k].ver == ms[j][k].ver ==>
      ms[i][k].content == ms[j][k].content
  }

  /** The content that wins does not depend on the order of merging. */
  lemma {:induction false} MergeOrderIndependent(ms: Mirrors, a: seq<Id>, b: seq<Id>, k: Key)
    requires Covers(ms, a) && Covers(ms, b) && Agreeing(ms)
    ensures k in MergeAll(ms, a) <==> k in MergeAll(ms, b)
    ensures k in MergeAll(ms, a) ==> MergeAll(ms, a)[k].content == MergeAll(ms, b)[k].content
  {
    MergeFindsNewest(ms, a, k);
    MergeFindsNewest(ms, b, k);
    assert IdSet(a) == ms.Keys == IdSet(b);
  }

  // ---------------------------------------------------------------- replay rounds without new publications

  /** One replay at time `now`; `heard` says which message reached which instance, `at` when it was observed there. */
  datatype Round = Round(now: int, order: seq<Id>, heard: set<(Id, Key)>, at: (Id, Key) -> int)

  predicate Published(e: Entry, k: Key, now: int, window: int) {
    k.PolicyKey? || now - e.ver <= window
  }

  /** All stamps lie before the round; what the round delivers is observed after its start. */
  ghost predicate RoundOk(ms: Mirrors, r: Round) {
    && Covers(ms, r.order) && (forall i, k :: i in ms && k in ms[i] ==> ms[i][k].ver <= r.now)
    && (forall i, k {:trigger r.at(i, k)} :: r.now <= r.at(i, k))
  }

  ghost predicate Hears(ms: Mirrors, r: Round, window: int, i: Id, k: Key)
    requires Covers(ms, r.order)
  {
    var merged := MergeAll(ms, r.order);
    k in merged && Published(merged[k], k, r.now, window) && (i, k) in r.heard
  }

  /** The mirror of `i` after the round: every message that reached it was observed. */
  ghost function Heard(ms: Mirrors, r: Round, window: int, i: Id): State
    requires Covers(ms, r.order) && i in ms
  {
    var merged := MergeAll(ms, r.order);
    map k | k in ms[i].Keys + merged.Keys && (k in ms[i] || (Hears(ms, r, window, i, k)
      && Known(ms[i], k) != Some(merged[k].content))) ::
      if Hears(ms, r, window, i, k) && Known(ms[i], k) != Some(merged[k].content)
      then Entry(merged[k].origin, merged[k].content, r.at(i, k)) else ms[i][k]
  }

  ghost function After(ms: Mirrors, r: Round, window: int): Mirrors
    requires Covers(ms, r.order)
  {
    map i | i in ms :: Heard(ms, r, window, i)
  }

  /** Observing the messages of a round one key at a time gives `Heard`. */
  lemma {:induction false} HeardIsObserve(ms: Mirrors, r: Round, window: int, i: Id, k: Key)
    requires Covers(ms, r.order) && i in ms && Hears(ms, r, window, i, k)
    ensures var e := MergeAll(ms, r.order)[k];
            var o := Observe(ms[i], k, e.origin, e.content, r.at(i, k));
            (k in Heard(ms, r, window, i) <==> k in o) && (k in o ==> Heard(ms, r, window, i)[k] == o[k])
  {
  }

  ghost predicate Merged(ms: Mirrors, k: Key, e: Entry) { IsNewest(ms, ms.Keys, k, e) }

  lemma {:induction false} MergeAllIsMerged(ms: Mirrors, order: seq<Id>, k: Key)
    requires Covers(ms, order)
    ensures k in MergeAll(ms, order) ==> Merged(ms, k, MergeAll(ms, order)[k])
    ensures k in MergeAll(ms, order) <==> exists i :: i in ms && k in ms[i]
  {
    MergeFindsNewest(ms, order, k);
    assert IdSet(order) == ms.Keys;
  }

  lemma {:induction false} MergedUnique(ms: Mirrors, k: Key, e: Entry, d: Entry)
    requires Agreeing(ms) && Merged(ms, k, e) && Merged(ms, k, d)
    ensures e.ver == d.ver && e.content == d.content
  {
  }

  /** What a round does to one entry. */
  lemma {:induction false} EntryAfter(ms: Mirrors, r: Round, window: int, i: Id, k: Key, e: Entry)
    requires RoundOk(ms, r) && Agreeing(ms) && Merged(ms, k, e) && i in ms
    ensures var m, m' := ms[i], After(ms, r, window)[i];
            if k in m' && !(k in m && m'[k] == m[k])
            then m'[k].content == e.content && m'[k].ver == r.at(i, k) && Known(m, k) != Some(e.content)
            else k in m' <==> k in m
    ensures e.ver <= r.now <= r.at(i, k)
  {
    MergeAllIsMerged(ms, r.order, k);
    MergedUnique(ms, k, e, MergeAll(ms, r.order)[k]);
  }

  /** After somebody restamped the key, the newest entry has the same content and a stamp of this round. */
  lemma {:induction false} NewestRestamp(ms: Mirrors, r: Round, window: int, k: Key, e: Entry, i: Id)
    returns (e': Entry)
    requires RoundOk(ms, r) && Agreeing(ms) && Merged(ms, k, e) && i in ms
    requires var m' := After(ms, r, window)[i]; k in m' && !(k in ms[i] && m'[k] == ms[i][k])
    ensures Merged(After(ms, r, window), k, e') && e'.content == e.content && r.now <= e'.ver
  {
    hide MergeAll, Heard;
    var ms': Mirrors := After(ms, r, window);
    MergeAllIsMerged(ms', r.order, k);
    e' := MergeAll(ms', r.order)[k];
    EntryAfter(ms, r, window, i, k, e);
    var j :| j in ms' && k in ms'[j] && ms'[j][k] == e';
    EntryAfter(ms, r, window, j, k, e);
  }

  /** The merged content of a key never changes again, whatever is lost. */
  lemma {:induction false} MergedContentStable(ms: Mirrors, r: Round, window: int, k: Key, e: Entry)
    requires RoundOk(ms, r) && Agreeing(ms) && Merged(ms, k, e)
    ensures exists e' :: Merged(After(ms, r, window), k, e') && e'.content == e.content && (e' == e || r.now <= e'.ver)
  {
    var ms': Mirrors := After(ms, r, window);
    if i :| i in ms && k in ms'[i] && !(k in ms[i] && ms'[i][k] == ms[i][k]) {
      var e' := NewestRestamp(ms, r, window, k, e, i);
    } else {
      var i :| i in ms && k in ms[i] && ms[i][k] == e;
      forall j | j in ms ensures k in ms'[j] <==> k in ms[j] {
        EntryAfter(ms, r, window, j, k, e);
      }
      assert Merged(ms', k, e);
    }
  }

  lemma {:induction false} RoundKeepsAgreeing(ms: Mirrors, r: Round, window: int)
    requires RoundOk(ms, r) && Agreeing(ms)
    ensures Agreeing(After(ms, r, window))
    ensures forall i, k :: i in After(ms, r, window) && k in After(ms, r, window)[i] ==>
      After(ms, r, window)[i][k].ver <= r.now || After(ms, r, window)[i][k].ver == r.at(i, k)
  {
    var ms': Mirrors := After(ms, r, window);
    forall i: Id, k: Key | i in ms' && k in ms'[i]
      ensures ms'[i][k].ver <= r.now || ms'[i][k].ver == r.at(i, k)
      ensures forall j :: j in ms' && k in ms'[j] && ms'[i][k].ver == ms'[j][k].ver ==>
        ms'[i][k].content == ms'[j][k].content
    {
      MergeAllIsMerged(ms, r.order, k);
      var e := MergeAll(ms, r.order)[k];
      EntryAfter(ms, r, window, i, k, e);
      forall j | j in ms' && k in ms'[j] && ms'[i][k].ver == ms'[j][k].ver
        ensures ms'[i][k].content == ms'[j][k].content
      {
        EntryAfter(ms, r, window, j, k, e);
      }
    }
  }
}
