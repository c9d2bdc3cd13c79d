/** Choosing a (prefill, decode) pair: internal/pd/pd.go. */
module PdPick {
  import opened Options
  import opened Backends
  import opened Candidates

  datatype LinkInfo = LinkInfo(prefill: string, decode: string, bandwidth: real)

  type LinkLoad = LinkInfo -> int

  class Group {
    const prefill: seq<Backend>
    const decodeById: map<string, Backend>
    const prefillById: map<string, Backend>
    const linksByPrefill: map<string, seq<LinkInfo>>

    ghost predicate Valid() {
      && (forall id :: id in decodeById ==> decodeById[id].cfg.id == id)
      && (forall id :: id in prefillById ==> prefillById[id].cfg.id == id && prefillById[id] in prefill)
      && (forall p, i :: p in linksByPrefill && 0 <= i < |linksByPrefill[p]| ==>
            linksByPrefill[p][i].prefill == p && linksByPrefill[p][i].bandwidth > 0.0)
    }

    constructor (prefill: seq<Backend>, prefillById: map<string, Backend>, decodeById: map<string, Backend>,
      links: map<string, seq<LinkInfo>>)
      ensures this.prefill == prefill && this.prefillById == prefillById && this.decodeById == decodeById
        && this.linksByPrefill == links
    {
      this.prefill, this.prefillById, this.decodeById, this.linksByPrefill := prefill, prefillById, decodeById, links;
    }

    predicate Feasible(l: LinkInfo, st: Backend -> Status, exclude: set<string>) {
      l.decode in decodeById && Usable(decodeById[l.decode], st, exclude)
    }

    /** The link leads to a known decode instance that may be used. */
    ghost predicate Reachable(l: LinkInfo, st: Backend -> Status, exclude: set<string>) {
      l.decode in decodeById && Eligible(decodeById[l.decode], st, exclude)
    }

    /** Load of the decode instance plus congestion of the link. */
    function Score(l: LinkInfo, st: Backend -> Status, load: LinkLoad): real
      requires l.decode in decodeById && l.bandwidth > 0.0
    {
      var s := st(decodeById[l.decode]);
      s.inflight as real + s.running + s.waiting + load(l) as real / l.bandwidth * 10.0
    }

    /** Requests at the decode instance, counted here and by its engine. */
    ghost function Busy(l: LinkInfo, st: Backend -> Status): real
      requires l.decode in decodeById
    {
      var s := st(decodeById[l.decode]);
      s.inflight as real + s.running + s.waiting
    }

    /** Transfers under way for each tenth of a unit of bandwidth. */
    ghost function Congestion(l: LinkInfo, load: LinkLoad): real
      requires l.bandwidth > 0.0
    {
      load(l) as real / l.bandwidth * 10.0
    }

    /** The score is the sum of the two, so the best link is beaten on neither unless it wins on the other. */
    lemma BestIsUndominated(links: seq<LinkInfo>, n: nat, k: nat, i: nat, st: Backend -> Status, load: LinkLoad,
      exclude: set<string>)
      requires Valid() && n <= |links| && forall i :: 0 <= i < |links| ==> links[i].bandwidth > 0.0
      requires IsBest(links, n, k, st, load, exclude) && i < n && Feasible(links[i], st, exclude)
      ensures links[i].decode in decodeById && links[k].decode in decodeById
      ensures Busy(links[k], st) + Congestion(links[k], load) <= Busy(links[i], st) + Congestion(links[i], load)
      ensures Busy(links[i], st) < Busy(links[k], st) ==> Congestion(links[k], load) < Congestion(links[i], load)
      ensures Congestion(links[i], load) < Congestion(links[k], load) ==> Busy(links[k], st) < Busy(links[i], st)
    {
      assert Score(links[k], st, load) <= Score(links[i], st, load);
    }

    /** Links of one prefill instance; none if it has none. */
    function LinksOf(id: string): seq<LinkInfo> { if id in linksByPrefill then linksByPrefill[id] else [] }

    /** The first feasible link with the least score among the first `n` links. */
    ghost predicate IsBest(links: seq<LinkInfo>, n: nat, k: nat, st: Backend -> Status, load: LinkLoad,
      exclude: set<string>)
      requires Valid() && n <= |links| && forall i :: 0 <= i < |links| ==> links[i].bandwidth > 0.0
    {
      && k < n && Feasible(links[k], st, exclude)
      && (forall i :: 0 <= i < n && Feasible(links[i], st, exclude) ==>
        Score(links[k], st, load) <= Score(links[i], st, load))
      && (forall i :: 0 <= i < k && Feasible(links[i], st, exclude) ==>
        Score(links[k], st, load) < Score(links[i], st, load))
    }

    /** pickDecode: the feasible link with the least score, or none if nothing is feasible. */
    method PickDecode(prefillId: string, st: Backend -> Status, load: LinkLoad, exclude: set<string>)
      returns (r: Option<nat>)
      requires Valid()
      ensures r.None? <==> forall i :: 0 <= i < |LinksOf(prefillId)| ==> !Feasible(LinksOf(prefillId)[i], st, exclude)
      ensures r.None? <==> forall i :: 0 <= i < |LinksOf(prefillId)| ==> !Reachable(LinksOf(prefillId)[i], st, exclude)
      ensures r.Some? ==> IsBest(LinksOf(prefillId), |LinksOf(prefillId)|, r.value, st, load, exclude)
    {
      var links := LinksOf(prefillId);
      r := None;
      var bestScore := 0.0;
      for n := 0 to |links|
        invariant r.None? <==> forall i :: 0 <= i < n ==> !Feasible(links[i], st, exclude)
        invariant r.Some? ==>
          IsBest(links, n, r.value, st, load, exclude) && bestScore == Score(links[r.value], st, load)
      {
        var l := links[n];
        if l.decode in decodeById && Usable(decodeById[l.decode], st, exclude) {
          var score := Score(l, st, load);
          if r.None? || score < bestScore {
            r, bestScore := Some(n), score;
          }
        }
      }
    }

    /** The sticky instance if it may be used, else the only usable one, else the strategy's choice among them. */
    ghost function Prefill(st: Backend -> Status, strategy: seq<Backend> -> Option<nat>, prefer: string,
      exclude: set<string>): Option<Backend>
    {
      var usable := UsableOf(prefill, st, exclude);
      if prefer != "" && prefer in prefillById && Eligible(prefillById[prefer], st, exclude) then
        Some(prefillById[prefer])
      else if |usable| == 1 then Some(usable[0])
      else if |usable| > 1 && strategy(usable).Some? && strategy(usable).value < |usable| then
        Some(usable[strategy(usable).value])
      else None
    }

    /** There is such an instance, and from it a link to a decode instance that may be used. */
    ghost predicate CanPick(st: Backend -> Status, strategy: seq<Backend> -> Option<nat>, prefer: string,
      excludePrefill: set<string>, excludeDecode: set<string>)
    {
      var p := Prefill(st, strategy, prefer, excludePrefill);
      p.Some? &&
      var links := LinksOf(p.value.cfg.id);
      exists i :: 0 <= i < |links| && Reachable(links[i], st, excludeDecode)
    }

    /** Choosing the prefill instance. */
    method PickPrefill(st: Backend -> Status, strategy: seq<Backend> -> Option<nat>, prefer: string,
      exclude: set<string>)
      returns (r: Option<Backend>)
      requires Valid()
      ensures r == Prefill(st, strategy, prefer, exclude)
      ensures r.Some? ==> r.value in prefill && Usable(r.value, st, exclude)
    {
      if prefer != "" && prefer !in exclude && prefer in prefillById && st(prefillById[prefer]).available {
        var sticky := prefillById[prefer];
        UsableIff(sticky, st, exclude);
        OnlyOne(sticky, st, exclude);
        var one := PickAmong([sticky], st, exclude, strategy);
        if one.Some? && one.value.cfg.id == prefer {
          return one;
        }
      }
      if prefer in prefillById {
        UsableIff(prefillById[prefer], st, exclude);
      }
      NoneUsable(prefill, st, exclude);
      r := PickAmong(prefill, st, exclude, strategy);
    }

    /**
     PickPreferred: the sticky prefill instance if it is usable and not excluded, else any usable
     one; then the best decode for it.  Nothing excluded is ever picked on its side.
     */
    method PickPreferred(st: Backend -> Status, load: LinkLoad, strategy: seq<Backend> -> Option<nat>, prefer: string,
                         excludePrefill: set<string>, excludeDecode: set<string>)
      returns (r: Option<(Backend, Backend, LinkInfo)>)
      requires Valid()
      ensures r.Some? ==>
        var (p, d, l) := r.value;
        && p in prefill && Usable(p, st, excludePrefill)
        && Eligible(p, st, excludePrefill) && Eligible(d, st, excludeDecode)
        && d.cfg.id in decodeById && decodeById[d.cfg.id] == d && Usable(d, st, excludeDecode)
        && l.prefill == p.cfg.id && l.decode == d.cfg.id && l in LinksOf(p.cfg.id)
        && forall o :: o in LinksOf(p.cfg.id) && o.bandwidth > 0.0 && Feasible(o, st, excludeDecode) ==>
          l.bandwidth > 0.0 && Score(l, st, load) <= Score(o, st, load)
      ensures prefer != "" && prefer in prefillById && Usable(prefillById[prefer], st, excludePrefill) && r.Some? ==>
        r.value.0.cfg.id == prefer
      ensures r.Some? <==> CanPick(st, strategy, prefer, excludePrefill, excludeDecode)
      ensures r.Some? ==> Some(r.value.0) == Prefill(st, strategy, prefer, excludePrefill)
    {
      hide UsableOf;
      var chosen := PickPrefill(st, strategy, prefer, excludePrefill);
      if chosen.None? {
        return None;
      }
      var p := chosen.value;
      var k := PickDecode(p.cfg.id, st, load, excludeDecode);
      if k.None? {
        return None;
      }
      var l := LinksOf(p.cfg.id)[k.value];
      r := Some((p, decodeById[l.decode], l));
    }
  }
}
