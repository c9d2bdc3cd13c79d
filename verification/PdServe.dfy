/** The retry loop of servePD: every failure excludes the side that failed. */
module PdServe {
  import opened Options
  import opened Backends
  import opened Candidates
  import opened PdPick

  datatype Outcome = Done | PrefillFailed | DecodeFailed

  /** What the loop meets in one round: instance states, link loads, the strategy's taste, and how the attempt ends. */
  datatype World = World(st: Backend -> Status, load: LinkLoad, strategy: seq<Backend> -> Option<nat>,
    outcome: (Backend, Backend) -> Outcome)

  datatype Attempt = Attempt(prefill: string, decode: string, outcome: Outcome)

  ghost function FailedPrefills(log: seq<Attempt>): set<string> {
    set i | 0 <= i < |log| && log[i].outcome.PrefillFailed? :: log[i].prefill
  }

  ghost function FailedDecodes(log: seq<Attempt>): set<string> {
    set i | 0 <= i < |log| && log[i].outcome.DecodeFailed? :: log[i].decode
  }

  /** No attempt uses an instance that an earlier attempt failed on, on the same side. */
  ghost predicate NeverAgain(log: seq<Attempt>) {
    forall j, k :: 0 <= j < k < |log| ==>
      && (log[j].outcome.PrefillFailed? ==> log[k].prefill != log[j].prefill)
      && (log[j].outcome.DecodeFailed? ==> log[k].decode != log[j].decode)
      && !log[j].outcome.Done?
  }

  lemma {:induction false} PrefillsNext(log: seq<Attempt>, a: Attempt)
    ensures FailedPrefills(log + [a]) == FailedPrefills(log) + if a.outcome.PrefillFailed? then {a.prefill} else {}
  {
    var n := log + [a];
    assert n[|log|] == a && forall i | 0 <= i < |log| :: n[i] == log[i];
    forall x
      ensures x in FailedPrefills(n) <==> x in FailedPrefills(log) || (a.outcome.PrefillFailed? && x == a.prefill)
    {
      if x in FailedPrefills(log) {
        var i :| 0 <= i < |log| && log[i].outcome.PrefillFailed? && log[i].prefill == x;
        assert n[i] == log[i];
      }
    }
  }

  lemma {:induction false} DecodesNext(log: seq<Attempt>, a: Attempt)
    ensures FailedDecodes(log + [a]) == FailedDecodes(log) + if a.outcome.DecodeFailed? then {a.decode} else {}
  {
    var n := log + [a];
    assert n[|log|] == a && forall i | 0 <= i < |log| :: n[i] == log[i];
    forall x ensures x in FailedDecodes(n) <==> x in FailedDecodes(log) || (a.outcome.DecodeFailed? && x == a.decode) {
      if x in FailedDecodes(log) {
        var i :| 0 <= i < |log| && log[i].outcome.DecodeFailed? && log[i].decode == x;
        assert n[i] == log[i];
      }
    }
  }

  /** Each failure enlarges exactly one exclude set by one. */
  lemma {:induction false} FailureExcludes(log: seq<Attempt>, a: Attempt)
    requires !a.outcome.Done? && a.prefill !in FailedPrefills(log) && a.decode !in FailedDecodes(log)
    ensures FailedPrefills(log + [a]) == FailedPrefills(log) + if a.outcome.PrefillFailed? then {a.prefill} else {}
    ensures FailedDecodes(log + [a]) == FailedDecodes(log) + if a.outcome.DecodeFailed? then {a.decode} else {}
    ensures |FailedPrefills(log + [a])| + |FailedDecodes(log + [a])| == |FailedPrefills(log)| + |FailedDecodes(log)| + 1
  {
    hide FailedPrefills, FailedDecodes;
    PrefillsNext(log, a);
    DecodesNext(log, a);
  }

  lemma {:induction false} StillNeverAgain(log: seq<Attempt>, a: Attempt)
    requires NeverAgain(log) && a.prefill !in FailedPrefills(log) && a.decode !in FailedDecodes(log)
    requires forall i :: 0 <= i < |log| ==> !log[i].outcome.Done?
    ensures NeverAgain(log + [a])
  {
    forall j | 0 <= j < |log|
      ensures log[j].outcome.PrefillFailed? ==> a.prefill != log[j].prefill
      ensures log[j].outcome.DecodeFailed? ==> a.decode != log[j].decode
    {
    }
  }

  /** Ids of a group's prefill side. */
  ghost function PrefillIds(g: Group): set<string> { set b | b in g.prefill :: b.cfg.id }

  ghost predicate FromGroup(g: Group, log: seq<Attempt>) {
    forall i :: 0 <= i < |log| ==> log[i].prefill in PrefillIds(g) && log[i].decode in g.decodeById
  }

  /** The exclude sets are exactly the failures so far, one for each attempt. */
  ghost predicate Tracks(log: seq<Attempt>, excludePrefill: set<string>, excludeDecode: set<string>) {
    && NeverAgain(log) && (forall j :: 0 <= j < |log| ==> !log[j].outcome.Done?)
    && excludePrefill == FailedPrefills(log) && excludeDecode == FailedDecodes(log)
    && |excludePrefill| + |excludeDecode| == |log|
  }

  lemma {:induction false} FailureTracked(log: seq<Attempt>, a: Attempt, ep: set<string>, ed: set<string>)
    requires Tracks(log, ep, ed) && !a.outcome.Done? && a.prefill !in ep && a.decode !in ed
    ensures Tracks(log + [a],
                   if a.outcome.PrefillFailed? then ep + {a.prefill} else ep,
                   if a.outcome.DecodeFailed? then ed + {a.decode} else ed)
  {
    hide NeverAgain, FailedPrefills, FailedDecodes;
    StillNeverAgain(log, a);
    FailureExcludes(log, a);
  }

  lemma {:induction false} DoneTracked(log: seq<Attempt>, a: Attempt, ep: set<string>, ed: set<string>)
    requires Tracks(log, ep, ed) && a.outcome.Done? && a.prefill !in ep && a.decode !in ed
    ensures NeverAgain(log + [a]) && FailedPrefills(log + [a]) == ep && FailedDecodes(log + [a]) == ed
  {
    hide NeverAgain, FailedPrefills, FailedDecodes;
    StillNeverAgain(log, a);
    PrefillsNext(log, a);
    DecodesNext(log, a);
  }

  lemma {:induction false} FailuresFromGroup(g: Group, log: seq<Attempt>)
    requires FromGroup(g, log)
    ensures FailedPrefills(log) <= PrefillIds(g) && FailedDecodes(log) <= g.decodeById.Keys
  {
  }

  lemma {:induction false} NextFromGroup(g: Group, log: seq<Attempt>, a: Attempt)
    requires FromGroup(g, log) && a.prefill in PrefillIds(g) && a.decode in g.decodeById
    ensures FromGroup(g, log + [a])
  {
    hide PrefillIds;
  }

  /**
   servePD.  `served` tells whether an attempt answered the client; `log` is the list of attempts.
   Failures never repeat, so there are at most as many as instances on both sides.
   */
  method ServePD(g: Group, retries: nat, prefer: string, world: nat -> World) returns (served: bool, log: seq<Attempt>)
    requires g.Valid()
    ensures |log| <= retries + 1 && NeverAgain(log) && FromGroup(g, log)
    ensures served <==> log != [] && log[|log| - 1].outcome.Done?
    ensures !served && |log| <= retries ==> var w := world(|log|);
      !g.CanPick(w.st, w.strategy, prefer, FailedPrefills(log), FailedDecodes(log))
    ensures FailedPrefills(log) <= PrefillIds(g) && FailedDecodes(log) <= g.decodeById.Keys
    ensures |FailedPrefills(log)| + |FailedDecodes(log)| == |log| - if served then 1 else 0
  {
    hide NeverAgain, FailedPrefills, FailedDecodes, FromGroup, PrefillIds;
    log := [];
    EmptyLog(g, log);
    var excludePrefill: set<string>, excludeDecode: set<string> := {}, {};
    for i := 0 to retries + 1
      invariant |log| == i && FromGroup(g, log) && Tracks(log, excludePrefill, excludeDecode)
    {
      var w := world(i);
      var pick := g.PickPreferred(w.st, w.load, w.strategy, prefer, excludePrefill, excludeDecode);
      if pick.None? {
        FailuresFromGroup(g, log);
        return false, log;
      }
      var (p, d, l) := pick.value;
      var a := Attempt(p.cfg.id, d.cfg.id, w.outcome(p, d));
      InPrefill(g, p);
      NextFromGroup(g, log, a);
      if a.outcome.Done? {
        DoneTracked(log, a, excludePrefill, excludeDecode);
        FailuresFromGroup(g, log + [a]);
        return true, log + [a];
      }
      FailureTracked(log, a, excludePrefill, excludeDecode);
      if a.outcome.DecodeFailed? {
        excludeDecode := excludeDecode + {d.cfg.id};
      } else {
        excludePrefill := excludePrefill + {p.cfg.id};
      }
      log := log + [a];
    }
    FailuresFromGroup(g, log);
    served := false;
  }

  lemma {:induction false} InPrefill(g: Group, p: Backend)
    requires p in g.prefill
    ensures p.cfg.id in PrefillIds(g)
  {
  }

  lemma {:induction false} EmptyLog(g: Group, log: seq<Attempt>)
    requires log == []
    ensures Tracks(log, {}, {}) && FromGroup(g, log)
  {
  }
}
