/**
 Optimistic add-then-undo counters under every interleaving: the concurrency slots of
 internal/backend/backend.go.
 */
module Slots {
  import opened Sums

  type Tid = nat

  /** `Added(n)`: the atomic add returned `n` and the thread has not acted on it yet. */
  datatype Pc = Idle | Added(n: int) | Holding

  datatype State = State(inflight: int, pcs: map<Tid, Pc>)

  /** `max` 0 means no limit. */
  predicate Fits(n: int, max: int) { max <= 0 || n <= max }

  datatype Step = Add(t: Tid) | Decide(t: Tid) | Release(t: Tid)

  ghost predicate Next(s: State, st: Step, s': State, max: int) {
    st.t in s.pcs &&
    match st
    case Add(t) => s.pcs[t].Idle? && s' == State(s.inflight + 1, s.pcs[t := Added(s.inflight + 1)])
    case Decide(t) => s.pcs[t].Added? &&
      s' == if Fits(s.pcs[t].n, max) then State(s.inflight, s.pcs[t := Holding])
        else State(s.inflight - 1, s.pcs[t := Idle])
    case Release(t) => s.pcs[t].Holding? && s' == State(s.inflight - 1, s.pcs[t := Idle])
  }

  ghost predicate Init(s: State) { s.inflight == 0 && forall t :: t in s.pcs ==> s.pcs[t].Idle? }

  ghost predicate IsRun(run: seq<State>, steps: seq<Step>, max: int) {
    |run| == |steps| + 1 && Init(run[0]) && forall k :: 0 <= k < |steps| ==> Next(run[k], steps[k], run[k + 1], max)
  }

  ghost function Busy(s: State): set<Tid> { set t | t in s.pcs && !s.pcs[t].Idle? }

  ghost function Holders(s: State): set<Tid> { set t | t in s.pcs && s.pcs[t].Holding? }

  /** Threads that hold a slot or are bound to get one. */
  ghost function Entitled(s: State, max: int): set<Tid> {
    set t | t in s.pcs && (s.pcs[t].Holding? || (s.pcs[t].Added? && Fits(s.pcs[t].n, max)))
  }

  ghost predicate Inv(s: State, max: int) {
    s.inflight == |Busy(s)| && (max > 0 ==> |Entitled(s, max)| <= max)
  }

  lemma {:induction false} StepKeepsInv(s: State, st: Step, s': State, max: int)
    requires Inv(s, max) && Next(s, st, s', max)
    ensures Inv(s', max)
  {
    var t := st.t;
    match st
    case Add(_) =>
      assert Busy(s') == Busy(s) + {t} && t !in Busy(s);
      if Fits(s.inflight + 1, max) {
        assert Entitled(s', max) <= Busy(s');
        SubsetSize(Entitled(s', max), Busy(s'));
      } else {
        assert Entitled(s', max) == Entitled(s, max);
      }
    case Decide(_) =>
      assert Entitled(s', max) == Entitled(s, max);
      assert Busy(s') == if Fits(s.pcs[t].n, max) then Busy(s) else Busy(s) - {t};
    case Release(_) =>
      assert Busy(s') == Busy(s) - {t} && t in Busy(s);
      assert Entitled(s', max) == Entitled(s, max) - {t};
      SubsetSize(Entitled(s', max), Entitled(s, max));
  }

  lemma {:induction false} RunKeepsInv(run: seq<State>, steps: seq<Step>, max: int, k: nat)
    requires IsRun(run, steps, max) && k < |run|
    ensures Inv(run[k], max)
  {
    if k == 0 {
      assert Busy(run[0]) == {} && Entitled(run[0], max) == {};
    } else {
      RunKeepsInv(run, steps, max, k - 1);
      StepKeepsInv(run[k - 1], steps[k - 1], run[k], max);
    }
  }

  /** Never more holders than slots, and the counter is back at zero when nobody is inside. */
  lemma {:induction false} HoldersNeverExceedMax(run: seq<State>, steps: seq<Step>, max: int, k: nat)
    requires IsRun(run, steps, max) && k < |run|
    ensures max > 0 ==> |Holders(run[k])| <= max
    ensures |Holders(run[k])| <= run[k].inflight
    ensures (forall t :: t in run[k].pcs ==> run[k].pcs[t].Idle?) <==> run[k].inflight == 0
  {
    var s := run[k];
    RunKeepsInv(run, steps, max, k);
    SubsetSize(Holders(s), Entitled(s, max));
    SubsetSize(Holders(s), Busy(s));
    if s.inflight == 0 {
      forall t | t in s.pcs ensures s.pcs[t].Idle? {
        assert t !in Busy(s);
      }
    }
    if forall t :: t in s.pcs ==> s.pcs[t].Idle? {
      assert Busy(s) == {};
    }
  }

  /** An acquire succeeds exactly if its add returned at most the limit, or there is none; otherwise it is undone. */
  lemma {:induction false} AcquireSucceedsIff(run: seq<State>, steps: seq<Step>, max: int, k: nat)
    requires IsRun(run, steps, max) && k < |steps| && steps[k].Decide?
    ensures var t := steps[k].t;
            && t in run[k].pcs && run[k].pcs[t].Added? && t in run[k + 1].pcs
            && (run[k + 1].pcs[t] == Holding <==> max <= 0 || run[k].pcs[t].n <= max)
            && run[k + 1].inflight == run[k].inflight - (if run[k + 1].pcs[t] == Holding then 0 else 1)
  {
    assert Next(run[k], steps[k], run[k + 1], max);
  }

  /** A thread that adds while fewer than `max` are inside is bound to get its slot. */
  lemma {:induction false} RoomMeansSlot(run: seq<State>, steps: seq<Step>, max: int, k: nat, m: nat)
    requires IsRun(run, steps, max) && k < m < |steps| && steps[k].Add? && steps[m] == Decide(steps[k].t)
    requires |Busy(run[k])| < max && forall n :: k < n < m ==> steps[n].t != steps[k].t
    ensures steps[k].t in run[m + 1].pcs && run[m + 1].pcs[steps[k].t] == Holding
  {
    RunKeepsInv(run, steps, max, k);
    assert Next(run[k], steps[k], run[k + 1], max);
    StaysAdded(run, steps, max, steps[k].t, k + 1, m);
    AcquireSucceedsIff(run, steps, max, m);
  }

  lemma {:induction false} StaysAdded(run: seq<State>, steps: seq<Step>, max: int, t: Tid, k: nat, m: nat)
    requires IsRun(run, steps, max) && k <= m < |run| && t in run[k].pcs
    requires forall n :: k <= n < m ==> steps[n].t != t
    ensures t in run[m].pcs && run[m].pcs[t] == run[k].pcs[t]
    decreases m - k
  {
    if k < m {
      StaysAdded(run, steps, max, t, k, m - 1);
      assert Next(run[m - 1], steps[m - 1], run[m], max);
    }
  }
}
