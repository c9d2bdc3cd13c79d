/**
 Weighted choice of a sub-pool: PickSplit of internal/backend/registry.go.  The draw is a parameter.

 Every weight is loaded on its own and no lock is held, so a call may see weights of different moments: `a` are the
 readings of the sum, `b` those the walk subtracts and `c` those it compares with zero.
 */
module PickSplit {
  import opened Options
  import opened Rollout
  import RC = RolloutCluster

  ghost predicate NonNegative(ws: seq<real>) { forall i :: 0 <= i < |ws| ==> ws[i] >= 0.0 }

  /** The draws that select `i`: an interval of length `ws[i]` (the draw 0 goes to the first positive weight). */
  ghost predicate Hits(ws: seq<real>, x: real, i: nat)
    requires i < |ws|
  {
    ws[i] > 0.0 && x <= Sum(ws[..i + 1]) && (Sum(ws[..i]) < x || (x == 0.0 && Sum(ws[..i]) == 0.0))
  }

  lemma {:induction false} SumNext(ws: seq<real>, i: nat)
    requires i < |ws|
    ensures Sum(ws[..i + 1]) == Sum(ws[..i]) + ws[i]
  {
    assert ws[..i + 1][..i] == ws[..i];
  }

  lemma {:induction false} SumGrows(ws: seq<real>, i: nat, j: nat)
    requires NonNegative(ws) && i <= j <= |ws|
    ensures Sum(ws[..i]) <= Sum(ws[..j])
    decreases j - i
  {
    if i < j {
      SumNext(ws, j - 1);
      SumGrows(ws, i, j - 1);
    }
  }

  /** Different sub-pools are selected by different draws. */
  lemma {:induction false} HitsUnique(ws: seq<real>, x: real, i: nat, j: nat)
    requires NonNegative(ws) && i < |ws| && j < |ws| && Hits(ws, x, i) && Hits(ws, x, j)
    ensures i == j
  {
    if i < j {
      SumGrows(ws, i + 1, j);
      SumNext(ws, i);
      SumGrows(ws, 0, i);
    } else if j < i {
      SumGrows(ws, j + 1, i);
      SumNext(ws, j);
      SumGrows(ws, 0, j);
    }
  }

  // ---------------------------------------------------------------- one call

  /** The walk may stop at `i`: the draw is used up there, and the weight reads positive. */
  ghost predicate Stops(b: seq<real>, c: seq<real>, x: real, i: nat)
    requires |b| == |c|
  {
    i < |b| && c[i] > 0.0 && x <= Sum(b[..i + 1])
  }

  ghost predicate NeverStops(b: seq<real>, c: seq<real>, x: real)
    requires |b| == |c|
  {
    forall i: nat :: !Stops(b, c, x, i)
  }

  /** The first place to stop, or else the last sub-pool. */
  ghost predicate IsWalk(b: seq<real>, c: seq<real>, x: real, r: nat)
    requires |b| == |c|
  {
    && r < |b| && (forall i: nat :: i < r ==> !Stops(b, c, x, i))
    && (Stops(b, c, x, r) || (r == |b| - 1 && NeverStops(b, c, x)))
  }

  function Draw(u: real, total: real): real { u * total }

  /** What a call answers: None falls back to the whole pool. */
  ghost predicate IsPick(a: seq<real>, b: seq<real>, c: seq<real>, u: real, r: Option<nat>)
    requires |a| == |b| == |c|
  {
    if Sum(a) <= 0.0 then r.None? else r.Some? && IsWalk(b, c, Draw(u, Sum(a)), r.value)
  }

  lemma SumEmpty()
    ensures Sum([]) == 0.0
  {
  }

  method Walk(b: seq<real>, c: seq<real>, draw: real) returns (r: nat)
    requires |b| == |c| > 0
    ensures IsWalk(b, c, draw, r)
  {
    hide Sum;
    SumEmpty();
    assert b[..0] == [];
    var x := draw;
    for i := 0 to |b|
      invariant x == draw - Sum(b[..i])
      invariant forall j: nat :: j < i ==> !Stops(b, c, draw, j)
    {
      SumNext(b, i);
      x := x - b[i];
      if x <= 0.0 && c[i] > 0.0 {
        return i;
      }
    }
    return |b| - 1;
  }

  /** `u` is the random number in [0, 1). */
  method Pick(a: seq<real>, b: seq<real>, c: seq<real>, u: real) returns (r: Option<nat>)
    requires |a| == |b| == |c|
    ensures IsPick(a, b, c, u, r)
  {
    hide Sum, IsWalk, Draw;
    SumEmpty();
    assert a[..0] == [] && a[..|a|] == a;
    if |a| == 0 {
      return None;
    }
    var total := 0.0;
    for i := 0 to |a|
      invariant total == Sum(a[..i])
    {
      SumNext(a, i);
      total := total + a[i];
    }
    if total <= 0.0 {
      return None;
    }
    var i := Walk(b, c, Draw(u, total));
    return Some(i);
  }

  // ---------------------------------------------------------------- the fallback

  /** Before the first place to stop, the draw is not used up. */
  lemma {:induction false} NotUsedUp(b: seq<real>, x: real, r: nat)
    requires NonNegative(b) && x >= 0.0 && r <= |b| && forall i: nat :: i < r ==> !Stops(b, b, x, i)
    ensures Sum(b[..r]) < x || (x == 0.0 && Sum(b[..r]) == 0.0)
  {
    hide Sum;
    if r == 0 {
      SumEmpty();
      assert b[..0] == [];
    } else {
      NotUsedUp(b, x, r - 1);
      SumNext(b, r - 1);
      assert !Stops(b, b, x, r - 1);
    }
  }

  /** With one reading of each weight, the walk falls through exactly if the draw exceeds their sum or that is zero. */
  lemma {:induction false} FallbackIff(b: seq<real>, x: real)
    requires NonNegative(b) && x >= 0.0
    ensures NeverStops(b, b, x) <==> x > Sum(b) || Sum(b) == 0.0
  {
    hide Sum;
    SumEmpty();
    assert b[..0] == [] && b[..|b|] == b;
    if NeverStops(b, b, x) {
      NotUsedUp(b, x, |b|);
    }
    forall i: nat | Stops(b, b, x, i) ensures x <= Sum(b) && Sum(b) > 0.0 {
      SumGrows(b, 0, i);
      SumNext(b, i);
      SumGrows(b, i + 1, |b|);
    }
  }

  /** With separate readings: exactly if no weight reads positive, or the draw lies beyond the last one that does. */
  lemma {:induction false} FallbackIffSeparate(b: seq<real>, c: seq<real>, x: real)
    requires NonNegative(b) && |b| == |c|
    ensures NeverStops(b, c, x) <==> forall i: nat :: IsLastPositive(c, i) ==> Sum(b[..i + 1]) < x
  {
    if forall i: nat :: IsLastPositive(c, i) ==> Sum(b[..i + 1]) < x {
      forall i: nat ensures !Stops(b, c, x, i) {
        if i < |c| && c[i] > 0.0 {
          var last := LastPositive(c, i);
          SumGrows(b, i + 1, last + 1);
        }
      }
    }
    if NeverStops(b, c, x) {
      forall i: nat | IsLastPositive(c, i) ensures Sum(b[..i + 1]) < x {
        assert !Stops(b, c, x, i);
      }
    }
  }

  ghost predicate IsLastPositive(c: seq<real>, i: nat) {
    i < |c| && c[i] > 0.0 && forall j :: i < j < |c| ==> c[j] <= 0.0
  }

  lemma {:induction false} LastPositive(c: seq<real>, i: nat) returns (last: nat)
    requires i < |c| && c[i] > 0.0
    ensures i <= last && IsLastPositive(c, last)
    decreases |c| - i
  {
    if j :| i < j < |c| && c[j] > 0.0 {
      last := LastPositive(c, j);
    } else {
      last := i;
    }
  }

  /** A sub-pool whose weight read zero is answered exactly if it is the last one and the walk falls through. */
  lemma {:induction false} ZeroPickedIff(a: seq<real>, b: seq<real>, c: seq<real>, u: real, i: nat)
    requires |a| == |b| == |c| && i < |c| && c[i] == 0.0 && Sum(a) > 0.0
    ensures IsPick(a, b, c, u, Some(i)) <==> i == |c| - 1 && NeverStops(b, c, Draw(u, Sum(a)))
  {
    hide Draw, Sum;
    assert !Stops(b, c, Draw(u, Sum(a)), i);
  }

  // ---------------------------------------------------------------- steady weights

  lemma {:induction false} DrawInRange(u: real, total: real)
    requires 0.0 <= u < 1.0 && total > 0.0
    ensures 0.0 <= Draw(u, total) < total
  {
  }

  lemma {:induction false} SteadyWalk(ws: seq<real>, x: real, r: nat)
    requires NonNegative(ws) && 0.0 <= x < Sum(ws) && IsWalk(ws, ws, x, r)
    ensures r < |ws| && Hits(ws, x, r)
  {
    FallbackIff(ws, x);
    NotUsedUp(ws, x, r);
  }

  /** When no weight changes during the call, it answers the sub-pool whose interval holds the draw. */
  lemma {:induction false} SteadyPick(ws: seq<real>, u: real, r: Option<nat>)
    requires NonNegative(ws) && 0.0 <= u < 1.0 && IsPick(ws, ws, ws, u, r)
    ensures r.None? <==> Sum(ws) <= 0.0
    ensures r.Some? ==> r.value < |ws| && Hits(ws, Draw(u, Sum(ws)), r.value)
  {
    hide Draw, IsWalk, Hits;
    if r.Some? {
      DrawInRange(u, Sum(ws));
      SteadyWalk(ws, Draw(u, Sum(ws)), r.value);
    }
  }

  lemma {:induction false} Scale(u: real, a: real, total: real)
    requires total > 0.0
    ensures Draw(u, total) > a <==> u > a / total
    ensures Draw(u, total) <= a <==> u <= a / total
  {
    assert a / total * total == a;
    assert (u - a / total) * total == Draw(u, total) - a;
  }

  /** In terms of the random number: `i` is answered exactly on an interval as long as its part of the total weight. */
  lemma {:induction false} SteadyShare(ws: seq<real>, u: real, i: nat)
    requires NonNegative(ws) && 0.0 < u < 1.0 && i < |ws| && Sum(ws) > 0.0
    ensures IsPick(ws, ws, ws, u, Some(i)) <==> Sum(ws[..i]) / Sum(ws) < u <= Sum(ws[..i + 1]) / Sum(ws)
    ensures Sum(ws[..i + 1]) / Sum(ws) - Sum(ws[..i]) / Sum(ws) == ws[i] / Sum(ws)
  {
    hide Sum, Draw;
    var total, x := Sum(ws), Draw(u, Sum(ws));
    DrawPositive(u, total);
    Scale(u, Sum(ws[..i]), total);
    Scale(u, Sum(ws[..i + 1]), total);
    SumNext(ws, i);
    Parts(Sum(ws[..i]), ws[i], total);
    WalkIff(ws, x, i);
  }

  lemma {:induction false} Parts(a: real, w: real, total: real)
    requires total > 0.0
    ensures (a + w) / total - a / total == w / total
  {
    var p, q := a / total, w / total;
    assert p * total == a && q * total == w;
    assert (p + q) * total == a + w;
  }

  lemma {:induction false} DrawPositive(u: real, total: real)
    requires 0.0 < u < 1.0 && total > 0.0
    ensures 0.0 < Draw(u, total) < total
  {
    DrawInRange(u, total);
    assert u * total != 0.0;
  }

  lemma {:induction false} WalkIff(ws: seq<real>, x: real, i: nat)
    requires NonNegative(ws) && 0.0 < x < Sum(ws) && i < |ws|
    ensures IsWalk(ws, ws, x, i) <==> Sum(ws[..i]) < x <= Sum(ws[..i + 1])
  {
    hide Sum;
    SumNext(ws, i);
    if IsWalk(ws, ws, x, i) {
      SteadyWalk(ws, x, i);
    }
    if Sum(ws[..i]) < x <= Sum(ws[..i + 1]) {
      forall j: nat | j < i ensures !Stops(ws, ws, x, j) {
        SumGrows(ws, j + 1, i);
      }
    }
  }

  /** The length of the interval of draws that select `i`. */
  lemma {:induction false} IntervalLength(ws: seq<real>, i: nat)
    requires NonNegative(ws) && i < |ws|
    ensures Sum(ws[..i + 1]) - Sum(ws[..i]) == ws[i]
    ensures forall x: real :: x > 0.0 ==> (Hits(ws, x, i) <==> Sum(ws[..i]) < x <= Sum(ws[..i + 1]))
  {
    SumNext(ws, i);
  }

  // ---------------------------------------------------------------- a rollout that rolls back

  /** The weights of a route's sub-pools, with the canary at position `at`. */
  function Arranged(s: State, at: nat): seq<real>
    requires at <= |s.others|
  {
    s.others[..at] + [s.canary] + s.others[at..]
  }

  /** In every run, on every instance, a call that starts and ends after the rollback never picks the canary. */
  lemma {:induction false} RolledBackNeverPicked(c: Config, run: seq<RC.Cluster>, steps: seq<RC.Step>, v: View, k: nat,
    i: RC.Id, at: nat, u: real, r: Option<nat>)
    requires RC.IsRun(c, run, steps, v) && k < |run| && i in run[k].members && run[k].members[i].st.phase.Failed?
    requires at <= |run[k].members[i].st.others| && 0.0 <= u < 1.0
    requires var ws := Arranged(run[k].members[i].st, at); IsPick(ws, ws, ws, u, r)
    ensures r != Some(at)
  {
    RC.StartedWeights(c, run, steps, v, k, i);
    SteadyPick(Arranged(run[k].members[i].st, at), u, r);
  }

  /** The weights after the first store of a rollback: the canary's is written first. */
  function Halfway(s: State): State { s.(canary := 0.0) }

  lemma {:induction false} SumAppend(ws: seq<real>, w: real)
    ensures Sum(ws + [w]) == Sum(ws) + w
  {
    assert (ws + [w])[..|ws|] == ws;
  }

  /**
   A call that overlaps the rollback: the sum was read before, the walk reads the weights after the first store.  If the
   canary is the last sub-pool it is still picked, by exactly the draws that lie beyond the others.
   */
  lemma {:induction false} OverlappedPickIff(c: Config, s: State, u: real)
    requires ConfigOk(c) && Good(c, s) && s.phase.Running? && 0.0 <= u < 1.0
    ensures var n := |s.others|;
            var before, mid := Arranged(s, n), Arranged(Halfway(s), n);
            IsPick(before, mid, mid, u, Some(n)) <==> Draw(u, 100.0) > Sum(s.others) || Sum(s.others) == 0.0
  {
    hide Draw, Sum, Good, IsPick, NeverStops;
    var n := |s.others|;
    var before, mid := Arranged(s, n), Arranged(Halfway(s), n);
    GoodWeights(c, s);
    DrawInRange(u, 100.0);
    assert before == s.others + [s.canary] && mid == s.others + [0.0];
    SumAppend(s.others, s.canary);
    SumAppend(s.others, 0.0);
    ZeroPickedIff(before, mid, mid, u, n);
    FallbackIff(mid, Draw(u, Sum(before)));
  }

  /** Such draws exist at every step of every rollout. */
  lemma {:induction false} OverlappedPickHappens(c: Config, s: State) returns (u: real)
    requires ConfigOk(c) && Good(c, s) && s.phase.Running?
    ensures 0.0 <= u < 1.0
    ensures var n := |s.others|;
            IsPick(Arranged(s, n), Arranged(Halfway(s), n), Arranged(Halfway(s), n), u, Some(n))
  {
    GoodWeights(c, s);
    SumNonNegative(s.others);
    u := (Sum(s.others) + 100.0) / 200.0;
    assert Sum(s.others) == 100.0 - s.canary && s.canary > 0.0;
    OverlappedPickIff(c, s, u);
  }
}
