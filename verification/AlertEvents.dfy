/** Exactly when the alert engine announces something, in terms of the run alone. */
module AlertEvents {
  import opened Options
  import opened Alerts
  import opened AlertRuns
  import opened AlertTraces

  ghost predicate FiresUnder(acts: seq<Action>, i: nat, k: string) {
    FiresAt(acts, i) && StateKey(acts[i].rule.name, acts[i].instance) == k
  }

  /** The last firing under `k` before `n`, if the stretch has not been broken since. */
  ghost predicate LastFired(acts: seq<Action>, n: nat, k: string, f: nat) {
    && f < n <= |acts| && FiresUnder(acts, f, k)
    && (forall m :: f < m < n ==> !Breaks(acts[m], k)) && (forall m: nat :: f < m < n ==> !FiresUnder(acts, m, k))
  }

  /** A firing alert remembers the time of its last firing. */
  lemma {:induction false} NotifiedIs(acts: seq<Action>, n: nat, k: string) returns (f: nat)
    requires n <= |acts| && k in StatesAt(acts, n) && StatesAt(acts, n)[k].firing
    ensures LastFired(acts, n, k, f) && StatesAt(acts, n)[k].notified == acts[f].now
  {
    if FiresUnder(acts, n - 1, k) {
      f := n - 1;
    } else {
      f := NotifiedIs(acts, n - 1, k);
    }
  }

  lemma {:induction false} FiredMeansFiring(acts: seq<Action>, n: nat, k: string, f: nat)
    requires LastFired(acts, n, k, f)
    ensures k in StatesAt(acts, n) && StatesAt(acts, n)[k].firing
  {
    StaysNotified(acts, f, n);
  }

  /** There is such a firing. */
  ghost predicate HasFired(acts: seq<Action>, n: nat, k: string) {
    exists f: nat :: LastFired(acts, n, k, f)
  }

  /** It lies at least `d` before `now`. */
  ghost predicate FiredBefore(acts: seq<Action>, n: nat, k: string, now: int, d: int) {
    exists f: nat :: LastFired(acts, n, k, f) && now - acts[f].now >= d
  }

  lemma {:induction false} LastFiredOnce(acts: seq<Action>, n: nat, k: string, f: nat, g: nat)
    requires LastFired(acts, n, k, f) && LastFired(acts, n, k, g)
    ensures f == g
  {
  }

  /** Of the stretches that `n` actions leave unbroken, the one under `k` has lasted `hold` at `i`. */
  ghost predicate Ripe(acts: seq<Action>, n: nat, k: string, i: nat) {
    exists j: nat :: Began(acts, n, k, j) && Held(acts, k, j, i)
  }

  lemma {:induction false} BeganOnce(acts: seq<Action>, n: nat, k: string, i: nat, j: nat)
    requires Began(acts, n, k, i) && Began(acts, n, k, j)
    ensures i == j
  {
  }

  /**
   An evaluation under a key fires exactly if it is true and either, with no firing yet in this stretch, the stretch has
   lasted `hold`, or the last firing lies a positive repeat interval back.
   */
  lemma {:induction false} FiresIff(acts: seq<Action>, i: nat)
    requires i < |acts| && acts[i].Eval?
    ensures var a := acts[i];
            var k := StateKey(a.rule.name, a.instance);
            FiresAt(acts, i) <==>
              && a.outcome == Value(true)
              && (HasFired(acts, i, k) ==> a.rule.repeat > 0 && FiredBefore(acts, i, k, a.now, a.rule.repeat))
              && (!HasFired(acts, i, k) ==> Ripe(acts, i + 1, k, i))
  {
    hide LastFired, Began, Held;
    var k := StateKey(acts[i].rule.name, acts[i].instance);
    if acts[i].outcome == Value(true) {
      if k in StatesAt(acts, i) && StatesAt(acts, i)[k].firing {
        RepeatsIff(acts, i, k);
      } else {
        if f: nat :| LastFired(acts, i, k, f) {
          FiredMeansFiring(acts, i, k, f);
        }
        FirstIff(acts, i, k);
      }
    }
  }

  lemma {:induction false} RepeatsIff(acts: seq<Action>, i: nat, k: string)
    requires i < |acts| && Evaluates(acts[i], k, true) && k in StatesAt(acts, i) && StatesAt(acts, i)[k].firing
    ensures HasFired(acts, i, k)
    ensures FiresAt(acts, i) <==>
      acts[i].rule.repeat > 0 && FiredBefore(acts, i, k, acts[i].now, acts[i].rule.repeat)
  {
    hide LastFired;
    var f := NotifiedIs(acts, i, k);
    forall g: nat | LastFired(acts, i, k, g) ensures g == f {
      LastFiredOnce(acts, i, k, f, g);
    }
  }

  lemma {:induction false} FirstIff(acts: seq<Action>, i: nat, k: string)
    requires i < |acts| && Evaluates(acts[i], k, true) && !(k in StatesAt(acts, i) && StatesAt(acts, i)[k].firing)
    ensures FiresAt(acts, i) <==> Ripe(acts, i + 1, k, i)
  {
    hide Unbroken, Began, NoneBegan;
    var b := StateMeans(acts, i, k);
    var n := i + 1;
    var j := BeganNext(acts, i, k, b);
    BeganTrue(acts, n, k, j.value);
    forall g: nat | Began(acts, n, k, g) ensures g == j.value {
      BeganOnce(acts, n, k, g, j.value);
    }
    assert Ripe(acts, n, k, i) <==> Held(acts, k, j.value, i);
  }

  /** An evaluation resolves exactly if it is false and ends a stretch that had lasted. */
  lemma {:induction false} ResolvesIff(acts: seq<Action>, i: nat)
    requires i < |acts| && acts[i].Eval?
    ensures var k := StateKey(acts[i].rule.name, acts[i].instance);
            ResolvesAt(acts, i) <==>
              acts[i].outcome == Value(false) && exists j: nat :: Began(acts, i, k, j) && Lasted(acts, i, k, j)
  {
    hide Unbroken, Began, NoneBegan;
    var k := StateKey(acts[i].rule.name, acts[i].instance);
    var b := StateMeans(acts, i, k);
    if b.None? {
      forall j: nat ensures !Began(acts, i, k, j) {
        NotBegan(acts, i, k, j);
      }
    } else {
      forall j: nat | Began(acts, i, k, j) ensures j == b.value {
        BeganOnce(acts, i, k, j, b.value);
      }
    }
  }

  lemma {:induction false} NotBegan(acts: seq<Action>, n: nat, k: string, j: nat)
    requires NoneBegan(acts, n, k)
    ensures !Began(acts, n, k, j)
  {
  }
}
