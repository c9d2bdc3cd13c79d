/** Replay as a convergent process: runs of rounds with no new publications and arbitrary loss. */
module MirrorRuns {
  import opened Options
  import opened Mirror
  import opened Sums

  /** `run[n + 1]` is `run[n]` after round `n`; rounds are at least `period` apart. */
  ghost predicate IsRun(run: seq<Mirrors>, rounds: seq<Round>, window: int, period: int) {
    && |run| == |rounds| + 1
    && (forall n :: 0 <= n < |rounds| ==> RoundOk(run[n], rounds[n]) && run[n + 1] == After(run[n], rounds[n], window))
    && (forall n {:trigger rounds[n]} :: 0 < n < |rounds| ==> rounds[n - 1].now + period <= rounds[n].now)
  }

  /** The whole run keeps the merged content of every key. */
  lemma {:induction false} ContentFixed(run: seq<Mirrors>, rounds: seq<Round>, window: int, period: int, k: Key,
    e: Entry, n: nat)
    requires IsRun(run, rounds, window, period) && Agreeing(run[0]) && Merged(run[0], k, e) && n < |run|
    ensures Agreeing(run[n]) && exists e' :: Merged(run[n], k, e') && e'.content == e.content
  {
    if n > 0 {
      ContentFixed(run, rounds, window, period, k, e, n - 1);
      var d :| Merged(run[n - 1], k, d) && d.content == e.content;
      MergedContentStable(run[n - 1], rounds[n - 1], window, k, d);
      RoundKeepsAgreeing(run[n - 1], rounds[n - 1], window);
    }
  }

  lemma {:induction false} SettledStep(ms: Mirrors, r: Round, window: int, k: Key, e: Entry, i: Id)
    requires RoundOk(ms, r) && Agreeing(ms) && Merged(ms, k, e) && i in ms
    ensures Known(ms[i], k) == Some(e.content) ==>
            (k in After(ms, r, window)[i] <==> k in ms[i]) && (k in ms[i] ==> After(ms, r, window)[i][k] == ms[i][k])
    ensures Restamped(ms, After(ms, r, window), i, k) ==> Known(After(ms, r, window)[i], k) == Some(e.content)
  {
    EntryAfter(ms, r, window, i, k, e);
  }

  ghost predicate Restamped(ms: Mirrors, ms': Mirrors, i: Id, k: Key)
    requires i in ms && i in ms'
  {
    k in ms'[i] && !(k in ms[i] && ms'[i][k] == ms[i][k])
  }

  lemma {:induction false} SameInstances(run: seq<Mirrors>, rounds: seq<Round>, window: int, period: int, n: nat)
    requires IsRun(run, rounds, window, period) && n < |run|
    ensures run[n].Keys == run[0].Keys
  {
    if n > 0 {
      SameInstances(run, rounds, window, period, n - 1);
    }
  }

  /** One round of a run leaves an instance that shows the merged content as it is. */
  lemma {:induction false} SettledInRun(run: seq<Mirrors>, rounds: seq<Round>, window: int, period: int, k: Key,
    e: Entry, i: Id, m: nat)
    requires IsRun(run, rounds, window, period) && Agreeing(run[0]) && Merged(run[0], k, e) && i in run[0]
      && m < |rounds|
    ensures i in run[m] && i in run[m + 1]
    ensures Known(run[m][i], k) == Some(e.content) ==>
            (k in run[m + 1][i] <==> k in run[m][i]) && (k in run[m][i] ==> run[m + 1][i][k] == run[m][i][k])
  {
    hide Agreeing, Merged, Known, RoundOk, Covers, After;
    SameInstances(run, rounds, window, period, m);
    SameInstances(run, rounds, window, period, m + 1);
    ContentFixed(run, rounds, window, period, k, e, m);
    var d :| Merged(run[m], k, d) && d.content == e.content;
    SettledStep(run[m], rounds[m], window, k, d, i);
  }

  /** An instance that shows the merged content goes on showing it, with the same stamp. */
  lemma {:induction false} StaysSettled(run: seq<Mirrors>, rounds: seq<Round>, window: int, period: int, k: Key,
    e: Entry, i: Id, n: nat, m: nat)
    requires IsRun(run, rounds, window, period) && Agreeing(run[0]) && Merged(run[0], k, e) && i in run[0]
      && n <= m < |run|
    requires i in run[n] && i in run[m] && Known(run[n][i], k) == Some(e.content)
    ensures (k in run[m][i] <==> k in run[n][i]) && (k in run[m][i] ==> run[m][i][k] == run[n][i][k])
    decreases m - n
  {
    hide Agreeing, Merged, RoundOk, Covers, After;
    if n < m {
      SettledInRun(run, rounds, window, period, k, e, i, m - 1);
      StaysSettled(run, rounds, window, period, k, e, i, n, m - 1);
    }
  }

  /** Each instance restamps each key at most once. */
  lemma {:induction false} RestampsAtMostOnce(run: seq<Mirrors>, rounds: seq<Round>, window: int, period: int, k: Key,
    e: Entry, i: Id, n: nat, m: nat)
    requires IsRun(run, rounds, window, period) && Agreeing(run[0]) && Merged(run[0], k, e)
    requires n < m < |rounds| && i in run[n] && i in run[n + 1] && i in run[m] && i in run[m + 1]
    requires Restamped(run[n], run[n + 1], i, k)
    ensures !Restamped(run[m], run[m + 1], i, k)
  {
    SameInstances(run, rounds, window, period, n);
    ContentFixed(run, rounds, window, period, k, e, n);
    var d :| Merged(run[n], k, d) && d.content == e.content;
    SettledStep(run[n], rounds[n], window, k, d, i);
    StaysSettled(run, rounds, window, period, k, e, i, n + 1, m);
    StaysSettled(run, rounds, window, period, k, e, i, n + 1, m + 1);
  }

  /** The instances that do not yet show `content`. */
  ghost function Behind(ms: Mirrors, k: Key, content: Content): set<Id> {
    set i | i in ms && Known(ms[i], k) != Some(content)
  }

  /** A policy, or a backend entry inside the window, that reaches everybody is shown alike by everybody. */
  lemma {:induction false} DeliveredRoundAgrees(ms: Mirrors, r: Round, window: int, k: Key, e: Entry)
    requires RoundOk(ms, r) && Agreeing(ms) && Merged(ms, k, e)
    requires (k.PolicyKey? || r.now - e.ver <= window) && forall j :: j in ms ==> (j, k) in r.heard
    ensures forall i :: i in ms ==> Known(After(ms, r, window)[i], k) == Some(e.content)
    ensures Behind(After(ms, r, window), k, e.content) == {}
  {
    forall i | i in ms ensures Known(After(ms, r, window)[i], k) == Some(e.content) {
      DeliveredTo(ms, r, window, k, e, i);
    }
  }

  lemma {:induction false} DeliveredTo(ms: Mirrors, r: Round, window: int, k: Key, e: Entry, i: Id)
    requires RoundOk(ms, r) && Agreeing(ms) && Merged(ms, k, e) && i in ms
    requires (k.PolicyKey? || r.now - e.ver <= window) && (i, k) in r.heard
    ensures Known(After(ms, r, window)[i], k) == Some(e.content)
  {
    MergeAllIsMerged(ms, r.order, k);
    MergedUnique(ms, k, e, MergeAll(ms, r.order)[k]);
    assert Hears(ms, r, window, i, k);
  }

  ghost predicate Untouched(m: State, m': State, k: Key) { (k in m <==> k in m') && (k in m ==> m'[k] == m[k]) }

  /** A backend entry outside the window changes no mirror, whatever is heard; nor does a message that is lost. */
  lemma {:induction false} OutsideWindowUntouched(ms: Mirrors, r: Round, window: int, k: Key, e: Entry, i: Id)
    requires RoundOk(ms, r) && Agreeing(ms) && Merged(ms, k, e) && i in ms
    requires (k.BackendKey? && r.now - e.ver > window) || (i, k) !in r.heard
    ensures Untouched(ms[i], After(ms, r, window)[i], k)
  {
    MergeAllIsMerged(ms, r.order, k);
    MergedUnique(ms, k, e, MergeAll(ms, r.order)[k]);
    assert !Hears(ms, r, window, i, k);
  }

  /** One round inside the window that reaches everybody settles the key for the rest of the run. */
  lemma {:induction false} OneRoundSettles(run: seq<Mirrors>, rounds: seq<Round>, window: int, period: int, k: Key,
    e: Entry, n: nat, m: nat, i: Id)
    requires IsRun(run, rounds, window, period) && Agreeing(run[0]) && n < |rounds| && n < m < |run| && i in run[0]
    requires Merged(run[n], k, e) && (k.PolicyKey? || rounds[n].now - e.ver <= window)
    requires forall j :: j in run[n] ==> (j, k) in rounds[n].heard
    ensures i in run[m] && i in run[n + 1] && Known(run[m][i], k) == Some(e.content)
      && Untouched(run[n + 1][i], run[m][i], k)
  {
    hide Agreeing, Merged, RoundOk, Covers, After;
    SameInstances(run, rounds, window, period, n);
    SameInstances(run, rounds, window, period, n + 1);
    SameInstances(run, rounds, window, period, m);
    AgreeingThroughout(run, rounds, window, period, n);
    DeliveredTo(run[n], rounds[n], window, k, e, i);
    SettledFrom(run, rounds, window, period, k, e, i, n, m);
  }

  lemma {:induction false} AgreeingThroughout(run: seq<Mirrors>, rounds: seq<Round>, window: int, period: int, n: nat)
    requires IsRun(run, rounds, window, period) && Agreeing(run[0]) && n < |run|
    ensures Agreeing(run[n])
  {
    hide Agreeing, After;
    if n > 0 {
      AgreeingThroughout(run, rounds, window, period, n - 1);
      RoundKeepsAgreeing(run[n - 1], rounds[n - 1], window);
    }
  }

  /** From the merged entry of round `n` on. */
  lemma {:induction false} SettledFrom(run: seq<Mirrors>, rounds: seq<Round>, window: int, period: int, k: Key,
    e: Entry,
    i: Id, n: nat, m: nat)
    requires IsRun(run, rounds, window, period) && n < m < |run| && Agreeing(run[n]) && Merged(run[n], k, e)
    requires i in run[n] && i in run[n + 1] && i in run[m] && Known(run[n + 1][i], k) == Some(e.content)
    ensures Known(run[m][i], k) == Some(e.content) && Untouched(run[n + 1][i], run[m][i], k)
  {
    hide Agreeing, Merged, RoundOk, Covers, After;
    var r, s := run[n..], rounds[n..];
    SuffixIsRun(run, rounds, window, period, n);
    assert r[0] == run[n] && r[1] == run[n + 1] && r[m - n] == run[m];
    StaysSettled(r, s, window, period, k, e, i, 1, m - n);
  }

  lemma {:induction false} SuffixIsRun(run: seq<Mirrors>, rounds: seq<Round>, window: int, period: int, n: nat)
    requires IsRun(run, rounds, window, period) && n <= |rounds|
    ensures IsRun(run[n..], rounds[n..], window, period)
  {
    hide After;
    forall j | 0 <= j < |rounds[n..]|
      ensures RoundOk(run[n..][j], rounds[n..][j]) && run[n..][j + 1] == After(run[n..][j], rounds[n..][j], window)
    {
      assert run[n..][j] == run[n + j] && rounds[n..][j] == rounds[n + j] && run[n..][j + 1] == run[n + j + 1];
    }
    forall j | 0 < j < |rounds[n..]| ensures rounds[n..][j - 1].now + period <= rounds[n..][j].now {
      assert rounds[n..][j] == rounds[n + j] && rounds[n..][j - 1] == rounds[n + j - 1];
    }
  }

  // ---------------------------------------------------------------- the replay window is left

  ghost predicate Replays(ms: Mirrors, r: Round, window: int, k: Key) {
    Covers(ms, r.order) && k in MergeAll(ms, r.order) && Published(MergeAll(ms, r.order)[k], k, r.now, window)
  }

  ghost function CountReplays(run: seq<Mirrors>, rounds: seq<Round>, window: int, k: Key): nat
    requires |run| == |rounds| + 1
  {
    if rounds == [] then 0
    else (if Replays(run[0], rounds[0], window, k) then 1 else 0) + CountReplays(run[1..], rounds[1..], window, k)
  }

  /** How many rounds can still start inside the window of version `ver`, when the next is at `now`. */
  function RoundsLeft(ver: int, now: int, window: int, period: int): int
    requires period > 0
  {
    if now <= ver + window then (ver + window - now) / period + 1 else 0
  }

  lemma {:induction false} QuotientDrops(a: int, b: int, p: int)
    requires p > 0 && 0 <= b <= a - p
    ensures b / p <= a / p - 1
  {
    var q, r := a / p, b / p;
    assert a < p * (q + 1) && p * r <= b;
    assert p * (r + 1) == p * r + p;
    if r >= q {
      TimesGrows(p, q + 1, r + 1);
    }
  }

  lemma {:induction false} TimesGrows(p: int, a: int, b: int)
    requires p > 0 && a <= b
    ensures p * a <= p * b
  {
    assert p * (b - a) >= 0;
  }

  lemma {:induction false} OneRoundLess(ver: int, now: int, next: int, window: int, period: int)
    requires period > 0 && now + period <= next && now <= ver + window
    ensures RoundsLeft(ver, next, window, period) <= RoundsLeft(ver, now, window, period) - 1
  {
    if next <= ver + window {
      QuotientDrops(ver + window - now, ver + window - next, period);
    }
  }

  lemma {:induction false} QuotientGrows(a: int, b: int, p: int)
    requires p > 0 && 0 <= a <= b
    ensures a / p <= b / p
  {
    var q, r := a / p, b / p;
    assert p * q <= a && b < p * (r + 1);
    if r + 1 <= q {
      TimesGrows(p, r + 1, q);
    }
  }

  lemma {:induction false} RestartedWindow(ver: int, next: int, window: int, period: int)
    requires period > 0 && ver <= next && window >= 0
    ensures RoundsLeft(ver, next, window, period) <= window / period + 1
  {
    if next <= ver + window {
      QuotientGrows(ver + window - next, window, period);
    }
  }

  /** A round shrinks the set of instances that are behind, or leaves the key as it is. */
  lemma {:induction false} BehindShrinks(ms: Mirrors, r: Round, window: int, k: Key, e: Entry)
    requires RoundOk(ms, r) && Agreeing(ms) && Merged(ms, k, e)
    ensures var ms' := After(ms, r, window);
            if exists i :: i in ms && i in ms' && Restamped(ms, ms', i, k)
            then Replays(ms, r, window, k) && |Behind(ms', k, e.content)| < |Behind(ms, k, e.content)| &&
                 exists e' :: Merged(ms', k, e') && e'.content == e.content && r.now <= e'.ver
            else Merged(ms', k, e) && Behind(ms', k, e.content) == Behind(ms, k, e.content)
  {
    var ms': Mirrors := After(ms, r, window);
    var a, b := Behind(ms, k, e.content), Behind(ms', k, e.content);
    forall i | i in ms ensures Known(ms'[i], k) == Known(ms[i], k) || Known(ms'[i], k) == Some(e.content) {
      EntryAfter(ms, r, window, i, k, e);
    }
    assert b <= a;
    if i :| i in ms && Restamped(ms, ms', i, k) {
      EntryAfter(ms, r, window, i, k, e);
      assert i in a && i !in b;
      SubsetSize(b, a);
      MergedAfterRestamp(ms, r, window, k, e, i);
    } else {
      forall i | i in ms ensures k in ms'[i] <==> k in ms[i] {
        EntryAfter(ms, r, window, i, k, e);
      }
      assert b == a;
    }
  }

  lemma {:induction false} MergedAfterRestamp(ms: Mirrors, r: Round, window: int, k: Key, e: Entry, i: Id)
    requires RoundOk(ms, r) && Agreeing(ms) && Merged(ms, k, e) && i in ms && Restamped(ms, After(ms, r, window), i, k)
    ensures Replays(ms, r, window, k)
    ensures exists e' :: Merged(After(ms, r, window), k, e') && e'.content == e.content && r.now <= e'.ver
  {
    var e' := NewestRestamp(ms, r, window, k, e, i);
    assert Hears(ms, r, window, i, k);
  }

  /** A round that replays nothing for `k` leaves the replay window for good. */
  lemma {:induction false} NeverAgain(run: seq<Mirrors>, rounds: seq<Round>, window: int, period: int, k: Key, e: Entry)
    requires IsRun(run, rounds, window, period) && period > 0 && k.BackendKey? && Agreeing(run[0])
      && Merged(run[0], k, e)
    requires rounds != [] ==> rounds[0].now - e.ver > window
    ensures CountReplays(run, rounds, window, k) == 0
    decreases |rounds|
  {
    if rounds != [] {
      MergeAllIsMerged(run[0], rounds[0].order, k);
      MergedUnique(run[0], k, e, MergeAll(run[0], rounds[0].order)[k]);
      BehindShrinks(run[0], rounds[0], window, k, e);
      RoundKeepsAgreeing(run[0], rounds[0], window);
      TailIsRun(run, rounds, window, period);
      NeverAgain(run[1..], rounds[1..], window, period, k, e);
    }
  }

  lemma {:induction false} TailIsRun(run: seq<Mirrors>, rounds: seq<Round>, window: int, period: int)
    requires IsRun(run, rounds, window, period) && rounds != []
    ensures IsRun(run[1..], rounds[1..], window, period)
    ensures |rounds| > 1 ==> rounds[0].now + period <= rounds[1..][0].now
  {
    forall n | 0 <= n < |rounds[1..]|
      ensures RoundOk(run[1..][n], rounds[1..][n]) && run[1..][n + 1] == After(run[1..][n], rounds[1..][n], window)
    {
      assert run[1..][n] == run[n + 1] && rounds[1..][n] == rounds[n + 1] && run[1..][n + 1] == run[n + 2];
    }
    forall n | 0 < n < |rounds[1..]| ensures rounds[1..][n - 1].now + period <= rounds[1..][n].now {
      assert rounds[1..][n] == rounds[n + 1] && rounds[1..][n - 1] == rounds[n];
    }
    assert |rounds| > 1 ==> rounds[0].now + period <= rounds[1].now;
  }

  ghost function Budget(ms: Mirrors, k: Key, e: Entry, now: int, window: int, period: int): int
    requires period > 0 && window >= 0
  {
    |Behind(ms, k, e.content)| * (window / period + 1) + RoundsLeft(e.ver, now, window, period)
  }

  lemma {:induction false} FewerBehind(a: nat, b: nat, x: nat)
    requires a < b
    ensures a * (x + 1) + (x + 1) <= b * (x + 1)
  {
    assert a * (x + 1) + (x + 1) == (a + 1) * (x + 1);
    assert (a + 1) * (x + 1) <= b * (x + 1);
  }

  lemma {:induction false} RunHead(run: seq<Mirrors>, rounds: seq<Round>, window: int, period: int)
    requires IsRun(run, rounds, window, period) && rounds != []
    ensures |run| == |rounds| + 1 && RoundOk(run[0], rounds[0]) && Covers(run[0], rounds[0].order)
      && run[1] == After(run[0], rounds[0], window)
    ensures IsRun(run[1..], rounds[1..], window, period) && run[1..][0] == run[1]
    ensures |rounds| > 1 ==> rounds[0].now + period <= rounds[1..][0].now
  {
    TailIsRun(run, rounds, window, period);
  }

  lemma {:induction false} NothingToCount(run: seq<Mirrors>, window: int, k: Key)
    requires |run| == 1
    ensures CountReplays(run, [], window, k) == 0
  {
  }

  lemma {:induction false} BudgetAfterRestamp(ms: Mirrors, next: Mirrors, k: Key, e: Entry, e': Entry, now: int,
    later: int, window: int, period: int)
    requires period > 0 && window >= 0 && now + period <= later && now - e.ver <= window
    requires e'.content == e.content && e'.ver <= later && |Behind(next, k, e.content)| < |Behind(ms, k, e.content)|
    ensures 1 + Budget(next, k, e', later, window, period) <= Budget(ms, k, e, now, window, period)
  {
    hide Behind;
    RestartedWindow(e'.ver, later, window, period);
    assert RoundsLeft(e.ver, now, window, period) >= 1;
    FewerBehind(|Behind(next, k, e.content)|, |Behind(ms, k, e.content)|, window / period);
  }

  lemma {:induction false} BudgetAfterQuiet(ms: Mirrors, next: Mirrors, k: Key, e: Entry, now: int, later: int,
    window: int, period: int)
    requires period > 0 && window >= 0 && now + period <= later && now - e.ver <= window
    requires Behind(next, k, e.content) == Behind(ms, k, e.content)
    ensures 1 + Budget(next, k, e, later, window, period) <= Budget(ms, k, e, now, window, period)
  {
    hide Behind;
    OneRoundLess(e.ver, now, later, window, period);
  }

  lemma {:induction false} BudgetIsPositive(ms: Mirrors, k: Key, e: Entry, now: int, window: int, period: int)
    requires period > 0 && window >= 0
    ensures Budget(ms, k, e, now, window, period) >= if now - e.ver <= window then 1 else 0
  {
    hide Behind;
    var n, x := |Behind(ms, k, e.content)|, window / period + 1;
    assert n * x >= 0;
  }

  lemma {:induction false} CountFirst(run: seq<Mirrors>, rounds: seq<Round>, window: int, k: Key)
    requires |run| == |rounds| + 1 && rounds != []
    ensures CountReplays(run, rounds, window, k) <= 1 + CountReplays(run[1..], rounds[1..], window, k)
  {
  }

  lemma {:induction false} MergedBeforeRound(run: seq<Mirrors>, rounds: seq<Round>, window: int, period: int, k: Key,
    e: Entry)
    requires IsRun(run, rounds, window, period) && rounds != [] && Merged(run[0], k, e)
    ensures e.ver <= rounds[0].now
  {
    assert RoundOk(run[0], rounds[0]);
  }

  /** A backend entry is replayed only a bounded number of times; each instance that lags adds at most one window. */
  lemma {:induction false} ReplayIsBounded(run: seq<Mirrors>, rounds: seq<Round>, window: int, period: int, k: Key,
    e: Entry)
    requires IsRun(run, rounds, window, period) && period > 0 && window >= 0 && k.BackendKey? && Agreeing(run[0])
      && Merged(run[0], k, e)
    requires rounds != []
    ensures CountReplays(run, rounds, window, k) <= Budget(run[0], k, e, rounds[0].now, window, period)
    decreases |rounds|
  {
    hide IsRun, RoundOk, After, Merged, Agreeing, Behind, Replays, Covers, Restamped, MergeAll, CountReplays, Budget;
    RunHead(run, rounds, window, period);
    var ms, r, next := run[0], rounds[0], run[1];
    BudgetIsPositive(ms, k, e, r.now, window, period);
    if r.now - e.ver > window {
      NeverAgain(run, rounds, window, period, k, e);
    } else {
      BehindShrinks(ms, r, window, k, e);
      RoundKeepsAgreeing(ms, r, window);
      CountFirst(run, rounds, window, k);
      if |rounds| == 1 {
        assert rounds[1..] == [];
        NothingToCount(run[1..], window, k);
      } else if exists i :: i in ms && i in next && Restamped(ms, next, i, k) {
        var e' :| Merged(next, k, e') && e'.content == e.content && r.now <= e'.ver;
        MergedBeforeRound(run[1..], rounds[1..], window, period, k, e');
        ReplayIsBounded(run[1..], rounds[1..], window, period, k, e');
        BudgetAfterRestamp(ms, next, k, e, e', r.now, rounds[1..][0].now, window, period);
      } else {
        ReplayIsBounded(run[1..], rounds[1..], window, period, k, e);
        BudgetAfterQuiet(ms, next, k, e, r.now, rounds[1..][0].now, window, period);
      }
    }
  }
}
