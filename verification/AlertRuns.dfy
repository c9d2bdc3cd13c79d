/** What every run of the alert engine and the dedupe window guarantees. */
module AlertRuns {
  import opened Options
  import opened Alerts

  // ---- the dedupe window, for any sequence of sends --------------------------------------------

  ghost predicate PassesAs(window: int, sends: seq<Option<Sent>>, i: nat, dk: string, status: Status) {
    i < |sends| && Passes(window, sends, i)
    && DedupeKey(sends[i].value.event) == dk && sends[i].value.event.status == status
  }

  /** A firing that passed at `i` and was not resolved before `n`. */
  ghost predicate Open(window: int, sends: seq<Option<Sent>>, n: nat, dk: string, i: nat) {
    i < n <= |sends| && PassesAs(window, sends, i, dk, Firing)
    && forall m :: i < m < n ==> !PassesAs(window, sends, m, dk, Resolved)
  }

  lemma {:induction false} OpenNext(window: int, sends: seq<Option<Sent>>, n: nat, dk: string, i: nat)
    requires n < |sends|
    ensures Open(window, sends, n + 1, dk, i) <==>
      || (i == n && PassesAs(window, sends, n, dk, Firing))
      || (Open(window, sends, n, dk, i) && !PassesAs(window, sends, n, dk, Resolved))
  {
  }

  /** The map holds the newest open firing of each key, and the older open ones lie a window or more back. */
  lemma {:induction false} DedupeMeans(window: int, sends: seq<Option<Sent>>, n: nat, dk: string)
    returns (j: Option<nat>)
    requires window > 0 && n <= |sends|
    ensures j.Some? <==> dk in DedupeAt(window, sends, n)
    ensures j.None? ==> forall i: nat :: !Open(window, sends, n, dk, i)
    ensures j.Some? ==>
      && Open(window, sends, n, dk, j.value)
      && sends[j.value].value.at == DedupeAt(window, sends, n)[dk]
      && forall i: nat :: Open(window, sends, n, dk, i) && i != j.value ==>
           sends[j.value].value.at - sends[i].value.at >= window
  {
    if n == 0 {
      return None;
    }
    j := DedupeMeans(window, sends, n - 1, dk);
    forall i: nat ensures Open(window, sends, n, dk, i) <==>
      || (i == n - 1 && PassesAs(window, sends, n - 1, dk, Firing))
      || (Open(window, sends, n - 1, dk, i) && !PassesAs(window, sends, n - 1, dk, Resolved))
    {
      OpenNext(window, sends, n - 1, dk, i);
    }
    if PassesAs(window, sends, n - 1, dk, Firing) {
      j := Some(n - 1);
    } else if PassesAs(window, sends, n - 1, dk, Resolved) {
      j := None;
    }
  }

  /** A firing is withheld exactly when an unresolved one passed less than a window earlier. */
  lemma {:induction false} WithheldIff(window: int, sends: seq<Option<Sent>>, i: nat)
    requires window > 0 && i < |sends| && sends[i].Some? && sends[i].value.event.status == Firing
    ensures !Passes(window, sends, i) <==>
      exists j: nat :: Open(window, sends, i, DedupeKey(sends[i].value.event), j)
        && sends[i].value.at - sends[j].value.at < window
  {
    var j := DedupeMeans(window, sends, i, DedupeKey(sends[i].value.event));
  }

  /** Two firings that passed with no resolved between them are at least a window apart. */
  lemma {:induction false} FiringsAreAWindowApart(window: int, sends: seq<Option<Sent>>, i: nat, j: nat, dk: string)
    requires window > 0 && i < j
    requires PassesAs(window, sends, i, dk, Firing) && PassesAs(window, sends, j, dk, Firing)
    requires forall m :: i < m < j ==> !PassesAs(window, sends, m, dk, Resolved)
    ensures sends[j].value.at - sends[i].value.at >= window
  {
    assert Open(window, sends, j, dk, i);
    WithheldIff(window, sends, j);
  }

  lemma {:induction false} OnlyFiringsAreWithheld(window: int, sends: seq<Option<Sent>>, i: nat)
    requires i < |sends| && sends[i].Some? && (window <= 0 || sends[i].value.event.status != Firing)
    ensures Passes(window, sends, i)
  {
  }

  // ---- the engine's map ------------------------------------------------------------------------

  predicate Evaluates(a: Action, k: string, v: bool) {
    a.Eval? && StateKey(a.rule.name, a.instance) == k && a.outcome == Value(v)
  }

  predicate Breaks(a: Action, k: string) { a.Reset? || Evaluates(a, k, false) }

  /** True at `j`, and since then neither a false evaluation nor a reset. */
  ghost predicate Unbroken(acts: seq<Action>, n: nat, k: string, j: nat) {
    j < n <= |acts| && Evaluates(acts[j], k, true) && forall m :: j < m < n ==> !Breaks(acts[m], k)
  }

  /** The first of these: where the current stretch began. */
  ghost predicate Began(acts: seq<Action>, n: nat, k: string, j: nat) {
    Unbroken(acts, n, k, j) && forall i: nat :: i < j ==> !Unbroken(acts, n, k, i)
  }

  ghost predicate NoneBegan(acts: seq<Action>, n: nat, k: string) {
    forall i: nat :: !Unbroken(acts, n, k, i)
  }

  /** At `i` the stretch begun at `j` had lasted long enough. */
  ghost predicate Held(acts: seq<Action>, k: string, j: nat, i: nat) {
    j <= i < |acts| && Evaluates(acts[j], k, true) && Evaluates(acts[i], k, true)
    && acts[i].now - acts[j].now >= acts[i].rule.hold
  }

  ghost predicate Lasted(acts: seq<Action>, n: nat, k: string, j: nat) {
    exists i: nat :: i < n && Held(acts, k, j, i)
  }

  lemma {:induction false} UnbrokenNext(acts: seq<Action>, n: nat, k: string, i: nat)
    requires n < |acts|
    ensures Unbroken(acts, n + 1, k, i) <==>
      (i == n && Evaluates(acts[n], k, true)) || (Unbroken(acts, n, k, i) && !Breaks(acts[n], k))
  {
  }

  lemma {:induction false} BeganNext(acts: seq<Action>, n: nat, k: string, j: Option<nat>) returns (j': Option<nat>)
    requires n < |acts|
    requires j.Some? ==> Began(acts, n, k, j.value)
    requires j.None? ==> NoneBegan(acts, n, k)
    ensures j' == if Breaks(acts[n], k) then None else if j.None? && Evaluates(acts[n], k, true) then Some(n) else j
    ensures j'.Some? ==> Began(acts, n + 1, k, j'.value)
    ensures j'.None? ==> NoneBegan(acts, n + 1, k)
  {
    var e := n + 1;
    forall i: nat ensures Unbroken(acts, e, k, i) <==>
      (i == n && Evaluates(acts[n], k, true)) || (Unbroken(acts, n, k, i) && !Breaks(acts[n], k))
    {
      UnbrokenNext(acts, n, k, i);
    }
    j' := if Breaks(acts[n], k) then None else if j.None? && Evaluates(acts[n], k, true) then Some(n) else j;
  }

  lemma {:induction false} BeganTrue(acts: seq<Action>, n: nat, k: string, j: nat)
    requires Began(acts, n, k, j)
    ensures j < n <= |acts| && Evaluates(acts[j], k, true)
  {
  }

  lemma {:induction false} LastedNext(acts: seq<Action>, n: nat, k: string, j: nat)
    requires n < |acts|
    ensures Lasted(acts, n + 1, k, j) <==> Lasted(acts, n, k, j) || Held(acts, k, j, n)
  {
    if Held(acts, k, j, n) {
      assert Lasted(acts, n + 1, k, j);
    }
  }

  ghost predicate Describes(acts: seq<Action>, n: nat, k: string, j: Option<nat>, a: Option<Alert>) {
    && (j.Some? <==> a.Some?)
    && (j.None? ==> NoneBegan(acts, n, k))
    && (j.Some? ==>
          && Began(acts, n, k, j.value)
          && a.value.since == acts[j.value].now
          && (a.value.firing <==> Lasted(acts, n, k, j.value))
          && (a.value.firing ==> NotifiedLate(acts, n, k, j.value, a.value.notified)))
  }

  ghost predicate NotifiedLate(acts: seq<Action>, n: nat, k: string, j: nat, t: int) {
    exists i: nat :: i < n && Held(acts, k, j, i) && acts[i].now <= t
  }

  /** An alert exists exactly while a stretch is unbroken, started with it, and fires exactly once it lasted. */
  lemma {:induction false} StateMeans(acts: seq<Action>, n: nat, k: string) returns (j: Option<nat>)
    requires n <= |acts|
    ensures Describes(acts, n, k, j, Find(StatesAt(acts, n), k))
  {
    if n == 0 {
      return None;
    }
    var i := StateMeans(acts, n - 1, k);
    j := DescribesNext(acts, n - 1, k, i, StatesAt(acts, n - 1));
  }

  lemma {:induction false} DescribesNext(acts: seq<Action>, n: nat, k: string, i: Option<nat>,
    states: map<string, Alert>)
    returns (j: Option<nat>)
    requires n < |acts| && Describes(acts, n, k, i, Find(states, k))
    ensures Describes(acts, n + 1, k, j, Find(NextStates(states, acts[n]), k))
  {
    hide Unbroken, Began, NoneBegan;
    j := BeganNext(acts, n, k, i);
    if j.Some? {
      LastedNext(acts, n, k, j.value);
      BeganTrue(acts, n + 1, k, j.value);
      assert i.None? ==> j.value == n && !Lasted(acts, n, k, n);
      var a, b := Find(states, k), Find(NextStates(states, acts[n]), k);
      if b.value.firing {
        if Held(acts, k, j.value, n) && b.value.notified == acts[n].now {
          assert NotifiedLate(acts, n + 1, k, j.value, b.value.notified);
        } else {
          assert a.Some? && i == j;
          assert a.value.firing;
          assert NotifiedLate(acts, n, k, j.value, a.value.notified);
          var m: nat :| m < n && Held(acts, k, j.value, m) && acts[m].now <= a.value.notified;
          assert NotifiedLate(acts, n + 1, k, j.value, b.value.notified);
        }
      }
    }
  }

  ghost predicate FiresAt(acts: seq<Action>, i: nat) {
    i < |acts| && acts[i].Eval? && Raw(acts, i).Some? && Raw(acts, i).value.event.status == Firing
  }

  /** Every firing: some evaluation of its stretch, no later than it, had been preceded by `hold` of truth. */
  lemma {:induction false} FiringWasHeld(acts: seq<Action>, i: nat) returns (j: nat, m: nat)
    requires FiresAt(acts, i)
    ensures j <= m <= i
    ensures var k := StateKey(acts[i].rule.name, acts[i].instance);
      Unbroken(acts, i + 1, k, j) && Held(acts, k, j, m) && acts[m].now <= acts[i].now
  {
    var k := StateKey(acts[i].rule.name, acts[i].instance);
    var b := StateMeans(acts, i + 1, k);
    j := b.value;
    m :| m < i + 1 && Held(acts, k, j, m) && acts[m].now <= acts[i].now;
  }
}
