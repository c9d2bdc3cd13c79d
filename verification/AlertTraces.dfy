/**
 * The trace of alert events that got past the dedupe window.  The engine files alerts under
 * "rule|instance", so what is promised per rule and instance depends on that key being theirs alone.
 */
module AlertTraces {
  import opened Options
  import opened Alerts
  import opened AlertRuns

  /** The other senders use their own, bar-free type names. */
  ghost predicate WellFormed(acts: seq<Action>) {
    forall i :: 0 <= i < |acts| && acts[i].Other? ==>
      acts[i].sent.event.kind != AlertKind && '|' !in acts[i].sent.event.kind
  }

  // ---- keys ------------------------------------------------------------------------------------

  lemma {:induction false} SplitAtBar(a: string, b: string, c: string, d: string)
    requires '|' !in a && '|' !in c && a + "|" + b == c + "|" + d
    ensures a == c && b == d
  {
    var s := a + "|" + b;
    assert s[|a|] == '|' && s[|c|] == '|';
    assert forall m | 0 <= m < |c| :: s[m] == c[m];
    assert forall m | 0 <= m < |a| :: s[m] == a[m];
    assert a == s[..|a|] && c == s[..|c|];
    assert b == s[|a| + 1..] && d == s[|c| + 1..];
  }

  function AlertKey(k: string): (dk: string) { AlertKind + "|" + k }

  lemma {:induction false} KeyParts(e: Event, k: string)
    requires '|' !in e.kind && DedupeKey(e) == AlertKey(k)
    ensures e.kind == AlertKind && StateKey(e.rule, e.instance) == k
  {
    assert DedupeKey(e) == e.kind + "|" + StateKey(e.rule, e.instance);
    SplitAtBar(e.kind, StateKey(e.rule, e.instance), AlertKind, k);
  }

  lemma {:induction false} KeyWhole(e: Event)
    requires e.kind == AlertKind
    ensures DedupeKey(e) == AlertKey(StateKey(e.rule, e.instance))
  {
    assert e.kind + "|" + e.rule + "|" + e.instance == e.kind + "|" + (e.rule + "|" + e.instance);
  }

  /** An event with an alert's dedupe key was sent by an evaluation under that alert's key. */
  lemma {:induction false} SentByEval(acts: seq<Action>, i: nat, k: string)
    requires WellFormed(acts) && i < |acts| && Raw(acts, i).Some? && DedupeKey(Raw(acts, i).value.event) == AlertKey(k)
    ensures acts[i].Eval? && StateKey(acts[i].rule.name, acts[i].instance) == k
  {
    KeyParts(Raw(acts, i).value.event, k);
  }

  // ---- resolved follows firing -------------------------------------------------------------------

  /** While an alert fires, a firing of its key has passed and has not been resolved. */
  lemma {:induction false} FiringIsOpen(window: int, acts: seq<Action>, n: nat, k: string) returns (j: nat)
    requires WellFormed(acts) && n <= |acts|
    requires k in StatesAt(acts, n) && StatesAt(acts, n)[k].firing
    ensures Open(window, Sends(acts), n, AlertKey(k), j)
  {
    hide Open, PassesAs;
    var sends, m, dk := Sends(acts), n - 1, AlertKey(k);
    var before := StatesAt(acts, m);
    if k in before && before[k].firing {
      j := FiringIsOpen(window, acts, m, k);
      if PassesAs(window, sends, m, dk, Resolved) {
        NotResolvedYet(window, acts, m, k);
      }
    } else {
      j := JustFired(window, acts, m, k);
    }
    OpenNext(window, sends, m, dk, j);
  }

  lemma {:induction false} NotResolvedYet(window: int, acts: seq<Action>, m: nat, k: string)
    requires WellFormed(acts) && m < |acts| && PassesAs(window, Sends(acts), m, AlertKey(k), Resolved)
    ensures k !in StatesAt(acts, m + 1)
  {
    SentByEval(acts, m, k);
  }

  /** The first firing of an alert either passes or was withheld because an earlier one is still open. */
  lemma {:induction false} JustFired(window: int, acts: seq<Action>, m: nat, k: string) returns (j: nat)
    requires WellFormed(acts) && m < |acts|
    requires var s := StatesAt(acts, m); !(k in s && s[k].firing)
    requires var s := StatesAt(acts, m + 1); k in s && s[k].firing
    ensures (j == m && PassesAs(window, Sends(acts), m, AlertKey(k), Firing))
      || (Open(window, Sends(acts), m, AlertKey(k), j) && !PassesAs(window, Sends(acts), m, AlertKey(k), Resolved))
  {
    var sends, a := Sends(acts), acts[m];
    var e := Event(AlertKind, a.rule.name, a.instance, Firing);
    assert sends[m] == Some(Sent(e, a.at)) && StateKey(a.rule.name, a.instance) == k;
    KeyWhole(e);
    if Passes(window, sends, m) {
      j := m;
    } else {
      var w := DedupeMeans(window, sends, m, AlertKey(k));
      j := w.value;
    }
  }

  ghost predicate ResolvesAt(acts: seq<Action>, i: nat) {
    i < |acts| && acts[i].Eval? && Raw(acts, i).Some? && Raw(acts, i).value.event.status == Resolved
  }

  /** Every resolved passes, and a firing of its key has passed since the previous resolved. */
  lemma {:induction false} ResolvedFollowsFiring(window: int, acts: seq<Action>, i: nat) returns (j: nat)
    requires WellFormed(acts) && ResolvesAt(acts, i)
    ensures Passes(window, Sends(acts), i)
    ensures Open(window, Sends(acts), i, AlertKey(StateKey(acts[i].rule.name, acts[i].instance)), j)
  {
    OnlyFiringsAreWithheld(window, Sends(acts), i);
    j := FiringIsOpen(window, acts, i, StateKey(acts[i].rule.name, acts[i].instance));
  }

  // ---- repeats -----------------------------------------------------------------------------------

  lemma {:induction false} StaysNotified(acts: seq<Action>, i: nat, n: nat)
    requires FiresAt(acts, i) && i < n <= |acts|
    requires forall m :: i < m < n ==> !Breaks(acts[m], StateKey(acts[i].rule.name, acts[i].instance))
    ensures var k := StateKey(acts[i].rule.name, acts[i].instance);
      k in StatesAt(acts, n) && StatesAt(acts, n)[k].firing && StatesAt(acts, n)[k].notified >= acts[i].now
    decreases n
  {
    if i + 1 < n {
      StaysNotified(acts, i, n - 1);
    }
  }

  /**
   Within one unbroken stretch a second firing needs a positive repeat interval and comes at least that much
   later.
   */
  lemma {:induction false} RepeatsAreSpaced(acts: seq<Action>, i: nat, j: nat)
    requires FiresAt(acts, i) && FiresAt(acts, j) && i < j
    requires StateKey(acts[i].rule.name, acts[i].instance) == StateKey(acts[j].rule.name, acts[j].instance)
    requires forall m :: i < m < j ==> !Breaks(acts[m], StateKey(acts[i].rule.name, acts[i].instance))
    ensures acts[j].rule.repeat > 0 && acts[j].now - acts[i].now >= acts[j].rule.repeat
  {
    StaysNotified(acts, i, j);
  }

  // ---- per rule and instance -----------------------------------------------------------------------

  /** Rules and the instances they are evaluated on; rule names are unique. */
  ghost predicate Catalogue(pairs: set<(Rule, string)>) {
    forall p, q | p in pairs && q in pairs && p.0.name == q.0.name :: p.0 == q.0
  }

  ghost predicate Over(pairs: set<(Rule, string)>, acts: seq<Action>) {
    WellFormed(acts) && forall i :: 0 <= i < |acts| && acts[i].Eval? ==> (acts[i].rule, acts[i].instance) in pairs
  }

  /** One clock that never goes back: evaluating and sending take no time. */
  ghost predicate Clocked(acts: seq<Action>) {
    && (forall i :: 0 <= i < |acts| && acts[i].Eval? ==> acts[i].at == acts[i].now)
    && (forall i, j :: 0 <= i < j < |acts| && acts[i].Eval? && acts[j].Eval? ==> acts[i].now <= acts[j].now)
  }

  predicate Collides(p: (Rule, string), q: (Rule, string)) {
    p != q && StateKey(p.0.name, p.1) == StateKey(q.0.name, q.1)
  }

  predicate EvalOf(a: Action, p: (Rule, string)) { a.Eval? && (a.rule, a.instance) == p }

  /** The documented promise: true at some `j` at least `hold` ago, and since then never false and no reset. */
  ghost predicate TrueFor(acts: seq<Action>, i: nat, p: (Rule, string)) {
    exists j: nat :: j <= i < |acts| && TrueSince(acts, i, p, j)
  }

  ghost predicate TrueSince(acts: seq<Action>, i: nat, p: (Rule, string), j: nat) {
    j <= i < |acts| && EvalOf(acts[i], p) && EvalOf(acts[j], p) && acts[j].outcome == Value(true)
    && acts[i].now - acts[j].now >= p.0.hold
    && forall m :: j < m <= i ==> !acts[m].Reset? && (EvalOf(acts[m], p) ==> acts[m].outcome != Value(false))
  }

  ghost predicate HoldsFor(pairs: set<(Rule, string)>, p: (Rule, string)) {
    forall acts, i: nat | Over(pairs, acts) && FiresAt(acts, i) && EvalOf(acts[i], p) :: TrueFor(acts, i, p)
  }

  /** Exactly when the promise holds in every run. */
  predicate Steady(pairs: set<(Rule, string)>, p: (Rule, string)) {
    p.0.hold <= 0 || forall q | q in pairs && Collides(p, q) :: q.0.hold <= 0 && p.0.repeat <= 0
  }

  lemma {:induction false} SteadySuffices(pairs: set<(Rule, string)>, p: (Rule, string), acts: seq<Action>, i: nat)
    requires Steady(pairs, p) && Over(pairs, acts) && FiresAt(acts, i) && EvalOf(acts[i], p)
    ensures TrueFor(acts, i, p)
  {
    var k := StateKey(p.0.name, p.1);
    if p.0.hold <= 0 {
      assert TrueSince(acts, i, p, i);
    } else if exists q :: q in pairs && Collides(p, q) {
      var b := StateMeans(acts, i, k);
      var j := b.value;
      BeganTrue(acts, i, k, j);
      assert acts[j].rule.hold > 0 by {
        if acts[j].rule.hold <= 0 {
          assert Held(acts, k, j, j);
        }
      }
      assert (acts[j].rule, acts[j].instance) in pairs;
      assert TrueSince(acts, i, p, j);
    } else {
      var j, m := FiringWasHeld(acts, i);
      assert (acts[j].rule, acts[j].instance) in pairs && (acts[m].rule, acts[m].instance) in pairs;
      assert TrueSince(acts, i, p, j);
    }
  }

  lemma {:induction false} SteadyIsNeeded(pairs: set<(Rule, string)>, p: (Rule, string), q: (Rule, string))
    returns (acts: seq<Action>)
    requires p in pairs && q in pairs && Collides(p, q)
    requires p.0.hold > 0 && (q.0.hold > 0 || p.0.repeat > 0)
    ensures |acts| == 2 && Clocked(acts) && Over(pairs, acts) && FiresAt(acts, 1) && EvalOf(acts[1], p)
      && !TrueFor(acts, 1, p)
  {
    var t := if q.0.hold > 0 then p.0.hold else p.0.repeat;
    acts := [Eval(q.0, q.1, Value(true), 0, 0), Eval(p.0, p.1, Value(true), t, t)];
    var k := StateKey(p.0.name, p.1);
    assert StatesAt(acts, 0) == map[];
    assert StatesAt(acts, 1) == map[k := Alert(0, q.0.hold <= 0, 0)];
    assert !TrueSince(acts, 1, p, 0) && !TrueSince(acts, 1, p, 1);
  }

  lemma {:induction false} FiringHeldIff(pairs: set<(Rule, string)>, p: (Rule, string))
    requires p in pairs
    ensures HoldsFor(pairs, p) <==> Steady(pairs, p)
  {
    if Steady(pairs, p) {
      forall acts, i: nat | Over(pairs, acts) && FiresAt(acts, i) && EvalOf(acts[i], p)
        ensures TrueFor(acts, i, p)
      {
        SteadySuffices(pairs, p, acts, i);
      }
    } else {
      var q :| q in pairs && Collides(p, q) && (q.0.hold > 0 || p.0.repeat > 0);
      var acts := SteadyIsNeeded(pairs, p, q);
    }
  }

  ghost predicate Shows(window: int, acts: seq<Action>, i: nat, p: (Rule, string), s: Status) {
    i < |acts| && PassedAt(window, Sends(acts), i) == Some(Event(AlertKind, p.0.name, p.1, s))
  }

  /** A firing shown at `j` and not yet followed by a resolved. */
  ghost predicate Pending(window: int, acts: seq<Action>, i: nat, p: (Rule, string), j: nat) {
    j < i <= |acts| && Shows(window, acts, j, p, Firing) && forall m :: j < m < i ==>
      !Shows(window, acts, m, p, Resolved)
  }

  ghost predicate Announced(window: int, acts: seq<Action>, i: nat, p: (Rule, string)) {
    exists j: nat :: Pending(window, acts, i, p, j)
  }

  ghost predicate AlwaysAnnounced(window: int, pairs: set<(Rule, string)>, p: (Rule, string)) {
    forall acts, i: nat | Over(pairs, acts) && Shows(window, acts, i, p, Resolved) :: Announced(window, acts, i, p)
  }

  predicate Alone(pairs: set<(Rule, string)>, p: (Rule, string)) { forall q | q in pairs :: !Collides(p, q) }

  lemma {:induction false} ShownIff(window: int, pairs: set<(Rule, string)>, p: (Rule, string), acts: seq<Action>,
    i: nat, s: Status)
    requires p in pairs && Catalogue(pairs) && Alone(pairs, p) && Over(pairs, acts) && i < |acts|
    ensures Shows(window, acts, i, p, s) <==> PassesAs(window, Sends(acts), i, AlertKey(StateKey(p.0.name, p.1)), s)
  {
    var k := StateKey(p.0.name, p.1);
    if Shows(window, acts, i, p, s) {
      KeyWhole(Event(AlertKind, p.0.name, p.1, s));
    }
    if PassesAs(window, Sends(acts), i, AlertKey(k), s) {
      SentByEval(acts, i, k);
      assert (acts[i].rule, acts[i].instance) in pairs;
    }
  }

  lemma {:induction false} AnnouncedWhenAlone(window: int, pairs: set<(Rule, string)>, p: (Rule, string),
    acts: seq<Action>, i: nat)
    requires p in pairs && Catalogue(pairs) && Alone(pairs, p) && Over(pairs, acts)
      && Shows(window, acts, i, p, Resolved)
    ensures Announced(window, acts, i, p)
  {
    hide Shows, PassesAs;
    var k := StateKey(p.0.name, p.1);
    ShownByEval(window, pairs, p, acts, i, Resolved);
    var j := ResolvedFollowsFiring(window, acts, i);
    forall m: nat | m < i, s
      ensures Shows(window, acts, m, p, s) <==> PassesAs(window, Sends(acts), m, AlertKey(k), s)
    {
      ShownIff(window, pairs, p, acts, m, s);
    }
    assert Pending(window, acts, i, p, j);
  }

  lemma {:induction false} ShownByEval(window: int, pairs: set<(Rule, string)>, p: (Rule, string), acts: seq<Action>,
    i: nat, s: Status)
    requires Over(pairs, acts) && Shows(window, acts, i, p, s)
    ensures i < |acts| && acts[i].Eval? && acts[i].rule.name == p.0.name && acts[i].instance == p.1
    ensures Raw(acts, i) == Some(Sent(Event(AlertKind, p.0.name, p.1, s), acts[i].at))
  {
  }

  lemma {:induction false} SameInstance(rule: string, a: string, b: string)
    requires StateKey(rule, a) == StateKey(rule, b)
    ensures a == b
  {
    assert StateKey(rule, a)[|rule| + 1..] == a && StateKey(rule, b)[|rule| + 1..] == b;
  }

  lemma {:induction false} CollisionUnannounced(window: int, pairs: set<(Rule, string)>, p: (Rule, string),
    q: (Rule, string))
    returns (acts: seq<Action>)
    requires p in pairs && q in pairs && Catalogue(pairs) && Collides(p, q)
    ensures |acts| == 3 && Clocked(acts) && Over(pairs, acts)
    ensures Shows(window, acts, 2, p, Resolved) && !Announced(window, acts, 2, p)
  {
    var t := if q.0.hold > 0 then q.0.hold else 0;
    acts := [Eval(q.0, q.1, Value(true), 0, 0), Eval(q.0, q.1, Value(true), t, t), Eval(p.0, p.1, Value(false), t, t)];
    var k := StateKey(p.0.name, p.1);
    if q.0.name == p.0.name {
      SameInstance(p.0.name, p.1, q.1);
    }
    assert StatesAt(acts, 0) == map[];
    assert StatesAt(acts, 1) == map[k := Alert(0, q.0.hold <= 0, 0)];
    assert k in StatesAt(acts, 2) && StatesAt(acts, 2)[k].firing;
    OnlyFiringsAreWithheld(window, Sends(acts), 2);
    forall j: nat | j < 2 ensures !Shows(window, acts, j, p, Firing) {
    }
  }

  /** Resolved-after-firing holds per rule and instance exactly when no other pair has the same key. */
  lemma {:induction false} AnnouncedIff(window: int, pairs: set<(Rule, string)>, p: (Rule, string))
    requires p in pairs && Catalogue(pairs)
    ensures AlwaysAnnounced(window, pairs, p) <==> Alone(pairs, p)
  {
    if Alone(pairs, p) {
      forall acts, i: nat | Over(pairs, acts) && Shows(window, acts, i, p, Resolved)
        ensures Announced(window, acts, i, p)
      {
        AnnouncedWhenAlone(window, pairs, p, acts, i);
      }
    } else {
      var q :| q in pairs && Collides(p, q);
      var acts := CollisionUnannounced(window, pairs, p, q);
    }
  }

  /** Two shown firings of an unshared key with no resolved between them are at least a window apart. */
  lemma {:induction false} ShownFiringsApart(window: int, pairs: set<(Rule, string)>, p: (Rule, string),
    acts: seq<Action>, i: nat, j: nat)
    requires window > 0 && p in pairs && Catalogue(pairs) && Alone(pairs, p) && Over(pairs, acts)
    requires Pending(window, acts, j, p, i) && Shows(window, acts, j, p, Firing)
    ensures j < |acts|
    ensures acts[i].Eval? && acts[j].Eval? && acts[j].at - acts[i].at >= window
  {
    hide Shows, PassesAs;
    var k := StateKey(p.0.name, p.1);
    ShownByEval(window, pairs, p, acts, i, Firing);
    ShownByEval(window, pairs, p, acts, j, Firing);
    forall m: nat | m <= j, s
      ensures Shows(window, acts, m, p, s) <==> PassesAs(window, Sends(acts), m, AlertKey(k), s)
    {
      ShownIff(window, pairs, p, acts, m, s);
    }
    FiringsAreAWindowApart(window, Sends(acts), i, j, AlertKey(k));
  }

  ghost predicate ApartAt(window: int, acts: seq<Action>, i: nat, j: nat) {
    i < |acts| && j < |acts| && acts[i].Eval? && acts[j].Eval? && acts[j].at - acts[i].at >= window
  }

  ghost predicate ShownTwice(window: int, pairs: set<(Rule, string)>, p: (Rule, string), acts: seq<Action>, i: nat,
    j: nat) {
    Over(pairs, acts) && Clocked(acts) && Pending(window, acts, j, p, i) && Shows(window, acts, j, p, Firing)
  }

  ghost predicate AlwaysApart(window: int, pairs: set<(Rule, string)>, p: (Rule, string)) {
    forall acts, i: nat, j: nat | ShownTwice(window, pairs, p, acts, i, j) :: ApartAt(window, acts, i, j)
  }

  lemma {:induction false} ShownPasses(window: int, pairs: set<(Rule, string)>, p: (Rule, string), acts: seq<Action>,
    i: nat, s: Status)
    requires Over(pairs, acts) && Shows(window, acts, i, p, s)
    ensures PassesAs(window, Sends(acts), i, AlertKey(StateKey(p.0.name, p.1)), s)
  {
    KeyWhole(Event(AlertKind, p.0.name, p.1, s));
  }

  /**
   Another pair's resolved came in between, and nothing is open: the alert has been pending for a whole hold
   since.
   */
  lemma {:induction false} RestartTakesAHold(window: int, pairs: set<(Rule, string)>, p: (Rule, string),
    acts: seq<Action>, m: nat, j: nat)
    requires window > 0 && p.0.hold > 0 && Over(pairs, acts) && Shows(window, acts, j, p, Firing) && m < j
    requires EvalOf(acts[j], p) && PassesAs(window, Sends(acts), m, AlertKey(StateKey(p.0.name, p.1)), Resolved)
    requires forall g: nat :: !Open(window, Sends(acts), j, AlertKey(StateKey(p.0.name, p.1)), g)
    ensures exists b: nat :: m < b < j && acts[b].Eval? && acts[j].now - acts[b].now >= p.0.hold
  {
    hide Open, PassesAs;
    var k := StateKey(p.0.name, p.1);
    ShownByEval(window, pairs, p, acts, j, Firing);
    NotResolvedBefore(window, acts, m, k);
    if k in StatesAt(acts, j) && StatesAt(acts, j)[k].firing {
      var g := FiringIsOpen(window, acts, j, k);
    }
    var b := StateMeans(acts, j, k);
    assert Find(StatesAt(acts, j), k).Some?;
    BeganTrue(acts, j, k, b.value);
    assert m < b.value;
  }

  lemma {:induction false} NotResolvedBefore(window: int, acts: seq<Action>, m: nat, k: string)
    requires WellFormed(acts) && PassesAs(window, Sends(acts), m, AlertKey(k), Resolved)
    ensures m < |acts| && Breaks(acts[m], k)
  {
    SentByEval(acts, m, k);
  }

  /** With a hold no shorter than the window, firings stay apart even under a shared key. */
  lemma {:induction false} LongHoldKeepsApart(window: int, pairs: set<(Rule, string)>, p: (Rule, string),
    acts: seq<Action>, i: nat, j: nat)
    requires window > 0 && p in pairs && Catalogue(pairs) && p.0.hold >= window
      && ShownTwice(window, pairs, p, acts, i, j)
    ensures ApartAt(window, acts, i, j)
  {
    hide Shows, PassesAs;
    var sends, dk := Sends(acts), AlertKey(StateKey(p.0.name, p.1));
    ShownByEval(window, pairs, p, acts, i, Firing);
    ShownByEval(window, pairs, p, acts, j, Firing);
    ShownPasses(window, pairs, p, acts, i, Firing);
    ShownPasses(window, pairs, p, acts, j, Firing);
    if m :| i < m < j && PassesAs(window, sends, m, dk, Resolved) {
      var g := DedupeMeans(window, sends, j, dk);
      if g.Some? {
        OpenIsLater(window, acts, m, j, StateKey(p.0.name, p.1), g.value);
        FiringsAreAWindowApart(window, sends, g.value, j, dk);
      } else {
        assert (acts[j].rule, acts[j].instance) in pairs;
        RestartTakesAHold(window, pairs, p, acts, m, j);
      }
    } else {
      FiringsAreAWindowApart(window, sends, i, j, dk);
    }
  }

  lemma {:induction false} OpenIsLater(window: int, acts: seq<Action>, m: nat, j: nat, k: string, g: nat)
    requires WellFormed(acts) && m < j && PassesAs(window, Sends(acts), m, AlertKey(k), Resolved)
    requires Open(window, Sends(acts), j, AlertKey(k), g)
    ensures m < g < j && acts[g].Eval? && Sends(acts)[g].Some? && Sends(acts)[g].value.at == acts[g].at
    ensures PassesAs(window, Sends(acts), g, AlertKey(k), Firing)
    ensures forall n :: g < n < j ==> !PassesAs(window, Sends(acts), n, AlertKey(k), Resolved)
  {
    SentByEval(acts, g, k);
  }

  /**
   The run of a collision: "p" fires, the other pair's resolved clears the window, and "p" fires again after
   one hold.
   */
  function Refire(p: (Rule, string), q: (Rule, string)): seq<Action> {
    var t := if p.0.hold > 0 then p.0.hold else 0;
    var due := Eval(p.0, p.1, Value(true), t, t);
    [Eval(p.0, p.1, Value(true), 0, 0), due, Eval(q.0, q.1, Value(false), t, t), due,
     Eval(p.0, p.1, Value(true), 2 * t, 2 * t)]
  }

  lemma {:induction false} RefireStates(p: (Rule, string), q: (Rule, string))
    requires Collides(p, q)
    ensures var acts, k := Refire(p, q), StateKey(p.0.name, p.1);
      var t := acts[1].now;
      && StatesAt(acts, 0) == map[] && StatesAt(acts, 1) == map[k := Alert(0, p.0.hold <= 0, 0)]
      && StatesAt(acts, 2) == map[k := Alert(0, true, t)]
      && StatesAt(acts, 3) == map[] && StatesAt(acts, 4) == map[k := Alert(t, p.0.hold <= 0, 0)]
  {
    var acts := Refire(p, q);
    var m0, m1, m2 := StatesAt(acts, 0), StatesAt(acts, 1), StatesAt(acts, 2);
    assert m0 == map[] && m1 == NextStates(m0, acts[0]) && m2 == NextStates(m1, acts[1]);
    var m3, m4 := StatesAt(acts, 3), StatesAt(acts, 4);
    assert m3 == NextStates(m2, acts[2]) && m4 == NextStates(m3, acts[3]);
  }

  lemma {:induction false} RefireSends(p: (Rule, string), q: (Rule, string))
    requires Collides(p, q)
    ensures var acts := Refire(p, q);
      var sends, t := Sends(acts), acts[1].now;
      var i := if p.0.hold > 0 then 1 else 0;
      var fire := Event(AlertKind, p.0.name, p.1, Firing);
      && sends[i] == Some(Sent(fire, t)) && sends[1 - i] == None
      && sends[i + 3] == Some(Sent(fire, 2 * t)) && sends[4 - i] == None
      && sends[2] == Some(Sent(Event(AlertKind, q.0.name, q.1, Resolved), t))
  {
    RefireStates(p, q);
  }

  lemma {:induction false} RefirePasses(window: int, p: (Rule, string), q: (Rule, string))
    requires window > 0 && Collides(p, q)
    ensures var sends := Sends(Refire(p, q));
      var i := if p.0.hold > 0 then 1 else 0;
      Passes(window, sends, i) && Passes(window, sends, 2) && Passes(window, sends, i + 3)
  {
    RefireSends(p, q);
    var sends, dk := Sends(Refire(p, q)), AlertKey(StateKey(p.0.name, p.1));
    KeyWhole(Event(AlertKind, p.0.name, p.1, Firing));
    KeyWhole(Event(AlertKind, q.0.name, q.1, Resolved));
    var d0, d1, d2 := DedupeAt(window, sends, 0), DedupeAt(window, sends, 1), DedupeAt(window, sends, 2);
    assert d0 == map[] && (p.0.hold > 0 ==> d1 == map[]) && d2 == map[dk := Refire(p, q)[1].now];
    assert DedupeAt(window, sends, 3) == map[];
    assert p.0.hold > 0 ==> DedupeAt(window, sends, 4) == map[];
  }

  lemma {:induction false} CollisionRefires(window: int, pairs: set<(Rule, string)>, p: (Rule, string),
    q: (Rule, string))
    returns (acts: seq<Action>, i: nat, j: nat)
    requires window > 0 && p in pairs && q in pairs && Catalogue(pairs) && Collides(p, q) && p.0.hold < window
    ensures ShownTwice(window, pairs, p, acts, i, j) && !ApartAt(window, acts, i, j)
  {
    acts := Refire(p, q);
    i := if p.0.hold > 0 then 1 else 0;
    j := i + 3;
    RefireSends(p, q);
    RefirePasses(window, p, q);
    if q.0.name == p.0.name {
      SameInstance(p.0.name, p.1, q.1);
    }
    assert !Shows(window, acts, 1, p, Resolved) && !Shows(window, acts, 2, p, Resolved)
      && !Shows(window, acts, 3, p, Resolved);
  }

  /**
   The window keeps a pair's firings apart in every run exactly when no other pair has the same key or the pair's hold
   is no shorter than the window.
   */
  lemma {:induction false} ApartIff(window: int, pairs: set<(Rule, string)>, p: (Rule, string))
    requires window > 0 && p in pairs && Catalogue(pairs)
    ensures AlwaysApart(window, pairs, p) <==> Alone(pairs, p) || p.0.hold >= window
  {
    if Alone(pairs, p) || p.0.hold >= window {
      forall acts, i: nat, j: nat | ShownTwice(window, pairs, p, acts, i, j) ensures ApartAt(window, acts, i, j) {
        if Alone(pairs, p) {
          ShownFiringsApart(window, pairs, p, acts, i, j);
        } else {
          LongHoldKeepsApart(window, pairs, p, acts, i, j);
        }
      }
    } else {
      var q :| q in pairs && Collides(p, q);
      var acts, i, j := CollisionRefires(window, pairs, p, q);
    }
  }

  /** Rule names without a bar never share a key. */
  lemma {:induction false} NoBarMeansAlone(pairs: set<(Rule, string)>, p: (Rule, string))
    requires p in pairs && Catalogue(pairs) && forall q | q in pairs :: '|' !in q.0.name
    ensures Alone(pairs, p) && Steady(pairs, p)
  {
    forall q | q in pairs ensures !Collides(p, q) {
      if Collides(p, q) {
        SplitAtBar(p.0.name, p.1, q.0.name, q.1);
      }
    }
  }
}
