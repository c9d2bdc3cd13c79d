/**
 * The alert engine of internal/alerting/rules.go and the notifier's dedupe window of
 * internal/alerting/notifier.go.  Expression results and both clock readings are parameters.
 */
module Alerts {
  import opened Options

  /** `hold` is the rule's `for`, `repeat` its repeat interval (not positive: notify once). */
  datatype Rule = Rule(name: string, hold: int, repeat: int)

  /** What the expression gave; a value that is not a boolean counts as false. */
  datatype Outcome = Failed | Value(active: bool)

  datatype Alert = Alert(since: int, firing: bool, notified: int)

  datatype Status = Firing | Resolved | Recommendation

  datatype Event = Event(kind: string, rule: string, instance: string, status: Status)

  /** An event handed to the notifier, with the notifier's own clock reading. */
  datatype Sent = Sent(event: Event, at: int)

  /** One engine evaluation, a leader loss, or an event sent by another component. */
  datatype Action =
    | Eval(rule: Rule, instance: string, outcome: Outcome, now: int, at: int)
    | Reset
    | Other(sent: Sent)

  const AlertKind := "alert"

  function StateKey(rule: string, instance: string): (k: string) { rule + "|" + instance }

  function DedupeKey(e: Event): (k: string) { e.kind + "|" + e.rule + "|" + e.instance }

  // ---- the engine on values ------------------------------------------------------------------

  function Begun(before: Option<Alert>, now: int): (s: Alert) {
    if before.Some? then before.value else Alert(now, false, 0)
  }

  /** Whether a true evaluation notifies: the first time after `hold`, later every `repeat`. */
  predicate Due(s: Alert, r: Rule, now: int) {
    if s.firing then r.repeat > 0 && now - s.notified >= r.repeat else now - s.since >= r.hold
  }

  function Find(states: map<string, Alert>, k: string): (a: Option<Alert>) {
    if k in states then Some(states[k]) else None
  }

  function NextStates(states: map<string, Alert>, a: Action): (r: map<string, Alert>) {
    match a
    case Reset => map[]
    case Other(_) => states
    case Eval(rule, instance, outcome, now, _) =>
      var k := StateKey(rule.name, instance);
      match outcome
      case Failed => states
      case Value(false) => states - {k}
      case Value(true) =>
        var s := Begun(Find(states, k), now);
        states[k := if Due(s, rule, now) then s.(firing := true, notified := now) else s]
  }

  /** The event an action hands to the notifier. */
  function Emit(states: map<string, Alert>, a: Action): (r: Option<Sent>) {
    match a
    case Reset => None
    case Other(s) => Some(s)
    case Eval(rule, instance, outcome, now, at) =>
      var s := Find(states, StateKey(rule.name, instance));
      match outcome
      case Failed => None
      case Value(false) =>
        if s.Some? && s.value.firing then Some(Sent(Event(AlertKind, rule.name, instance, Resolved), at)) else None
      case Value(true) =>
        if Due(Begun(s, now), rule, now) then Some(Sent(Event(AlertKind, rule.name, instance, Firing), at)) else None
  }

  // ---- the notifier on values ----------------------------------------------------------------

  predicate Skips(window: int, dedupe: map<string, int>, s: Sent) {
    && window > 0 && s.event.status.Firing?
    && DedupeKey(s.event) in dedupe && s.at - dedupe[DedupeKey(s.event)] < window
  }

  function NextDedupe(window: int, dedupe: map<string, int>, s: Sent): (r: map<string, int>) {
    var k := DedupeKey(s.event);
    if window <= 0 then dedupe
    else match s.event.status
      case Resolved => dedupe - {k}
      case Recommendation => dedupe
      case Firing => if Skips(window, dedupe, s) then dedupe else dedupe[k := s.at]
  }

  // ---- the two objects -----------------------------------------------------------------------

  class Notifier {
    const window: int
    var dedupe: map<string, int>

    constructor (w: int)
      ensures window == w && dedupe == map[]
    {
      window := w;
      dedupe := map[];
    }

    method DedupeSkip(e: Event, now: int) returns (skip: bool)
      modifies this
      ensures skip == Skips(window, old(dedupe), Sent(e, now))
      ensures dedupe == NextDedupe(window, old(dedupe), Sent(e, now))
    {
      if window <= 0 {
        return false;
      }
      var key := e.kind + "|" + e.rule + "|" + e.instance;
      if e.status == Resolved {
        dedupe := dedupe - {key};
        return false;
      }
      if e.status != Firing {
        return false;
      }
      if key in dedupe && now - dedupe[key] < window {
        return true;
      }
      dedupe := dedupe[key := now];
      return false;
    }

    /** Some(e) is an event that got past the window. */
    method Send(e: Event, now: int) returns (passed: Option<Event>)
      modifies this
      ensures passed == if Skips(window, old(dedupe), Sent(e, now)) then None else Some(e)
      ensures dedupe == NextDedupe(window, old(dedupe), Sent(e, now))
    {
      var skip := DedupeSkip(e, now);
      passed := if skip then None else Some(e);
    }
  }

  class Engine {
    const notifier: Notifier
    var states: map<string, Alert>

    constructor (n: Notifier)
      ensures notifier == n && states == map[]
    {
      notifier := n;
      states := map[];
    }

    method ResetStates()
      modifies this
      ensures states == NextStates(old(states), Reset)
    {
      if |states| > 0 {
        states := map[];
      }
    }

    /** The alert is stored back where the source updates it through its pointer. */
    method EvalInstance(r: Rule, instance: string, outcome: Outcome, now: int, at: int)
      returns (firing: bool, passed: Option<Event>)
      modifies this, notifier
      ensures states == NextStates(old(states), Eval(r, instance, outcome, now, at))
      ensures var k := StateKey(r.name, instance); firing <==> k in states && states[k].firing
      ensures var e := Emit(old(states), Eval(r, instance, outcome, now, at));
        && notifier.dedupe == (if e.None? then old(notifier.dedupe)
                               else NextDedupe(notifier.window, old(notifier.dedupe), e.value))
        && passed == (if e.None? || Skips(notifier.window, old(notifier.dedupe), e.value) then None
                      else Some(e.value.event))
    {
      passed := None;
      var key := r.name + "|" + instance;
      if outcome.Failed? {
        return key in states && states[key].firing, None;
      }
      if !outcome.active {
        if key in states {
          if states[key].firing {
            passed := notifier.Send(Event("alert", r.name, instance, Resolved), at);
          }
          states := states - {key};
        }
        return false, passed;
      }
      if key !in states {
        states := states[key := Alert(now, false, 0)];
      }
      var st := states[key];
      if !st.firing {
        if now - st.since >= r.hold {
          st := st.(firing := true, notified := now);
          passed := notifier.Send(Event("alert", r.name, instance, Firing), at);
        }
      } else if r.repeat > 0 && now - st.notified >= r.repeat {
        st := st.(notified := now);
        passed := notifier.Send(Event("alert", r.name, instance, Firing), at);
      }
      states := states[key := st];
      return st.firing, passed;
    }
  }

  // ---- whole runs ----------------------------------------------------------------------------

  /** The engine's map after the first `n` actions. */
  function StatesAt(acts: seq<Action>, n: nat): (r: map<string, Alert>)
    requires n <= |acts|
  {
    if n == 0 then map[] else NextStates(StatesAt(acts, n - 1), acts[n - 1])
  }

  /** What each action hands to the notifier. */
  function Raw(acts: seq<Action>, i: nat): (r: Option<Sent>)
    requires i < |acts|
  {
    Emit(StatesAt(acts, i), acts[i])
  }

  function Sends(acts: seq<Action>): (r: seq<Option<Sent>>)
    ensures |r| == |acts|
  {
    seq(|acts|, i requires 0 <= i < |acts| => Raw(acts, i))
  }

  function DedupeAt(window: int, sends: seq<Option<Sent>>, n: nat): (r: map<string, int>)
    requires n <= |sends|
  {
    if n == 0 then map[]
    else if sends[n - 1].None? then DedupeAt(window, sends, n - 1)
    else NextDedupe(window, DedupeAt(window, sends, n - 1), sends[n - 1].value)
  }

  predicate Passes(window: int, sends: seq<Option<Sent>>, i: nat)
    requires i < |sends|
  {
    sends[i].Some? && !Skips(window, DedupeAt(window, sends, i), sends[i].value)
  }

  function PassedAt(window: int, sends: seq<Option<Sent>>, i: nat): (r: Option<Event>)
    requires i < |sends|
  {
    if Passes(window, sends, i) then Some(sends[i].value.event) else None
  }

  /** Any run of the two objects produces the traces the theorems below speak of. */
  method Drive(window: int, acts: seq<Action>) returns (log: seq<Option<Event>>)
    ensures |log| == |acts|
    ensures forall i :: 0 <= i < |acts| ==> log[i] == PassedAt(window, Sends(acts), i)
  {
    var n := new Notifier(window);
    var e := new Engine(n);
    var sends := Sends(acts);
    log := [];
    for i := 0 to |acts|
      invariant |log| == i && n.window == window && e.notifier == n
      invariant fresh(n) && fresh(e)
      invariant e.states == StatesAt(acts, i)
      invariant n.dedupe == DedupeAt(window, sends, i)
      invariant forall j :: 0 <= j < i ==> log[j] == PassedAt(window, sends, j)
    {
      var passed: Option<Event> := None;
      match acts[i] {
        case Reset => e.ResetStates();
        case Other(s) => passed := n.Send(s.event, s.at);
        case Eval(r, instance, outcome, now, at) =>
          var firing;
          firing, passed := e.EvalInstance(r, instance, outcome, now, at);
      }
      log := log + [passed];
    }
  }
}
