/** The canary rollout of internal/rollout/rollout.go.  Weights are reals; expression results are parameters. */
module Rollout {
  import opened Options

  datatype Phase = Idle | Running | Completed | Failed

  /** `base` are the configured weights of the other sub-pools. */
  datatype Config = Config(steps: seq<real>, base: seq<real>, interval: int)

  /** What config validation and defaults guarantee. */
  ghost predicate ConfigOk(c: Config) {
    && c.steps != [] && c.steps[|c.steps| - 1] == 100.0
    && (forall i :: 0 <= i < |c.steps| ==> 0.0 < c.steps[i] <= 100.0)
    && (forall i, j :: 0 <= i < j < |c.steps| ==> c.steps[i] < c.steps[j])
    && c.base != [] && (forall i :: 0 <= i < |c.base| ==> c.base[i] >= 0.0)
  }

  /** One instance's rollout; `canary` and `others` are the weights of its sub-pools. */
  datatype State = State(phase: Phase, step: int, since: int, canary: real, others: seq<real>)

  datatype Event = Event(phase: Phase, step: int)

  /** What the routing sees. */
  datatype View = View(phase: Phase, canary: real, others: seq<real>)

  function ViewOf(s: State): View { View(s.phase, s.canary, s.others) }

  // ---------------------------------------------------------------- weights

  function Sum(ws: seq<real>): real {
    if ws == [] then 0.0 else Sum(ws[..|ws| - 1]) + ws[|ws| - 1]
  }

  function Portion(rest: real, own: real, sum: real, count: nat): real
    requires count > 0
  {
    if sum > 0.0 then rest * own / sum else rest / count as real
  }

  /** The share of sub-pool `i` when `rest` percent are left for the others. */
  function Share(base: seq<real>, rest: real, i: nat): real
    requires i < |base|
  {
    Portion(rest, base[i], Sum(base), |base|)
  }

  function Others(base: seq<real>, pct: real): seq<real> {
    seq(|base|, i requires 0 <= i < |base| => Share(base, 100.0 - pct, i))
  }

  lemma {:induction false} SumScaled(base: seq<real>, ws: seq<real>, f: real)
    requires |ws| == |base| && forall i :: 0 <= i < |base| ==> ws[i] == f * base[i]
    ensures Sum(ws) == f * Sum(base)
  {
    if base != [] {
      var n := |base| - 1;
      SumScaled(base[..n], ws[..n], f);
    }
  }

  lemma {:induction false} SumEqual(ws: seq<real>, x: real)
    requires forall i :: 0 <= i < |ws| ==> ws[i] == x
    ensures Sum(ws) == |ws| as real * x
  {
    if ws != [] {
      SumEqual(ws[..|ws| - 1], x);
    }
  }

  lemma {:induction false} SumNonNegative(ws: seq<real>)
    requires forall i :: 0 <= i < |ws| ==> ws[i] >= 0.0
    ensures Sum(ws) >= 0.0
  {
    if ws != [] {
      SumNonNegative(ws[..|ws| - 1]);
    }
  }

  lemma {:induction false} Fraction(a: real, x: real, b: real)
    requires b > 0.0
    ensures a * x / b == (a / b) * x && (a / b) * b == a && (a >= 0.0 ==> a / b >= 0.0)
  {
  }

  lemma {:induction false} ProductNonNegative(a: real, b: real)
    requires a >= 0.0 && b >= 0.0
    ensures a * b >= 0.0
  {
  }

  lemma {:induction false} ShareIs(base: seq<real>, rest: real, i: nat, total: real, n: real)
    requires rest >= 0.0 && i < |base| && total == Sum(base) && n == |base| as real && base[i] >= 0.0
    ensures total > 0.0 ==> Share(base, rest, i) == (rest / total) * base[i]
    ensures total <= 0.0 ==> Share(base, rest, i) == rest / n
    ensures Share(base, rest, i) >= 0.0
  {
    hide Sum;
    if total > 0.0 {
      Fraction(rest, base[i], total);
      ProductNonNegative(rest / total, base[i]);
    } else {
      Fraction(rest, 1.0, n);
    }
  }

  lemma {:induction false} SharesAddUp(base: seq<real>, rest: real, ws: seq<real>, total: real, n: real)
    requires |ws| == |base| > 0 && total == Sum(base) && n == |base| as real
    requires total > 0.0 ==> forall i :: 0 <= i < |base| ==> ws[i] == (rest / total) * base[i]
    requires total <= 0.0 ==> forall i :: 0 <= i < |base| ==> ws[i] == rest / n
    ensures Sum(ws) == rest
  {
    hide Sum;
    if total > 0.0 {
      SumScaled(base, ws, rest / total);
      Fraction(rest, 1.0, total);
    } else {
      SumEqual(ws, rest / n);
      Fraction(rest, 1.0, n);
    }
  }

  /** The others share exactly what the canary leaves, and never a negative part of it. */
  lemma {:induction false} WeightsAddUp(c: Config, pct: real)
    requires ConfigOk(c) && 0.0 <= pct <= 100.0
    ensures pct + Sum(Others(c.base, pct)) == 100.0
    ensures forall i :: 0 <= i < |c.base| ==> Others(c.base, pct)[i] >= 0.0
  {
    hide Sum, Share;
    var ws, rest, total, n := Others(c.base, pct), 100.0 - pct, Sum(c.base), |c.base| as real;
    forall i: nat | i < |c.base|
      ensures total > 0.0 ==> ws[i] == (rest / total) * c.base[i]
      ensures total <= 0.0 ==> ws[i] == rest / n
      ensures ws[i] >= 0.0
    {
      ShareIs(c.base, rest, i, total, n);
    }
    SharesAddUp(c.base, rest, ws, total, n);
  }

  /** The others share in proportion to their configured weights, or equally if these are all zero. */
  lemma {:induction false} OthersProportional(c: Config, pct: real, i: nat)
    requires ConfigOk(c) && i < |c.base|
    ensures |Others(c.base, pct)| == |c.base|
    ensures Sum(c.base) > 0.0 ==> Others(c.base, pct)[i] * Sum(c.base) == (100.0 - pct) * c.base[i]
    ensures Sum(c.base) <= 0.0 ==> Others(c.base, pct)[i] * (|c.base| as real) == 100.0 - pct
  {
    hide Sum;
    var rest, total, n := 100.0 - pct, Sum(c.base), |c.base| as real;
    if total > 0.0 {
      Quotient(rest * c.base[i], total);
    } else {
      Quotient(rest, n);
    }
  }

  lemma {:induction false} Quotient(a: real, b: real)
    requires b > 0.0
    ensures a / b * b == a
  {
  }

  // ---------------------------------------------------------------- operations

  function WithWeights(c: Config, s: State, pct: real): State { s.(canary := pct, others := Others(c.base, pct)) }

  function Start(c: Config, s: State, now: int): State
    requires c.steps != []
  {
    WithWeights(c, s.(phase := Running, step := 0, since := now), c.steps[0])
  }

  /**
   tickOne on the evaluating instance; `rollback` and `promote` are the outcomes of the two expressions (an
   error counts as false).
   */
  function Tick(c: Config, s: State, now: int, rollback: bool, promote: bool): (State, Option<Event>)
    requires c.steps != [] && (s.phase.Running? ==> 0 <= s.step)
  {
    if s.phase != Running then (s, None)
    else if rollback then (WithWeights(c, s.(phase := Failed), 0.0), Some(Event(Failed, s.step)))
    else if now - s.since < c.interval || !promote then (s, None)
    else if s.step + 1 >= |c.steps| then (s.(phase := Completed, step := s.step + 1),
      Some(Event(Completed, |c.steps| - 1)))
    else (WithWeights(c, s.(step := s.step + 1, since := now), c.steps[s.step + 1]), Some(Event(Running, s.step + 1)))
  }

  /** ApplyStep on a follower; None is an error and changes nothing. */
  function Apply(c: Config, s: State, ev: Event, now: int): Option<State>
    requires c.steps != []
  {
    match ev.phase
    case Running =>
      if 0 <= ev.step < |c.steps| then Some(WithWeights(c, s.(phase := Running, step := ev.step, since := now),
        c.steps[ev.step])) else None
    case Completed => Some(WithWeights(c, s.(phase := Completed, step := ev.step), c.steps[|c.steps| - 1]))
    case Failed => Some(WithWeights(c, s.(phase := Failed, step := ev.step), 0.0))
    case Idle => Some(s.(phase := Idle, step := ev.step))
  }

  lemma {:induction false} SumPrefix(ws: seq<real>, i: nat)
    requires i <= |ws|
    ensures i == 0 ==> Sum(ws[..i]) == 0.0
    ensures i < |ws| ==> Sum(ws[..i + 1]) == Sum(ws[..i]) + ws[i]
  {
    if i < |ws| {
      assert ws[..i + 1][..i] == ws[..i];
    }
  }

  lemma {:induction false} OthersAre(base: seq<real>, pct: real, ws: seq<real>)
    requires |ws| == |base| && forall j :: 0 <= j < |base| ==> ws[j] == Share(base, 100.0 - pct, j)
    ensures ws == Others(base, pct)
  {
    hide Share;
  }

  method PortionOf(rest: real, own: real, sum: real, count: nat) returns (w: real)
    requires count > 0
    ensures w == Portion(rest, own, sum, count)
  {
    if sum > 0.0 {
      w := rest * own / sum;
    } else {
      w := rest / count as real;
    }
  }

  /** The rollout object of one route. */
  class Rollout {
    const cfg: Config
    var phase: Phase
    var stepIdx: int
    var stepStart: int
    var canary: real
    var others: seq<real>

    ghost function Now(): State
      reads this
    {
      State(phase, stepIdx, stepStart, canary, others)
    }

    constructor (cfg: Config, canary: real)
      ensures this.cfg == cfg && Now() == State(Idle, 0, 0, canary, cfg.base)
    {
      this.cfg, phase, stepIdx, stepStart := cfg, Idle, 0, 0;
      this.canary, others := canary, cfg.base;
    }

    method ApplyWeights(pct: real)
      modifies this`canary, this`others
      ensures canary == pct && others == Others(cfg.base, pct)
    {
      hide Sum, Portion;
      canary := pct;
      var rest := 100.0 - pct;
      var baseSum := 0.0;
      SumPrefix(cfg.base, 0);
      for i := 0 to |cfg.base|
        invariant canary == pct && baseSum == Sum(cfg.base[..i])
      {
        SumPrefix(cfg.base, i);
        baseSum := baseSum + cfg.base[i];
      }
      assert cfg.base[..|cfg.base|] == cfg.base;
      var ws: seq<real> := [];
      for i := 0 to |cfg.base|
        invariant canary == pct && |ws| == i
        invariant forall j :: 0 <= j < i ==> ws[j] == Share(cfg.base, rest, j)
      {
        var w := PortionOf(rest, cfg.base[i], baseSum, |cfg.base|);
        ws := ws + [w];
      }
      OthersAre(cfg.base, pct, ws);
      others := ws;
    }

    method StartRollout(now: int)
      requires cfg.steps != []
      modifies this
      ensures Now() == Start(cfg, old(Now()), now)
      ensures phase == Running && stepIdx == 0 && stepStart == now && canary == cfg.steps[0]
    {
      stepIdx, phase, stepStart := 0, Running, now;
      ApplyWeights(cfg.steps[0]);
    }

    method TickOne(now: int, rollback: bool, promote: bool) returns (ev: Option<Event>)
      requires cfg.steps != [] && (phase == Running ==> 0 <= stepIdx < |cfg.steps|)
      modifies this
      ensures (Now(), ev) == Tick(cfg, old(Now()), now, rollback, promote)
      ensures old(phase) != Running || (!rollback && (!promote || now - old(stepStart) < cfg.interval)) ==>
        Now() == old(Now()) && ev == None
      ensures old(phase) == Running && rollback ==>
        phase == Failed && canary == 0.0 && ev == Some(Event(Failed, stepIdx))
      ensures old(phase) == Running && !rollback && promote && now - old(stepStart) >= cfg.interval ==>
        stepIdx == old(stepIdx) + 1 &&
        if stepIdx < |cfg.steps| then
          phase == Running && stepStart == now && canary == cfg.steps[stepIdx] && ev == Some(Event(Running, stepIdx))
        else
          phase == Completed && canary == old(canary) && ev == Some(Event(Completed, |cfg.steps| - 1))
    {
      if phase != Running {
        return None;
      }
      if rollback {
        ApplyWeights(0.0);
        phase := Failed;
        return Some(Event(Failed, stepIdx));
      }
      if now - stepStart < cfg.interval || !promote {
        return None;
      }
      stepIdx := stepIdx + 1;
      if stepIdx >= |cfg.steps| {
        phase := Completed;
        return Some(Event(Completed, |cfg.steps| - 1));
      }
      ApplyWeights(cfg.steps[stepIdx]);
      stepStart := now;
      return Some(Event(Running, stepIdx));
    }

    method ApplyStep(ev: Event, now: int) returns (ok: bool)
      requires cfg.steps != []
      modifies this
      ensures ok <==> Apply(cfg, old(Now()), ev, now).Some?
      ensures Now() == if ok then Apply(cfg, old(Now()), ev, now).value else old(Now())
      ensures ok <==> (ev.phase == Running ==> 0 <= ev.step < |cfg.steps|)
      ensures ok ==> phase == ev.phase && stepIdx == ev.step
      ensures ok && ev.phase == Running ==> canary == cfg.steps[ev.step] && stepStart == now
      ensures ok && ev.phase == Completed ==> canary == cfg.steps[|cfg.steps| - 1]
      ensures ok && ev.phase == Failed ==> canary == 0.0
    {
      match ev.phase {
        case Running =>
          if ev.step < 0 || ev.step >= |cfg.steps| {
            return false;
          }
          phase, stepIdx, stepStart := Running, ev.step, now;
          ApplyWeights(cfg.steps[ev.step]);
        case Completed =>
          phase := Completed;
          ApplyWeights(cfg.steps[|cfg.steps| - 1]);
        case Failed =>
          phase := Failed;
          ApplyWeights(0.0);
        case Idle =>
          phase := Idle;
      }
      stepIdx := ev.step;
      return true;
    }
  }

  // ---------------------------------------------------------------- one instance

  /** A started rollout: step and weights fit the phase. */
  ghost predicate Good(c: Config, s: State) {
    match s.phase
    case Idle => false
    case Running => 0 <= s.step < |c.steps| && s.canary == c.steps[s.step] && s.others == Others(c.base, s.canary)
    case Completed => s.canary == 100.0 && s.others == Others(c.base, 100.0)
    case Failed => s.canary == 0.0 && s.others == Others(c.base, 0.0)
  }

  /** The view an event stands for. */
  function ViewOfEvent(c: Config, ev: Event): View
    requires c.steps != []
  {
    var pct := match ev.phase
               case Running => if 0 <= ev.step < |c.steps| then c.steps[ev.step] else 0.0
               case Completed => 100.0
               case Failed => 0.0
               case Idle => 0.0;
    View(ev.phase, pct, Others(c.base, pct))
  }

  ghost predicate GoodEvent(c: Config, ev: Event) {
    !ev.phase.Idle? && (ev.phase.Running? ==> 0 <= ev.step < |c.steps|)
  }

  lemma {:induction false} StartIsGood(c: Config, s: State, now: int)
    requires ConfigOk(c)
    ensures Good(c, Start(c, s, now)) && ViewOf(Start(c, s, now)) == ViewOfEvent(c, Event(Running, 0))
  {
  }

  /** A tick either changes nothing visible, or publishes the event that describes its new view. */
  lemma {:induction false} TickPublishes(c: Config, s: State, now: int, rollback: bool, promote: bool)
    requires ConfigOk(c) && (s.phase == Running ==> Good(c, s) && 0 <= s.step)
    ensures var (s', ev) := Tick(c, s, now, rollback, promote);
            if ev.None? then s' == s
            else Good(c, s') && GoodEvent(c, ev.value) && ViewOf(s') == ViewOfEvent(c, ev.value)
  {
  }

  /** Applying an event gives the view of its publisher. */
  lemma {:induction false} ApplyFollows(c: Config, s: State, ev: Event, now: int)
    requires ConfigOk(c) && GoodEvent(c, ev)
    ensures Apply(c, s, ev, now).Some?
    ensures Good(c, Apply(c, s, ev, now).value) && ViewOf(Apply(c, s, ev, now).value) == ViewOfEvent(c, ev)
  {
  }

  /** In every started rollout the weights are non-negative and add up to 100. */
  lemma {:induction false} GoodWeights(c: Config, s: State)
    requires ConfigOk(c) && Good(c, s)
    ensures s.canary + Sum(s.others) == 100.0 && s.canary >= 0.0 && forall i :: 0 <= i < |s.others| ==>
      s.others[i] >= 0.0
  {
    WeightsAddUp(c, s.canary);
  }
}
