/**
 A canary rollout on all instances: whoever evaluates or is reset broadcasts, the others apply what reaches them.

 Any instance may tick (leaders change) and any may be reset through its admin interface.  A tick publishes while it
 holds the rollout's lock; a reset publishes after it released it, so other steps can come in between.  Messages may be
 lost; a publication that fails is one that reaches nobody.
 */
module RolloutCluster {
  import opened Options
  import opened Rollout

  type Id = string

  /** A change an instance made by itself.  `msg`: the position of the broadcast of a tick. */
  datatype Change = ByTick(maker: Id, ev: Event, msg: nat) | ByReset(maker: Id)

  /** `change` counts from 1; it records which change the message announces. */
  datatype Message = Message(origin: Id, ev: Event, change: nat)

  /**
   `stem`: the change the state stems from, made here or heard of (0: the start).  `seen`: how far into the
   channel the instance has read.  `unsent`: resets made here and not yet published.
   */
  datatype Member = Member(st: State, stem: nat, seen: nat, unsent: set<nat>)

  datatype Cluster = Cluster(members: map<Id, Member>, changes: seq<Change>, log: seq<Message>)

  datatype Step =
    | TickStep(i: Id, now: int, rollback: bool, promote: bool)
    | ResetStep(i: Id, now: int)
    | Publish(i: Id, change: nat)
    | Deliver(i: Id, k: nat, now: int)     // messages skipped since the last delivery are lost

  function EventOf(c: Change): Event { if c.ByTick? then c.ev else Event(Running, 0) }

  ghost predicate Next(c: Config, s: Cluster, st: Step, s': Cluster)
    requires c.steps != []
  {
    st.i in s.members &&
    var m := s.members[st.i];
    match st
    case TickStep(i, now, rollback, promote) =>
      (m.st.phase.Running? ==> 0 <= m.st.step) &&
      var (r, ev) := Tick(c, m.st, now, rollback, promote);
      var n := |s.changes| + 1;
      s' == if ev.None? then s.(members := s.members[i := m.(st := r)])
            else Cluster(s.members[i := m.(st := r, stem := n)], s.changes + [ByTick(i, ev.value, |s.log|)],
              s.log + [Message(i, ev.value, n)])
    case ResetStep(i, now) =>
      var n := |s.changes| + 1;
      s' == s.(members := s.members[i := m.(st := Start(c, m.st, now), stem := n, unsent := m.unsent + {n})],
        changes := s.changes + [ByReset(i)])
    case Publish(i, n) =>
      n in m.unsent &&
      s' == s.(members := s.members[i := m.(unsent := m.unsent - {n})],
        log := s.log + [Message(i, Event(Running, 0), n)])
    case Deliver(i, k, now) =>
      m.seen <= k < |s.log| &&
      var a := Apply(c, m.st, s.log[k].ev, now);
      s' == s.(members := s.members[i := if s.log[k].origin == i || a.None? then m.(seen := k + 1)
                                         else m.(st := a.value, stem := s.log[k].change, seen := k + 1)])
  }

  /** Everybody starts alike: waiting, or running the first step. */
  ghost predicate Init(c: Config, s: Cluster, v: View) {
    s.log == [] && s.changes == [] && forall i :: i in s.members ==>
      && s.members[i].stem == 0 && s.members[i].unsent == {} && ViewOf(s.members[i].st) == v
      && (s.members[i].st.phase.Idle? || Good(c, s.members[i].st))
  }

  ghost predicate IsRun(c: Config, run: seq<Cluster>, steps: seq<Step>, v: View) {
    ConfigOk(c) && |run| == |steps| + 1 && Init(c, run[0], v) && forall k :: 0 <= k < |steps| ==>
      Next(c, run[k], steps[k], run[k + 1])
  }

  // ---------------------------------------------------------------- invariant

  ghost function ViewAt(c: Config, changes: seq<Change>, v: View, n: nat): View
    requires c.steps != [] && n <= |changes|
  {
    if n == 0 then v else ViewOfEvent(c, EventOf(changes[n - 1]))
  }

  /** A member shows the view of the change its state stems from. */
  ghost predicate MemberOk(c: Config, s: Cluster, v: View, i: Id)
    requires c.steps != [] && i in s.members
  {
    var m := s.members[i];
    && m.stem <= |s.changes| && ViewOf(m.st) == ViewAt(c, s.changes, v, m.stem)
    && (m.st.phase.Idle? ==> m.stem == 0) && (!m.st.phase.Idle? ==> Good(c, m.st))
    && (forall n :: n in m.unsent ==> 1 <= n <= |s.changes| && s.changes[n - 1] == ByReset(i))
  }

  /** A tick never leads to the first step. */
  ghost predicate ChangeOk(c: Config, ch: Change) {
    GoodEvent(c, EventOf(ch)) && (ch.ByTick? && ch.ev.phase.Running? ==> ch.ev.step > 0)
  }

  ghost predicate MessageOk(s: Cluster, k: nat)
    requires k < |s.log|
  {
    var m := s.log[k];
    && 1 <= m.change <= |s.changes| && m.ev == EventOf(s.changes[m.change - 1])
      && m.origin == s.changes[m.change - 1].maker
    && (s.changes[m.change - 1].ByTick? ==> s.changes[m.change - 1].msg == k)
  }

  /** Ticks are announced at once, hence in their order. */
  ghost predicate TicksInOrder(s: Cluster) {
    && (forall n :: 0 <= n < |s.changes| && s.changes[n].ByTick? ==>
      s.changes[n].msg < |s.log| && s.log[s.changes[n].msg].change == n + 1)
    && (forall n, m :: 0 <= n < m < |s.changes| && s.changes[n].ByTick? && s.changes[m].ByTick? ==>
      s.changes[n].msg < s.changes[m].msg)
  }

  /**
   A state that stems from the instance's own change stems from its last one, and from the start only if there
   is none.
   */
  ghost predicate OwnIsLast(s: Cluster, i: Id)
    requires i in s.members
  {
    var n := s.members[i].stem;
    n <= |s.changes| && (n == 0 || s.changes[n - 1].maker == i) ==> forall m :: n <= m < |s.changes| ==>
      s.changes[m].maker != i
  }

  ghost predicate Inv(c: Config, s: Cluster, v: View)
    requires c.steps != []
  {
    && (forall n :: 0 <= n < |s.changes| ==> ChangeOk(c, s.changes[n]))
    && (forall k :: 0 <= k < |s.log| ==> MessageOk(s, k))
    && TicksInOrder(s)
    && (forall i :: i in s.members ==> MemberOk(c, s, v, i) && OwnIsLast(s, i))
  }

  lemma {:induction false} TickKeepsInv(c: Config, s: Cluster, st: Step, s': Cluster, v: View)
    requires ConfigOk(c) && Inv(c, s, v) && Next(c, s, st, s') && st.TickStep?
    ensures Inv(c, s', v)
  {
    hide ViewOf, ViewOfEvent, Good, Tick, TicksInOrder;
    var m := s.members[st.i];
    assert MemberOk(c, s, v, st.i);
    TickStepFacts(c, m.st, st.now, st.rollback, st.promote);
    TicksStayInOrder(c, s, st, s');
    forall i | i in s'.members ensures MemberOk(c, s', v, i) && OwnIsLast(s', i) {
      assert MemberOk(c, s, v, i) && OwnIsLast(s, i);
    }
    forall k | 0 <= k < |s'.log| ensures MessageOk(s', k) {
      assert k < |s.log| ==> MessageOk(s, k);
    }
  }

  lemma {:induction false} TicksStayInOrder(c: Config, s: Cluster, st: Step, s': Cluster)
    requires c.steps != [] && TicksInOrder(s) && Next(c, s, st, s')
    ensures TicksInOrder(s')
  {
    hide Tick, Start, Apply;
  }

  lemma {:induction false} TickStepFacts(c: Config, s: State, now: int, rollback: bool, promote: bool)
    requires ConfigOk(c) && (s.phase.Running? ==> Good(c, s) && 0 <= s.step)
    ensures var (s', ev) := Tick(c, s, now, rollback, promote);
            if ev.None? then s' == s
            else
              && Good(c, s') && !s'.phase.Idle? && ChangeOk(c, ByTick("", ev.value, 0))
              && ViewOf(s') == ViewOfEvent(c, ev.value)
  {
    TickPublishes(c, s, now, rollback, promote);
  }

  lemma {:induction false} ResetKeepsInv(c: Config, s: Cluster, st: Step, s': Cluster, v: View)
    requires ConfigOk(c) && Inv(c, s, v) && Next(c, s, st, s') && st.ResetStep?
    ensures Inv(c, s', v)
  {
    hide ViewOf, ViewOfEvent, Good, Start, TicksInOrder;
    TicksStayInOrder(c, s, st, s');
    var m := s.members[st.i];
    assert MemberOk(c, s, v, st.i);
    StartIsGood(c, m.st, st.now);
    StartRuns(c, m.st, st.now);
    forall i | i in s'.members ensures MemberOk(c, s', v, i) && OwnIsLast(s', i) {
      assert MemberOk(c, s, v, i) && OwnIsLast(s, i);
    }
    forall k | 0 <= k < |s'.log| ensures MessageOk(s', k) {
      assert k < |s.log| ==> MessageOk(s, k);
    }
  }

  lemma {:induction false} PublishKeepsInv(c: Config, s: Cluster, st: Step, s': Cluster, v: View)
    requires ConfigOk(c) && Inv(c, s, v) && Next(c, s, st, s') && st.Publish?
    ensures Inv(c, s', v)
  {
    hide ViewOf, ViewOfEvent, Good, TicksInOrder;
    TicksStayInOrder(c, s, st, s');
    assert MemberOk(c, s, v, st.i);
    forall i | i in s'.members ensures MemberOk(c, s', v, i) && OwnIsLast(s', i) {
      assert MemberOk(c, s, v, i) && OwnIsLast(s, i);
    }
    forall k | 0 <= k < |s'.log| ensures MessageOk(s', k) {
      assert k < |s.log| ==> MessageOk(s, k);
    }
  }

  lemma {:induction false} StartRuns(c: Config, s: State, now: int)
    requires c.steps != []
    ensures Start(c, s, now).phase.Running?
  {
  }

  lemma {:induction false} DeliverKeepsInv(c: Config, s: Cluster, st: Step, s': Cluster, v: View)
    requires ConfigOk(c) && Inv(c, s, v) && Next(c, s, st, s') && st.Deliver?
    ensures Inv(c, s', v)
  {
    hide ViewOf, ViewOfEvent, Good, Apply, TicksInOrder;
    TicksStayInOrder(c, s, st, s');
    var m, e := s.members[st.i], s.log[st.k];
    assert MemberOk(c, s, v, st.i) && MessageOk(s, st.k);
    assert ChangeOk(c, s.changes[e.change - 1]);
    ApplyFollows(c, m.st, e.ev, st.now);
    ApplyStarts(c, m.st, e.ev, st.now);
    forall i | i in s'.members ensures MemberOk(c, s', v, i) && OwnIsLast(s', i) {
      assert MemberOk(c, s, v, i) && OwnIsLast(s, i);
    }
    forall k | 0 <= k < |s'.log| ensures MessageOk(s', k) {
      assert MessageOk(s, k);
    }
  }

  lemma {:induction false} ApplyStarts(c: Config, s: State, ev: Event, now: int)
    requires ConfigOk(c) && GoodEvent(c, ev)
    ensures Apply(c, s, ev, now).Some? && !Apply(c, s, ev, now).value.phase.Idle?
  {
  }

  lemma {:induction false} StepKeepsInv(c: Config, s: Cluster, st: Step, s': Cluster, v: View)
    requires ConfigOk(c) && Inv(c, s, v) && Next(c, s, st, s')
    ensures Inv(c, s', v)
  {
    hide Inv, Next;
    match st
    case TickStep(_, _, _, _) => TickKeepsInv(c, s, st, s', v);
    case ResetStep(_, _) => ResetKeepsInv(c, s, st, s', v);
    case Publish(_, _) => PublishKeepsInv(c, s, st, s', v);
    case Deliver(_, _, _) => DeliverKeepsInv(c, s, st, s', v);
  }

  lemma {:induction false} RunKeepsInv(c: Config, run: seq<Cluster>, steps: seq<Step>, v: View, k: nat)
    requires IsRun(c, run, steps, v) && k < |run|
    ensures Inv(c, run[k], v)
  {
    if k > 0 {
      RunKeepsInv(c, run, steps, v, k - 1);
      StepKeepsInv(c, run[k - 1], steps[k - 1], run[k], v);
    }
  }

  /** Weights in every started run: non-negative, adding up to 100, the step's while running and 0 once rolled back. */
  lemma {:induction false} StartedWeights(c: Config, run: seq<Cluster>, steps: seq<Step>, v: View, k: nat, i: Id)
    requires IsRun(c, run, steps, v) && k < |run| && i in run[k].members && !run[k].members[i].st.phase.Idle?
    ensures var s := run[k].members[i].st;
            && s.canary + Sum(s.others) == 100.0 && s.canary >= 0.0
              && (forall j :: 0 <= j < |s.others| ==> s.others[j] >= 0.0)
            && (s.phase.Running? ==> 0 <= s.step < |c.steps| && s.canary == c.steps[s.step])
            && (s.phase.Completed? ==> s.canary == 100.0) && (s.phase.Failed? ==> s.canary == 0.0)
  {
    RunKeepsInv(c, run, steps, v, k);
    assert MemberOk(c, run[k], v, i);
    GoodWeights(c, run[k].members[i].st);
  }

  // ---------------------------------------------------------------- when a rollout moves

  /** What one tick does to the instance that makes it, whatever the others do. */
  ghost predicate TicksRightly(c: Config, m: State, m': State, now: int, rollback: bool, promote: bool) {
    if m.phase != Running then m' == m
    else if rollback then m'.phase == Failed && m'.canary == 0.0
    else if !promote || now - m.since < c.interval then m' == m
    else if m.step + 1 < |c.steps| then
      && m'.phase == Running && m'.step == m.step + 1 && m'.since == now
      && 0 <= m'.step && m'.canary == c.steps[m'.step]
    else m'.phase == Completed && m'.canary == 100.0
  }

  /** In every run: a rollback takes effect at once, a promotion only after the interval, and only to the next step. */
  lemma {:induction false} TicksInRuns(c: Config, run: seq<Cluster>, steps: seq<Step>, v: View, k: nat)
    requires IsRun(c, run, steps, v) && k < |steps| && steps[k].TickStep?
    ensures var st := steps[k];
            && st.i in run[k].members && st.i in run[k + 1].members
            && TicksRightly(c, run[k].members[st.i].st, run[k + 1].members[st.i].st, st.now, st.rollback, st.promote)
            && (run[k + 1].members[st.i].st == run[k].members[st.i].st || |run[k + 1].log| == |run[k].log| + 1)
  {
    hide Others;
    RunKeepsInv(c, run, steps, v, k);
    assert Next(c, run[k], steps[k], run[k + 1]) && MemberOk(c, run[k], v, steps[k].i);
  }

  ghost predicate Moves(run: seq<Cluster>, k: nat, i: Id) {
    k + 1 < |run| && i in run[k].members && i in run[k + 1].members
    && run[k + 1].members[i].st != run[k].members[i].st
  }

  /** A tick that leads on: to a later step, or to completion. */
  ghost predicate Promotes(run: seq<Cluster>, steps: seq<Step>, k: nat) {
    k < |steps| && steps[k].TickStep? && Moves(run, k, steps[k].i) && run[k + 1].members[steps[k].i].st.phase != Failed
  }

  function TimeOf(st: Step): int { if st.Publish? then 0 else st.now }

  /** Whatever makes an instance run, a tick, a reset or a message, starts its interval. */
  lemma {:induction false} MoveStartsInterval(c: Config, s: Cluster, st: Step, s': Cluster, i: Id)
    requires c.steps != [] && Next(c, s, st, s') && i in s.members && i in s'.members
    requires s'.members[i].st != s.members[i].st && s'.members[i].st.phase == Running
    ensures st.i == i && !st.Publish? && s'.members[i].st.since == TimeOf(st)
  {
    hide Others;
  }

  lemma {:induction false} StillAsBefore(c: Config, run: seq<Cluster>, steps: seq<Step>, v: View, i: Id, j: nat, k: nat)
    requires IsRun(c, run, steps, v) && j <= k < |run| && i in run[j].members
    requires forall n: nat :: j <= n < k ==> !Moves(run, n, i)
    ensures i in run[k].members && run[k].members[i].st == run[j].members[i].st
    decreases k - j
  {
    hide Tick, Start, Apply;
    if j < k {
      StillAsBefore(c, run, steps, v, i, j, k - 1);
      assert Next(c, run[k - 1], steps[k - 1], run[k]) && !Moves(run, k - 1, i);
    }
  }

  /** A promotion comes at least an interval after whatever last moved the instance, another promotion in particular. */
  lemma {:induction false} PromotionWaits(c: Config, run: seq<Cluster>, steps: seq<Step>, v: View, j: nat, k: nat)
    requires IsRun(c, run, steps, v) && j < k < |steps| && Promotes(run, steps, k) && Moves(run, j, steps[k].i)
    requires forall n: nat :: j < n < k ==> !Moves(run, n, steps[k].i)
    ensures steps[j].i == steps[k].i && !steps[j].Publish? && steps[k].now - TimeOf(steps[j]) >= c.interval
  {
    hide Next;
    var i := steps[k].i;
    TicksInRuns(c, run, steps, v, k);
    StillAsBefore(c, run, steps, v, i, j + 1, k);
    MoveStartsInterval(c, run[j], steps[j], run[j + 1], i);
  }

  // ---------------------------------------------------------------- where a view comes from

  ghost predicate Shows(s: Cluster, i: Id, v: View) { i in s.members && ViewOf(s.members[i].st) == v }

  /** Every change was made at some step, and its maker showed it then. */
  lemma {:induction false} ChangeWasMade(c: Config, run: seq<Cluster>, steps: seq<Step>, v: View, k: nat, n: nat)
    returns (j: nat)
    requires IsRun(c, run, steps, v) && k < |run| && 1 <= n <= |run[k].changes|
    ensures 0 < j <= k && !steps[j - 1].Deliver? && steps[j - 1].i == run[k].changes[n - 1].maker
    ensures Shows(run[j], run[k].changes[n - 1].maker, ViewAt(c, run[k].changes, v, n))
  {
    hide Next, ViewOf, ViewAt, Inv, Init;
    RunKeepsInv(c, run, steps, v, k);
    if k == 0 {
      NothingChanged(c, run[0], v);
    }
    RunKeepsInv(c, run, steps, v, k - 1);
    ChangesGrow(c, run[k - 1], steps[k - 1], run[k], v);
    if n <= |run[k - 1].changes| {
      j := ChangeWasMade(c, run, steps, v, k - 1, n);
      SameViewAt(c, run[k - 1].changes, run[k].changes, v, n);
    } else {
      j := k;
    }
  }

  lemma {:induction false} NothingChanged(c: Config, s: Cluster, v: View)
    requires Init(c, s, v)
    ensures s.changes == []
  {
  }

  lemma {:induction false} ChangesGrow(c: Config, s: Cluster, st: Step, s': Cluster, v: View)
    requires c.steps != [] && Inv(c, s', v) && Next(c, s, st, s')
    ensures s.changes <= s'.changes && |s'.changes| <= |s.changes| + 1
    ensures var n := |s'.changes|;
            n > |s.changes| ==>
              !st.Deliver? && s'.changes[n - 1].maker == st.i && Shows(s', st.i, ViewAt(c, s'.changes, v, n))
  {
    hide ViewOf, ViewAt, Good, Tick, Start, Apply;
    assert MemberOk(c, s', v, st.i);
  }

  lemma {:induction false} SameViewAt(c: Config, a: seq<Change>, b: seq<Change>, v: View, n: nat)
    requires c.steps != [] && a <= b && 1 <= n <= |a|
    ensures a[n - 1] == b[n - 1] && ViewAt(c, a, v, n) == ViewAt(c, b, v, n)
  {
  }

  /**
   Whatever was lost and in whatever order, an instance shows the common start or what some instance once made
   by itself.
   */
  lemma {:induction false} EveryViewWasMade(c: Config, run: seq<Cluster>, steps: seq<Step>, v: View, k: nat, i: Id)
    returns (j: nat)
    requires IsRun(c, run, steps, v) && k < |run| && i in run[k].members
    ensures j <= k
    ensures Shows(run[k], i, v) || (0 < j && !steps[j - 1].Deliver?
      && Shows(run[j], steps[j - 1].i, ViewOf(run[k].members[i].st)))
  {
    RunKeepsInv(c, run, steps, v, k);
    assert MemberOk(c, run[k], v, i);
    j := 0;
    if run[k].members[i].stem > 0 {
      j := ChangeWasMade(c, run, steps, v, k, run[k].members[i].stem);
    }
  }

  /** A state that stems from the start or from a change of the leader is one the leader showed before or shows now. */
  lemma {:induction false} FollowerShowsEarlierLeader(
    c: Config, run: seq<Cluster>, steps: seq<Step>, v: View, leader: Id, k: nat, i: Id) returns (j: nat)
    requires IsRun(c, run, steps, v) && k < |run| && i in run[k].members && leader in run[0].members
    requires var n := run[k].members[i].stem;
             n == 0 || (n <= |run[k].changes| && run[k].changes[n - 1].maker == leader)
    ensures j <= k && Shows(run[j], leader, ViewOf(run[k].members[i].st))
  {
    RunKeepsInv(c, run, steps, v, k);
    assert MemberOk(c, run[k], v, i);
    j := 0;
    if run[k].members[i].stem > 0 {
      j := ChangeWasMade(c, run, steps, v, k, run[k].members[i].stem);
    }
  }

  // ---------------------------------------------------------------- the newest message

  predicate SameProgress(e: Event, f: Event) { e.phase == f.phase && (e.phase.Running? ==> e.step == f.step) }

  /** Views are equal exactly for events of the same phase and, while running, the same step. */
  lemma {:induction false} ViewsDiffer(c: Config, e: Event, f: Event)
    requires ConfigOk(c) && GoodEvent(c, e) && GoodEvent(c, f)
    ensures ViewOfEvent(c, e) == ViewOfEvent(c, f) <==> SameProgress(e, f)
  {
    if e.phase.Running? && f.phase.Running? && e.step != f.step {
      assert e.step < f.step || f.step < e.step;
    }
  }

  /** After `i` applied the newest message, which `p` published. */
  ghost predicate HeardNewest(s: Cluster, st: Step, p: Id) {
    st.Deliver? && st.i in s.members && st.i != p && p in s.members && st.k + 1 == |s.log| && s.log[st.k].origin == p
  }

  /**
   After the newest message is delivered, the receiver agrees with its publisher exactly if the change the
   publisher's state stems from has the phase and step that were announced.
   */
  lemma {:induction false} NewestMessageAgrees(c: Config, run: seq<Cluster>, steps: seq<Step>, v: View, k: nat, p: Id)
    requires IsRun(c, run, steps, v) && k < |steps| && HeardNewest(run[k], steps[k], p)
    ensures var s := run[k + 1];
            && steps[k].i in s.members && p in s.members && 0 < run[k].members[p].stem <= |run[k].changes|
            && (ViewOf(s.members[steps[k].i].st) == ViewOf(s.members[p].st) <==>
                SameProgress(run[k].log[steps[k].k].ev, EventOf(run[k].changes[run[k].members[p].stem - 1])))
  {
    hide ViewOf, ViewOfEvent, Good, Apply;
    RunKeepsInv(c, run, steps, v, k);
    var s, i, e := run[k], steps[k].i, run[k].log[steps[k].k];
    assert MemberOk(c, s, v, p) && MemberOk(c, s, v, i) && MessageOk(s, steps[k].k) && OwnIsLast(s, p);
    assert s.members[p].stem > 0 && Next(c, s, steps[k], run[k + 1]);
    var d := s.changes[s.members[p].stem - 1];
    assert ChangeOk(c, d) && ChangeOk(c, s.changes[e.change - 1]);
    ApplyFollows(c, s.members[i].st, e.ev, steps[k].now);
    ViewsDiffer(c, e.ev, EventOf(d));
  }

  /**
   If the publisher's state stems from a change of its own, the receiver agrees with it exactly if that is the change
   announced, or both are resets: the publisher has neither ticked nor, after a tick, been reset since.
   */
  lemma {:induction false} LatestBroadcastConverges(c: Config, run: seq<Cluster>, steps: seq<Step>, v: View, k: nat,
    p: Id)
    requires IsRun(c, run, steps, v) && k < |steps| && HeardNewest(run[k], steps[k], p)
    requires run[k].members[p].stem > 0 && run[k].members[p].stem <= |run[k].changes|
    requires run[k].changes[run[k].members[p].stem - 1].maker == p
    ensures var s, n, d := run[k + 1], run[k].log[steps[k].k].change, run[k].members[p].stem;
            && steps[k].i in s.members && p in s.members && 1 <= n <= |run[k].changes|
            && (ViewOf(s.members[steps[k].i].st) == ViewOf(s.members[p].st) <==>
                n == d || (run[k].changes[n - 1].ByReset? && run[k].changes[d - 1].ByReset?))
  {
    hide ViewOf, Apply;
    NewestMessageAgrees(c, run, steps, v, k, p);
    RunKeepsInv(c, run, steps, v, k);
    var s := run[k];
    assert MessageOk(s, steps[k].k) && OwnIsLast(s, p);
    NewestOwn(c, s, v, p);
  }

  /**
   The newest message announces a reset, or the last change of its maker, or there was a reset after the tick
   it announces.
   */
  lemma {:induction false} NewestOwn(c: Config, s: Cluster, v: View, p: Id)
    requires c.steps != [] && Inv(c, s, v) && p in s.members && s.log != [] && s.log[|s.log| - 1].origin == p
    requires 1 <= s.members[p].stem <= |s.changes| && s.changes[s.members[p].stem - 1].maker == p
    ensures var n, d := s.log[|s.log| - 1].change, s.members[p].stem;
            && 1 <= n <= |s.changes|
            && (n != d ==> !(s.changes[n - 1].ByTick? && s.changes[d - 1].ByTick?))
            && (SameProgress(EventOf(s.changes[n - 1]), EventOf(s.changes[d - 1])) <==>
                n == d || (s.changes[n - 1].ByReset? && s.changes[d - 1].ByReset?))
  {
    hide ViewOf, ViewAt, Good;
    var k := |s.log| - 1;
    var n, d := s.log[k].change, s.members[p].stem;
    assert MessageOk(s, k) && OwnIsLast(s, p) && ChangeOk(c, s.changes[n - 1]) && ChangeOk(c, s.changes[d - 1]);
    assert n <= d;
    assert s.changes[d - 1].ByTick? ==> s.changes[d - 1].msg <= k;
  }

  // ---------------------------------------------------------------- two runs

  function Calm(v: State): Member { Member(v, 0, 0, {}) }

  /**
   A reset publishes only after it has released the lock.  If a tick rolls back in between, the broadcasts leave in
   the wrong order, and a follower that hears both ends up running while the publisher has failed.
   */
  lemma {:induction false} LateResetBroadcast(c: Config, idle: State) returns (run: seq<Cluster>, steps: seq<Step>)
    requires ConfigOk(c) && idle.phase.Idle?
    ensures IsRun(c, run, steps, ViewOf(idle)) && |steps| == 5 && HeardNewest(run[4], steps[4], "p")
    ensures var s := run[5];
      "p" in s.members && "q" in s.members && s.members["p"].st.phase == Failed && s.members["q"].st.phase == Running
  {
    hide Others;
    var up := Start(c, idle, 0);
    var (down, _) := Tick(c, up, 0, true, false);
    var heard := Apply(c, idle, Event(Failed, 0), 0).value;
    var wrong := Apply(c, heard, Event(Running, 0), 0).value;
    var m0, m1 := Message("p", Event(Failed, 0), 2), Message("p", Event(Running, 0), 1);
    var ch := [ByReset("p"), ByTick("p", Event(Failed, 0), 0)];
    var s0 := Cluster(map["p" := Calm(idle), "q" := Calm(idle)], [], []);
    var s1 := Cluster(map["p" := Member(up, 1, 0, {1}), "q" := Calm(idle)], [ByReset("p")], []);
    var s2 := Cluster(map["p" := Member(down, 2, 0, {1}), "q" := Calm(idle)], ch, [m0]);
    var s3 := Cluster(map["p" := Member(down, 2, 0, {}), "q" := Calm(idle)], ch, [m0, m1]);
    var s4 := Cluster(map["p" := Member(down, 2, 0, {}), "q" := Member(heard, 2, 1, {})], ch, [m0, m1]);
    var s5 := Cluster(map["p" := Member(down, 2, 0, {}), "q" := Member(wrong, 1, 2, {})], ch, [m0, m1]);
    run := [s0, s1, s2, s3, s4, s5];
    steps := [ResetStep("p", 0), TickStep("p", 0, true, false), Publish("p", 1), Deliver("q", 0, 0),
      Deliver("q", 1, 0)];
    assert Next(c, s0, steps[0], s1) by {
      assert {} + {1} == {1};
      assert s1.members == s0.members["p" := Member(up, 1, 0, {1})];
    }
    assert Next(c, s1, steps[1], s2) by { assert s2.members == s1.members["p" := Member(down, 2, 0, {1})]; }
    assert Next(c, s2, steps[2], s3) by {
      assert {1} - {1} == {};
      assert s3.members == s2.members["p" := Member(down, 2, 0, {})];
    }
    assert Next(c, s3, steps[3], s4) by { assert s4.members == s3.members["q" := Member(heard, 2, 1, {})]; }
    assert Next(c, s4, steps[4], s5) by { assert s5.members == s4.members["q" := Member(wrong, 1, 2, {})]; }
  }

  /** A reset on a follower whose broadcast is lost: the follower runs, and the leader never did. */
  lemma {:induction false} ResetOnFollower(c: Config, idle: State) returns (run: seq<Cluster>, steps: seq<Step>)
    requires ConfigOk(c) && idle.phase.Idle?
    ensures IsRun(c, run, steps, ViewOf(idle)) && |steps| == 2
    ensures "q" in run[2].members && run[2].members["q"].st.phase == Running && run[2].members["q"].unsent == {}
    ensures forall j :: 0 <= j < |run| ==> Shows(run[j], "leader", ViewOf(idle))
  {
    var up := Start(c, idle, 0);
    var s0 := Cluster(map["leader" := Calm(idle), "q" := Calm(idle)], [], []);
    var s1 := Cluster(map["leader" := Calm(idle), "q" := Member(up, 1, 0, {1})], [ByReset("q")], []);
    var s2 := Cluster(map["leader" := Calm(idle), "q" := Member(up, 1, 0, {})], [ByReset("q")],
      [Message("q", Event(Running, 0), 1)]);
    run, steps := [s0, s1, s2], [ResetStep("q", 0), Publish("q", 1)];
    assert Next(c, s0, steps[0], s1) by {
      assert {} + {1} == {1};
      assert s1.members == s0.members["q" := Member(up, 1, 0, {1})];
    }
    assert Next(c, s1, steps[1], s2) by {
      assert {1} - {1} == {};
      assert s2.members == s1.members["q" := Member(up, 1, 0, {})];
    }
  }
}
