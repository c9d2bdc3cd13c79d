/**
 The leader lease of internal/cluster/cluster.go: a step relation over one clock.

 Each instance renews by a script that Redis executes atomically.  The script may execute at
 any moment, also long after the caller gave up on it; the reply may be lost.
 */
module Lease {
  import opened Options

  type Id = string

  /** Lease length, operation timeout, and the longest time between two tick completions of a running instance. */
  datatype Params = Params(ttl: int, op: int, gap: int)

  ghost predicate ParamsOk(c: Params) { 0 < c.ttl && 0 <= c.op <= c.gap && 0 < c.gap }

  datatype Lock = Free | Held(holder: Id, expiry: int)
  datatype Exec = Exec(at: int, got: bool)
  datatype Phase = Idle | Waiting(start: int, exec: Option<Exec>)
  datatype Mode = Running | Resigning | Stopped

  /**
   One instance.  `leader` and `lastRenew` are the program's fields; `since` (when `leader` last
   became true), `confirmed` (when the script of the last confirmed win executed) and `lastEnd`
   (the last tick completion) record history.
   */
  datatype Inst = Inst(leader: bool, lastRenew: Option<int>, since: int, confirmed: int, lastEnd: int, phase: Phase,
    mode: Mode)

  datatype State = State(now: int, lock: Lock, insts: map<Id, Inst>)

  // ---------------------------------------------------------------- what the program computes

  predicate Vacant(lock: Lock, now: int) { lock.Free? || now >= lock.expiry }

  /** renewLeaderScript: take a vacant lock, extend one's own, otherwise fail. */
  function Renew(lock: Lock, id: Id, now: int, ttl: int): (Lock, bool) {
    if Vacant(lock, now) || lock.holder == id then (Held(id, now + ttl), true) else (lock, false)
  }

  /** The resign script: delete the lock if it is one's own. */
  function Release(lock: Lock, id: Id, now: int): Lock {
    if !Vacant(lock, now) && lock.holder == id then Free else lock
  }

  /** The end of a tick whose reply arrived. */
  function OnReply(m: Inst, now: int, e: Exec): Inst {
    m.(leader := e.got, lastRenew := Some(now), since := if e.got && !m.leader then now else m.since,
       confirmed := if e.got then e.at else m.confirmed, lastEnd := now, phase := Idle)
  }

  /** The end of a tick without a reply: step down once a whole lease passed without confirmation. */
  function OnError(m: Inst, now: int, ttl: int): Inst {
    var demote := m.leader && m.lastRenew.Some? && now - m.lastRenew.value >= ttl;
    m.(leader := m.leader && !demote, lastEnd := now, phase := Idle)
  }

  /** The election part of the cluster manager. */
  class Manager {
    var leader: bool
    var lastRenew: Option<int>

    ghost predicate Shows(m: Inst)
      reads this
    {
      leader == m.leader && lastRenew == m.lastRenew
    }

    constructor ()
      ensures !leader && lastRenew == None
    {
      leader, lastRenew := false, None;
    }

    /** The tail of tick: `reply` is the script's answer, None an error. */
    method FinishTick(reply: Option<bool>, now: int, ttl: int, ghost m: Inst, ghost at: int)
      requires Shows(m)
      modifies this
      ensures reply.Some? ==> Shows(OnReply(m, now, Exec(at, reply.value)))
      ensures reply.None? ==> Shows(OnError(m, now, ttl))
      ensures reply.Some? ==> leader == reply.value && lastRenew == Some(now)
      ensures reply.None? ==> lastRenew == old(lastRenew)
      ensures reply.None? ==>
        (leader <==> old(leader) && (old(lastRenew).Some? ==> now - old(lastRenew).value < ttl))
    {
      if reply.None? {
        if leader && lastRenew.Some? && now - lastRenew.value >= ttl {
          leader := false;
        }
        return;
      }
      lastRenew := Some(now);
      leader := reply.value;
    }
  }

  /** The renew script wins exactly a lock that is free, run out or one's own, and then holds it for one lease. */
  lemma {:induction false} RenewIff(lock: Lock, id: Id, now: int, ttl: int)
    ensures var (after, won) := Renew(lock, id, now, ttl);
            && (won <==> lock.Free? || lock.expiry <= now || lock.holder == id)
            && (won ==> after == Held(id, now + ttl)) && (!won ==> after == lock)
  {
  }

  /** After the holder's resign script the lock is free, so whoever comes next wins; others' scripts change nothing. */
  lemma {:induction false} ResignHandsOver(lock: Lock, id: Id, next: Id, now: int, later: int, ttl: int)
    requires now <= later
    ensures lock.Held? && lock.holder == id ==>
      Renew(Release(lock, id, now), next, later, ttl) == (Held(next, later + ttl), true)
    ensures lock.Held? && lock.holder != id ==> Release(lock, id, now) == lock
  {
  }

  // ---------------------------------------------------------------- steps

  datatype Step =
    | Advance(to: int)          // the clock
    | TickStart(i: Id)          // an instance sends its script
    | Execute(i: Id)            // Redis executes it
    | Reply(i: Id)              // the answer arrives in time
    | Fail(i: Id)               // timeout or lost answer
    | Stray(i: Id)              // a script executes that nobody waits for any more
    | ResignStart(i: Id)
    | ResignDelete(i: Id)       // may also execute late
    | ResignEnd(i: Id)

  ghost predicate InTime(m: Inst, now: int, c: Params) {
    m.mode.Running? ==> now <= m.lastEnd + c.gap && (m.phase.Waiting? ==> now <= m.phase.start + c.op)
  }

  ghost predicate Next(s: State, st: Step, s': State, c: Params) {
    match st
    case Advance(to) =>
      s.now <= to && s' == s.(now := to) && forall i :: i in s.insts ==> InTime(s.insts[i], to, c)
    case TickStart(i) =>
      i in s.insts && s.insts[i].mode.Running? && s.insts[i].phase.Idle? &&
      s' == s.(insts := s.insts[i := s.insts[i].(phase := Waiting(s.now, None))])
    case Execute(i) =>
      i in s.insts && s.insts[i].mode.Running? && s.insts[i].phase.Waiting? && s.insts[i].phase.exec.None? &&
      var (lock, got) := Renew(s.lock, i, s.now, c.ttl);
      s' == State(s.now, lock, s.insts[i := s.insts[i].(phase := Waiting(s.insts[i].phase.start,
        Some(Exec(s.now, got))))])
    case Reply(i) =>
      i in s.insts && s.insts[i].mode.Running? && s.insts[i].phase.Waiting? && s.insts[i].phase.exec.Some? &&
      s' == s.(insts := s.insts[i := OnReply(s.insts[i], s.now, s.insts[i].phase.exec.value)])
    case Fail(i) =>
      i in s.insts && s.insts[i].mode.Running? && s.insts[i].phase.Waiting? &&
      s' == s.(insts := s.insts[i := OnError(s.insts[i], s.now, c.ttl)])
    case Stray(i) =>
      i in s.insts && s' == s.(lock := Renew(s.lock, i, s.now, c.ttl).0)
    case ResignStart(i) =>
      i in s.insts && s.insts[i].mode.Running? && s.insts[i].phase.Idle?
        && s' == s.(insts := s.insts[i := s.insts[i].(mode := Resigning)])
    case ResignDelete(i) =>
      i in s.insts && !s.insts[i].mode.Running? && s' == s.(lock := Release(s.lock, i, s.now))
    case ResignEnd(i) =>
      i in s.insts && s.insts[i].mode.Resigning? && s' == s.(insts := s.insts[i := s.insts[i].(mode := Stopped,
        leader := false)])
  }

  ghost predicate Init(s: State) {
    s.now == 0 && s.lock.Free? &&
    forall i :: i in s.insts ==> s.insts[i] == Inst(false, None, 0, 0, 0, Idle, Running)
  }

  /** A run: states `run[0]`, `run[1]`, ... joined by steps. */
  ghost predicate IsRun(run: seq<State>, steps: seq<Step>, c: Params) {
    |run| == |steps| + 1 && Init(run[0]) && forall k :: 0 <= k < |steps| ==> Next(run[k], steps[k], run[k + 1], c)
  }

  // ---------------------------------------------------------------- invariant

  /** A win of `m` that nobody else may have overridden within a lease: confirmed, or executed and not yet answered. */
  ghost predicate Grant(m: Inst, g: int) {
    m.mode.Running? &&
    ((m.leader && g == m.confirmed) || (m.phase.Waiting? && m.phase.exec.Some? && m.phase.exec.value == Exec(g, true)))
  }

  ghost predicate Timely(m: Inst, now: int, c: Params) {
    m.mode.Running? ==>
      && m.lastEnd <= now <= m.lastEnd + c.gap
      && (m.phase.Waiting? ==> m.phase.start <= now <= m.phase.start + c.op)
      && (m.phase.Waiting? && m.phase.exec.Some? ==> m.phase.start <= m.phase.exec.value.at <= now)
      && (m.leader ==> m.lastRenew.Some? && m.confirmed <= m.lastRenew.value <= m.confirmed + c.op)
      && (m.leader ==> m.lastRenew.value <= m.lastEnd < m.lastRenew.value + c.ttl)
  }

  /** A win protects the lock for a whole lease. */
  ghost predicate Protected(s: State, c: Params) {
    forall i, g :: i in s.insts && Grant(s.insts[i], g) && s.now < g + c.ttl ==>
      s.lock.Held? && s.lock.holder == i && s.lock.expiry >= g + c.ttl
  }

  /** Wins of different instances are at least a lease apart. */
  ghost predicate Apart(s: State, c: Params) {
    forall i, j, g, h :: i in s.insts && j in s.insts && i != j && Grant(s.insts[i], g) && Grant(s.insts[j], h) ==>
      g + c.ttl <= h || h + c.ttl <= g
  }

  ghost predicate Inv(s: State, c: Params) {
    && (forall i :: i in s.insts ==> Timely(s.insts[i], s.now, c))
    && (forall i, g :: i in s.insts && Grant(s.insts[i], g) ==> g <= s.now)
    && Protected(s, c) && Apart(s, c)
  }

  lemma {:induction false} ExecuteKeepsInv(s: State, i: Id, s': State, c: Params)
    requires ParamsOk(c) && Inv(s, c) && Next(s, Execute(i), s', c)
    ensures Inv(s', c)
  {
    forall j | j in s'.insts ensures Timely(s'.insts[j], s'.now, c) {
      assert Timely(s.insts[j], s.now, c);
    }
    forall j, g | j in s'.insts && Grant(s'.insts[j], g)
      ensures g <= s'.now && (Grant(s.insts[j], g) || (j == i && g == s.now))
    {
    }
    var got := Renew(s.lock, i, s.now, c.ttl).1;
    forall j, g | j in s.insts && j != i && Grant(s.insts[j], g) ensures got ==> g + c.ttl <= s.now {
    }
    forall j, g | j in s'.insts && Grant(s'.insts[j], g) && s'.now < g + c.ttl
      ensures s'.lock.Held? && s'.lock.holder == j && s'.lock.expiry >= g + c.ttl
    {
      var (lock, won) := Renew(s.lock, i, s.now, c.ttl);
      assert s'.lock == lock && g <= s.now;
      if Grant(s.insts[j], g) {
        assert s.lock.Held? && s.lock.holder == j && s.lock.expiry >= g + c.ttl;
      } else {
        assert j == i && won;
      }
    }
    assert forall j :: j in s.insts && j != i ==> s'.insts[j] == s.insts[j];
  }

  lemma {:induction false} StepKeepsInv(s: State, st: Step, s': State, c: Params)
    requires ParamsOk(c) && Inv(s, c) && Next(s, st, s', c)
    ensures Inv(s', c)
  {
    if st.Execute? {
      ExecuteKeepsInv(s, st.i, s', c);
    } else {
      forall j | j in s'.insts ensures Timely(s'.insts[j], s'.now, c) {
        assert Timely(s.insts[j], s.now, c);
      }
      forall j, g | j in s'.insts && Grant(s'.insts[j], g) ensures Grant(s.insts[j], g) {
      }
      forall j, g | j in s'.insts && Grant(s'.insts[j], g) && s'.now < g + c.ttl
        ensures s'.lock.Held? && s'.lock.holder == j && s'.lock.expiry >= g + c.ttl
      {
        assert Grant(s.insts[j], g) && s.now < g + c.ttl;
      }
    }
  }

  lemma {:induction false} RunKeepsInv(run: seq<State>, steps: seq<Step>, c: Params, k: nat)
    requires ParamsOk(c) && IsRun(run, steps, c) && k < |run|
    ensures Inv(run[k], c)
  {
    if k > 0 {
      RunKeepsInv(run, steps, c, k - 1);
      StepKeepsInv(run[k - 1], steps[k - 1], run[k], c);
    }
  }

  ghost predicate Leads(s: State, i: Id) {
    i in s.insts && s.insts[i].leader && s.insts[i].mode.Running?
  }

  /**
   In every run, two instances that both believe to lead have wins a whole lease apart, and the
   moment lies less than an operation timeout and a tick gap after the newer win.
   */
  lemma {:induction false} DoubleLeadershipIsShort(run: seq<State>, steps: seq<Step>, c: Params, k: nat, i: Id, j: Id)
    requires ParamsOk(c) && IsRun(run, steps, c) && k < |run| && i != j && Leads(run[k], i) && Leads(run[k], j)
    requires run[k].insts[i].confirmed <= run[k].insts[j].confirmed
    ensures run[k].insts[i].confirmed + c.ttl <= run[k].insts[j].confirmed
    ensures run[k].now < run[k].insts[j].confirmed + c.op + c.gap
  {
    var s := run[k];
    RunKeepsInv(run, steps, c, k);
    assert Timely(s.insts[i], s.now, c);
    assert Grant(s.insts[i], s.insts[i].confirmed) && Grant(s.insts[j], s.insts[j].confirmed);
  }

  // ---------------------------------------------------------------- how long two instances overlap

  /** A leader whose win is later than a grant of somebody else took over a whole lease after that grant. */
  ghost predicate TookOverLate(s: State, c: Params) {
    forall i, j, g ::
      (i in s.insts && j in s.insts && i != j && Leads(s, j) && Grant(s.insts[i], g) && g < s.insts[j].confirmed) ==>
        g + c.ttl <= s.insts[j].since
  }

  lemma {:induction false} ReplyTakesOverLate(s: State, j: Id, s': State, c: Params, i: Id, g: int)
    requires ParamsOk(c) && c.op + c.gap <= c.ttl && Inv(s, c) && TookOverLate(s, c) && Next(s, Reply(j), s', c)
    requires i in s'.insts && i != j && Leads(s', j) && Grant(s'.insts[i], g) && g < s'.insts[j].confirmed
    ensures g + c.ttl <= s'.insts[j].since
  {
    var before, at := s.insts[j], s.insts[j].phase.exec.value.at;
    assert Grant(s.insts[i], g) && Grant(before, at);
    assert g + c.ttl <= at <= s.now;
    assert Timely(before, s.now, c);
    if before.leader {
      assert Grant(before, before.confirmed);
      if g < before.confirmed {
        assert Leads(s, j);
      }
    }
  }

  lemma {:induction false} StepKeepsTookOverLate(s: State, st: Step, s': State, c: Params)
    requires ParamsOk(c) && c.op + c.gap <= c.ttl && Inv(s, c) && TookOverLate(s, c) && Next(s, st, s', c)
    ensures TookOverLate(s', c)
  {
    forall i, j, g | i in s'.insts && j in s'.insts && i != j && Leads(s', j) && Grant(s'.insts[i], g)
      && g < s'.insts[j].confirmed
      ensures g + c.ttl <= s'.insts[j].since
    {
      if st == Reply(j) {
        ReplyTakesOverLate(s, j, s', c, i, g);
      } else {
        assert Leads(s, j) && Timely(s.insts[j], s.now, c);
        assert Grant(s.insts[i], g);
      }
    }
  }

  lemma {:induction false} RunKeepsTookOverLate(run: seq<State>, steps: seq<Step>, c: Params, k: nat)
    requires ParamsOk(c) && c.op + c.gap <= c.ttl && IsRun(run, steps, c) && k < |run|
    ensures TookOverLate(run[k], c)
  {
    if k > 0 {
      RunKeepsInv(run, steps, c, k - 1);
      RunKeepsTookOverLate(run, steps, c, k - 1);
      StepKeepsTookOverLate(run[k - 1], steps[k - 1], run[k], c);
    }
  }

  function Later(a: int, b: int): int { if a < b then b else a }

  /** When a lease outlasts an operation timeout plus a tick gap, two leaders overlap for less than that sum. */
  lemma {:induction false} OverlapIsShort(run: seq<State>, steps: seq<Step>, c: Params, k: nat, i: Id, j: Id)
    requires ParamsOk(c) && c.op + c.gap <= c.ttl
    requires IsRun(run, steps, c) && k < |run| && i != j && Leads(run[k], i) && Leads(run[k], j)
    ensures run[k].now - Later(run[k].insts[i].since, run[k].insts[j].since) < c.op + c.gap
  {
    var s := run[k];
    RunKeepsInv(run, steps, c, k);
    RunKeepsTookOverLate(run, steps, c, k);
    assert Timely(s.insts[i], s.now, c) && Timely(s.insts[j], s.now, c);
    assert Grant(s.insts[i], s.insts[i].confirmed) && Grant(s.insts[j], s.insts[j].confirmed);
  }
}
