/** The condition of `Lease.OverlapIsShort` is sharp: without it two leaders can overlap too long. */
module LeaseSharp {
  import opened Options
  import opened Lease

  datatype Trace = Trace(run: seq<State>, steps: seq<Step>)

  ghost predicate Reaches(t: Trace, c: Params, s: State) {
    IsRun(t.run, t.steps, c) && t.run[|t.run| - 1] == s
  }

  function Pair(now: int, lock: Lock, a: Inst, b: Inst): State {
    State(now, lock, map["a" := a, "b" := b])
  }

  lemma {:induction false} Extend(t: Trace, c: Params, s: State, st: Step, s': State) returns (t': Trace)
    requires Reaches(t, c, s) && Next(s, st, s', c)
    ensures Reaches(t', c, s')
  {
    t' := Trace(t.run + [s'], t.steps + [st]);
    forall k | 0 <= k < |t'.steps| ensures Next(t'.run[k], t'.steps[k], t'.run[k + 1], c) {
      if k < |t.steps| {
        assert t'.run[k] == t.run[k] && t'.run[k + 1] == t.run[k + 1];
      }
    }
  }

  lemma {:induction false} Wait(t: Trace, c: Params, s: State, until: int) returns (t': Trace)
    requires Reaches(t, c, s) && s.now <= until && forall i :: i in s.insts ==> InTime(s.insts[i], until, c)
    ensures Reaches(t', c, s.(now := until))
  {
    t' := Extend(t, c, s, Advance(until), s.(now := until));
  }

  /** A tick whose answer is lost. */
  lemma {:induction false} LostTick(t: Trace, c: Params, s: State, i: Id) returns (t': Trace)
    requires Reaches(t, c, s) && i in s.insts && s.insts[i].mode.Running? && s.insts[i].phase.Idle?
    ensures Reaches(t', c, s.(insts := s.insts[i := OnError(s.insts[i], s.now, c.ttl)]))
  {
    var m := s.insts[i];
    var s1 := s.(insts := s.insts[i := m.(phase := Waiting(s.now, None))]);
    var s2 := s.(insts := s.insts[i := OnError(m, s.now, c.ttl)]);
    var t1 := Extend(t, c, s, TickStart(i), s1);
    assert s2.insts == s1.insts[i := OnError(s1.insts[i], s1.now, c.ttl)];
    t' := Extend(t1, c, s1, Fail(i), s2);
  }

  /** A tick that is sent and executed, not yet answered. */
  lemma {:induction false} SentTick(t: Trace, c: Params, s: State, i: Id) returns (t': Trace)
    requires Reaches(t, c, s) && i in s.insts && s.insts[i].mode.Running? && s.insts[i].phase.Idle?
    requires Vacant(s.lock, s.now) || s.lock.holder == i
    ensures Reaches(t', c, State(s.now, Held(i, s.now + c.ttl),
      s.insts[i := s.insts[i].(phase := Waiting(s.now, Some(Exec(s.now, true))))]))
  {
    var m := s.insts[i];
    var s1 := s.(insts := s.insts[i := m.(phase := Waiting(s.now, None))]);
    var s2 := State(s.now, Held(i, s.now + c.ttl), s.insts[i := m.(phase := Waiting(s.now, Some(Exec(s.now, true))))]);
    var t1 := Extend(t, c, s, TickStart(i), s1);
    assert s2.insts == s1.insts[i := s1.insts[i].(phase := Waiting(s1.insts[i].phase.start, Some(Exec(s1.now, true))))];
    t' := Extend(t1, c, s1, Execute(i), s2);
  }

  ghost predicate Holding(m: Inst, since: int, until: int, c: Params) {
    m.mode.Running? && m.phase.Idle? && m.lastEnd == since && (m.leader ==>
      m.lastRenew.Some? && until - m.lastRenew.value < c.ttl)
  }

  /** Both instances get through from `n` to a later moment on lost ticks alone. */
  lemma {:induction false} BothHold(t: Trace, c: Params, n: int, lock: Lock, a: Inst, b: Inst, until: int)
    returns (t': Trace)
    requires ParamsOk(c) && Reaches(t, c, Pair(n, lock, a, b))
    requires n <= until && Holding(a, n, until, c) && Holding(b, n, until, c)
    ensures Reaches(t', c, Pair(until, lock, a.(lastEnd := until), b.(lastEnd := until)))
    decreases until - n
  {
    hide Reaches, Next;
    t' := t;
    if n < until {
      var a1, b1 := a.(lastEnd := n + 1), b.(lastEnd := n + 1);
      t' := Wait(t', c, Pair(n, lock, a, b), n + 1);
      t' := LostTick(t', c, Pair(n + 1, lock, a, b), "a");
      assert Pair(n + 1, lock, a, b).insts["a" := OnError(a, n + 1, c.ttl)] == Pair(n + 1, lock, a1, b).insts;
      t' := LostTick(t', c, Pair(n + 1, lock, a1, b), "b");
      assert Pair(n + 1, lock, a1, b).insts["b" := OnError(b, n + 1, c.ttl)] == Pair(n + 1, lock, a1, b1).insts;
      t' := BothHold(t', c, n + 1, lock, a1, b1, until);
    }
  }

  /** As above while the first instance completes no tick. */
  lemma {:induction false} OneHolds(t: Trace, c: Params, n: int, lock: Lock, a: Inst, b: Inst, until: int)
    returns (t': Trace)
    requires ParamsOk(c) && Reaches(t, c, Pair(n, lock, a, b))
    requires n <= until && Holding(b, n, until, c) && a.mode.Running? && a.phase.Idle? && until <= a.lastEnd + c.gap
    ensures Reaches(t', c, Pair(until, lock, a, b.(lastEnd := until)))
    decreases until - n
  {
    hide Reaches, Next;
    t' := t;
    if n < until {
      var b1 := b.(lastEnd := n + 1);
      t' := Wait(t', c, Pair(n, lock, a, b), n + 1);
      t' := LostTick(t', c, Pair(n + 1, lock, a, b), "b");
      assert Pair(n + 1, lock, a, b).insts["b" := OnError(b, n + 1, c.ttl)] == Pair(n + 1, lock, a, b1).insts;
      t' := OneHolds(t', c, n + 1, lock, a, b1, until);
    }
  }

  function Fresh(lastEnd: int): Inst {
    Inst(false, None, 0, 0, lastEnd, Idle, Running)
  }

  function LeaderInst(renewed: int, since: int, confirmed: int, lastEnd: int): Inst {
    Inst(true, Some(renewed), since, confirmed, lastEnd, Idle, Running)
  }

  /** "a" wins at time 0 and learns it after a full operation timeout; then all its answers are lost. */
  lemma {:induction false} FirstWin(c: Params) returns (t: Trace)
    requires ParamsOk(c) && c.op < c.ttl
    ensures Reaches(t, c, Pair(c.ttl - 1, Held("a", c.ttl), LeaderInst(c.op, c.op, 0, c.ttl - 1), Fresh(c.ttl - 1)))
  {
    var s0 := Pair(0, Free, Fresh(0), Fresh(0));
    t := Trace([s0], []);
    t := SentTick(t, c, s0, "a");
    var w := Fresh(0).(phase := Waiting(0, Some(Exec(0, true))));
    var s1 := Pair(0, Held("a", c.ttl), w, Fresh(0));
    assert s0.insts["a" := w] == s1.insts;
    t := Wait(t, c, s1, c.op);
    var s2 := Pair(c.op, Held("a", c.ttl), w, Fresh(0));
    var s3 := Pair(c.op, Held("a", c.ttl), LeaderInst(c.op, c.op, 0, c.op), Fresh(0));
    assert s2.insts["a" := OnReply(w, c.op, Exec(0, true))] == s3.insts;
    t := Extend(t, c, s2, Reply("a"), s3);
    t := LostTick(t, c, s3, "b");
    var s4 := Pair(c.op, Held("a", c.ttl), LeaderInst(c.op, c.op, 0, c.op), Fresh(c.op));
    assert s3.insts["b" := OnError(Fresh(0), c.op, c.ttl)] == s4.insts;
    t := BothHold(t, c, c.op, Held("a", c.ttl), LeaderInst(c.op, c.op, 0, c.op), Fresh(c.op), c.ttl - 1);
  }

  /** "b" wins as soon as the lease runs out, while "a" still believes. */
  lemma {:induction false} SecondWin(c: Params) returns (t: Trace)
    requires ParamsOk(c) && c.op < c.ttl
    ensures Reaches(t, c, Pair(c.ttl, Held("b", 2 * c.ttl), LeaderInst(c.op, c.op, 0, c.ttl - 1),
      LeaderInst(c.ttl, c.ttl, c.ttl, c.ttl)))
  {
    var a, f := LeaderInst(c.op, c.op, 0, c.ttl - 1), Fresh(c.ttl - 1);
    t := FirstWin(c);
    var s1 := Pair(c.ttl - 1, Held("a", c.ttl), a, f);
    t := Wait(t, c, s1, c.ttl);
    var s2 := Pair(c.ttl, Held("a", c.ttl), a, f);
    t := SentTick(t, c, s2, "b");
    var w := f.(phase := Waiting(c.ttl, Some(Exec(c.ttl, true))));
    var s3 := Pair(c.ttl, Held("b", 2 * c.ttl), a, w);
    assert s2.insts["b" := w] == s3.insts;
    var s4 := Pair(c.ttl, Held("b", 2 * c.ttl), a, LeaderInst(c.ttl, c.ttl, c.ttl, c.ttl));
    assert s3.insts["b" := OnReply(w, c.ttl, Exec(c.ttl, true))] == s4.insts;
    t := Extend(t, c, s3, Reply("b"), s4);
  }

  /** "a" holds on until the lease of "b" runs out as well. */
  lemma {:induction false} HoldOn(c: Params) returns (t: Trace, last: int)
    requires ParamsOk(c) && c.op < c.ttl < c.op + c.gap
    ensures 2 * c.ttl <= last + c.gap && last <= 2 * c.ttl - 1
    ensures Reaches(t, c, Pair(2 * c.ttl - 1, Held("b", 2 * c.ttl), LeaderInst(c.op, c.op, 0, last),
      LeaderInst(c.ttl, c.ttl, c.ttl, 2 * c.ttl - 1)))
  {
    var a, b := LeaderInst(c.op, c.op, 0, c.ttl - 1), LeaderInst(c.ttl, c.ttl, c.ttl, c.ttl);
    t := SecondWin(c);
    var s := Pair(c.ttl, Held("b", 2 * c.ttl), a, b);
    last := c.op + c.ttl - 1;
    if c.op > 0 {
      t := LostTick(t, c, s, "a");
      var a1 := LeaderInst(c.op, c.op, 0, c.ttl);
      var s1 := Pair(c.ttl, Held("b", 2 * c.ttl), a1, b);
      assert s.insts["a" := OnError(a, c.ttl, c.ttl)] == s1.insts;
      t := BothHold(t, c, c.ttl, Held("b", 2 * c.ttl), a1, b, last);
      t := OneHolds(t, c, last, Held("b", 2 * c.ttl), LeaderInst(c.op, c.op, 0, last),
        LeaderInst(c.ttl, c.ttl, c.ttl, last), 2 * c.ttl - 1);
    } else {
      t := OneHolds(t, c, c.ttl, Held("b", 2 * c.ttl), a, b, 2 * c.ttl - 1);
    }
  }

  /** A lease between the two: "a" wins once more before it has to step down. */
  lemma {:induction false} LongWithLongLease(c: Params) returns (t: Trace)
    requires ParamsOk(c) && c.op < c.ttl < c.op + c.gap
    ensures IsRun(t.run, t.steps, c) && Overlaps(t.run[|t.run| - 1], c.op + c.gap)
  {
    var last;
    t, last := HoldOn(c);
    var a, b := LeaderInst(c.op, c.op, 0, last), LeaderInst(c.ttl, c.ttl, c.ttl, 2 * c.ttl - 1);
    var s1 := Pair(2 * c.ttl - 1, Held("b", 2 * c.ttl), a, b);
    t := Wait(t, c, s1, 2 * c.ttl);
    var s2 := Pair(2 * c.ttl, Held("b", 2 * c.ttl), a, b);
    t := SentTick(t, c, s2, "a");
    var w := a.(phase := Waiting(2 * c.ttl, Some(Exec(2 * c.ttl, true))));
    var s3 := Pair(2 * c.ttl, Held("a", 3 * c.ttl), w, b);
    assert s2.insts["a" := w] == s3.insts;
    var s4 := Pair(2 * c.ttl, Held("a", 3 * c.ttl), LeaderInst(2 * c.ttl, c.op, 2 * c.ttl, 2 * c.ttl), b);
    assert s3.insts["a" := OnReply(w, 2 * c.ttl, Exec(2 * c.ttl, true))] == s4.insts;
    t := Extend(t, c, s3, Reply("a"), s4);
    t := Wait(t, c, s4, 2 * c.ttl - 1 + c.gap);
  }

  // ---------------------------------------------------------------- leases no longer than the timeout

  /**
   Each instance sends two scripts when it wins: the answer to the first makes it a leader, the answer to the second is
   only accepted when the lease has run out, and tells of a win that is a whole lease old.
   */
  function Duo(now: int, x: Id, m: Inst, y: Id, n: Inst, ttl: int): State {
    State(now, Held(x, now + ttl), map[x := m, y := n])
  }

  function Won(now: int, since: int): Inst {
    Inst(true, Some(now), since, now, now, Waiting(now, Some(Exec(now, true))), Running)
  }

  function Since(m: Inst, now: int): int { if m.leader then m.since else now }

  /** An idle instance wins a lock that may be taken, and sends its second script. */
  lemma {:induction false} WinTwice(t: Trace, c: Params, s: State, i: Id) returns (t': Trace)
    requires Reaches(t, c, s) && i in s.insts && s.insts[i].mode.Running? && s.insts[i].phase.Idle?
      && Vacant(s.lock, s.now)
    ensures Reaches(t', c, State(s.now, Held(i, s.now + c.ttl), s.insts[i := Won(s.now, Since(s.insts[i], s.now))]))
  {
    hide Reaches;
    var m := s.insts[i];
    t' := SentTick(t, c, s, i);
    var w := m.(phase := Waiting(s.now, Some(Exec(s.now, true))));
    var s1 := State(s.now, Held(i, s.now + c.ttl), s.insts[i := w]);
    var led := OnReply(w, s.now, Exec(s.now, true));
    var s2 := State(s.now, Held(i, s.now + c.ttl), s.insts[i := led]);
    assert s2.insts == s1.insts[i := led];
    t' := Extend(t', c, s1, Reply(i), s2);
    t' := SentTick(t', c, s2, i);
    assert led.(phase := Waiting(s.now, Some(Exec(s.now, true)))) == Won(s.now, Since(m, s.now));
    assert s2.insts[i := Won(s.now, Since(m, s.now))] == s.insts[i := Won(s.now, Since(m, s.now))];
  }

  /** One lease later the other instance wins, and the first still leads. */
  lemma {:induction false} TakeTurns(t: Trace, c: Params, now: int, x: Id, since: int, y: Id, n: Inst)
    returns (t': Trace)
    requires ParamsOk(c) && c.ttl <= c.op && x != y
    requires n.mode.Running? && n.phase.Idle? && n.lastEnd == now
    requires Reaches(t, c, Duo(now, x, Won(now, since), y, n, c.ttl))
    ensures var later := now + c.ttl;
            Reaches(t', c, Duo(later, y, Won(later, Since(n, later)), x, LeaderInst(later, since, now, later), c.ttl))
  {
    hide Reaches;
    var later := now + c.ttl;
    var s0 := Duo(now, x, Won(now, since), y, n, c.ttl);
    t' := Wait(t, c, s0, later);
    var s1 := s0.(now := later);
    var led := LeaderInst(later, since, now, later);
    var s2 := s1.(insts := s1.insts[x := led]);
    assert OnReply(Won(now, since), later, Exec(now, true)) == led;
    t' := Extend(t', c, s1, Reply(x), s2);
    t' := WinTwice(t', c, s2, y);
    assert s2.insts[y := Won(later, Since(n, later))] == map[y := Won(later, Since(n, later)), x := led];
  }

  /** Both go on like this for as many leases as one likes. */
  lemma {:induction false} KeepTurns(t: Trace, c: Params, now: int, x: Id, a: int, y: Id, b: int, seen: int, k: nat)
    returns (t': Trace)
    requires ParamsOk(c) && c.ttl <= c.op && x != y
    requires Reaches(t, c, Duo(now, x, Won(now, a), y, LeaderInst(now, b, seen, now), c.ttl))
    ensures IsRun(t'.run, t'.steps, c) && t'.run[|t'.run| - 1].now >= now + k
    ensures var s := t'.run[|t'.run| - 1]; Leads(s, x) && Leads(s, y) && s.insts[x].since == a && s.insts[y].since == b
    decreases k
  {
    hide Next;
    if k == 0 {
      t' := t;
    } else {
      t' := TakeTurns(t, c, now, x, a, y, LeaderInst(now, b, seen, now));
      t' := KeepTurns(t', c, now + c.ttl, y, b, x, a, now, k - 1);
    }
  }

  lemma {:induction false} LongWithShortLease(c: Params) returns (t: Trace)
    requires ParamsOk(c) && c.ttl <= c.op
    ensures IsRun(t.run, t.steps, c) && Overlaps(t.run[|t.run| - 1], c.op + c.gap)
  {
    var s0 := Pair(0, Free, Fresh(0), Fresh(0));
    t := Trace([s0], []);
    t := WinTwice(t, c, s0, "a");
    assert s0.insts["a" := Won(0, 0)] == map["a" := Won(0, 0), "b" := Fresh(0)];
    t := TakeTurns(t, c, 0, "a", 0, "b", Fresh(0));
    t := KeepTurns(t, c, c.ttl, "b", c.ttl, "a", 0, 0, c.op + c.gap);
  }

  ghost predicate Overlaps(s: State, d: int) {
    Leads(s, "a") && Leads(s, "b") && s.now - Later(s.insts["a"].since, s.insts["b"].since) >= d
  }

  /** Whenever a lease is shorter than an operation timeout plus a tick gap, some run overlaps for at least that sum. */
  lemma {:induction false} OverlapCanBeLong(c: Params) returns (t: Trace)
    requires ParamsOk(c) && c.ttl < c.op + c.gap
    ensures IsRun(t.run, t.steps, c) && Overlaps(t.run[|t.run| - 1], c.op + c.gap)
  {
    if c.op < c.ttl {
      t := LongWithLongLease(c);
    } else {
      t := LongWithShortLease(c);
    }
  }

  /** At every moment of every run, two leaders have overlapped for less than a timeout plus a gap. */
  ghost predicate AlwaysShort(c: Params) {
    forall run: seq<State>, steps: seq<Step>, k: nat, i: Id,
      j: Id {:trigger IsRun(run, steps, c), Leads(run[k], i), Leads(run[k], j)} ::
      IsRun(run, steps, c) && k < |run| && i != j && Leads(run[k], i) && Leads(run[k], j) ==>
        run[k].now - Later(run[k].insts[i].since, run[k].insts[j].since) < c.op + c.gap
  }

  /** The bound holds exactly for leases that outlast an operation timeout plus a tick gap. */
  lemma {:induction false} OverlapBoundIff(c: Params)
    requires ParamsOk(c)
    ensures AlwaysShort(c) <==> c.op + c.gap <= c.ttl
  {
    if c.op + c.gap <= c.ttl {
      forall run: seq<State>, steps: seq<Step>, k: nat, i: Id, j: Id | IsRun(run, steps, c) && k < |run| && i != j
        && Leads(run[k], i) && Leads(run[k], j)
        ensures run[k].now - Later(run[k].insts[i].since, run[k].insts[j].since) < c.op + c.gap
      {
        OverlapIsShort(run, steps, c, k, i, j);
      }
    } else {
      var t := OverlapCanBeLong(c);
      assert IsRun(t.run, t.steps, c) && Leads(t.run[|t.run| - 1], "a") && Leads(t.run[|t.run| - 1], "b");
    }
  }
}
