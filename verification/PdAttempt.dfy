/**
 One PD request with its retries (internal/proxy/pdproxy.go), under every interleaving of the
 request thread and the prefill goroutines it leaves behind.

 Each successful acquire of a slot or link gets a number, its ticket.  A release counts on the
 ticket it belongs to; nothing in the step relation forbids releasing a ticket twice or never.
 Other requests change the counters through `Env`.
 */
module PdAttempt {

  type Ticket = nat
  type Gid = nat

  /** A backend's concurrency slots, or a transfer link. */
  datatype Resource = Slots(backend: string) | Link(id: string)

  /** Where the request thread stands; the tickets are those its local code will release. */
  datatype Pc =
    | Picking
    | HavePrefill(p: Ticket)
    | HaveBoth(p: Ticket, d: Ticket)
    | Forwarding(p: Ticket, d: Ticket, l: Ticket, worker: Worker)
    | Returning(p: Ticket, d: Ticket, l: Ticket)     // the attempt is over and kept its prefill slot
    | Joining(g: Gid, d: Ticket, l: Ticket)          // the attempt is over, its goroutine was cancelled
    | Unwinding(d: Ticket, l: Ticket)
    | UnwindingLink(l: Ticket)
    | Finished

  /** Whether the prefill slot was handed to a goroutine. */
  datatype Worker = NotStarted | Started(g: Gid)

  /** A prefill goroutine: calling upstream, then releasing its slot, then closing its channel. */
  datatype Phase = Calling | Released | Closed
  datatype Routine = Routine(p: Ticket, phase: Phase)

  datatype State = State(
    pc: Pc, routines: map<Gid, Routine>, timedOut: set<Gid>,
    owner: map<Ticket, Resource>, releases: map<Ticket, nat>,
    count: map<Resource, int>, env: map<Resource, int>)

  function Get(m: map<Resource, int>, r: Resource): int { if r in m then m[r] else 0 }

  /** A successful acquire: a new ticket and one more on the counter. */
  function Acquire(s: State, t: Ticket, r: Resource, pc: Pc): State {
    s.(pc := pc, owner := s.owner[t := r], releases := s.releases[t := 0], count := s.count[r := Get(s.count, r) + 1])
  }

  /** A release, whether or not the ticket still stands. */
  function Release(s: State, t: Ticket): State
    requires t in s.owner && t in s.releases
  {
    s.(releases := s.releases[t := s.releases[t] + 1], count := s.count[s.owner[t] := Get(s.count, s.owner[t]) - 1])
  }

  datatype Step =
    | AcquirePrefill(t: Ticket, b: string) | RefusePrefill
    | AcquireDecode(t: Ticket, b: string) | RefuseDecode
    | AcquireLink(t: Ticket, l: string)
    | Spawn(g: Gid)
    | EndAttempt                      // the forwarding call returns
    | ReleasePrefill                  // not handed off
    | JoinDone | JoinTimeout
    | ReleaseDecode
    | ReleaseLink(again: bool)        // the attempt returns: retry or answer
    | GiveUp
    | WorkerRelease(g: Gid) | WorkerClose(g: Gid)
    | Env(r: Resource, delta: int)

  ghost predicate Known(s: State, t: Ticket) { t in s.owner && t in s.releases }

  ghost predicate Next(s: State, st: Step, s': State) {
    match st
    case AcquirePrefill(t, b) => s.pc.Picking? && t !in s.owner && s' == Acquire(s, t, Slots(b), HavePrefill(t))
    case RefusePrefill => s.pc.Picking? && s' == s
    case AcquireDecode(t, b) => s.pc.HavePrefill? && t !in s.owner && s' == Acquire(s, t, Slots(b), HaveBoth(s.pc.p, t))
    case RefuseDecode => s.pc.HavePrefill? && Known(s, s.pc.p) && s' == Release(s, s.pc.p).(pc := Picking)
    case AcquireLink(t, l) => s.pc.HaveBoth? && t !in s.owner
      && s' == Acquire(s, t, Link(l), Forwarding(s.pc.p, s.pc.d, t, NotStarted))
    case Spawn(g) =>
      s.pc.Forwarding? && s.pc.worker.NotStarted? && g !in s.routines &&
      s' == s.(pc := s.pc.(worker := Started(g)), routines := s.routines[g := Routine(s.pc.p, Calling)])
    case EndAttempt =>
      s.pc.Forwarding? &&
      s' == s.(pc := match s.pc.worker
                     case NotStarted => Returning(s.pc.p, s.pc.d, s.pc.l)
                     case Started(g) => Joining(g, s.pc.d, s.pc.l))
    case ReleasePrefill => s.pc.Returning? && Known(s, s.pc.p)
      && s' == Release(s, s.pc.p).(pc := Unwinding(s.pc.d, s.pc.l))
    case JoinDone =>
      s.pc.Joining? && s.pc.g in s.routines && s.routines[s.pc.g].phase.Closed?
        && s' == s.(pc := Unwinding(s.pc.d, s.pc.l))
    case JoinTimeout => s.pc.Joining? && s' == s.(pc := Unwinding(s.pc.d, s.pc.l), timedOut := s.timedOut + {s.pc.g})
    case ReleaseDecode => s.pc.Unwinding? && Known(s, s.pc.d) && s' == Release(s, s.pc.d).(pc := UnwindingLink(s.pc.l))
    case ReleaseLink(again) => s.pc.UnwindingLink? && Known(s, s.pc.l)
      && s' == Release(s, s.pc.l).(pc := if again then Picking else Finished)
    case GiveUp => s.pc.Picking? && s' == s.(pc := Finished)
    case WorkerRelease(g) =>
      g in s.routines && s.routines[g].phase.Calling? && Known(s, s.routines[g].p) &&
      s' == Release(s, s.routines[g].p).(routines := s.routines[g := s.routines[g].(phase := Released)])
    case WorkerClose(g) =>
      g in s.routines && s.routines[g].phase.Released?
        && s' == s.(routines := s.routines[g := s.routines[g].(phase := Closed)])
    case Env(r, delta) => s' == s.(count := s.count[r := Get(s.count, r) + delta],
      env := s.env[r := Get(s.env, r) + delta])
  }

  ghost predicate Init(s: State) {
    s.pc.Picking? && s.routines == map[] && s.timedOut == {} && s.owner == map[] && s.releases == map[]
      && s.count == s.env
  }

  ghost predicate IsRun(run: seq<State>, steps: seq<Step>) {
    |run| == |steps| + 1 && Init(run[0]) && forall k :: 0 <= k < |steps| ==> Next(run[k], steps[k], run[k + 1])
  }

  // ---------------------------------------------------------------- who holds what

  /** The tickets the request thread still has to release. */
  function ThreadHolds(pc: Pc): set<Ticket> {
    match pc
    case Picking => {}
    case HavePrefill(p) => {p}
    case HaveBoth(p, d) => {p, d}
    case Forwarding(p, d, l, w) => if w.NotStarted? then {p, d, l} else {d, l}
    case Returning(p, d, l) => {p, d, l}
    case Joining(_, d, l) => {d, l}
    case Unwinding(d, l) => {d, l}
    case UnwindingLink(l) => {l}
    case Finished => {}
  }

  ghost predicate RoutineHolds(s: State, g: Gid, t: Ticket) {
    g in s.routines && s.routines[g].p == t && s.routines[g].phase.Calling?
  }

  /** The parts of the program counter name different tickets. */
  predicate PcDistinct(pc: Pc) {
    match pc
    case HaveBoth(p, d) => p != d
    case Forwarding(p, d, l, _) => p != d && p != l && d != l
    case Returning(p, d, l) => p != d && p != l && d != l
    case Joining(_, d, l) => d != l
    case Unwinding(d, l) => d != l
    case _ => true
  }

  /** The goroutine the thread is still responsible for. */
  predicate Current(pc: Pc, g: Gid) { (pc.Forwarding? && pc.worker == Started(g)) || (pc.Joining? && pc.g == g) }

  ghost predicate Tickets(s: State) {
    && s.owner.Keys == s.releases.Keys && PcDistinct(s.pc)
    && ThreadHolds(s.pc) <= s.owner.Keys
    && (forall g :: g in s.routines ==> s.routines[g].p in s.owner)
    && (forall t :: t in ThreadHolds(s.pc) ==> s.releases[t] == 0)
    && (forall g :: g in s.routines ==> s.releases[s.routines[g].p] == if s.routines[g].phase.Calling? then 0 else 1)
    && (forall g :: g in s.routines ==> s.routines[g].p !in ThreadHolds(s.pc))
    && (forall g, h :: g in s.routines && h in s.routines && g != h ==> s.routines[g].p != s.routines[h].p)
  }

  /** A ticket that nobody holds was released exactly once. */
  ghost predicate ReleasedOnce(s: State) {
    forall t :: t in s.owner && t in s.releases ==>
      s.releases[t] <= 1 && (s.releases[t] == 0 ==> t in ThreadHolds(s.pc) || exists g :: RoutineHolds(s, g, t))
  }

  ghost predicate Joined(s: State) {
    && (forall g :: g in s.routines ==> s.routines[g].phase.Closed? || g in s.timedOut || Current(s.pc, g))
    && (s.pc.Joining? ==> s.pc.g in s.routines) && (s.pc.Forwarding? && s.pc.worker.Started? ==>
      s.pc.worker.g in s.routines)
  }

  ghost predicate Ledger(s: State) { Tickets(s) && ReleasedOnce(s) }

  lemma {:induction false} AcquireKeepsLedger(s: State, t: Ticket, r: Resource, pc: Pc)
    requires Ledger(s) && t !in s.owner && PcDistinct(pc) && ThreadHolds(pc) == ThreadHolds(s.pc) + {t}
    ensures Ledger(Acquire(s, t, r, pc))
  {
    var s' := Acquire(s, t, r, pc);
    forall u | u in s'.owner
      ensures s'.releases[u] <= 1 && (s'.releases[u] == 0 ==>
        u in ThreadHolds(pc) || exists g :: RoutineHolds(s', g, u))
    {
      if u != t && s.releases[u] == 0 && u !in ThreadHolds(s.pc) {
        var g :| RoutineHolds(s, g, u);
        assert RoutineHolds(s', g, u);
      }
    }
  }

  /** The thread releases a ticket it holds. */
  lemma {:induction false} ReleaseKeepsLedger(s: State, t: Ticket, pc: Pc)
    requires Ledger(s) && t in ThreadHolds(s.pc) && PcDistinct(pc) && ThreadHolds(pc) == ThreadHolds(s.pc) - {t}
    ensures t in s.owner && t in s.releases && Ledger(Release(s, t).(pc := pc))
  {
    var s' := Release(s, t).(pc := pc);
    forall u | u in s'.owner
      ensures s'.releases[u] <= 1 && (s'.releases[u] == 0 ==>
        u in ThreadHolds(pc) || exists g :: RoutineHolds(s', g, u))
    {
      if u != t && s.releases[u] == 0 && u !in ThreadHolds(s.pc) {
        var g :| RoutineHolds(s, g, u);
        assert RoutineHolds(s', g, u);
      }
    }
  }

  lemma {:induction false} WorkerKeepsLedger(s: State, g: Gid)
    requires Ledger(s) && g in s.routines && s.routines[g].phase.Calling?
    ensures var t := s.routines[g].p;
            Known(s, t) && Ledger(Release(s, t).(routines := s.routines[g := s.routines[g].(phase := Released)]))
  {
    var t := s.routines[g].p;
    var s' := Release(s, t).(routines := s.routines[g := s.routines[g].(phase := Released)]);
    forall u | u in s'.owner
      ensures s'.releases[u] <= 1 && (s'.releases[u] == 0 ==>
        u in ThreadHolds(s.pc) || exists h :: RoutineHolds(s', h, u))
    {
      if u != t && s.releases[u] == 0 && u !in ThreadHolds(s.pc) {
        var h :| RoutineHolds(s, h, u);
        assert RoutineHolds(s', h, u);
      }
    }
  }

  lemma {:induction false} SpawnKeepsLedger(s: State, g: Gid, s': State)
    requires Ledger(s) && Next(s, Spawn(g), s')
    ensures Ledger(s')
  {
    assert RoutineHolds(s', g, s.pc.p);
    forall u | u in s'.owner
      ensures s'.releases[u] <= 1 && (s'.releases[u] == 0 ==>
        u in ThreadHolds(s'.pc) || exists h :: RoutineHolds(s', h, u))
    {
      if s.releases[u] == 0 && u !in ThreadHolds(s.pc) {
        var h :| RoutineHolds(s, h, u);
        assert RoutineHolds(s', h, u);
      }
    }
  }

  /** Steps that move no ticket. */
  lemma {:induction false} MoveKeepsLedger(s: State, s': State)
    requires Ledger(s) && s'.owner == s.owner && s'.releases == s.releases
    requires PcDistinct(s'.pc) && ThreadHolds(s'.pc) == ThreadHolds(s.pc) && s'.routines.Keys == s.routines.Keys
    requires forall g :: g in s.routines ==>
      s'.routines[g].p == s.routines[g].p && s'.routines[g].phase.Calling? == s.routines[g].phase.Calling?
    ensures Ledger(s')
  {
    forall u | u in s'.owner
      ensures s'.releases[u] <= 1 && (s'.releases[u] == 0 ==>
        u in ThreadHolds(s'.pc) || exists h :: RoutineHolds(s', h, u))
    {
      if s.releases[u] == 0 && u !in ThreadHolds(s.pc) {
        var h :| RoutineHolds(s, h, u);
        assert RoutineHolds(s', h, u);
      }
    }
  }

  lemma {:induction false} Held(s: State)
    requires Ledger(s)
    ensures PcDistinct(s.pc) && ThreadHolds(s.pc) <= s.owner.Keys
  {
  }

  lemma {:induction false} LedgerKept(s: State, st: Step, s': State)
    requires Ledger(s) && Next(s, st, s')
    ensures Ledger(s')
  {
    hide Ledger, Acquire, Release;
    Held(s);
    match st
    case AcquirePrefill(t, b) => AcquireKeepsLedger(s, t, Slots(b), HavePrefill(t));
    case AcquireDecode(t, b) => AcquireKeepsLedger(s, t, Slots(b), HaveBoth(s.pc.p, t));
    case AcquireLink(t, l) => AcquireKeepsLedger(s, t, Link(l), Forwarding(s.pc.p, s.pc.d, t, NotStarted));
    case RefuseDecode => ReleaseKeepsLedger(s, s.pc.p, Picking);
    case ReleasePrefill => ReleaseKeepsLedger(s, s.pc.p, Unwinding(s.pc.d, s.pc.l));
    case ReleaseDecode => ReleaseKeepsLedger(s, s.pc.d, UnwindingLink(s.pc.l));
    case ReleaseLink(again) => ReleaseKeepsLedger(s, s.pc.l, if again then Picking else Finished);
    case WorkerRelease(g) => WorkerKeepsLedger(s, g);
    case Spawn(g) => SpawnKeepsLedger(s, g, s');
    case _ => MoveKeepsLedger(s, s');
  }

  lemma {:induction false} JoinedKept(s: State, st: Step, s': State)
    requires Joined(s) && Next(s, st, s')
    ensures Joined(s')
  {
  }

  // ---------------------------------------------------------------- the counters

  /** The outstanding acquires of one resource. */
  ghost function Outstanding(s: State, r: Resource): set<Ticket> {
    set t | t in s.owner && t in s.releases && s.owner[t] == r && s.releases[t] == 0
  }

  /** Every counter is what the others contribute plus this request's outstanding acquires. */
  ghost predicate CountersExact(s: State) {
    forall r :: Get(s.count, r) == Get(s.env, r) + |Outstanding(s, r)|
  }

  lemma {:induction false} ReleaseKeepsCounters(s: State, t: Ticket)
    requires CountersExact(s) && t in s.owner && t in s.releases && s.releases[t] == 0
    ensures CountersExact(Release(s, t))
  {
    var s' := Release(s, t);
    forall r ensures Get(s'.count, r) == Get(s'.env, r) + |Outstanding(s', r)| {
      assert Outstanding(s', r) == if r == s.owner[t] then Outstanding(s, r) - {t} else Outstanding(s, r);
    }
  }

  lemma {:induction false} AcquireOutstanding(s: State, t: Ticket, x: Resource, pc: Pc, r: Resource)
    requires t !in s.owner && t !in s.releases
    ensures t !in Outstanding(s, r)
    ensures Outstanding(Acquire(s, t, x, pc), r) == Outstanding(s, r) + if r == x then {t} else {}
  {
  }

  lemma {:induction false} AcquireKeepsCounters(s: State, t: Ticket, x: Resource, pc: Pc)
    requires CountersExact(s) && t !in s.owner && t !in s.releases
    ensures CountersExact(Acquire(s, t, x, pc))
  {
    hide Outstanding;
    var s' := Acquire(s, t, x, pc);
    forall r ensures Get(s'.count, r) == Get(s'.env, r) + |Outstanding(s', r)| {
      AcquireOutstanding(s, t, x, pc, r);
      assert Outstanding(s, r) + {} == Outstanding(s, r);
    }
  }

  lemma {:induction false} SameCounters(s: State, s': State)
    requires CountersExact(s) && s'.owner == s.owner && s'.releases == s.releases
    requires forall r :: Get(s'.count, r) - Get(s'.env, r) == Get(s.count, r) - Get(s.env, r)
    ensures CountersExact(s')
  {
    forall r ensures Get(s'.count, r) == Get(s'.env, r) + |Outstanding(s', r)| {
      assert Outstanding(s', r) == Outstanding(s, r);
    }
  }

  lemma {:induction false} CountersKept(s: State, st: Step, s': State)
    requires Tickets(s) && CountersExact(s) && Next(s, st, s')
    ensures CountersExact(s')
  {
    hide CountersExact;
    match st
    case AcquirePrefill(t, b) => AcquireKeepsCounters(s, t, Slots(b), s'.pc);
    case AcquireDecode(t, b) => AcquireKeepsCounters(s, t, Slots(b), s'.pc);
    case AcquireLink(t, l) => AcquireKeepsCounters(s, t, Link(l), s'.pc);
    case RefuseDecode => ReleaseKeepsCounters(s, s.pc.p); SameCounters(Release(s, s.pc.p), s');
    case ReleasePrefill => ReleaseKeepsCounters(s, s.pc.p); SameCounters(Release(s, s.pc.p), s');
    case ReleaseDecode => ReleaseKeepsCounters(s, s.pc.d); SameCounters(Release(s, s.pc.d), s');
    case ReleaseLink(_) => ReleaseKeepsCounters(s, s.pc.l); SameCounters(Release(s, s.pc.l), s');
    case WorkerRelease(g) => ReleaseKeepsCounters(s, s.routines[g].p); SameCounters(Release(s, s.routines[g].p), s');
    case _ => SameCounters(s, s');
  }

  // ---------------------------------------------------------------- whole runs

  ghost predicate Inv(s: State) { Ledger(s) && Joined(s) && CountersExact(s) }

  lemma {:induction false} RunKeepsInv(run: seq<State>, steps: seq<Step>, k: nat)
    requires IsRun(run, steps) && k < |run|
    ensures Inv(run[k])
  {
    hide Tickets, ReleasedOnce, Joined, CountersExact, Next, Init;
    if k == 0 {
      InitInv(run[0]);
    } else {
      RunKeepsInv(run, steps, k - 1);
      var s, st, s' := run[k - 1], steps[k - 1], run[k];
      LedgerKept(s, st, s');
      JoinedKept(s, st, s');
      CountersKept(s, st, s');
    }
  }

  lemma {:induction false} InitInv(s: State)
    requires Init(s)
    ensures Inv(s)
  {
    assert forall r :: Outstanding(s, r) == {};
  }

  /** No acquire is ever released twice. */
  lemma {:induction false} NeverReleasedTwice(run: seq<State>, steps: seq<Step>, k: nat, t: Ticket)
    requires IsRun(run, steps) && k < |run| && t in run[k].owner
    ensures t in run[k].releases && run[k].releases[t] <= 1
  {
    RunKeepsInv(run, steps, k);
  }

  /**
   Once the request and its goroutines have exited, every acquire was released exactly once and every counter
   is back.
   */
  lemma {:induction false} EverythingReturned(run: seq<State>, steps: seq<Step>, k: nat)
    requires IsRun(run, steps) && k < |run| && run[k].pc.Finished?
    requires forall g :: g in run[k].routines ==> !run[k].routines[g].phase.Calling?
    ensures forall t :: t in run[k].owner ==> t in run[k].releases && run[k].releases[t] == 1
    ensures forall r :: Get(run[k].count, r) == Get(run[k].env, r)
  {
    var s := run[k];
    RunKeepsInv(run, steps, k);
    forall r ensures Get(s.count, r) == Get(s.env, r) {
      assert Outstanding(s, r) == {};
    }
  }

  /** Between attempts nothing is held, except slots of goroutines whose join timed out; all other calls have exited. */
  lemma {:induction false} NewAttemptStartsClean(run: seq<State>, steps: seq<Step>, k: nat)
    requires IsRun(run, steps) && k < |run| && run[k].pc.Picking?
    ensures forall g :: g in run[k].routines ==> run[k].routines[g].phase.Closed? || g in run[k].timedOut
    ensures forall t :: t in run[k].owner && t in run[k].releases && run[k].releases[t] == 0 ==>
            exists g :: g in run[k].timedOut && RoutineHolds(run[k], g, t)
  {
    var s := run[k];
    RunKeepsInv(run, steps, k);
    forall t | t in s.owner && t in s.releases && s.releases[t] == 0
      ensures exists g :: g in s.timedOut && RoutineHolds(s, g, t)
    {
      var g :| RoutineHolds(s, g, t);
    }
  }
}
