/** Admission and accounting of the waiting queue in internal/queue/queue.go. */
module Queue {
  import opened Sums

  type Tid = nat
  type Class = string
  type Depths = map<Class, nat>

  function Depth(m: Depths, c: Class): nat { if c in m then m[c] else 0 }

  function Enter(m: Depths, c: Class): Depths { m[c := Depth(m, c) + 1] }

  /** A class that falls to zero is deleted. */
  function Leave(m: Depths, c: Class): Depths {
    if Depth(m, c) <= 1 then m - {c} else m[c := m[c] - 1]
  }

  class ClassTable {
    var classes: map<Class, int>

    ghost predicate Shows(m: Depths)
      reads this
    {
      classes.Keys == m.Keys && forall c :: c in m ==> classes[c] == m[c]
    }

    constructor ()
      ensures Shows(map[])
    {
      classes := map[];
    }

    method EnterClass(c: Class, ghost m: Depths)
      requires Shows(m)
      modifies this
      ensures Shows(Enter(m, c))
    {
      classes := classes[c := (if c in classes then classes[c] else 0) + 1];
    }

    method LeaveClass(c: Class, ghost m: Depths)
      requires Shows(m)
      modifies this
      ensures Shows(Leave(m, c))
    {
      classes := classes[c := (if c in classes then classes[c] else 0) - 1];
      if classes[c] <= 0 {
        classes := classes - {c};
      }
    }
  }

  /**
   One call of WaitFor: `Entered(n)` after the atomic add returned `n`; then admitted, counted in
   its class, registered as a waiter, and out again in the reverse order.
   */
  datatype Pc = Out | Entered(n: int) | Admitted | InClass | Waiting | Unregistered | LeftClass

  /** The class a call belongs to is fixed. */
  datatype State = State(depth: int, classes: Depths, waiters: int, pcs: map<Tid, Pc>)

  datatype Step =
    | Arrive(t: Tid) | Check(t: Tid) | Count(t: Tid) | Register(t: Tid)
    | Unregister(t: Tid) | Uncount(t: Tid) | Depart(t: Tid)

  ghost predicate Next(s: State, st: Step, s': State, max: int, class_: Tid -> Class) {
    st.t in s.pcs &&
    match st
    case Arrive(t) => s.pcs[t].Out? && s' == s.(depth := s.depth + 1, pcs := s.pcs[t := Entered(s.depth + 1)])
    case Check(t) => s.pcs[t].Entered? &&
      s' == if s.pcs[t].n > max then s.(depth := s.depth - 1, pcs := s.pcs[t := Out])
        else s.(pcs := s.pcs[t := Admitted])
    case Count(t) => s.pcs[t].Admitted? && s' == s.(classes := Enter(s.classes, class_(t)), pcs := s.pcs[t := InClass])
    case Register(t) => s.pcs[t].InClass? && s' == s.(waiters := s.waiters + 1, pcs := s.pcs[t := Waiting])
    case Unregister(t) => s.pcs[t].Waiting? && s' == s.(waiters := s.waiters - 1, pcs := s.pcs[t := Unregistered])
    case Uncount(t) => s.pcs[t].Unregistered? && s' == s.(classes := Leave(s.classes, class_(t)),
      pcs := s.pcs[t := LeftClass])
    case Depart(t) => s.pcs[t].LeftClass? && s' == s.(depth := s.depth - 1, pcs := s.pcs[t := Out])
  }

  ghost predicate Init(s: State) {
    s.depth == 0 && s.classes == map[] && s.waiters == 0 && forall t :: t in s.pcs ==> s.pcs[t].Out?
  }

  ghost predicate IsRun(run: seq<State>, steps: seq<Step>, max: int, class_: Tid -> Class) {
    |run| == |steps| + 1 && Init(run[0]) && forall k :: 0 <= k < |steps| ==>
      Next(run[k], steps[k], run[k + 1], max, class_)
  }

  // ---------------------------------------------------------------- invariant

  predicate InsideClass(p: Pc) { p.InClass? || p.Waiting? || p.Unregistered? }

  predicate IsAdmitted(p: Pc) { p.Admitted? || InsideClass(p) || p.LeftClass? }

  ghost function Present(s: State): set<Tid> { set t | t in s.pcs && !s.pcs[t].Out? }
  ghost function AdmittedSet(s: State): set<Tid> { set t | t in s.pcs && IsAdmitted(s.pcs[t]) }
  ghost function Entitled(s: State, max: int): set<Tid> {
    set t | t in s.pcs && (IsAdmitted(s.pcs[t]) || (s.pcs[t].Entered? && s.pcs[t].n <= max))
  }
  ghost function Counted(s: State): set<Tid> { set t | t in s.pcs && InsideClass(s.pcs[t]) }
  ghost function WaiterSet(s: State): set<Tid> { set t | t in s.pcs && s.pcs[t].Waiting? }
  ghost function CountedIn(s: State, class_: Tid -> Class, c: Class): set<Tid> {
    set t | t in s.pcs && InsideClass(s.pcs[t]) && class_(t) == c
  }

  /** Every counter is the number of calls it should count. */
  ghost predicate Exact(s: State, class_: Tid -> Class) {
    && s.depth == |Present(s)| && s.waiters == |WaiterSet(s)|
    && (forall c :: Depth(s.classes, c) == |CountedIn(s, class_, c)|)
    && (forall c :: c in s.classes ==> s.classes[c] > 0)
    && Sum(s.classes) == |Counted(s)|
  }

  ghost predicate Inv(s: State, max: int, class_: Tid -> Class) {
    Exact(s, class_) && (max >= 0 ==> |Entitled(s, max)| <= max)
  }

  lemma {:induction false} EnterSum(m: Depths, c: Class)
    ensures Sum(Enter(m, c)) == Sum(m) + 1
  {
    SumUpdate(m, c, Depth(m, c) + 1);
  }

  lemma {:induction false} LeaveSum(m: Depths, c: Class)
    requires c in m && m[c] > 0
    ensures Sum(Leave(m, c)) == Sum(m) - 1
  {
    if m[c] == 1 {
      SumRemove(m, c);
    } else {
      SumUpdate(m, c, m[c] - 1);
    }
  }

  lemma {:induction false} NotCounted(s: State, t: Tid, s': State, class_: Tid -> Class)
    requires t in s.pcs && s.pcs[t].Admitted? && s'.pcs == s.pcs[t := InClass]
    ensures Present(s') == Present(s) && WaiterSet(s') == WaiterSet(s)
    ensures t !in Counted(s) && Counted(s') == Counted(s) + {t}
  {
  }

  lemma {:induction false} OneMoreIn(s: State, t: Tid, s': State, class_: Tid -> Class, c: Class)
    requires t in s.pcs && s.pcs[t].Admitted? && s'.pcs == s.pcs[t := InClass]
    ensures t !in CountedIn(s, class_, c)
    ensures CountedIn(s', class_, c) == CountedIn(s, class_, c) + if c == class_(t) then {t} else {}
  {
  }

  lemma {:induction false} CountKeepsExact(s: State, t: Tid, s': State, max: int, class_: Tid -> Class)
    requires Exact(s, class_) && Next(s, Count(t), s', max, class_)
    ensures Exact(s', class_)
  {
    hide CountedIn, Counted, Present, WaiterSet, Sum;
    EnterSum(s.classes, class_(t));
    NotCounted(s, t, s', class_);
    forall c ensures Depth(s'.classes, c) == |CountedIn(s', class_, c)| {
      OneMoreIn(s, t, s', class_, c);
    }
  }

  lemma {:induction false} UncountKeepsExact(s: State, t: Tid, s': State, max: int, class_: Tid -> Class)
    requires Exact(s, class_) && Next(s, Uncount(t), s', max, class_)
    ensures Exact(s', class_)
  {
    var d := class_(t);
    assert t in CountedIn(s, class_, d);
    assert Depth(s.classes, d) == |CountedIn(s, class_, d)| > 0;
    LeaveSum(s.classes, d);
    assert Present(s') == Present(s) && WaiterSet(s') == WaiterSet(s) && Counted(s') == Counted(s) - {t};
    forall c ensures Depth(s'.classes, c) == |CountedIn(s', class_, c)| {
      assert CountedIn(s', class_, c) == if c == d then CountedIn(s, class_, c) - {t} else CountedIn(s, class_, c);
    }
  }

  lemma {:induction false} RegisterKeepsExact(s: State, st: Step, s': State, max: int, class_: Tid -> Class)
    requires Exact(s, class_) && Next(s, st, s', max, class_) && (st.Register? || st.Unregister?)
    ensures Exact(s', class_)
  {
    hide CountedIn, Counted, Sum, Enter, Leave, Depth;
    var t := st.t;
    SameCounts(s, t, s'.pcs[t], s', class_);
    assert Present(s') == Present(s);
    assert WaiterSet(s') == if st.Register? then WaiterSet(s) + {t} else WaiterSet(s) - {t};
  }

  lemma {:induction false} DepthKeepsExact(s: State, st: Step, s': State, max: int, class_: Tid -> Class)
    requires Exact(s, class_) && Next(s, st, s', max, class_) && (st.Arrive? || st.Check? || st.Depart?)
    ensures Exact(s', class_)
  {
    hide CountedIn, Counted, Sum, Enter, Leave, Depth, Present, WaiterSet;
    var t := st.t;
    SameCounts(s, t, s'.pcs[t], s', class_);
    SameWaiters(s, t, s');
  }

  lemma {:induction false} SameWaiters(s: State, t: Tid, s': State)
    requires t in s.pcs && t in s'.pcs && s'.pcs == s.pcs[t := s'.pcs[t]] && !s.pcs[t].Waiting? && !s'.pcs[t].Waiting?
    ensures WaiterSet(s') == WaiterSet(s)
    ensures |Present(s')| == |Present(s)| + (if s'.pcs[t].Out? then 0 else 1) - (if s.pcs[t].Out? then 0 else 1)
  {
    assert t in Present(s) <==> !s.pcs[t].Out?;
    if s'.pcs[t].Out? {
      assert Present(s') == Present(s) - {t};
    } else {
      assert Present(s') == Present(s) + {t};
    }
  }

  lemma {:induction false} StepKeepsExact(s: State, st: Step, s': State, max: int, class_: Tid -> Class)
    requires Exact(s, class_) && Next(s, st, s', max, class_)
    ensures Exact(s', class_)
  {
    hide Exact, Next;
    match st
    case Count(t) => CountKeepsExact(s, t, s', max, class_);
    case Uncount(t) => UncountKeepsExact(s, t, s', max, class_);
    case Register(_) => RegisterKeepsExact(s, st, s', max, class_);
    case Unregister(_) => RegisterKeepsExact(s, st, s', max, class_);
    case Arrive(_) => DepthKeepsExact(s, st, s', max, class_);
    case Check(_) => DepthKeepsExact(s, st, s', max, class_);
    case Depart(_) => DepthKeepsExact(s, st, s', max, class_);
  }

  lemma {:induction false} SameCounts(s: State, t: Tid, p: Pc, s': State, class_: Tid -> Class)
    requires t in s.pcs && s'.pcs == s.pcs[t := p] && InsideClass(p) == InsideClass(s.pcs[t])
    ensures Counted(s') == Counted(s) && forall c :: CountedIn(s', class_, c) == CountedIn(s, class_, c)
  {
    forall c ensures CountedIn(s', class_, c) == CountedIn(s, class_, c) {
    }
  }

  lemma {:induction false} StepKeepsInv(s: State, st: Step, s': State, max: int, class_: Tid -> Class)
    requires Inv(s, max, class_) && Next(s, st, s', max, class_)
    ensures Inv(s', max, class_)
  {
    hide Exact;
    StepKeepsExact(s, st, s', max, class_);
    PresentIsDepth(s', class_);
    if st.Arrive? {
      if s'.depth <= max {
        assert Entitled(s', max) <= Present(s');
        SubsetSize(Entitled(s', max), Present(s'));
      } else {
        assert Entitled(s', max) == Entitled(s, max);
      }
    } else {
      assert Entitled(s', max) <= Entitled(s, max);
      SubsetSize(Entitled(s', max), Entitled(s, max));
    }
  }

  lemma {:induction false} PresentIsDepth(s: State, class_: Tid -> Class)
    requires Exact(s, class_)
    ensures s.depth == |Present(s)|
  {
  }

  lemma {:induction false} RunKeepsInv(run: seq<State>, steps: seq<Step>, max: int, class_: Tid -> Class, k: nat)
    requires IsRun(run, steps, max, class_) && k < |run|
    ensures Inv(run[k], max, class_)
  {
    if k == 0 {
      var s := run[0];
      assert Present(s) == {} && WaiterSet(s) == {} && Counted(s) == {} && Entitled(s, max) == {};
      forall c ensures CountedIn(s, class_, c) == {} {
      }
    } else {
      RunKeepsInv(run, steps, max, class_, k - 1);
      StepKeepsInv(run[k - 1], steps[k - 1], run[k], max, class_);
    }
  }

  /** Registered waiters <= sum of class depths <= admitted calls <= maximal depth, at every step. */
  lemma {:induction false} QueueIsBounded(run: seq<State>, steps: seq<Step>, max: int, class_: Tid -> Class, k: nat)
    requires IsRun(run, steps, max, class_) && k < |run| && max >= 0
    ensures 0 <= run[k].waiters <= Sum(run[k].classes) <= |AdmittedSet(run[k])| <= max
    ensures |AdmittedSet(run[k])| <= run[k].depth
  {
    var s := run[k];
    RunKeepsInv(run, steps, max, class_, k);
    SubsetSize(WaiterSet(s), Counted(s));
    SubsetSize(Counted(s), AdmittedSet(s));
    SubsetSize(AdmittedSet(s), Entitled(s, max));
    SubsetSize(AdmittedSet(s), Present(s));
  }

  /** When all calls have returned, every counter is back at its start and no class is left over. */
  lemma {:induction false} QueueEndsEmpty(run: seq<State>, steps: seq<Step>, max: int, class_: Tid -> Class, k: nat)
    requires IsRun(run, steps, max, class_) && k < |run| && forall t :: t in run[k].pcs ==> run[k].pcs[t].Out?
    ensures run[k].depth == 0 && run[k].waiters == 0 && run[k].classes == map[]
  {
    var s := run[k];
    RunKeepsInv(run, steps, max, class_, k);
    assert Present(s) == {} && WaiterSet(s) == {};
    forall c ensures c !in s.classes {
      assert CountedIn(s, class_, c) == {};
    }
  }

  /** A call is admitted exactly if its add returned at most the maximal depth; otherwise the add is undone. */
  lemma {:induction false} AdmittedIff(run: seq<State>, steps: seq<Step>, max: int, class_: Tid -> Class, k: nat)
    requires IsRun(run, steps, max, class_) && k < |steps| && steps[k].Check?
    ensures var t := steps[k].t;
            && t in run[k].pcs && run[k].pcs[t].Entered? && t in run[k + 1].pcs
            && (run[k + 1].pcs[t] == Admitted <==> run[k].pcs[t].n <= max)
            && run[k + 1].depth == run[k].depth - (if run[k + 1].pcs[t] == Admitted then 0 else 1)
  {
    assert Next(run[k], steps[k], run[k + 1], max, class_);
  }
}
