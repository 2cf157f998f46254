/** No interleaving deadlocks, every run ends, and it ends with all results. */
module PipelineProgress {
  import opened Coordinator
  import opened Pipeline
  import opened PipelineSafety

  // ---- no deadlock

  ghost predicate Internal(a: Action) {
    !a.Abort?
  }

  lemma RunningCanMove(c: Config, s: State, r: Ref) returns (a: Action)
    requires Core(c, s) && r in s.tasks
    requires s.tasks[r].phase.Checking? || s.tasks[r].phase.Executing? || s.tasks[r].phase.Releasing?
    ensures Internal(a) && Enabled(c, s, a)
  {
    assert TaskOk(c, s, r);
    var t := s.tasks[r];
    if t.phase.Executing? { return Finish(r, Succeeded); }
    if t.phase.Releasing? { return Unlock(r); }
    if t.phase.next == |InstrOf(c, r).conditions| { return Dispatch(r); }
    var condition := InstrOf(c, r).conditions[t.phase.next];
    if condition.External? { return Check(r, true); }
    if x :| ResultIs(c, s, r.p, condition.id, x) && x.status == condition.status { return Check(r, true); }
    a := Check(r, false);
  }

  lemma HolderCanMove(c: Config, s: State, r: Ref) returns (a: Action)
    requires Core(c, s) && r in s.tasks && r in s.table.live
    ensures Internal(a) && Enabled(c, s, a)
  {
    assert Wants(s.table, r, s.table.live[r]) && ClaimOk(c, s, r, s.table.live[r]) && TaskOk(c, s, r);
    if s.tasks[r].phase.Locking? { return Begin(r); }
    if s.tasks[r].phase.WaitCommit? {
      var head := s.commits[0];
      assert QueuedOk(c, s, 0);
      if s.tasks[head].phase.WaitCommit? { return EnterCommit(head); }
      a := RunningCanMove(c, s, head);
    } else {
      a := RunningCanMove(c, s, r);
    }
  }

  lemma OwnerCanMove(c: Config, s: State, r: Ref) returns (a: Action)
    requires Core(c, s) && r in s.tasks && (s.tasks[r].phase.Locking? || Holds(s.tasks[r].phase))
    ensures Internal(a) && Enabled(c, s, a)
  {
    assert TaskOk(c, s, r);
    if r in s.table.live {
      a := HolderCanMove(c, s, r);
    } else {
      var k :| 0 <= k < |s.table.waiting| && s.table.waiting[k] == Waiter(r, InstrOf(c, r).resources);
      assert Blocked(s.table, s.table.waiting[k]);
      var resource :| resource in InstrOf(c, r).resources && resource in s.table.held;
      var holder :| holder in s.table.live && resource in s.table.live[holder];
      assert Wants(s.table, holder, s.table.live[holder]) && ClaimOk(c, s, holder, s.table.live[holder]);
      a := HolderCanMove(c, s, holder);
    }
  }

  /** While some program is not finished, something other than an abort can happen. */
  lemma DeadlockFree(c: Config, s: State, p: nat) returns (a: Action)
    requires Inv(c, s) && p < |c| && !s.control[p].Finished?
    ensures Internal(a) && Enabled(c, s, a)
  {
    assert ControlOk(c, s, p);
    if s.control[p].AtLoop? { return Loop(p); }
    var r :| r in ActiveOf(s, p);
    if s.tasks[r].completed.Some? { return Wake(p); }
    assert TaskOk(c, s, r);
    var f := s.tasks[r].phase;
    if f.Joined? {
      assert TaskOk(c, s, f.owner);
      if s.tasks[f.owner].phase.Settled? { return Deliver(r); }
      a := OwnerCanMove(c, s, f.owner);
    } else {
      if f.Settled? { return Deliver(r); }
      a := OwnerCanMove(c, s, r);
    }
  }

  // ---- every run ends

  ghost function Weight(c: Config, s: State, r: Ref): nat
    requires Shape(c, s) && r in s.tasks
  {
    var t := s.tasks[r];
    var n := |InstrOf(c, r).conditions|;
    var left := match t.phase
      case Pending => n + 12
      case Locking => n + 7
      case WaitCommit => n + 6
      case Checking(next) => if next <= n then n - next + 5 else 5
      case Executing => 4
      case Releasing(_) => 3
      case _ => 0;
    left + (if t.active then 2 else 0) + (if t.completed.None? then 1 else 0)
  }

  ghost function Pick<T>(rs: set<T>): T
    requires rs != {}
  {
    var r :| r in rs; r
  }

  ghost function Weights(c: Config, s: State, rs: set<Ref>): nat
    requires Shape(c, s) && rs <= s.tasks.Keys
  {
    if rs == {} then 0 else Weight(c, s, Pick(rs)) + Weights(c, s, rs - {Pick(rs)})
  }

  ghost function TurnsDue(control: seq<Control>): nat {
    if control == [] then 0 else TurnsDue(control[1..]) + if control[0].AtLoop? then 1 else 0
  }

  /** Work left: what every instruction still has to go through, plus the turns that are due. */
  ghost function Measure(c: Config, s: State): nat
    requires Shape(c, s)
  {
    Weights(c, s, s.tasks.Keys) + TurnsDue(s.control)
  }

  ghost predicate NoHeavier(c: Config, s: State, t: State)
    requires Shape(c, s) && Shape(c, t)
  {
    t.tasks.Keys == s.tasks.Keys && forall r {:trigger Weight(c, t, r)} | r in s.tasks :: Weight(c, t, r) <= Weight(c, s, r)
  }

  lemma {:induction false} WeightsDrop(c: Config, s: State, t: State, rs: set<Ref>, less: nat, lighter: Ref)
    requires Shape(c, s) && Shape(c, t) && rs <= s.tasks.Keys && NoHeavier(c, s, t)
    requires lighter in rs ==> Weight(c, t, lighter) + less <= Weight(c, s, lighter)
    ensures Weights(c, t, rs) <= Weights(c, s, rs)
    ensures lighter in rs ==> Weights(c, t, rs) + less <= Weights(c, s, rs)
    decreases |rs|
  {
    if rs != {} {
      var r := Pick(rs);
      assert Weight(c, t, r) <= Weight(c, s, r);
      WeightsDrop(c, s, t, rs - {r}, less, lighter);
    }
  }

  lemma {:induction false} TurnsAfter(control: seq<Control>, p: nat, k: Control)
    requires p < |control|
    ensures TurnsDue(control[p := k]) + (if control[p].AtLoop? then 1 else 0) == TurnsDue(control) + (if k.AtLoop? then 1 else 0)
  {
    if p > 0 {
      assert control[p := k][1..] == control[1..][p - 1 := k];
      TurnsAfter(control[1..], p - 1, k);
    }
  }

  lemma {:induction false} PassGetsLighter(c: Config, s: State, p: nat, i: nat, progressed: bool)
    requires Core(c, s) && p < |c| && i <= |c[p].instrs| && |ActiveOf(s, p)| <= c[p].maxConcurrency
    ensures var end := Pass(c, s, p, i, progressed);
            && Shape(c, end.state) && NoHeavier(c, s, end.state)
            && (end.progressed && !progressed ==> exists r :: r in s.tasks && Weight(c, end.state, r) < Weight(c, s, r))
    decreases |c[p].instrs| - i
  {
    var r := Ref(p, i);
    if i == |c[p].instrs| {
    } else if !s.tasks[r].phase.Pending? {
      PassGetsLighter(c, s, p, i + 1, progressed);
    } else if |ActiveOf(s, p)| >= c[p].maxConcurrency {
    } else if !DependenciesDone(c, s, r) {
      PassGetsLighter(c, s, p, i + 1, progressed);
    } else {
      var t := Visit(c, s, r);
      var end := Pass(c, t, p, i + 1, true);
      VisitKeeps(c, s, r);
      assert TaskOk(c, s, r);
      assert Weight(c, t, r) < Weight(c, s, r);
      assert NoHeavier(c, s, t);
      PassGetsLighter(c, t, p, i + 1, true);
      assert Weight(c, end.state, r) <= Weight(c, t, r);
      forall q | q in s.tasks ensures Weight(c, end.state, q) <= Weight(c, s, q) {
        assert Weight(c, end.state, q) <= Weight(c, t, q) && Weight(c, t, q) <= Weight(c, s, q);
      }
    }
  }

  lemma DropPendingGetsLighter(c: Config, s: State, p: nat)
    requires Core(c, s)
    ensures NoHeavier(c, s, DropPending(c, s, p))
    ensures forall r | r in PendingOf(s, p) :: Weight(c, DropPending(c, s, p), r) < Weight(c, s, r)
  {
    forall r | r in PendingOf(s, p) ensures !s.tasks[r].active { assert TaskOk(c, s, r); }
  }

  lemma NoHeavierTrans(c: Config, s: State, t: State, u: State)
    requires Shape(c, s) && Shape(c, t) && Shape(c, u) && NoHeavier(c, s, t) && NoHeavier(c, t, u)
    ensures NoHeavier(c, s, u)
  {
    forall r | r in s.tasks ensures Weight(c, u, r) <= Weight(c, s, r) {
      assert Weight(c, u, r) <= Weight(c, t, r) <= Weight(c, s, r);
    }
  }

  lemma SameTasksSameWeight(c: Config, s: State, t: State)
    requires Shape(c, s) && Shape(c, t) && t.tasks == s.tasks
    ensures NoHeavier(c, s, t) && NoHeavier(c, t, s)
  {}

  /** A turn with work left that leaves its program at the loop has made some task lighter. */
  lemma TurnGetsLighter(c: Config, s: State, p: nat)
    requires Core(c, s) && p < |c| && ControlOk(c, s, p) && Validated(c) && Enabled(c, s, Loop(p)) && HasWork(s, p)
    ensures Shape(c, Turn(c, s, p)) && NoHeavier(c, s, Turn(c, s, p))
    ensures Turn(c, s, p).control[p].AtLoop? ==> exists r :: r in s.tasks && Weight(c, Turn(c, s, p), r) < Weight(c, s, r)
  {
    var ready := Ready(c, s, p);
    var end := Pass(c, ready, p, 0, false);
    var t := Turn(c, s, p);
    if p in s.aborted { DropPendingGetsLighter(c, s, p); } else { SameTasksSameWeight(c, s, ready); }
    ReadyKeeps(c, s, p);
    PassGetsLighter(c, ready, p, 0, false);
    SameTasksSameWeight(c, end.state, t);
    NoHeavierTrans(c, s, ready, end.state);
    NoHeavierTrans(c, s, end.state, t);
    if t.control[p].AtLoop? {
      if end.progressed {
        var r :| r in s.tasks && Weight(c, end.state, r) < Weight(c, ready, r);
        assert Weight(c, ready, r) <= Weight(c, s, r) && Weight(c, t, r) <= Weight(c, end.state, r);
      } else {
        var r :| r in PendingOf(s, p);
        assert Weight(c, t, r) <= Weight(c, ready, r) < Weight(c, s, r);
      }
    }
  }

  lemma OneTaskLighter(c: Config, s: State, t: State, r: Ref, task: Task)
    requires Shape(c, s) && Shape(c, t) && r in s.tasks && t.tasks == s.tasks[r := task]
    requires Weight(c, t, r) < Weight(c, s, r)
    ensures NoHeavier(c, s, t)
  {}

  lemma RunStepGetsLighter(c: Config, s: State, a: Action)
    requires Core(c, s) && Enabled(c, s, a)
    requires IsRunStep(a)
    ensures NoHeavier(c, s, Apply(c, s, a)) && Weight(c, Apply(c, s, a), a.r) < Weight(c, s, a.r)
  {
    var t := Apply(c, s, a);
    var r := a.r;
    assert LifeOk(c, s, r) by { assert TaskOk(c, s, r); }
    RunStepIsLocal(c, s, a);
    assert a.Deliver? || t.tasks[r].completed == s.tasks[r].completed;
    OneTaskLighter(c, s, t, r, t.tasks[r]);
  }

  lemma WakeGetsLighter(c: Config, s: State, p: nat) returns (r: Ref)
    requires Core(c, s) && Enabled(c, s, Wake(p))
    ensures NoHeavier(c, s, Apply(c, s, Wake(p))) && r in s.tasks && Weight(c, Apply(c, s, Wake(p)), r) + 2 <= Weight(c, s, r)
  {
    r :| r in ActiveOf(s, p) && s.tasks[r].completed.Some?;
  }

  lemma TurnDecreases(c: Config, s: State, p: nat)
    requires Inv(c, s) && Validated(c) && Enabled(c, s, Loop(p))
    ensures Shape(c, Turn(c, s, p)) && Measure(c, Turn(c, s, p)) < Measure(c, s)
  {
    var t := Turn(c, s, p);
    assert ControlOk(c, s, p);
    TurnKeeps(c, s, p);
    TurnsAfter(s.control, p, t.control[p]);
    assert t.control == s.control[p := t.control[p]];
    if !HasWork(s, p) {
      SameTasksSameWeight(c, s, t);
      WeightsDrop(c, s, t, s.tasks.Keys, 0, Ref(|c|, 0));
    } else {
      TurnGetsLighter(c, s, p);
      if t.control[p].AtLoop? {
        var r :| r in s.tasks && Weight(c, t, r) < Weight(c, s, r);
        WeightsDrop(c, s, t, s.tasks.Keys, 1, r);
      } else {
        WeightsDrop(c, s, t, s.tasks.Keys, 0, Ref(|c|, 0));
      }
    }
  }

  /** Every step but an abort signal makes the work left strictly smaller. */
  lemma StepDecreases(c: Config, s: State, a: Action)
    requires Inv(c, s) && Validated(c) && Enabled(c, s, a)
    ensures Shape(c, Apply(c, s, a)) && Measure(c, Apply(c, s, a)) <= Measure(c, s)
    ensures Internal(a) ==> Measure(c, Apply(c, s, a)) < Measure(c, s)
  {
    var t := Apply(c, s, a);
    StepKeeps(c, s, a);
    if a.Loop? {
      TurnDecreases(c, s, a.p);
    } else if a.Wake? {
      var r := WakeGetsLighter(c, s, a.p);
      WeightsDrop(c, s, t, s.tasks.Keys, 2, r);
      TurnsAfter(s.control, a.p, AtLoop);
    } else if a.Abort? {
      SameTasksSameWeight(c, s, t);
      WeightsDrop(c, s, t, s.tasks.Keys, 0, Ref(|c|, 0));
    } else {
      RunStepGetsLighter(c, s, a);
      RunStepIsLocal(c, s, a);
      WeightsDrop(c, s, t, s.tasks.Keys, 1, a.r);
    }
  }

  // ---- whole runs

  ghost predicate Run(c: Config, states: seq<State>, actions: seq<Action>) {
    && |states| == |actions| + 1 && Initial(c, states[0])
    && (forall k | 0 <= k < |states| :: Shape(c, states[k]))
    && (forall k | 0 <= k < |actions| :: Enabled(c, states[k], actions[k]) && states[k + 1] == Apply(c, states[k], actions[k]))
  }

  function InternalSteps(actions: seq<Action>): nat {
    if actions == [] then 0
    else InternalSteps(actions[..|actions| - 1]) + if actions[|actions| - 1].Abort? then 0 else 1
  }

  lemma RunPrefix(c: Config, states: seq<State>, actions: seq<Action>)
    requires Run(c, states, actions) && actions != []
    ensures Run(c, states[..|actions|], actions[..|actions| - 1])
  {}

  /** The invariant holds along every run, and a run has at most as many steps as its initial work. */
  lemma {:induction false} RunIsSafeAndBounded(c: Config, states: seq<State>, actions: seq<Action>)
    requires Validated(c) && Run(c, states, actions)
    ensures forall k | 0 <= k < |states| :: Inv(c, states[k])
    ensures InternalSteps(actions) + Measure(c, states[|actions|]) <= Measure(c, states[0])
    decreases |actions|
  {
    if actions == [] {
      InitialIsSafe(c, states[0]);
    } else {
      var n := |actions| - 1;
      var before, s := states[..n + 1], states[n];
      RunPrefix(c, states, actions);
      RunIsSafeAndBounded(c, before, actions[..n]);
      assert before[n] == s && before[0] == states[0] && Inv(c, before[n]);
      StepKeeps(c, s, actions[n]);
      StepDecreases(c, s, actions[n]);
      forall k | 0 <= k < |states| ensures Inv(c, states[k]) {
        if k <= n { assert before[k] == states[k]; }
      }
    }
  }

  /** The programs' results in instruction order. */
  ghost function Results(c: Config, s: State, p: nat): (results: seq<Option<Result>>)
    requires Shape(c, s) && p < |c|
  {
    seq(|c[p].instrs|, i requires 0 <= i < |c[p].instrs| => s.tasks[Ref(p, i)].completed)
  }

  /** A run that can go no further has finished every program: nothing deadlocked, nothing was
      rejected, and each program has exactly one result per instruction, in program order. */
  lemma MaximalRunCompletes(c: Config, states: seq<State>, actions: seq<Action>)
    requires Validated(c) && Run(c, states, actions)
    requires forall a | Internal(a) :: !Enabled(c, states[|actions|], a)
    ensures forall p | 0 <= p < |c| ::
              && states[|actions|].control[p].Finished?
              && |Results(c, states[|actions|], p)| == |c[p].instrs|
              && forall i | 0 <= i < |c[p].instrs| :: Results(c, states[|actions|], p)[i].Some?
  {
    var s := states[|actions|];
    RunIsSafeAndBounded(c, states, actions);
    forall p | 0 <= p < |c|
      ensures s.control[p].Finished? && forall i | 0 <= i < |c[p].instrs| :: Results(c, s, p)[i].Some?
    {
      if !s.control[p].Finished? {
        var a := DeadlockFree(c, s, p);
        assert false;
      }
      FinishedHasAllResults(c, s, p);
    }
  }
}
