/** Where results come from, on every run: a result says what happened to its instruction, an executor
    starts only where it may, and nothing starts after an abort. */
module PipelineResults {
  import opened Coordinator
  import opened Pipeline
  import opened PipelineSafety
  import opened PipelineProgress

  // ---- how the run of an instruction ends

  /** The action ends the run of `o` with this result: its executor returned, a precondition was not valid,
      or its program had been aborted before the executor started. */
  ghost predicate Ends(c: Config, s: State, a: Action, o: Ref, x: Result) {
    && Declared(c, o) && x.rollback == InstrOf(c, o).rollback
    && match a
       case Finish(r, outcome) => r == o && x.status == outcome
       case Check(r, valid) => r == o && !valid && x.status.Failed?
       case Begin(r) => r == o && !Commits(c, o) && o.p in s.aborted && x.status.Cancelled?
       case EnterCommit(r) => r == o && o.p in s.aborted && x.status.Cancelled?
       case Dispatch(r) => r == o && o.p in s.aborted && x.status.Cancelled?
       case _ => false
  }

  predicate HasEndedAs(f: Phase, x: Result) {
    f == Releasing(x) || f == Settled(x)
  }

  /** Why an instruction got a result without running: a dependency did not succeed, its program was
      aborted, or a different operation runs or ran under its key. */
  ghost predicate NotRun(c: Config, s: State, r: Ref, x: Result) {
    && Declared(c, r) && x.rollback == InstrOf(c, r).rollback
    && match x.status
       case Partial => DependenciesDone(c, s, r) && exists d, y :: d in InstrOf(c, r).dependsOn && ResultIs(c, s, r.p, d, y) && !Succeeds(y)
       case Cancelled => r.p in s.aborted
       case Failed => DependenciesSucceeded(c, s, r) && exists o :: IsConflict(c, s, r, o)
       case _ => false
  }

  ghost predicate IsConflict(c: Config, s: State, r: Ref, o: Ref) {
    && Declared(c, r) && Declared(c, o) && o in s.tasks && Owned(s.tasks[o].phase)
    && InstrOf(c, o).key == InstrOf(c, r).key && InstrOf(c, o).fingerprint != InstrOf(c, r).fingerprint
  }

  ghost predicate DropOk(c: Config, s: State, r: Ref) {
    r in s.tasks && (s.tasks[r].phase.Dropped? ==> s.tasks[r].completed.Some? && NotRun(c, s, r, s.tasks[r].completed.value))
  }

  // ---- reasons stay

  ghost predicate Grows(s: State, t: State) {
    && KeepsResults(s, t) && s.aborted <= t.aborted
    && forall r | r in s.tasks :: Owned(s.tasks[r].phase) ==> Owned(t.tasks[r].phase)
  }

  lemma ResultIsStays(c: Config, s: State, t: State, p: nat, id: string, x: Result)
    requires KeepsResults(s, t) && ResultIs(c, s, p, id, x)
    ensures ResultIs(c, t, p, id, x)
  {
    var i: nat :| Declared(c, Ref(p, i)) && Ref(p, i) in s.tasks && c[p].instrs[i].id == id && s.tasks[Ref(p, i)].completed == Some(x);
    assert Ref(p, i) in t.tasks;
  }

  lemma NotRunStays(c: Config, s: State, t: State, r: Ref, x: Result)
    requires Shape(c, s) && Shape(c, t) && Grows(s, t) && NotRun(c, s, r, x)
    ensures NotRun(c, t, r, x)
  {
    if x.status.Partial? {
      var d, y :| d in InstrOf(c, r).dependsOn && ResultIs(c, s, r.p, d, y) && !Succeeds(y);
      ResultIsStays(c, s, t, r.p, d, y);
      forall d | d in InstrOf(c, r).dependsOn ensures HasResult(c, t, r.p, d) {
        var y :| ResultIs(c, s, r.p, d, y);
        ResultIsStays(c, s, t, r.p, d, y);
      }
    } else if x.status.Failed? {
      ResultsStay(c, s, t, r);
      var o :| IsConflict(c, s, r, o);
      assert IsConflict(c, t, r, o);
    }
  }

  // ---- the pass of one program

  /** Every task is as it was, or was pending and has been dropped for a reason, joined or started. */
  ghost predicate OnlyVisits(c: Config, s: State, t: State, p: nat) {
    && Grows(s, t) && t.aborted == s.aborted
    && forall r | r in s.tasks :: VisitedOk(c, s, t, p, r)
  }

  ghost predicate VisitedOk(c: Config, s: State, t: State, p: nat, r: Ref)
    requires r in s.tasks
  {
    r in t.tasks &&
    var was, now := s.tasks[r], t.tasks[r];
    || (now.phase == was.phase && now.completed == was.completed)
    || (r.p == p && was.phase.Pending?
        && ((now.phase.Dropped? && now.completed.Some? && NotRun(c, t, r, now.completed.value)) || now.phase.Joined? || now.phase.Locking?))
  }

  lemma ThenVisits(c: Config, s: State, m: State, t: State, p: nat)
    requires Shape(c, s) && Shape(c, m) && Shape(c, t) && OnlyVisits(c, s, m, p) && OnlyVisits(c, m, t, p)
    ensures OnlyVisits(c, s, t, p)
  {
    hide NotRun;
    forall r | r in s.tasks ensures VisitedOk(c, s, t, p, r) {
      assert VisitedOk(c, s, m, p, r) && VisitedOk(c, m, t, p, r);
      if m.tasks[r].phase.Dropped? && s.tasks[r].phase.Pending? { NotRunStays(c, m, t, r, m.tasks[r].completed.value); }
    }
  }

  lemma OneVisited(c: Config, s: State, t: State, r: Ref, now: Task)
    requires Core(c, s) && Shape(c, t) && r in s.tasks && s.tasks[r].phase.Pending?
    requires t.tasks == s.tasks[r := now] && t.aborted == s.aborted
    requires (now.phase.Dropped? && now.completed.Some? && NotRun(c, s, r, now.completed.value)) || now.phase.Joined? || now.phase.Locking?
    ensures OnlyVisits(c, s, t, r.p)
  {
    hide NotRun, LocksOk, QueueOk, EntryOk;
    assert s.tasks[r].completed.None? by { assert TaskOk(c, s, r); }
    hide TaskOk;
    assert Grows(s, t);
    if now.phase.Dropped? { NotRunStays(c, s, t, r, now.completed.value); }
  }

  lemma Unsuccessful(c: Config, s: State, r: Ref)
    requires Declared(c, r) && DependenciesDone(c, s, r) && !DependenciesSucceeded(c, s, r)
    ensures NotRun(c, s, r, Result(InstrOf(c, r).rollback, Partial))
  {
    var d :| d in InstrOf(c, r).dependsOn && !exists x :: ResultIs(c, s, r.p, d, x) && Succeeds(x);
    assert HasResult(c, s, r.p, d);
    var y :| ResultIs(c, s, r.p, d, y);
  }

  lemma VisitExplains(c: Config, s: State, r: Ref)
    requires Core(c, s) && r in s.tasks && s.tasks[r].phase.Pending? && DependenciesDone(c, s, r)
    ensures OnlyVisits(c, s, Visit(c, s, r), r.p)
  {
    var t, instr := Visit(c, s, r), InstrOf(c, r);
    hide LocksOk, QueueOk, TaskOk, DependenciesDone, OnlyVisits;
    if !DependenciesSucceeded(c, s, r) {
      Unsuccessful(c, s, r);
    } else if instr.key in s.inFlight {
      assert EntryOk(c, s, instr.key);
      var o := s.inFlight[instr.key];
      if InstrOf(c, o).fingerprint != instr.fingerprint { assert IsConflict(c, s, r, o); }
    }
    OneVisited(c, s, t, r, t.tasks[r]);
  }

  lemma {:induction false} PassExplains(c: Config, s: State, p: nat, i: nat, progressed: bool)
    requires Core(c, s) && p < |c| && i <= |c[p].instrs| && |ActiveOf(s, p)| <= c[p].maxConcurrency
    ensures Core(c, Pass(c, s, p, i, progressed).state) && OnlyVisits(c, s, Pass(c, s, p, i, progressed).state, p)
    decreases |c[p].instrs| - i
  {
    hide LocksOk, QueueOk, TaskOk, EntryOk, DependenciesDone, Visit, OnlyVisits, KeepsResults, OthersStay;
    var r := Ref(p, i);
    PassKeeps(c, s, p, i, progressed);
    NothingVisited(c, s, p);
    if i < |c[p].instrs| {
      if !s.tasks[r].phase.Pending? {
        PassExplains(c, s, p, i + 1, progressed);
      } else if |ActiveOf(s, p)| < c[p].maxConcurrency {
        if !DependenciesDone(c, s, r) {
          PassExplains(c, s, p, i + 1, progressed);
        } else {
          var t := Visit(c, s, r);
          VisitKeeps(c, s, r);
          VisitExplains(c, s, r);
          assert |ActiveOf(t, p)| <= c[p].maxConcurrency;
          PassExplains(c, t, p, i + 1, true);
          ThenVisits(c, s, t, Pass(c, t, p, i + 1, true).state, p);
        }
      }
    }
  }

  lemma NothingVisited(c: Config, s: State, p: nat)
    ensures OnlyVisits(c, s, s, p)
  {
  }

  lemma ReadyExplains(c: Config, s: State, p: nat)
    requires Core(c, s)
    ensures OnlyVisits(c, s, Ready(c, s, p), p)
  {
    hide LocksOk, QueueOk, EntryOk;
    var ready := Ready(c, s, p);
    forall r | r in s.tasks && s.tasks[r].phase.Pending? ensures s.tasks[r].completed.None? { assert TaskOk(c, s, r); }
    hide TaskOk;
    assert Grows(s, ready);
    forall r | r in s.tasks ensures VisitedOk(c, s, ready, p, r) {}
  }

  lemma TurnExplains(c: Config, s: State, p: nat)
    requires Core(c, s) && p < |c| && ControlOk(c, s, p) && Validated(c) && Enabled(c, s, Loop(p))
    ensures Shape(c, Turn(c, s, p)) && OnlyVisits(c, s, Turn(c, s, p), p)
  {
    hide LocksOk, QueueOk, TaskOk, EntryOk, OnlyVisits, KeepsResults, OthersStay, Pass, Ready;
    NothingVisited(c, s, p);
    var m := s;
    if HasWork(s, p) {
      var ready := Ready(c, s, p);
      ReadyKeeps(c, s, p);
      ReadyExplains(c, s, p);
      PassExplains(c, ready, p, 0, false);
      m := Pass(c, ready, p, 0, false).state;
      ThenVisits(c, s, ready, m, p);
    }
    var t := Turn(c, s, p);
    assert t == m.(control := t.control);
    SameTasksExplained(c, s, m, t, p);
  }

  lemma SameTasksExplained(c: Config, s: State, m: State, t: State, p: nat)
    requires Shape(c, s) && Shape(c, m) && |t.control| == |c| && OnlyVisits(c, s, m, p) && t == m.(control := t.control)
    ensures Shape(c, t) && OnlyVisits(c, s, t, p)
  {
    hide NotRun;
    assert Grows(m, t);
    forall r | r in s.tasks ensures VisitedOk(c, s, t, p, r) {
      assert VisitedOk(c, s, m, p, r);
      if m.tasks[r].phase.Dropped? && s.tasks[r].phase.Pending? { NotRunStays(c, m, t, r, m.tasks[r].completed.value); }
    }
  }

  // ---- the steps of a run

  /** A step gives a run a result exactly where it ends it, and a result stays. */
  lemma StepEndsExactly(c: Config, s: State, a: Action, r: Ref, x: Result)
    requires Core(c, s) && Enabled(c, s, a) && IsRunStep(a) && r in s.tasks
    ensures HasEndedAs(Apply(c, s, a).tasks[r].phase, x) <==> HasEndedAs(s.tasks[r].phase, x) || Ends(c, s, a, r, x)
    ensures !(HasEndedAs(s.tasks[r].phase, x) && Ends(c, s, a, r, x))
  {
    hide LocksOk, QueueOk, EntryOk, TaskOk;
    RunStepIsLocal(c, s, a);
    var y := Result(InstrOf(c, r).rollback, x.status);
    assert x.rollback == InstrOf(c, r).rollback ==> x == y;
  }

  lemma RunStepGrows(c: Config, s: State, a: Action)
    requires Core(c, s) && Enabled(c, s, a) && IsRunStep(a)
    ensures Grows(s, Apply(c, s, a))
  {
    RunStepKeeps(c, s, a);
    RunStepIsLocal(c, s, a);
    hide LocksOk, QueueOk, EntryOk, TaskOk, KeepsResults;
  }

  lemma StepGrows(c: Config, s: State, a: Action)
    requires Inv(c, s) && Validated(c) && Enabled(c, s, a)
    ensures Grows(s, Apply(c, s, a))
  {
    hide LocksOk, QueueOk, EntryOk, TaskOk, Turn;
    if a.Loop? {
      assert ControlOk(c, s, a.p);
      TurnExplains(c, s, a.p);
    } else if a.Wake? || a.Abort? {
      StepKeeps(c, s, a);
    } else {
      RunStepGrows(c, s, a);
    }
  }

  /** A step that is no run step ends nothing. */
  lemma OtherStepEndsNothing(c: Config, s: State, a: Action, r: Ref, x: Result)
    requires Inv(c, s) && Validated(c) && Enabled(c, s, a) && !IsRunStep(a) && r in s.tasks
    ensures r in Apply(c, s, a).tasks && (HasEndedAs(Apply(c, s, a).tasks[r].phase, x) <==> HasEndedAs(s.tasks[r].phase, x))
  {
    hide LocksOk, QueueOk, EntryOk, TaskOk, Turn;
    if a.Loop? {
      assert ControlOk(c, s, a.p);
      TurnExplains(c, s, a.p);
      assert VisitedOk(c, s, Apply(c, s, a), a.p, r);
    }
  }

  lemma DropStays(c: Config, s: State, a: Action, r: Ref)
    requires Inv(c, s) && Validated(c) && Enabled(c, s, a) && DropOk(c, s, r)
    ensures DropOk(c, Apply(c, s, a), r)
  {
    hide LocksOk, QueueOk, EntryOk, TaskOk, Turn, NotRun;
    var t := Apply(c, s, a);
    StepKeeps(c, s, a);
    StepGrows(c, s, a);
    if s.tasks[r].phase.Dropped? { NotRunStays(c, s, t, r, s.tasks[r].completed.value); }
    OnlyDropsForAReason(c, s, a, r);
    hide Apply;
  }

  /** Who is dropped after a step was dropped before, with the same result, or has been dropped for a reason. */
  lemma OnlyDropsForAReason(c: Config, s: State, a: Action, r: Ref)
    requires Inv(c, s) && Validated(c) && Enabled(c, s, a) && r in s.tasks
    ensures var t := Apply(c, s, a);
            r in t.tasks && (t.tasks[r].phase.Dropped? ==>
              (s.tasks[r].phase.Dropped? && t.tasks[r].completed == s.tasks[r].completed)
              || (t.tasks[r].completed.Some? && NotRun(c, t, r, t.tasks[r].completed.value)))
  {
    hide LocksOk, QueueOk, EntryOk, Turn, NotRun;
    if a.Loop? {
      assert ControlOk(c, s, a.p);
      TurnExplains(c, s, a.p);
      assert VisitedOk(c, s, Apply(c, s, a), a.p, r);
    } else if IsRunStep(a) {
      assert TaskOk(c, s, a.r);
      NoRunStepOnDropped(c, s, a);
      RunStepIsLocal(c, s, a);
      hide Apply;
    }
  }

  lemma NoRunStepOnDropped(c: Config, s: State, a: Action)
    requires Shape(c, s) && Enabled(c, s, a) && IsRunStep(a) && LifeOk(c, s, a.r)
    ensures !s.tasks[a.r].phase.Dropped? && !Apply(c, s, a).tasks[a.r].phase.Dropped?
  {
  }

  // ---- whole runs

  ghost predicate Ended(c: Config, states: seq<State>, actions: seq<Action>, k: nat, o: Ref, x: Result) {
    exists j :: 0 <= j < k <= |actions| <= |states| && Ends(c, states[j], actions[j], o, x)
  }

  lemma EndedStep(c: Config, states: seq<State>, actions: seq<Action>, k: nat, o: Ref, x: Result)
    requires k < |actions| <= |states|
    ensures Ended(c, states, actions, k + 1, o, x) <==> Ended(c, states, actions, k, o, x) || Ends(c, states[k], actions[k], o, x)
  {
  }

  /** On every run, after every step: a run of an instruction has a result exactly if it has been ended with
      that result, and an instruction that did not run has its result for a reason. */
  lemma {:induction false} EndedExactly(c: Config, states: seq<State>, actions: seq<Action>, k: nat, r: Ref)
    requires Validated(c) && Run(c, states, actions) && k <= |actions| && Declared(c, r)
    ensures r in states[k].tasks && DropOk(c, states[k], r)
    ensures forall x :: HasEndedAs(states[k].tasks[r].phase, x) <==> Ended(c, states, actions, k, r, x)
    decreases k
  {
    hide Inv, Ends, DropOk;
    RunIsSafeAndBounded(c, states, actions);
    if k > 0 {
      EndedExactly(c, states, actions, k - 1, r);
      var s, a := states[k - 1], actions[k - 1];
      assert Inv(c, s) && states[k] == Apply(c, s, a);
      DropStays(c, s, a, r);
      forall x ensures HasEndedAs(states[k].tasks[r].phase, x) <==> Ended(c, states, actions, k, r, x) {
        EndedStep(c, states, actions, k - 1, r, x);
        OneStepEnds(c, s, a, r, x);
      }
    } else {
      FirstDropOk(c, states[0], r);
    }
  }

  lemma FirstDropOk(c: Config, s: State, r: Ref)
    requires Initial(c, s) && Declared(c, r)
    ensures DropOk(c, s, r)
  {
  }

  lemma OneStepEnds(c: Config, s: State, a: Action, r: Ref, x: Result)
    requires Inv(c, s) && Validated(c) && Enabled(c, s, a) && r in s.tasks
    ensures r in Apply(c, s, a).tasks
    ensures HasEndedAs(Apply(c, s, a).tasks[r].phase, x) <==> HasEndedAs(s.tasks[r].phase, x) || Ends(c, s, a, r, x)
  {
    hide Core;
    if IsRunStep(a) {
      StepKeeps(c, s, a);
      StepEndsExactly(c, s, a, r, x);
    } else {
      OtherStepEndsNothing(c, s, a, r, x);
    }
  }

  /** The run whose result an instruction has: its own, or the one it joined. */
  function OwnerOf(s: State, r: Ref): Ref
    requires r in s.tasks
  {
    if s.tasks[r].phase.Joined? then s.tasks[r].phase.owner else r
  }

  /** Every result says what happened: the run it belongs to, under the instruction's own key and fingerprint,
      was ended with it, or the instruction did not run for a reason that still holds. */
  lemma ResultsSayWhatHappened(c: Config, states: seq<State>, actions: seq<Action>, k: nat, r: Ref, x: Result)
    requires Validated(c) && Run(c, states, actions) && k <= |actions| && Declared(c, r)
    requires r in states[k].tasks && states[k].tasks[r].completed == Some(x)
    ensures if states[k].tasks[r].phase.Dropped? then NotRun(c, states[k], r, x)
            else
              var o := OwnerOf(states[k], r);
              && Declared(c, o) && InstrOf(c, o).key == InstrOf(c, r).key && InstrOf(c, o).fingerprint == InstrOf(c, r).fingerprint
              && Ended(c, states, actions, k, o, x)
  {
    hide NotRun, Ended;
    var s := states[k];
    RunIsSafeAndBounded(c, states, actions);
    assert Inv(c, s) && TaskOk(c, s, r) && LifeOk(c, s, r) && FlightOk(c, s, r);
    EndedExactly(c, states, actions, k, r);
    if s.tasks[r].phase.Joined? { EndedExactly(c, states, actions, k, OwnerOf(s, r)); }
  }

  /** What ended a run is what it and everyone who joined it gets, and nothing else. */
  lemma TheEndIsTheResult(c: Config, states: seq<State>, actions: seq<Action>, j: nat, k: nat, o: Ref, x: Result, r: Ref)
    requires Validated(c) && Run(c, states, actions) && j < k <= |actions| && Ends(c, states[j], actions[j], o, x)
    requires Declared(c, r) && r in states[k].tasks && !states[k].tasks[r].phase.Dropped? && OwnerOf(states[k], r) == o
    ensures states[k].tasks[r].completed.Some? ==> states[k].tasks[r].completed == Some(x)
  {
    if states[k].tasks[r].completed.Some? {
      var y := states[k].tasks[r].completed.value;
      ResultsSayWhatHappened(c, states, actions, k, r, y);
      EndedExactly(c, states, actions, k, o);
      assert HasEndedAs(states[k].tasks[o].phase, x) && HasEndedAs(states[k].tasks[o].phase, y);
    }
  }

  /** What an executor returned is its instruction's result, and that of every instruction that joined it. */
  lemma ReturnedIsTheResult(c: Config, states: seq<State>, actions: seq<Action>, j: nat, k: nat, o: Ref, outcome: Status, r: Ref)
    requires Validated(c) && Run(c, states, actions) && j < k <= |actions| && actions[j] == Finish(o, outcome)
    requires Declared(c, r) && r in states[k].tasks && states[k].tasks[r].completed.Some?
    requires r == o || states[k].tasks[r].phase == Joined(o)
    ensures states[k].tasks[r].completed.value.status == outcome
  {
    assert Enabled(c, states[j], actions[j]);
    var x := Result(InstrOf(c, o).rollback, outcome);
    assert Ends(c, states[j], actions[j], o, x) && Ended(c, states, actions, k, o, x);
    EndedExactly(c, states, actions, k, o);
    assert OwnerOf(states[k], r) == o;
    TheEndIsTheResult(c, states, actions, j, k, o, x, r);
  }

  lemma NotRunHow(c: Config, s: State, r: Ref, x: Result)
    requires NotRun(c, s, r, x)
    ensures x.status in {Partial, Cancelled, Failed} && (x.status.Cancelled? ==> r.p in s.aborted)
  {
    hide DependenciesDone, DependenciesSucceeded, ResultIs, IsConflict;
  }

  lemma EndedHow(c: Config, states: seq<State>, actions: seq<Action>, k: nat, o: Ref, x: Result)
    requires Ended(c, states, actions, k, o, x)
    ensures x.status in {Succeeded, Indeterminate, RolledBack} ==> exists j :: 0 <= j < k <= |actions| && actions[j] == Finish(o, x.status)
    ensures x.status.Cancelled? ==>
              || (exists j :: 0 <= j < k <= |actions| && actions[j] == Finish(o, Cancelled))
              || (exists j :: 0 <= j < k <= |actions| <= |states| && o.p in states[j].aborted)
  {
    var j :| 0 <= j < k <= |actions| <= |states| && Ends(c, states[j], actions[j], o, x);
    if actions[j].Finish? { assert actions[j] == Finish(o, x.status); }
  }

  /** Nothing succeeded, was rolled back or became indeterminate unless an executor said so. */
  lemma OnlyExecutorsSucceed(c: Config, states: seq<State>, actions: seq<Action>, k: nat, r: Ref, x: Result)
    requires Validated(c) && Run(c, states, actions) && k <= |actions| && Declared(c, r)
    requires r in states[k].tasks && states[k].tasks[r].completed == Some(x) && x.status in {Succeeded, Indeterminate, RolledBack}
    ensures exists j :: 0 <= j < k && actions[j] == Finish(OwnerOf(states[k], r), x.status)
  {
    hide NotRun, Ended;
    ResultsSayWhatHappened(c, states, actions, k, r, x);
    hide Run, Validated, Declared;
    if states[k].tasks[r].phase.Dropped? {
      NotRunHow(c, states[k], r, x);
    } else {
      EndedHow(c, states, actions, k, OwnerOf(states[k], r), x);
    }
  }

  /** A run was cancelled, without its executor saying so, only after its program was aborted. */
  lemma CancelledAfterAnAbort(c: Config, states: seq<State>, actions: seq<Action>, k: nat, r: Ref, x: Result)
    requires Validated(c) && Run(c, states, actions) && k <= |actions| && Declared(c, r)
    requires r in states[k].tasks && states[k].tasks[r].completed == Some(x) && x.status.Cancelled?
    ensures var o := OwnerOf(states[k], r); o.p in states[k].aborted || exists j :: 0 <= j < k && actions[j] == Finish(o, Cancelled)
  {
    hide NotRun, Ended;
    ResultsSayWhatHappened(c, states, actions, k, r, x);
    var o := OwnerOf(states[k], r);
    if states[k].tasks[r].phase.Dropped? {
      NotRunHow(c, states[k], r, x);
    } else {
      EndedHow(c, states, actions, k, o, x);
      if j :| 0 <= j < k <= |actions| <= |states| && o.p in states[j].aborted { AbortsStay(c, states, actions, j, k); }
    }
    hide Run, Validated, Declared;
  }

  /** A precondition that did not hold makes its instruction fail. */
  lemma FailedPreconditionFails(c: Config, states: seq<State>, actions: seq<Action>, j: nat, k: nat, r: Ref)
    requires Validated(c) && Run(c, states, actions) && j < k <= |actions| && actions[j] == Check(r, false)
    requires r in states[k].tasks && states[k].tasks[r].completed.Some?
    ensures states[k].tasks[r].completed.value.status.Failed?
  {
    assert Enabled(c, states[j], actions[j]);
    var y := Result(InstrOf(c, r).rollback, Failed);
    assert Ends(c, states[j], actions[j], r, y) && Ended(c, states, actions, k, r, y);
    EndedExactly(c, states, actions, k, r);
    TheEndIsTheResult(c, states, actions, j, k, r, y, r);
  }

  lemma {:induction false} AbortsStay(c: Config, states: seq<State>, actions: seq<Action>, j: nat, k: nat)
    requires Validated(c) && Run(c, states, actions) && j <= k <= |actions|
    ensures states[j].aborted <= states[k].aborted
    decreases k
  {
    hide Inv, Shape, Apply, KeepsResults, Initial;
    if j < k {
      AbortsStay(c, states, actions, j, k - 1);
      RunIsSafeAndBounded(c, states, actions);
      assert Inv(c, states[k - 1]);
      StepGrows(c, states[k - 1], actions[k - 1]);
      assert states[k] == Apply(c, states[k - 1], actions[k - 1]);
    }
  }

  // ---- preconditions

  /** The `i`-th precondition was found valid, in its turn. */
  ghost predicate FoundValid(states: seq<State>, actions: seq<Action>, k: nat, r: Ref, i: nat) {
    exists j :: 0 <= j < k <= |actions| <= |states| && actions[j] == Check(r, true) && r in states[j].tasks && states[j].tasks[r].phase == Checking(i)
  }

  /** How far the checks of an instruction have come. */
  ghost predicate CheckedUpTo(states: seq<State>, actions: seq<Action>, k: nat, r: Ref, n: nat) {
    forall i: nat | i < n :: FoundValid(states, actions, k, r, i)
  }

  lemma CheckedLater(states: seq<State>, actions: seq<Action>, k: nat, r: Ref, n: nat)
    requires k < |actions| <= |states| && CheckedUpTo(states, actions, k, r, n)
    ensures CheckedUpTo(states, actions, k + 1, r, n)
    ensures actions[k] == Check(r, true) && r in states[k].tasks && states[k].tasks[r].phase == Checking(n) ==> CheckedUpTo(states, actions, k + 1, r, n + 1)
  {
    forall i: nat {:trigger FoundValid(states, actions, k + 1, r, i)} | i < n ensures FoundValid(states, actions, k + 1, r, i) { assert FoundValid(states, actions, k, r, i); }
    if actions[k] == Check(r, true) && r in states[k].tasks && states[k].tasks[r].phase == Checking(n) {
      assert FoundValid(states, actions, k + 1, r, n);
    }
  }

  /** How a step may bring an instruction to its checks and its executor: one valid check after the other,
      and neither its checks nor its executor begin in an aborted program. */
  predicate IsCheckMove(c: Config, s: State, a: Action, r: Ref, f: Phase, g: Phase)
    requires Declared(c, r)
  {
    && (g.Checking? && g != f && g.next > 0 ==> f == Checking(g.next - 1) && a == Check(r, true))
    && (g.Executing? && g != f ==> f == Checking(|InstrOf(c, r).conditions|) && a == Dispatch(r) && r.p !in s.aborted)
    && (g.Checking? && !f.Checking? ==> r.p !in s.aborted)
  }

  lemma RunStepChecks(c: Config, s: State, a: Action, r: Ref)
    requires Shape(c, s) && Enabled(c, s, a) && IsRunStep(a) && r in s.tasks
    ensures r in Apply(c, s, a).tasks && IsCheckMove(c, s, a, r, s.tasks[r].phase, Apply(c, s, a).tasks[r].phase)
  {
    RunStepIsLocal(c, s, a);
  }

  lemma StepChecks(c: Config, s: State, a: Action, r: Ref)
    requires Inv(c, s) && Validated(c) && Enabled(c, s, a) && r in s.tasks
    ensures r in Apply(c, s, a).tasks && IsCheckMove(c, s, a, r, s.tasks[r].phase, Apply(c, s, a).tasks[r].phase)
  {
    hide LocksOk, QueueOk, EntryOk, TaskOk, Turn, NotRun;
    if a.Loop? {
      assert ControlOk(c, s, a.p);
      TurnExplains(c, s, a.p);
      assert VisitedOk(c, s, Apply(c, s, a), a.p, r);
    } else if IsRunStep(a) {
      hide Apply;
      RunStepChecks(c, s, a, r);
    }
  }

  /** An instruction is executing, or at its `n`-th precondition, only after all of them, or the `n` before
      that, were found valid one after the other. */
  ghost predicate CheckedOk(c: Config, states: seq<State>, actions: seq<Action>, k: nat, r: Ref) {
    && Declared(c, r) && k <= |actions| < |states| && r in states[k].tasks
    && (states[k].tasks[r].phase.Checking? ==> CheckedUpTo(states, actions, k, r, states[k].tasks[r].phase.next))
    && (states[k].tasks[r].phase.Executing? ==> CheckedUpTo(states, actions, k, r, |InstrOf(c, r).conditions|))
  }

  lemma MoveChecks(c: Config, states: seq<State>, actions: seq<Action>, k: nat, r: Ref)
    requires k < |actions| < |states| && CheckedOk(c, states, actions, k, r) && r in states[k + 1].tasks
    requires IsCheckMove(c, states[k], actions[k], r, states[k].tasks[r].phase, states[k + 1].tasks[r].phase)
    ensures CheckedOk(c, states, actions, k + 1, r)
  {
    hide CheckedUpTo;
    var f := states[k].tasks[r].phase;
    if f.Checking? { CheckedLater(states, actions, k, r, f.next); }
    if f.Executing? { CheckedLater(states, actions, k, r, |InstrOf(c, r).conditions|); }
    NothingToCheck(states, actions, k + 1, r);
  }

  /** So it is on every run. */
  lemma {:induction false} ChecksAreMadeInOrder(c: Config, states: seq<State>, actions: seq<Action>, k: nat, r: Ref)
    requires Validated(c) && Run(c, states, actions) && k <= |actions| && Declared(c, r)
    ensures CheckedOk(c, states, actions, k, r)
    decreases k
  {
    hide Inv, Apply, IsCheckMove, CheckedUpTo;
    RunIsSafeAndBounded(c, states, actions);
    if k > 0 {
      ChecksAreMadeInOrder(c, states, actions, k - 1, r);
      hide CheckedOk;
      assert Inv(c, states[k - 1]) && states[k] == Apply(c, states[k - 1], actions[k - 1]) && r in states[k - 1].tasks;
      StepChecks(c, states[k - 1], actions[k - 1], r);
      MoveChecks(c, states, actions, k - 1, r);
    }
  }

  lemma NothingToCheck(states: seq<State>, actions: seq<Action>, k: nat, r: Ref)
    ensures CheckedUpTo(states, actions, k, r, 0)
  {
  }

  /** An instruction whose executor runs has every instruction that it names as a precondition in the status
      that it names, at that moment and ever after. */
  lemma PreconditionsHold(c: Config, states: seq<State>, actions: seq<Action>, k: nat, r: Ref, i: nat)
    requires Validated(c) && Run(c, states, actions) && k <= |actions| && Declared(c, r) && i < |InstrOf(c, r).conditions|
    requires r in states[k].tasks && states[k].tasks[r].phase.Executing? && InstrOf(c, r).conditions[i].InstructionStatus?
    ensures var condition := InstrOf(c, r).conditions[i];
            exists x :: ResultIs(c, states[k], r.p, condition.id, x) && x.status == condition.status
  {
    ChecksAreMadeInOrder(c, states, actions, k, r);
    assert FoundValid(states, actions, k, r, i);
    var j :| 0 <= j < k && actions[j] == Check(r, true) && r in states[j].tasks && states[j].tasks[r].phase == Checking(i);
    assert Enabled(c, states[j], actions[j]);
    var condition := InstrOf(c, r).conditions[i];
    var x :| ResultIs(c, states[j], r.p, condition.id, x) && x.status == condition.status;
    hide Enabled, ResultIs, CheckedUpTo;
    ResultsRemain(c, states, actions, j, k);
    ResultIsStays(c, states[j], states[k], r.p, condition.id, x);
  }

  /** Results never change on any run. */
  lemma {:induction false} ResultsRemain(c: Config, states: seq<State>, actions: seq<Action>, j: nat, k: nat)
    requires Validated(c) && Run(c, states, actions) && j <= k <= |actions|
    ensures KeepsResults(states[j], states[k])
    decreases k
  {
    hide Inv, Shape, Apply, Initial;
    if j < k {
      ResultsRemain(c, states, actions, j, k - 1);
      RunIsSafeAndBounded(c, states, actions);
      assert Inv(c, states[k - 1]);
      StepKeeps(c, states[k - 1], actions[k - 1]);
      assert states[k] == Apply(c, states[k - 1], actions[k - 1]);
    }
  }

  // ---- aborts

  /** After an abort no executor starts and no check begins. */
  lemma NothingStartsAfterAnAbort(c: Config, s: State, a: Action, r: Ref)
    requires Inv(c, s) && Validated(c) && Enabled(c, s, a) && r in s.tasks && r.p in s.aborted
    ensures var t := Apply(c, s, a);
            && r in t.tasks && r.p in t.aborted
            && (t.tasks[r].phase.Executing? ==> s.tasks[r].phase.Executing?)
            && (t.tasks[r].phase.Checking? ==> s.tasks[r].phase.Checking?)
  {
    StepChecks(c, s, a, r);
    StepGrows(c, s, a);
    hide Apply, Inv, Enabled;
  }

  /** And what is pending stays so or is cancelled. */
  lemma PendingIsCancelledByAnAbort(c: Config, s: State, a: Action, r: Ref)
    requires Inv(c, s) && Validated(c) && Enabled(c, s, a) && r in s.tasks && r.p in s.aborted && s.tasks[r].phase.Pending?
    ensures var t := Apply(c, s, a);
            r in t.tasks
            && (t.tasks[r].phase.Pending? || (t.tasks[r].phase.Dropped? && t.tasks[r].completed == Some(Result(InstrOf(c, r).rollback, Cancelled))))
  {
    if a.Loop? {
      if a.p == r.p { AbortedTurnDrops(c, s, a.p, r); } else { OtherTurn(c, s, a.p, r); }
      hide Turn, Inv, Validated;
    } else if IsRunStep(a) {
      RunStepIsLocal(c, s, a);
      hide Apply, Inv, Validated;
    }
  }

  lemma OtherTurn(c: Config, s: State, p: nat, r: Ref)
    requires Inv(c, s) && Validated(c) && Enabled(c, s, Loop(p)) && r in s.tasks && r.p != p
    ensures r in Turn(c, s, p).tasks && Turn(c, s, p).tasks[r] == s.tasks[r]
  {
    assert ControlOk(c, s, p);
    TurnKeeps(c, s, p);
  }

  /** The turn of an aborted program leaves nothing pending for its pass. */
  lemma AbortedTurnDrops(c: Config, s: State, p: nat, r: Ref)
    requires Inv(c, s) && Validated(c) && Enabled(c, s, Loop(p)) && p in s.aborted && r in s.tasks && r.p == p && s.tasks[r].phase.Pending?
    ensures r in Turn(c, s, p).tasks && Turn(c, s, p).tasks[r].phase.Dropped?
    ensures Turn(c, s, p).tasks[r].completed == Some(Result(InstrOf(c, r).rollback, Cancelled))
  {
    hide LocksOk, QueueOk, EntryOk, TaskOk, OnlyVisits, Pass, NotRun;
    var ready := DropPending(c, s, p);
    assert ControlOk(c, s, p);
    ReadyKeeps(c, s, p);
    PassExplains(c, ready, p, 0, false);
    var m := Pass(c, ready, p, 0, false).state;
    assert r in PendingOf(s, p);
    PassLeavesDropped(c, ready, m, p, r);
  }

  lemma PassLeavesDropped(c: Config, s: State, t: State, p: nat, r: Ref)
    requires OnlyVisits(c, s, t, p) && r in s.tasks && s.tasks[r].phase.Dropped?
    ensures r in t.tasks && t.tasks[r].phase == s.tasks[r].phase && t.tasks[r].completed == s.tasks[r].completed
  {
    assert VisitedOk(c, s, t, p, r);
  }

  // ---- the pass is thorough

  /** Below its limit a pass leaves no instruction pending that had a result for each dependency when the pass
      began. */
  lemma {:induction false} PassIsThorough(c: Config, s: State, p: nat, i: nat, progressed: bool, k: nat)
    requires Core(c, s) && p < |c| && i <= k < |c[p].instrs| && |ActiveOf(s, p)| <= c[p].maxConcurrency
    requires Ref(p, k) in s.tasks && s.tasks[Ref(p, k)].phase.Pending? && DependenciesDone(c, s, Ref(p, k))
    ensures var t := Pass(c, s, p, i, progressed).state;
            Ref(p, k) in t.tasks && (t.tasks[Ref(p, k)].phase.Pending? ==> |ActiveOf(t, p)| >= c[p].maxConcurrency)
    decreases |c[p].instrs| - i
  {
    hide LocksOk, QueueOk, EntryOk, TaskOk, Visit, OnlyVisits, KeepsResults, OthersStay, DependenciesDone;
    var r, q := Ref(p, i), Ref(p, k);
    if !s.tasks[r].phase.Pending? {
      PassIsThorough(c, s, p, i + 1, progressed, k);
    } else if |ActiveOf(s, p)| < c[p].maxConcurrency {
      if !DependenciesDone(c, s, r) {
        PassIsThorough(c, s, p, i + 1, progressed, k);
      } else {
        var t := Visit(c, s, r);
        VisitKeeps(c, s, r);
        VisitMoves(c, s, r);
        assert |ActiveOf(t, p)| <= c[p].maxConcurrency;
        if i == k {
          PassExplains(c, t, p, i + 1, true);
          StaysVisited(c, t, Pass(c, t, p, i + 1, true).state, p, q);
        } else {
          StillReady(c, s, t, r, q);
          PassIsThorough(c, t, p, i + 1, true, k);
        }
      }
    }
  }

  lemma VisitMoves(c: Config, s: State, r: Ref)
    requires Declared(c, r) && r in s.tasks
    ensures r in Visit(c, s, r).tasks && !Visit(c, s, r).tasks[r].phase.Pending?
    ensures forall q | q in s.tasks && q != r :: q in Visit(c, s, r).tasks && Visit(c, s, r).tasks[q] == s.tasks[q]
  {
  }

  lemma StaysVisited(c: Config, s: State, t: State, p: nat, q: Ref)
    requires OnlyVisits(c, s, t, p) && q in s.tasks && !s.tasks[q].phase.Pending?
    ensures q in t.tasks && !t.tasks[q].phase.Pending?
  {
    assert VisitedOk(c, s, t, p, q);
  }

  lemma StillReady(c: Config, s: State, t: State, r: Ref, q: Ref)
    requires Declared(c, q) && DependenciesDone(c, s, q) && KeepsResults(s, t)
    ensures DependenciesDone(c, t, q)
  {
    forall d | d in InstrOf(c, q).dependsOn ensures HasResult(c, t, q.p, d) {
      assert HasResult(c, s, q.p, d);
      var x :| ResultIs(c, s, q.p, d, x);
      ResultIsStays(c, s, t, q.p, d, x);
    }
  }

  /** So does a turn: a program that waits below its limit has nothing pending that could have been started. */
  lemma TurnIsThorough(c: Config, s: State, p: nat, k: nat)
    requires Inv(c, s) && Validated(c) && Enabled(c, s, Loop(p)) && k < |c[p].instrs| && p !in s.aborted
    requires Ref(p, k) in s.tasks && s.tasks[Ref(p, k)].phase.Pending? && DependenciesDone(c, s, Ref(p, k))
    ensures var t := Turn(c, s, p);
            Ref(p, k) in t.tasks && (t.tasks[Ref(p, k)].phase.Pending? ==> |ActiveOf(t, p)| >= c[p].maxConcurrency)
  {
    hide LocksOk, QueueOk, EntryOk, TaskOk, Pass;
    assert ControlOk(c, s, p) && Ref(p, k) in PendingOf(s, p);
    PassIsThorough(c, s, p, 0, false, k);
    var m := Pass(c, s, p, 0, false).state;
    assert ActiveOf(Turn(c, s, p), p) == ActiveOf(m, p);
  }
}
