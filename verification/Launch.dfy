/** The launch protocol with a crash possible at every point (`process-run.ts`, and the exec gate in
    `xioflow-reaper.c`), the processes that descend from the command, and what recovery may conclude
    from what the launch left behind. */
module Launch {
  import opened Recovery

  /** The pipe between the owner's side and the child: nothing yet, held, "G" written, closed without it. */
  datatype GateState = NoGate | Held | Opened | Closed
  datatype Child = NotSpawned | AtGate | Executing | Exited

  /** `record` is what is durable. `child` is the process whose identity is recorded; `grouped` and
      `escaped` are the live processes it left behind, in its process group and out of it. `contained`
      says that the driver put the child into a cgroup of its own before the gate. `executed` is whether
      the command has ever been executed. */
  datatype State = State(
    gated: bool, contained: bool, alive: bool, record: Option<Operation>, gate: GateState, child: Child,
    grouped: set<nat>, escaped: set<nat>, executed: bool)

  datatype Step =
    | Register(op: Operation)     // intent is durable
    | Spawn(identity: Identity)   // the driver starts the helper or the command
    | SpawnFails
    | Activate(identity: Identity) // status and identity are durable in one transaction
    | ActivationFails             // the gate is destroyed
    | ReleaseGate
    | ChildGoes                   // the child reads "G" and executes
    | ChildSeesEnd                // the child reads the end of the pipe and leaves without executing
    | ChildExits
    | Fork(pid: nat, outside: bool) // a process of the command starts another, in its own group
    | LeaveGroup(pid: nat)
    | Exit(pid: nat)
    | BeginStop
    | Finalize(result: Result)
    | Crash                       // the owner is gone; the helper sees the end of its channel

  function Initial(gated: bool, contained: bool): State {
    State(gated, contained, true, None, NoGate, NotSpawned, {}, {}, false)
  }

  /** An operation as it is registered: no identity, no result, the driver's gate capability kept. */
  predicate FreshIntent(op: Operation, gated: bool) {
    op.status.IntentRegistered? && op.identity.None? && op.result.None? && op.spawnGated == gated && RunsProcess(op)
  }

  predicate Enabled(s: State, step: Step) {
    match step
    case Register(op) => s.alive && s.record.None? && FreshIntent(op, s.gated)
    case Spawn(_) => s.alive && s.record.Some? && s.record.value.status.IntentRegistered? && s.child.NotSpawned?
    case SpawnFails => s.alive && s.record.Some? && s.record.value.status.IntentRegistered? && s.child.NotSpawned?
    case Activate(identity) =>
      && s.alive && s.record.Some? && s.record.value.status.IntentRegistered? && !s.child.NotSpawned? && !s.gate.Closed?
      && identity.hasCgroup == s.contained
    case ActivationFails => s.alive && !s.child.NotSpawned?
    case ReleaseGate => s.alive && s.record.Some? && s.record.value.status.Active? && s.gate.Held?
    case ChildGoes => s.child.AtGate? && s.gate.Opened?
    case ChildSeesEnd => s.child.AtGate? && s.gate.Closed?
    case ChildExits => s.child.Executing?
    case Fork(pid, outside) => pid !in s.grouped + s.escaped && if outside then s.escaped != {} else s.child.Executing? || s.grouped != {}
    case LeaveGroup(pid) => pid in s.grouped
    case Exit(pid) => pid in s.grouped + s.escaped
    case BeginStop => s.alive && s.record.Some? && s.record.value.status.Active?
    case Finalize(_) => s.alive && s.record.Some? && s.record.value.status != Done
    case Crash => s.alive
  }

  function Apply(s: State, step: Step): State
    requires Enabled(s, step)
  {
    match step
    case Register(op) => s.(record := Some(op))
    case Spawn(_) => if s.gated then s.(gate := Held, child := AtGate) else s.(child := Executing, executed := true)
    case SpawnFails => s.(record := Some(s.record.value.(status := Done, result := Some(Failed))))
    case Activate(identity) => s.(record := Some(s.record.value.(status := Active, identity := Some(identity))))
    case ActivationFails => if s.gate.Held? then s.(gate := Closed) else s
    case ReleaseGate => s.(gate := Opened)
    case ChildGoes => s.(child := Executing, executed := true)
    case ChildSeesEnd => s.(child := Exited)
    case ChildExits => s.(child := Exited)
    case Fork(pid, outside) => if outside then s.(escaped := s.escaped + {pid}) else s.(grouped := s.grouped + {pid})
    case LeaveGroup(pid) => s.(grouped := s.grouped - {pid}, escaped := s.escaped + {pid})
    case Exit(pid) => s.(grouped := s.grouped - {pid}, escaped := s.escaped - {pid})
    case BeginStop => s.(record := Some(s.record.value.(status := Stopping)))
    case Finalize(result) => s.(record := Some(s.record.value.(status := Done, result := Some(result))))
    case Crash => s.(alive := false, gate := if s.gate.Held? then Closed else s.gate)
  }

  function Run(gated: bool, contained: bool, steps: seq<Step>): Option<State> {
    if steps == [] then Some(Initial(gated, contained))
    else
      var before := Run(gated, contained, steps[..|steps| - 1]);
      if before.Some? && Enabled(before.value, steps[|steps| - 1]) then Some(Apply(before.value, steps[|steps| - 1])) else None
  }

  /** Some process of the command executes. */
  predicate Running(s: State) {
    s.child.Executing? || s.grouped != {} || s.escaped != {}
  }

  /** An operation as it can stand in the store before it is done. */
  predicate Recordable(op: Operation) {
    && Unfinished(op) && RunsProcess(op) && op.result.None?
    && (op.identity.Some? <==> op.status.Active? || op.status.Stopping?)
  }

  /** A gate opens only after the identity was durable, and only an opened gate lets the command run. */
  predicate Inv(s: State) {
    && (s.record.None? ==> s.child.NotSpawned? && s.gate.NoGate?)
    && (s.record.Some? ==> s.record.value.spawnGated == s.gated && RunsProcess(s.record.value))
    && (s.record.Some? && s.record.value.status != Done ==> Recordable(s.record.value))
    && (s.record.Some? && s.record.value.identity.Some? ==>
          !s.child.NotSpawned? && s.record.value.identity.value.hasCgroup == s.contained)
    && (s.gate.Opened? ==> s.record.Some? && !s.record.value.status.IntentRegistered?)
    && (s.gated && s.executed ==> s.gate.Opened?)
    && (Running(s) ==> s.executed)
    && (s.child.AtGate? ==> s.gated && !Running(s))
    && (!s.gated ==> s.gate.NoGate? && (s.executed <==> !s.child.NotSpawned?))
    && (!s.alive ==> !s.gate.Held?)
  }

  lemma {:induction false} RunKeeps(gated: bool, contained: bool, steps: seq<Step>)
    requires Run(gated, contained, steps).Some?
    ensures var s := Run(gated, contained, steps).value; Inv(s) && s.gated == gated && s.contained == contained
  {
    if steps != [] {
      var front := steps[..|steps| - 1];
      RunKeeps(gated, contained, front);
      StepKeeps(Run(gated, contained, front).value, steps[|steps| - 1]);
    }
  }

  lemma StepKeeps(s: State, step: Step)
    requires Inv(s) && Enabled(s, step)
    ensures Inv(Apply(s, step)) && Apply(s, step).gated == s.gated && Apply(s, step).contained == s.contained
  {
    match step
    case Register(op) =>
    case Spawn(_) =>
    case SpawnFails =>
    case Activate(_) =>
    case Fork(_, _) =>
    case LeaveGroup(_) =>
    case Exit(_) =>
    case Finalize(_) =>
    case _ =>
  }

  /** What step `k` says of how the operation ended. */
  predicate EndsWith(step: Step, result: Result) {
    step == Finalize(result) || (step.SpawnFails? && result == Failed)
  }

  /** On every run the record is done exactly since a step that ended it, with the result that step gave, and until then
      is active exactly since its activation, with the identity recorded there. */
  lemma {:induction false} RecordSaysWhatHappened(gated: bool, contained: bool, steps: seq<Step>)
    requires Run(gated, contained, steps).Some? && Run(gated, contained, steps).value.record.Some?
    ensures var op := Run(gated, contained, steps).value.record.value;
            && (op.status == Done <==> exists k :: 0 <= k < |steps| && (steps[k].SpawnFails? || steps[k].Finalize?))
            && (op.result.Some? <==> op.status == Done)
            && (op.status == Done ==> exists k :: 0 <= k < |steps| && EndsWith(steps[k], op.result.value))
            && (forall identity :: op.identity == Some(identity) <==> Activate(identity) in steps)
            && (op.status.IntentRegistered? || op.status.Done? || op.identity.Some?)
    decreases |steps|
  {
    hide Run;
    if steps == [] {
      NothingYet(gated, contained);
    } else {
      var front, step := steps[..|steps| - 1], steps[|steps| - 1];
      LastStep(gated, contained, steps);
      RunKeeps(gated, contained, front);
      assert steps == front + [step];
      var before, after := Run(gated, contained, front).value, Run(gated, contained, steps).value;
      StepRecords(before, step);
      hide Apply, Enabled, Inv;
      if before.record.Some? {
        RecordSaysWhatHappened(gated, contained, front);
        EndsSnoc(front, step, before.record.value.result);
      } else {
        UnregisteredDoesNothing(gated, contained, front);
      }
    }
  }

  lemma EndsSnoc(front: seq<Step>, step: Step, was: Option<Result>)
    ensures was.Some? && (exists k :: 0 <= k < |front| && EndsWith(front[k], was.value)) ==>
              exists k :: 0 <= k < |front + [step]| && EndsWith((front + [step])[k], was.value)
    ensures forall result | EndsWith(step, result) :: exists k :: 0 <= k < |front + [step]| && EndsWith((front + [step])[k], result)
    ensures (exists k :: 0 <= k < |front + [step]| && ((front + [step])[k].SpawnFails? || (front + [step])[k].Finalize?)) <==>
            (exists k :: 0 <= k < |front| && (front[k].SpawnFails? || front[k].Finalize?)) || step.SpawnFails? || step.Finalize?
  {
    var steps := front + [step];
    assert steps[|front|] == step && forall k | 0 <= k < |front| :: steps[k] == front[k];
  }

  /** What a step does to the record. */
  lemma StepRecords(s: State, step: Step)
    requires Inv(s) && Enabled(s, step)
    ensures s.record.None? && Apply(s, step).record.Some? ==> var op := Apply(s, step).record.value;
              step.Register? && op.status.IntentRegistered? && op.result.None? && op.identity.None?
    ensures s.record.Some? ==> Apply(s, step).record.Some? && var was, op := s.record.value, Apply(s, step).record.value;
              && (op.status.Done? <==> was.status.Done? || step.SpawnFails? || step.Finalize?)
              && (was.status.Done? ==> op == was && !step.SpawnFails? && !step.Finalize? && !step.Activate?)
              && op.result == (if step.Finalize? then Some(step.result) else if step.SpawnFails? then Some(Failed) else was.result)
              && op.identity == (if step.Activate? then Some(step.identity) else was.identity)
              && (step.Activate? ==> was.identity.None?)
              && (op.status.IntentRegistered? || op.status.Done? || op.identity.Some?)
              && (!op.status.Done? ==> op.result.None?)
  {
  }

  lemma NothingYet(gated: bool, contained: bool)
    ensures Run(gated, contained, []) == Some(Initial(gated, contained))
  {
  }

  lemma {:induction false} UnregisteredDoesNothing(gated: bool, contained: bool, steps: seq<Step>)
    requires Run(gated, contained, steps).Some? && Run(gated, contained, steps).value.record.None?
    ensures forall k | 0 <= k < |steps| :: !steps[k].SpawnFails? && !steps[k].Finalize? && !steps[k].Activate?
    decreases |steps|
  {
    if steps != [] { UnregisteredDoesNothing(gated, contained, steps[..|steps| - 1]); }
  }

  // ---- after the crash

  /** No process of the command executes, and none is waiting at an opened gate. */
  predicate Over(s: State) {
    !s.alive && !Running(s) && !(s.child.AtGate? && s.gate.Opened?)
  }

  /** What is over after the crash stays over, and the record stays as it is. */
  lemma {:induction false} OverStaysOver(gated: bool, contained: bool, steps: seq<Step>, n: nat)
    requires n <= |steps| && Run(gated, contained, steps).Some? && Run(gated, contained, steps[..n]).Some?
    requires Over(Run(gated, contained, steps[..n]).value)
    ensures var s, later := Run(gated, contained, steps[..n]).value, Run(gated, contained, steps).value;
            Over(later) && later.executed == s.executed && later.record == s.record
    decreases |steps|
  {
    if n == |steps| {
      assert steps[..n] == steps;
    } else {
      assert steps[..|steps| - 1][..n] == steps[..n];
      OverStaysOver(gated, contained, steps[..|steps| - 1], n);
      RunKeeps(gated, contained, steps[..|steps| - 1]);
    }
  }

  lemma LastStep(gated: bool, contained: bool, steps: seq<Step>)
    requires steps != [] && Run(gated, contained, steps).Some?
    ensures var front, step := steps[..|steps| - 1], steps[|steps| - 1];
            Run(gated, contained, front).Some? && Enabled(Run(gated, contained, front).value, step)
            && Run(gated, contained, steps) == Some(Apply(Run(gated, contained, front).value, step))
  {
  }

  /** A child that has left does not come back. */
  lemma {:induction false} ChildStaysGone(gated: bool, contained: bool, steps: seq<Step>, n: nat)
    requires n <= |steps| && Run(gated, contained, steps).Some? && Run(gated, contained, steps[..n]).Some?
    requires Run(gated, contained, steps[..n]).value.child.Exited?
    ensures Run(gated, contained, steps).value.child.Exited?
    decreases |steps|
  {
    hide Run;
    if n == |steps| {
      assert steps[..n] == steps;
    } else {
      LastStep(gated, contained, steps);
      assert steps[..|steps| - 1][..n] == steps[..n];
      ChildStaysGone(gated, contained, steps[..|steps| - 1], n);
    }
  }

  /** Wherever the launch crashed: an operation that recovery takes for one whose gate never opened has
      not executed its command, and never will. */
  lemma GateNeverOpenedMeansNeverExecuted(gated: bool, contained: bool, steps: seq<Step>, n: nat)
    requires n <= |steps| && Run(gated, contained, steps).Some? && Run(gated, contained, steps[..n]).Some?
    requires var s := Run(gated, contained, steps[..n]).value; !s.alive && s.record.Some? && GateNeverOpened(s.record.value)
    ensures !Run(gated, contained, steps).value.executed && Over(Run(gated, contained, steps).value)
  {
    RunKeeps(gated, contained, steps[..n]);
    OverStaysOver(gated, contained, steps, n);
  }

  // ---- answers that are true of the processes

  predicate InCgroup(op: Operation) {
    op.identity.Some? && op.identity.value.hasCgroup && op.evidence == Some(Cgroup)
  }

  /** Recovery asks whether the cgroup of a dead leader is empty. */
  predicate AsksCgroup(op: Operation, a: Answers) {
    InCgroup(op) && a.verification.NotOriginal? && a.canSettleTree
  }

  /** Recovery asks for the recorded identity to be stopped. */
  predicate AsksStop(op: Operation, a: Answers) {
    op.identity.Some? && (a.verification.IsOriginal? || (AsksCgroup(op, a) && !a.treeEmpty))
  }

  /** Recovery asks about the process group of a dead leader. */
  predicate AsksGroup(op: Operation, a: Answers) {
    && op.identity.Some? && op.identity.value.pgid.Some? && a.verification.NotOriginal? && !InCgroup(op)
    && (op.identity.value.hasCgroup ==> op.evidence.Some?)
  }

  /** What was seen to be gone is gone. */
  predicate TrueScope(s: State, scope: Scope) {
    && s.child.Exited?
    && (scope.ProcessGroup? || scope.TrackedTree? ==> s.grouped == {})
    && (scope.ContainmentCgroup? && s.contained ==> !Running(s))
    && (scope.SubreaperTree? ==> !Running(s))
  }

  /** Every answer that recovery asked for and that claims something to be gone is true of the processes
      as recovery leaves them. */
  predicate Truthful(s: State, op: Operation, a: Answers) {
    && (op.identity.Some? && a.verification.NotOriginal? ==> s.child.Exited?)
    && (AsksCgroup(op, a) && a.treeEmpty && s.contained ==> !Running(s))
    && (AsksStop(op, a) && a.stop.Confirmed? ==> TrueScope(s, a.stop.scope))
    && (AsksGroup(op, a) && (!a.groupAlive || a.groupStopConfirmed) ==> s.grouped == {})
  }

  /** The evidence covers every process of the command: it never executed, or its cgroup or the helper's
      whole tree is empty. */
  predicate ProvesTreeGone(op: Operation, a: Answers) {
    || GateNeverOpened(op)
    || (AsksCgroup(op, a) && a.treeEmpty)
    || (AsksStop(op, a) && a.stop.Confirmed?
        && (a.stop.scope.SubreaperTree? || (a.stop.scope.ContainmentCgroup? && op.identity.value.hasCgroup)))
  }

  /** The evidence covers the process group of the command. */
  predicate ProvesGroupGone(op: Operation, a: Answers) {
    AsksGroup(op, a) || (AsksStop(op, a) && a.stop.Confirmed? && (a.stop.scope.ProcessGroup? || a.stop.scope.TrackedTree?))
  }

  /** From any crash point: where recovery releases the leases on true answers, the launched process
      never executes again; no process of the command does if the evidence covers the whole tree, nor
      if it covers the group and none has left that. */
  lemma CrashThenRecover(gated: bool, contained: bool, steps: seq<Step>, n: nat, a: Answers)
    requires n <= |steps| && Run(gated, contained, steps).Some? && Run(gated, contained, steps[..n]).Some?
    requires var s := Run(gated, contained, steps[..n]).value; !s.alive && s.record.Some? && Unfinished(s.record.value)
    ensures var s, later := Run(gated, contained, steps[..n]).value, Run(gated, contained, steps).value;
            var op := s.record.value;
            Decide(op, a).release ==>
              && (!later.executed || StopWasConfirmed(op, a) || LeaderDeadAndGone(op, a))
              && (Truthful(s, op, a) ==>
                    && !later.child.Executing?
                    && (ProvesTreeGone(op, a) || (ProvesGroupGone(op, a) && s.escaped == {}) ==> !Running(later)))
  {
    var s := Run(gated, contained, steps[..n]).value;
    var op := s.record.value;
    RunKeeps(gated, contained, steps[..n]);
    ReleasesExactlyOnEvidence(op, a);
    if Decide(op, a).release {
      if GateNeverOpened(op) {
        GateNeverOpenedMeansNeverExecuted(gated, contained, steps, n);
      } else if Truthful(s, op, a) {
        assert s.child.Exited?;
        ChildStaysGone(gated, contained, steps, n);
        if ProvesTreeGone(op, a) || (ProvesGroupGone(op, a) && s.escaped == {}) {
          OverStaysOver(gated, contained, steps, n);
        }
      }
    }
  }

  // ---- exactly which answers leave nothing running

  /** A run after which recovery is given these answers about this operation, each of them true, and
      in which a process of the command executes then or later. */
  ghost predicate LeavesRunning(gated: bool, contained: bool, steps: seq<Step>, n: nat, op: Operation, a: Answers) {
    && n <= |steps| && Run(gated, contained, steps).Some? && Run(gated, contained, steps[..n]).Some?
    && var s := Run(gated, contained, steps[..n]).value;
       !s.alive && s.record == Some(op) && Truthful(s, op, a) && Running(Run(gated, contained, steps).value)
  }

  lemma Then(gated: bool, contained: bool, steps: seq<Step>, step: Step) returns (longer: seq<Step>)
    requires Run(gated, contained, steps).Some? && Enabled(Run(gated, contained, steps).value, step)
    ensures Run(gated, contained, longer) == Some(Apply(Run(gated, contained, steps).value, step))
  {
    longer := steps + [step];
    assert longer[..|steps|] == steps;
  }

  lemma Starts(op: Operation) returns (steps: seq<Step>)
    requires Recordable(op) && op.identity.Some?
    ensures Run(op.spawnGated, op.identity.value.hasCgroup, steps).Some?
    ensures var s := Run(op.spawnGated, op.identity.value.hasCgroup, steps).value;
            s.alive && s.record == Some(op.(status := Active)) && s.child.Executing? && s.grouped == {} && s.escaped == {}
  {
    var gated, contained := op.spawnGated, op.identity.value.hasCgroup;
    assert Run(gated, contained, []) == Some(Initial(gated, contained));
    hide Run;
    steps := Then(gated, contained, [], Register(op.(status := IntentRegistered, identity := None)));
    steps := Then(gated, contained, steps, Spawn(op.identity.value));
    steps := Then(gated, contained, steps, Activate(op.identity.value));
    if gated {
      steps := Then(gated, contained, steps, ReleaseGate);
      steps := Then(gated, contained, steps, ChildGoes);
    }
  }

  /** The command starts a process, which leaves its group; the launched process exits and the owner dies. */
  lemma SomebodyEscapes(op: Operation) returns (steps: seq<Step>)
    requires Recordable(op) && op.identity.Some?
    ensures Run(op.spawnGated, op.identity.value.hasCgroup, steps).Some?
    ensures var s := Run(op.spawnGated, op.identity.value.hasCgroup, steps).value;
            !s.alive && s.record == Some(op) && s.child.Exited? && s.grouped == {} && s.escaped == {1}
  {
    hide Run;
    var gated, contained := op.spawnGated, op.identity.value.hasCgroup;
    steps := Starts(op);
    steps := Then(gated, contained, steps, Fork(1, false));
    steps := Then(gated, contained, steps, LeaveGroup(1));
    steps := Then(gated, contained, steps, ChildExits);
    if op.status.Stopping? { steps := Then(gated, contained, steps, BeginStop); }
    steps := Then(gated, contained, steps, Crash);
  }

  /** A release on true answers can leave a process of the command running exactly when the evidence does
      not cover the whole tree: without a cgroup and without the helper's word, a dead leader and an empty
      group, or a confirmed stop of group or leader, say nothing about a process that left the group. */
  lemma ReleaseLeavesNothingRunningExactly(op: Operation, a: Answers)
    requires Recordable(op) && Decide(op, a).release
    ensures (forall gated, contained, steps, n :: !LeavesRunning(gated, contained, steps, n, op, a)) <==> ProvesTreeGone(op, a)
  {
    if ProvesTreeGone(op, a) {
      forall gated, contained, steps, n ensures !LeavesRunning(gated, contained, steps, n, op, a) {
        if LeavesRunning(gated, contained, steps, n, op, a) { CrashThenRecover(gated, contained, steps, n, a); }
      }
    } else {
      ReleasesExactlyOnEvidence(op, a);
      var steps := SomebodyEscapes(op);
      assert steps[..|steps|] == steps;
      RunKeeps(op.spawnGated, op.identity.value.hasCgroup, steps);
      assert LeavesRunning(op.spawnGated, op.identity.value.hasCgroup, steps, |steps|, op, a);
    }
  }

  /** Without a gate the same record proves nothing: the command may have run unrecorded. */
  lemma UngatedIntentMayHaveExecuted(op: Operation, identity: Identity)
    requires FreshIntent(op, false)
    ensures var steps := [Register(op), Spawn(identity), Crash];
            var end := Run(false, false, steps);
            end.Some? && end.value.executed && Running(end.value) && end.value.record == Some(op)
    ensures forall a :: !Decide(op, a).release
  {
    var steps := [Register(op), Spawn(identity), Crash];
    assert steps[..2] == [Register(op), Spawn(identity)] && steps[..2][..1] == [Register(op)] && steps[..2][..1][..0] == [];
    assert Run(false, false, []) == Some(Initial(false, false));
    assert Run(false, false, [Register(op)]) == Some(Initial(false, false).(record := Some(op)));
    assert Run(false, false, [Register(op), Spawn(identity)]).Some?;
  }
}
