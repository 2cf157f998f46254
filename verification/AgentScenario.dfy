/** Two agents of one Run, played through the runtime one action at a time. */
module AgentScenario {
  import opened AgentScopes
  import opened AgentRuntime
  import opened AgentReconcile

  const BUDGET := Budget(10_000, 1_024, 64)

  const FIRST: Data := ""

  datatype Actor = Actor(parent: Option<Id>, status: Status, requested: bool, steps: nat, checkpoint: Data)

  /** `recovering` is the agent under recovery and what it was before; `fenced` says that the root task
      of agent 0 is being interrupted. */
  datatype Stage = Stage(
    first: Actor, second: Actor, tasks: map<nat, Task>, quanta: map<Id, nat>, next: nat,
    recovering: Option<(Id, Actor)>, fenced: bool)

  function ActorOf(g: Stage, i: Id): Actor {
    if i == 0 then g.first else g.second
  }

  function With(g: Stage, i: Id, a: Actor): Stage {
    if i == 0 then g.(first := a) else g.(second := a)
  }

  predicate Plays(a: Agent, actor: Actor) {
    a.parent == actor.parent && a.run == 0 && a.maxSteps == 5 && !a.pauseRequested
    && a.status == actor.status && a.requested == actor.requested && a.stepsUsed == actor.steps && a.checkpoint == actor.checkpoint
  }

  /** Its journal starts with its creation. */
  predicate IsBegun(a: Agent) {
    a.log != [] && a.log[0].transition.Creation? && a.log[0].data == Some(FIRST)
  }

  ghost predicate OnStage(s: State, g: Stage) {
    && |s.agents| == 2 && Plays(s.agents[0], g.first) && Plays(s.agents[1], g.second) && IsBegun(s.agents[0]) && IsBegun(s.agents[1])
    && g.first.parent == None && g.second.parent in {None, Some(0)} && g.first.steps <= 5 && g.second.steps <= 5
    && s.tasks == g.tasks && s.quanta == g.quanta && s.nextToken == g.next
    && s.reservations == map[] && !s.stopping && (!g.fenced ==> s.interruptions == map[])
    && (if g.recovering.None? then s.recoveries == map[]
        else var (id, previous) := g.recovering.value;
             s.recoveries.Keys == {id} && !s.recoveries[id].done && Plays(s.recoveries[id].previous, previous))
    && UsageOf(s, 0).stepsUsed == g.first.steps + g.second.steps && BudgetOf(s, 0) == BUDGET
  }

  /** The action is enabled and leads to the stage. */
  ghost predicate Leads(max: nat, s: State, a: Action, g: Stage) {
    Enabled(max, s, a) && OnStage(Apply(max, s, a), g)
  }

  predicate IsStopped(a: Actor) {
    a.status in {Completed, Status.Failed, Interrupted} || a.requested
  }

  /** Neither the agent nor its parent is stopped, and nobody is being interrupted. */
  predicate IsOpen(g: Stage, i: Id) {
    !g.fenced && !IsStopped(ActorOf(g, i)) && (ActorOf(g, i).parent == Some(0) ==> !IsStopped(g.first))
  }

  predicate HasTask(g: Stage, t: nat, id: Id, phase: Phase) {
    t in g.tasks && g.tasks[t] == Task(id, phase, false) && id < 2
  }

  function MoveTo(g: Stage, t: nat, phase: Phase, a: Actor): Stage
    requires t in g.tasks
  {
    With(g, g.tasks[t].agent, a).(tasks := g.tasks[t := g.tasks[t].(phase := phase)])
  }

  lemma Born(max: nat, parent: Option<Id>)
    requires parent in {None, Some(0)}
    ensures Enabled(max, Initial(BUDGET), Create(0, None, 5, FIRST))
    ensures Leads(max, Apply(max, Initial(BUDGET), Create(0, None, 5, FIRST)), Create(0, parent, 5, FIRST),
                  Stage(Actor(None, Ready, false, 0, FIRST), Actor(parent, Ready, false, 0, FIRST), map[], map[], 0, None, false))
  {
    var s := Apply(max, Initial(BUDGET), Create(0, None, 5, FIRST));
    assert ChainOpen(s, 0, None);
  }

  lemma Dispatched(max: nat, s: State, g: Stage, id: Id)
    requires OnStage(s, g) && id < 2 && ActorOf(g, id).status.Ready? && |g.tasks| < max
    ensures Leads(max, s, Dispatch(id), g.(tasks := g.tasks[g.next := Task(id, Queued, false)], quanta := g.quanta[id := g.next], next := g.next + 1))
  {
    hide Root, Settle, ReconcileScopes;
  }

  lemma FiledPlays(was: Agent, actor: Actor, after: Agent, transition: Transition)
    requires Plays(was, actor) && IsBegun(was) && after.maxSteps == 5 && !after.pauseRequested && !transition.Restoration?
    ensures IsBegun(Filed(was, after, transition))
    ensures Plays(Filed(was, after, transition),
                  Actor(actor.parent, after.status, after.requested, after.stepsUsed,
                        if transition.StepCompletion? || transition.Creation? then after.checkpoint else actor.checkpoint))
  {
    hide Lead;
  }

  /** What is recorded of an agent is what it plays from then on. */
  lemma Recorded(s: State, g: Stage, id: Id, after: Agent, transition: Transition)
    requires OnStage(s, g) && id < 2 && id < |s.agents|
    requires after.maxSteps == 5 && after.stepsUsed <= 5 && !after.pauseRequested && !transition.Restoration?
    ensures OnStage(Record(s, id, after, transition),
                    With(g, id, Actor(ActorOf(g, id).parent, after.status, after.requested, after.stepsUsed,
                                      if transition.StepCompletion? || transition.Creation? then after.checkpoint else ActorOf(g, id).checkpoint)))
  {
    FiledPlays(s.agents[id], ActorOf(g, id), after, transition);
    assert s.agents[id].stepsUsed == ActorOf(g, id).steps && s.agents[id].run == 0;
    hide Root, Settle, ReconcileScopes, Filed, IsBegun, Plays;
  }

  lemma Moved(s: State, g: Stage, t: nat, phase: Phase)
    requires OnStage(s, g) && t in g.tasks
    ensures OnStage(To(s, t, phase), g.(tasks := g.tasks[t := g.tasks[t].(phase := phase)]))
  {
    hide Root, Settle, ReconcileScopes;
  }

  /** Neither its own state nor its parent's keeps an open agent from moving on. */
  lemma OpenOnStage(s: State, g: Stage, id: Id)
    requires OnStage(s, g) && id < 2 && IsOpen(g, id)
    ensures ScopeOpen(s, id)
  {
    hide Root, Settle, ReconcileScopes;
    assert id == 1 && s.agents[1].parent == Some(0) ==> ChainOpen(s, 0, None);
  }

  lemma BeginsChecking(max: nat, s: State, t: nat, id: Id)
    requires At(s, t, Queued) && s.tasks[t] == Task(id, Queued, false) && !s.stopping && ScopeOpen(s, id) && s.agents[id].run == 0
    requires s.agents[id].status.Ready? && s.agents[id].stepsUsed < s.agents[id].maxSteps && UsageOf(s, 0).stepsUsed < BudgetOf(s, 0).maxSteps
    ensures Enabled(max, s, Begin(t, true))
    ensures Apply(max, s, Begin(t, true)) == To(Record(EnsureRunBudget(s, 0), id, s.agents[id].(status := Checking), Check), t, Validating)
  {
    hide Record, ScopeOpen, ReconcileScopes;
  }

  lemma Begun(max: nat, s: State, g: Stage, t: nat, id: Id)
    requires OnStage(s, g) && HasTask(g, t, id, Queued) && ActorOf(g, id).status.Ready? && IsOpen(g, id) && ActorOf(g, id).steps < 5
    ensures Leads(max, s, Begin(t, true), MoveTo(g, t, Validating, ActorOf(g, id).(status := Checking)))
  {
    hide Root, Settle, ReconcileScopes, ScopeOpen, Apply, Enabled, Record;
    OpenOnStage(s, g, id);
    var b := EnsureRunBudget(s, 0);
    assert OnStage(b, g);
    Recorded(b, g, id, s.agents[id].(status := Checking), Check);
    Moved(Record(b, id, s.agents[id].(status := Checking), Check), With(g, id, ActorOf(g, id).(status := Checking)), t, Validating);
    BeginsChecking(max, s, t, id);
  }

  lemma StartsStep(max: nat, s: State, t: nat, id: Id)
    requires At(s, t, Validating) && s.tasks[t] == Task(id, Validating, false) && !s.stopping && ScopeOpen(s, id) && s.agents[id].run == 0
    requires !s.agents[id].pauseRequested && UsageOf(s, 0).stepsUsed < BudgetOf(s, 0).maxSteps
    ensures Enabled(max, s, Validated(t, Valid))
    ensures var after := s.agents[id].(status := Running, stepsUsed := s.agents[id].stepsUsed + 1);
            Apply(max, s, Validated(t, Valid)) == To(Record(s, id, after, StepStart), t, Stepping(true))
  {
    hide Record, ScopeOpen, ReconcileScopes;
  }

  lemma Started(max: nat, s: State, g: Stage, t: nat, id: Id)
    requires OnStage(s, g) && HasTask(g, t, id, Validating) && ActorOf(g, id).status.Checking? && IsOpen(g, id) && ActorOf(g, id).steps < 5
    ensures Leads(max, s, Validated(t, Valid), MoveTo(g, t, Stepping(true), ActorOf(g, id).(status := Running, steps := ActorOf(g, id).steps + 1)))
  {
    hide Root, Settle, ReconcileScopes, ScopeOpen, Apply, Enabled, Record;
    OpenOnStage(s, g, id);
    var after := s.agents[id].(status := Running, stepsUsed := s.agents[id].stepsUsed + 1);
    Recorded(s, g, id, after, StepStart);
    Moved(Record(s, id, after, StepStart), With(g, id, ActorOf(g, id).(status := Running, steps := ActorOf(g, id).steps + 1)), t, Stepping(true));
    StartsStep(max, s, t, id);
  }

  lemma FoundStale(max: nat, s: State, g: Stage, t: nat, id: Id)
    requires OnStage(s, g) && HasTask(g, t, id, Validating) && ActorOf(g, id).status.Checking? && IsOpen(g, id)
    ensures Leads(max, s, Validated(t, NotValid), MoveTo(g, t, Ended, ActorOf(g, id).(status := Paused)))
  {
    hide Root, Settle, ReconcileScopes;
    assert ScopeOpen(s, id) by { assert id == 1 && s.agents[1].parent == Some(0) ==> ChainOpen(s, 0, None); }
  }

  lemma Returns(max: nat, s: State, g: Stage, t: nat, id: Id)
    requires OnStage(s, g) && HasTask(g, t, id, Stepping(true))
    ensures Leads(max, s, Returned(t), MoveTo(g, t, Stepping(false), ActorOf(g, id)))
  {
    hide Root, Settle, ReconcileScopes;
  }

  lemma Parents(s: State, g: Stage)
    requires OnStage(s, g)
    ensures (HasChildren(s, 0) <==> g.second.parent == Some(0)) && !HasChildren(s, 1)
    ensures Root(s.agents, 0) == 0 && Root(s.agents, 1) == if g.second.parent == Some(0) then 0 else 1
  {
    assert s.agents[1].parent == g.second.parent && s.agents[0].parent == None;
  }

  function Closing(g: Stage, id: Id, outcome: StepOutcome): Status {
    if outcome.MoreToDo? then Ready else if id == 0 && g.second.parent == Some(0) then Waiting else Completed
  }

  function Closed(g: Stage, id: Id, outcome: StepOutcome): Actor
    requires !outcome.Broke?
  {
    ActorOf(g, id).(status := Closing(g, id, outcome), requested := false, checkpoint := outcome.checkpoint)
  }

  /** A step that is not aborted records its result whatever its agent's state has become. */
  lemma Finished(max: nat, s: State, g: Stage, t: nat, id: Id, outcome: StepOutcome)
    requires OnStage(s, g) && HasTask(g, t, id, Stepping(false)) && !outcome.Broke? && (outcome.MoreToDo? ==> ActorOf(g, id).steps < 5)
    ensures Leads(max, s, Finish(t, outcome), MoveTo(g, t, Ended, Closed(g, id, outcome)))
    ensures id == 0 ==> 0 in Apply(max, s, Finish(t, outcome)).dirty
  {
    hide Settle, ReconcileScopes, HasChildren, CancelTree, Abort, Root;
    Parents(s, g);
    var after := s.agents[id].(status := Closing(g, id, outcome), pauseRequested := false, requested := false, checkpoint := outcome.checkpoint);
    var recorded := Record(s, id, after, StepCompletion);
    assert Apply(max, s, Finish(t, outcome)) == To(recorded, t, Ended);
    Recorded(s, g, id, after, StepCompletion);
    Moved(recorded, With(g, id, Closed(g, id, outcome)), t, Ended);
  }

  lemma Finalized(max: nat, s: State, g: Stage, t: nat, id: Id)
    requires OnStage(s, g) && HasTask(g, t, id, Ended)
    ensures Leads(max, s, Finalize(t), g.(tasks := g.tasks - {t}, quanta := g.quanta - {id}))
  {
    hide Root, Settle, ReconcileScopes;
  }

  /** With nobody hurt and nobody waiting a reconciliation changes no agent. */
  lemma NothingToSettle(max: nat, s: State, g: Stage)
    requires OnStage(s, g) && !IsStopped(g.first) && !IsStopped(g.second) && !g.first.status.Waiting? && !g.second.status.Waiting?
    ensures Leads(max, s, Reconcile, g)
  {
    var n := Apply(max, s, Reconcile);
    assert forall i: nat | i < 2 :: !Hurt(s.agents[i]);
    assert BrokenRoots(s) == {};
    assert n.agents == s.agents && n.tasks == s.tasks;
  }

  /** A waiting agent whose only child is completed is completed. */
  lemma Joined(max: nat, s: State, g: Stage)
    requires OnStage(s, g) && g.second.parent == Some(0) && g.first.status.Waiting? && !g.first.requested
    requires g.second.status.Completed? && !g.second.requested && 0 in s.dirty
    ensures Leads(max, s, Reconcile, g.(first := g.first.(status := Completed)))
  {
    var n := Apply(max, s, Reconcile);
    assert Root(s.agents, 0) == 0 && Root(s.agents, 1) == 0;
    assert forall i: nat | i < 2 :: !Hurt(s.agents[i]);
    assert BrokenRoots(s) == {} && n.tasks == s.tasks;
    assert !Broken(s.agents, 0) && Finishes(s.agents, 0) && !Finishes(s.agents, 1);
    ReconciledFirst(s);
  }

  lemma ReconciledFirst(s: State)
    requires |s.agents| == 2 && 0 in s.dirty && Root(s.agents, 0) == 0 && Root(s.agents, 1) == 0
    requires !Broken(s.agents, 0) && Finishes(s.agents, 0) && !Finishes(s.agents, 1)
    ensures ReconcileScopes(s).agents == [Complete(s.agents[0]), s.agents[1]]
  {
    GoalOf(s.agents, 0, 0);
    GoalOf(s.agents, 0, 1);
  }

  function Stop(a: Actor, inTree: bool): Actor {
    if !inTree || IsStopped(a) then a else a.(status := Interrupted, requested := true)
  }

  predicate CanInterrupt(g: Stage, id: Id) {
    && !g.fenced && g.quanta == map[] && g.recovering.None? && id < 2 && (id == 1 ==> g.second.parent == Some(0))
    && ActorOf(g, id).status !in {Completed, Status.Failed}
  }

  function StopBoth(g: Stage): Stage {
    g.(first := Stop(g.first, true), second := Stop(g.second, g.second.parent == Some(0)))
  }

  predicate AddsInterruption(log: seq<Event>, longer: seq<Event>) {
    |longer| == |log| + 1 && longer[..|log|] == log && longer[|log|].transition.Interruption? && longer[|log|].requested
  }

  /** Nothing of agent 0's tree is registered: all that is not stopped yet is interrupted on the spot. */
  lemma CancelsUnseen(s: State, g: Stage)
    requires OnStage(s, g) && (CanInterrupt(g, 0) || CanInterrupt(g, 1))
    ensures OnStage(CancelScope(s, 0), StopBoth(g))
    ensures !IsStopped(g.first) ==> AddsInterruption(s.agents[0].log, CancelScope(s, 0).agents[0].log)
  {
    hide Settle, ReconcileScopes, Root, CancelTree;
    Parents(s, g);
    CancelGoalOf(s.agents, 0, 0, s.quanta.Keys, s.recoveries.Keys);
    CancelGoalOf(s.agents, 0, 1, s.quanta.Keys, s.recoveries.Keys);
    assert CancelScope(s, 0).tasks == s.tasks;
  }

  /** An interruption of agent 0's tree that finds no registration neither aborts nor waits. */
  lemma InterruptsUnseen(max: nat, s: State, g: Stage, id: Id)
    requires OnStage(s, g) && CanInterrupt(g, id)
    ensures Leads(max, s, Interrupt(id), StopBoth(g).(fenced := true))
    ensures !IsStopped(g.first) ==> AddsInterruption(s.agents[0].log, Apply(max, s, Interrupt(id)).agents[0].log)
  {
    hide Settle, ReconcileScopes, Root, CancelTree, CancelScope;
    Parents(s, g);
    CancelsUnseen(s, g);
  }

  /** Nothing was registered, so the barrier settles at once. */
  lemma SettlesAtOnce(max: nat, s: State, g: Stage, id: Id)
    requires OnStage(s, g) && CanInterrupt(g, id) && Leads(max, s, Interrupt(id), StopBoth(g).(fenced := true))
    ensures Leads(max, Apply(max, s, Interrupt(id)), BarrierSettled(0), StopBoth(g))
  {
    hide Settle, ReconcileScopes, CancelScope, Root;
    Parents(s, g);
    var a := Apply(max, s, Interrupt(id));
    assert a.interruptions.Keys == {0} && a.interruptions[0].tokens == {} && a.interruptions[0].members == {};
    assert a.interruptions - {0} == map[];
  }

  lemma Restored(max: nat, s: State, g: Stage)
    requires OnStage(s, g) && !g.fenced && g.quanta == map[] && g.recovering.None? && g.first.status in {Paused, Interrupted}
    ensures Leads(max, s, Restore(0, 0), g.(first := g.first.(status := Paused, requested := false, checkpoint := FIRST)))
  {
    hide Root, Settle, ReconcileScopes;
  }

  lemma Resumes(max: nat, s: State, g: Stage)
    requires OnStage(s, g) && IsOpen(g, 0) && g.first.status.Paused? && g.first.steps < 5
    ensures Leads(max, s, Resume(0), g.(first := g.first.(status := Ready)))
    ensures 0 in Apply(max, s, Resume(0)).dirty
  {
    hide Settle, ReconcileScopes;
    assert ScopeOpen(s, 0);
  }

  lemma TakesOver(max: nat, s: State, id: Id)
    requires !s.stopping && CanRestore(s, id) && Stoppable(s, id) && s.recoveries == map[]
    ensures Enabled(max, s, RecoverBegin(id))
    ensures Apply(max, s, RecoverBegin(id))
            == Record(s, id, s.agents[id].(status := Recovering, pauseRequested := false, requested := false), RecoveryStart)
                 .(recoveries := s.recoveries[id := Recovery(s.agents[id], false)])
  {
    hide Record, ChainOpen;
  }

  lemma RecoveryBegins(max: nat, s: State, g: Stage, id: Id)
    requires OnStage(s, g) && !g.fenced && g.quanta == map[] && g.recovering.None? && id < 2
    requires ActorOf(g, id).status in {Paused, Interrupted} && (ActorOf(g, id).parent == Some(0) ==> !IsStopped(g.first))
    ensures Leads(max, s, RecoverBegin(id), With(g, id, ActorOf(g, id).(status := Recovering, requested := false)).(recovering := Some((id, ActorOf(g, id)))))
  {
    hide Root, Settle, ReconcileScopes, Apply, Enabled, Record;
    assert CanRestore(s, id) by { assert id == 1 && s.agents[1].parent == Some(0) ==> ChainOpen(s, 0, Some(1)); }
    assert Stoppable(s, id);
    hide CanRestore, ChainOpen;
    Recorded(s, g, id, s.agents[id].(status := Recovering, pauseRequested := false, requested := false), RecoveryStart);
    TakesOver(max, s, id);
  }

  /** Giving up a recovery records the agent as it was before, whatever it has become. */
  lemma Abandoned(max: nat, s: State, g: Stage)
    requires OnStage(s, g) && g.recovering.Some? && g.recovering.value.0 < 2 && !ActorOf(g, g.recovering.value.0).requested
    requires g.recovering.value.1.parent == ActorOf(g, g.recovering.value.0).parent && g.recovering.value.1.steps <= 5
    ensures var (id, previous) := g.recovering.value;
            && Enabled(max, s, RecoverEnd(id, Nothing))
            && var n := Apply(max, s, RecoverEnd(id, Nothing));
               && |n.agents| == 2 && Plays(n.agents[id], previous.(checkpoint := ActorOf(g, id).checkpoint)) && n.agents[1 - id] == s.agents[1 - id]
               && UsageOf(n, 0).stepsUsed == previous.steps + ActorOf(g, 1 - id).steps
               && n.agents[id].log != [] && n.agents[id].log[|n.agents[id].log| - 1].recorded == previous.checkpoint
  {
    hide Root, Settle, ReconcileScopes, ChainOpen, HasChildren, CancelTree, Abort, Under;
    var (id, previous) := g.recovering.value;
    Recorded(s, g, id, s.recoveries[id].previous, RecoveryAbandoned);
    hide Record;
  }
}
