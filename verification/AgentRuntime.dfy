/** `AgentRuntime` as a state machine: every action is one stretch of `runtime.ts` between two awaits.
    An action that would throw before recording anything is not enabled. */
module AgentRuntime {
  import opened AgentScopes

  datatype Budget = Budget(maxSteps: nat, maxAgents: nat, maxPendingCommands: nat)
  datatype Usage = Usage(stepsUsed: int, agentsCreated: int, pendingCommands: int)

  /** Where a dispatched `advance` stands; `open` is that of its command group. */
  datatype Phase = Queued | Validating | Stepping(open: bool) | Ended
  datatype Task = Task(agent: Id, phase: Phase, aborted: bool)

  datatype Recovery = Recovery(previous: Agent, done: bool)
  datatype Barrier = Barrier(tokens: set<nat>, members: set<Id>)
  datatype Reservation = Reservation(token: nat, run: nat)

  /** `tasks` are the promises in `active`; `quanta` may have lost the entry of one. */
  datatype State = State(
    agents: seq<Agent>, usage: map<nat, Usage>, budgets: map<nat, Budget>, dirty: set<Id>,
    tasks: map<nat, Task>, nextToken: nat, quanta: map<Id, nat>, recoveries: map<Id, Recovery>,
    interruptions: map<Id, Barrier>, reservations: map<nat, Reservation>, stopping: bool, defaultBudget: Budget)

  datatype Verdict = Valid | NotValid | Threw
  datatype StepOutcome = MoreToDo(checkpoint: Data) | Done(checkpoint: Data) | Broke
  datatype RecoveryOutcome = Prepared(k: nat) | Nothing | Failure

  datatype Action =
    | Create(run: nat, parent: Option<Id>, maxSteps: nat, checkpoint: Data)
    | Pause(id: Id) | Resume(id: Id) | Interrupt(id: Id) | BarrierSettled(root: Id)
    | Restore(id: Id, k: nat) | RecoverBegin(id: Id) | RecoverEnd(id: Id, how: RecoveryOutcome) | RecoverySettled(id: Id)
    | Dispatch(id: Id) | Begin(token: nat, runOpen: bool) | Validated(token: nat, verdict: Verdict)
    | Reserve(token: nat, command: nat) | Release(command: nat) | Returned(token: nat)
    | Finish(token: nat, outcome: StepOutcome) | Finalize(token: nat)
    | Reconcile | Shutdown | ShutdownPause(id: Id) | Restart(budget: Budget)

  function Initial(budget: Budget): State {
    State([], map[], map[], {}, map[], 0, map[], map[], map[], map[], false, budget)
  }

  // ---- shared pieces

  function UsageOf(s: State, run: nat): Usage {
    if run in s.usage then s.usage[run] else Usage(0, 0, 0)
  }

  function BudgetOf(s: State, run: nat): Budget {
    if run in s.budgets then s.budgets[run] else s.defaultBudget
  }

  function EnsureRunBudget(s: State, run: nat): State {
    s.(budgets := s.budgets[run := BudgetOf(s, run)])
  }

  /** `record`: append the event and project it. */
  function Record(s: State, id: Id, after: Agent, transition: Transition): (r: State)
    requires id < |s.agents|
    ensures r.tasks == s.tasks && r.recoveries == s.recoveries && |r.agents| == |s.agents|
  {
    var was, used := s.agents[id], UsageOf(s, s.agents[id].run);
    s.(agents := s.agents[id := Filed(was, after, transition)],
       usage := s.usage[was.run := used.(stepsUsed := used.stepsUsed + after.stepsUsed - was.stepsUsed)],
       dirty := s.dirty + {Root(s.agents, id)})
  }

  /** `assertScopeOpen` walks to the root; a restored agent's own state is not looked at. */
  predicate ChainOpen(s: State, id: Id, restoring: Option<Id>)
    requires id < |s.agents|
    decreases id
  {
    id !in s.interruptions && (restoring == Some(id) || !Stopped(s.agents[id]))
    && (s.agents[id].parent.Some? && s.agents[id].parent.value < id ==> ChainOpen(s, s.agents[id].parent.value, restoring))
  }

  predicate ScopeOpen(s: State, id: Id) {
    id < |s.agents| && ChainOpen(s, id, None)
  }

  predicate CanRestore(s: State, id: Id) {
    id < |s.agents| && ChainOpen(s, id, Some(id))
    && forall i: Id | i < |s.agents| && Under(s.agents, id, i) :: i !in s.quanta && i !in s.recoveries
  }

  predicate RegisteredIn(s: State, t: nat, roots: set<Id>) {
    t in s.tasks && s.tasks[t].agent < |s.agents| && s.tasks[t].agent in s.quanta && s.quanta[s.tasks[t].agent] == t
    && Root(s.agents, s.tasks[t].agent) in roots
  }

  function Abort(s: State, roots: set<Id>): map<nat, Task> {
    map t | t in s.tasks :: s.tasks[t].(aborted := s.tasks[t].aborted || RegisteredIn(s, t, roots))
  }

  function CancelScope(s: State, root: Id): State {
    var agents := CancelTree(s.agents, root, s.quanta.Keys, s.recoveries.Keys);
    s.(agents := agents, dirty := if agents == s.agents then s.dirty else s.dirty + {root}, tasks := Abort(s, {root}))
  }

  ghost function ReconcileScopes(s: State): (r: State)
    ensures r.recoveries == s.recoveries
  {
    s.(agents := Settle(s.agents, s.dirty, s.quanta.Keys, s.recoveries.Keys), dirty := {},
       tasks := Abort(s, BrokenRoots(s)))
  }

  ghost function BrokenRoots(s: State): set<Id> {
    set r | r in s.dirty && Broken(s.agents, r)
  }

  function To(s: State, t: nat, phase: Phase): State
    requires t in s.tasks
  {
    s.(tasks := s.tasks[t := s.tasks[t].(phase := phase)])
  }

  predicate HasChildren(s: State, id: Id) {
    exists c :: 0 <= c < |s.agents| && s.agents[c].parent == Some(id)
  }

  predicate At(s: State, t: nat, phase: Phase) {
    t in s.tasks && s.tasks[t].phase == phase && s.tasks[t].agent < |s.agents|
  }

  predicate Stoppable(s: State, id: Id) {
    id < |s.agents| && s.agents[id].status in {Paused, Interrupted}
  }

  predicate OpenRecovery(s: State, id: Id) {
    id in s.recoveries && id < |s.agents| && !s.recoveries[id].done
  }

  // ---- what may happen

  ghost predicate Enabled(max: nat, s: State, a: Action) {
    match a
    case Create(run, parent, maxSteps, _) =>
      && !s.stopping && maxSteps >= 1
      && (parent.Some? ==> ScopeOpen(s, parent.value) && s.agents[parent.value].run == run && !s.agents[parent.value].status.Waiting?)
      && UsageOf(s, run).agentsCreated < BudgetOf(s, run).maxAgents
    case Pause(id) =>
      && !s.stopping && id < |s.agents| && !s.agents[id].requested
      && !(id in s.quanta && s.quanta[id] in s.tasks && s.tasks[s.quanta[id]].aborted)
      && s.agents[id].status in {Ready, Running, Checking, Recovering, Paused}
    case Resume(id) =>
      && !s.stopping && ScopeOpen(s, id) && s.agents[id].status.Paused? && s.agents[id].stepsUsed < s.agents[id].maxSteps
      && UsageOf(s, s.agents[id].run).stepsUsed < BudgetOf(s, s.agents[id].run).maxSteps
    case Interrupt(id) => id < |s.agents| && s.agents[id].status !in {Completed, Status.Failed}
    case BarrierSettled(root) =>
      && root in s.interruptions && s.interruptions[root].tokens !! s.tasks.Keys
      && s.interruptions[root].members !! s.recoveries.Keys
    case Restore(id, k) => !s.stopping && CanRestore(s, id) && Stoppable(s, id) && Listed(s.agents[id].log, k)
    case RecoverBegin(id) => !s.stopping && CanRestore(s, id) && Stoppable(s, id)
    case RecoverEnd(id, how) => OpenRecovery(s, id) && (how.Prepared? ==> Listed(s.agents[id].log, how.k))
    case RecoverySettled(id) => id in s.recoveries && s.recoveries[id].done
    case Dispatch(id) => !s.stopping && id < |s.agents| && s.agents[id].status.Ready? && |s.tasks| < max
    case Begin(t, _) => At(s, t, Queued)
    case Validated(t, _) => At(s, t, Validating)
    case Reserve(t, command) =>
      && At(s, t, Stepping(true)) && !s.tasks[t].aborted && !s.stopping && ScopeOpen(s, s.tasks[t].agent)
      && command !in s.reservations
      && (var run := s.agents[s.tasks[t].agent].run; UsageOf(s, run).pendingCommands < BudgetOf(s, run).maxPendingCommands)
    case Release(command) => command in s.reservations
    case Returned(t) => At(s, t, Stepping(true))
    case Finish(t, _) => At(s, t, Stepping(false)) && forall c | c in s.reservations :: s.reservations[c].token != t
    case Finalize(t) => At(s, t, Ended)
    case Reconcile => true
    case Shutdown => true
    case ShutdownPause(id) => s.stopping && id < |s.agents| && s.agents[id].status.Ready?
    case Restart(budget) => budget.maxSteps >= 1 && budget.maxAgents >= 1 && budget.maxPendingCommands >= 1
  }

  ghost function Apply(max: nat, s: State, a: Action): State
    requires Enabled(max, s, a)
  {
    match a
    case Create(run, parent, maxSteps, checkpoint) => ApplyCreate(s, run, parent, maxSteps, checkpoint)
    case Pause(id) =>
      var agent := s.agents[id];
      var active := agent.status in {Running, Checking, Recovering};
      Record(s, id, agent.(pauseRequested := active, status := if active then agent.status else Paused, requested := false), PauseRequest)
    case Resume(id) =>
      Record(EnsureRunBudget(s, s.agents[id].run), id, s.agents[id].(status := Ready, pauseRequested := false, requested := false), Resumption)
    case Interrupt(id) => ApplyInterrupt(s, Root(s.agents, id))
    case BarrierSettled(root) => s.(interruptions := s.interruptions - {root})
    case Restore(id, k) => Record(s, id, AfterRestore(s.agents[id], k), Restoration(k))
    case RecoverBegin(id) =>
      Record(s, id, s.agents[id].(status := Recovering, pauseRequested := false, requested := false), RecoveryStart)
        .(recoveries := s.recoveries[id := Recovery(s.agents[id], false)])
    case RecoverEnd(id, how) => ApplyRecoverEnd(s, id, how)
    case RecoverySettled(id) => s.(recoveries := s.recoveries - {id})
    case Dispatch(id) =>
      s.(tasks := s.tasks[s.nextToken := Task(id, Queued, false)], quanta := s.quanta[id := s.nextToken], nextToken := s.nextToken + 1)
    case Begin(t, runOpen) => ApplyBegin(s, t, runOpen)
    case Validated(t, verdict) => ApplyValidated(s, t, verdict)
    case Reserve(t, command) =>
      var run := s.agents[s.tasks[t].agent].run;
      var used := UsageOf(s, run);
      s.(reservations := s.reservations[command := Reservation(t, run)],
         usage := s.usage[run := used.(pendingCommands := used.pendingCommands + 1)])
    case Release(command) =>
      var run := s.reservations[command].run;
      var used := UsageOf(s, run);
      s.(reservations := s.reservations - {command}, usage := s.usage[run := used.(pendingCommands := used.pendingCommands - 1)])
    case Returned(t) => To(s, t, Stepping(false))
    case Finish(t, outcome) => ApplyFinish(s, t, outcome)
    case Finalize(t) => s.(tasks := s.tasks - {t}, quanta := s.quanta - {s.tasks[t].agent})
    case Reconcile => ReconcileScopes(s)
    case Shutdown => s.(stopping := true)
    case ShutdownPause(id) =>
      Record(s, id, s.agents[id].(status := Paused, pauseRequested := false, requested := false), ShutdownRequest)
    case Restart(budget) => ReconcileScopes(Reopened(s, budget))
  }

  /** What `commitRestore` records. */
  function AfterRestore(a: Agent, k: nat): Agent {
    a.(status := Paused, pauseRequested := false, requested := false, checkpoint := Saved(a.log, k))
  }

  function ApplyCreate(s: State, run: nat, parent: Option<Id>, maxSteps: nat, checkpoint: Data): State {
    var used := UsageOf(s, run);
    var agents := s.agents + [Logged(Agent(parent, run, maxSteps, 0, Ready, false, false, checkpoint, []), Creation)];
    EnsureRunBudget(s, run).(agents := agents, usage := s.usage[run := used.(agentsCreated := used.agentsCreated + 1)],
                             dirty := s.dirty + {Root(agents, |s.agents|)})
  }

  function ApplyInterrupt(s: State, root: Id): State {
    if root in s.interruptions then s
    else
      CancelScope(s, root).(interruptions := s.interruptions[root := Barrier(
        set i | i in s.quanta && i < |s.agents| && Root(s.agents, i) == root :: s.quanta[i],
        set i | i in s.recoveries && i < |s.agents| && Root(s.agents, i) == root)])
  }

  function ApplyRecoverEnd(s: State, id: Id, how: RecoveryOutcome): State
    requires OpenRecovery(s, id)
  {
    var previous := s.recoveries[id].previous;
    var after :=
      if s.agents[id].requested then
        Record(s, id, previous.(status := Interrupted, pauseRequested := false, requested := true),
               if how.Failure? then RecoveryFailed else RecoveryInterrupted)
      else if how.Prepared? then
        Record(s, id, AfterRestore(s.agents[id], how.k), Restoration(how.k))
      else Record(s, id, previous, if how.Nothing? then RecoveryAbandoned else RecoveryFailed);
    after.(recoveries := s.recoveries[id := s.recoveries[id].(done := true)])
  }

  ghost function ApplyBegin(s: State, t: nat, runOpen: bool): State
    requires At(s, t, Queued)
  {
    var id := s.tasks[t].agent;
    var agent := s.agents[id];
    if s.stopping || !agent.status.Ready? then To(s, t, Ended)
    else
      var b := EnsureRunBudget(s, agent.run);
      if agent.stepsUsed >= agent.maxSteps || UsageOf(s, agent.run).stepsUsed >= BudgetOf(s, agent.run).maxSteps then
        To(Record(b, id, agent.(status := Paused, requested := false), BudgetExhausted), t, Ended)
      else if !runOpen || !ScopeOpen(s, id) then
        ReconcileScopes(To(Record(b, id, agent.(status := Status.Failed, requested := false), Transition.Failure), t, Ended))
      else To(Record(b, id, agent.(status := Checking), Check), t, Validating)
  }

  ghost function ApplyValidated(s: State, t: nat, verdict: Verdict): State
    requires At(s, t, Validating)
  {
    var id, aborted := s.tasks[t].agent, s.tasks[t].aborted;
    var agent := s.agents[id];
    if aborted || verdict.Threw? || !ScopeOpen(s, id) then
      ReconcileScopes(To(Record(s, id, agent.(status := if aborted then Interrupted else Status.Failed, pauseRequested := false, requested := aborted),
                                if aborted then Interruption else Transition.Failure), t, Ended))
    else if verdict.NotValid? || agent.pauseRequested || s.stopping then
      To(Record(s, id, agent.(status := Paused, pauseRequested := false, requested := false), if s.stopping then ShutdownRequest else PauseRecord), t, Ended)
    else if UsageOf(s, agent.run).stepsUsed >= BudgetOf(s, agent.run).maxSteps then
      To(Record(s, id, agent.(status := Paused, requested := false), BudgetExhausted), t, Ended)
    else To(Record(s, id, agent.(status := Running, stepsUsed := agent.stepsUsed + 1), StepStart), t, Stepping(true))
  }

  ghost function ApplyFinish(s: State, t: nat, outcome: StepOutcome): State
    requires At(s, t, Stepping(false))
  {
    var id, aborted := s.tasks[t].agent, s.tasks[t].aborted;
    var agent := s.agents[id];
    if aborted || outcome.Broke? then
      ReconcileScopes(To(Record(s, id, agent.(status := Interrupted, pauseRequested := false, requested := aborted), Interruption), t, Ended))
    else
      var pause := outcome.MoreToDo? && (agent.pauseRequested || agent.stepsUsed >= agent.maxSteps);
      var status := if pause then Paused else if outcome.MoreToDo? then Ready else if HasChildren(s, id) then Waiting else Completed;
      To(Record(s, id, agent.(status := status, pauseRequested := false, requested := false, checkpoint := outcome.checkpoint), StepCompletion), t, Ended)
  }

  /** The constructor's verdict on an agent whose process died. */
  function Reopen(a: Agent): Agent {
    if a.status in {Running, Recovering} || (a.status.Checking? && a.requested) then
      Logged(a.(status := Interrupted, requested := false), HostRecovery)
    else if a.status in {Checking, Ready} then Logged(a.(status := Paused, requested := false), HostRecovery)
    else a
  }

  /** A new runtime over the same journal: the projection is replayed, everything in memory is gone. */
  function Reopened(s: State, budget: Budget): State {
    State(
      seq(|s.agents|, i requires 0 <= i < |s.agents| => Reopen(s.agents[i])),
      map run | run in s.usage :: s.usage[run].(pendingCommands := 0), s.budgets,
      set i | 0 <= i < |s.agents| :: Root(s.agents, i),
      map[], s.nextToken, map[], map[], map[], map[], false, budget)
  }

  // ---- runs

  /** The state after a sequence of actions, if each of them was enabled in its turn. */
  ghost function Run(max: nat, budget: Budget, actions: seq<Action>): Option<State>
    decreases |actions|
  {
    if actions == [] then Some(Initial(budget))
    else
      var before := Run(max, budget, actions[..|actions| - 1]);
      if before.Some? && Enabled(max, before.value, actions[|actions| - 1])
      then Some(Apply(max, before.value, actions[|actions| - 1]))
      else None
  }
}
