/** Budget conservation, on every run: the usage a Run accumulates event by event is the sum over its
    agents, saved limits are never replaced and never exceeded, and every outstanding reservation is
    counted exactly once. */
module AgentBudget {
  import opened AgentScopes
  import opened AgentRuntime
  import opened AgentReconcile
  import opened AgentRuntimeSafety
  import opened AgentRecords

  function StepsOf(agents: seq<Agent>, run: nat): nat {
    if agents == [] then 0
    else StepsOf(agents[..|agents| - 1], run) + if agents[|agents| - 1].run == run then agents[|agents| - 1].stepsUsed else 0
  }

  function CountOf(agents: seq<Agent>, run: nat): nat {
    if agents == [] then 0
    else CountOf(agents[..|agents| - 1], run) + if agents[|agents| - 1].run == run then 1 else 0
  }

  function Outstanding(s: State, run: nat): set<nat> {
    set c | c in s.reservations && s.reservations[c].run == run
  }

  // ---- sums

  lemma {:induction false} SumOfUpdate(agents: seq<Agent>, i: Id, a: Agent, run: nat)
    requires i < |agents| && a.run == agents[i].run
    ensures StepsOf(agents[i := a], run) == StepsOf(agents, run) + if a.run == run then a.stepsUsed - agents[i].stepsUsed else 0
    ensures CountOf(agents[i := a], run) == CountOf(agents, run)
  {
    var n := |agents| - 1;
    if i == n {
      assert agents[i := a][..n] == agents[..n];
    } else {
      assert agents[i := a][..n] == agents[..n][i := a];
      SumOfUpdate(agents[..n], i, a, run);
    }
  }

  lemma {:induction false} SumOfSame(a: seq<Agent>, b: seq<Agent>, run: nat)
    requires SameSteps(a, b)
    ensures StepsOf(a, run) == StepsOf(b, run) && CountOf(a, run) == CountOf(b, run)
  {
    if a != [] { SumOfSame(a[..|a| - 1], b[..|b| - 1], run); }
  }

  ghost predicate SameSteps(a: seq<Agent>, b: seq<Agent>) {
    |a| == |b| && forall i | 0 <= i < |a| :: a[i].run == b[i].run && a[i].stepsUsed == b[i].stepsUsed
  }

  // ---- the invariant, run by run

  ghost predicate RunOk(s: State, run: nat) {
    && UsageOf(s, run) == Usage(StepsOf(s.agents, run), CountOf(s.agents, run), |Outstanding(s, run)|)
    && StepsOf(s.agents, run) <= BudgetOf(s, run).maxSteps
    && CountOf(s.agents, run) <= BudgetOf(s, run).maxAgents
    && |Outstanding(s, run)| <= BudgetOf(s, run).maxPendingCommands
    && (run !in s.budgets ==> StepsOf(s.agents, run) == CountOf(s.agents, run) == |Outstanding(s, run)| == 0)
  }

  /** A recovery gives back at most what its agent has used since. */
  ghost predicate GivesBack(s: State, id: Id) {
    OpenRecovery(s, id) ==> s.recoveries[id].previous.stepsUsed <= s.agents[id].stepsUsed
  }

  ghost predicate Balanced(s: State) {
    && (forall run: nat {:trigger RunOk(s, run)} :: RunOk(s, run))
    && (forall id: Id {:trigger GivesBack(s, id)} :: GivesBack(s, id))
    && (forall id: Id | id in s.recoveries :: id < |s.agents|)
    && (forall i | 0 <= i < |s.agents| :: s.agents[i].run in s.budgets)
  }

  /** Nothing the budget looks at differs. */
  ghost predicate Quiet(s: State, n: State) {
    && SameSteps(s.agents, n.agents) && n.reservations == s.reservations && n.defaultBudget == s.defaultBudget
    && (forall run: nat {:trigger UsageOf(n, run)} :: UsageOf(n, run) == UsageOf(s, run))
    && (forall run: nat {:trigger BudgetOf(n, run)} :: BudgetOf(n, run) == BudgetOf(s, run))
    && s.budgets.Keys <= n.budgets.Keys
    && (forall id | id in n.recoveries ::
          && id < |n.agents|
          && ((id in s.recoveries && n.recoveries[id].previous == s.recoveries[id].previous && (s.recoveries[id].done ==> n.recoveries[id].done))
              || n.recoveries[id].previous.stepsUsed <= n.agents[id].stepsUsed))
  }

  lemma QuietKeeps(s: State, n: State)
    requires Balanced(s) && Quiet(s, n)
    ensures Balanced(n)
  {
    forall run: nat ensures RunOk(n, run) {
      assert RunOk(s, run) && Outstanding(n, run) == Outstanding(s, run);
      SumOfSame(s.agents, n.agents, run);
    }
    forall id: Id ensures GivesBack(n, id) { assert GivesBack(s, id); }
    forall i | 0 <= i < |n.agents| ensures n.agents[i].run in n.budgets { assert s.agents[i].run in s.budgets; }
  }

  lemma RecordIsQuiet(s: State, id: Id, after: Agent, transition: Transition)
    requires Balanced(s) && id < |s.agents| && after.stepsUsed == s.agents[id].stepsUsed
    ensures Quiet(s, Record(s, id, after, transition)) && Balanced(Record(s, id, after, transition))
  {
    QuietKeeps(s, Record(s, id, after, transition));
  }

  lemma SettleIsQuiet(s: State)
    requires Balanced(s)
    ensures Balanced(ReconcileScopes(s)) && Quiet(s, ReconcileScopes(s))
  {
    var n := ReconcileScopes(s);
    forall i: nat | i < |s.agents| ensures n.agents[i].stepsUsed == s.agents[i].stepsUsed && n.agents[i].run == s.agents[i].run {
      ReconciledAt(s, i);
      CancelGoalOf(s.agents, Root(s.agents, i), i, s.quanta.Keys, s.recoveries.Keys);
      GoalOf(s.agents, Root(s.agents, i), i);
    }
    QuietKeeps(s, n);
  }

  lemma CancelIsQuiet(s: State, root: Id)
    requires Balanced(s)
    ensures Balanced(ApplyInterrupt(s, root))
  {
    var n := ApplyInterrupt(s, root);
    forall i: nat | i < |s.agents| ensures n.agents[i].stepsUsed == s.agents[i].stepsUsed && n.agents[i].run == s.agents[i].run {
      CancelGoalOf(s.agents, root, i, s.quanta.Keys, s.recoveries.Keys);
    }
    QuietKeeps(s, n);
  }

  // ---- the steps that move a number

  /** The one place where steps are charged checks the latest usage of the whole Run. */
  lemma ChargeKeeps(s: State, id: Id, after: Agent, transition: Transition)
    requires Balanced(s) && id < |s.agents| && after.stepsUsed == s.agents[id].stepsUsed + 1
    requires UsageOf(s, s.agents[id].run).stepsUsed < BudgetOf(s, s.agents[id].run).maxSteps
    ensures Balanced(Record(s, id, after, transition))
  {
    var n := Record(s, id, after, transition);
    forall run: nat ensures RunOk(n, run) {
      assert RunOk(s, run) && Outstanding(n, run) == Outstanding(s, run);
      SumOfUpdate(s.agents, id, n.agents[id], run);
    }
    forall i: Id ensures GivesBack(n, i) { assert GivesBack(s, i); }
  }

  lemma GiveBackKeeps(s: State, id: Id, after: Agent, transition: Transition)
    requires Balanced(s) && OpenRecovery(s, id) && after.stepsUsed <= s.agents[id].stepsUsed
    ensures Balanced(Record(s, id, after, transition).(recoveries := s.recoveries[id := s.recoveries[id].(done := true)]))
  {
    var n := Record(s, id, after, transition).(recoveries := s.recoveries[id := s.recoveries[id].(done := true)]);
    forall run: nat ensures RunOk(n, run) {
      assert RunOk(s, run) && Outstanding(n, run) == Outstanding(s, run);
      SumOfUpdate(s.agents, id, n.agents[id], run);
    }
    forall i: Id ensures GivesBack(n, i) { assert GivesBack(s, i); }
  }

  lemma RecoverEndBalances(s: State, id: Id, how: RecoveryOutcome)
    requires Balanced(s) && OpenRecovery(s, id)
    ensures Balanced(ApplyRecoverEnd(s, id, how))
  {
    assert GivesBack(s, id);
    var previous := s.recoveries[id].previous;
    if s.agents[id].requested {
      GiveBackKeeps(s, id, previous.(status := Interrupted, pauseRequested := false, requested := true), if how.Failure? then RecoveryFailed else RecoveryInterrupted);
    } else if how.Prepared? {
      GiveBackKeeps(s, id, AfterRestore(s.agents[id], how.k), Restoration(how.k));
    } else {
      GiveBackKeeps(s, id, previous, if how.Nothing? then RecoveryAbandoned else RecoveryFailed);
    }
  }

  lemma CreateBalances(max: nat, s: State, run: nat, parent: Option<Id>, maxSteps: nat, checkpoint: Data)
    requires Balanced(s) && Enabled(max, s, Create(run, parent, maxSteps, checkpoint))
    ensures Balanced(Apply(max, s, Create(run, parent, maxSteps, checkpoint)))
  {
    var n := Apply(max, s, Create(run, parent, maxSteps, checkpoint));
    assert n.agents[..|s.agents|] == s.agents;
    forall r: nat ensures RunOk(n, r) { assert RunOk(s, r) && Outstanding(n, r) == Outstanding(s, r); }
    forall id: Id ensures GivesBack(n, id) { assert GivesBack(s, id); }
  }

  lemma ReservedOnce(s: State, n: State, command: nat, r: Reservation, run: nat)
    requires command !in s.reservations && n.reservations == s.reservations[command := r]
    ensures |Outstanding(n, run)| == |Outstanding(s, run)| + if r.run == run then 1 else 0
  {
    assert Outstanding(n, run) == if r.run == run then Outstanding(s, run) + {command} else Outstanding(s, run);
  }

  lemma ReserveBalances(max: nat, s: State, t: nat, command: nat)
    requires Enabled(max, s, Reserve(t, command)) && Balanced(s)
    ensures Balanced(Apply(max, s, Reserve(t, command)))
  {
    hide ChainOpen, StepsOf, CountOf, Outstanding;
    var n := Apply(max, s, Reserve(t, command));
    forall run: nat ensures RunOk(n, run) {
      assert RunOk(s, run);
      ReservedOnce(s, n, command, n.reservations[command], run);
    }
    forall id: Id ensures GivesBack(n, id) { assert GivesBack(s, id); }
  }

  lemma ReleaseBalances(max: nat, s: State, command: nat)
    requires Enabled(max, s, Release(command)) && Balanced(s)
    ensures Balanced(Apply(max, s, Release(command)))
  {
    hide StepsOf, CountOf, Outstanding;
    var n := Apply(max, s, Release(command));
    forall run: nat ensures RunOk(n, run) {
      assert RunOk(s, run);
      assert s.reservations == n.reservations[command := s.reservations[command]];
      ReservedOnce(n, s, command, s.reservations[command], run);
    }
    forall id: Id ensures GivesBack(n, id) { assert GivesBack(s, id); }
  }

  /** A new process starts with no reservations and maybe another default, which no used Run looks at. */
  lemma RestartBalances(s: State, budget: Budget)
    requires Balanced(s)
    ensures Balanced(ReconcileScopes(Reopened(s, budget)))
  {
    var n := Reopened(s, budget);
    forall run: nat ensures RunOk(n, run) {
      assert RunOk(s, run) && Outstanding(n, run) == {};
      SumOfSame(s.agents, n.agents, run);
    }
    SettleIsQuiet(n);
  }

  // ---- every step

  lemma EnsureIsQuiet(s: State, run: nat)
    requires Balanced(s)
    ensures Balanced(EnsureRunBudget(s, run))
  {
    QuietKeeps(s, EnsureRunBudget(s, run));
  }

  lemma PhaseIsQuiet(s: State, t: nat, phase: Phase)
    requires t in s.tasks && Balanced(s)
    ensures Balanced(To(s, t, phase))
  {
    QuietKeeps(s, To(s, t, phase));
  }

  lemma BeginBalances(s: State, t: nat, runOpen: bool)
    requires At(s, t, Queued) && Balanced(s)
    ensures Balanced(ApplyBegin(s, t, runOpen))
  {
    hide Root, Settle, ReconcileScopes, ChainOpen, Balanced, Record, To;
    var id := s.tasks[t].agent;
    var agent := s.agents[id];
    if s.stopping || !agent.status.Ready? {
      PhaseIsQuiet(s, t, Ended);
    } else {
      var b := EnsureRunBudget(s, agent.run);
      EnsureIsQuiet(s, agent.run);
      if agent.stepsUsed >= agent.maxSteps || UsageOf(s, agent.run).stepsUsed >= BudgetOf(s, agent.run).maxSteps {
        EndBalances(b, t, agent.(status := Paused, requested := false), BudgetExhausted, Ended);
      } else if !runOpen || !ScopeOpen(s, id) {
        EndBalances(b, t, agent.(status := Status.Failed, requested := false), Transition.Failure, Ended);
        SettleIsQuiet(To(Record(b, id, agent.(status := Status.Failed, requested := false), Transition.Failure), t, Ended));
      } else {
        EndBalances(b, t, agent.(status := Checking), Check, Validating);
      }
    }
  }

  lemma EndBalances(s: State, t: nat, after: Agent, transition: Transition, phase: Phase)
    requires t in s.tasks && s.tasks[t].agent < |s.agents| && after.stepsUsed == s.agents[s.tasks[t].agent].stepsUsed && Balanced(s)
    ensures Balanced(To(Record(s, s.tasks[t].agent, after, transition), t, phase))
  {
    RecordIsQuiet(s, s.tasks[t].agent, after, transition);
    var n := Record(s, s.tasks[t].agent, after, transition);
    QuietKeeps(n, To(n, t, phase));
  }

  lemma ValidatedBalances(s: State, t: nat, verdict: Verdict)
    requires At(s, t, Validating) && Balanced(s)
    ensures Balanced(ApplyValidated(s, t, verdict))
  {
    hide Root, Settle, ReconcileScopes, ChainOpen, Balanced, Record, To;
    var id, aborted := s.tasks[t].agent, s.tasks[t].aborted;
    var agent := s.agents[id];
    if aborted || verdict.Threw? || !ScopeOpen(s, id) {
      var transition := if aborted then Interruption else Transition.Failure;
      var stopped := agent.(status := if aborted then Interrupted else Status.Failed, pauseRequested := false, requested := aborted);
      EndBalances(s, t, stopped, transition, Ended);
      SettleIsQuiet(To(Record(s, id, stopped, transition), t, Ended));
    } else if verdict.NotValid? || agent.pauseRequested || s.stopping {
      EndBalances(s, t, agent.(status := Paused, pauseRequested := false, requested := false), if s.stopping then ShutdownRequest else PauseRecord, Ended);
    } else if UsageOf(s, agent.run).stepsUsed >= BudgetOf(s, agent.run).maxSteps {
      EndBalances(s, t, agent.(status := Paused, requested := false), BudgetExhausted, Ended);
    } else {
      ChargeKeeps(s, id, agent.(status := Running, stepsUsed := agent.stepsUsed + 1), StepStart);
      PhaseIsQuiet(Record(s, id, agent.(status := Running, stepsUsed := agent.stepsUsed + 1), StepStart), t, Stepping(true));
    }
  }

  lemma FinishBalances(s: State, t: nat, outcome: StepOutcome)
    requires At(s, t, Stepping(false)) && Balanced(s)
    ensures Balanced(ApplyFinish(s, t, outcome))
  {
    hide Root, Settle, ReconcileScopes, Balanced, Record, To;
    var id, aborted := s.tasks[t].agent, s.tasks[t].aborted;
    var agent := s.agents[id];
    if aborted || outcome.Broke? {
      var stopped := agent.(status := Interrupted, pauseRequested := false, requested := aborted);
      EndBalances(s, t, stopped, Interruption, Ended);
      SettleIsQuiet(To(Record(s, id, stopped, Interruption), t, Ended));
    } else {
      var pause := outcome.MoreToDo? && (agent.pauseRequested || agent.stepsUsed >= agent.maxSteps);
      var status := if pause then Paused else if outcome.MoreToDo? then Ready else if HasChildren(s, id) then Waiting else Completed;
      EndBalances(s, t, agent.(status := status, pauseRequested := false, requested := false, checkpoint := outcome.checkpoint), StepCompletion, Ended);
    }
  }

  lemma StepBalances(max: nat, s: State, a: Action)
    requires Balanced(s) && Enabled(max, s, a)
    ensures Balanced(Apply(max, s, a))
  {
    hide Balanced, ApplyBegin, ApplyValidated, ApplyFinish, ApplyRecoverEnd, ReconcileScopes, Reopened, ApplyInterrupt, Root;
    match a
    case Create(run, parent, maxSteps, checkpoint) => CreateBalances(max, s, run, parent, maxSteps, checkpoint);
    case Pause(id) => RecordBalances(max, s, a);
    case Resume(id) => ResumeBalances(max, s, id);
    case Interrupt(id) => CancelIsQuiet(s, Root(s.agents, id));
    case BarrierSettled(_) => MemoryIsQuiet(s, Apply(max, s, a));
    case Restore(id, _) => RecordBalances(max, s, a);
    case RecoverBegin(id) => RecoverBeginBalances(max, s, id);
    case RecoverEnd(id, how) => RecoverEndBalances(s, id, how);
    case RecoverySettled(id) => MemoryIsQuiet(s, Apply(max, s, a));
    case Dispatch(id) => MemoryIsQuiet(s, Apply(max, s, a));
    case Begin(t, runOpen) => BeginBalances(s, t, runOpen);
    case Validated(t, verdict) => ValidatedBalances(s, t, verdict);
    case Reserve(t, command) => ReserveBalances(max, s, t, command);
    case Release(command) => ReleaseBalances(max, s, command);
    case Returned(t) => MemoryIsQuiet(s, Apply(max, s, a));
    case Finish(t, outcome) => FinishBalances(s, t, outcome);
    case Finalize(t) => MemoryIsQuiet(s, Apply(max, s, a));
    case Reconcile => SettleIsQuiet(s);
    case Shutdown => MemoryIsQuiet(s, Apply(max, s, a));
    case ShutdownPause(id) => RecordBalances(max, s, a);
    case Restart(budget) => RestartBalances(s, budget);
  }

  lemma RecordBalances(max: nat, s: State, a: Action)
    requires Balanced(s) && Enabled(max, s, a) && (a.Pause? || a.Restore? || a.ShutdownPause?)
    ensures Balanced(Apply(max, s, a))
  {
    QuietKeeps(s, Apply(max, s, a));
  }

  lemma ResumeBalances(max: nat, s: State, id: Id)
    requires Balanced(s) && Enabled(max, s, Resume(id))
    ensures Balanced(Apply(max, s, Resume(id)))
  {
    QuietKeeps(s, Apply(max, s, Resume(id)));
  }

  lemma RecoverBeginBalances(max: nat, s: State, id: Id)
    requires Balanced(s) && Enabled(max, s, RecoverBegin(id))
    ensures Balanced(Apply(max, s, RecoverBegin(id)))
  {
    QuietKeeps(s, Apply(max, s, RecoverBegin(id)));
  }

  /** The budget does not look at tasks, barriers or the stopping flag. */
  lemma MemoryIsQuiet(s: State, n: State)
    requires n.agents == s.agents && n.usage == s.usage && n.budgets == s.budgets && n.defaultBudget == s.defaultBudget
    requires n.reservations == s.reservations && n.recoveries.Keys <= s.recoveries.Keys
    requires forall id | id in n.recoveries :: n.recoveries[id] == s.recoveries[id]
    requires Balanced(s)
    ensures Balanced(n)
  {
    QuietKeeps(s, n);
  }

  // ---- every run

  lemma {:induction false} BudgetConservation(max: nat, budget: Budget, actions: seq<Action>)
    requires Run(max, budget, actions).Some?
    ensures Balanced(Run(max, budget, actions).value)
    decreases |actions|
  {
    if actions == [] {
      assert forall run: nat :: Outstanding(Initial(budget), run) == {};
    } else {
      var front, last := actions[..|actions| - 1], actions[|actions| - 1];
      BudgetConservation(max, budget, front);
      StepBalances(max, Run(max, budget, front).value, last);
    }
  }

  // ---- nothing is taken back

  /** Saved limits stay, agents stay, and none of them is refunded a step. */
  ghost predicate Forward(s: State, n: State) {
    && (forall run | run in s.budgets :: run in n.budgets && n.budgets[run] == s.budgets[run])
    && |s.agents| <= |n.agents|
    && forall i | 0 <= i < |s.agents| :: n.agents[i].run == s.agents[i].run && n.agents[i].stepsUsed >= s.agents[i].stepsUsed
  }

  lemma ThenForward(s: State, m: State, n: State)
    requires Forward(s, m) && Forward(m, n)
    ensures Forward(s, n)
  {
  }

  lemma SettleForward(s: State)
    ensures Forward(s, ReconcileScopes(s))
  {
    forall i: nat | i < |s.agents|
      ensures ReconcileScopes(s).agents[i].stepsUsed == s.agents[i].stepsUsed && ReconcileScopes(s).agents[i].run == s.agents[i].run
    {
      ReconciledAt(s, i);
      CancelGoalOf(s.agents, Root(s.agents, i), i, s.quanta.Keys, s.recoveries.Keys);
      GoalOf(s.agents, Root(s.agents, i), i);
    }
  }

  lemma InterruptForward(s: State, root: Id)
    ensures Forward(s, ApplyInterrupt(s, root))
  {
    forall i: nat | i < |s.agents|
      ensures ApplyInterrupt(s, root).agents[i].stepsUsed == s.agents[i].stepsUsed && ApplyInterrupt(s, root).agents[i].run == s.agents[i].run
    {
      CancelGoalOf(s.agents, root, i, s.quanta.Keys, s.recoveries.Keys);
    }
  }

  lemma RecordForward(s: State, id: Id, after: Agent, transition: Transition)
    requires id < |s.agents| && after.stepsUsed >= s.agents[id].stepsUsed
    ensures Forward(s, Record(s, id, after, transition))
  {
  }

  lemma EndForward(s: State, t: nat, after: Agent, transition: Transition, phase: Phase)
    requires t in s.tasks && s.tasks[t].agent < |s.agents| && after.stepsUsed >= s.agents[s.tasks[t].agent].stepsUsed
    ensures var n := To(Record(s, s.tasks[t].agent, after, transition), t, phase); Forward(s, n) && Forward(s, ReconcileScopes(n))
  {
    hide ReconcileScopes;
    RecordForward(s, s.tasks[t].agent, after, transition);
    var n := To(Record(s, s.tasks[t].agent, after, transition), t, phase);
    SettleForward(n);
    ThenForward(s, n, ReconcileScopes(n));
  }

  lemma NothingForward(s: State, t: nat)
    requires At(s, t, Queued)
    ensures Forward(s, To(s, t, Ended)) && Forward(s, EnsureRunBudget(s, s.agents[s.tasks[t].agent].run))
  {
  }

  lemma BeginForward(s: State, t: nat, runOpen: bool)
    requires At(s, t, Queued)
    ensures Forward(s, ApplyBegin(s, t, runOpen))
  {
    hide ReconcileScopes, Root, ChainOpen, Record, To, Forward;
    var agent := s.agents[s.tasks[t].agent];
    NothingForward(s, t);
    if !s.stopping && agent.status.Ready? {
      var b := EnsureRunBudget(s, agent.run);
      EndForward(b, t, agent.(status := Paused, requested := false), BudgetExhausted, Ended);
      EndForward(b, t, agent.(status := Status.Failed, requested := false), Transition.Failure, Ended);
      EndForward(b, t, agent.(status := Checking), Check, Validating);
      ThenForward(s, b, ApplyBegin(s, t, runOpen));
    }
  }

  lemma ValidatedForward(s: State, t: nat, verdict: Verdict)
    requires At(s, t, Validating)
    ensures Forward(s, ApplyValidated(s, t, verdict))
  {
    hide ReconcileScopes, Root, ChainOpen, Record, To, Forward;
    var aborted, agent := s.tasks[t].aborted, s.agents[s.tasks[t].agent];
    EndForward(s, t, agent.(status := if aborted then Interrupted else Status.Failed, pauseRequested := false, requested := aborted),
               if aborted then Interruption else Transition.Failure, Ended);
    EndForward(s, t, agent.(status := Paused, pauseRequested := false, requested := false), if s.stopping then ShutdownRequest else PauseRecord, Ended);
    EndForward(s, t, agent.(status := Paused, requested := false), BudgetExhausted, Ended);
    EndForward(s, t, agent.(status := Running, stepsUsed := agent.stepsUsed + 1), StepStart, Stepping(true));
  }

  lemma FinishForward(s: State, t: nat, outcome: StepOutcome)
    requires At(s, t, Stepping(false))
    ensures Forward(s, ApplyFinish(s, t, outcome))
  {
    hide ReconcileScopes, Root, Record, To, Forward;
    var aborted, agent := s.tasks[t].aborted, s.agents[s.tasks[t].agent];
    EndForward(s, t, agent.(status := Interrupted, pauseRequested := false, requested := aborted), Interruption, Ended);
    if !outcome.Broke? {
      var pause := outcome.MoreToDo? && (agent.pauseRequested || agent.stepsUsed >= agent.maxSteps);
      var status := if pause then Paused else if outcome.MoreToDo? then Ready else if HasChildren(s, s.tasks[t].agent) then Waiting else Completed;
      EndForward(s, t, agent.(status := status, pauseRequested := false, requested := false, checkpoint := outcome.checkpoint), StepCompletion, Ended);
    }
  }

  lemma ReopenedForward(s: State, budget: Budget)
    ensures Forward(s, ReconcileScopes(Reopened(s, budget)))
  {
    SettleForward(Reopened(s, budget));
    assert Forward(s, Reopened(s, budget));
  }

  /** While a recovery owns its agent nothing is charged to it, so giving the agent back refunds nothing. */
  lemma RecoverEndForward(s: State, id: Id, how: RecoveryOutcome)
    requires OpenRecovery(s, id) && Inv(s)
    ensures Forward(s, ApplyRecoverEnd(s, id, how))
  {
    hide Inv, Root;
    RecoveryHolds(s, id);
    var previous := s.recoveries[id].previous;
    RecordForward(s, id, previous.(status := Interrupted, pauseRequested := false, requested := true), if how.Failure? then RecoveryFailed else RecoveryInterrupted);
    if how.Prepared? { RecordForward(s, id, AfterRestore(s.agents[id], how.k), Restoration(how.k)); }
    RecordForward(s, id, previous, if how.Nothing? then RecoveryAbandoned else RecoveryFailed);
  }

  lemma RecoveryHolds(s: State, id: Id)
    requires OpenRecovery(s, id) && Inv(s)
    ensures s.recoveries[id].previous.stepsUsed == s.agents[id].stepsUsed
  {
    assert RecoveryOk(s, id);
  }

  /** No step refunds an agent or replaces what a Run saved at its first use: not a restoration, not a
      recovery, not a restart with other limits. */
  lemma StepIsForward(max: nat, s: State, a: Action)
    requires Inv(s) && Enabled(max, s, a)
    ensures Forward(s, Apply(max, s, a))
  {
    hide Inv, ApplyBegin, ApplyValidated, ApplyFinish, ApplyRecoverEnd, ReconcileScopes, Reopened, ApplyInterrupt, Root, CancelTree, ChainOpen, Under, Settle, Listed, Saved, Record;
    match a
    case Pause(_) => RecordingForward(max, s, a);
    case Resume(_) => RecordingForward(max, s, a);
    case Restore(_, _) => RecordingForward(max, s, a);
    case RecoverBegin(_) => RecordingForward(max, s, a);
    case ShutdownPause(_) => RecordingForward(max, s, a);
    case Interrupt(id) => InterruptForward(s, Root(s.agents, id));
    case RecoverEnd(id, how) => RecoverEndForward(s, id, how);
    case Begin(t, runOpen) => BeginForward(s, t, runOpen);
    case Validated(t, verdict) => ValidatedForward(s, t, verdict);
    case Finish(t, outcome) => FinishForward(s, t, outcome);
    case Reconcile => SettleForward(s);
    case Restart(budget) => ReopenedForward(s, budget);
    case _ =>
  }

  /** Actions that record one agent and move nothing else. */
  lemma RecordingForward(max: nat, s: State, a: Action)
    requires a.Pause? || a.Resume? || a.Restore? || a.RecoverBegin? || a.ShutdownPause?
    requires Enabled(max, s, a)
    ensures Forward(s, Apply(max, s, a))
  {
    hide Root, ChainOpen, Under, Listed, Saved, Record;
    match a
    case Pause(id) =>
      var active := s.agents[id].status in {Running, Checking, Recovering};
      RecordForward(s, id, s.agents[id].(pauseRequested := active, status := if active then s.agents[id].status else Paused, requested := false), PauseRequest);
    case Resume(id) =>
      RecordForward(EnsureRunBudget(s, s.agents[id].run), id, s.agents[id].(status := Ready, pauseRequested := false, requested := false), Resumption);
    case Restore(id, k) => RecordForward(s, id, AfterRestore(s.agents[id], k), Restoration(k));
    case RecoverBegin(id) => RecordForward(s, id, s.agents[id].(status := Recovering, pauseRequested := false, requested := false), RecoveryStart);
    case ShutdownPause(id) => RecordForward(s, id, s.agents[id].(status := Paused, pauseRequested := false, requested := false), ShutdownRequest);
    case _ =>
  }

  lemma {:induction false} MoreSteps(a: seq<Agent>, b: seq<Agent>, run: nat)
    requires |a| <= |b| && forall i | 0 <= i < |a| :: b[i].run == a[i].run && b[i].stepsUsed >= a[i].stepsUsed
    ensures StepsOf(a, run) <= StepsOf(b, run)
    decreases |b|
  {
    if |b| > |a| {
      MoreSteps(a, b[..|b| - 1], run);
    } else if a != [] {
      MoreSteps(a[..|a| - 1], b[..|b| - 1], run);
    }
  }

  /** On a disciplined run a Run's usage never decreases. */
  lemma UsageNeverDecreases(max: nat, s: State, a: Action, run: nat)
    requires Inv(s) && Balanced(s) && Enabled(max, s, a)
    ensures UsageOf(Apply(max, s, a), run).stepsUsed >= UsageOf(s, run).stepsUsed
  {
    hide Inv, Apply, Enabled, Root;
    StepIsForward(max, s, a);
    StepBalances(max, s, a);
    assert RunOk(s, run) && RunOk(Apply(max, s, a), run);
    MoreSteps(s.agents, Apply(max, s, a).agents, run);
  }

  // ---- the usage that a replay adds up

  /** `sync` over one agent's events: each adds what it has used since the event before. */
  function StepsFolded(log: seq<Event>): int {
    if log == [] then 0
    else
      var front := log[..|log| - 1];
      StepsFolded(front) + log[|log| - 1].stepsUsed - if front == [] then 0 else front[|front| - 1].stepsUsed
  }

  /** Events of different agents do not see each other, so their order does not matter. */
  function UsageFolded(agents: seq<Agent>, run: nat): int {
    if agents == [] then 0
    else UsageFolded(agents[..|agents| - 1], run) + if agents[|agents| - 1].run == run then StepsFolded(agents[|agents| - 1].log) else 0
  }

  lemma {:induction false} FoldEndsAtTheLast(log: seq<Event>)
    requires log != []
    ensures StepsFolded(log) == log[|log| - 1].stepsUsed
  {
    if |log| > 1 { FoldEndsAtTheLast(log[..|log| - 1]); }
  }

  lemma {:induction false} FoldIsTheSum(agents: seq<Agent>, run: nat)
    requires forall i | 0 <= i < |agents| :: LogOk(agents[i])
    ensures UsageFolded(agents, run) == StepsOf(agents, run)
  {
    if agents != [] {
      FoldIsTheSum(agents[..|agents| - 1], run);
      FoldEndsAtTheLast(agents[|agents| - 1].log);
    }
  }

  /** On every run, restarts included, a Run's usage is what `sync` adds up over the journal from empty. */
  lemma UsageIsReplayed(max: nat, budget: Budget, actions: seq<Action>, run: nat)
    requires Run(max, budget, actions).Some?
    ensures UsageOf(Run(max, budget, actions).value, run).stepsUsed == UsageFolded(Run(max, budget, actions).value.agents, run)
  {
    hide LogOk;
    BudgetConservation(max, budget, actions);
    RunLogs(max, budget, actions);
    var s := Run(max, budget, actions).value;
    assert RunOk(s, run);
    FoldIsTheSum(s.agents, run);
  }
}
