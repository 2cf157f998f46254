/** What an agent's journal may say next, and what follows for every disciplined run: a requested pause
    holds until it is resumed, every step was checked for and counted, and none goes past the limit. */
module AgentLifecycle {
  import opened AgentScopes
  import opened AgentRuntime
  import opened AgentReconcile
  import opened AgentRuntimeSafety
  import opened AgentRuntimeRuns
  import opened AgentRecords

  // ---- the state chart

  /** Stands as `status`, with nothing requested. */
  predicate IsPlain(e: Event, status: Status) {
    e.status == status && !e.pauseRequested && !e.requested
  }

  /** The event may follow the standing `p` of an agent with this limit. */
  predicate MayFollow(p: Standing, e: Event, maxSteps: nat) {
    && e.stepsUsed == p.stepsUsed + (if e.transition.StepStart? then 1 else 0)
    && match e.transition
       case Creation => false
       case PauseRequest =>
         && !p.requested && !e.requested
         && (p.status in {Running, Checking, Recovering} ==> e.status == p.status && e.pauseRequested)
         && (p.status !in {Running, Checking, Recovering} ==> p.status in {Ready, Paused} && IsPlain(e, Paused))
       case Resumption => p.status.Paused? && p.stepsUsed < maxSteps && IsPlain(e, Ready)
       case Restoration(_) => (p.status in {Paused, Interrupted} || (p.status.Recovering? && !p.requested)) && IsPlain(e, Paused)
       case Check => p.status.Ready? && !p.requested && p.stepsUsed < maxSteps && e.status.Checking? && e.pauseRequested == p.pauseRequested && !e.requested
       case StepStart => p.status.Checking? && !p.requested && !p.pauseRequested && IsPlain(e, Running)
       case StepCompletion =>
         && p.status.Running? && !p.requested && e.status in {Paused, Ready, Waiting, Completed} && IsPlain(e, e.status)
         && (e.status.Paused? ==> p.pauseRequested || p.stepsUsed >= maxSteps)
         && (e.status.Ready? ==> !p.pauseRequested && p.stepsUsed < maxSteps)
       case PauseRecord => p.status.Checking? && !p.requested && IsPlain(e, Paused)
       case Failure => p.status in {Ready, Checking} && !p.requested && e.status.Failed? && !e.requested
       case BudgetExhausted => p.status in {Ready, Checking} && !p.requested && e.status.Paused? && !e.requested
       case RecoveryStart => p.status in {Paused, Interrupted} && IsPlain(e, Recovering)
       case RecoveryInterrupted => p.status.Recovering? && p.requested && e.status.Interrupted? && e.requested && !e.pauseRequested
       case RecoveryAbandoned => p.status.Recovering? && !p.requested && IsStopped(e)
       case RecoveryFailed => p.status.Recovering? && IsStopped(e) && (p.requested ==> e.status.Interrupted? && e.requested && !e.pauseRequested)
       case InterruptRequest => p.status in {Checking, Running, Recovering} && !p.requested && e.status == p.status && e.requested && !e.pauseRequested
       case Interruption =>
         && e.status.Interrupted? && !e.pauseRequested
         && ((p.status.Checking? && p.requested && e.requested) || (p.status.Running? && e.requested == p.requested)
             || (!p.requested && p.status !in {Completed, Status.Failed, Interrupted} && e.requested))
       case ShutdownRequest => p.status in {Ready, Checking} && !p.requested && IsPlain(e, Paused)
       case ScopeCompletion => p.status.Waiting? && e.status.Completed? && !e.requested
       case HostRecovery =>
         && !e.requested
         && (e.status.Interrupted? ==> p.status in {Running, Recovering} || (p.status.Checking? && p.requested))
         && (!e.status.Interrupted? ==> e.status.Paused? && p.status in {Ready, Checking} && !p.requested)
  }

  /** As a recovery found its agent. */
  predicate IsStopped(e: Event) {
    e.status in {Paused, Interrupted} && (e.requested ==> e.status.Interrupted?)
  }

  ghost predicate LegalLog(log: seq<Event>, maxSteps: nat) {
    && log != [] && log[0].transition.Creation? && IsPlain(log[0], Ready) && log[0].stepsUsed == 0 && maxSteps >= 1
    && forall k | 0 < k < |log| :: MayFollow(StandingIn(log[k - 1]), log[k], maxSteps)
  }

  ghost predicate Legal(a: Agent) {
    LegalLog(a.log, a.maxSteps) && StandingIn(a.log[|a.log| - 1]) == StandingOf(a)
  }

  ghost predicate AllLegal(s: State) {
    forall i: Id {:trigger s.agents[i]} | i < |s.agents| :: Legal(s.agents[i])
  }

  // ---- every action keeps the journals legal

  /** Recording `after` of an agent that stands as it does is allowed. */
  predicate MayRecord(was: Agent, after: Agent, transition: Transition) {
    after.maxSteps == was.maxSteps && MayFollow(StandingOf(was), EventOf(after, transition), was.maxSteps)
  }

  lemma OneMoreIsLegal(a: Agent, b: Agent, e: Event)
    requires Legal(a) && b.log == a.log + [e] && b.maxSteps == a.maxSteps && StandingIn(e) == StandingOf(b)
    requires MayFollow(StandingOf(a), e, a.maxSteps)
    ensures Legal(b)
  {
    hide MayFollow;
    var n := |a.log|;
    forall k | 0 < k < |b.log| ensures MayFollow(StandingIn(b.log[k - 1]), b.log[k], b.maxSteps) {
      assert b.log[k - 1] == a.log[k - 1];
      if k < n { assert b.log[k] == a.log[k]; }
    }
  }

  lemma RecordIsLegal(s: State, id: Id, after: Agent, transition: Transition)
    requires AllLegal(s) && id < |s.agents| && MayRecord(s.agents[id], after, transition)
    ensures AllLegal(Record(s, id, after, transition))
  {
    hide Legal, Root, Projected, MayFollow;
    OneMoreIsLegal(s.agents[id], Filed(s.agents[id], after, transition), EventOf(after, transition));
  }

  /** Unchanged, cancelled or completed, and asked to stop only while at work. */
  predicate IsSwept(a: Agent, b: Agent) {
    Swept1(a, b) && (b == Cancel(a, true) && b != a ==> a.status in {Checking, Running, Recovering})
  }

  lemma SweptIsLegal(a: Agent, b: Agent)
    requires Legal(a) && IsSwept(a, b)
    ensures Legal(b)
  {
    hide Legal;
    if b != a { OneMoreIsLegal(a, b, b.log[|a.log|]); }
  }

  lemma ReconciledIsLegal(s: State)
    requires AllLegal(s)
    ensures AllLegal(ReconcileScopes(s))
  {
    hide Legal, IsSwept, CancelTree, CompleteTree, Settle, Cancel, Complete;
    var n := ReconcileScopes(s);
    forall i: Id | i < |s.agents| ensures Legal(n.agents[i]) {
      ReconciledIsSwept(s, i);
      SweptIsLegal(s.agents[i], n.agents[i]);
    }
  }

  lemma CancelledIsSwept(s: State, root: Id, i: Id)
    requires i < |s.agents|
    ensures IsSwept(s.agents[i], CancelTree(s.agents, root, s.quanta.Keys, s.recoveries.Keys)[i])
  {
    var a := s.agents[i];
    CancelGoalOf(s.agents, root, i, s.quanta.Keys, s.recoveries.Keys);
    hide CancelTree;
    assert !Stopped(a) ==> Cancel(a, true) != Cancel(a, false) by {
      if !Stopped(a) {
        assert Cancel(a, true).log[|a.log|].transition.InterruptRequest? && Cancel(a, false).log[|a.log|].transition.Interruption?;
      }
    }
  }

  lemma ReconciledIsSwept(s: State, i: Id)
    requires i < |s.agents|
    ensures IsSwept(s.agents[i], ReconcileScopes(s).agents[i])
  {
    hide CancelTree, CompleteTree, Settle;
    ReconciledAt(s, i);
    CancelledIsSwept(s, Root(s.agents, i), i);
    GoalOf(s.agents, Root(s.agents, i), i);
    var a := s.agents[i];
    assert !Stopped(a) ==> Cancel(a, true) != Complete(a) by {
      if !Stopped(a) {
        assert Cancel(a, true).log[|a.log|].transition.InterruptRequest? && Complete(a).log[|a.log|].transition.ScopeCompletion?;
      }
    }
  }

  /** A record on a task that moves on, and a reconciliation after it. */
  lemma TaskIsLegal(s: State, t: nat, after: Agent, transition: Transition, phase: Phase)
    requires AllLegal(s) && t in s.tasks && s.tasks[t].agent < |s.agents| && MayRecord(s.agents[s.tasks[t].agent], after, transition)
    ensures var n := To(Record(s, s.tasks[t].agent, after, transition), t, phase); AllLegal(n) && AllLegal(ReconcileScopes(n))
  {
    hide Legal, MayRecord, ReconcileScopes;
    RecordIsLegal(s, s.tasks[t].agent, after, transition);
    hide Record;
    ReconciledIsLegal(To(Record(s, s.tasks[t].agent, after, transition), t, phase));
  }

  lemma BeginIsLegal(s: State, t: nat, runOpen: bool)
    requires AllLegal(s) && At(s, t, Queued) && Inv(s)
    ensures AllLegal(ApplyBegin(s, t, runOpen))
  {
    hide Legal, ReconcileScopes, Record, ChainOpen, Under;
    TaskFacts(s, t);
    var b := EnsureRunBudget(s, s.agents[s.tasks[t].agent].run);
    forall after, transition, phase | MayRecord(s.agents[s.tasks[t].agent], after, transition)
      ensures var n := To(Record(b, s.tasks[t].agent, after, transition), t, phase); AllLegal(n) && AllLegal(ReconcileScopes(n))
    {
      TaskIsLegal(b, t, after, transition, phase);
    }
    hide Inv, AllLegal;
  }

  lemma ValidatedIsLegal(s: State, t: nat, verdict: Verdict)
    requires AllLegal(s) && At(s, t, Validating) && Inv(s)
    ensures AllLegal(ApplyValidated(s, t, verdict))
  {
    hide Legal, ReconcileScopes, Record, ChainOpen, Under;
    TaskFacts(s, t);
    forall after, transition, phase | MayRecord(s.agents[s.tasks[t].agent], after, transition)
      ensures var n := To(Record(s, s.tasks[t].agent, after, transition), t, phase); AllLegal(n) && AllLegal(ReconcileScopes(n))
    {
      TaskIsLegal(s, t, after, transition, phase);
    }
    hide Inv, AllLegal;
  }

  lemma FinishIsLegal(s: State, t: nat, outcome: StepOutcome)
    requires AllLegal(s) && At(s, t, Stepping(false)) && Inv(s)
    ensures AllLegal(ApplyFinish(s, t, outcome))
  {
    hide Legal, ReconcileScopes, Record, HasChildren;
    TaskFacts(s, t);
    forall after, transition, phase | MayRecord(s.agents[s.tasks[t].agent], after, transition)
      ensures var n := To(Record(s, s.tasks[t].agent, after, transition), t, phase); AllLegal(n) && AllLegal(ReconcileScopes(n))
    {
      TaskIsLegal(s, t, after, transition, phase);
    }
    hide Inv, AllLegal;
  }

  lemma RecoverEndIsLegal(s: State, id: Id, how: RecoveryOutcome)
    requires AllLegal(s) && OpenRecovery(s, id) && Inv(s)
    ensures AllLegal(ApplyRecoverEnd(s, id, how))
  {
    hide Legal, Record, Saved;
    assert RecoveryOk(s, id);
    forall after, transition | MayRecord(s.agents[id], after, transition) ensures AllLegal(Record(s, id, after, transition)) {
      RecordIsLegal(s, id, after, transition);
    }
    hide Inv;
  }

  lemma ReopenIsLegal(s: State, budget: Budget)
    requires AllLegal(s) && Inv(s)
    ensures AllLegal(Reopened(s, budget))
  {
    hide Legal, Root;
    var n := Reopened(s, budget);
    forall i: Id | i < |s.agents| ensures Legal(n.agents[i]) {
      var a, b := s.agents[i], n.agents[i];
      assert AgentOk(s, i);
      if b != a { OneMoreIsLegal(a, b, b.log[|a.log|]); }
    }
  }

  lemma InterruptIsLegal(s: State, root: Id)
    requires AllLegal(s)
    ensures AllLegal(ApplyInterrupt(s, root))
  {
    hide Legal, IsSwept, CancelTree;
    forall i: Id | i < |s.agents| ensures Legal(CancelTree(s.agents, root, s.quanta.Keys, s.recoveries.Keys)[i]) {
      CancelledIsSwept(s, root, i);
      SweptIsLegal(s.agents[i], CancelTree(s.agents, root, s.quanta.Keys, s.recoveries.Keys)[i]);
    }
  }

  lemma CreateIsLegal(s: State, run: nat, parent: Option<Id>, maxSteps: nat, checkpoint: Data)
    requires AllLegal(s) && maxSteps >= 1
    ensures AllLegal(ApplyCreate(s, run, parent, maxSteps, checkpoint))
  {
    hide Root;
  }

  /** Actions that record one agent and move nothing else. */
  lemma RecordingIsLegal(max: nat, s: State, a: Action)
    requires a.Pause? || a.Restore? || a.RecoverBegin? || a.ShutdownPause?
    requires AllLegal(s) && Enabled(max, s, a) && Inv(s)
    ensures AllLegal(Apply(max, s, a))
  {
    hide Legal, Record, ChainOpen, Under, Listed, Saved;
    assert AgentOk(s, a.id);
    hide Inv;
    forall after, transition | MayRecord(s.agents[a.id], after, transition) ensures AllLegal(Record(s, a.id, after, transition)) {
      RecordIsLegal(s, a.id, after, transition);
    }
    hide AllLegal;
  }

  lemma ResumeIsLegal(max: nat, s: State, id: Id)
    requires AllLegal(s) && Enabled(max, s, Resume(id))
    ensures AllLegal(Apply(max, s, Resume(id)))
  {
    hide Legal, Record, ChainOpen, Under;
    var b := EnsureRunBudget(s, s.agents[id].run);
    forall after, transition | MayRecord(s.agents[id], after, transition) ensures AllLegal(Record(b, id, after, transition)) {
      RecordIsLegal(b, id, after, transition);
    }
  }

  lemma StepIsLegal(max: nat, s: State, a: Action)
    requires AllLegal(s) && Enabled(max, s, a) && Inv(s)
    ensures AllLegal(Apply(max, s, a))
  {
    hide Legal, Inv, ApplyBegin, ApplyValidated, ApplyFinish, ApplyRecoverEnd, ApplyCreate, ApplyInterrupt, ReconcileScopes, Reopened, Record, ChainOpen, Under;
    match a
    case Create(run, parent, maxSteps, checkpoint) => CreateIsLegal(s, run, parent, maxSteps, checkpoint);
    case Pause(_) => RecordingIsLegal(max, s, a);
    case Resume(id) => ResumeIsLegal(max, s, id);
    case Restore(_, _) => RecordingIsLegal(max, s, a);
    case RecoverBegin(_) => RecordingIsLegal(max, s, a);
    case ShutdownPause(_) => RecordingIsLegal(max, s, a);
    case Interrupt(id) => InterruptIsLegal(s, Root(s.agents, id));
    case RecoverEnd(id, how) => RecoverEndIsLegal(s, id, how);
    case Begin(t, runOpen) => BeginIsLegal(s, t, runOpen);
    case Validated(t, verdict) => ValidatedIsLegal(s, t, verdict);
    case Finish(t, outcome) => FinishIsLegal(s, t, outcome);
    case Reconcile => ReconciledIsLegal(s);
    case Restart(budget) =>
      ReopenIsLegal(s, budget);
      ReconciledIsLegal(Reopened(s, budget));
    case _ =>
  }

  /** On every disciplined run every agent's journal follows the state chart. */
  lemma {:induction false} DisciplinedRunIsLegal(max: nat, budget: Budget, actions: seq<Action>)
    requires Run(max, budget, actions).Some? && DisciplinedRun(max, budget, actions)
    ensures AllLegal(Run(max, budget, actions).value)
    decreases |actions|
  {
    hide Legal, Apply, Enabled, Inv;
    if actions != [] {
      var front, last := actions[..|actions| - 1], actions[|actions| - 1];
      DisciplinedRunIsLegal(max, budget, front);
      RunKeeps(max, budget, front);
      StepIsLegal(max, Run(max, budget, front).value, last);
    }
  }

  // ---- what the state chart means

  function StepsStarted(log: seq<Event>): nat {
    if log == [] then 0 else StepsStarted(log[..|log| - 1]) + if log[|log| - 1].transition.StepStart? then 1 else 0
  }

  lemma LegalFront(log: seq<Event>, maxSteps: nat)
    requires LegalLog(log, maxSteps) && |log| > 1
    ensures LegalLog(log[..|log| - 1], maxSteps) && MayFollow(StandingIn(log[|log| - 2]), log[|log| - 1], maxSteps)
  {
    hide MayFollow;
  }

  /** The steps used are the steps started, never more than the agent may take. */
  lemma {:induction false} StepsAreCounted(log: seq<Event>, maxSteps: nat)
    requires LegalLog(log, maxSteps)
    ensures var e := log[|log| - 1];
            e.stepsUsed == StepsStarted(log) <= maxSteps && (e.status in {Ready, Checking} ==> !e.pauseRequested || e.status.Checking?)
            && (e.status.Checking? ==> e.stepsUsed < maxSteps)
    decreases |log|
  {
    if |log| > 1 {
      LegalFront(log, maxSteps);
      StepsAreCounted(log[..|log| - 1], maxSteps);
    } else {
      assert log[..0] == [];
    }
  }

  /** Under a pause the agent is not ready, and a check or step that is under way knows of it. */
  lemma {:induction false} PausedStanding(log: seq<Event>, maxSteps: nat, k: nat, n: nat)
    requires LegalLog(log, maxSteps) && k <= n < |log| && log[k].transition.PauseRequest?
    requires forall m | k < m <= n :: !log[m].transition.Resumption?
    ensures !log[n].status.Ready? && (log[n].status in {Checking, Running} ==> log[n].pauseRequested || log[n].requested)
    ensures n > k ==> log[n].transition !in {Check, StepStart}
    decreases n
  {
    if n > k { PausedStanding(log, maxSteps, k, n - 1); }
    assert n > 0 ==> MayFollow(StandingIn(log[n - 1]), log[n], maxSteps);
  }

  /** Between a request to pause and the next resumption no step starts, and none is even checked for. */
  ghost predicate PausesHold(log: seq<Event>) {
    forall k, n | 0 <= k < n < |log| && log[k].transition.PauseRequest? && (log[n].transition.StepStart? || log[n].transition.Check?) ::
      exists m :: k < m < n && log[m].transition.Resumption?
  }

  lemma LegalLogsPause(log: seq<Event>, maxSteps: nat)
    requires LegalLog(log, maxSteps)
    ensures PausesHold(log)
  {
    forall k, n | 0 <= k < n < |log| && log[k].transition.PauseRequest? && (log[n].transition.StepStart? || log[n].transition.Check?)
      ensures exists m :: k < m < n && log[m].transition.Resumption?
    {
      if forall m | k < m < n :: !log[m].transition.Resumption? { PausedStanding(log, maxSteps, k, n); }
    }
  }

  /** On every disciplined run: a requested pause holds until the agent is resumed, and its steps are
      counted and within its limit. */
  lemma PausesAndLimitsHold(max: nat, budget: Budget, actions: seq<Action>, i: Id)
    requires Run(max, budget, actions).Some? && DisciplinedRun(max, budget, actions)
    requires i < |Run(max, budget, actions).value.agents|
    ensures var a := Run(max, budget, actions).value.agents[i];
            PausesHold(a.log) && a.stepsUsed == StepsStarted(a.log) <= a.maxSteps
  {
    DisciplinedRunIsLegal(max, budget, actions);
    var a := Run(max, budget, actions).value.agents[i];
    assert Legal(a);
    LegalLogsPause(a.log, a.maxSteps);
    StepsAreCounted(a.log, a.maxSteps);
  }

  // ---- what an input does to its agent

  /** The agent or one above it is being interrupted or is stopped. */
  ghost predicate Closed(s: State, id: Id)
    requires id < |s.agents|
  {
    exists a: Id :: a < |s.agents| && Under(s.agents, a, id) && (a in s.interruptions || Stopped(s.agents[a]))
  }

  /** Nothing at `a` keeps a scope below it from being open. */
  predicate IsOpenAt(s: State, a: Id, restoring: Option<Id>)
    requires a < |s.agents|
  {
    a !in s.interruptions && (restoring == Some(a) || !Stopped(s.agents[a]))
  }

  lemma {:induction false} ChainOpenExactly(s: State, id: Id, restoring: Option<Id>)
    requires id < |s.agents|
    ensures ChainOpen(s, id, restoring) <==> forall a: Id | a < |s.agents| && Under(s.agents, a, id) :: IsOpenAt(s, a, restoring)
    decreases id
  {
    assert Under(s.agents, id, id);
    assert !IsOpenAt(s, id, restoring) ==> !ChainOpen(s, id, restoring);
    if s.agents[id].parent.Some? && s.agents[id].parent.value < id {
      var p := s.agents[id].parent.value;
      ChainOpenExactly(s, p, restoring);
      assert forall a: Id :: Under(s.agents, a, id) <==> a == id || Under(s.agents, a, p);
    } else {
      assert forall a: Id :: Under(s.agents, a, id) <==> a == id;
    }
  }

  lemma ScopeOpenExactly(s: State, id: Id)
    requires id < |s.agents|
    ensures ScopeOpen(s, id) <==> !Closed(s, id)
  {
    ChainOpenExactly(s, id, None);
    assert forall a: Id | a < |s.agents| :: IsOpenAt(s, a, None) <==> !(a in s.interruptions || Stopped(s.agents[a]));
  }

  lemma StoppedStaysAsItIs(s: State, id: Id)
    requires id < |s.agents| && s.agents[id].status in {Completed, Status.Failed, Interrupted}
    ensures ReconcileScopes(s).agents[id] == s.agents[id]
  {
    hide Settle;
    ReconciledIsSwept(s, id);
  }

  /** The agent's journal has one more event, of this kind, and the agent stands as it says. */
  ghost predicate Records(a: Agent, b: Agent, transition: Transition) {
    && |b.log| == |a.log| + 1 && b.log[..|a.log|] == a.log && b.log[|a.log|].transition == transition
    && StandingIn(b.log[|a.log|]) == StandingOf(b) && b.parent == a.parent && b.run == a.run && b.maxSteps == a.maxSteps
  }

  /** `n` has recorded `after` of agent `id` and of nobody else. */
  ghost predicate HasRecorded(s: State, n: State, id: Id, after: Agent, transition: Transition) {
    && id < |s.agents| == |n.agents| && (forall i: Id | i < |s.agents| && i != id :: n.agents[i] == s.agents[i])
    && Records(s.agents[id], n.agents[id], transition) && StandingOf(n.agents[id]) == StandingOf(after)
    && (Introduces(transition) ==> n.agents[id].checkpoint == after.checkpoint)
    && (!Introduces(transition) && !transition.Restoration? ==> n.agents[id].checkpoint == s.agents[id].checkpoint)
  }

  lemma RecordHasRecorded(s: State, id: Id, after: Agent, transition: Transition)
    requires id < |s.agents| && after.maxSteps == s.agents[id].maxSteps
    ensures HasRecorded(s, Record(s, id, after, transition), id, after, transition)
  {
    hide Root, Lead;
  }

  /** The end of a quantum recorded its agent so, and a reconciliation after it leaves the agent alone where
      it is stopped. */
  lemma TaskRecords(s: State, t: nat, after: Agent, transition: Transition, phase: Phase)
    requires t in s.tasks && s.tasks[t].agent < |s.agents| && after.maxSteps == s.agents[s.tasks[t].agent].maxSteps
    ensures var id, n := s.tasks[t].agent, To(Record(s, s.tasks[t].agent, after, transition), t, phase);
            && HasRecorded(s, n, id, after, transition) && |ReconcileScopes(n).agents| == |n.agents|
            && (after.status in {Completed, Status.Failed, Interrupted} ==> ReconcileScopes(n).agents[id] == n.agents[id])
  {
    hide Record, Settle, ReconcileScopes;
    var id := s.tasks[t].agent;
    var n := To(Record(s, id, after, transition), t, phase);
    RecordHasRecorded(s, id, after, transition);
    LengthStays(n);
    if after.status in {Completed, Status.Failed, Interrupted} { StoppedStaysAsItIs(n, id); }
  }

  lemma LengthStays(n: State)
    ensures |ReconcileScopes(n).agents| == |n.agents|
  {
  }

  /** How a step ends: stopped where an interruption was requested or the step broke; otherwise its checkpoint
      is taken over, and the agent pauses if it was asked to or has no steps left, and goes on, waits for its
      children or completes if not. */
  lemma StepEndsExactly(max: nat, s: State, t: nat, outcome: StepOutcome)
    requires Enabled(max, s, Finish(t, outcome)) && Inv(s)
    ensures var id, n := s.tasks[t].agent, Apply(max, s, Finish(t, outcome));
            id < |s.agents| == |n.agents| &&
            var a, b := s.agents[id], n.agents[id];
            if a.requested || outcome.Broke? then
              Records(a, b, Interruption) && b.status.Interrupted? && b.requested == a.requested && b.checkpoint == a.checkpoint && b.stepsUsed == a.stepsUsed
            else
              && Records(a, b, StepCompletion) && b.checkpoint == outcome.checkpoint && b.stepsUsed == a.stepsUsed && !b.pauseRequested
              && (b.status.Paused? <==> outcome.MoreToDo? && (a.pauseRequested || a.stepsUsed >= a.maxSteps))
              && (b.status.Ready? <==> outcome.MoreToDo? && !a.pauseRequested && a.stepsUsed < a.maxSteps)
              && (b.status.Waiting? <==> outcome.Done? && exists c :: 0 <= c < |s.agents| && s.agents[c].parent == Some(id))
              && (b.status.Completed? <==> outcome.Done? && forall c | 0 <= c < |s.agents| :: s.agents[c].parent != Some(id))
  {
    hide ReconcileScopes, Record, Records, HasChildren;
    TaskFacts(s, t);
    var a := s.agents[s.tasks[t].agent];
    forall after: Agent, transition, phase | after.maxSteps == a.maxSteps
      ensures var id, n := s.tasks[t].agent, To(Record(s, s.tasks[t].agent, after, transition), t, phase);
              && HasRecorded(s, n, id, after, transition) && |ReconcileScopes(n).agents| == |n.agents|
              && (after.status in {Completed, Status.Failed, Interrupted} ==> ReconcileScopes(n).agents[id] == n.agents[id])
    {
      TaskRecords(s, t, after, transition, phase);
    }
    ChildrenAre(s, s.tasks[t].agent);
    hide Inv, To;
  }

  lemma ChildrenAre(s: State, id: Id)
    ensures HasChildren(s, id) <==> exists c :: 0 <= c < |s.agents| && s.agents[c].parent == Some(id)
  {
  }

  predicate StandsAt(s: State, t: nat, phase: Phase) {
    t in s.tasks && s.tasks[t].phase == phase
  }

  /** The Run has no step left. */
  predicate RunIsUsedUp(s: State, run: nat) {
    UsageOf(s, run).stepsUsed >= BudgetOf(s, run).maxSteps
  }

  /** How a validation ends: a step starts, and is charged, exactly if nothing speaks against it. */
  lemma ValidationEndsExactly(max: nat, s: State, t: nat, verdict: Verdict)
    requires Enabled(max, s, Validated(t, verdict)) && Inv(s)
    ensures var id, n := s.tasks[t].agent, Apply(max, s, Validated(t, verdict));
            id < |s.agents| == |n.agents| &&
            var a, b := s.agents[id], n.agents[id];
            && b.checkpoint == a.checkpoint && b.stepsUsed == a.stepsUsed + (if b.status.Running? then 1 else 0)
            && (b.status.Interrupted? <==> a.requested)
            && (b.status.Failed? <==> !a.requested && (verdict.Threw? || Closed(s, id)))
            && (b.status.Running? <==> !a.requested && verdict.Valid? && !Closed(s, id) && !a.pauseRequested && !s.stopping && !RunIsUsedUp(s, a.run))
            && (!b.status.Interrupted? && !b.status.Failed? && !b.status.Running? ==> b.status.Paused?)
            && StandsAt(n, t, if b.status.Running? then Stepping(true) else Ended)
  {
    hide ReconcileScopes, Record, ScopeOpen, Closed, Root, UsageOf, BudgetOf;
    TaskFacts(s, t);
    hide Inv;
    ScopeOpenExactly(s, s.tasks[t].agent);
    forall after: Agent, transition, phase | after.maxSteps == s.agents[s.tasks[t].agent].maxSteps && KeepsCheckpoint(transition)
      ensures var n := To(Record(s, s.tasks[t].agent, after, transition), t, phase);
              TaskStands(s, n, t, after, phase) && (IsOver(after.status) ==> TaskStands(s, ReconcileScopes(n), t, after, phase))
    {
      TaskStandsAfter(s, t, after, transition, phase);
    }
    hide To;
  }

  lemma PhasesStay(n: State, t: nat)
    requires t in n.tasks
    ensures StandsAt(ReconcileScopes(n), t, n.tasks[t].phase)
  {
    hide Settle, Broken, Root;
  }

  /** What becomes of a ready agent whose quantum begins: it is checked exactly if it and its Run have steps
      left and its Run and scope are open. */
  ghost predicate HasBegun(s: State, t: nat, runOpen: bool, n: State) {
    t in s.tasks && s.tasks[t].agent < |s.agents| == |n.agents| &&
    var id := s.tasks[t].agent;
    var a, b := s.agents[id], n.agents[id];
    && b.checkpoint == a.checkpoint && b.stepsUsed == a.stepsUsed
    && (b.status.Paused? <==> a.stepsUsed >= a.maxSteps || RunIsUsedUp(s, a.run))
    && (b.status.Failed? <==> a.stepsUsed < a.maxSteps && !RunIsUsedUp(s, a.run) && (!runOpen || Closed(s, id)))
    && (b.status.Checking? <==> a.stepsUsed < a.maxSteps && !RunIsUsedUp(s, a.run) && runOpen && !Closed(s, id))
    && StandsAt(n, t, if b.status.Checking? then Validating else Ended)
  }

  lemma ReadyQuantumBegins(s: State, t: nat, runOpen: bool)
    requires At(s, t, Queued) && !s.stopping && s.agents[s.tasks[t].agent].status.Ready?
    ensures HasBegun(s, t, runOpen, ApplyBegin(s, t, runOpen))
  {
    hide ReconcileScopes, Record, ScopeOpen, Closed, Root, UsageOf, BudgetOf;
    var b := EnsureRunBudget(s, s.agents[s.tasks[t].agent].run);
    ScopeOpenExactly(s, s.tasks[t].agent);
    forall after: Agent, transition, phase | after.maxSteps == s.agents[s.tasks[t].agent].maxSteps && KeepsCheckpoint(transition)
      ensures var n := To(Record(b, s.tasks[t].agent, after, transition), t, phase);
              TaskStands(s, n, t, after, phase) && (IsOver(after.status) ==> TaskStands(s, ReconcileScopes(n), t, after, phase))
    {
      TaskStandsAfter(b, t, after, transition, phase);
    }
    hide To;
  }

  /** How a dispatched quantum begins: nothing happens to an agent that is not ready. */
  lemma QuantumBeginsExactly(max: nat, s: State, t: nat, runOpen: bool)
    requires Enabled(max, s, Begin(t, runOpen))
    ensures var n := Apply(max, s, Begin(t, runOpen));
            if s.stopping || !s.agents[s.tasks[t].agent].status.Ready? then n.agents == s.agents && StandsAt(n, t, Ended)
            else HasBegun(s, t, runOpen, n)
  {
    hide HasBegun;
    if !s.stopping && s.agents[s.tasks[t].agent].status.Ready? {
      ReadyQuantumBegins(s, t, runOpen);
      hide ApplyBegin;
    }
  }

  predicate KeepsCheckpoint(transition: Transition) {
    !Introduces(transition) && !transition.Restoration?
  }

  predicate IsOver(status: Status) {
    status in {Completed, Status.Failed, Interrupted}
  }

  /** The task's agent stands as `after` and the task in this phase. */
  predicate TaskStands(s: State, n: State, t: nat, after: Agent, phase: Phase) {
    && t in s.tasks && s.tasks[t].agent < |s.agents| == |n.agents| && StandsAt(n, t, phase)
    && StandingOf(n.agents[s.tasks[t].agent]) == StandingOf(after)
    && n.agents[s.tasks[t].agent].checkpoint == s.agents[s.tasks[t].agent].checkpoint
  }

  lemma TaskStandsAfter(s: State, t: nat, after: Agent, transition: Transition, phase: Phase)
    requires t in s.tasks && s.tasks[t].agent < |s.agents| && after.maxSteps == s.agents[s.tasks[t].agent].maxSteps && KeepsCheckpoint(transition)
    ensures var n := To(Record(s, s.tasks[t].agent, after, transition), t, phase);
            TaskStands(s, n, t, after, phase) && (IsOver(after.status) ==> TaskStands(s, ReconcileScopes(n), t, after, phase))
  {
    hide Record, Records, ReconcileScopes;
    TaskRecords(s, t, after, transition, phase);
    PhasesStay(To(Record(s, s.tasks[t].agent, after, transition), t, phase), t);
  }

  /** How a recovery ends: interrupted where that was requested, restored where a checkpoint was prepared, and
      as its agent was before where not. */
  lemma RecoveryEndsExactly(max: nat, s: State, id: Id, how: RecoveryOutcome)
    requires Enabled(max, s, RecoverEnd(id, how)) && Inv(s)
    ensures var n := Apply(max, s, RecoverEnd(id, how));
            id < |s.agents| == |n.agents| && n.recoveries == s.recoveries[id := s.recoveries[id].(done := true)] &&
            var a, b, before := s.agents[id], n.agents[id], s.recoveries[id].previous;
            && (forall i: Id | i < |s.agents| && i != id :: n.agents[i] == s.agents[i])
            && (if a.requested then
                  && Records(a, b, if how.Failure? then RecoveryFailed else RecoveryInterrupted)
                  && b.status.Interrupted? && b.requested && b.checkpoint == a.checkpoint
                else if how.Prepared? then
                  Records(a, b, Restoration(how.k)) && b.status.Paused? && !b.requested
                else
                  && Records(a, b, if how.Failure? then RecoveryFailed else RecoveryAbandoned)
                  && StandingOf(b) == StandingOf(before) && b.checkpoint == a.checkpoint)
  {
    hide Record, Records, Saved, Listed;
    assert RecoveryOk(s, id);
    forall after: Agent, transition | after.maxSteps == s.agents[id].maxSteps
      ensures HasRecorded(s, Record(s, id, after, transition), id, after, transition)
    {
      RecordHasRecorded(s, id, after, transition);
    }
    hide Inv;
  }

  /** Pausing, resuming, restoring, beginning a recovery and pausing for a shutdown record exactly that, of
      exactly this agent. */
  lemma RecordsWhatWasAsked(max: nat, s: State, a: Action)
    requires a.Pause? || a.Resume? || a.Restore? || a.RecoverBegin? || a.ShutdownPause?
    requires Enabled(max, s, a)
    ensures var n := Apply(max, s, a);
            && a.id < |s.agents| == |n.agents| && (forall i: Id | i < |s.agents| && i != a.id :: n.agents[i] == s.agents[i])
            && Records(s.agents[a.id], n.agents[a.id],
                       match a
                       case Pause(_) => PauseRequest
                       case Resume(_) => Resumption
                       case Restore(_, k) => Restoration(k)
                       case RecoverBegin(_) => RecoveryStart
                       case _ => ShutdownRequest)
            && (a.RecoverBegin? ==> a.id in n.recoveries && n.recoveries[a.id] == Recovery(s.agents[a.id], false))
            && n.tasks == s.tasks && n.quanta == s.quanta
  {
    hide Record, Records, ChainOpen, Under, Listed, Saved;
    var b := EnsureRunBudget(s, s.agents[a.id].run);
    forall after: Agent, transition | after.maxSteps == s.agents[a.id].maxSteps
      ensures HasRecorded(s, Record(s, a.id, after, transition), a.id, after, transition)
      ensures HasRecorded(b, Record(b, a.id, after, transition), a.id, after, transition)
      ensures Record(s, a.id, after, transition).quanta == s.quanta && Record(b, a.id, after, transition).quanta == s.quanta
    {
      RecordHasRecorded(s, a.id, after, transition);
      RecordHasRecorded(b, a.id, after, transition);
      MemoryStays(s, a.id, after, transition);
      MemoryStays(b, a.id, after, transition);
    }
  }

  lemma MemoryStays(s: State, id: Id, after: Agent, transition: Transition)
    requires id < |s.agents|
    ensures Record(s, id, after, transition).quanta == s.quanta
  {
  }

  /** A new agent is ready, has taken no step, and is the last one. */
  lemma CreatesExactly(max: nat, s: State, run: nat, parent: Option<Id>, maxSteps: nat, checkpoint: Data)
    requires Enabled(max, s, Create(run, parent, maxSteps, checkpoint))
    ensures var n := Apply(max, s, Create(run, parent, maxSteps, checkpoint));
            && |n.agents| == |s.agents| + 1 && n.agents[..|s.agents|] == s.agents
            && var b := n.agents[|s.agents|];
               && b.parent == parent && b.run == run && b.maxSteps == maxSteps && b.stepsUsed == 0 && b.status.Ready? && !b.pauseRequested
               && !b.requested && b.checkpoint == checkpoint && |b.log| == 1 && b.log[0].transition.Creation?
               && UsageOf(n, run).agentsCreated == UsageOf(s, run).agentsCreated + 1
  {
    hide Root, ChainOpen;
  }

  /** An interruption waits for exactly the quanta and recoveries of its tree. */
  lemma InterruptionWaitsForTheTree(max: nat, s: State, id: Id)
    requires Enabled(max, s, Interrupt(id)) && Root(s.agents, id) !in s.interruptions
    ensures var root, n := Root(s.agents, id), Apply(max, s, Interrupt(id));
            && n.interruptions.Keys == s.interruptions.Keys + {root}
            && (forall t :: t in n.interruptions[root].tokens
                            <==> exists i: Id :: i < |s.agents| && i in s.quanta && Root(s.agents, i) == root && s.quanta[i] == t)
            && (forall i: Id :: i in n.interruptions[root].members <==> i < |s.agents| && i in s.recoveries && Root(s.agents, i) == root)
  {
    hide Root, CancelTree, Abort;
  }

  /** How an agent stands after a restart: who was running or recovering is interrupted, who was ready or
      being checked is paused unless its tree is broken. */
  predicate IsRestarted(a: Agent, b: Agent) {
    && b.status in {Waiting, Paused, Completed, Status.Failed, Interrupted} && b.stepsUsed == a.stepsUsed && b.checkpoint == a.checkpoint
    && (a.status in {Running, Recovering} || (a.status.Checking? && a.requested) ==> b.status.Interrupted?)
    && (a.status in {Ready, Checking} && !a.requested ==> b.status in {Paused, Interrupted})
    && (a.status in {Completed, Status.Failed, Interrupted} ==> b == a)
  }

  /** A restart leaves nobody ready or at work, and nothing in memory. */
  lemma RestartStopsAll(max: nat, s: State, budget: Budget)
    requires Enabled(max, s, Restart(budget)) && Inv(s)
    ensures var n := Apply(max, s, Restart(budget));
            && |n.agents| == |s.agents| && n.tasks == map[] && n.quanta == map[] && n.recoveries == map[] && n.interruptions == map[]
            && forall i: Id | i < |s.agents| :: IsRestarted(s.agents[i], n.agents[i])
  {
    hide ReconcileScopes, IsSwept, Root, IsRestarted;
    var m := Reopened(s, budget);
    var n := Apply(max, s, Restart(budget));
    MemoryIsKept(m);
    LengthStays(m);
    forall i: Id | i < |s.agents| ensures IsRestarted(s.agents[i], n.agents[i]) {
      ReconciledIsSwept(m, i);
      assert AgentOk(s, i);
      RestartedOne(s.agents[i], m.agents[i], n.agents[i]);
    }
  }

  lemma RestartedOne(a: Agent, m: Agent, b: Agent)
    requires m == Reopen(a) && IsSwept(m, b) && (a.requested ==> a.status in {Checking, Running, Recovering, Interrupted})
    ensures IsRestarted(a, b)
  {
    match a.status
    case Ready => assert m.status.Paused?;
    case Checking => assert m.status.Paused? || m.status.Interrupted?;
    case Running => assert m.status.Interrupted?;
    case Recovering => assert m.status.Interrupted?;
    case _ => assert m == a;
  }

  lemma MemoryIsKept(s: State)
    ensures var n := ReconcileScopes(s);
            n.tasks.Keys == s.tasks.Keys && n.quanta == s.quanta && n.recoveries == s.recoveries && n.interruptions == s.interruptions
  {
    hide Settle, Broken;
  }
}
