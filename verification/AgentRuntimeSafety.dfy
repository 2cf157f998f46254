/** What every step of the agent runtime keeps, as long as no agent is dispatched while an earlier
    quantum of it is still registered. */
module AgentRuntimeSafety {
  import opened AgentScopes
  import opened AgentFence
  import opened AgentRuntime
  import opened AgentReconcile

  // ---- the invariant, element by element

  predicate Live(phase: Phase) {
    phase.Validating? || phase.Stepping?
  }

  ghost predicate TaskOk(s: State, t: nat) {
    t in s.tasks ==>
      var task := s.tasks[t];
      && t < s.nextToken && task.agent < |s.agents| && task.agent in s.quanta && s.quanta[task.agent] == t
      && (task.phase.Validating? ==> s.agents[task.agent].status.Checking?)
      && (task.phase.Stepping? ==> s.agents[task.agent].status.Running?)
      && (Live(task.phase) ==> (task.aborted <==> s.agents[task.agent].requested))
      && (task.phase.Queued? && task.aborted ==> Stopped(s.agents[task.agent]))
  }

  ghost predicate QuantumOk(s: State, i: Id) {
    i in s.quanta ==> i < |s.agents| && s.quanta[i] in s.tasks && s.tasks[s.quanta[i]].agent == i
  }

  ghost predicate RecoveryOk(s: State, i: Id) {
    i in s.recoveries ==>
      && i < |s.agents|
      && (!s.recoveries[i].done ==>
            var agent, previous := s.agents[i], s.recoveries[i].previous;
            && agent.status.Recovering? && previous.status in {Paused, Interrupted}
            && previous.stepsUsed == agent.stepsUsed && previous.maxSteps == agent.maxSteps
            && (previous.requested ==> previous.status.Interrupted?))
  }

  ghost predicate AgentOk(s: State, i: Id) {
    i < |s.agents| ==>
      var a := s.agents[i];
      && (a.status.Checking? ==> i in s.quanta && s.quanta[i] in s.tasks && s.tasks[s.quanta[i]].phase.Validating?)
      && (a.status.Running? ==> i in s.quanta && s.quanta[i] in s.tasks && s.tasks[s.quanta[i]].phase.Stepping?)
      && (a.status.Recovering? ==> i in s.recoveries && !s.recoveries[i].done)
      && (a.requested ==> a.status in {Checking, Running, Recovering, Interrupted})
      && Respected(a.log)
      && (FenceOf(a.log).Fenced? ==> Stopped(a) || (a.status.Recovering? && s.recoveries[i].previous.status.Interrupted?))
      && (FenceOf(a.log).Lifted? ==> a.status in {Paused, Recovering})
      && (a.status.Interrupted? || a.requested ==> FenceOf(a.log).Fenced?)
  }

  ghost predicate FamilyOk(s: State, i: Id) {
    i < |s.agents| && s.agents[i].parent.Some? ==>
      && s.agents[i].parent.value < i && s.agents[s.agents[i].parent.value].run == s.agents[i].run
      && (s.agents[s.agents[i].parent.value].status.Completed? ==> s.agents[i].status.Completed?)
  }

  ghost predicate Inv(s: State) {
    && (forall t: nat {:trigger TaskOk(s, t)} :: TaskOk(s, t))
    && (forall i: Id {:trigger QuantumOk(s, i)} :: QuantumOk(s, i))
    && (forall i: Id {:trigger RecoveryOk(s, i)} :: RecoveryOk(s, i))
    && (forall i: Id {:trigger AgentOk(s, i)} :: AgentOk(s, i))
    && (forall i: Id {:trigger FamilyOk(s, i)} :: FamilyOk(s, i))
  }

  lemma InvIsRooted(s: State)
    requires Inv(s)
    ensures Rooted(s.agents)
  {
    forall i: nat | i < |s.agents| && s.agents[i].parent.Some?
      ensures s.agents[i].parent.value < i && s.agents[s.agents[i].parent.value].run == s.agents[i].run
    {
      assert FamilyOk(s, i);
    }
  }

  // ---- steps that record one agent

  /** Only agent `id`, its quantum and its recovery differ. */
  ghost predicate OnlyChanges(s: State, n: State, id: Id) {
    && id < |s.agents| == |n.agents| && n.agents == s.agents[id := n.agents[id]]
    && n.agents[id].parent == s.agents[id].parent && n.agents[id].run == s.agents[id].run
    && n.quanta == s.quanta && n.nextToken == s.nextToken && n.tasks.Keys == s.tasks.Keys
    && (forall t | t in s.tasks && !(id in s.quanta && s.quanta[id] == t) :: n.tasks[t] == s.tasks[t])
    && (forall i: Id | i != id :: (i in n.recoveries <==> i in s.recoveries) && (i in s.recoveries ==> n.recoveries[i] == s.recoveries[i]))
  }

  lemma OneAgentKeeps(s: State, n: State, id: Id)
    requires Inv(s) && OnlyChanges(s, n, id)
    requires AgentOk(n, id) && RecoveryOk(n, id) && QuantumOk(n, id) && (id in n.quanta ==> TaskOk(n, n.quanta[id]))
    requires s.agents[id].status.Completed? ==> n.agents[id].status.Completed?
    requires n.agents[id].status.Completed? && !s.agents[id].status.Completed? ==> forall c: nat | c < |s.agents| && s.agents[c].parent == Some(id) :: s.agents[c].status.Completed?
    ensures Inv(n)
  {
    assert QuantumOk(s, id);
    forall t: nat ensures TaskOk(n, t) {
      assert TaskOk(s, t);
      if t in s.tasks && s.tasks[t].agent == id {
        assert t == s.quanta[id];
      } else if t in s.tasks {
        assert n.tasks[t] == s.tasks[t];
      }
    }
    forall i: Id ensures QuantumOk(n, i) {
      assert QuantumOk(s, i);
    }
    forall i: Id ensures RecoveryOk(n, i) { assert RecoveryOk(s, i); }
    forall i: Id ensures AgentOk(n, i) {
      assert AgentOk(s, i) && QuantumOk(s, i);
    }
    forall i: Id ensures FamilyOk(n, i) { assert FamilyOk(s, i); }
  }

  /** What one more event does to an agent's log. */
  lemma LogStep(a: Agent, transition: Transition)
    requires Respected(a.log) && (TakesStep(transition) ==> FenceOf(a.log).Open?)
    ensures Respected(Logged(a, transition).log)
    ensures FenceOf(Logged(a, transition).log) == Next(FenceOf(a.log), EventOf(a, transition))
  {
    FenceStep(a.log, EventOf(a, transition));
    RespectedStep(a.log, EventOf(a, transition));
  }

  lemma PauseKeeps(max: nat, s: State, id: Id)
    requires Inv(s) && Enabled(max, s, Pause(id))
    ensures Inv(Apply(max, s, Pause(id)))
  {
    hide FenceOf, Respected, Root;
    var n := Apply(max, s, Pause(id));
    assert AgentOk(s, id) && QuantumOk(s, id) && RecoveryOk(s, id) && (id in s.quanta ==> TaskOk(s, s.quanta[id]));
    var active := s.agents[id].status in {Running, Checking, Recovering};
    LogStep(s.agents[id].(pauseRequested := active, status := if active then s.agents[id].status else Paused, requested := false), PauseRequest);
    OneAgentKeeps(s, n, id);
  }

  lemma ResumeKeeps(max: nat, s: State, id: Id)
    requires Inv(s) && Enabled(max, s, Resume(id))
    ensures Inv(Apply(max, s, Resume(id)))
  {
    hide FenceOf, Respected, Root;
    var n := Apply(max, s, Resume(id));
    assert AgentOk(s, id) && QuantumOk(s, id) && RecoveryOk(s, id) && (id in s.quanta ==> TaskOk(s, s.quanta[id]));
    LogStep(s.agents[id].(status := Ready, pauseRequested := false, requested := false), Resumption);
    OneAgentKeeps(s, n, id);
  }

  lemma ShutdownPauseKeeps(max: nat, s: State, id: Id)
    requires Inv(s) && Enabled(max, s, ShutdownPause(id))
    ensures Inv(Apply(max, s, ShutdownPause(id)))
  {
    var n := Apply(max, s, ShutdownPause(id));
    assert AgentOk(s, id) && QuantumOk(s, id) && RecoveryOk(s, id) && (id in s.quanta ==> TaskOk(s, s.quanta[id]));
    LogStep(s.agents[id].(status := Paused, pauseRequested := false, requested := false), ShutdownRequest);
    OneAgentKeeps(s, n, id);
  }

  lemma NothingRegistered(s: State, id: Id)
    requires CanRestore(s, id)
    ensures id !in s.quanta && id !in s.recoveries
  {
    assert Under(s.agents, id, id);
  }

  lemma RestoreKeeps(max: nat, s: State, id: Id, k: nat)
    requires Inv(s) && Enabled(max, s, Restore(id, k))
    ensures Inv(Apply(max, s, Restore(id, k)))
  {
    var n := Apply(max, s, Restore(id, k));
    NothingRegistered(s, id);
    assert AgentOk(s, id) && QuantumOk(s, id) && RecoveryOk(s, id);
    LogStep(AfterRestore(s.agents[id], k), Restoration(k));
    OneAgentKeeps(s, n, id);
  }

  lemma RecoverBeginKeeps(max: nat, s: State, id: Id)
    requires Inv(s) && Enabled(max, s, RecoverBegin(id))
    ensures Inv(Apply(max, s, RecoverBegin(id)))
  {
    hide FenceOf, Respected, Root;
    var n := Apply(max, s, RecoverBegin(id));
    NothingRegistered(s, id);
    assert AgentOk(s, id) && QuantumOk(s, id) && RecoveryOk(s, id);
    LogStep(s.agents[id].(status := Recovering, pauseRequested := false, requested := false), RecoveryStart);
    OneAgentKeeps(s, n, id);
  }

  lemma OwnLogIsFiled(s: State, id: Id, after: Agent, transition: Transition)
    requires id < |s.agents|
    ensures Record(s, id, after, transition) == Record(s, id, after.(log := s.agents[id].log), transition)
  {
  }

  lemma RecoverEndKeeps(s: State, id: Id, how: RecoveryOutcome)
    requires Inv(s) && OpenRecovery(s, id)
    ensures Inv(ApplyRecoverEnd(s, id, how))
  {
    hide Inv, Record, FenceOf, Respected, Root, AfterRestore, Listed;
    var before, n := s.recoveries[id].previous, ApplyRecoverEnd(s, id, how);
    if s.agents[id].requested {
      EndsInterrupted(s, id, before.(status := Interrupted, pauseRequested := false, requested := true), if how.Failure? then RecoveryFailed else RecoveryInterrupted, n);
    } else if how.Prepared? {
      EndsRestored(s, id, how.k, n);
    } else {
      EndsAsBefore(s, id, if how.Nothing? then RecoveryAbandoned else RecoveryFailed, n);
    }
  }

  /** The recovery of `id` is done and `after` recorded. */
  ghost predicate Closes(s: State, id: Id, after: Agent, transition: Transition, n: State)
    requires OpenRecovery(s, id)
  {
    n == Record(s, id, after, transition).(recoveries := s.recoveries[id := s.recoveries[id].(done := true)])
  }

  lemma EndsInterrupted(s: State, id: Id, after: Agent, transition: Transition, n: State)
    requires OpenRecovery(s, id) && Closes(s, id, after, transition, n)
    requires after.status.Interrupted? && transition in {RecoveryFailed, RecoveryInterrupted} && Inv(s)
    ensures Inv(n)
  {
    hide FenceOf, Respected, Root, Inv;
    OwnLogIsFiled(s, id, after, transition);
    RecordEndKeeps(s, id, after.(log := s.agents[id].log), transition, n);
  }

  lemma EndsRestored(s: State, id: Id, k: nat, n: State)
    requires OpenRecovery(s, id) && !s.agents[id].requested && Closes(s, id, AfterRestore(s.agents[id], k), Restoration(k), n) && Inv(s)
    ensures Inv(n)
  {
    hide FenceOf, Respected, Root, Inv;
    RecordEndKeeps(s, id, AfterRestore(s.agents[id], k), Restoration(k), n);
  }

  lemma EndsAsBefore(s: State, id: Id, transition: Transition, n: State)
    requires OpenRecovery(s, id) && !s.agents[id].requested && transition in {RecoveryFailed, RecoveryAbandoned}
    requires Closes(s, id, s.recoveries[id].previous, transition, n) && Inv(s)
    ensures Inv(n)
  {
    hide FenceOf, Respected, Root;
    assert RecoveryOk(s, id) && AgentOk(s, id);
    hide Inv, Record;
    var previous := s.recoveries[id].previous;
    OwnLogIsFiled(s, id, previous, transition);
    RecordEndKeeps(s, id, previous.(log := s.agents[id].log), transition, n);
  }

  predicate TakesStep(transition: Transition) {
    transition.StepStart? || transition.StepCompletion?
  }

  /** A recovery ends with its agent paused or interrupted. */
  lemma RecordEndKeeps(s: State, id: Id, after: Agent, transition: Transition, n: State)
    requires OpenRecovery(s, id)
    requires n == Record(s, id, after, transition).(recoveries := s.recoveries[id := s.recoveries[id].(done := true)])
    requires after.log == s.agents[id].log && (after.status.Paused? || after.status.Interrupted?) && (after.requested ==> after.status.Interrupted?)
    requires after.status.Paused? ==> !s.agents[id].requested && (FenceOf(s.agents[id].log).Fenced? ==> transition.Restoration?)
    requires !TakesStep(transition) && Inv(s)
    ensures Inv(n)
  {
    hide FenceOf, Respected, Root;
    assert AgentOk(s, id) && QuantumOk(s, id) && RecoveryOk(s, id) && (id in s.quanta ==> TaskOk(s, s.quanta[id]));
    var was := s.agents[id];
    LogStep(after.(parent := was.parent, run := was.run, log := was.log), transition);
    OneAgentKeeps(s, n, id);
  }

  /** A quantum ends and its agent stops, waits or becomes ready again. */
  lemma EndKeeps(s: State, t: nat, after: Agent, transition: Transition, n: State)
    requires t in s.tasks && s.tasks[t].agent < |s.agents| && n == To(Record(s, s.tasks[t].agent, after, transition), t, Ended)
    requires s.agents[s.tasks[t].agent].status.Ready? || Live(s.tasks[t].phase)
    requires after.log == s.agents[s.tasks[t].agent].log
    requires !after.status.Checking? && !after.status.Running? && !after.status.Recovering?
    requires after.requested ==> after.status.Interrupted?
    requires !Stopped(after) || TakesStep(transition) ==> !s.agents[s.tasks[t].agent].requested
    requires after.status.Completed? ==> !HasChildren(s, s.tasks[t].agent)
    requires !transition.Restoration? && !transition.Resumption? && Inv(s)
    ensures Inv(n)
  {
    hide FenceOf, Respected, Root;
    var id := s.tasks[t].agent;
    assert TaskOk(s, t) && AgentOk(s, id) && QuantumOk(s, id) && RecoveryOk(s, id);
    var was := s.agents[id];
    LogStep(after.(parent := was.parent, run := was.run, log := was.log), transition);
    OneAgentKeeps(s, n, id);
  }

  /** A quantum moves on and its agent with it. */
  lemma MoveKeeps(s: State, t: nat, after: Agent, transition: Transition, phase: Phase, n: State)
    requires t in s.tasks && s.tasks[t].agent < |s.agents| && n == To(Record(s, s.tasks[t].agent, after, transition), t, phase)
    requires s.agents[s.tasks[t].agent].status.Ready? || s.agents[s.tasks[t].agent].status.Checking?
    requires after.log == s.agents[s.tasks[t].agent].log && !after.requested && !s.agents[s.tasks[t].agent].requested && !s.tasks[t].aborted
    requires (after.status.Checking? && phase.Validating?) || (after.status.Running? && phase.Stepping?)
    requires (transition.Check? || transition.StepStart?) && Inv(s)
    ensures Inv(n)
  {
    hide FenceOf, Respected, Root;
    var id := s.tasks[t].agent;
    assert TaskOk(s, t) && AgentOk(s, id) && QuantumOk(s, id) && RecoveryOk(s, id);
    var was := s.agents[id];
    LogStep(after.(parent := was.parent, run := was.run, log := was.log), transition);
    OneAgentKeeps(s, n, id);
  }

  lemma DispatchKeeps(max: nat, s: State, id: Id)
    requires Inv(s) && Enabled(max, s, Dispatch(id)) && id !in s.quanta
    ensures Inv(Apply(max, s, Dispatch(id)))
  {
    var n := Apply(max, s, Dispatch(id));
    assert TaskOk(s, s.nextToken) && AgentOk(s, id);
    forall t: nat ensures TaskOk(n, t) { assert TaskOk(s, t); }
    forall i: Id ensures QuantumOk(n, i) { assert QuantumOk(s, i); }
    forall i: Id ensures RecoveryOk(n, i) { assert RecoveryOk(s, i); }
    forall i: Id ensures AgentOk(n, i) { assert AgentOk(s, i) && QuantumOk(s, i); }
    forall i: Id ensures FamilyOk(n, i) { assert FamilyOk(s, i); }
  }

  lemma FinalizeKeeps(max: nat, s: State, t: nat)
    requires Inv(s) && Enabled(max, s, Finalize(t))
    ensures Inv(Apply(max, s, Finalize(t)))
  {
    var n := Apply(max, s, Finalize(t));
    assert TaskOk(s, t);
    forall u: nat ensures TaskOk(n, u) { assert TaskOk(s, u); }
    forall i: Id ensures QuantumOk(n, i) { assert QuantumOk(s, i); }
    forall i: Id ensures RecoveryOk(n, i) { assert RecoveryOk(s, i); }
    forall i: Id ensures AgentOk(n, i) { assert AgentOk(s, i) && QuantumOk(s, i); }
    forall i: Id ensures FamilyOk(n, i) { assert FamilyOk(s, i); }
  }

  lemma RecoverySettledKeeps(max: nat, s: State, id: Id)
    requires Inv(s) && Enabled(max, s, RecoverySettled(id))
    ensures Inv(Apply(max, s, RecoverySettled(id)))
  {
    var n := Apply(max, s, RecoverySettled(id));
    forall t: nat ensures TaskOk(n, t) { assert TaskOk(s, t); }
    forall i: Id ensures QuantumOk(n, i) { assert QuantumOk(s, i); }
    forall i: Id ensures RecoveryOk(n, i) { assert RecoveryOk(s, i); }
    forall i: Id ensures AgentOk(n, i) { assert AgentOk(s, i); }
    forall i: Id ensures FamilyOk(n, i) { assert FamilyOk(s, i); }
  }

  lemma CreateKeeps(max: nat, s: State, run: nat, parent: Option<Id>, maxSteps: nat, checkpoint: Data)
    requires Inv(s) && Enabled(max, s, Create(run, parent, maxSteps, checkpoint))
    ensures Inv(Apply(max, s, Create(run, parent, maxSteps, checkpoint)))
  {
    var n := Apply(max, s, Create(run, parent, maxSteps, checkpoint));
    var created := Agent(parent, run, maxSteps, 0, Ready, false, false, checkpoint, []);
    LogStep(created, Creation);
    assert n.agents[|s.agents|] == Logged(created, Creation);
    assert QuantumOk(s, |s.agents|) && RecoveryOk(s, |s.agents|);
    forall t: nat ensures TaskOk(n, t) { assert TaskOk(s, t); }
    forall i: Id ensures QuantumOk(n, i) { assert QuantumOk(s, i); }
    forall i: Id ensures RecoveryOk(n, i) { assert RecoveryOk(s, i); }
    forall i: Id ensures AgentOk(n, i) { assert AgentOk(s, i); }
    forall i: Id ensures FamilyOk(n, i) { assert FamilyOk(s, i); }
  }

  // ---- sweeps over whole trees

  /** How a sweep may leave one agent and its quantum. */
  ghost predicate SweptAt(s: State, n: State, i: Id) {
    i < |s.agents| == |n.agents| ==>
      var a, b := s.agents[i], n.agents[i];
      var before := i in s.quanta && s.quanta[i] in s.tasks && s.tasks[s.quanta[i]].aborted;
      var after := i in s.quanta && s.quanta[i] in n.tasks && n.tasks[s.quanta[i]].aborted;
      || (a == b && after == before)
      || (b == Cancel(a, IsActive(a, i, s.quanta.Keys, s.recoveries.Keys)) && (after <==> i in s.quanta && s.quanta[i] in s.tasks))
      || (b == Complete(a) && a.status.Waiting? && !a.requested && after == before
          && forall c: nat | c < |s.agents| && s.agents[c].parent == Some(i) :: n.agents[c].status.Completed?)
  }

  ghost predicate Swept(s: State, n: State) {
    && |s.agents| == |n.agents| && n.quanta == s.quanta && n.recoveries == s.recoveries && n.nextToken == s.nextToken
    && n.tasks.Keys == s.tasks.Keys && (forall t | t in s.tasks :: n.tasks[t].agent == s.tasks[t].agent && n.tasks[t].phase == s.tasks[t].phase)
    && forall i: Id {:trigger SweptAt(s, n, i)} :: SweptAt(s, n, i)
  }

  lemma SweptAgent(s: State, n: State, i: Id)
    requires Inv(s) && Swept(s, n)
    ensures AgentOk(n, i)
  {
    if i < |s.agents| {
      assert AgentOk(s, i) && SweptAt(s, n, i) && QuantumOk(s, i);
      var a := s.agents[i];
      var active := IsActive(a, i, s.quanta.Keys, s.recoveries.Keys);
      if !Stopped(a) {
        LogStep(a.(status := if active then a.status else Interrupted, pauseRequested := false, requested := true), if active then InterruptRequest else Interruption);
      }
      LogStep(a.(status := Completed, requested := false), ScopeCompletion);
    }
  }

  lemma SweepKeeps(s: State, n: State)
    requires Inv(s) && Swept(s, n)
    ensures Inv(n)
  {
    forall t: nat ensures TaskOk(n, t) {
      assert TaskOk(s, t);
      if t in s.tasks { assert SweptAt(s, n, s.tasks[t].agent) && AgentOk(s, s.tasks[t].agent); }
    }
    forall i: Id ensures QuantumOk(n, i) { assert QuantumOk(s, i); }
    forall i: Id ensures RecoveryOk(n, i) { assert RecoveryOk(s, i) && SweptAt(s, n, i); }
    forall i: Id ensures AgentOk(n, i) { SweptAgent(s, n, i); }
    forall i: Id ensures FamilyOk(n, i) {
      assert FamilyOk(s, i) && SweptAt(s, n, i);
      if i < |s.agents| && s.agents[i].parent.Some? { assert SweptAt(s, n, s.agents[i].parent.value); }
    }
  }

  lemma CancelScopeKeeps(s: State, root: Id)
    requires Inv(s)
    ensures Inv(CancelScope(s, root))
  {
    var n := CancelScope(s, root);
    forall i: Id ensures SweptAt(s, n, i) {
      assert QuantumOk(s, i);
      if i < |s.agents| { CancelGoalOf(s.agents, root, i, s.quanta.Keys, s.recoveries.Keys); }
    }
    SweepKeeps(s, n);
  }

  lemma ReconcileKeeps(s: State)
    requires Inv(s)
    ensures Inv(ReconcileScopes(s))
  {
    var n := ReconcileScopes(s);
    InvIsRooted(s);
    forall i: Id ensures SweptAt(s, n, i) { ReconcileSweeps(s, i); }
    SweepKeeps(s, n);
  }

  lemma AbortedAt(s: State, roots: set<Id>, i: Id)
    requires QuantumOk(s, i) && i in s.quanta
    ensures s.quanta[i] in Abort(s, roots)
    ensures Abort(s, roots)[s.quanta[i]].aborted <==> s.tasks[s.quanta[i]].aborted || Root(s.agents, i) in roots
  {
  }

  lemma ReconciledAt(s: State, i: Id)
    requires i < |s.agents|
    ensures ReconcileScopes(s).agents[i] ==
            if Root(s.agents, i) !in s.dirty then s.agents[i]
            else SettleTree(s.agents, Root(s.agents, i), s.quanta.Keys, s.recoveries.Keys)[i]
  {
  }

  lemma ReconcileSweeps(s: State, i: Id)
    requires Inv(s) && Rooted(s.agents)
    ensures SweptAt(s, ReconcileScopes(s), i)
  {
    hide FenceOf, Respected, Settle, Abort, TaskOk, CancelTree, CompleteTree;
    if i < |s.agents| {
      assert QuantumOk(s, i);
      if i in s.quanta { AbortedAt(s, BrokenRoots(s), i); }
      ReconciledAt(s, i);
      if Root(s.agents, i) in s.dirty {
        if Broken(s.agents, Root(s.agents, i)) {
          CancelGoalOf(s.agents, Root(s.agents, i), i, s.quanta.Keys, s.recoveries.Keys);
        } else {
          CompletionSweeps(s, i);
        }
      }
    }
  }

  lemma CompletionSweeps(s: State, i: Id)
    requires Inv(s) && Rooted(s.agents) && i < |s.agents| && Root(s.agents, i) in s.dirty && !Broken(s.agents, Root(s.agents, i))
    ensures SweptAt(s, ReconcileScopes(s), i)
  {
    hide FenceOf, Respected;
    var root := Root(s.agents, i);
    assert QuantumOk(s, i) && !Hurt(s.agents[i]);
    GoalOf(s.agents, root, i);
    if Finishes(s.agents, i) {
      forall c: nat | c < |s.agents| && s.agents[c].parent == Some(i) ensures ReconcileScopes(s).agents[c].status.Completed? {
        GoalOf(s.agents, root, c);
      }
    }
  }

  lemma TaskFacts(s: State, t: nat)
    requires t in s.tasks && Inv(s)
    ensures s.tasks[t].agent < |s.agents|
    ensures var task, agent := s.tasks[t], s.agents[s.tasks[t].agent];
            && (Live(task.phase) ==> (task.aborted <==> agent.requested))
            && (task.phase.Validating? ==> agent.status.Checking?)
            && (task.phase.Stepping? ==> agent.status.Running?)
            && (agent.status.Ready? ==> !agent.requested && (task.phase.Queued? ==> !task.aborted))
  {
    assert TaskOk(s, t) && AgentOk(s, s.tasks[t].agent);
  }

  lemma SkippedKeeps(s: State, t: nat)
    requires At(s, t, Queued) && Inv(s)
    ensures Inv(To(s, t, Ended))
  {
    var id := s.tasks[t].agent;
    assert TaskOk(s, t) && AgentOk(s, id) && QuantumOk(s, id) && RecoveryOk(s, id);
    OneAgentKeeps(s, To(s, t, Ended), id);
  }

  lemma BeginKeeps(s: State, t: nat, runOpen: bool)
    requires At(s, t, Queued) && Inv(s)
    ensures Inv(ApplyBegin(s, t, runOpen))
  {
    hide Inv, Root, Settle, ChainOpen, ReconcileScopes, Record, To;
    var id := s.tasks[t].agent;
    var agent := s.agents[id];
    TaskFacts(s, t);
    if s.stopping || !agent.status.Ready? {
      SkippedKeeps(s, t);
    } else {
      var b := EnsureRunBudget(s, agent.run);
      MemoryKeeps(s, b);
      if agent.stepsUsed >= agent.maxSteps || UsageOf(s, agent.run).stepsUsed >= BudgetOf(s, agent.run).maxSteps {
        EndKeeps(b, t, agent.(status := Paused, requested := false), BudgetExhausted, ApplyBegin(s, t, runOpen));
      } else if !runOpen || !ScopeOpen(s, id) {
        var n := To(Record(b, id, agent.(status := Status.Failed, requested := false), Transition.Failure), t, Ended);
        EndKeeps(b, t, agent.(status := Status.Failed, requested := false), Transition.Failure, n);
        ReconcileKeeps(n);
      } else {
        MoveKeeps(b, t, agent.(status := Checking), Check, Validating, ApplyBegin(s, t, runOpen));
      }
    }
  }

  lemma ValidatedKeeps(s: State, t: nat, verdict: Verdict)
    requires At(s, t, Validating) && Inv(s)
    ensures Inv(ApplyValidated(s, t, verdict))
  {
    hide Inv, Root, Settle, ChainOpen, ReconcileScopes, Record, To;
    var id, aborted := s.tasks[t].agent, s.tasks[t].aborted;
    var agent := s.agents[id];
    TaskFacts(s, t);
    if aborted || verdict.Threw? || !ScopeOpen(s, id) {
      var transition := if aborted then Interruption else Transition.Failure;
      var stopped := agent.(status := if aborted then Interrupted else Status.Failed, pauseRequested := false, requested := aborted);
      EndKeeps(s, t, stopped, transition, To(Record(s, id, stopped, transition), t, Ended));
      ReconcileKeeps(To(Record(s, id, stopped, transition), t, Ended));
    } else if verdict.NotValid? || agent.pauseRequested || s.stopping {
      EndKeeps(s, t, agent.(status := Paused, pauseRequested := false, requested := false), if s.stopping then ShutdownRequest else PauseRecord, ApplyValidated(s, t, verdict));
    } else if UsageOf(s, agent.run).stepsUsed >= BudgetOf(s, agent.run).maxSteps {
      EndKeeps(s, t, agent.(status := Paused, requested := false), BudgetExhausted, ApplyValidated(s, t, verdict));
    } else {
      MoveKeeps(s, t, agent.(status := Running, stepsUsed := agent.stepsUsed + 1), StepStart, Stepping(true), ApplyValidated(s, t, verdict));
    }
  }

  lemma FinishKeeps(s: State, t: nat, outcome: StepOutcome)
    requires At(s, t, Stepping(false)) && Inv(s)
    ensures Inv(ApplyFinish(s, t, outcome))
  {
    hide Inv, Root, Settle, ChainOpen, ReconcileScopes, Record, To;
    var id, aborted := s.tasks[t].agent, s.tasks[t].aborted;
    var agent := s.agents[id];
    TaskFacts(s, t);
    if aborted || outcome.Broke? {
      var stopped := agent.(status := Interrupted, pauseRequested := false, requested := aborted);
      EndKeeps(s, t, stopped, Interruption, To(Record(s, id, stopped, Interruption), t, Ended));
      ReconcileKeeps(To(Record(s, id, stopped, Interruption), t, Ended));
    } else {
      var pause := outcome.MoreToDo? && (agent.pauseRequested || agent.stepsUsed >= agent.maxSteps);
      var status := if pause then Paused else if outcome.MoreToDo? then Ready else if HasChildren(s, id) then Waiting else Completed;
      EndKeeps(s, t, agent.(status := status, pauseRequested := false, requested := false, checkpoint := outcome.checkpoint), StepCompletion, ApplyFinish(s, t, outcome));
    }
  }

  lemma PhaseKeeps(s: State, t: nat)
    requires Inv(s) && At(s, t, Stepping(true))
    ensures Inv(To(s, t, Stepping(false)))
  {
    var id := s.tasks[t].agent;
    assert TaskOk(s, t) && AgentOk(s, id) && QuantumOk(s, id) && RecoveryOk(s, id);
    OneAgentKeeps(s, To(s, t, Stepping(false)), id);
  }

  lemma ReopenedAgentOk(s: State, budget: Budget, i: Id)
    requires Inv(s)
    ensures AgentOk(Reopened(s, budget), i)
  {
    hide FenceOf, Respected, Root;
    assert AgentOk(s, i);
    if i < |s.agents| {
      LogStep(s.agents[i].(status := Interrupted, requested := false), HostRecovery);
      LogStep(s.agents[i].(status := Paused, requested := false), HostRecovery);
    }
  }

  lemma ReopenedOk(s: State, budget: Budget)
    requires Inv(s)
    ensures Inv(Reopened(s, budget))
  {
    forall i: Id ensures AgentOk(Reopened(s, budget), i) { ReopenedAgentOk(s, budget, i); }
    forall i: Id ensures FamilyOk(Reopened(s, budget), i) { assert FamilyOk(s, i); }
  }

  // ---- every step

  /** No agent is dispatched again before its last quantum was finalized. */
  predicate Disciplined(s: State, a: Action) {
    a.Dispatch? ==> a.id !in s.quanta
  }

  lemma StepKeeps(max: nat, s: State, a: Action)
    requires Inv(s) && Enabled(max, s, a) && Disciplined(s, a)
    ensures Inv(Apply(max, s, a))
  {
    hide Inv, ApplyBegin, ApplyValidated, ApplyFinish, ApplyRecoverEnd, ReconcileScopes, Reopened, CancelScope, Record, Root;
    match a
    case Create(run, parent, maxSteps, checkpoint) => CreateKeeps(max, s, run, parent, maxSteps, checkpoint);
    case Pause(id) => PauseKeeps(max, s, id);
    case Resume(id) => ResumeKeeps(max, s, id);
    case Interrupt(id) =>
      var root := Root(s.agents, id);
      if root !in s.interruptions {
        CancelScopeKeeps(s, root);
        MemoryKeeps(CancelScope(s, root), ApplyInterrupt(s, root));
      }
    case BarrierSettled(_) => MemoryKeeps(s, Apply(max, s, a));
    case Restore(id, k) => RestoreKeeps(max, s, id, k);
    case RecoverBegin(id) => RecoverBeginKeeps(max, s, id);
    case RecoverEnd(id, how) => RecoverEndKeeps(s, id, how);
    case RecoverySettled(id) => RecoverySettledKeeps(max, s, id);
    case Dispatch(id) => DispatchKeeps(max, s, id);
    case Begin(t, runOpen) => BeginKeeps(s, t, runOpen);
    case Validated(t, verdict) => ValidatedKeeps(s, t, verdict);
    case Reserve(_, _) => MemoryKeeps(s, Apply(max, s, a));
    case Release(_) => MemoryKeeps(s, Apply(max, s, a));
    case Returned(t) => PhaseKeeps(s, t);
    case Finish(t, outcome) => FinishKeeps(s, t, outcome);
    case Finalize(t) => FinalizeKeeps(max, s, t);
    case Reconcile => ReconcileKeeps(s);
    case Shutdown => MemoryKeeps(s, Apply(max, s, a));
    case ShutdownPause(id) => ShutdownPauseKeeps(max, s, id);
    case Restart(budget) =>
      ReopenedOk(s, budget);
      ReconcileKeeps(Reopened(s, budget));
  }

  /** The invariant does not look at barriers, reservations, budgets or the stopping flag. */
  lemma MemoryKeeps(s: State, n: State)
    requires Inv(s) && n.agents == s.agents && n.tasks == s.tasks && n.nextToken == s.nextToken
    requires n.quanta == s.quanta && n.recoveries == s.recoveries
    ensures Inv(n)
  {
    forall t: nat ensures TaskOk(n, t) { assert TaskOk(s, t); }
    forall i: Id ensures QuantumOk(n, i) { assert QuantumOk(s, i); }
    forall i: Id ensures RecoveryOk(n, i) { assert RecoveryOk(s, i); }
    forall i: Id ensures AgentOk(n, i) { assert AgentOk(s, i); }
    forall i: Id ensures FamilyOk(n, i) { assert FamilyOk(s, i); }
  }
}
