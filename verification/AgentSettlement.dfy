/** Only dirty trees can be out of order, so after a reconciliation every tree is settled. */
module AgentSettlement {
  import opened AgentScopes
  import opened AgentRuntime
  import opened AgentReconcile
  import opened AgentRuntimeSafety

  ghost predicate RootOk(s: State, r: Id) {
    r < |s.agents| && s.agents[r].parent == None && r !in s.dirty ==> TreeSettled(s.agents, r)
  }

  ghost predicate Tidy(s: State) {
    Rooted(s.agents) && forall r: Id {:trigger RootOk(s, r)} :: RootOk(s, r)
  }

  /** Whether a tree is settled depends on its members alone. */
  lemma SameMembersSettledAlike(a: seq<Agent>, b: seq<Agent>, r: Id)
    requires Rooted(a) && SameShape(a, b) && TreeSettled(a, r)
    requires forall i: nat | i < |a| && Root(a, i) == r :: b[i].status == a[i].status && b[i].requested == a[i].requested
    ensures TreeSettled(b, r)
  {
    forall i: nat | i < |a| ensures Root(a, i) == Root(b, i) { ShapeKeeps(a, b, r, i); }
    assert Broken(a, r) <==> Broken(b, r);
    forall i: nat | i < |b| && Root(b, i) == r && !Broken(b, r) && b[i].status.Waiting?
      ensures exists c: nat :: c < |b| && b[c].parent == Some(i) && !b[c].status.Completed?
    {
      var c: nat :| c < |a| && a[c].parent == Some(i) && !a[c].status.Completed?;
      assert Root(a, c) == r;
    }
  }

  lemma SameAgentsTidy(s: State, n: State)
    requires Tidy(s) && n.agents == s.agents && s.dirty <= n.dirty
    ensures Tidy(n)
  {
    forall r: Id ensures RootOk(n, r) { assert RootOk(s, r); }
  }

  lemma RecordTidy(s: State, id: Id, after: Agent, transition: Transition)
    requires id < |s.agents| && Tidy(s)
    ensures Tidy(Record(s, id, after, transition))
  {
    var n := Record(s, id, after, transition);
    assert SameShape(s.agents, n.agents);
    forall r: Id ensures RootOk(n, r) {
      assert RootOk(s, r);
      if r < |n.agents| && n.agents[r].parent == None && r !in n.dirty {
        SameMembersSettledAlike(s.agents, n.agents, r);
      }
    }
  }

  lemma SettleTidies(s: State)
    requires Rooted(s.agents) && Tidy(s)
    ensures Tidy(ReconcileScopes(s)) && ReconcileScopes(s).dirty == {}
  {
    var n := ReconcileScopes(s);
    forall i: nat | i < |s.agents| ensures n.agents[i].parent == s.agents[i].parent && n.agents[i].run == s.agents[i].run {
      SettledShape(s, i);
    }
    forall r: Id ensures RootOk(n, r) {
      if r < |n.agents| && n.agents[r].parent == None { SettledRoot(s, r); }
    }
  }

  lemma SettledShape(s: State, i: Id)
    requires i < |s.agents|
    ensures ReconcileScopes(s).agents[i].parent == s.agents[i].parent && ReconcileScopes(s).agents[i].run == s.agents[i].run
  {
    ReconciledAt(s, i);
    CancelGoalOf(s.agents, Root(s.agents, i), i, s.quanta.Keys, s.recoveries.Keys);
    GoalOf(s.agents, Root(s.agents, i), i);
  }

  lemma SettledRoot(s: State, r: Id)
    requires r < |s.agents| && s.agents[r].parent == None && Tidy(s)
    ensures TreeSettled(ReconcileScopes(s).agents, r)
  {
    hide Settle, SettleTree, Root, Finishes;
    var n := ReconcileScopes(s);
    forall i: nat | i < |s.agents| ensures n.agents[i].parent == s.agents[i].parent && n.agents[i].run == s.agents[i].run { SettledShape(s, i); }
    forall i: nat | i < |s.agents| ensures n.agents[i] == if Root(s.agents, i) in s.dirty then SettleTree(s.agents, Root(s.agents, i), s.quanta.Keys, s.recoveries.Keys)[i] else s.agents[i] {
      ReconciledAt(s, i);
    }
    if r in s.dirty {
      var once := SettleTree(s.agents, r, s.quanta.Keys, s.recoveries.Keys);
      SettledTreeIsSettled(s.agents, r, s.quanta.Keys, s.recoveries.Keys);
      forall i: nat | i < |s.agents| ensures Root(once, i) == Root(s.agents, i) { ShapeKeeps(s.agents, once, r, i); }
      SameMembersSettledAlike(once, n.agents, r);
    } else {
      assert RootOk(s, r);
      SameMembersSettledAlike(s.agents, n.agents, r);
    }
  }

  lemma InterruptTidy(s: State, root: Id)
    requires Tidy(s)
    ensures Tidy(ApplyInterrupt(s, root))
  {
    var n := ApplyInterrupt(s, root);
    forall i: nat | i < |s.agents|
      ensures n.agents[i].parent == s.agents[i].parent && n.agents[i].run == s.agents[i].run && (Root(s.agents, i) != root ==> n.agents[i] == s.agents[i])
    {
      CancelGoalOf(s.agents, root, i, s.quanta.Keys, s.recoveries.Keys);
    }
    forall r: Id ensures RootOk(n, r) {
      assert RootOk(s, r);
      if r < |n.agents| && n.agents[r].parent == None && r !in n.dirty && n.agents != s.agents {
        SameMembersSettledAlike(s.agents, n.agents, r);
      }
    }
  }

  // ---- a new member

  lemma {:induction false} LongerSameRoot(agents: seq<Agent>, a: Agent, i: Id)
    requires i < |agents|
    ensures Root(agents + [a], i) == Root(agents, i)
    decreases i
  {
    if agents[i].parent.Some? && agents[i].parent.value < i { LongerSameRoot(agents, a, agents[i].parent.value); }
  }

  lemma CreateTidy(max: nat, s: State, run: nat, parent: Option<Id>, maxSteps: nat, checkpoint: Data)
    requires Enabled(max, s, Create(run, parent, maxSteps, checkpoint)) && Tidy(s)
    ensures Tidy(Apply(max, s, Create(run, parent, maxSteps, checkpoint)))
  {
    var n := Apply(max, s, Create(run, parent, maxSteps, checkpoint));
    var a := n.agents[|s.agents|];
    assert n.agents == s.agents + [a];
    forall r: Id ensures RootOk(n, r) {
      assert RootOk(s, r);
      if r < |n.agents| && n.agents[r].parent == None && r !in n.dirty {
        assert r < |s.agents|;
        LongerSettledAlike(s.agents, a, r);
      }
    }
  }

  lemma LongerSettledAlike(agents: seq<Agent>, a: Agent, r: Id)
    requires Rooted(agents) && TreeSettled(agents, r) && Root(agents + [a], |agents|) != r
    ensures TreeSettled(agents + [a], r)
  {
    var longer := agents + [a];
    forall i: nat | i < |agents| ensures Root(longer, i) == Root(agents, i) && longer[i] == agents[i] { LongerSameRoot(agents, a, i); }
    TreeSettledBy(agents, r);
    TreeSettledBy(longer, r);
    hide TreeSettled, Root;
    assert Broken(agents, r) <==> Broken(longer, r);
    forall i: nat | i < |longer| && Root(longer, i) == r && !Broken(longer, r) && longer[i].status.Waiting?
      ensures exists c: nat :: c < |longer| && longer[c].parent == Some(i) && !longer[c].status.Completed?
    {
      var c: nat :| c < |agents| && agents[c].parent == Some(i) && !agents[c].status.Completed?;
      assert longer[c] == agents[c];
    }
  }

  // ---- every step

  lemma EndTidy(s: State, t: nat, after: Agent, transition: Transition, phase: Phase)
    requires t in s.tasks && s.tasks[t].agent < |s.agents| && Tidy(s)
    ensures var n := To(Record(s, s.tasks[t].agent, after, transition), t, phase); Tidy(n) && Tidy(ReconcileScopes(n))
  {
    hide ReconcileScopes;
    RecordTidy(s, s.tasks[t].agent, after, transition);
    var n := To(Record(s, s.tasks[t].agent, after, transition), t, phase);
    SameAgentsTidy(Record(s, s.tasks[t].agent, after, transition), n);
    SettleTidies(n);
  }

  lemma BeginTidy(s: State, t: nat, runOpen: bool)
    requires At(s, t, Queued) && Tidy(s)
    ensures Tidy(ApplyBegin(s, t, runOpen))
  {
    hide ReconcileScopes, Root, ChainOpen, Record, Tidy;
    var agent := s.agents[s.tasks[t].agent];
    SameAgentsTidy(s, To(s, t, Ended));
    if !s.stopping && agent.status.Ready? {
      var b := EnsureRunBudget(s, agent.run);
      SameAgentsTidy(s, b);
      EndTidy(b, t, agent.(status := Paused, requested := false), BudgetExhausted, Ended);
      EndTidy(b, t, agent.(status := Status.Failed, requested := false), Transition.Failure, Ended);
      EndTidy(b, t, agent.(status := Checking), Check, Validating);
    }
  }

  lemma ValidatedTidy(s: State, t: nat, verdict: Verdict)
    requires At(s, t, Validating) && Tidy(s)
    ensures Tidy(ApplyValidated(s, t, verdict))
  {
    hide ReconcileScopes, Root, ChainOpen, Record, To, Tidy;
    var aborted, agent := s.tasks[t].aborted, s.agents[s.tasks[t].agent];
    EndTidy(s, t, agent.(status := if aborted then Interrupted else Status.Failed, pauseRequested := false, requested := aborted),
            if aborted then Interruption else Transition.Failure, Ended);
    EndTidy(s, t, agent.(status := Paused, pauseRequested := false, requested := false), if s.stopping then ShutdownRequest else PauseRecord, Ended);
    EndTidy(s, t, agent.(status := Paused, requested := false), BudgetExhausted, Ended);
    EndTidy(s, t, agent.(status := Running, stepsUsed := agent.stepsUsed + 1), StepStart, Stepping(true));
  }

  lemma FinishTidy(s: State, t: nat, outcome: StepOutcome)
    requires At(s, t, Stepping(false)) && Tidy(s)
    ensures Tidy(ApplyFinish(s, t, outcome))
  {
    hide ReconcileScopes, Root, Record, To, Tidy;
    var aborted, agent := s.tasks[t].aborted, s.agents[s.tasks[t].agent];
    EndTidy(s, t, agent.(status := Interrupted, pauseRequested := false, requested := aborted), Interruption, Ended);
    if !outcome.Broke? {
      var pause := outcome.MoreToDo? && (agent.pauseRequested || agent.stepsUsed >= agent.maxSteps);
      var status := if pause then Paused else if outcome.MoreToDo? then Ready else if HasChildren(s, s.tasks[t].agent) then Waiting else Completed;
      EndTidy(s, t, agent.(status := status, pauseRequested := false, requested := false, checkpoint := outcome.checkpoint), StepCompletion, Ended);
    }
  }

  lemma RecoverEndTidy(s: State, id: Id, how: RecoveryOutcome)
    requires OpenRecovery(s, id) && Tidy(s)
    ensures Tidy(ApplyRecoverEnd(s, id, how))
  {
    hide Record, Root, Tidy;
    var previous := s.recoveries[id].previous;
    var after, transition :=
      if s.agents[id].requested then previous.(status := Interrupted, pauseRequested := false, requested := true)
      else if how.Prepared? then AfterRestore(s.agents[id], how.k) else previous,
      if s.agents[id].requested then if how.Failure? then RecoveryFailed else RecoveryInterrupted
      else if how.Prepared? then Restoration(how.k) else if how.Nothing? then RecoveryAbandoned else RecoveryFailed;
    RecordTidy(s, id, after, transition);
    SameAgentsTidy(Record(s, id, after, transition), ApplyRecoverEnd(s, id, how));
  }

  lemma ReopenedTidy(s: State, budget: Budget)
    requires Tidy(s)
    ensures Tidy(ReconcileScopes(Reopened(s, budget)))
  {
    var n := Reopened(s, budget);
    forall r: Id ensures RootOk(n, r) {
      if r < |n.agents| && n.agents[r].parent == None { assert Root(s.agents, r) == r; }
    }
    SettleTidies(n);
  }

  lemma StepTidy(max: nat, s: State, a: Action)
    requires Enabled(max, s, a) && Tidy(s)
    ensures Tidy(Apply(max, s, a))
  {
    hide Tidy, ApplyBegin, ApplyValidated, ApplyFinish, ApplyRecoverEnd, ReconcileScopes, Reopened, ApplyInterrupt, Root, Record, ChainOpen, ApplyCreate;
    var n := Apply(max, s, a);
    match a
    case Create(run, parent, maxSteps, checkpoint) => CreateTidy(max, s, run, parent, maxSteps, checkpoint);
    case Pause(id) =>
      var active := s.agents[id].status in {Running, Checking, Recovering};
      RecordTidy(s, id, s.agents[id].(pauseRequested := active, status := if active then s.agents[id].status else Paused, requested := false), PauseRequest);
    case Resume(id) =>
      SameAgentsTidy(s, EnsureRunBudget(s, s.agents[id].run));
      RecordTidy(EnsureRunBudget(s, s.agents[id].run), id, s.agents[id].(status := Ready, pauseRequested := false, requested := false), Resumption);
    case Interrupt(id) => InterruptTidy(s, Root(s.agents, id));
    case Restore(id, k) => RecordTidy(s, id, AfterRestore(s.agents[id], k), Restoration(k));
    case RecoverBegin(id) =>
      RecordTidy(s, id, s.agents[id].(status := Recovering, pauseRequested := false, requested := false), RecoveryStart);
      SameAgentsTidy(Record(s, id, s.agents[id].(status := Recovering, pauseRequested := false, requested := false), RecoveryStart), n);
    case RecoverEnd(id, how) => RecoverEndTidy(s, id, how);
    case Begin(t, runOpen) => BeginTidy(s, t, runOpen);
    case Validated(t, verdict) => ValidatedTidy(s, t, verdict);
    case Finish(t, outcome) => FinishTidy(s, t, outcome);
    case Reconcile => TidyIsRooted(s); SettleTidies(s);
    case ShutdownPause(id) => RecordTidy(s, id, s.agents[id].(status := Paused, pauseRequested := false, requested := false), ShutdownRequest);
    case Restart(budget) => ReopenedTidy(s, budget);
    case _ => SameAgentsTidy(s, n);
  }

  lemma TidyIsRooted(s: State)
    requires Tidy(s)
    ensures Rooted(s.agents)
  {
  }

  /** After a reconciliation, on every run: a tree with a failed or interrupted member has only
      completed, failed, interrupted or interrupt-requested members, and in every other tree no waiting
      agent has only completed children. */
  lemma {:induction false} ReconciledTreesAreSettled(max: nat, budget: Budget, actions: seq<Action>)
    requires Run(max, budget, actions).Some?
    ensures Tidy(Run(max, budget, actions).value)
    ensures var after := ReconcileScopes(Run(max, budget, actions).value);
            after.dirty == {} && forall r: Id | r < |after.agents| && after.agents[r].parent == None :: TreeSettled(after.agents, r)
    decreases |actions|
  {
    hide ReconcileScopes, TreeSettled, Apply, Enabled, Root;
    if actions != [] {
      var front, last := actions[..|actions| - 1], actions[|actions| - 1];
      ReconciledTreesAreSettled(max, budget, front);
      StepTidy(max, Run(max, budget, front).value, last);
    }
    var s := Run(max, budget, actions).value;
    SettleTidies(s);
    forall r: Id | r < |ReconcileScopes(s).agents| && ReconcileScopes(s).agents[r].parent == None ensures TreeSettled(ReconcileScopes(s).agents, r) {
      assert RootOk(ReconcileScopes(s), r);
    }
  }
}
