/** What holds on every run of the agent runtime, and the one configuration whose runs all keep the
    interruption fence. */
module AgentRuntimeRuns {
  import opened AgentScopes
  import opened AgentFence
  import opened AgentRuntime
  import opened AgentReconcile
  import opened AgentRuntimeSafety

  // ---- the fence

  /** At every dispatch of the run the agent's previous quantum had been finalized. */
  ghost predicate DisciplinedRun(max: nat, budget: Budget, actions: seq<Action>)
    decreases |actions|
  {
    actions == []
    || (DisciplinedRun(max, budget, actions[..|actions| - 1])
        && (var before := Run(max, budget, actions[..|actions| - 1]);
            before.Some? ==> Disciplined(before.value, actions[|actions| - 1])))
  }

  lemma {:induction false} RunKeeps(max: nat, budget: Budget, actions: seq<Action>)
    requires Run(max, budget, actions).Some? && DisciplinedRun(max, budget, actions)
    ensures Inv(Run(max, budget, actions).value)
    decreases |actions|
  {
    if actions != [] {
      var front, last := actions[..|actions| - 1], actions[|actions| - 1];
      RunKeeps(max, budget, front);
      StepKeeps(max, Run(max, budget, front).value, last);
    }
  }

  /** With one agent at a time there is nothing registered when an agent is dispatched. */
  lemma {:induction false} OneAtATimeIsDisciplined(budget: Budget, actions: seq<Action>)
    requires Run(1, budget, actions).Some?
    ensures DisciplinedRun(1, budget, actions)
    decreases |actions|
  {
    if actions != [] {
      var front, last := actions[..|actions| - 1], actions[|actions| - 1];
      OneAtATimeIsDisciplined(budget, front);
      RunKeeps(1, budget, front);
      var before := Run(1, budget, front).value;
      if last.Dispatch? {
        assert |before.tasks| == |before.tasks.Keys| < 1;
        assert before.tasks.Keys == {};
        assert QuantumOk(before, last.id);
      }
    }
  }

  ghost predicate Fences(s: State) {
    forall i: Id | i < |s.agents| :: FenceHolds(s.agents[i].log)
  }

  /** No member of an interrupted tree starts or completes a step before it was restored and resumed. */
  lemma FenceOnDisciplinedRuns(max: nat, budget: Budget, actions: seq<Action>)
    requires Run(max, budget, actions).Some? && DisciplinedRun(max, budget, actions)
    ensures Fences(Run(max, budget, actions).value)
  {
    RunKeeps(max, budget, actions);
    var s := Run(max, budget, actions).value;
    forall i: Id | i < |s.agents| ensures FenceHolds(s.agents[i].log) {
      assert AgentOk(s, i);
      FenceHoldsExactly(s.agents[i].log);
    }
  }

  /** An interruption closes the fence of every member that can still act, and aborts its quantum. */
  lemma InterruptFencesTheTree(s: State, root: Id, i: Id)
    requires Inv(s) && i < |s.agents| && Root(s.agents, i) == root && root !in s.interruptions
    ensures var after := ApplyInterrupt(s, root);
            && (after.agents[i].status in {Completed, Status.Failed} || FenceOf(after.agents[i].log).Fenced?)
            && (i in s.quanta ==> s.quanta[i] in after.tasks && after.tasks[s.quanta[i]].aborted)
  {
    hide FenceOf, Respected, CancelTree, Abort;
    CancelScopeKeeps(s, root);
    CancelGoalOf(s.agents, root, i, s.quanta.Keys, s.recoveries.Keys);
    assert QuantumOk(s, i) && AgentOk(CancelScope(s, root), i) && Stopped(CancelScope(s, root).agents[i]);
    if i in s.quanta { AbortedAt(s, {root}, i); }
  }

  // ---- completed trees

  /** A completed agent has only completed descendants. */
  lemma {:induction false} CompletedBelow(s: State, top: Id, i: Id)
    requires Inv(s) && top < |s.agents| && i < |s.agents| && Under(s.agents, top, i) && s.agents[top].status.Completed?
    ensures s.agents[i].status.Completed?
    decreases i
  {
    if i != top {
      CompletedBelow(s, top, s.agents[i].parent.value);
      assert FamilyOk(s, i);
    }
  }
}
