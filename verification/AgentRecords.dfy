/** The journal of the agent runtime, on every run: what the runtime holds is what a replay of its journal
    gives, and when that is also what was recorded. */
module AgentRecords {
  import opened AgentScopes
  import opened AgentRuntime
  import opened AgentReconcile
  import opened AgentRuntimeSafety
  import opened AgentRuntimeRuns
  import J = AgentJournal

  // ---- the journal of one agent

  const SELF: J.AgentId := "agent"
  const INPUT: J.Data := "input"

  function StandingIn(e: Event): Standing {
    Standing(e.status, e.pauseRequested, e.requested, e.stepsUsed)
  }

  function StandingOf(a: Agent): Standing {
    Standing(a.status, a.pauseRequested, a.requested, a.stepsUsed)
  }

  function TransitionOf(t: Transition): J.Transition {
    match t
    case Creation => J.Created
    case StepCompletion => J.StepCompleted
    case Restoration(_) => J.Restored
    case _ => J.Other("")
  }

  /** What `append` writes of an event. */
  function Written(e: Event): J.Payload {
    J.V2(TransitionOf(e.transition), J.Control(SELF, StandingIn(e)),
         if e.transition.Creation? then J.Some(INPUT) else J.None,
         if e.data.Some? then J.Some(e.data.value) else J.None,
         if e.transition.Restoration? then J.Some(e.transition.ref + 1) else J.None)
  }

  function JournalOf(log: seq<Event>): (j: J.Journal)
    ensures |j| == |log| && forall k | 0 <= k < |j| :: j[k] == J.Event(k + 1, Written(log[k]))
  {
    if log == [] then [] else JournalOf(log[..|log| - 1]) + [J.Event(|log|, Written(log[|log| - 1]))]
  }

  function StateOf(standing: Standing, checkpoint: Data): J.AgentState {
    J.AgentState(J.Control(SELF, standing), INPUT, checkpoint)
  }

  predicate Introduces(t: Transition) {
    t.Creation? || t.StepCompletion?
  }

  /** A journal starts with a creation, writes data where it is introduced, and refers back to listed
      events. */
  predicate WellLogged(log: seq<Event>) {
    && log != [] && log[0].transition.Creation?
    && (forall k | 0 <= k < |log| :: log[k].data.Some? <==> Introduces(log[k].transition))
    && (forall k: nat | k < |log| && log[k].transition.Restoration? :: log[k].transition.ref < k && Listed(log, log[k].transition.ref))
  }

  // ---- references lead back to what `checkpoints` lists

  lemma {:induction false} LeadEarlier(log: seq<Event>, n: nat, k: nat)
    requires k < n <= |log|
    ensures Lead(log[..n], k) == Lead(log, k)
    decreases k
  {
    if log[k].data.None? && log[k].transition.Restoration? && log[k].transition.ref < k { LeadEarlier(log, n, log[k].transition.ref); }
  }

  lemma {:induction false} ListedLeadsBack(log: seq<Event>, k: nat)
    requires WellLogged(log) && Listed(log, k)
    ensures Lead(log, k).Some? && Lead(log, k) == Replayed(log[..k + 1]) && Lead(log, k) == Some(Saved(log, k))
    decreases k
  {
    var front := log[..k + 1];
    assert front[..k] == log[..k] && front[k] == log[k];
    if log[k].transition.Restoration? {
      LeadEarlier(log, k, log[k].transition.ref);
      ListedLeadsBack(log, log[k].transition.ref);
    }
  }

  /** And exactly those events: from no other one does a reference lead anywhere, and no other one changes the checkpoint. */
  lemma ListsExactlyCheckpoints(log: seq<Event>, k: nat)
    requires WellLogged(log) && k < |log|
    ensures Listed(log, k) <==> Lead(log, k).Some?
    ensures !Listed(log, k) ==> k > 0 && Replayed(log[..k + 1]) == Replayed(log[..k])
  {
    if Listed(log, k) { ListedLeadsBack(log, k); }
    assert log[..k + 1][..k] == log[..k] && log[..k + 1][k] == log[k];
  }

  /** Following references in the journal is following them in the log. */
  lemma {:induction false} LeadIsRead(log: seq<Event>, k: nat)
    requires WellLogged(log) && k < |log|
    ensures J.ReadCheckpoint(JournalOf(log), k + 1, SELF) == (if Lead(log, k).Some? then J.Some(Lead(log, k).value) else J.None)
    decreases k
  {
    hide J.Find;
    J.FindAt(JournalOf(log), k);
    assert JournalOf(log)[k] == J.Event(k + 1, Written(log[k]));
    if log[k].transition.Restoration? { LeadIsRead(log, log[k].transition.ref); }
  }

  lemma WellLoggedFront(log: seq<Event>)
    requires WellLogged(log) && |log| > 1
    ensures WellLogged(log[..|log| - 1])
  {
    var front := log[..|log| - 1];
    forall k: nat | k < |front| && front[k].transition.Restoration? ensures front[k].transition.ref < k && Listed(front, front[k].transition.ref) {
      assert log[k].transition.Restoration?;
    }
  }

  /** Replaying an agent's journal from empty gives its standing and the checkpoint it leads to. */
  lemma {:induction false} ReplayGives(log: seq<Event>)
    requires WellLogged(log)
    ensures Replayed(log).Some?
    ensures J.Replay(JournalOf(log)) == J.Some(map[SELF := StateOf(StandingIn(log[|log| - 1]), Replayed(log).value)])
    decreases |log|
  {
    var n := |log| - 1;
    var front, j := log[..n], JournalOf(log);
    assert j[..n] == JournalOf(front);
    if n == 0 {
      assert JournalOf(front) == [] && J.Replay(j[..n]) == J.Some(map[]);
    } else {
      WellLoggedFront(log);
      ReplayGives(front);
    }
    var before := J.Replay(j[..n]).value;
    LastIsProjected(log, J.Lookup(before, SELF));
    assert before[SELF := StateOf(StandingIn(log[n]), Replayed(log).value)] == map[SELF := StateOf(StandingIn(log[n]), Replayed(log).value)];
    assert J.Replay(j) == J.Step(j, before, j[n]);
  }

  lemma {:induction false} LastIsProjected(log: seq<Event>, previous: J.Option<J.AgentState>)
    requires WellLogged(log)
    requires |log| > 1 ==>
      Replayed(log[..|log| - 1]).Some? && previous == J.Some(StateOf(StandingIn(log[|log| - 2]), Replayed(log[..|log| - 1]).value))
    ensures Replayed(log).Some?
    ensures J.Project(JournalOf(log), JournalOf(log)[|log| - 1], previous) == J.Some(StateOf(StandingIn(log[|log| - 1]), Replayed(log).value))
  {
    var n := |log| - 1;
    var e := log[n];
    if e.transition.Restoration? {
      var ref := e.transition.ref;
      LeadIsRead(log, ref);
      LeadEarlier(log, n, ref);
      ListedLeadsBack(log, ref);
    }
  }

  // ---- what every record keeps

  /** The agent is the projection of its log. */
  ghost predicate LogOk(a: Agent) {
    WellLogged(a.log) && Replayed(a.log) == Some(a.checkpoint) && StandingIn(a.log[|a.log| - 1]) == StandingOf(a)
  }

  /** What was recorded is what the projection became, event by event. */
  ghost predicate Honest(log: seq<Event>) {
    forall k | 0 <= k < |log| :: Replayed(log[..k + 1]) == Some(log[k].recorded)
  }

  predicate HasEnded(status: Status) {
    status in {Completed, Status.Failed}
  }

  /** Nothing follows an end. */
  ghost predicate EndsLast(log: seq<Event>) {
    forall k | 0 <= k < |log| - 1 :: !HasEnded(log[k].status)
  }

  /** The recorded state has the checkpoint that the written event leads to. */
  predicate KeepsData(was: Agent, after: Agent, t: Transition) {
    match t
    case StepCompletion => true
    case Restoration(k) => after.checkpoint == Saved(was.log, k)
    case _ => after.checkpoint == was.checkpoint
  }

  /** The written event leads to the checkpoint that the projection takes over. */
  lemma FiledLeads(was: Agent, after: Agent, t: Transition)
    requires LogOk(was) && !t.Creation? && (t.Restoration? ==> Listed(was.log, t.ref))
    ensures Replayed(Filed(was, after, t).log) == Some(Filed(was, after, t).checkpoint)
    ensures KeepsData(was, after, t) ==> Filed(was, after, t).checkpoint == after.checkpoint
  {
    hide Lead, Saved;
    assert Filed(was, after, t).log[..|was.log|] == was.log;
    if t.Restoration? { ListedLeadsBack(was.log, t.ref); }
  }

  lemma FiledIsWellLogged(was: Agent, after: Agent, t: Transition)
    requires WellLogged(was.log) && !t.Creation? && (t.Restoration? ==> Listed(was.log, t.ref))
    ensures WellLogged(Filed(was, after, t).log)
  {
    hide Lead, Saved, Projected;
  }

  lemma FiledOk(was: Agent, after: Agent, t: Transition)
    requires LogOk(was) && !t.Creation? && (t.Restoration? ==> Listed(was.log, t.ref))
    ensures var b := Filed(was, after, t);
            && LogOk(b) && b.stepsUsed == after.stepsUsed && b.status == after.status
            && (Honest(was.log) && KeepsData(was, after, t) ==> Honest(b.log))
            && (EndsLast(was.log) && !HasEnded(was.status) ==> EndsLast(b.log))
  {
    FiledLeads(was, after, t);
    FiledIsWellLogged(was, after, t);
    FiledIsHonest(was, after, t);
    hide Lead, Saved, Projected, Replayed, WellLogged, KeepsData, Honest;
  }

  lemma FiledIsHonest(was: Agent, after: Agent, t: Transition)
    requires LogOk(was) && !t.Creation? && (t.Restoration? ==> Listed(was.log, t.ref))
    ensures Honest(was.log) && KeepsData(was, after, t) ==> Honest(Filed(was, after, t).log)
  {
    FiledLeads(was, after, t);
    hide Lead, Saved, Projected, Replayed, WellLogged, KeepsData;
    var b, n := Filed(was, after, t), |was.log|;
    forall k | 0 <= k < n ensures b.log[..k + 1] == was.log[..k + 1] && b.log[k] == was.log[k] {}
    assert b.log[..n + 1] == b.log && b.log[n] == EventOf(after, t);
  }

  /** `Logged` is `Filed` where the checkpoint stays. */
  lemma LoggedOk(was: Agent, after: Agent, t: Transition)
    requires LogOk(was) && !Introduces(t) && !t.Restoration?
    requires after.parent == was.parent && after.run == was.run && after.log == was.log && after.checkpoint == was.checkpoint
    ensures var b := Logged(after, t);
            && LogOk(b) && b.checkpoint == was.checkpoint && (Honest(was.log) ==> Honest(b.log))
            && (EndsLast(was.log) && !HasEnded(was.status) ==> EndsLast(b.log))
  {
    assert Filed(was, after, t) == Logged(after, t);
    FiledOk(was, after, t);
  }

  lemma CreatedOk(a: Agent)
    requires a.log == []
    ensures LogOk(Logged(a, Creation)) && Honest(Logged(a, Creation).log) && EndsLast(Logged(a, Creation).log)
  {
    var log := Logged(a, Creation).log;
    assert log[..1] == log;
  }

  ghost predicate LogsOk(s: State) {
    forall i: Id {:trigger s.agents[i]} | i < |s.agents| :: LogOk(s.agents[i])
  }

  ghost predicate AllHonest(s: State) {
    forall i: Id {:trigger s.agents[i]} | i < |s.agents| :: Honest(s.agents[i].log)
  }

  ghost predicate AllEndLast(s: State) {
    forall i: Id {:trigger s.agents[i]} | i < |s.agents| :: EndsLast(s.agents[i].log)
  }

  /** From `s` to `n` the logs stay in order; honest ones stay honest if `faithful`, and nothing follows an
      end if `alive`. */
  ghost predicate Carries(s: State, n: State, faithful: bool, alive: bool) {
    && (LogsOk(s) ==> LogsOk(n))
    && (LogsOk(s) && AllHonest(s) && faithful ==> AllHonest(n))
    && (LogsOk(s) && AllEndLast(s) && alive ==> AllEndLast(n))
  }

  lemma SameAgents(s: State, n: State)
    requires n.agents == s.agents
    ensures Carries(s, n, true, true)
  {
  }

  lemma ThenCarries(s: State, m: State, n: State, faithful: bool, alive: bool)
    requires Carries(s, m, faithful, alive) && Carries(m, n, true, true)
    ensures Carries(s, n, faithful, alive)
  {
  }

  lemma RecordCarries(s: State, id: Id, after: Agent, t: Transition)
    requires id < |s.agents| && !t.Creation? && (t.Restoration? ==> Listed(s.agents[id].log, t.ref))
    ensures Carries(s, Record(s, id, after, t), KeepsData(s.agents[id], after, t), !HasEnded(s.agents[id].status))
  {
    hide LogOk, Honest, EndsLast, Filed;
    var n := Record(s, id, after, t);
    assert forall i: Id | i < |n.agents| :: n.agents[i] == if i == id then Filed(s.agents[id], after, t) else s.agents[i];
    if LogsOk(s) { FiledOk(s.agents[id], after, t); }
    hide Record;
    assert Filed(s.agents[id], after, t) == n.agents[id];
    RecordCarriesOne(s, n, id, KeepsData(s.agents[id], after, t), !HasEnded(s.agents[id].status));
  }

  lemma RecordCarriesOne(s: State, n: State, id: Id, faithful: bool, alive: bool)
    requires id < |s.agents| == |n.agents| && forall i: Id | i < |n.agents| && i != id :: n.agents[i] == s.agents[i]
    requires LogsOk(s) ==> LogOk(n.agents[id]) && (Honest(s.agents[id].log) && faithful ==> Honest(n.agents[id].log))
                           && (EndsLast(s.agents[id].log) && alive ==> EndsLast(n.agents[id].log))
    ensures Carries(s, n, faithful, alive)
  {
    hide LogOk, Honest, EndsLast;
  }

  lemma CancelOk(a: Agent, active: bool)
    requires LogOk(a)
    ensures LogOk(Cancel(a, active)) && Cancel(a, active).checkpoint == a.checkpoint
    ensures (Honest(a.log) ==> Honest(Cancel(a, active).log)) && (EndsLast(a.log) ==> EndsLast(Cancel(a, active).log))
  {
    hide LogOk, Honest, EndsLast, Logged;
    if !Stopped(a) {
      LoggedOk(a, a.(status := if active then a.status else Interrupted, pauseRequested := false, requested := true),
               if active then InterruptRequest else Interruption);
    }
  }

  lemma CompleteOk(a: Agent)
    requires LogOk(a) && a.status.Waiting?
    ensures LogOk(Complete(a)) && Complete(a).checkpoint == a.checkpoint
    ensures (Honest(a.log) ==> Honest(Complete(a).log)) && (EndsLast(a.log) ==> EndsLast(Complete(a).log))
  {
    hide LogOk, Honest, EndsLast, Logged;
    LoggedOk(a, a.(status := Completed, requested := false), ScopeCompletion);
  }

  /** Agent by agent: unchanged, cancelled or completed. */
  predicate Swept1(a: Agent, b: Agent) {
    b == a || b == Cancel(a, true) || b == Cancel(a, false) || (a.status.Waiting? && b == Complete(a))
  }

  lemma SweepCarries(s: State, n: State)
    requires |n.agents| == |s.agents| && forall i: Id | i < |s.agents| :: Swept1(s.agents[i], n.agents[i])
    ensures Carries(s, n, true, true)
  {
    hide LogOk, Honest, EndsLast;
    if LogsOk(s) {
      forall i: Id | i < |s.agents|
        ensures LogOk(n.agents[i]) && (Honest(s.agents[i].log) ==> Honest(n.agents[i].log)) && (EndsLast(s.agents[i].log) ==> EndsLast(n.agents[i].log))
      {
        hide Cancel, Complete;
        CancelOk(s.agents[i], true);
        CancelOk(s.agents[i], false);
        if s.agents[i].status.Waiting? { CompleteOk(s.agents[i]); }
      }
    }
  }

  lemma CancelTreeSweeps(s: State, root: Id, i: Id)
    requires i < |s.agents|
    ensures Swept1(s.agents[i], CancelTree(s.agents, root, s.quanta.Keys, s.recoveries.Keys)[i])
  {
    CancelGoalOf(s.agents, root, i, s.quanta.Keys, s.recoveries.Keys);
  }

  lemma ReconcileCarries(s: State)
    ensures Carries(s, ReconcileScopes(s), true, true)
  {
    hide Carries, LogsOk, AllHonest, AllEndLast, Cancel, Complete, CancelTree, CompleteTree, Settle;
    var n := ReconcileScopes(s);
    forall i: Id | i < |s.agents| ensures Swept1(s.agents[i], n.agents[i]) {
      ReconciledAt(s, i);
      CancelTreeSweeps(s, Root(s.agents, i), i);
      GoalOf(s.agents, Root(s.agents, i), i);
    }
    SweepCarries(s, n);
  }

  lemma InterruptCarries(s: State, root: Id)
    ensures Carries(s, ApplyInterrupt(s, root), true, true)
  {
    hide Carries, LogsOk, AllHonest, AllEndLast, Cancel, Complete, CancelTree;
    var n := ApplyInterrupt(s, root);
    if root in s.interruptions {
      SameAgents(s, n);
    } else {
      forall i: Id | i < |s.agents| ensures Swept1(s.agents[i], n.agents[i]) { CancelTreeSweeps(s, root, i); }
      SweepCarries(s, n);
    }
  }

  lemma ReopenCarries(s: State, budget: Budget)
    ensures Carries(s, Reopened(s, budget), true, true)
  {
    hide LogOk, Honest, EndsLast, Logged;
    var n := Reopened(s, budget);
    if LogsOk(s) {
      forall i: Id | i < |s.agents|
        ensures LogOk(n.agents[i]) && (Honest(s.agents[i].log) ==> Honest(n.agents[i].log)) && (EndsLast(s.agents[i].log) ==> EndsLast(n.agents[i].log))
      {
        var a := s.agents[i];
        LoggedOk(a, a.(status := Interrupted, requested := false), HostRecovery);
        LoggedOk(a, a.(status := Paused, requested := false), HostRecovery);
      }
    }
  }

  // ---- every action

  /** The saved state of an open recovery still has its agent's checkpoint. */
  ghost predicate SavedIsCurrent(s: State, id: Id) {
    OpenRecovery(s, id) ==> s.recoveries[id].previous.checkpoint == s.agents[id].checkpoint
  }

  ghost predicate Current(s: State) {
    forall id: Id {:trigger SavedIsCurrent(s, id)} :: SavedIsCurrent(s, id)
  }

  lemma Weaker(s: State, n: State, faithful: bool, alive: bool, f: bool, a: bool)
    requires Carries(s, n, faithful, alive) && (f ==> faithful) && (a ==> alive)
    ensures Carries(s, n, f, a)
  {
  }

  ghost predicate CarriesOn(s: State, n: State, alive: bool) {
    Carries(s, n, true, alive) && Carries(s, ReconcileScopes(n), true, alive)
  }

  /** A record on a task that moves on, and a reconciliation after it. */
  lemma TaskCarries(s: State, t: nat, after: Agent, transition: Transition, phase: Phase, alive: bool, n: State)
    requires t in s.tasks && s.tasks[t].agent < |s.agents| && n == To(Record(s, s.tasks[t].agent, after, transition), t, phase)
    requires !transition.Creation? && !transition.Restoration?
    requires transition.StepCompletion? || after.checkpoint == s.agents[s.tasks[t].agent].checkpoint
    requires alive ==> !HasEnded(s.agents[s.tasks[t].agent].status)
    ensures CarriesOn(s, n, alive)
  {
    hide Carries, ReconcileScopes, Record;
    var r := Record(s, s.tasks[t].agent, after, transition);
    RecordCarries(s, s.tasks[t].agent, after, transition);
    Weaker(s, r, true, !HasEnded(s.agents[s.tasks[t].agent].status), true, alive);
    SameAgents(r, n);
    ThenCarries(s, r, n, true, alive);
    ReconcileCarries(n);
    ThenCarries(s, n, ReconcileScopes(n), true, alive);
  }

  lemma BeginCarries(s: State, t: nat, runOpen: bool)
    requires At(s, t, Queued)
    ensures Carries(s, ApplyBegin(s, t, runOpen), true, true)
  {
    hide Carries, ReconcileScopes, Record, ChainOpen;
    var agent := s.agents[s.tasks[t].agent];
    var b := EnsureRunBudget(s, agent.run);
    SameAgents(s, To(s, t, Ended));
    if !s.stopping && agent.status.Ready? {
      SameAgents(s, b);
      TaskCarries(b, t, agent.(status := Paused, requested := false), BudgetExhausted, Ended, true,
                  To(Record(b, b.tasks[t].agent, agent.(status := Paused, requested := false), BudgetExhausted), t, Ended));
      TaskCarries(b, t, agent.(status := Status.Failed, requested := false), Transition.Failure, Ended, true,
                  To(Record(b, b.tasks[t].agent, agent.(status := Status.Failed, requested := false), Transition.Failure), t, Ended));
      TaskCarries(b, t, agent.(status := Checking), Check, Validating, true,
                  To(Record(b, b.tasks[t].agent, agent.(status := Checking), Check), t, Validating));
      var n := ApplyBegin(s, t, runOpen);
      Through(s, b, n);
    }
  }

  lemma Through(s: State, b: State, n: State)
    requires b.agents == s.agents && Carries(b, n, true, true)
    ensures Carries(s, n, true, true)
  {
  }

  lemma ValidatedCarries(s: State, t: nat, verdict: Verdict)
    requires At(s, t, Validating)
    ensures Carries(s, ApplyValidated(s, t, verdict), true, Inv(s))
  {
    hide Carries, ReconcileScopes, Record, ChainOpen, Inv;
    var agent, aborted, alive := s.agents[s.tasks[t].agent], s.tasks[t].aborted, Inv(s);
    if alive { TaskFacts(s, t); }
    TaskCarries(s, t, agent.(status := if aborted then Interrupted else Status.Failed, pauseRequested := false, requested := aborted), if aborted then Interruption else Transition.Failure, Ended, alive,
                  To(Record(s, s.tasks[t].agent, agent.(status := if aborted then Interrupted else Status.Failed, pauseRequested := false, requested := aborted), if aborted then Interruption else Transition.Failure), t, Ended));
    TaskCarries(s, t, agent.(status := Paused, pauseRequested := false, requested := false), if s.stopping then ShutdownRequest else PauseRecord, Ended, alive,
                  To(Record(s, s.tasks[t].agent, agent.(status := Paused, pauseRequested := false, requested := false), if s.stopping then ShutdownRequest else PauseRecord), t, Ended));
    TaskCarries(s, t, agent.(status := Paused, requested := false), BudgetExhausted, Ended, alive,
                  To(Record(s, s.tasks[t].agent, agent.(status := Paused, requested := false), BudgetExhausted), t, Ended));
    TaskCarries(s, t, agent.(status := Running, stepsUsed := agent.stepsUsed + 1), StepStart, Stepping(true), alive,
                  To(Record(s, s.tasks[t].agent, agent.(status := Running, stepsUsed := agent.stepsUsed + 1), StepStart), t, Stepping(true)));
  }

  lemma FinishCarries(s: State, t: nat, outcome: StepOutcome)
    requires At(s, t, Stepping(false))
    ensures Carries(s, ApplyFinish(s, t, outcome), true, Inv(s))
  {
    hide Carries, ReconcileScopes, Record, HasChildren, Inv;
    var id, aborted, alive := s.tasks[t].agent, s.tasks[t].aborted, Inv(s);
    var agent := s.agents[id];
    if alive { TaskFacts(s, t); }
    if aborted || outcome.Broke? {
      TaskCarries(s, t, agent.(status := Interrupted, pauseRequested := false, requested := aborted), Interruption, Ended, alive,
                  To(Record(s, s.tasks[t].agent, agent.(status := Interrupted, pauseRequested := false, requested := aborted), Interruption), t, Ended));
    } else {
      var pause := outcome.MoreToDo? && (agent.pauseRequested || agent.stepsUsed >= agent.maxSteps);
      var status := if pause then Paused else if outcome.MoreToDo? then Ready else if HasChildren(s, id) then Waiting else Completed;
      TaskCarries(s, t, agent.(status := status, pauseRequested := false, requested := false, checkpoint := outcome.checkpoint), StepCompletion, Ended, alive,
                  To(Record(s, s.tasks[t].agent, agent.(status := status, pauseRequested := false, requested := false, checkpoint := outcome.checkpoint), StepCompletion), t, Ended));
    }
  }

  lemma RecoverEndCarries(s: State, id: Id, how: RecoveryOutcome)
    requires OpenRecovery(s, id) && (how.Prepared? ==> Listed(s.agents[id].log, how.k))
    ensures Carries(s, ApplyRecoverEnd(s, id, how), SavedIsCurrent(s, id), Inv(s))
  {
    hide Carries, Record, Inv, Saved, Listed;
    var previous, alive := s.recoveries[id].previous, Inv(s);
    if alive { OpenIsRecovering(s, id); }
    var after, t :=
      if s.agents[id].requested then previous.(status := Interrupted, pauseRequested := false, requested := true)
      else if how.Prepared? then AfterRestore(s.agents[id], how.k) else previous,
      if s.agents[id].requested then if how.Failure? then RecoveryFailed else RecoveryInterrupted
      else if how.Prepared? then Restoration(how.k) else if how.Nothing? then RecoveryAbandoned else RecoveryFailed;
    RecordCarries(s, id, after, t);
    Weaker(s, Record(s, id, after, t), KeepsData(s.agents[id], after, t), !HasEnded(s.agents[id].status), SavedIsCurrent(s, id), alive);
    SameAgents(Record(s, id, after, t), ApplyRecoverEnd(s, id, how));
    ThenCarries(s, Record(s, id, after, t), ApplyRecoverEnd(s, id, how), SavedIsCurrent(s, id), alive);
  }

  lemma OpenIsRecovering(s: State, id: Id)
    requires Inv(s) && OpenRecovery(s, id)
    ensures s.agents[id].status.Recovering?
  {
    assert RecoveryOk(s, id);
  }

  /** An action that records one agent that can still act. */
  lemma OneCarries(s: State, id: Id, after: Agent, t: Transition, n: State)
    requires id < |s.agents| && !t.Creation? && (t.Restoration? ==> Listed(s.agents[id].log, t.ref))
    requires n.agents == Record(s, id, after, t).agents && KeepsData(s.agents[id], after, t) && !HasEnded(s.agents[id].status)
    ensures Carries(s, n, true, true)
  {
    hide Carries, Record;
    RecordCarries(s, id, after, t);
    SameAgents(Record(s, id, after, t), n);
    ThenCarries(s, Record(s, id, after, t), n, true, true);
  }

  lemma CreateCarries(s: State, run: nat, parent: Option<Id>, maxSteps: nat, checkpoint: Data)
    ensures Carries(s, ApplyCreate(s, run, parent, maxSteps, checkpoint), true, true)
  {
    hide LogOk, Honest, EndsLast, Logged, Root;
    CreatedOk(Agent(parent, run, maxSteps, 0, Ready, false, false, checkpoint, []));
  }

  /** Every action: what was recorded is what is projected, unless a recovery ends with a saved state that
      the projection has left behind; and under the invariant nothing is recorded of an ended agent. */
  lemma StepCarries(max: nat, s: State, a: Action)
    requires Enabled(max, s, a)
    ensures Carries(s, Apply(max, s, a), a.RecoverEnd? ==> SavedIsCurrent(s, a.id), Inv(s))
  {
    hide Carries, ApplyBegin, ApplyValidated, ApplyFinish, ApplyRecoverEnd, ApplyCreate, ApplyInterrupt, ReconcileScopes, Reopened, Record, Root, Inv,
         SavedIsCurrent, Listed, Saved, ChainOpen, Under;
    var n := Apply(max, s, a);
    match a
    case Create(run, parent, maxSteps, checkpoint) => CreateCarries(s, run, parent, maxSteps, checkpoint); Strong(s, n, Inv(s));
    case Pause(id) =>
      var active := s.agents[id].status in {Running, Checking, Recovering};
      OneCarries(s, id, s.agents[id].(pauseRequested := active, status := if active then s.agents[id].status else Paused, requested := false), PauseRequest, n);
      Strong(s, n, Inv(s));
    case Resume(id) =>
      var b := EnsureRunBudget(s, s.agents[id].run);
      OneCarries(b, id, s.agents[id].(status := Ready, pauseRequested := false, requested := false), Resumption, n);
      Through(s, b, n);
      Strong(s, n, Inv(s));
    case Interrupt(id) => InterruptCarries(s, Root(s.agents, id)); Strong(s, n, Inv(s));
    case BarrierSettled(_) => SameAgents(s, n); Strong(s, n, Inv(s));
    case Restore(id, k) => OneCarries(s, id, AfterRestore(s.agents[id], k), Restoration(k), n); Strong(s, n, Inv(s));
    case RecoverBegin(id) =>
      OneCarries(s, id, s.agents[id].(status := Recovering, pauseRequested := false, requested := false), RecoveryStart, n);
      Strong(s, n, Inv(s));
    case RecoverEnd(id, how) => RecoverEndCarries(s, id, how);
    case RecoverySettled(_) => SameAgents(s, n); Strong(s, n, Inv(s));
    case Dispatch(_) => SameAgents(s, n); Strong(s, n, Inv(s));
    case Begin(t, runOpen) => BeginCarries(s, t, runOpen); Strong(s, n, Inv(s));
    case Validated(t, verdict) => ValidatedCarries(s, t, verdict);
    case Reserve(_, _) => SameAgents(s, n); Strong(s, n, Inv(s));
    case Release(_) => SameAgents(s, n); Strong(s, n, Inv(s));
    case Returned(_) => SameAgents(s, n); Strong(s, n, Inv(s));
    case Finish(t, outcome) => FinishCarries(s, t, outcome);
    case Finalize(_) => SameAgents(s, n); Strong(s, n, Inv(s));
    case Reconcile => ReconcileCarries(s); Strong(s, n, Inv(s));
    case Shutdown => SameAgents(s, n); Strong(s, n, Inv(s));
    case ShutdownPause(id) =>
      OneCarries(s, id, s.agents[id].(status := Paused, pauseRequested := false, requested := false), ShutdownRequest, n);
      Strong(s, n, Inv(s));
    case Restart(budget) =>
      ReopenCarries(s, budget);
      ReconcileCarries(Reopened(s, budget));
      ThenCarries(s, Reopened(s, budget), n, true, true);
      Strong(s, n, Inv(s));
  }

  lemma Strong(s: State, n: State, alive: bool)
    requires Carries(s, n, true, true)
    ensures Carries(s, n, true, alive)
  {
  }

  // ---- runs

  lemma SettleKeepsCheckpoints(s: State, i: Id)
    requires i < |s.agents|
    ensures |ReconcileScopes(s).agents| == |s.agents| && ReconcileScopes(s).agents[i].checkpoint == s.agents[i].checkpoint
  {
    ReconciledAt(s, i);
    CancelGoalOf(s.agents, Root(s.agents, i), i, s.quanta.Keys, s.recoveries.Keys);
    GoalOf(s.agents, Root(s.agents, i), i);
  }

  /** A record leaves every other agent alone, and its own agent's checkpoint where it introduces none. */
  lemma RecordSpares(s: State, id: Id, after: Agent, t: Transition, i: Id)
    requires id < |s.agents| && i < |s.agents| && (i == id ==> !Introduces(t) && !t.Restoration?)
    ensures Record(s, id, after, t).agents[i].checkpoint == s.agents[i].checkpoint
  {
    hide Root, Lead;
  }

  lemma TaskSpares(s: State, t: nat, after: Agent, transition: Transition, phase: Phase, n: State, i: Id)
    requires t in s.tasks && s.tasks[t].agent < |s.agents| && i < |s.agents| && s.tasks[t].agent != i
    requires n == To(Record(s, s.tasks[t].agent, after, transition), t, phase)
    ensures i < |n.agents| == |ReconcileScopes(n).agents|
    ensures n.agents[i].checkpoint == ReconcileScopes(n).agents[i].checkpoint == s.agents[i].checkpoint
  {
    hide Root, ReconcileScopes;
    RecordSpares(s, s.tasks[t].agent, after, transition, i);
    SettleKeepsCheckpoints(n, i);
  }

  /** While a recovery owns its agent, only that recovery changes the agent's checkpoint. */
  lemma CheckpointStays(max: nat, s: State, a: Action, id: Id)
    requires Inv(s) && Enabled(max, s, a) && OpenRecovery(s, id) && !(a.RecoverEnd? && a.id == id) && !a.Restart?
    ensures id < |Apply(max, s, a).agents| && Apply(max, s, a).agents[id].checkpoint == s.agents[id].checkpoint
  {
    hide Inv, ChainOpen, Under, ReconcileScopes, Record, Root, CancelTree, Listed, Saved, UsageOf, BudgetOf, AfterRestore, ApplyBegin, ApplyValidated, ApplyFinish;
    OpenIsRecovering(s, id);
    match a
    case Pause(_) => RecordingSpares(max, s, a, id);
    case Resume(_) => RecordingSpares(max, s, a, id);
    case Restore(_, _) => RecordingSpares(max, s, a, id);
    case RecoverBegin(_) => RecordingSpares(max, s, a, id);
    case ShutdownPause(_) => RecordingSpares(max, s, a, id);
    case Interrupt(_) => CancelGoalOf(s.agents, Root(s.agents, a.id), id, s.quanta.Keys, s.recoveries.Keys);
    case RecoverEnd(i, how) => OtherRecoveryEnds(s, i, how, id);
    case Begin(t, runOpen) => OtherBegins(s, t, runOpen, id);
    case Validated(t, verdict) => TaskFacts(s, t); OtherIsValidated(s, t, verdict, id);
    case Finish(t, outcome) => TaskFacts(s, t); OtherFinishes(s, t, outcome, id);
    case Reconcile => SettleKeepsCheckpoints(s, id);
    case _ =>
  }

  /** Actions that record one agent and move nothing else. */
  lemma RecordingSpares(max: nat, s: State, a: Action, id: Id)
    requires a.Pause? || a.Resume? || a.Restore? || a.RecoverBegin? || a.ShutdownPause?
    requires Enabled(max, s, a) && OpenRecovery(s, id) && s.agents[id].status.Recovering?
    ensures id < |Apply(max, s, a).agents| && Apply(max, s, a).agents[id].checkpoint == s.agents[id].checkpoint
  {
    hide ChainOpen, Under, ReconcileScopes, Record, Root, Listed, Saved;
    match a
    case Pause(i) =>
      var active := s.agents[i].status in {Running, Checking, Recovering};
      RecordSpares(s, i, s.agents[i].(pauseRequested := active, status := if active then s.agents[i].status else Paused, requested := false), PauseRequest, id);
    case Resume(i) =>
      RecordSpares(EnsureRunBudget(s, s.agents[i].run), i, s.agents[i].(status := Ready, pauseRequested := false, requested := false), Resumption, id);
    case Restore(i, k) => RecordSpares(s, i, AfterRestore(s.agents[i], k), Restoration(k), id);
    case RecoverBegin(i) => RecordSpares(s, i, s.agents[i].(status := Recovering, pauseRequested := false, requested := false), RecoveryStart, id);
    case ShutdownPause(i) => RecordSpares(s, i, s.agents[i].(status := Paused, pauseRequested := false, requested := false), ShutdownRequest, id);
    case _ =>
  }

  lemma OtherRecoveryEnds(s: State, i: Id, how: RecoveryOutcome, id: Id)
    requires OpenRecovery(s, i) && i != id && id < |s.agents|
    ensures id < |ApplyRecoverEnd(s, i, how).agents| && ApplyRecoverEnd(s, i, how).agents[id].checkpoint == s.agents[id].checkpoint
  {
    hide Record, Saved;
    var previous := s.recoveries[i].previous;
    RecordSpares(s, i, previous.(status := Interrupted, pauseRequested := false, requested := true), if how.Failure? then RecoveryFailed else RecoveryInterrupted, id);
    RecordSpares(s, i, previous, if how.Nothing? then RecoveryAbandoned else RecoveryFailed, id);
    if how.Prepared? { RecordSpares(s, i, AfterRestore(s.agents[i], how.k), Restoration(how.k), id); }
  }

  lemma OtherBegins(s: State, t: nat, runOpen: bool, id: Id)
    requires At(s, t, Queued) && id < |s.agents| && s.agents[id].status.Recovering?
    ensures id < |ApplyBegin(s, t, runOpen).agents| && ApplyBegin(s, t, runOpen).agents[id].checkpoint == s.agents[id].checkpoint
  {
    hide Record, ReconcileScopes, ScopeOpen, ChainOpen, Under, UsageOf, BudgetOf, EnsureRunBudget;
    var who, agent := s.tasks[t].agent, s.agents[s.tasks[t].agent];
    if !s.stopping && agent.status.Ready? {
      var b := EnsureRunBudget(s, agent.run);
      SameButBudget(s, agent.run);
      TaskSpares(b, t, agent.(status := Paused, requested := false), BudgetExhausted, Ended,
                 To(Record(b, who, agent.(status := Paused, requested := false), BudgetExhausted), t, Ended), id);
      TaskSpares(b, t, agent.(status := Status.Failed, requested := false), Transition.Failure, Ended,
                 To(Record(b, who, agent.(status := Status.Failed, requested := false), Transition.Failure), t, Ended), id);
      TaskSpares(b, t, agent.(status := Checking), Check, Validating, To(Record(b, who, agent.(status := Checking), Check), t, Validating), id);
    }
  }

  lemma SameButBudget(s: State, run: nat)
    ensures var b := EnsureRunBudget(s, run); b.agents == s.agents && b.tasks == s.tasks
  {
  }

  lemma OtherIsValidated(s: State, t: nat, verdict: Verdict, id: Id)
    requires At(s, t, Validating) && id < |s.agents| && s.tasks[t].agent != id
    ensures id < |ApplyValidated(s, t, verdict).agents| && ApplyValidated(s, t, verdict).agents[id].checkpoint == s.agents[id].checkpoint
  {
    hide Record, ReconcileScopes, ChainOpen;
    var who, agent, aborted := s.tasks[t].agent, s.agents[s.tasks[t].agent], s.tasks[t].aborted;
    var stopped, why := agent.(status := if aborted then Interrupted else Status.Failed, pauseRequested := false, requested := aborted),
                        if aborted then Interruption else Transition.Failure;
    var paused, reason := agent.(status := Paused, pauseRequested := false, requested := false), if s.stopping then ShutdownRequest else PauseRecord;
    TaskSpares(s, t, stopped, why, Ended, To(Record(s, who, stopped, why), t, Ended), id);
    TaskSpares(s, t, paused, reason, Ended, To(Record(s, who, paused, reason), t, Ended), id);
    TaskSpares(s, t, agent.(status := Paused, requested := false), BudgetExhausted, Ended,
               To(Record(s, who, agent.(status := Paused, requested := false), BudgetExhausted), t, Ended), id);
    TaskSpares(s, t, agent.(status := Running, stepsUsed := agent.stepsUsed + 1), StepStart, Stepping(true),
               To(Record(s, who, agent.(status := Running, stepsUsed := agent.stepsUsed + 1), StepStart), t, Stepping(true)), id);
  }

  lemma OtherFinishes(s: State, t: nat, outcome: StepOutcome, id: Id)
    requires At(s, t, Stepping(false)) && id < |s.agents| && s.tasks[t].agent != id
    ensures id < |ApplyFinish(s, t, outcome).agents| && ApplyFinish(s, t, outcome).agents[id].checkpoint == s.agents[id].checkpoint
  {
    hide Record, ReconcileScopes, HasChildren;
    var who, agent, aborted := s.tasks[t].agent, s.agents[s.tasks[t].agent], s.tasks[t].aborted;
    if aborted || outcome.Broke? {
      var stopped := agent.(status := Interrupted, pauseRequested := false, requested := aborted);
      TaskSpares(s, t, stopped, Interruption, Ended, To(Record(s, who, stopped, Interruption), t, Ended), id);
    } else {
      var pause := outcome.MoreToDo? && (agent.pauseRequested || agent.stepsUsed >= agent.maxSteps);
      var status := if pause then Paused else if outcome.MoreToDo? then Ready else if HasChildren(s, who) then Waiting else Completed;
      var done := agent.(status := status, pauseRequested := false, requested := false, checkpoint := outcome.checkpoint);
      TaskSpares(s, t, done, StepCompletion, Ended, To(Record(s, who, done, StepCompletion), t, Ended), id);
    }
  }

  /** What an action makes of the open recoveries. */
  lemma RecoveriesAfter(max: nat, s: State, a: Action)
    requires Enabled(max, s, a)
    ensures Apply(max, s, a).recoveries ==
            match a
            case RecoverBegin(id) => s.recoveries[id := Recovery(s.agents[id], false)]
            case RecoverEnd(id, _) => s.recoveries[id := s.recoveries[id].(done := true)]
            case RecoverySettled(id) => s.recoveries - {id}
            case Restart(_) => map[]
            case _ => s.recoveries
  {
    if a.RecoverBegin? || a.RecoverEnd? || a.RecoverySettled? || a.Restart? {
      hide CanRestore, Listed, Saved, Record, Settle, BrokenRoots, Abort;
    } else {
      LeavesRecoveries(max, s, a);
      hide Apply, Enabled;
    }
  }

  lemma LeavesRecoveries(max: nat, s: State, a: Action)
    requires Enabled(max, s, a) && !a.RecoverBegin? && !a.RecoverEnd? && !a.RecoverySettled? && !a.Restart?
    ensures Apply(max, s, a).recoveries == s.recoveries
  {
    hide ChainOpen, Under, Root, CancelTree, Listed, Saved, Record, AfterRestore, ReconcileScopes, UsageOf, BudgetOf, Abort, ApplyBegin, ApplyValidated, ApplyFinish;
    match a
    case Begin(t, runOpen) => BeginLeavesRecoveries(s, t, runOpen);
    case Validated(t, verdict) => ValidatedLeavesRecoveries(s, t, verdict);
    case Finish(t, outcome) => FinishLeavesRecoveries(s, t, outcome);
    case _ =>
  }

  lemma BeginLeavesRecoveries(s: State, t: nat, runOpen: bool)
    requires At(s, t, Queued)
    ensures ApplyBegin(s, t, runOpen).recoveries == s.recoveries
  {
    hide ChainOpen, Record, Settle, UsageOf, BudgetOf, BrokenRoots, Abort;
  }

  lemma ValidatedLeavesRecoveries(s: State, t: nat, verdict: Verdict)
    requires At(s, t, Validating)
    ensures ApplyValidated(s, t, verdict).recoveries == s.recoveries
  {
    hide ChainOpen, Record, Settle, UsageOf, BudgetOf, BrokenRoots, Abort;
  }

  lemma FinishLeavesRecoveries(s: State, t: nat, outcome: StepOutcome)
    requires At(s, t, Stepping(false))
    ensures ApplyFinish(s, t, outcome).recoveries == s.recoveries
  {
    hide HasChildren, Record, Settle, UsageOf, BudgetOf, BrokenRoots, Abort;
  }

  lemma RecoveryWasOpen(max: nat, s: State, a: Action, id: Id)
    requires Enabled(max, s, a) && OpenRecovery(Apply(max, s, a), id) && !(a.RecoverBegin? && a.id == id) && (id in s.recoveries ==> id < |s.agents|)
    ensures OpenRecovery(s, id) && Apply(max, s, a).recoveries[id].previous == s.recoveries[id].previous
    ensures !(a.RecoverEnd? && a.id == id) && !a.Restart?
  {
    RecoveriesAfter(max, s, a);
    hide Apply, Enabled;
  }

  lemma RecoveryHasAgent(s: State, id: Id)
    requires Inv(s) && id in s.recoveries
    ensures id < |s.agents|
  {
    assert RecoveryOk(s, id);
  }

  lemma CurrentKeeps(max: nat, s: State, a: Action)
    requires Inv(s) && Current(s) && Enabled(max, s, a)
    ensures Current(Apply(max, s, a))
  {
    hide Inv, Enabled, Apply;
    var n := Apply(max, s, a);
    forall id: Id ensures SavedIsCurrent(n, id) {
      if OpenRecovery(n, id) {
        if a.RecoverBegin? && a.id == id {
          BeginsCurrent(max, s, id);
        } else {
          if id in s.recoveries { RecoveryHasAgent(s, id); }
          RecoveryWasOpen(max, s, a, id);
          CheckpointStays(max, s, a, id);
          assert SavedIsCurrent(s, id);
        }
      }
    }
  }

  lemma BeginsCurrent(max: nat, s: State, id: Id)
    requires Enabled(max, s, RecoverBegin(id))
    ensures SavedIsCurrent(Apply(max, s, RecoverBegin(id)), id)
  {
    hide ChainOpen, Under, Record;
    RecordSpares(s, id, s.agents[id].(status := Recovering, pauseRequested := false, requested := false), RecoveryStart, id);
  }

  lemma {:induction false} RunLogs(max: nat, budget: Budget, actions: seq<Action>)
    requires Run(max, budget, actions).Some?
    ensures LogsOk(Run(max, budget, actions).value)
    decreases |actions|
  {
    hide LogOk, Apply, Enabled, AllHonest, AllEndLast, SavedIsCurrent, Inv;
    if actions != [] {
      var front, last := actions[..|actions| - 1], actions[|actions| - 1];
      RunLogs(max, budget, front);
      StepCarries(max, Run(max, budget, front).value, last);
    }
  }

  /** On every run, restarts included: the state that the runtime holds of an agent is what a replay of the
      agent's journal from empty gives. */
  lemma ProjectionIsReplay(max: nat, budget: Budget, actions: seq<Action>, i: Id)
    requires Run(max, budget, actions).Some? && i < |Run(max, budget, actions).value.agents|
    ensures var a := Run(max, budget, actions).value.agents[i];
            J.Replay(JournalOf(a.log)) == J.Some(map[SELF := StateOf(StandingOf(a), a.checkpoint)])
  {
    RunLogs(max, budget, actions);
    assert LogOk(Run(max, budget, actions).value.agents[i]);
    ReplayGives(Run(max, budget, actions).value.agents[i].log);
  }

  lemma {:induction false} DisciplinedRunRecords(max: nat, budget: Budget, actions: seq<Action>)
    requires Run(max, budget, actions).Some? && DisciplinedRun(max, budget, actions)
    ensures var s := Run(max, budget, actions).value; LogsOk(s) && AllHonest(s) && AllEndLast(s) && Current(s)
    decreases |actions|
  {
    hide LogOk, Honest, EndsLast, Apply, Enabled, Inv;
    if actions != [] {
      var front, last := actions[..|actions| - 1], actions[|actions| - 1];
      DisciplinedRunRecords(max, budget, front);
      RunKeeps(max, budget, front);
      var s := Run(max, budget, front).value;
      if last.RecoverEnd? { assert SavedIsCurrent(s, last.id); }
      StepCarries(max, s, last);
      CurrentKeeps(max, s, last);
    }
  }

  /** On a disciplined run an agent that completed or failed never records anything again. */
  lemma NothingFollowsAnEnd(max: nat, budget: Budget, actions: seq<Action>, i: Id, k: nat)
    requires Run(max, budget, actions).Some? && DisciplinedRun(max, budget, actions)
    requires i < |Run(max, budget, actions).value.agents|
    requires var log := Run(max, budget, actions).value.agents[i].log; k < |log| && log[k].status in {Completed, Status.Failed}
    ensures k == |Run(max, budget, actions).value.agents[i].log| - 1
  {
    DisciplinedRunRecords(max, budget, actions);
    assert EndsLast(Run(max, budget, actions).value.agents[i].log);
  }

  // ---- recorded and replayed

  /** Replaying the journal up to any event gives exactly the state that was handed to `record` for it. */
  ghost predicate RecordsAreReplayed(log: seq<Event>) {
    forall k: nat {:trigger log[k]} | k < |log| ::
      J.Replay(JournalOf(log[..k + 1])) == J.Some(map[SELF := StateOf(StandingIn(log[k]), log[k].recorded)])
  }

  ghost predicate RecordsOnEveryRun(max: nat) {
    forall budget, actions, i: Id | Run(max, budget, actions).Some? && i < |Run(max, budget, actions).value.agents| ::
      RecordsAreReplayed(Run(max, budget, actions).value.agents[i].log)
  }

  lemma {:induction false} WellLoggedPrefix(log: seq<Event>, n: nat)
    requires WellLogged(log) && 0 < n <= |log|
    ensures WellLogged(log[..n])
    decreases |log| - n
  {
    if n == |log| {
      assert log[..n] == log;
    } else {
      WellLoggedPrefix(log, n + 1);
      WellLoggedFront(log[..n + 1]);
      assert log[..n + 1][..n] == log[..n];
    }
  }

  lemma OneIsReplayed(log: seq<Event>, k: nat)
    requires WellLogged(log) && k < |log|
    ensures J.Replay(JournalOf(log[..k + 1])) == J.Some(map[SELF := StateOf(StandingIn(log[k]), log[k].recorded)])
            <==> Replayed(log[..k + 1]) == Some(log[k].recorded)
  {
    hide J.Replay, JournalOf, Replayed, WellLogged;
    WellLoggedPrefix(log, k + 1);
    ReplayGives(log[..k + 1]);
    assert log[..k + 1][k] == log[k];
    var got, wanted := StateOf(StandingIn(log[k]), Replayed(log[..k + 1]).value), StateOf(StandingIn(log[k]), log[k].recorded);
    assert map[SELF := got] == map[SELF := wanted] ==> map[SELF := got][SELF] == wanted;
  }

  lemma HonestIsReplayed(log: seq<Event>)
    requires WellLogged(log)
    ensures RecordsAreReplayed(log) <==> Honest(log)
  {
    hide J.Replay, JournalOf, Replayed, WellLogged, StateOf, StandingIn;
    forall k: nat | k < |log|
      ensures J.Replay(JournalOf(log[..k + 1])) == J.Some(map[SELF := StateOf(StandingIn(log[k]), log[k].recorded)])
              <==> Replayed(log[..k + 1]) == Some(log[k].recorded)
    {
      OneIsReplayed(log, k);
    }
  }

  /** What a disciplined run recorded is what a replay of it gives. */
  lemma DisciplinedRunIsReplayed(max: nat, budget: Budget, actions: seq<Action>, i: Id)
    requires Run(max, budget, actions).Some? && DisciplinedRun(max, budget, actions)
    requires i < |Run(max, budget, actions).value.agents|
    ensures RecordsAreReplayed(Run(max, budget, actions).value.agents[i].log)
  {
    DisciplinedRunRecords(max, budget, actions);
    var a := Run(max, budget, actions).value.agents[i];
    assert LogOk(a) && Honest(a.log);
    HonestIsReplayed(a.log);
  }
}
