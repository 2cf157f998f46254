/** What the runtime keeps on every run only with one agent at a time. With more, the finalizer of an old
    quantum can remove the entry of the agent's next one. */
module AgentLimits {
  import opened AgentScopes
  import opened AgentFence
  import opened AgentRuntime
  import opened AgentRuntimeRuns
  import opened AgentBudget
  import opened AgentRecords
  import opened AgentScenario

  lemma Play(max: nat, actions: seq<Action>, s: State, a: Action, g: Stage) returns (longer: seq<Action>, n: State)
    requires Run(max, BUDGET, actions) == Some(s) && Leads(max, s, a, g)
    ensures n == Apply(max, s, a) && OnStage(n, g) && Run(max, BUDGET, longer) == Some(n)
  {
    longer, n := actions + [a], Apply(max, s, a);
    assert longer[..|actions|] == actions;
  }

  lemma FirstAction(max: nat, a: Action)
    requires Enabled(max, Initial(BUDGET), a)
    ensures Run(max, BUDGET, [a]) == Some(Apply(max, Initial(BUDGET), a))
  {
    assert [a][..0] == [] && Run(max, BUDGET, []) == Some(Initial(BUDGET));
  }

  lemma Begins(max: nat, parent: Option<Id>) returns (actions: seq<Action>, s: State, g: Stage)
    requires parent in {None, Some(0)}
    ensures Run(max, BUDGET, actions) == Some(s) && OnStage(s, g)
    ensures g == Stage(Actor(None, Ready, false, 0, FIRST), Actor(parent, Ready, false, 0, FIRST), map[], map[], 0, None, false)
  {
    hide Run, Apply, Enabled, OnStage, Leads;
    Born(max, parent);
    FirstAction(max, Create(0, None, 5, FIRST));
    g := Stage(Actor(None, Ready, false, 0, FIRST), Actor(parent, Ready, false, 0, FIRST), map[], map[], 0, None, false);
    actions, s := Play(max, [Create(0, None, 5, FIRST)], Apply(max, Initial(BUDGET), Create(0, None, 5, FIRST)), Create(0, parent, 5, FIRST), g);
    NothingToSettle(max, s, g);
    actions, s := Play(max, actions, s, Reconcile, g);
  }

  /** A dispatched agent passes validation and runs. */
  lemma Starts(max: nat, actions: seq<Action>, s: State, g: Stage, t: nat, id: Id) returns (longer: seq<Action>, n: State, h: Stage)
    requires Run(max, BUDGET, actions) == Some(s) && OnStage(s, g)
    requires HasTask(g, t, id, Queued) && ActorOf(g, id).status.Ready? && IsOpen(g, id) && ActorOf(g, id).steps < 5
    ensures Run(max, BUDGET, longer) == Some(n) && OnStage(n, h)
    ensures h == MoveTo(g, t, Stepping(true), ActorOf(g, id).(status := Running, steps := ActorOf(g, id).steps + 1))
  {
    hide Run, Apply, Enabled, OnStage, Leads;
    Begun(max, s, g, t, id);
    h := MoveTo(g, t, Validating, ActorOf(g, id).(status := Checking));
    longer, n := Play(max, actions, s, Begin(t, true), h);
    Started(max, n, h, t, id);
    h := MoveTo(h, t, Stepping(true), ActorOf(g, id).(status := Running, steps := ActorOf(g, id).steps + 1));
    longer, n := Play(max, longer, n, Validated(t, Valid), h);
  }

  /** A ready agent is dispatched and runs. */
  lemma Runs(max: nat, actions: seq<Action>, s: State, g: Stage, id: Id) returns (longer: seq<Action>, n: State, h: Stage)
    requires Run(max, BUDGET, actions) == Some(s) && OnStage(s, g) && id < 2
    requires ActorOf(g, id).status.Ready? && IsOpen(g, id) && ActorOf(g, id).steps < 5 && |g.tasks| < max
    ensures Run(max, BUDGET, longer) == Some(n) && OnStage(n, h)
    ensures h == With(g, id, ActorOf(g, id).(status := Running, steps := ActorOf(g, id).steps + 1))
                 .(tasks := g.tasks[g.next := Task(id, Stepping(true), false)], quanta := g.quanta[id := g.next], next := g.next + 1)
  {
    hide Run, Apply, Enabled, OnStage, Leads;
    Dispatched(max, s, g, id);
    h := g.(tasks := g.tasks[g.next := Task(id, Queued, false)], quanta := g.quanta[id := g.next], next := g.next + 1);
    longer, n := Play(max, actions, s, Dispatch(id), h);
    longer, n, h := Starts(max, longer, n, h, g.next, id);
    assert g.tasks[g.next := Task(id, Queued, false)][g.next := Task(id, Stepping(true), false)] == g.tasks[g.next := Task(id, Stepping(true), false)];
  }

  /** A running step returns and records its result. */
  lemma Ends(max: nat, actions: seq<Action>, s: State, g: Stage, t: nat, id: Id, outcome: StepOutcome) returns (longer: seq<Action>, n: State, h: Stage)
    requires Run(max, BUDGET, actions) == Some(s) && OnStage(s, g)
    requires HasTask(g, t, id, Stepping(true)) && !outcome.Broke? && (outcome.MoreToDo? ==> ActorOf(g, id).steps < 5)
    ensures Run(max, BUDGET, longer) == Some(n) && OnStage(n, h)
    ensures h == MoveTo(g, t, Ended, Closed(g, id, outcome))
    ensures id == 0 ==> 0 in n.dirty
  {
    hide Run, Apply, Enabled, OnStage, Leads;
    Returns(max, s, g, t, id);
    h := MoveTo(g, t, Stepping(false), ActorOf(g, id));
    longer, n := Play(max, actions, s, Returned(t), h);
    Finished(max, n, h, t, id, outcome);
    h := MoveTo(h, t, Ended, Closed(g, id, outcome));
    longer, n := Play(max, longer, n, Finish(t, outcome), h);
  }

  lemma Leaves(max: nat, actions: seq<Action>, s: State, g: Stage, t: nat, id: Id) returns (longer: seq<Action>, n: State, h: Stage)
    requires Run(max, BUDGET, actions) == Some(s) && OnStage(s, g) && HasTask(g, t, id, Ended)
    ensures Run(max, BUDGET, longer) == Some(n) && OnStage(n, h) && h == g.(tasks := g.tasks - {t}, quanta := g.quanta - {id})
  {
    hide Run, Apply, Enabled, OnStage, Leads;
    Finalized(max, s, g, t, id);
    h := g.(tasks := g.tasks - {t}, quanta := g.quanta - {id});
    longer, n := Play(max, actions, s, Finalize(t), h);
  }

  /** A dispatched agent is found stale and paused, and its quantum is finalized. */
  lemma TurnsStale(max: nat, actions: seq<Action>, s: State, g: Stage, t: nat, id: Id) returns (longer: seq<Action>, n: State, h: Stage)
    requires Run(max, BUDGET, actions) == Some(s) && OnStage(s, g)
    requires HasTask(g, t, id, Queued) && ActorOf(g, id).status.Ready? && IsOpen(g, id) && ActorOf(g, id).steps < 5
    ensures Run(max, BUDGET, longer) == Some(n) && OnStage(n, h)
    ensures h == With(g, id, ActorOf(g, id).(status := Paused)).(tasks := g.tasks - {t}, quanta := g.quanta - {id})
  {
    hide Run, Apply, Enabled, OnStage, Leads;
    Begun(max, s, g, t, id);
    h := MoveTo(g, t, Validating, ActorOf(g, id).(status := Checking));
    longer, n := Play(max, actions, s, Begin(t, true), h);
    FoundStale(max, n, h, t, id);
    h := MoveTo(h, t, Ended, ActorOf(g, id).(status := Paused));
    longer, n := Play(max, longer, n, Validated(t, NotValid), h);
    longer, n, h := Leaves(max, longer, n, h, t, id);
    assert h.tasks == g.tasks - {t};
  }

  lemma GoesStale(max: nat, actions: seq<Action>, s: State, g: Stage, id: Id) returns (longer: seq<Action>, n: State, h: Stage)
    requires Run(max, BUDGET, actions) == Some(s) && OnStage(s, g) && id < 2 && id !in g.quanta && g.next !in g.tasks
    requires ActorOf(g, id).status.Ready? && IsOpen(g, id) && ActorOf(g, id).steps < 5 && |g.tasks| < max
    ensures Run(max, BUDGET, longer) == Some(n) && OnStage(n, h)
    ensures h == With(g, id, ActorOf(g, id).(status := Paused)).(next := g.next + 1)
  {
    hide Run, Apply, Enabled, OnStage, Leads;
    Dispatched(max, s, g, id);
    h := g.(tasks := g.tasks[g.next := Task(id, Queued, false)], quanta := g.quanta[id := g.next], next := g.next + 1);
    longer, n := Play(max, actions, s, Dispatch(id), h);
    longer, n, h := TurnsStale(max, longer, n, h, g.next, id);
    assert h.tasks == g.tasks && h.quanta == g.quanta;
  }

  /** One agent steps, and the end of the other one's quantum will wake the loop. */
  lemma SideBySide(max: nat, id: Id, parent: Option<Id>) returns (actions: seq<Action>, s: State, g: Stage)
    requires max >= 2 && id < 2 && parent in {None, Some(0)}
    ensures Run(max, BUDGET, actions) == Some(s) && OnStage(s, g)
    ensures g == Stage(Actor(None, if id == 0 then Ready else Paused, false, if id == 0 then 1 else 0, FIRST),
                       Actor(parent, if id == 1 then Ready else Paused, false, if id == 1 then 1 else 0, FIRST),
                       map[0 := Task(id, Ended, false)], map[id := 0], 2, None, false)
  {
    hide Run, Apply, Enabled, OnStage, Leads;
    actions, s, g := Begins(max, parent);
    actions, s, g := Runs(max, actions, s, g, id);
    assert g.tasks.Keys == {0};
    actions, s, g := GoesStale(max, actions, s, g, 1 - id);
    actions, s, g := Ends(max, actions, s, g, 0, id, MoreToDo(FIRST));
    assert g.tasks == map[0 := Task(id, Ended, false)] && g.quanta == map[id := 0];
  }

  /** The agent whose step ended is dispatched again before its finalizer has run, which then removes the
      new entry: the agent runs unregistered. */
  lemma LostQuantum(max: nat, id: Id, parent: Option<Id>) returns (actions: seq<Action>, s: State, g: Stage)
    requires max >= 2 && id < 2 && parent in {None, Some(0)}
    ensures Run(max, BUDGET, actions) == Some(s) && OnStage(s, g)
    ensures g == Stage(Actor(None, if id == 0 then Running else Paused, false, if id == 0 then 2 else 0, FIRST),
                       Actor(parent, if id == 1 then Running else Paused, false, if id == 1 then 2 else 0, FIRST),
                       map[2 := Task(id, Stepping(true), false)], map[], 3, None, false)
  {
    hide Run, Apply, Enabled, OnStage, Leads;
    actions, s, g := SideBySide(max, id, parent);
    NothingToSettle(max, s, g);
    actions, s := Play(max, actions, s, Reconcile, g);
    actions, s, g := DispatchedTwice(max, actions, s, g, id);
    actions, s, g := Starts(max, actions, s, g, 2, id);
    assert g.tasks == map[2 := Task(id, Stepping(true), false)];
  }

  lemma DispatchedTwice(max: nat, actions: seq<Action>, s: State, g: Stage, id: Id) returns (longer: seq<Action>, n: State, h: Stage)
    requires Run(max, BUDGET, actions) == Some(s) && OnStage(s, g) && max >= 2 && id < 2 && ActorOf(g, id).status.Ready?
    requires g.tasks == map[0 := Task(id, Ended, false)] && g.quanta == map[id := 0] && g.next == 2
    ensures Run(max, BUDGET, longer) == Some(n) && OnStage(n, h)
    ensures h == g.(tasks := map[2 := Task(id, Queued, false)], quanta := map[], next := 3)
  {
    hide Run, Apply, Enabled, OnStage, Leads;
    assert g.tasks.Keys == {0};
    Dispatched(max, s, g, id);
    h := g.(tasks := g.tasks[2 := Task(id, Queued, false)], quanta := g.quanta[id := 2], next := 3);
    longer, n := Play(max, actions, s, Dispatch(id), h);
    longer, n, h := Leaves(max, longer, n, h, 0, id);
    assert h.tasks == map[2 := Task(id, Queued, false)] && h.quanta == map[];
  }

  /** The tree is interrupted without a trace of the unregistered quantum. */
  lemma IsInterrupted(max: nat, actions: seq<Action>, s: State, g: Stage, id: Id) returns (longer: seq<Action>, n: State, h: Stage)
    requires Run(max, BUDGET, actions) == Some(s) && OnStage(s, g) && CanInterrupt(g, id)
    ensures Run(max, BUDGET, longer) == Some(n) && OnStage(n, h) && h == StopBoth(g)
  {
    hide Run, Apply, Enabled, OnStage, Leads;
    InterruptsUnseen(max, s, g, id);
    SettlesAtOnce(max, s, g, id);
    longer, n := Play(max, actions, s, Interrupt(id), StopBoth(g).(fenced := true));
    h := StopBoth(g);
    longer, n := Play(max, longer, n, BarrierSettled(0), h);
  }

  lemma BeginsRecovery(max: nat, actions: seq<Action>, s: State, g: Stage, id: Id) returns (longer: seq<Action>, n: State, h: Stage)
    requires Run(max, BUDGET, actions) == Some(s) && OnStage(s, g) && !g.fenced && g.quanta == map[] && g.recovering.None? && id < 2
    requires ActorOf(g, id).status in {Paused, Interrupted} && (ActorOf(g, id).parent == Some(0) ==> !IsStopped(g.first))
    ensures Run(max, BUDGET, longer) == Some(n) && OnStage(n, h)
    ensures h == With(g, id, ActorOf(g, id).(status := Recovering, requested := false)).(recovering := Some((id, ActorOf(g, id))))
  {
    hide Run, Apply, Enabled, OnStage, Leads;
    RecoveryBegins(max, s, g, id);
    h := With(g, id, ActorOf(g, id).(status := Recovering, requested := false)).(recovering := Some((id, ActorOf(g, id))));
    longer, n := Play(max, actions, s, RecoverBegin(id), h);
  }

  // ---- the fence

  lemma StepAfterInterruption(max: nat, s: State, g: Stage, log: seq<Event>)
    requires OnStage(s, g) && HasTask(g, 2, 0, Stepping(false)) && ActorOf(g, 0).steps < 5
    requires s.agents != [] && AddsInterruption(log, s.agents[0].log)
    ensures Enabled(max, s, Finish(2, MoreToDo(FIRST))) && !Fences(Apply(max, s, Finish(2, MoreToDo(FIRST))))
  {
    hide ReconcileScopes, Root;
    var last := Apply(max, s, Finish(2, MoreToDo(FIRST))).agents[0].log;
    assert last[|log|].requested && last[|log| + 1].transition == StepCompletion;
    assert !FenceHolds(last);
  }

  lemma ReturnKeepsLogs(max: nat, s: State, t: nat)
    requires Enabled(max, s, Returned(t))
    ensures Apply(max, s, Returned(t)).agents == s.agents
  {
  }

  lemma TwoAtATimeBreakTheFence(max: nat) returns (actions: seq<Action>)
    requires max >= 2
    ensures Run(max, BUDGET, actions).Some? && !Fences(Run(max, BUDGET, actions).value)
  {
    hide Run, Apply, Enabled, OnStage, Leads, Fences;
    var s: State, g: Stage;
    actions, s, g := LostQuantum(max, 0, None);
    AtHasTwo(s, g);
    var log := s.agents[0].log;
    InterruptsUnseen(max, s, g, 0);
    g := StopBoth(g).(fenced := true);
    actions, s := Play(max, actions, s, Interrupt(0), g);
    Returns(max, s, g, 2, 0);
    LeadsIsEnabled(max, s, Returned(2), MoveTo(g, 2, Stepping(false), ActorOf(g, 0)));
    ReturnKeepsLogs(max, s, 2);
    g := MoveTo(g, 2, Stepping(false), ActorOf(g, 0));
    actions, s := Play(max, actions, s, Returned(2), g);
    AtHasTwo(s, g);
    StepAfterInterruption(max, s, g, log);
    actions := PlayOn(max, actions, s, Finish(2, MoreToDo(FIRST)));
  }

  lemma LeadsIsEnabled(max: nat, s: State, a: Action, g: Stage)
    requires Leads(max, s, a, g)
    ensures Enabled(max, s, a)
  {
  }

  lemma AtHasTwo(s: State, g: Stage)
    requires OnStage(s, g)
    ensures |s.agents| == 2
  {
  }

  lemma PlayOn(max: nat, actions: seq<Action>, s: State, a: Action) returns (longer: seq<Action>)
    requires Run(max, BUDGET, actions) == Some(s) && Enabled(max, s, a)
    ensures Run(max, BUDGET, longer) == Some(Apply(max, s, a))
  {
    longer := actions + [a];
    assert longer[..|actions|] == actions;
  }

  /** Every run keeps the fence. */
  ghost predicate FenceOnEveryRun(max: nat) {
    forall budget, actions | Run(max, budget, actions).Some? :: Fences(Run(max, budget, actions).value)
  }

  /** The fence holds on every run exactly when agents run one at a time. */
  lemma FenceOnEveryRunExactly(max: nat)
    requires max >= 1
    ensures FenceOnEveryRun(max) <==> max == 1
  {
    if max == 1 {
      forall budget, actions | Run(max, budget, actions).Some? ensures Fences(Run(max, budget, actions).value) {
        OneAtATimeIsDisciplined(budget, actions);
        FenceOnDisciplinedRuns(max, budget, actions);
      }
    } else {
      var actions := TwoAtATimeBreakTheFence(max);
    }
  }

  // ---- the budget

  /** The lost quantum makes its agent ready while it is being recovered; a further step is charged; and
      the abandoned recovery takes it back. */
  lemma TwoAtATimeRefund(max: nat) returns (actions: seq<Action>, s: State)
    requires max >= 2
    ensures Run(max, BUDGET, actions) == Some(s) && Enabled(max, s, RecoverEnd(0, Nothing))
    ensures UsageOf(Apply(max, s, RecoverEnd(0, Nothing)), 0).stepsUsed == 2 && UsageOf(s, 0).stepsUsed == 3
  {
    hide Run, Apply, Enabled, OnStage, Leads;
    var g: Stage;
    actions, s, g := LostQuantum(max, 0, None);
    actions, s, g := IsInterrupted(max, actions, s, g, 0);
    actions, s, g := BeginsRecovery(max, actions, s, g, 0);
    actions, s, g := Ends(max, actions, s, g, 2, 0, MoreToDo(FIRST));
    actions, s, g := Leaves(max, actions, s, g, 2, 0);
    assert g.tasks.Keys == {};
    actions, s, g := Runs(max, actions, s, g, 0);
    Abandoned(max, s, g);
    AtUsage(s, g);
  }

  lemma AtUsage(s: State, g: Stage)
    requires OnStage(s, g)
    ensures UsageOf(s, 0).stepsUsed == g.first.steps + g.second.steps
  {
  }

  /** On every run, no action lowers what a Run has used. */
  ghost predicate NoRefundOnEveryRun(max: nat) {
    forall budget, actions, a, run | Run(max, budget, actions).Some? && Enabled(max, Run(max, budget, actions).value, a) ::
      UsageOf(Apply(max, Run(max, budget, actions).value, a), run).stepsUsed >= UsageOf(Run(max, budget, actions).value, run).stepsUsed
  }

  /** Usage never decreases exactly when agents run one at a time. */
  lemma NoRefundExactly(max: nat)
    requires max >= 1
    ensures NoRefundOnEveryRun(max) <==> max == 1
  {
    hide Enabled, Apply;
    if max == 1 {
      forall budget, actions, a, run | Run(max, budget, actions).Some? && Enabled(max, Run(max, budget, actions).value, a)
        ensures UsageOf(Apply(max, Run(max, budget, actions).value, a), run).stepsUsed >= UsageOf(Run(max, budget, actions).value, run).stepsUsed
      {
        OneAtATimeIsDisciplined(budget, actions);
        RunKeeps(max, budget, actions);
        BudgetConservation(max, budget, actions);
        UsageNeverDecreases(max, Run(max, budget, actions).value, a, run);
      }
    } else {
      var actions, s := TwoAtATimeRefund(max);
      assert Run(max, BUDGET, actions).value == s;
    }
  }

  // ---- the journal

  const SECOND: Data := "second"

  /** The lost quantum writes a new checkpoint while its agent is being recovered; the abandoned recovery
      records the old one, which the written event leaves out. */
  lemma TwoAtATimeLoseACheckpoint(max: nat) returns (actions: seq<Action>)
    requires max >= 2
    ensures Run(max, BUDGET, actions).Some? && |Run(max, BUDGET, actions).value.agents| == 2
    ensures var log := Run(max, BUDGET, actions).value.agents[0].log;
            !RecordsAreReplayed(log) && log != [] && log[|log| - 1].recorded == FIRST && Replayed(log) == Some(SECOND)
  {
    hide Run, Apply, Enabled, OnStage, Leads, RecordsAreReplayed, WellLogged, Replayed;
    var s: State, g: Stage;
    actions, s, g := LostQuantum(max, 0, None);
    actions, s, g := IsInterrupted(max, actions, s, g, 0);
    actions, s, g := BeginsRecovery(max, actions, s, g, 0);
    actions, s, g := Ends(max, actions, s, g, 2, 0, MoreToDo(SECOND));
    Abandoned(max, s, g);
    actions := PlayOn(max, actions, s, RecoverEnd(0, Nothing));
    RunLogs(max, BUDGET, actions);
    RecordedElse(Run(max, BUDGET, actions).value.agents[0]);
  }

  lemma RecordedElse(a: Agent)
    requires LogOk(a) && a.log[|a.log| - 1].recorded != a.checkpoint
    ensures Replayed(a.log) == Some(a.checkpoint) && !RecordsAreReplayed(a.log)
  {
    var n := |a.log| - 1;
    HonestIsReplayed(a.log);
    assert a.log[..n + 1] == a.log;
  }

  /** On every run what is recorded is what is replayed exactly when agents run one at a time. */
  lemma RecordsAreReplayedExactly(max: nat)
    requires max >= 1
    ensures RecordsOnEveryRun(max) <==> max == 1
  {
    hide RecordsAreReplayed;
    if max == 1 {
      forall budget, actions, i: Id | Run(max, budget, actions).Some? && i < |Run(max, budget, actions).value.agents|
        ensures RecordsAreReplayed(Run(max, budget, actions).value.agents[i].log)
      {
        OneAtATimeIsDisciplined(budget, actions);
        DisciplinedRunIsReplayed(max, budget, actions, i);
      }
    } else {
      var actions := TwoAtATimeLoseACheckpoint(max);
      assert !RecordsAreReplayed(Run(max, BUDGET, actions).value.agents[0].log);
    }
  }

  // ---- completed trees

  /** Completed agents have only completed descendants. */
  ghost predicate CompletedTrees(s: State) {
    forall top: Id, i: Id | top < |s.agents| && i < |s.agents| && Under(s.agents, top, i) && s.agents[top].status.Completed? ::
      s.agents[i].status.Completed?
  }

  /** The child's lost quantum completes it while it is being recovered. */
  lemma CompletedDuringRecovery(max: nat) returns (actions: seq<Action>, s: State, g: Stage)
    requires max >= 2
    ensures Run(max, BUDGET, actions) == Some(s) && OnStage(s, g)
    ensures g == Stage(Actor(None, Paused, false, 0, FIRST), Actor(Some(0), Completed, false, 2, FIRST), map[], map[], 3,
                       Some((1, Actor(Some(0), Interrupted, true, 2, FIRST))), false)
  {
    hide Run, Apply, Enabled, OnStage, Leads;
    actions, s, g := LostQuantum(max, 1, Some(0));
    actions, s, g := IsInterrupted(max, actions, s, g, 0);
    Restored(max, s, g);
    g := g.(first := g.first.(status := Paused, requested := false));
    actions, s := Play(max, actions, s, Restore(0, 0), g);
    actions, s, g := BeginsRecovery(max, actions, s, g, 1);
    actions, s, g := Ends(max, actions, s, g, 2, 1, Done(FIRST));
    actions, s, g := Leaves(max, actions, s, g, 2, 1);
    assert g.tasks == map[] && g.quanta == map[];
  }

  /** Its parent joins and completes, and the abandoned recovery makes the child interrupted again. */
  lemma TwoAtATimeReopenACompletedTree(max: nat) returns (actions: seq<Action>)
    requires max >= 2
    ensures Run(max, BUDGET, actions).Some? && !CompletedTrees(Run(max, BUDGET, actions).value)
  {
    hide Run, Apply, Enabled, OnStage, Leads, CompletedTrees;
    var s: State, g: Stage;
    actions, s, g := CompletedDuringRecovery(max);
    Resumes(max, s, g);
    g := g.(first := g.first.(status := Ready));
    actions, s := Play(max, actions, s, Resume(0), g);
    actions, s, g := Runs(max, actions, s, g, 0);
    actions, s, g := Ends(max, actions, s, g, 3, 0, Done(FIRST));
    Joined(max, s, g);
    g := g.(first := g.first.(status := Completed));
    actions, s := Play(max, actions, s, Reconcile, g);
    Abandoned(max, s, g);
    Reopened(s, g, Apply(max, s, RecoverEnd(1, Nothing)));
    actions := PlayOn(max, actions, s, RecoverEnd(1, Nothing));
  }

  lemma Reopened(s: State, g: Stage, n: State)
    requires OnStage(s, g) && g.first.status.Completed? && g.second.parent == Some(0)
    requires |n.agents| == 2 && n.agents[0] == s.agents[0] && n.agents[1].status.Interrupted? && n.agents[1].parent == Some(0)
    ensures !CompletedTrees(n)
  {
    assert Under(n.agents, 0, 1);
  }

  ghost predicate CompletedTreesOnEveryRun(max: nat) {
    forall budget, actions | Run(max, budget, actions).Some? :: CompletedTrees(Run(max, budget, actions).value)
  }

  /** Completed trees stay completed on every run exactly when agents run one at a time. */
  lemma CompletedTreesExactly(max: nat)
    requires max >= 1
    ensures CompletedTreesOnEveryRun(max) <==> max == 1
  {
    if max == 1 {
      forall budget, actions | Run(max, budget, actions).Some? ensures CompletedTrees(Run(max, budget, actions).value) {
        OneAtATimeIsDisciplined(budget, actions);
        RunKeeps(max, budget, actions);
        var s := Run(max, budget, actions).value;
        forall top: Id, i: Id | top < |s.agents| && i < |s.agents| && Under(s.agents, top, i) && s.agents[top].status.Completed?
          ensures s.agents[i].status.Completed?
        {
          CompletedBelow(s, top, i);
        }
      }
    } else {
      var actions := TwoAtATimeReopenACompletedTree(max);
    }
  }
}
