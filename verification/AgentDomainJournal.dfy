/** All agents of a domain write into one journal, among events of other kinds. Reading that journal is
    reading each agent's events by themselves, whatever the interleaving. */
module AgentDomainJournal {
  import opened AgentScopes
  import opened AgentRuntime
  import opened AgentRuntimeRuns
  import opened AgentRecords
  import opened AgentLimits
  import J = AgentJournal

  /** What the runtime's agents are called, what they were created with, and their own events. */
  datatype Agents = Agents(ids: seq<J.AgentId>, inputs: seq<J.Data>, logs: seq<seq<Event>>)

  ghost predicate Named(d: Agents) {
    && |d.ids| == |d.inputs| == |d.logs|
    && (forall i, k | 0 <= i < k < |d.ids| :: d.ids[i] != d.ids[k])
    && (forall i | 0 <= i < |d.logs| :: WellLogged(d.logs[i]))
  }

  /** One event of the journal: its sequence number, and the agent whose next event it is, if any. */
  datatype Mark = Mark(agent: Option<nat>, at: int)

  /** The sequence numbers of an agent's events. */
  function Positions(marks: seq<Mark>, i: nat): seq<int> {
    if marks == [] then []
    else
      var last := marks[|marks| - 1];
      Positions(marks[..|marks| - 1], i) + if last.agent == Some(i) then [last.at] else []
  }

  ghost predicate Interleaves(d: Agents, marks: seq<Mark>) {
    && (forall p | 0 <= p < |marks| :: marks[p].at >= 1 && (marks[p].agent.Some? ==> marks[p].agent.value < |d.logs|))
    && (forall p, q | 0 <= p < q < |marks| :: marks[p].at < marks[q].at)
    && (forall i: nat | i < |d.logs| :: |Positions(marks, i)| <= |d.logs[i]|)
  }

  lemma InterleavesFront(d: Agents, marks: seq<Mark>)
    requires Interleaves(d, marks) && marks != []
    ensures Interleaves(d, marks[..|marks| - 1])
    ensures var i := marks[|marks| - 1].agent;
            i.Some? ==> i.value < |d.logs| && |Positions(marks[..|marks| - 1], i.value)| < |d.logs[i.value]|
  {
    forall i: nat | i < |d.logs| ensures |Positions(marks[..|marks| - 1], i)| <= |Positions(marks, i)| {}
  }

  /** What `append` writes of an agent's next event, given the sequence numbers of its earlier ones. */
  function PayloadOf(id: J.AgentId, input: J.Data, e: Event, earlier: seq<int>): J.Payload {
    J.V2(TransitionOf(e.transition), J.Control(id, StandingIn(e)),
         if e.transition.Creation? then J.Some(input) else J.None,
         if e.data.Some? then J.Some(e.data.value) else J.None,
         if e.transition.Restoration? && e.transition.ref < |earlier| then J.Some(earlier[e.transition.ref]) else J.None)
  }

  ghost function DomainJournal(d: Agents, marks: seq<Mark>): (j: J.Journal)
    requires Named(d) && Interleaves(d, marks)
    ensures |j| == |marks| && forall p | 0 <= p < |j| :: j[p].at == marks[p].at
  {
    if marks == [] then []
    else
      InterleavesFront(d, marks);
      var front, last := marks[..|marks| - 1], marks[|marks| - 1];
      DomainJournal(d, front) + [J.Event(last.at, LastPayload(d, front, last))]
  }

  ghost function LastPayload(d: Agents, front: seq<Mark>, last: Mark): J.Payload
    requires Named(d)
    requires last.agent.Some? ==> last.agent.value < |d.logs| && |Positions(front, last.agent.value)| < |d.logs[last.agent.value]|
  {
    if last.agent.None? then J.Foreign
    else
      var i := last.agent.value;
      PayloadOf(d.ids[i], d.inputs[i], d.logs[i][|Positions(front, i)|], Positions(front, i))
  }

  lemma JournalIsOrdered(d: Agents, marks: seq<Mark>)
    requires Named(d) && Interleaves(d, marks)
    ensures J.Ordered(DomainJournal(d, marks))
  {
  }

  lemma JournalFront(d: Agents, marks: seq<Mark>)
    requires Named(d) && Interleaves(d, marks) && marks != []
    ensures Interleaves(d, marks[..|marks| - 1]) && DomainJournal(d, marks)[..|marks| - 1] == DomainJournal(d, marks[..|marks| - 1])
  {
    InterleavesFront(d, marks);
  }

  lemma PositionsFront(marks: seq<Mark>, i: nat)
    requires marks != []
    ensures var last := marks[|marks| - 1];
            Positions(marks, i) == Positions(marks[..|marks| - 1], i) + if last.agent == Some(i) then [last.at] else []
  {
  }

  lemma JournalEnd(d: Agents, marks: seq<Mark>, i: nat)
    requires Named(d) && Interleaves(d, marks) && marks != [] && marks[|marks| - 1].agent == Some(i)
    ensures var front, j := marks[..|marks| - 1], DomainJournal(d, marks);
            && i < |d.logs| && |Positions(front, i)| < |d.logs[i]|
            && j[|j| - 1] == J.Event(marks[|marks| - 1].at, PayloadOf(d.ids[i], d.inputs[i], d.logs[i][|Positions(front, i)|], Positions(front, i)))
  {
    InterleavesFront(d, marks);
  }

  /** Where the `k`-th event of an agent stands, and what is written there. */
  lemma {:induction false} EventOfAgent(d: Agents, marks: seq<Mark>, i: nat, k: nat) returns (p: nat)
    requires Named(d) && Interleaves(d, marks) && i < |d.logs| && k < |Positions(marks, i)|
    ensures p < |marks| && k < |d.logs[i]| && marks[p].agent == Some(i) && Positions(marks[..p + 1], i) == Positions(marks, i)[..k + 1]
    ensures DomainJournal(d, marks)[p] == J.Event(Positions(marks, i)[k], PayloadOf(d.ids[i], d.inputs[i], d.logs[i][k], Positions(marks, i)[..k]))
  {
    assert marks != [];
    hide PayloadOf, WellLogged, Positions, DomainJournal, Interleaves;
    JournalFront(d, marks);
    PositionsFront(marks, i);
    var front, last := marks[..|marks| - 1], marks[|marks| - 1];
    if k < |Positions(front, i)| {
      p := EventOfAgent(d, front, i, k);
      SamePrefixes(Positions(front, i), Positions(marks, i), k);
      assert DomainJournal(d, marks)[..|marks| - 1][p] == DomainJournal(d, marks)[p];
      assert marks[..p + 1] == front[..p + 1];
    } else {
      p := |marks| - 1;
      LastEventOfAgent(d, marks, i);
    }
  }

  lemma SamePrefixes(a: seq<int>, b: seq<int>, k: nat)
    requires a <= b && k < |a|
    ensures a[k] == b[k] && a[..k] == b[..k] && a[..k + 1] == b[..k + 1]
  {
  }

  lemma LastEventOfAgent(d: Agents, marks: seq<Mark>, i: nat)
    requires Named(d) && Interleaves(d, marks) && marks != [] && marks[|marks| - 1].agent == Some(i)
    ensures var at, p := Positions(marks, i), |marks| - 1;
            var k := |at| - 1;
            && i < |d.logs| && 0 <= k < |d.logs[i]| && marks[..p + 1] == marks && at[..k + 1] == at
            && k == |Positions(marks[..p], i)|
            && DomainJournal(d, marks)[p] == J.Event(at[k], PayloadOf(d.ids[i], d.inputs[i], d.logs[i][k], at[..k]))
  {
    hide PayloadOf, WellLogged, Positions, DomainJournal, Interleaves;
    JournalEnd(d, marks, i);
    PositionsFront(marks, i);
    assert Positions(marks, i)[..|Positions(marks, i)| - 1] == Positions(marks[..|marks| - 1], i);
  }

  lemma {:induction false} PositionsAscend(d: Agents, marks: seq<Mark>, i: nat)
    requires Interleaves(d, marks)
    ensures forall k | 0 <= k < |Positions(marks, i)| :: 1 <= Positions(marks, i)[k] <= marks[|marks| - 1].at
    ensures forall k, m | 0 <= k < m < |Positions(marks, i)| :: Positions(marks, i)[k] < Positions(marks, i)[m]
  {
    if marks != [] {
      InterleavesFront(d, marks);
      PositionsAscend(d, marks[..|marks| - 1], i);
    }
  }

  /** Following references in the journal is following them in the agent's own log. */
  lemma {:induction false} LeadIsReadThere(d: Agents, marks: seq<Mark>, i: nat, k: nat)
    requires Named(d) && Interleaves(d, marks) && i < |d.logs| && k < |Positions(marks, i)|
    ensures k < |d.logs[i]|
    ensures J.ReadCheckpoint(DomainJournal(d, marks), Positions(marks, i)[k], d.ids[i])
            == (if Lead(d.logs[i], k).Some? then J.Some(Lead(d.logs[i], k).value) else J.None)
    decreases k
  {
    hide J.Find, DomainJournal, Positions, WellLogged;
    var at, log := Positions(marks, i), d.logs[i];
    var p := EventOfAgent(d, marks, i, k);
    JournalIsOrdered(d, marks);
    J.FindAt(DomainJournal(d, marks), p);
    PositionsAscend(d, marks, i);
    IsWellLogged(d, i, k);
    if log[k].transition.Restoration? { LeadIsReadThere(d, marks, i, log[k].transition.ref); }
  }

  lemma IsWellLogged(d: Agents, i: nat, k: nat)
    requires Named(d) && i < |d.logs| && k < |d.logs[i]|
    ensures var log := d.logs[i];
            && log != [] && log[0].transition.Creation? && (log[k].data.Some? <==> Introduces(log[k].transition))
            && (log[k].transition.Restoration? ==> log[k].transition.ref < k && Listed(log, log[k].transition.ref))
  {
    assert WellLogged(d.logs[i]);
  }

  // ---- replay

  /** The state of an agent after its first `n` events. */
  function StateAfter(d: Agents, i: nat, n: nat): J.AgentState
    requires i < |d.ids| && i < |d.inputs| && i < |d.logs| && 0 < n <= |d.logs[i]|
  {
    J.AgentState(J.Control(d.ids[i], StandingIn(d.logs[i][n - 1])), d.inputs[i], Saved(d.logs[i], n - 1))
  }

  ghost predicate IsReplayed(d: Agents, marks: seq<Mark>, states: J.States, i: nat)
    requires Named(d) && Interleaves(d, marks) && i < |d.logs|
  {
    var n := |Positions(marks, i)|;
    if n == 0 then d.ids[i] !in states else d.ids[i] in states && states[d.ids[i]] == StateAfter(d, i, n)
  }

  /** Replaying the journal of the domain gives every agent what its own events lead to. */
  lemma {:induction false} DomainReplay(d: Agents, marks: seq<Mark>)
    requires Named(d) && Interleaves(d, marks)
    ensures J.Replay(DomainJournal(d, marks)).Some?
    ensures forall i: nat | i < |d.logs| :: IsReplayed(d, marks, J.Replay(DomainJournal(d, marks)).value, i)
    ensures forall id | id in J.Replay(DomainJournal(d, marks)).value :: id in d.ids
  {
    if marks != [] {
      InterleavesFront(d, marks);
      var front, last := marks[..|marks| - 1], marks[|marks| - 1];
      DomainReplay(d, front);
      var j, before := DomainJournal(d, marks), J.Replay(DomainJournal(d, front)).value;
      assert j[..|j| - 1] == DomainJournal(d, front);
      if last.agent.Some? {
        assert IsReplayed(d, front, before, last.agent.value);
        NextIsProjected(d, marks, before);
      }
      assert J.Replay(j) == J.Step(j, before, j[|j| - 1]);
      OneMoved(d, front, marks, before, J.Replay(j).value);
    }
  }

  lemma OneMoved(d: Agents, front: seq<Mark>, marks: seq<Mark>, before: J.States, after: J.States)
    requires Named(d) && Interleaves(d, marks) && marks != [] && front == marks[..|marks| - 1] && Interleaves(d, front)
    requires forall i: nat | i < |d.logs| :: IsReplayed(d, front, before, i)
    requires var i := marks[|marks| - 1].agent;
             if i.None? then after == before
             else i.value < |d.logs| && 0 < |Positions(marks, i.value)|
                  && after == before[d.ids[i.value] := StateAfter(d, i.value, |Positions(marks, i.value)|)]
    ensures forall i: nat | i < |d.logs| :: IsReplayed(d, marks, after, i)
  {
    forall i: nat | i < |d.logs| ensures IsReplayed(d, marks, after, i) {
      assert IsReplayed(d, front, before, i);
    }
  }

  lemma NextIsProjected(d: Agents, marks: seq<Mark>, before: J.States)
    requires Named(d) && Interleaves(d, marks) && marks != [] && Interleaves(d, marks[..|marks| - 1])
    requires marks[|marks| - 1].agent.Some? && marks[|marks| - 1].agent.value < |d.logs|
    requires IsReplayed(d, marks[..|marks| - 1], before, marks[|marks| - 1].agent.value)
    ensures var i, j := marks[|marks| - 1].agent.value, DomainJournal(d, marks);
            && !j[|j| - 1].payload.Foreign? && J.IdOf(j[|j| - 1].payload) == d.ids[i] && 0 < |Positions(marks, i)| <= |d.logs[i]|
            && J.Project(j, j[|j| - 1], J.Lookup(before, d.ids[i])) == J.Some(StateAfter(d, i, |Positions(marks, i)|))
  {
    var front, i := marks[..|marks| - 1], marks[|marks| - 1].agent.value;
    var k := |Positions(front, i)|;
    JournalEnd(d, marks, i);
    PositionsFront(marks, i);
    IsWellLogged(d, i, k);
    SavedNext(d.logs[i], k);
    PositionsAscend(d, marks, i);
    hide DomainJournal, WellLogged, Positions, Lead, Saved, Interleaves, J.ReadCheckpoint, J.Project;
    var e := d.logs[i][k];
    if e.transition.Restoration? {
      assert Positions(marks, i)[e.transition.ref] == Positions(front, i)[e.transition.ref] < Positions(marks, i)[k];
      LeadIsReadThere(d, marks, i, e.transition.ref);
    }
    ProjectsTo(DomainJournal(d, marks), marks[|marks| - 1].at, d.ids[i], d.inputs[i], e, Positions(front, i),
               J.Lookup(before, d.ids[i]), Saved(d.logs[i], k));
  }

  lemma ProjectsTo(j: J.Journal, at: int, id: J.AgentId, input: J.Data, e: Event, earlier: seq<int>, previous: J.Option<J.AgentState>, data: Data)
    requires e.data.Some? <==> Introduces(e.transition)
    requires e.data.Some? ==> e.data.value == data
    requires e.transition.Restoration? ==>
               var ref := e.transition.ref;
               ref < |earlier| && 1 <= earlier[ref] < at && J.ReadCheckpoint(j, earlier[ref], id) == J.Some(data)
    requires !e.transition.Creation? ==> previous.Some? && previous.value.input == input
    requires e.data.None? && !e.transition.Restoration? ==> previous.Some? && previous.value.checkpoint == data
    ensures J.Project(j, J.Event(at, PayloadOf(id, input, e, earlier)), previous) == J.Some(J.AgentState(J.Control(id, StandingIn(e)), input, data))
  {
    hide J.ReadCheckpoint;
  }

  /** What the next event makes of the saved checkpoint. */
  lemma SavedNext(log: seq<Event>, k: nat)
    requires WellLogged(log) && k < |log|
    ensures var e := log[k];
            if e.transition.Restoration? then e.transition.ref < k && Lead(log, e.transition.ref) == Some(Saved(log, k))
            else if e.data.Some? then e.data.value == Saved(log, k)
            else k > 0 && Saved(log, k) == Saved(log, k - 1)
  {
    var front, e := log[..k + 1], log[k];
    assert front[..k] == log[..k] && front[k] == e;
    WellLoggedPrefix(log, k + 1);
    ReplayGives(front);
    if e.transition.Restoration? { LeadEarlier(log, k, e.transition.ref); }
  }

  // ---- what was recorded

  lemma {:induction false} InterleavesPrefix(d: Agents, marks: seq<Mark>, n: nat)
    requires Interleaves(d, marks) && n <= |marks|
    ensures Interleaves(d, marks[..n])
    decreases |marks|
  {
    if n == |marks| {
      assert marks[..n] == marks;
    } else {
      InterleavesFront(d, marks);
      InterleavesPrefix(d, marks[..|marks| - 1], n);
      assert marks[..|marks| - 1][..n] == marks[..n];
    }
  }

  /** Replaying the journal up to its last event gives the agent of that event exactly the state that was
      handed to `record` for it. */
  ghost predicate LastIsReplayed(d: Agents, marks: seq<Mark>)
    requires Named(d) && Interleaves(d, marks)
  {
    marks != [] && marks[|marks| - 1].agent.Some? ==>
      var i := marks[|marks| - 1].agent.value;
      var n, got := |Positions(marks, i)|, J.Replay(DomainJournal(d, marks));
      && 0 < n <= |d.logs[i]| && got.Some? && d.ids[i] in got.value
      && got.value[d.ids[i]] == J.AgentState(J.Control(d.ids[i], StandingIn(d.logs[i][n - 1])), d.inputs[i], d.logs[i][n - 1].recorded)
  }

  /** The same at every event. */
  ghost predicate RecordsAreReplayedThere(d: Agents, marks: seq<Mark>)
    requires Named(d)
  {
    forall n {:trigger marks[..n]} | 0 <= n <= |marks| :: Interleaves(d, marks[..n]) ==> LastIsReplayed(d, marks[..n])
  }

  /** Every event of every agent is in the journal. */
  ghost predicate Complete(d: Agents, marks: seq<Mark>) {
    Interleaves(d, marks) && forall i: nat | i < |d.logs| :: |Positions(marks, i)| == |d.logs[i]|
  }

  lemma LastIsReplayedExactly(d: Agents, marks: seq<Mark>, i: nat)
    requires Named(d) && Interleaves(d, marks) && marks != [] && marks[|marks| - 1].agent == Some(i) && i < |d.logs|
    ensures var n := |Positions(marks, i)|;
            0 < n <= |d.logs[i]| && (LastIsReplayed(d, marks) <==> Saved(d.logs[i], n - 1) == d.logs[i][n - 1].recorded)
  {
    hide J.Replay, DomainJournal, Saved, WellLogged;
    DomainReplay(d, marks);
    assert IsReplayed(d, marks, J.Replay(DomainJournal(d, marks)).value, i);
  }

  lemma HonestIsSaved(log: seq<Event>)
    requires WellLogged(log)
    ensures Honest(log) <==> forall k: nat | k < |log| :: Saved(log, k) == log[k].recorded
  {
    hide Replayed, WellLogged;
    forall k: nat {:trigger log[k]} | k < |log| ensures Replayed(log[..k + 1]).Some? {
      WellLoggedPrefix(log, k + 1);
      ReplayGives(log[..k + 1]);
    }
  }

  /** In the journal of the domain what was recorded is what is replayed, exactly when that holds in the
      journal of each agent by itself. */
  lemma DomainRecordsExactly(d: Agents, marks: seq<Mark>)
    requires Named(d) && Complete(d, marks)
    ensures RecordsAreReplayedThere(d, marks) <==> forall i: nat | i < |d.logs| :: RecordsAreReplayed(d.logs[i])
  {
    hide WellLogged, Saved, LastIsReplayed, Positions, RecordsAreReplayed, Honest, DomainJournal;
    forall i: nat | i < |d.logs| ensures RecordsAreReplayed(d.logs[i]) <==> forall k: nat | k < |d.logs[i]| :: Saved(d.logs[i], k) == d.logs[i][k].recorded {
      HonestIsReplayed(d.logs[i]);
      HonestIsSaved(d.logs[i]);
    }
    if RecordsAreReplayedThere(d, marks) {
      forall i: nat, k: nat | i < |d.logs| && k < |d.logs[i]| ensures Saved(d.logs[i], k) == d.logs[i][k].recorded {
        var p := EventOfAgent(d, marks, i, k);
        InterleavesPrefix(d, marks, p + 1);
        LastIsReplayedExactly(d, marks[..p + 1], i);
      }
    }
    if forall i: nat | i < |d.logs| :: RecordsAreReplayed(d.logs[i]) {
      forall n | 0 <= n <= |marks| ensures Interleaves(d, marks[..n]) && LastIsReplayed(d, marks[..n]) {
        InterleavesPrefix(d, marks, n);
        if n > 0 && marks[n - 1].agent.Some? { LastIsReplayedExactly(d, marks[..n], marks[n - 1].agent.value); } else { NoAgentLast(d, marks[..n]); }
      }
    }
  }

  lemma NoAgentLast(d: Agents, marks: seq<Mark>)
    requires Named(d) && Interleaves(d, marks) && (marks == [] || marks[|marks| - 1].agent.None?)
    ensures LastIsReplayed(d, marks)
  {
  }

  // ---- on every run

  /** The agents of a state under any names and inputs. */
  function AgentsOf(s: State, ids: seq<J.AgentId>, inputs: seq<J.Data>): Agents {
    Agents(ids, inputs, seq(|s.agents|, i requires 0 <= i < |s.agents| => s.agents[i].log))
  }

  predicate Names(s: State, ids: seq<J.AgentId>, inputs: seq<J.Data>) {
    |ids| == |inputs| == |s.agents| && forall i, k | 0 <= i < k < |ids| :: ids[i] != ids[k]
  }

  lemma RunIsNamed(max: nat, budget: Budget, actions: seq<Action>, ids: seq<J.AgentId>, inputs: seq<J.Data>)
    requires Run(max, budget, actions).Some? && Names(Run(max, budget, actions).value, ids, inputs)
    ensures Named(AgentsOf(Run(max, budget, actions).value, ids, inputs))
  {
    hide WellLogged;
    RunLogs(max, budget, actions);
    var s := Run(max, budget, actions).value;
    forall i | 0 <= i < |s.agents| ensures WellLogged(s.agents[i].log) { assert LogOk(s.agents[i]); }
  }

  /** A replay gives exactly these agents, each in the state that the runtime holds. */
  ghost predicate IsHeld(s: State, ids: seq<J.AgentId>, inputs: seq<J.Data>, got: J.Option<J.States>)
    requires |ids| == |inputs| == |s.agents|
  {
    && got.Some? && (forall id :: id in got.value <==> id in ids)
    && forall i: nat | i < |s.agents| ::
         got.value[ids[i]] == J.AgentState(J.Control(ids[i], StandingOf(s.agents[i])), inputs[i], s.agents[i].checkpoint)
  }

  /** On every run, whatever the interleaving and whatever else the domain writes: a replay of the domain's
      journal from empty gives exactly the agents that the runtime holds, each in the state it holds. */
  lemma HeldIsReplayed(max: nat, budget: Budget, actions: seq<Action>, ids: seq<J.AgentId>, inputs: seq<J.Data>, marks: seq<Mark>)
    requires Run(max, budget, actions).Some? && Names(Run(max, budget, actions).value, ids, inputs)
    requires Complete(AgentsOf(Run(max, budget, actions).value, ids, inputs), marks)
    ensures var s := Run(max, budget, actions).value;
            var d := AgentsOf(s, ids, inputs);
            Named(d) && IsHeld(s, ids, inputs, J.Replay(DomainJournal(d, marks)))
  {
    RunIsNamed(max, budget, actions, ids, inputs);
    RunLogs(max, budget, actions);
    hide Run, LogOk, DomainJournal, WellLogged, Complete;
    LogsAreHeld(Run(max, budget, actions).value, ids, inputs, marks);
  }

  lemma LogsAreHeld(s: State, ids: seq<J.AgentId>, inputs: seq<J.Data>, marks: seq<Mark>)
    requires LogsOk(s) && Names(s, ids, inputs) && Named(AgentsOf(s, ids, inputs)) && Complete(AgentsOf(s, ids, inputs), marks)
    ensures IsHeld(s, ids, inputs, J.Replay(DomainJournal(AgentsOf(s, ids, inputs), marks)))
  {
    hide J.Replay, DomainJournal, WellLogged, Positions, Interleaves, Saved, LogOk;
    var d := AgentsOf(s, ids, inputs);
    DomainReplay(d, marks);
    var got := J.Replay(DomainJournal(d, marks)).value;
    forall i: nat | i < |s.agents|
      ensures ids[i] in got && got[ids[i]] == J.AgentState(J.Control(ids[i], StandingOf(s.agents[i])), inputs[i], s.agents[i].checkpoint)
    {
      assert LogOk(s.agents[i]) && IsReplayed(d, marks, got, i);
      LogHasSaved(s.agents[i]);
    }
  }

  lemma LogHasSaved(a: Agent)
    requires LogOk(a)
    ensures a.log != [] && Saved(a.log, |a.log| - 1) == a.checkpoint && StandingIn(a.log[|a.log| - 1]) == StandingOf(a)
  {
    assert a.log[..|a.log|] == a.log;
  }

  ghost predicate IsRecorded(s: State, ids: seq<J.AgentId>, inputs: seq<J.Data>, marks: seq<Mark>) {
    Named(AgentsOf(s, ids, inputs)) && RecordsAreReplayedThere(AgentsOf(s, ids, inputs), marks)
  }

  /** On every run, under all names and interleavings, what was recorded is what is replayed. */
  ghost predicate DomainRecordsOnEveryRun(max: nat) {
    forall budget, actions, ids, inputs, marks |
      && Run(max, budget, actions).Some? && Names(Run(max, budget, actions).value, ids, inputs)
      && Complete(AgentsOf(Run(max, budget, actions).value, ids, inputs), marks) ::
      IsRecorded(Run(max, budget, actions).value, ids, inputs, marks)
  }

  // ---- there is an interleaving

  /** The first `i` agents have written everything, agent `i` its first `k` events. */
  ghost predicate Reaches(d: Agents, marks: seq<Mark>, i: nat, k: nat) {
    && Interleaves(d, marks) && (marks != [] ==> marks[|marks| - 1].at == |marks|)
    && forall a: nat | a < |d.logs| :: |Positions(marks, a)| == if a < i then |d.logs[a]| else if a == i then k else 0
  }

  lemma ReachesOneMore(d: Agents, front: seq<Mark>, i: nat, k: nat)
    requires Reaches(d, front, i, k) && i < |d.logs| && k < |d.logs[i]|
    ensures Reaches(d, front + [Mark(Some(i), |front| + 1)], i, k + 1)
  {
    var mark := Mark(Some(i), |front| + 1);
    var marks := front + [mark];
    forall a: nat ensures Positions(marks, a) == Positions(front, a) + if a == i then [mark.at] else [] {
      assert marks[..|marks| - 1] == front;
    }
    assert forall p | 0 <= p < |front| :: marks[p] == front[p] && front[p].at <= front[|front| - 1].at;
    hide Positions;
  }

  lemma {:induction false} OneAfterTheOther(d: Agents, i: nat, k: nat) returns (marks: seq<Mark>)
    requires i <= |d.logs| && (if i == |d.logs| then k == 0 else k <= |d.logs[i]|)
    ensures Reaches(d, marks, i, k)
    decreases i, k
  {
    if k > 0 {
      var front := OneAfterTheOther(d, i, k - 1);
      marks := front + [Mark(Some(i), |front| + 1)];
      ReachesOneMore(d, front, i, k - 1);
    } else if i > 0 {
      marks := OneAfterTheOther(d, i - 1, |d.logs[i - 1]|);
      hide Interleaves, Positions;
    } else {
      marks := [];
    }
  }

  function NameOf(i: nat): J.AgentId {
    seq(i, k => 'a')
  }

  /** In the domain's journal too, what is recorded is what is replayed on every run exactly when agents run
      one at a time. */
  lemma DomainRecordsExactlyOneAtATime(max: nat)
    requires max >= 1
    ensures DomainRecordsOnEveryRun(max) <==> max == 1
  {
    hide Run, Names, Complete, RecordsAreReplayed, RecordsAreReplayedThere, Named;
    RecordsAreReplayedExactly(max);
    if DomainRecordsOnEveryRun(max) {
      forall budget, actions, i: Id | Run(max, budget, actions).Some? && i < |Run(max, budget, actions).value.agents|
        ensures RecordsAreReplayed(Run(max, budget, actions).value.agents[i].log)
      {
        DomainGivesAgent(max, budget, actions, i);
      }
    }
    if RecordsOnEveryRun(max) {
      forall budget, actions, ids, inputs, marks |
        && Run(max, budget, actions).Some? && Names(Run(max, budget, actions).value, ids, inputs)
        && Complete(AgentsOf(Run(max, budget, actions).value, ids, inputs), marks)
        ensures IsRecorded(Run(max, budget, actions).value, ids, inputs, marks)
      {
        RunIsNamed(max, budget, actions, ids, inputs);
        DomainRecordsExactly(AgentsOf(Run(max, budget, actions).value, ids, inputs), marks);
      }
    }
  }

  lemma DomainGivesAgent(max: nat, budget: Budget, actions: seq<Action>, i: Id)
    requires DomainRecordsOnEveryRun(max) && Run(max, budget, actions).Some? && i < |Run(max, budget, actions).value.agents|
    ensures RecordsAreReplayed(Run(max, budget, actions).value.agents[i].log)
  {
    hide RecordsAreReplayed, RecordsAreReplayedThere, Run;
    var s := Run(max, budget, actions).value;
    var n := |s.agents|;
    var ids, inputs := seq(n, k requires 0 <= k < n => NameOf(k)), seq(n, k => "");
    assert Names(s, ids, inputs) by { assert forall k | 0 <= k < n :: |ids[k]| == k; }
    var d := AgentsOf(s, ids, inputs);
    var marks := OneAfterTheOther(d, n, 0);
    assert Complete(d, marks);
    assert IsRecorded(s, ids, inputs, marks);
    DomainRecordsExactly(d, marks);
    assert d.logs[i] == s.agents[i].log;
  }
}
