/** Agent trees: what a scope is, how one is cancelled and how one completes (`runtime.ts` lines 505-576).
    Agents are numbered in order of creation, so a parent has a smaller number than its children. */
module AgentScopes {

  type Id = nat

  datatype Option<T> = None | Some(value: T)

  datatype Status = Ready | Checking | Running | Recovering | Waiting | Paused | Completed | Failed | Interrupted

  datatype Transition =
    | Creation | PauseRequest | Resumption | Restoration(ref: nat) | Check | StepStart | StepCompletion | PauseRecord | Failure
    | BudgetExhausted | RecoveryStart | RecoveryInterrupted | RecoveryAbandoned | RecoveryFailed
    | InterruptRequest | Interruption | ShutdownRequest | ScopeCompletion | HostRecovery

  type Data = string

  /** What changes about an agent, apart from its checkpoint; `requested` is the reason
      `interrupt_requested`. */
  datatype Standing = Standing(status: Status, pauseRequested: bool, requested: bool, stepsUsed: nat)

  /** One event of an agent. `data` is written only where the transition introduces a checkpoint;
      `recorded`, the checkpoint of the state that was handed to `record`, is not written at all. */
  datatype Event = Event(
    transition: Transition, status: Status, pauseRequested: bool, requested: bool, stepsUsed: nat,
    data: Option<Data>, recorded: Data)

  /** The projected state of an agent. `log` holds the agent's own events in journal order, and
      `Restoration` refers to one of them. */
  datatype Agent = Agent(
    parent: Option<Id>, run: nat, maxSteps: nat, stepsUsed: nat,
    status: Status, pauseRequested: bool, requested: bool, checkpoint: Data, log: seq<Event>)

  function EventOf(a: Agent, transition: Transition): Event {
    Event(transition, a.status, a.pauseRequested, a.requested, a.stepsUsed,
          if transition.Creation? || transition.StepCompletion? then Some(a.checkpoint) else None, a.checkpoint)
  }

  /** Record the agent as it now stands. */
  function Logged(a: Agent, transition: Transition): Agent {
    a.(log := a.log + [EventOf(a, transition)])
  }

  /** What following the references from event `k` ends at; `None` where reading throws. */
  function Lead(log: seq<Event>, k: nat): Option<Data>
    decreases k
  {
    if k >= |log| then None
    else if log[k].data.Some? then log[k].data
    else if log[k].transition.Restoration? && log[k].transition.ref < k then Lead(log, log[k].transition.ref)
    else None
  }

  /** The checkpoint after an event that was projected on `was`. */
  function Projected(was: Agent, e: Event): Data {
    if e.transition.Restoration? then
      var led := Lead(was.log, e.transition.ref);
      if led.Some? then led.value else was.checkpoint
    else if e.data.Some? then e.data.value
    else was.checkpoint
  }

  /** `record` of the state `after` for an agent that is projected as `was`: all of `after` is taken over
      except the checkpoint, which is the one that the written event leads to. */
  function Filed(was: Agent, after: Agent, transition: Transition): Agent {
    Logged(after.(parent := was.parent, run := was.run, log := was.log), transition)
      .(checkpoint := Projected(was, EventOf(after, transition)))
  }

  /** Replay of one agent's events: the checkpoint after the last of them. */
  function Replayed(log: seq<Event>): Option<Data> {
    if log == [] then None
    else
      var front, e := log[..|log| - 1], log[|log| - 1];
      if e.transition.Restoration? then Lead(front, e.transition.ref)
      else if e.data.Some? then e.data
      else Replayed(front)
  }

  /** Events that `checkpoints` lists. */
  predicate Listed(log: seq<Event>, k: nat) {
    k < |log| && (log[k].transition.Creation? || log[k].transition.StepCompletion? || log[k].transition.Restoration?)
  }

  /** The checkpoint that `checkpoints` lists for event `k`. */
  function Saved(log: seq<Event>, k: nat): Data {
    if k < |log| && Replayed(log[..k + 1]).Some? then Replayed(log[..k + 1]).value else ""
  }

  predicate Stopped(a: Agent) {
    a.status in {Completed, Failed, Interrupted} || a.requested
  }

  predicate Hurt(a: Agent) {
    a.status in {Failed, Interrupted} || a.requested
  }

  // ---- trees

  /** Parents exist before their children and share their Run. */
  ghost predicate Rooted(agents: seq<Agent>) {
    forall i: nat | i < |agents| && agents[i].parent.Some? ::
      agents[i].parent.value < i && agents[agents[i].parent.value].run == agents[i].run
  }

  /** `i` belongs to the scope of `top`: `top` itself or a descendant. */
  predicate Under(agents: seq<Agent>, top: Id, i: Id)
    requires i < |agents|
    decreases i
  {
    i == top || (agents[i].parent.Some? && agents[i].parent.value < i && Under(agents, top, agents[i].parent.value))
  }

  function Root(agents: seq<Agent>, i: Id): (r: Id)
    requires i < |agents|
    ensures r <= i && Under(agents, r, i)
    decreases i
  {
    if agents[i].parent.Some? && agents[i].parent.value < i then Root(agents, agents[i].parent.value) else i
  }

  /** The same agents with the same parents, whatever their states. */
  ghost predicate SameShape(a: seq<Agent>, b: seq<Agent>) {
    |a| == |b| && forall i: nat | i < |a| :: a[i].parent == b[i].parent && a[i].run == b[i].run
  }

  lemma {:induction false} ShapeKeeps(a: seq<Agent>, b: seq<Agent>, top: Id, i: Id)
    requires SameShape(a, b) && i < |a|
    ensures Under(a, top, i) == Under(b, top, i) && Root(a, i) == Root(b, i)
    decreases i
  {
    if a[i].parent.Some? && a[i].parent.value < i { ShapeKeeps(a, b, top, a[i].parent.value); }
  }

  lemma {:induction false} UnderIsLater(agents: seq<Agent>, top: Id, i: Id)
    requires i < |agents| && Under(agents, top, i)
    ensures top <= i
    decreases i
  {
    if i != top { UnderIsLater(agents, top, agents[i].parent.value); }
  }

  /** The scope of a root is its whole tree. */
  lemma {:induction false} TreeOfRoot(agents: seq<Agent>, top: Id, i: Id)
    requires Rooted(agents) && top < |agents| && agents[top].parent == None && i < |agents|
    ensures Under(agents, top, i) <==> Root(agents, i) == top
    decreases i
  {
    if agents[i].parent.Some? { TreeOfRoot(agents, top, agents[i].parent.value); }
  }

  // ---- what cancelling and completing mean

  predicate IsActive(a: Agent, i: Id, quanta: set<Id>, recoveries: set<Id>) {
    (a.status in {Checking, Running} && i in quanta) || (a.status.Recovering? && i in recoveries)
  }

  function Cancel(a: Agent, active: bool): Agent {
    if Stopped(a) then a
    else
      Logged(a.(status := if active then a.status else Interrupted, pauseRequested := false, requested := true),
             if active then InterruptRequest else Interruption)
  }

  function CancelTree(agents: seq<Agent>, root: Id, quanta: set<Id>, recoveries: set<Id>): (r: seq<Agent>)
    ensures |r| == |agents|
  {
    seq(|agents|, i requires 0 <= i < |agents| =>
      if Root(agents, i) == root then Cancel(agents[i], IsActive(agents[i], i, quanta, recoveries)) else agents[i])
  }

  ghost predicate Broken(agents: seq<Agent>, root: Id) {
    exists i: nat :: i < |agents| && Root(agents, i) == root && Hurt(agents[i])
  }

  /** A waiting agent whose whole scope below is completed or finishes with it. */
  predicate Finishes(agents: seq<Agent>, i: Id)
    requires i < |agents|
    decreases |agents| - i
  {
    agents[i].status.Waiting?
    && forall c | i < c < |agents| && agents[c].parent == Some(i) :: agents[c].status.Completed? || Finishes(agents, c)
  }

  function Complete(a: Agent): Agent {
    Logged(a.(status := Completed, requested := false), ScopeCompletion)
  }

  function CompleteTree(agents: seq<Agent>, root: Id): (r: seq<Agent>)
    ensures |r| == |agents|
  {
    seq(|agents|, i requires 0 <= i < |agents| =>
      if Root(agents, i) == root && Finishes(agents, i) then Complete(agents[i]) else agents[i])
  }

  /** What one visit of `reconcileScopes` makes of the tree of `root`. */
  ghost function SettleTree(agents: seq<Agent>, root: Id, quanta: set<Id>, recoveries: set<Id>): (r: seq<Agent>)
    ensures |r| == |agents|
  {
    if Broken(agents, root) then CancelTree(agents, root, quanta, recoveries) else CompleteTree(agents, root)
  }

  /** All dirty trees at once. */
  ghost function Settle(agents: seq<Agent>, dirty: set<Id>, quanta: set<Id>, recoveries: set<Id>): (r: seq<Agent>)
    ensures |r| == |agents|
  {
    seq(|agents|, i requires 0 <= i < |agents| =>
      if Root(agents, i) in dirty then SettleTree(agents, Root(agents, i), quanta, recoveries)[i] else agents[i])
  }

  /** No visit would change the tree: a hurt tree has only stopped members, and in any other tree no
      waiting agent has only completed children. */
  ghost predicate TreeSettled(agents: seq<Agent>, root: Id) {
    forall i: nat | i < |agents| && Root(agents, i) == root ::
      if exists h: nat :: h < |agents| && Root(agents, h) == root && (agents[h].status.Failed? || agents[h].status.Interrupted? || agents[h].requested) then
        agents[i].status.Completed? || agents[i].status.Failed? || agents[i].status.Interrupted? || agents[i].requested
      else agents[i].status.Waiting? ==> exists c: nat :: c < |agents| && agents[c].parent == Some(i) && !agents[c].status.Completed?
  }

  lemma TreeSettledBy(agents: seq<Agent>, root: Id)
    ensures TreeSettled(agents, root) <==>
            forall i: nat | i < |agents| && Root(agents, i) == root ::
              if Broken(agents, root) then Stopped(agents[i])
              else agents[i].status.Waiting? ==> exists c: nat :: c < |agents| && agents[c].parent == Some(i) && !agents[c].status.Completed?
  {
    hide Root;
  }

  lemma SettledTreeIsSettled(agents: seq<Agent>, root: Id, quanta: set<Id>, recoveries: set<Id>)
    requires Rooted(agents)
    ensures TreeSettled(SettleTree(agents, root, quanta, recoveries), root)
    ensures SameShape(agents, SettleTree(agents, root, quanta, recoveries))
    ensures Broken(agents, root) <==> Broken(SettleTree(agents, root, quanta, recoveries), root)
  {
    var after := SettleTree(agents, root, quanta, recoveries);
    forall i: nat | i < |agents| ensures Root(agents, i) == Root(after, i) { ShapeKeeps(agents, after, root, i); }
    TreeSettledBy(after, root);
    hide TreeSettled;
    if Broken(agents, root) {
      var i: nat :| i < |agents| && Root(agents, i) == root && Hurt(agents[i]);
      assert Hurt(after[i]);
    } else {
      forall i: nat | i < |agents| && Root(agents, i) == root && after[i].status.Waiting?
        ensures exists c: nat :: c < |agents| && agents[c].parent == Some(i) && !after[c].status.Completed?
      {
        hide Root, Broken;
        var c :| i < c < |agents| && agents[c].parent == Some(i) && !agents[c].status.Completed? && !Finishes(agents, c);
        assert after[c] == agents[c];
      }
    }
  }
}
