/** The agent journal (`journal.ts`): control events without data, checkpoints stored once, restorations
    that refer back by sequence number. */
module AgentJournal {
  import AgentScopes

  /** JSON data stands for itself; `Control` is an agent state without its input and checkpoint. */
  type Data = string
  type AgentId = string

  datatype Option<T> = None | Some(value: T)
  datatype Control = Control(id: AgentId, rest: AgentScopes.Standing)
  datatype AgentState = AgentState(control: Control, input: Data, checkpoint: Data)
  datatype Transition = Created | StepCompleted | Restored | Other(name: string)

  datatype Payload =
    | V1(transition: Transition, state: AgentState)
    | V2(transition: Transition, control: Control, input: Option<Data>, checkpoint: Option<Data>, ref: Option<int>)
    | UnknownVersion(id: AgentId)
    | Foreign // an event of another type

  /** Sequence numbers are shared with other domains, so a domain's own may have gaps. */
  datatype Event = Event(at: int, payload: Payload)
  type Journal = seq<Event>

  predicate Ordered(j: Journal) {
    && (forall k | 0 <= k < |j| :: j[k].at >= 1)
    && forall k, m | 0 <= k < m < |j| :: j[k].at < j[m].at
  }

  predicate IsCheckpoint(t: Transition) {
    t.Created? || t.StepCompleted? || t.Restored?
  }

  // ---- reading

  function Find(j: Journal, s: int): Option<Event> {
    if j == [] then None
    else if j[|j| - 1].at == s then Some(j[|j| - 1])
    else Find(j[..|j| - 1], s)
  }

  function IdOf(p: Payload): AgentId
    requires !p.Foreign?
  {
    match p
    case V1(_, state) => state.control.id
    case V2(_, control, _, _, _) => control.id
    case UnknownVersion(id) => id
  }

  predicate BelongsTo(e: Option<Event>, id: AgentId) {
    e.Some? && !e.value.payload.Foreign? && IdOf(e.value.payload) == id
  }

  predicate RefersBack(ref: Option<int>, s: int) {
    ref.Some? && 1 <= ref.value < s
  }

  /** `None` where the source throws. */
  function ReadCheckpoint(j: Journal, s: int, id: AgentId): Option<Data>
    decreases if s < 0 then 0 else s
  {
    var e := Find(j, s);
    if !BelongsTo(e, id) || e.value.payload.UnknownVersion? then None
    else if e.value.payload.V1? then Some(e.value.payload.state.checkpoint)
    else if e.value.payload.checkpoint.Some? then e.value.payload.checkpoint
    else if RefersBack(e.value.payload.ref, s) then ReadCheckpoint(j, e.value.payload.ref.value, id)
    else None
  }

  /** `readAgentCheckpoint` */
  method ReadAgentCheckpoint(j: Journal, from: int, id: AgentId) returns (r: Option<Data>)
    ensures r == ReadCheckpoint(j, from, id)
  {
    var s := from;
    while true
      invariant ReadCheckpoint(j, s, id) == ReadCheckpoint(j, from, id)
      decreases if s < 0 then 0 else s
    {
      var e := Find(j, s);
      if e.None? || e.value.payload.Foreign? || IdOf(e.value.payload) != id { return None; }
      var payload := e.value.payload;
      if payload.V1? { return Some(payload.state.checkpoint); }
      if !payload.V2? { return None; }
      if payload.checkpoint.Some? { return payload.checkpoint; }
      if payload.ref.None? || payload.ref.value < 1 || payload.ref.value >= s { return None; }
      s := payload.ref.value;
    }
  }

  /** `projectAgentEvent` */
  function Project(j: Journal, e: Event, previous: Option<AgentState>): Option<AgentState>
    requires !e.payload.Foreign?
  {
    match e.payload
    case V1(_, state) => Some(state)
    case V2(transition, control, input, checkpoint, ref) =>
      if transition.Created? && (input.None? || checkpoint.None?) then None
      else if transition.StepCompleted? && checkpoint.None? then None
      else if input.None? && previous.None? then None
      else
        var data :=
          if transition.Restored? then if RefersBack(ref, e.at) then ReadCheckpoint(j, ref.value, control.id) else None
          else if checkpoint.Some? then checkpoint
          else if previous.Some? then Some(previous.value.checkpoint) else None;
        if data.None? then None
        else Some(AgentState(control, if input.Some? then input.value else previous.value.input, data.value))
    case UnknownVersion(_) => None
  }

  type States = map<AgentId, AgentState>

  function Lookup(states: States, id: AgentId): Option<AgentState> {
    if id in states then Some(states[id]) else None
  }

  /** One round of the loop in `sync`. */
  function Step(j: Journal, states: States, e: Event): Option<States> {
    if e.payload.Foreign? then Some(states)
    else
      var next := Project(j, e, Lookup(states, IdOf(e.payload)));
      if next.Some? then Some(states[IdOf(e.payload) := next.value]) else None
  }

  /** Replay from empty. */
  function Replay(j: Journal): Option<States> {
    if j == [] then Some(map[])
    else
      var before := Replay(j[..|j| - 1]);
      if before.Some? then Step(j, before.value, j[|j| - 1]) else None
  }

  // ---- what reading means

  /** The event of a sequence number, and none where there is none. */
  lemma {:induction false} FindExactly(j: Journal, s: int)
    requires Ordered(j)
    ensures forall e :: Find(j, s) == Some(e) <==> e in j && e.at == s
  {
    if j != [] {
      var front, last := j[..|j| - 1], j[|j| - 1];
      FindExactly(front, s);
      assert j == front + [last];
      forall e | e in front ensures e.at < last.at {
        var k :| 0 <= k < |front| && front[k] == e;
        assert j[k].at < j[|j| - 1].at;
      }
    }
  }

  /** A control event of the agent without data, which refers to an earlier event. */
  predicate Refers(j: Journal, id: AgentId, s: int, t: int) {
    var e := Find(j, s);
    BelongsTo(e, id) && e.value.payload.V2? && e.value.payload.checkpoint.None? && e.value.payload.ref == Some(t) && 1 <= t < s
  }

  predicate Holds(j: Journal, id: AgentId, s: int, data: Data) {
    var e := Find(j, s);
    && BelongsTo(e, id)
    && match e.value.payload
       case V1(_, state) => data == state.checkpoint
       case V2(_, _, _, checkpoint, _) => checkpoint == Some(data)
       case _ => false
  }

  /** Where the references from a sequence number lead. */
  ghost predicate IsTrail(j: Journal, trail: seq<int>, id: AgentId, data: Data) {
    && trail != [] && (forall k | 0 <= k < |trail| - 1 :: Refers(j, id, trail[k], trail[k + 1]))
    && Holds(j, id, trail[|trail| - 1], data)
  }

  lemma {:induction false} TrailIsRead(j: Journal, trail: seq<int>, id: AgentId, data: Data)
    requires IsTrail(j, trail, id, data)
    ensures ReadCheckpoint(j, trail[0], id) == Some(data)
    decreases |trail|
  {
    hide Find;
    if |trail| > 1 {
      assert Refers(j, id, trail[0], trail[1]);
      assert trail[1..][0] == trail[1];
      TrailIsRead(j, trail[1..], id, data);
    }
  }

  lemma {:induction false} ReadHasATrail(j: Journal, s: int, id: AgentId) returns (trail: seq<int>)
    requires ReadCheckpoint(j, s, id).Some?
    ensures IsTrail(j, trail, id, ReadCheckpoint(j, s, id).value) && trail[0] == s
    decreases if s < 0 then 0 else s
  {
    hide Find;
    var e := Find(j, s);
    if e.value.payload.V1? || e.value.payload.checkpoint.Some? {
      trail := [s];
    } else {
      var rest := ReadHasATrail(j, e.value.payload.ref.value, id);
      assert Refers(j, id, s, rest[0]);
      trail := [s] + rest;
      hide Refers, Holds;
    }
  }

  /** A checkpoint is read exactly where the references lead to one. */
  lemma ReadsAlongReferences(j: Journal, s: int, id: AgentId, data: Data)
    ensures ReadCheckpoint(j, s, id) == Some(data) <==> exists trail :: IsTrail(j, trail, id, data) && trail[0] == s
  {
    if ReadCheckpoint(j, s, id) == Some(data) {
      var trail := ReadHasATrail(j, s, id);
    }
    if trail :| IsTrail(j, trail, id, data) && trail[0] == s {
      TrailIsRead(j, trail, id, data);
    }
  }

  /** A complete state stands for itself. A control event brings its own data, and must where the agent is created or a
      step was completed; a restoration has the checkpoint that its reference leads to; what is not brought stays. */
  predicate IsProjection(j: Journal, e: Event, previous: Option<AgentState>, s: AgentState) {
    match e.payload
    case V1(_, state) => s == state
    case V2(transition, control, input, checkpoint, ref) =>
      && s.control == control
      && (if input.Some? then s.input == input.value else previous.Some? && s.input == previous.value.input)
      && (transition.Created? ==> input.Some? && checkpoint.Some?) && (transition.StepCompleted? ==> checkpoint.Some?)
      && (if transition.Restored? then ref.Some? && 1 <= ref.value < e.at && ReadCheckpoint(j, ref.value, control.id) == Some(s.checkpoint)
          else if checkpoint.Some? then s.checkpoint == checkpoint.value
          else previous.Some? && s.checkpoint == previous.value.checkpoint)
    case _ => false
  }

  lemma ProjectsExactly(j: Journal, e: Event, previous: Option<AgentState>, s: AgentState)
    requires !e.payload.Foreign?
    ensures Project(j, e, previous) == Some(s) <==> IsProjection(j, e, previous, s)
  {
    hide ReadCheckpoint;
  }

  // ---- events read only what came before them

  lemma {:induction false} FindEarlier(j: Journal, more: Journal, s: int)
    requires Ordered(j + more) && (j == [] ==> s < 1) && (j != [] ==> s <= j[|j| - 1].at)
    ensures Find(j + more, s) == Find(j, s)
  {
    if more == [] {
      assert j + more == j;
    } else {
      var front := more[..|more| - 1];
      assert (j + more)[..|j + more| - 1] == j + front;
      FindEarlier(j, front, s);
      var last := |j + more| - 1;
      assert j != [] ==> (j + more)[|j| - 1].at < (j + more)[last].at;
    }
  }

  lemma {:induction false} ReadEarlier(j: Journal, more: Journal, s: int, id: AgentId)
    requires Ordered(j + more) && (j == [] ==> s < 1) && (j != [] ==> s <= j[|j| - 1].at)
    ensures ReadCheckpoint(j + more, s, id) == ReadCheckpoint(j, s, id)
    decreases if s < 0 then 0 else s
  {
    FindEarlier(j, more, s);
    var e := Find(j, s);
    if e.Some? && e.value.payload.V2? && RefersBack(e.value.payload.ref, s) { ReadEarlier(j, more, e.value.payload.ref.value, id); }
  }

  lemma ProjectEarlier(j: Journal, more: Journal, previous: Option<AgentState>)
    requires Ordered(j + more) && j != [] && !j[|j| - 1].payload.Foreign?
    ensures Project(j + more, j[|j| - 1], previous) == Project(j, j[|j| - 1], previous)
  {
    var e := j[|j| - 1];
    if e.payload.V2? && RefersBack(e.payload.ref, e.at) { ReadEarlier(j, more, e.payload.ref.value, e.payload.control.id); }
  }

  // ---- the incremental projection

  /** The fields of the runtime that `sync` updates. */
  class Projection {
    var states: States
    var cursor: int

    /** The first `n` events are the ones already projected. */
    ghost predicate UpTo(j: Journal, n: nat)
      reads this
    {
      && n <= |j| && Replay(j[..n]) == Some(states)
      && (forall k | 0 <= k < n :: j[k].at < cursor) && (forall k | n <= k < |j| :: cursor <= j[k].at)
    }

    constructor ()
      ensures states == map[] && cursor == 0
    {
      states, cursor := map[], 0;
    }

    /** `sync` from the cursor gives what a replay from empty gives, and throws when that throws. */
    method Sync(j: Journal, ghost n: nat) returns (ok: bool)
      requires Ordered(j) && UpTo(j, n)
      modifies this
      ensures ok <==> Replay(j).Some?
      ensures if ok then UpTo(j, |j|) && Replay(j) == Some(states) else exists m :: UpTo(j, m)
    {
      var k := 0;
      while k < |j| && j[k].at < cursor
        invariant 0 <= k <= n
      {
        k := k + 1;
      }
      assert k == n;
      while k < |j|
        invariant n <= k <= |j| && UpTo(j, k)
      {
        var e := j[k];
        assert j[..k + 1][..k] == j[..k] && j[..k + 1] + j[k + 1..] == j;
        if !e.payload.Foreign? {
          ProjectEarlier(j[..k + 1], j[k + 1..], Lookup(states, IdOf(e.payload)));
          var next := Project(j, e, Lookup(states, IdOf(e.payload)));
          if next.None? {
            ReplayStops(j, k + 1);
            return false;
          }
          states := states[IdOf(e.payload) := next.value];
        }
        cursor := e.at + 1;
        k := k + 1;
      }
      assert j[..|j|] == j;
      return true;
    }
  }

  lemma {:induction false} ReplayStops(j: Journal, n: nat)
    requires n <= |j| && Replay(j[..n]).None?
    ensures Replay(j).None?
  {
    if n == |j| {
      assert j[..n] == j;
    } else {
      assert j[..|j| - 1][..n] == j[..n];
      ReplayStops(j[..|j| - 1], n);
    }
  }

  // ---- writing

  /** What is handed to `record`: the full state, the transition and maybe a checkpoint reference. */
  datatype Call = Call(state: AgentState, transition: Transition, ref: Option<int>)

  /** `append` keeps the data of a call only where the transition introduces it. */
  function Compact(c: Call): Payload {
    match c.transition
    case Created => V2(Created, c.state.control, Some(c.state.input), Some(c.state.checkpoint), None)
    case StepCompleted => V2(StepCompleted, c.state.control, None, Some(c.state.checkpoint), None)
    case Restored => V2(Restored, c.state.control, None, None, c.ref)
    case Other(_) => V2(c.transition, c.state.control, None, None, None)
  }

  /** What `checkpoints` lists is exactly what brings a checkpoint of its own or refers to one. */
  lemma ListsExactlyCheckpoints(c: Call)
    requires c.transition.Restored? ==> c.ref.Some?
    ensures IsCheckpoint(c.transition) <==> Compact(c).checkpoint.Some? || Compact(c).ref.Some?
  {
  }

  /** What the call leaves out is what a reader can recover. */
  predicate Recoverable(j: Journal, previous: Option<AgentState>, c: Call, s: int) {
    c.transition.Created?
    || (previous.Some? && c.state.input == previous.value.input
        && match c.transition
           case Restored => RefersBack(c.ref, s) && ReadCheckpoint(j, c.ref.value, c.state.control.id) == Some(c.state.checkpoint)
           case Other(_) => c.state.checkpoint == previous.value.checkpoint
           case _ => true)
  }

  /** Replaying the compact event gives back exactly the state that was recorded, if and only if what
      the event leaves out can be recovered. */
  lemma ReplayReproducesExactly(j: Journal, states: States, c: Call, s: int)
    requires Ordered(j + [Event(s, Compact(c))]) && Replay(j) == Some(states)
    ensures Replay(j + [Event(s, Compact(c))]) == Some(states[c.state.control.id := c.state])
            <==> Recoverable(j, Lookup(states, c.state.control.id), c, s)
  {
    var e := Event(s, Compact(c));
    var longer := j + [e];
    var previous := Lookup(states, c.state.control.id);
    assert longer[..|j|] == j;
    if c.transition.Restored? && RefersBack(c.ref, s) { RestoredReads(j, e, c.ref.value, c.state.control.id); }
    var next := Project(longer, e, previous);
    assert Replay(longer) == if next.Some? then Some(states[c.state.control.id := next.value]) else None;
    assert next == Some(c.state) <==> Recoverable(j, previous, c, s);
    if next.Some? && states[c.state.control.id := next.value] == states[c.state.control.id := c.state] {
      assert states[c.state.control.id := next.value][c.state.control.id] == next.value;
    }
  }

  /** A reference from a new event is read in the journal before it. */
  lemma {:induction false} RestoredReads(j: Journal, e: Event, s: int, id: AgentId)
    requires Ordered(j + [e]) && s < e.at
    ensures ReadCheckpoint(j + [e], s, id) == ReadCheckpoint(j, s, id)
    decreases if s < 0 then 0 else s
  {
    assert (j + [e])[..|j|] == j && Find(j + [e], s) == Find(j, s);
    var found := Find(j, s);
    if found.Some? && found.value.payload.V2? && RefersBack(found.value.payload.ref, s) { RestoredReads(j, e, found.value.payload.ref.value, id); }
  }

  // ---- checkpoints lead back to what they restored

  /** Restorations carry a reference and no checkpoint of their own. */
  predicate WellWritten(j: Journal) {
    forall k | 0 <= k < |j| && j[k].payload.V2? && j[k].payload.transition.Restored? :: j[k].payload.checkpoint.None?
  }

  lemma {:induction false} FindAt(j: Journal, k: nat)
    requires Ordered(j) && k < |j|
    ensures Find(j, j[k].at) == Some(j[k])
  {
    if k < |j| - 1 { FindAt(j[..|j| - 1], k); }
  }

  /** Whatever `checkpoints` lists for an agent under a sequence number, following the references from
      that number ends at it. */
  lemma CheckpointLeadsBack(j: Journal, k: nat, states: States)
    requires Ordered(j) && WellWritten(j) && k < |j| && Replay(j[..k + 1]) == Some(states)
    requires var p := j[k].payload; (p.V1? || p.V2?) && IsCheckpoint(p.transition)
    ensures IdOf(j[k].payload) in states
    ensures ReadCheckpoint(j, j[k].at, IdOf(j[k].payload)) == Some(states[IdOf(j[k].payload)].checkpoint)
  {
    hide Find;
    var e, id := j[k], IdOf(j[k].payload);
    FindAt(j, k);
    assert j[..k + 1][..k] == j[..k] && j[..k + 1] + j[k + 1..] == j;
    var before := Replay(j[..k]).value;
    ProjectEarlier(j[..k + 1], j[k + 1..], Lookup(before, id));
  }

  // ---- the runtime's own records

  /** The ways the runtime builds the state it records: from the projection it holds, or, where a
      recovery ends without restoring, from the state that was saved when the recovery began. */
  datatype Op =
    | Create(control: Control, input: Data, checkpoint: Data)
    | Amend(transition: string, control: Control)
    | Complete(control: Control, checkpoint: Data)
    | Restore(control: Control, k: nat)
    | Revert(transition: string, control: Control, saved: AgentState)

  /** `k` names an event that `checkpoints` lists for the agent. */
  predicate Listed(j: Journal, id: AgentId, k: nat) {
    k < |j| && (j[k].payload.V1? || j[k].payload.V2?) && IsCheckpoint(j[k].payload.transition) && IdOf(j[k].payload) == id
  }

  ghost predicate Allowed(j: Journal, states: States, op: Op) {
    match op
    case Create(control, _, _) => control.id !in states
    case Amend(_, control) => control.id in states
    case Complete(control, _) => control.id in states
    case Restore(control, k) => control.id in states && Listed(j, control.id, k) && Replay(j[..k + 1]).Some?
    case Revert(_, control, _) => control.id in states
  }

  /** A saved state is still that of the projection as far as a control event leaves it out. */
  predicate UpToDate(states: States, op: Op) {
    op.Revert? && op.control.id in states ==>
      op.saved.input == states[op.control.id].input && op.saved.checkpoint == states[op.control.id].checkpoint
  }

  function CheckpointAt(j: Journal, k: nat, id: AgentId): Data
    requires k < |j| && Replay(j[..k + 1]).Some? && id in Replay(j[..k + 1]).value
  {
    Replay(j[..k + 1]).value[id].checkpoint
  }

  ghost function CallOf(j: Journal, states: States, op: Op): Call
    requires Ordered(j) && WellWritten(j) && Allowed(j, states, op)
  {
    match op
    case Create(control, input, checkpoint) => Call(AgentState(control, input, checkpoint), Created, None)
    case Amend(transition, control) => Call(states[control.id].(control := control), Other(transition), None)
    case Complete(control, checkpoint) => Call(states[control.id].(control := control, checkpoint := checkpoint), StepCompleted, None)
    case Restore(control, k) =>
      CheckpointLeadsBack(j, k, Replay(j[..k + 1]).value);
      Call(states[control.id].(control := control, checkpoint := CheckpointAt(j, k, control.id)), Restored, Some(j[k].at))
    case Revert(transition, control, saved) => Call(saved.(control := control), Other(transition), None)
  }

  lemma OpIsRecoverable(j: Journal, states: States, op: Op, s: int)
    requires Ordered(j) && WellWritten(j) && Replay(j) == Some(states) && Allowed(j, states, op)
    requires s >= 1 && (j != [] ==> s > j[|j| - 1].at)
    ensures var c := CallOf(j, states, op);
            && (Recoverable(j, Lookup(states, c.state.control.id), c, s) <==> UpToDate(states, op))
            && (c.transition.Restored? ==> Compact(c).checkpoint.None?)
  {
    hide Replay, ReadCheckpoint;
    if op.Restore? { CheckpointLeadsBack(j, op.k, Replay(j[..op.k + 1]).value); }
  }

  /** What each operation records of its agent. */
  ghost predicate IsRecordOf(j: Journal, states: States, op: Op, c: Call)
    requires Allowed(j, states, op)
  {
    && c.state.control == op.control
    && match op
       case Create(_, input, checkpoint) => c.transition.Created? && c.state.input == input && c.state.checkpoint == checkpoint
       case Amend(name, control) =>
         && c.transition == Other(name)
         && c.state.input == states[control.id].input && c.state.checkpoint == states[control.id].checkpoint
       case Complete(control, checkpoint) =>
         c.transition.StepCompleted? && c.state.input == states[control.id].input && c.state.checkpoint == checkpoint
       case Restore(control, k) =>
         && c.transition.Restored? && c.ref == Some(j[k].at) && c.state.input == states[control.id].input
         && ReadCheckpoint(j, j[k].at, control.id) == Some(c.state.checkpoint)
       case Revert(name, _, saved) => c.transition == Other(name) && c.state.input == saved.input && c.state.checkpoint == saved.checkpoint
  }

  lemma OperationsRecordExactly(j: Journal, states: States, op: Op)
    requires Ordered(j) && WellWritten(j) && Allowed(j, states, op)
    ensures IsRecordOf(j, states, op, CallOf(j, states, op))
  {
    hide Replay, ReadCheckpoint;
    if op.Restore? { CheckpointLeadsBack(j, op.k, Replay(j[..op.k + 1]).value); }
  }

  lemma OneLonger(j: Journal, e: Event)
    requires Ordered(j) && WellWritten(j) && e.at >= 1 && (j != [] ==> e.at > j[|j| - 1].at)
    requires e.payload.V2? && e.payload.transition.Restored? ==> e.payload.checkpoint.None?
    ensures Ordered(j + [e]) && WellWritten(j + [e])
  {
  }

  /** A record of the runtime is recovered by replay exactly when it was not built from a saved state that
      the projection has left behind: then the projection is exactly what was recorded. */
  lemma RuntimeRecordsReplayExactly(j: Journal, states: States, op: Op, s: int)
    requires Ordered(j) && WellWritten(j) && Replay(j) == Some(states) && Allowed(j, states, op)
    requires s >= 1 && (j != [] ==> s > j[|j| - 1].at)
    ensures var c := CallOf(j, states, op);
            var longer := j + [Event(s, Compact(c))];
            && Ordered(longer) && WellWritten(longer)
            && (Replay(longer) == Some(states[c.state.control.id := c.state]) <==> UpToDate(states, op))
  {
    hide Replay, ReadCheckpoint, Ordered, WellWritten, Recoverable, Allowed;
    var c := CallOf(j, states, op);
    OpIsRecoverable(j, states, op, s);
    OneLonger(j, Event(s, Compact(c)));
    ReplayReproducesExactly(j, states, c, s);
  }
}
