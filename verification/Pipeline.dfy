/** `executePipeline`: any number of programs interleaving on one coordinator. Every action is one
    stretch of code between two awaits. */
module Pipeline {
  import opened DependencyGraph
  import opened Coordinator
  import Validator

  datatype Option<T> = None | Some(value: T)

  datatype Status = Succeeded | Failed | Cancelled | Indeterminate | RolledBack | Partial
  datatype Result = Result(rollback: bool, status: Status)
  datatype Condition = InstructionStatus(id: Id, status: Status) | External

  datatype Instr = Instr(
    id: Id, rollback: bool, resources: set<Resource>, dependsOn: seq<Id>, conditions: seq<Condition>,
    key: string, fingerprint: nat)
  datatype Program = Program(instrs: seq<Instr>, maxConcurrency: nat)
  type Config = seq<Program>

  /** Instruction `i` of program `p`. */
  datatype Ref = Ref(p: nat, i: nat)

  predicate Declared(c: Config, r: Ref) {
    r.p < |c| && r.i < |c[r.p].instrs|
  }

  function InstrOf(c: Config, r: Ref): Instr
    requires Declared(c, r)
  {
    c[r.p].instrs[r.i]
  }

  predicate Commits(c: Config, r: Ref)
    requires Declared(c, r)
  {
    "io.write" in InstrOf(c, r).resources || "journal.write" in InstrOf(c, r).resources
  }

  function RawOf(instrs: seq<Instr>): seq<Validator.Raw> {
    seq(|instrs|, k requires 0 <= k < |instrs| => Validator.Raw(instrs[k].id, true, instrs[k].dependsOn))
  }

  /** Every program passed validation and its concurrency was clamped to at least one. */
  ghost predicate Validated(c: Config) {
    forall p | 0 <= p < |c| :: Validator.WellFormed(RawOf(c[p].instrs)) && c[p].maxConcurrency >= 1
  }

  datatype Phase =
    | Pending
    | Dropped                   // got its result without running: skipped, cancelled or in conflict
    | Joined(owner: Ref)
    | Locking                   // inside `acquire`; granted once the table says so
    | WaitCommit
    | Checking(next: nat)
    | Executing
    | Releasing(result: Result) // the run is over, its locks are not released yet
    | Settled(result: Result)

  datatype Task = Task(phase: Phase, active: bool, completed: Option<Result>)
  datatype Control = AtLoop | Racing | Finished | Rejected

  datatype State = State(
    tasks: map<Ref, Task>, control: seq<Control>, aborted: set<nat>,
    table: Table<Ref>, commits: seq<Ref>, inFlight: map<string, Ref>)

  ghost predicate Shape(c: Config, s: State) {
    (forall r :: r in s.tasks <==> Declared(c, r)) && |s.control| == |c|
  }

  predicate Succeeds(r: Result) {
    r.status == Succeeded || (r.rollback && r.status == RolledBack)
  }

  predicate Owned(f: Phase) {
    f.Locking? || Holds(f) || f.Settled?
  }

  predicate Holds(f: Phase) {
    f.WaitCommit? || f.Checking? || f.Executing? || f.Releasing?
  }

  ghost predicate ResultIs(c: Config, s: State, p: nat, id: Id, x: Result) {
    exists i: nat {:trigger Ref(p, i)} :: Declared(c, Ref(p, i)) && Ref(p, i) in s.tasks && c[p].instrs[i].id == id
      && s.tasks[Ref(p, i)].completed == Some(x)
  }

  ghost predicate HasResult(c: Config, s: State, p: nat, id: Id) {
    exists x :: ResultIs(c, s, p, id, x)
  }

  ghost predicate DependenciesDone(c: Config, s: State, r: Ref)
    requires Declared(c, r)
  {
    forall d | d in InstrOf(c, r).dependsOn :: HasResult(c, s, r.p, d)
  }

  ghost predicate DependenciesSucceeded(c: Config, s: State, r: Ref)
    requires Declared(c, r)
  {
    forall d | d in InstrOf(c, r).dependsOn :: exists x :: ResultIs(c, s, r.p, d, x) && Succeeds(x)
  }

  ghost function ActiveOf(s: State, p: nat): set<Ref> {
    set r | r in s.tasks && r.p == p && s.tasks[r].active
  }

  ghost function PendingOf(s: State, p: nat): set<Ref> {
    set r | r in s.tasks && r.p == p && s.tasks[r].phase.Pending?
  }

  ghost predicate HasWork(s: State, p: nat) {
    PendingOf(s, p) != {} || ActiveOf(s, p) != {}
  }

  // ---- the synchronous pass of one program

  ghost function Drop(s: State, r: Ref, x: Result): State {
    s.(tasks := s.tasks[r := Task(Dropped, false, Some(x))])
  }

  /** `start`: join the operation in flight under this key, refuse a different one, or own it. */
  ghost function Start(c: Config, s: State, r: Ref): State
    requires Declared(c, r)
  {
    var instr := InstrOf(c, r);
    if instr.key in s.inFlight then
      var owner := s.inFlight[instr.key];
      if Declared(c, owner) && InstrOf(c, owner).fingerprint == instr.fingerprint then
        s.(tasks := s.tasks[r := Task(Joined(owner), true, None)])
      else Drop(s, r, Result(instr.rollback, Failed))
    else
      s.(tasks := s.tasks[r := Task(Locking, true, None)],
         table := Request(s.table, Waiter(r, instr.resources)),
         inFlight := s.inFlight[instr.key := r])
  }

  /** A pending instruction whose dependencies all have results: skip it or start it. */
  ghost function Visit(c: Config, s: State, r: Ref): (t: State)
    requires Declared(c, r)
    ensures t.control == s.control
  {
    if DependenciesSucceeded(c, s, r) then Start(c, s, r) else Drop(s, r, Result(InstrOf(c, r).rollback, Partial))
  }

  datatype PassEnd = PassEnd(state: State, progressed: bool)

  /** The `for` over pending ids, from position `i`. */
  ghost function Pass(c: Config, s: State, p: nat, i: nat, progressed: bool): (end: PassEnd)
    requires p < |c| && i <= |c[p].instrs|
    ensures end.state.control == s.control
    decreases |c[p].instrs| - i
  {
    var r := Ref(p, i);
    if i == |c[p].instrs| then PassEnd(s, progressed)
    else if r !in s.tasks || !s.tasks[r].phase.Pending? then Pass(c, s, p, i + 1, progressed)
    else if |ActiveOf(s, p)| >= c[p].maxConcurrency then PassEnd(s, progressed)
    else if !DependenciesDone(c, s, r) then Pass(c, s, p, i + 1, progressed)
    else Pass(c, Visit(c, s, r), p, i + 1, true)
  }

  ghost function DropPending(c: Config, s: State, p: nat): State
    requires Shape(c, s)
  {
    s.(tasks := map r | r in s.tasks ::
         if r.p == p && s.tasks[r].phase.Pending? then Task(Dropped, false, Some(Result(InstrOf(c, r).rollback, Cancelled)))
         else s.tasks[r])
  }

  ghost function SetControl(s: State, p: nat, k: Control): State
    requires p < |s.control|
  {
    s.(control := s.control[p := k])
  }

  /** The state in which a turn with work left runs its pass. */
  ghost function Ready(c: Config, s: State, p: nat): State
    requires Shape(c, s)
  {
    if p in s.aborted then DropPending(c, s, p) else s
  }

  /** One turn of the `while` loop up to its await. */
  ghost function Turn(c: Config, s: State, p: nat): State
    requires Shape(c, s) && p < |c|
  {
    if !HasWork(s, p) then SetControl(s, p, Finished)
    else
      var end := Pass(c, Ready(c, s, p), p, 0, false);
      if ActiveOf(end.state, p) != {} then SetControl(end.state, p, Racing)
      else if PendingOf(end.state, p) != {} && !end.progressed then SetControl(end.state, p, Rejected)
      else end.state
  }

  // ---- one instruction's run

  ghost function SetPhase(s: State, r: Ref, f: Phase): State
    requires r in s.tasks
  {
    s.(tasks := s.tasks[r := s.tasks[r].(phase := f)])
  }

  /** The run returned: a commit ticket goes back to the queue first, the locks follow later. */
  ghost function Conclude(c: Config, s: State, r: Ref, status: Status): State
    requires r in s.tasks && Declared(c, r)
  {
    var t := SetPhase(s, r, Releasing(Result(InstrOf(c, r).rollback, status)));
    if Commits(c, r) && s.commits != [] then t.(commits := s.commits[1..]) else t
  }

  ghost function Enter(c: Config, s: State, r: Ref): State
    requires r in s.tasks && Declared(c, r)
  {
    if r.p in s.aborted then Conclude(c, s, r, Cancelled) else SetPhase(s, r, Checking(0))
  }

  datatype Action =
    | Loop(p: nat)
    | Wake(p: nat)
    | Abort(p: nat)
    | Begin(r: Ref)
    | EnterCommit(r: Ref)
    | Check(r: Ref, valid: bool)
    | Dispatch(r: Ref)
    | Finish(r: Ref, outcome: Status)
    | Unlock(r: Ref)
    | Deliver(r: Ref)

  ghost predicate Enabled(c: Config, s: State, a: Action)
    requires Shape(c, s)
  {
    match a
    case Loop(p) => p < |c| && s.control[p].AtLoop?
    case Wake(p) => p < |c| && s.control[p].Racing? && exists r :: r in ActiveOf(s, p) && s.tasks[r].completed.Some?
    case Abort(p) => p < |c|
    case Begin(r) => r in s.tasks && s.tasks[r].phase.Locking? && r in s.table.live
    case EnterCommit(r) => r in s.tasks && s.tasks[r].phase.WaitCommit? && s.commits != [] && s.commits[0] == r
    case Check(r, valid) =>
      && r in s.tasks && s.tasks[r].phase.Checking?
      && s.tasks[r].phase.next < |InstrOf(c, r).conditions|
      && (var condition := InstrOf(c, r).conditions[s.tasks[r].phase.next];
          condition.InstructionStatus? ==>
            (valid <==> exists x :: ResultIs(c, s, r.p, condition.id, x) && x.status == condition.status))
    case Dispatch(r) =>
      r in s.tasks && s.tasks[r].phase.Checking? && s.tasks[r].phase.next == |InstrOf(c, r).conditions|
    case Finish(r, _) => r in s.tasks && s.tasks[r].phase.Executing?
    case Unlock(r) => r in s.tasks && s.tasks[r].phase.Releasing? && r in s.table.live
    case Deliver(r) =>
      && r in s.tasks && s.tasks[r].completed.None?
      && (s.tasks[r].phase.Settled?
          || (s.tasks[r].phase.Joined? && s.tasks[r].phase.owner in s.tasks && s.tasks[s.tasks[r].phase.owner].phase.Settled?))
  }

  ghost function Apply(c: Config, s: State, a: Action): State
    requires Shape(c, s) && Enabled(c, s, a)
  {
    match a
    case Loop(p) => Turn(c, s, p)
    case Wake(p) =>
      SetControl(s, p, AtLoop).(tasks := map r | r in s.tasks ::
        if r.p == p && s.tasks[r].completed.Some? then s.tasks[r].(active := false) else s.tasks[r])
    case Abort(p) => s.(aborted := s.aborted + {p})
    case Begin(r) =>
      if Commits(c, r) then SetPhase(s, r, WaitCommit).(commits := s.commits + [r]) else Enter(c, s, r)
    case EnterCommit(r) => Enter(c, s, r)
    case Check(r, valid) =>
      if valid then SetPhase(s, r, Checking(s.tasks[r].phase.next + 1)) else Conclude(c, s, r, Failed)
    case Dispatch(r) => if r.p in s.aborted then Conclude(c, s, r, Cancelled) else SetPhase(s, r, Executing)
    case Finish(r, outcome) => Conclude(c, s, r, outcome)
    case Unlock(r) => SetPhase(s, r, Settled(s.tasks[r].phase.result)).(table := Free(s.table, r))
    case Deliver(r) =>
      if s.tasks[r].phase.Settled? then
        var key := InstrOf(c, r).key;
        s.(tasks := s.tasks[r := s.tasks[r].(completed := Some(s.tasks[r].phase.result))],
           inFlight := if key in s.inFlight && s.inFlight[key] == r then s.inFlight - {key} else s.inFlight)
      else
        s.(tasks := s.tasks[r := s.tasks[r].(completed := Some(s.tasks[s.tasks[r].phase.owner].phase.result))])
  }

  ghost predicate Initial(c: Config, s: State) {
    && Shape(c, s)
    && (forall r | r in s.tasks :: s.tasks[r] == Task(Pending, false, None))
    && (forall p | 0 <= p < |c| :: s.control[p].AtLoop?)
    && s.table == Table({}, [], map[]) && s.commits == [] && s.inFlight == map[]
  }
}
