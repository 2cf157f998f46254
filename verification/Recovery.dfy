/** Crash recovery (`recovery/engine.ts`): what is decided for one unfinished operation, and on what evidence. */
module Recovery {

  datatype Option<T> = None | Some(value: T)

  datatype Kind = Process | Filesystem | Gate | Custom | Service | Snapshot | Rollback
  datatype Status = Pending | IntentRegistered | Active | Stopping | Done
  datatype Result = Succeeded | Failed | Cancelled | Restored | Indeterminate(adjudicated: bool)

  /** How the driver that launched the operation could enumerate descendants. */
  datatype Enumeration = Full | Cgroup | Subreaper | NoEnumeration

  datatype Identity = Identity(pgid: Option<nat>, hasCgroup: bool, hasBootId: bool, spawnTime: Option<int>)

  /** `serviceId` is the id up to its last '#'. */
  datatype Operation = Operation(
    id: string, run: string, kind: Kind, serviceId: string, resources: seq<string>, status: Status,
    spawnGated: bool, identity: Option<Identity>, evidence: Option<Enumeration>, validConfig: bool, result: Option<Result>)

  /** What the drivers answer about one operation. `canX` says whether the driver offers the call. */
  datatype Answers = Answers(
    fingerprintMatches: bool, verification: Verification, stop: Stop,
    canSettleTree: bool, treeEmpty: bool,
    groupAlive: bool, canReadBootId: bool, bootChanged: bool, canReadMembers: bool, memberStarts: seq<Option<int>>,
    canTerminateGroup: bool, groupStopConfirmed: bool)
  datatype Verification = IsOriginal | NotOriginal | CannotDetermine

  /** `confirmed_stopped` with what was seen to be gone. The decision does not look at the scope. */
  datatype Stop = NotConfirmed | Confirmed(scope: Scope)
  datatype Scope = DirectChild | ProcessGroup | ContainmentCgroup | SubreaperTree | TrackedTree

  datatype Action = CleanedUnspawned | StoppedAlive | MarkedDead | Isolated
  datatype Decision = Decision(result: Result, release: bool, action: Action)

  const ISOLATE := Decision(Indeterminate(false), false, Isolated)

  predicate Unfinished(op: Operation) {
    op.status.IntentRegistered? || op.status.Active? || op.status.Stopping?
  }

  // ---- the decision

  predicate EarlierMember(spawned: int, starts: seq<Option<int>>) {
    exists k :: 0 <= k < |starts| && starts[k].Some? && starts[k].value < spawned - 1000
  }

  /** The leader is dead: clear its recorded containment, or isolate. */
  function DecideDead(identity: Identity, evidence: Option<Enumeration>, a: Answers): Decision {
    var dead := Decision(Failed, true, MarkedDead);
    if identity.hasCgroup && evidence == Some(Cgroup) then
      if !a.canSettleTree then ISOLATE
      else if a.treeEmpty || a.stop.Confirmed? then dead else ISOLATE
    else if identity.hasCgroup && evidence.None? then ISOLATE
    else if identity.pgid.Some? && a.groupAlive then
      if identity.hasBootId && a.canReadBootId && a.bootChanged then ISOLATE
      else if a.canReadMembers && identity.spawnTime.Some? && EarlierMember(identity.spawnTime.value, a.memberStarts) then ISOLATE
      else if a.canTerminateGroup && a.groupStopConfirmed then dead else ISOLATE
    else dead
  }

  function Decide(op: Operation, a: Answers): Decision {
    if !op.validConfig then ISOLATE
    else if op.kind.Rollback? then if a.fingerprintMatches then Decision(Restored, true, CleanedUnspawned) else ISOLATE
    else if op.kind.Snapshot? then Decision(Failed, true, CleanedUnspawned)
    else if op.identity.None? then
      if op.status.IntentRegistered? && op.spawnGated then Decision(Failed, true, CleanedUnspawned) else ISOLATE
    else
      match a.verification
      case IsOriginal => if a.stop.Confirmed? then Decision(Cancelled, true, StoppedAlive) else ISOLATE
      case NotOriginal => DecideDead(op.identity.value, op.evidence, a)
      case CannotDetermine => ISOLATE
  }

  // ---- the evidence a release rests on

  predicate RunsProcess(op: Operation) {
    !op.kind.Rollback? && !op.kind.Snapshot?
  }

  /** The gate was still closed when the owner died. */
  predicate GateNeverOpened(op: Operation) {
    op.status.IntentRegistered? && op.spawnGated && op.identity.None?
  }

  predicate StopWasConfirmed(op: Operation, a: Answers) {
    op.identity.Some? && a.verification.IsOriginal? && a.stop.Confirmed?
  }

  /** What was recorded as containing the processes holds none any more: a cgroup the launching driver
      enumerated is empty or was stopped, a recorded group is gone or was stopped and is not another
      boot's or an older one's. Without a recorded group there is nothing to be left in. */
  predicate ContainmentGone(identity: Identity, evidence: Option<Enumeration>, a: Answers) {
    if identity.hasCgroup && evidence == Some(Cgroup) then a.canSettleTree && (a.treeEmpty || a.stop.Confirmed?)
    else
      && (identity.hasCgroup ==> evidence.Some?)
      && (identity.pgid.Some? && a.groupAlive ==>
            && a.canTerminateGroup && a.groupStopConfirmed
            && !(identity.hasBootId && a.canReadBootId && a.bootChanged)
            && (a.canReadMembers && identity.spawnTime.Some? ==>
                  forall k | 0 <= k < |a.memberStarts| && a.memberStarts[k].Some? :: a.memberStarts[k].value + 1000 >= identity.spawnTime.value))
  }

  predicate LeaderDeadAndGone(op: Operation, a: Answers) {
    op.identity.Some? && a.verification.NotOriginal? && ContainmentGone(op.identity.value, op.evidence, a)
  }

  /** The answers on which recovery releases an operation's leases: for a process that its gated
      command never executed, its stop was confirmed, or its leader is dead and its recorded
      containment is gone; for a rollback that the tree has the target's fingerprint. */
  lemma ReleasesExactlyOnEvidence(op: Operation, a: Answers)
    ensures Decide(op, a).release
            <==> op.validConfig
                 && match op.kind
                    case Rollback => a.fingerprintMatches
                    case Snapshot => true
                    case _ => GateNeverOpened(op) || StopWasConfirmed(op, a) || LeaderDeadAndGone(op, a)
    ensures Decide(op, a).result.Indeterminate? <==> !Decide(op, a).release
    ensures Decide(op, a).result.Indeterminate? ==> !Decide(op, a).result.adjudicated
  {
  }

  /** The result and the report that an unfinished operation gets: nothing succeeded that nobody saw
      succeed, and whatever the evidence does not settle stays open. */
  predicate IsSettledAs(op: Operation, a: Answers, result: Result, action: Action) {
    && !result.Succeeded?
    && (result.Restored? <==> op.validConfig && op.kind.Rollback? && a.fingerprintMatches)
    && (result.Cancelled? <==> op.validConfig && RunsProcess(op) && StopWasConfirmed(op, a))
    && (result.Failed? <==> op.validConfig && (op.kind.Snapshot? || (RunsProcess(op) && (GateNeverOpened(op) || LeaderDeadAndGone(op, a)))))
    && (result.Indeterminate? ==> !result.adjudicated)
    && (action.Isolated? <==> result.Indeterminate?)
    && (action.StoppedAlive? <==> result.Cancelled?)
    && (action.MarkedDead? <==> op.validConfig && RunsProcess(op) && LeaderDeadAndGone(op, a))
    && (action.CleanedUnspawned? <==> result.Restored? || (op.validConfig && (op.kind.Snapshot? || (RunsProcess(op) && GateNeverOpened(op)))))
  }

  lemma DecidesByEvidence(op: Operation, a: Answers)
    ensures IsSettledAs(op, a, Decide(op, a).result, Decide(op, a).action)
    ensures Decide(op, a).release <==> !Decide(op, a).result.Indeterminate?
  {
  }

  // ---- the store

  datatype Owner = OfOperation(id: string) | OfService(serviceId: string)
  datatype Lease = Lease(owner: Owner, resource: string)
  datatype RunStatus = Running | RunIndeterminate | RunFailed | OtherStatus(name: string)
  datatype Run = Run(id: string, status: RunStatus)

  predicate Ended(status: RunStatus) {
    status in {RunFailed, RunIndeterminate, OtherStatus("succeeded"), OtherStatus("cancelled")}
  }

  predicate DistinctIds(ops: seq<Operation>) {
    forall j, k | 0 <= j < k < |ops| :: ops[j].id != ops[k].id
  }

  /** An instance that keeps its service's lease. */
  predicate Unsettled(op: Operation) {
    op.status != Done || op.result == Some(Indeterminate(false))
  }

  predicate AnyUnsettled(ops: seq<Operation>, serviceId: string) {
    exists k :: 0 <= k < |ops| && ops[k].kind.Service? && ops[k].serviceId == serviceId && Unsettled(ops[k])
  }

  function Settle(op: Operation, a: Answers): Operation {
    if Unfinished(op) then op.(status := Done, result := Some(Decide(op, a).result)) else op
  }

  function SettleAll(ops: seq<Operation>, answers: seq<Answers>): (r: seq<Operation>)
    requires |answers| == |ops|
    ensures |r| == |ops|
  {
    seq(|ops|, k requires 0 <= k < |ops| => Settle(ops[k], answers[k]))
  }

  /** The leases that outlive a recovery. */
  ghost predicate Survives(l: Lease, ops: seq<Operation>, answers: seq<Answers>)
    requires |answers| == |ops|
  {
    match l.owner
    case OfOperation(id) => forall k | 0 <= k < |ops| && ops[k].id == id && Unfinished(ops[k]) :: !Decide(ops[k], answers[k]).release
    case OfService(serviceId) => AnyUnsettled(SettleAll(ops, answers), serviceId)
  }

  function Converge(r: Run, ops: seq<Operation>): Run {
    if r.status != Running || (exists k :: 0 <= k < |ops| && ops[k].run == r.id && ops[k].status != Done) then r
    else r.(status := if exists k :: 0 <= k < |ops| && ops[k].run == r.id && ops[k].result.Some? && ops[k].result.value.Indeterminate? then RunIndeterminate else RunFailed)
  }

  /** What `recover` reports for each operation that it settles. */
  function Reported(ops: seq<Operation>, answers: seq<Answers>): map<string, Action>
    requires |answers| == |ops|
  {
    if ops == [] then map[]
    else
      var n := |ops| - 1;
      var before := Reported(ops[..n], answers[..n]);
      if Unfinished(ops[n]) then before[ops[n].id := Decide(ops[n], answers[n]).action] else before
  }

  lemma {:induction false} AllReported(ops: seq<Operation>, answers: seq<Answers>)
    requires |answers| == |ops| && DistinctIds(ops)
    ensures forall k | 0 <= k < |ops| && Unfinished(ops[k]) ::
              ops[k].id in Reported(ops, answers) && Reported(ops, answers)[ops[k].id] == Decide(ops[k], answers[k]).action
    ensures forall id | id in Reported(ops, answers) :: exists k :: 0 <= k < |ops| && ops[k].id == id && Unfinished(ops[k])
  {
    if ops != [] {
      var n := |ops| - 1;
      AllReported(ops[..n], answers[..n]);
      forall id | id in Reported(ops, answers) ensures exists k :: 0 <= k < |ops| && ops[k].id == id && Unfinished(ops[k]) {
        if id in Reported(ops[..n], answers[..n]) {
          var k :| 0 <= k < n && ops[..n][k].id == id && Unfinished(ops[..n][k]);
          assert ops[k].id == id;
        }
      }
    }
  }

  /** A Run that was going and has no operation left to wait for has failed, or is indeterminate with one
      of its operations. */
  ghost predicate IsConverged(before: Run, after: Run, ops: seq<Operation>) {
    && after.id == before.id
    && (before.status != Running || (exists k :: 0 <= k < |ops| && ops[k].run == before.id && ops[k].status != Done) ==> after == before)
    && (before.status == Running && (forall k | 0 <= k < |ops| && ops[k].run == before.id :: ops[k].status == Done) ==>
          if exists k :: 0 <= k < |ops| && ops[k].run == before.id && ops[k].result.Some? && ops[k].result.value.Indeterminate?
          then after.status == RunIndeterminate else after.status == RunFailed)
  }

  class RecoveryEngine {
    var ops: seq<Operation>
    var leases: set<Lease>
    var runs: seq<Run>

    constructor (ops: seq<Operation>, leases: set<Lease>, runs: seq<Run>)
      ensures this.ops == ops && this.leases == leases && this.runs == runs
    {
      this.ops, this.leases, this.runs := ops, leases, runs;
    }

    /** `recordOperationResult` on an operation that is not done. */
    method RecordOperationResult(k: nat, result: Result, releaseResources: bool)
      requires k < |ops| && ops[k].status != Done
      modifies this`ops, this`leases
      ensures ops == old(ops)[k := old(ops[k]).(status := Done, result := Some(result))]
      ensures leases == if releaseResources && !result.Indeterminate? then set l | l in old(leases) && l.owner != OfOperation(old(ops[k]).id) else old(leases)
    {
      var id := ops[k].id;
      ops := ops[k := ops[k].(status := Done, result := Some(result))];
      if releaseResources && !result.Indeterminate? { leases := set l | l in leases && l.owner != OfOperation(id); }
    }

    /** `finalizeOperation`, the ordinary way to the same record (`supervisor/finalize.ts`). A second
        result is refused; an indeterminate one keeps every lease; any other one deletes the
        operation's persisted leases, whatever `releaseResourceLock` says: that option only spares the
        in-memory lock. `settled` is false when the Run had already ended otherwise. */
    method FinalizeOperation(k: nat, result: Result, releaseResourceLock: bool) returns (recorded: bool, settled: bool)
      requires k < |ops| && ops[k].status != Pending
      modifies this
      ensures recorded <==> old(ops[k]).status != Done
      ensures !recorded ==> ops == old(ops) && leases == old(leases) && runs == old(runs)
      ensures recorded ==> ops == old(ops)[k := old(ops[k]).(status := Done, result := Some(result))]
      ensures recorded && result.Indeterminate? ==> leases == old(leases)
      ensures recorded && !result.Indeterminate? ==> leases == (set l | l in old(leases) && l.owner != OfOperation(old(ops[k]).id)) && runs == old(runs)
      ensures recorded && !settled ==> runs == old(runs)
      ensures recorded && result.Indeterminate? && settled ==>
                |runs| == |old(runs)| && forall j | 0 <= j < |runs| ::
                  runs[j] == if old(runs)[j].id == old(ops[k]).run then old(runs)[j].(status := RunIndeterminate) else old(runs)[j]
    {
      settled := true;
      if ops[k].status == Done { return false, settled; }
      RecordOperationResult(k, result, !result.Indeterminate?);
      recorded := true;
      if result.Indeterminate? { settled := SettleRun(ops[k].run); }
    }

    /** `updateRunStatus(run, 'indeterminate')`, false where it throws. */
    method SettleRun(run: string) returns (ok: bool)
      modifies this`runs
      ensures ok <==> forall j | 0 <= j < |old(runs)| && old(runs)[j].id == run ::
                        old(runs)[j].status !in {RunFailed, OtherStatus("succeeded"), OtherStatus("cancelled")}
      ensures |runs| == |old(runs)| && forall j | 0 <= j < |runs| ::
                runs[j] == if ok && old(runs)[j].id == run then old(runs)[j].(status := RunIndeterminate) else old(runs)[j]
    {
      ok := forall j | 0 <= j < |runs| && runs[j].id == run :: !Ended(runs[j].status) || runs[j].status == RunIndeterminate;
      if !ok { return; }
      var k := 0;
      while k < |runs|
        invariant 0 <= k <= |runs| == |old(runs)|
        invariant forall j | 0 <= j < |runs| ::
                    runs[j] == if j < k && old(runs)[j].id == run then old(runs)[j].(status := RunIndeterminate) else old(runs)[j]
      {
        if runs[k].id == run { runs := runs[k := runs[k].(status := RunIndeterminate)]; }
        k := k + 1;
      }
    }

    /** The persisted part of `internalReleaseResources`. */
    method ReleaseLeases(owner: Owner, resources: seq<string>)
      modifies this`leases
      ensures leases == set l | l in old(leases) && !(l.owner == owner && (resources == [] || l.resource in resources))
    {
      leases := set l | l in leases && !(l.owner == owner && (resources == [] || l.resource in resources));
    }

    method ReleaseOpAndServiceResources(k: nat)
      requires k < |ops|
      modifies this`leases
      ensures leases <= old(leases)
      ensures forall l | l in old(leases) && l !in leases ::
                l.owner == OfOperation(ops[k].id) || (ops[k].kind.Service? && l.owner == OfService(ops[k].serviceId) && !AnyUnsettled(ops, ops[k].serviceId))
    {
      ReleaseLeases(OfOperation(ops[k].id), ops[k].resources);
      if ops[k].kind.Service? && !AnyUnsettled(ops, ops[k].serviceId) {
        ReleaseLeases(OfService(ops[k].serviceId), ops[k].resources);
      }
    }

    /** `recover`. Every unfinished operation is done with the decided result, every lease survives
        exactly when it should, every running run without pending operations is settled. */
    method Recover(answers: seq<Answers>) returns (report: map<string, Action>)
      requires |answers| == |ops| && DistinctIds(ops)
      modifies this
      ensures ops == SettleAll(old(ops), answers)
      ensures forall k | 0 <= k < |ops| && !Unfinished(old(ops)[k]) :: ops[k] == old(ops)[k]
      ensures forall k | 0 <= k < |ops| && Unfinished(old(ops)[k]) ::
                && ops[k].result.Some? && ops[k] == old(ops)[k].(status := Done, result := ops[k].result)
                && ops[k].id in report && IsSettledAs(old(ops)[k], answers[k], ops[k].result.value, report[ops[k].id])
      ensures forall id | id in report :: exists k :: 0 <= k < |ops| && ops[k].id == id && Unfinished(old(ops)[k])
      ensures forall l :: l in leases <==> l in old(leases) && Survives(l, old(ops), answers)
      ensures forall l | l in old(leases) ::
                l in leases <==> match l.owner
                                 case OfOperation(id) => forall k | 0 <= k < |ops| && ops[k].id == id && Unfinished(old(ops)[k]) :: ops[k].result.value.Indeterminate?
                                 case OfService(serviceId) => AnyUnsettled(ops, serviceId)
      ensures |runs| == |old(runs)| && forall k | 0 <= k < |runs| :: runs[k] == Converge(old(runs)[k], ops)
      ensures forall k | 0 <= k < |runs| :: IsConverged(old(runs)[k], runs[k], ops)
    {
      var recovered;
      recovered, report := RecoverOperations(answers);
      ConvergeRuns();
      ReleaseServices(answers, recovered, old(ops), old(leases));
      AllReported(old(ops), answers);
      forall k | 0 <= k < |ops|
        ensures IsSettledAs(old(ops)[k], answers[k], Decide(old(ops)[k], answers[k]).result, Decide(old(ops)[k], answers[k]).action)
        ensures Decide(old(ops)[k], answers[k]).release <==> !Decide(old(ops)[k], answers[k]).result.Indeterminate? {
        DecidesByEvidence(old(ops)[k], answers[k]);
      }
      forall l | l in old(leases) && l.owner.OfOperation?
        ensures l in leases <==> forall k | 0 <= k < |ops| && ops[k].id == l.owner.id && Unfinished(old(ops)[k]) :: ops[k].result.value.Indeterminate?
      {
        assert forall k | 0 <= k < |ops| :: ops[k].id == old(ops)[k].id;
      }
    }

    method RecoverOperations(answers: seq<Answers>) returns (recovered: map<string, bool>, report: map<string, Action>)
      requires |answers| == |ops| && DistinctIds(ops)
      modifies this`ops, this`leases
      ensures ops == SettleAll(old(ops), answers) && leases <= old(leases)
      ensures forall l | l in old(leases) :: KeptSoFar(l, leases, old(ops), ops, answers, |ops|)
      ensures forall s | s in recovered :: !recovered[s] ==> AnyUnsettled(ops, s)
      ensures report == Reported(old(ops), answers)
    {
      recovered, report := map[], map[];
      var k := 0;
      while k < |ops|
        invariant 0 <= k <= |ops| == |old(ops)| && leases <= old(leases)
        invariant forall j | 0 <= j < |ops| :: ops[j] == if j < k then Settle(old(ops)[j], answers[j]) else old(ops)[j]
        invariant forall l | l in old(leases) :: KeptSoFar(l, leases, old(ops), ops, answers, k)
        invariant forall s | s in recovered && !recovered[s] :: AnyUnsettled(ops[..k], s)
        invariant report == Reported(old(ops)[..k], answers[..k])
      {
        ghost var opsBefore, leasesBefore := ops, leases;
        var op := ops[k];
        if Unfinished(op) {
          var decision := Decide(op, answers[k]);
          ReleasesExactlyOnEvidence(op, answers[k]);
          report := report[op.id := decision.action];
          RecordOperationResult(k, decision.result, decision.release);
          if decision.release { ReleaseOpAndServiceResources(k); }
          if op.kind.Service? {
            recovered := recovered[op.serviceId := decision.release && (op.serviceId in recovered ==> recovered[op.serviceId])];
          }
        }
        assert old(ops)[..k + 1][..k] == old(ops)[..k] && answers[..k + 1][..k] == answers[..k];
        forall l | l in old(leases) ensures KeptSoFar(l, leases, old(ops), ops, answers, k + 1) {
          StillKept(l, leasesBefore, leases, old(ops), opsBefore, ops, answers, k);
        }
        forall s | s in recovered && !recovered[s] ensures AnyUnsettled(ops[..k + 1], s) {
          StillUnsettled(opsBefore, ops, answers, k, s);
        }
        k := k + 1;
      }
      assert ops[..k] == ops && old(ops)[..k] == old(ops) && answers[..k] == answers;
    }

    /** Run status convergence. */
    method ConvergeRuns()
      modifies this`runs
      ensures |runs| == |old(runs)| && forall k | 0 <= k < |runs| :: runs[k] == Converge(old(runs)[k], ops)
    {
      var k := 0;
      while k < |runs|
        invariant 0 <= k <= |runs| == |old(runs)|
        invariant forall j | 0 <= j < |runs| :: runs[j] == if j < k then Converge(old(runs)[j], ops) else old(runs)[j]
      {
        var r := runs[k];
        if r.status == Running {
          var hasUnfinished := exists j :: 0 <= j < |ops| && ops[j].run == r.id && ops[j].status != Done;
          if !hasUnfinished {
            var hasIndeterminate := exists j :: 0 <= j < |ops| && ops[j].run == r.id && ops[j].result.Some? && ops[j].result.value.Indeterminate?;
            runs := runs[k := r.(status := if hasIndeterminate then RunIndeterminate else RunFailed)];
          }
        }
        k := k + 1;
      }
    }

    /** Service aggregation and the clean-up of backoff leases. */
    method ReleaseServices(answers: seq<Answers>, recovered: map<string, bool>, ghost opsThen: seq<Operation>, ghost leasesThen: set<Lease>)
      requires |answers| == |opsThen| == |ops| && ops == SettleAll(opsThen, answers) && leases <= leasesThen
      requires forall l | l in leasesThen :: KeptSoFar(l, leases, opsThen, ops, answers, |ops|)
      requires forall s | s in recovered :: !recovered[s] ==> AnyUnsettled(ops, s)
      modifies this`leases
      ensures forall l :: l in leases <==> l in leasesThen && Survives(l, opsThen, answers)
    {
      var persisted := leases;
      var todo := persisted;
      while todo != {}
        invariant todo <= persisted && leases <= persisted
        invariant forall l | l in persisted :: l in leases <==> l in todo || l.owner.OfOperation? || AnyUnsettled(ops, l.owner.serviceId)
        decreases todo
      {
        var lease :| lease in todo;
        todo := todo - {lease};
        if lease.owner.OfService? {
          var serviceId := lease.owner.serviceId;
          var keep := (serviceId in recovered && !recovered[serviceId]) || AnyUnsettled(ops, serviceId);
          if !keep { ReleaseLeases(lease.owner, [lease.resource]); }
        }
      }
      forall l | l in leasesThen ensures l in leases <==> Survives(l, opsThen, answers) {
        assert KeptSoFar(l, persisted, opsThen, ops, answers, |ops|);
      }
    }
  }

  // ---- the loop over operations

  /** What the first `k` rounds did to one lease: an operation's is gone exactly when it was released,
      a service's only when no instance is unsettled. */
  ghost predicate KeptSoFar(l: Lease, leases: set<Lease>, opsThen: seq<Operation>, opsNow: seq<Operation>, answers: seq<Answers>, k: nat)
    requires |answers| == |opsThen|
  {
    match l.owner
    case OfOperation(id) => (l in leases <==> forall j | 0 <= j < |opsThen| && j < k && opsThen[j].id == id && Unfinished(opsThen[j]) :: !Decide(opsThen[j], answers[j]).release)
    case OfService(serviceId) => l in leases || !AnyUnsettled(opsNow, serviceId)
  }

  /** A settled service stays settled: later rounds only meet unfinished instances, which are unsettled. */
  lemma NeverUnsettledAgain(before: seq<Operation>, after: seq<Operation>, k: nat, serviceId: string)
    requires |before| == |after| && k < |before| && (forall j | 0 <= j < |before| && j != k :: after[j] == before[j])
    requires after[k] == before[k] || (Unfinished(before[k]) && after[k].kind == before[k].kind && after[k].serviceId == before[k].serviceId)
    requires !AnyUnsettled(before, serviceId)
    ensures !AnyUnsettled(after, serviceId)
  {
  }

  lemma StillKept(l: Lease, leasesBefore: set<Lease>, leases: set<Lease>, opsThen: seq<Operation>, before: seq<Operation>, after: seq<Operation>,
                  answers: seq<Answers>, k: nat)
    requires |answers| == |opsThen| == |before| == |after| && k < |before| && DistinctIds(opsThen) && before[k] == opsThen[k]
    requires after == before[k := Settle(opsThen[k], answers[k])]
    requires KeptSoFar(l, leasesBefore, opsThen, before, answers, k) && leases <= leasesBefore
    requires l in leasesBefore && l !in leases ==>
               && Unfinished(opsThen[k]) && Decide(opsThen[k], answers[k]).release
               && (l.owner == OfOperation(opsThen[k].id) || (l.owner.OfService? && !AnyUnsettled(after, l.owner.serviceId)))
    requires Unfinished(opsThen[k]) && Decide(opsThen[k], answers[k]).release && l.owner == OfOperation(opsThen[k].id) ==> l !in leases
    ensures KeptSoFar(l, leases, opsThen, after, answers, k + 1)
  {
    match l.owner
    case OfOperation(id) =>
      if l in leasesBefore && l !in leases {
        assert opsThen[k].id == id;
      }
    case OfService(serviceId) =>
      if l !in leasesBefore { NeverUnsettledAgain(before, after, k, serviceId); }
  }

  lemma StillUnsettled(before: seq<Operation>, after: seq<Operation>, answers: seq<Answers>, k: nat, serviceId: string)
    requires |before| == |after| == |answers| && k < |before| && after == before[k := Settle(before[k], answers[k])]
    requires AnyUnsettled(before[..k], serviceId)
             || (Unfinished(before[k]) && before[k].kind.Service? && before[k].serviceId == serviceId && !Decide(before[k], answers[k]).release)
    ensures AnyUnsettled(after[..k + 1], serviceId)
  {
    ReleasesExactlyOnEvidence(before[k], answers[k]);
    if j :| 0 <= j < k && before[..k][j].kind.Service? && before[..k][j].serviceId == serviceId && Unsettled(before[..k][j]) {
      assert after[..k + 1][j] == before[j];
    } else {
      assert Unsettled(after[..k + 1][k]);
    }
  }
}
