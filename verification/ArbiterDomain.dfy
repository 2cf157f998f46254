/** The fields and loops of `ExecutionDomain` that hold leases and the wait queue. */
module ArbiterDomain {
  import opened Arbiter

  datatype Outcome = Admitted | Refused(resource: Resource) | Fenced
  datatype WaitOutcome = Returned | Failed | Waiting

  datatype Lease = Lease(resource: Resource, operation: Operation)
  datatype Unfinished = Unfinished(operation: Operation, resources: seq<Resource>)

  // ---- releasing

  /** Drop the listed resources that the operation holds in memory or in the store; all its own when
      the list is empty. */
  function Dropped(t: Table, op: Operation, resources: seq<Resource>, persisted: set<Resource>): set<Resource> {
    if resources != [] then set r | r in resources && ((r in t.locked && t.locked[r] == op) || r in persisted)
    else set r | r in t.locked && t.locked[r] == op
  }

  function Released(t: Table, op: Operation, resources: seq<Resource>, persisted: set<Resource>): Table {
    var locked := t.locked - Dropped(t, op, resources, persisted);
    Table(locked, if op in locked.Values then t.admitted else t.admitted - {op})
  }

  /** A release leaves other operations' leases alone exactly when none of the listed resources is
      persisted for it while another operation holds it in memory. */
  lemma ReleaseSparesOthersExactly(t: Table, op: Operation, resources: seq<Resource>, persisted: set<Resource>)
    ensures (forall r | HeldByOther(t, op, r) :: HeldByOther(Released(t, op, resources, persisted), op, r))
            <==> forall r | r in resources && r in persisted :: !HeldByOther(t, op, r)
  {
    var after := Released(t, op, resources, persisted);
    if r :| r in resources && r in persisted && HeldByOther(t, op, r) {
      assert r in Dropped(t, op, resources, persisted) && !HeldByOther(after, op, r);
    }
  }

  /** The release takes this lease: its operation's own, all of them or those listed, and of the listed ones
      also those that the store has for it. */
  predicate Goes(op: Operation, resources: seq<Resource>, persisted: set<Resource>, r: Resource, holder: Operation) {
    if resources == [] then holder == op else r in resources && (holder == op || r in persisted)
  }

  ghost predicate KeepsSome(t: Table, op: Operation, resources: seq<Resource>) {
    exists r :: Holds(t, r, op) && resources != [] && r !in resources
  }

  /** From `t` to `n` by a release of `op` and a pass that granted `granted`: exactly the leases that go
      are gone and those that are given are there, and the operation's place under the cap is free unless
      it keeps a lease or was granted again. */
  ghost predicate IsReleased(t: Table, op: Operation, resources: seq<Resource>, persisted: set<Resource>, granted: seq<Request>, n: Table) {
    && (forall r, holder :: Holds(n, r, holder)
          <==> (Holds(t, r, holder) && !Goes(op, resources, persisted, r, holder)) || Gives(granted, r, holder))
    && (op in n.admitted <==> (op in t.admitted && KeepsSome(t, op, resources)) || IsGranted(granted, op))
    && (forall other | other != op :: other in n.admitted <==> other in t.admitted || IsGranted(granted, other))
  }

  lemma ReleasesExactly(t: Table, op: Operation, resources: seq<Resource>, persisted: set<Resource>, limits: Limits, cancelled: set<nat>, queue: seq<Request>)
    ensures var p := Process(Released(t, op, resources, persisted), limits, cancelled, queue, {}, false);
            IsReleased(t, op, resources, persisted, p.granted, p.table)
  {
    var mid := Released(t, op, resources, persisted);
    DropsExactly(t, op, resources, persisted);
    PassChangesExactly(mid, limits, cancelled, queue, {}, false);
    hide Process, Released, Dropped, Goes, KeepsSome, Gives, IsGranted;
  }

  lemma DropsExactly(t: Table, op: Operation, resources: seq<Resource>, persisted: set<Resource>)
    ensures var mid := Released(t, op, resources, persisted);
            && (forall r, holder :: Holds(mid, r, holder) <==> Holds(t, r, holder) && !Goes(op, resources, persisted, r, holder))
            && (op in mid.admitted <==> op in t.admitted && KeepsSome(t, op, resources))
            && (forall other | other != op :: other in mid.admitted <==> other in t.admitted)
  {
    var mid := Released(t, op, resources, persisted);
    if KeepsSome(t, op, resources) {
      var r :| Holds(t, r, op) && resources != [] && r !in resources;
      assert Holds(mid, r, op);
    }
    if op in mid.locked.Values {
      var r :| r in mid.locked && mid.locked[r] == op;
      assert Holds(t, r, op);
    }
  }

  // ---- rebuilding after a crash

  function LeasesOf(leases: seq<Lease>): map<Resource, Operation> {
    if leases == [] then map[] else LeasesOf(leases[..|leases| - 1])[leases[|leases| - 1].resource := leases[|leases| - 1].operation]
  }

  function Rebuilt(leases: seq<Lease>, ops: seq<Unfinished>): Table {
    if ops == [] then Table(LeasesOf(leases), {})
    else Lock(Rebuilt(leases, ops[..|ops| - 1]), ops[|ops| - 1].operation, ops[|ops| - 1].resources)
  }

  /** The store gives no resource to two operations. */
  predicate Consistent(leases: seq<Lease>, ops: seq<Unfinished>) {
    && (forall j, k | 0 <= j < k < |leases| && leases[j].resource == leases[k].resource :: leases[j].operation == leases[k].operation)
    && (forall j, k, r | 0 <= j < k < |ops| && r in ops[j].resources && r in ops[k].resources :: ops[j].operation == ops[k].operation)
    && (forall j, k | 0 <= j < |leases| && 0 <= k < |ops| && leases[j].resource in ops[k].resources :: leases[j].operation == ops[k].operation)
  }

  ghost predicate Claims(leases: seq<Lease>, ops: seq<Unfinished>, r: Resource, op: Operation) {
    Lease(r, op) in leases || exists u :: u in ops && u.operation == op && r in u.resources
  }

  lemma {:induction false} LeasesKept(leases: seq<Lease>, r: Resource)
    requires Consistent(leases, [])
    ensures forall op :: r in LeasesOf(leases) && LeasesOf(leases)[r] == op <==> Lease(r, op) in leases
  {
    if leases != [] {
      var front := leases[..|leases| - 1];
      LeasesKept(front, r);
      assert leases == front + [leases[|leases| - 1]];
      assert forall op :: Lease(r, op) in leases <==> Lease(r, op) in front || leases[|leases| - 1] == Lease(r, op);
      assert forall op | Lease(r, op) in front && leases[|leases| - 1].resource == r :: op == leases[|leases| - 1].operation;
    }
  }

  /** A rebuild keeps every persisted lease and every unfinished operation's resources, for their own
      operation, and nothing else. */
  lemma {:induction false} RebuildKeepsLeases(leases: seq<Lease>, ops: seq<Unfinished>)
    requires Consistent(leases, ops)
    ensures var t := Rebuilt(leases, ops);
            && (forall r, op :: r in t.locked && t.locked[r] == op <==> Claims(leases, ops, r, op))
            && t.admitted == set u | u in ops :: u.operation
  {
    if ops == [] {
      forall r, op ensures r in Rebuilt(leases, ops).locked && Rebuilt(leases, ops).locked[r] == op <==> Claims(leases, ops, r, op) {
        LeasesKept(leases, r);
      }
    } else {
      var front, last := ops[..|ops| - 1], ops[|ops| - 1];
      RebuildKeepsLeases(leases, front);
      assert ops == front + [last];
      forall r, op ensures r in Rebuilt(leases, ops).locked && Rebuilt(leases, ops).locked[r] == op <==> Claims(leases, ops, r, op) {
        LastClaims(leases, front, last, r, op);
      }
    }
  }

  lemma LastClaims(leases: seq<Lease>, front: seq<Unfinished>, last: Unfinished, r: Resource, op: Operation)
    requires Consistent(leases, front + [last])
    ensures r in last.resources ==> (Claims(leases, front + [last], r, op) <==> op == last.operation)
    ensures r !in last.resources ==> (Claims(leases, front + [last], r, op) <==> Claims(leases, front, r, op))
  {
    var ops := front + [last];
    assert ops[|front|] == last;
    if r in last.resources {
      if Lease(r, op) in leases {
        var j :| 0 <= j < |leases| && leases[j] == Lease(r, op);
        assert leases[j].resource in ops[|front|].resources;
      }
      if u :| u in front && u.operation == op && r in u.resources {
        var j :| 0 <= j < |front| && front[j] == u;
        assert ops[j] == u;
      }
    }
  }

  class ExecutionDomain {
    var lockedResources: map<Resource, Operation>
    var allocatedOps: set<Operation>
    var waitQueue: seq<Request>
    var isFenced: bool
    /** The budget's `maxConcurrentOps`, 0 for none, and what the store reports as unfinished. */
    var limits: Limits

    function Now(): Table
      reads this
    {
      Table(lockedResources, allocatedOps)
    }

    constructor (limits: Limits)
      ensures Now() == Table(map[], {}) && waitQueue == [] && !isFenced && this.limits == limits
    {
      lockedResources, allocatedOps, waitQueue, isFenced := map[], {}, [], false;
      this.limits := limits;
    }

    method RebuildIsolationFromStore(leases: seq<Lease>, ops: seq<Unfinished>)
      modifies this`lockedResources, this`allocatedOps
      ensures Now() == Rebuilt(leases, ops)
    {
      lockedResources, allocatedOps := map[], {};
      var k := 0;
      while k < |leases|
        invariant 0 <= k <= |leases| && Now() == Table(LeasesOf(leases[..k]), {})
      {
        assert leases[..k + 1][..k] == leases[..k];
        lockedResources := lockedResources[leases[k].resource := leases[k].operation];
        k := k + 1;
      }
      assert leases[..k] == leases;
      k := 0;
      while k < |ops|
        invariant 0 <= k <= |ops| && Now() == Rebuilt(leases, ops[..k])
      {
        assert ops[..k + 1][..k] == ops[..k];
        allocatedOps := allocatedOps + {ops[k].operation};
        lockedResources := lockedResources + map r | r in ops[k].resources :: ops[k].operation;
        k := k + 1;
      }
      assert ops[..k] == ops;
    }

    method AllocateResources(op: Operation, resources: seq<Resource>) returns (o: Outcome)
      modifies this`lockedResources, this`allocatedOps
      ensures o == Fenced <==> isFenced
      ensures !isFenced ==> o == match Decide(old(Now()), limits, op, resources) case Granted => Admitted case Conflict(r) => Refused(r)
      ensures Now() == if o.Admitted? then Lock(old(Now()), op, resources) else old(Now())
      ensures o.Admitted? <==>
                && !isFenced && (forall r | r in resources && r in old(lockedResources) :: old(lockedResources)[r] == op)
                && (limits.cap == 0 || op in old(allocatedOps) || op in limits.unfinished || |old(allocatedOps) + limits.unfinished| < limits.cap)
      ensures o.Admitted? ==>
                && (forall r :: r in lockedResources <==> r in resources || r in old(lockedResources))
                && (forall r | r in lockedResources :: lockedResources[r] == if r in resources then op else old(lockedResources)[r])
                && allocatedOps == old(allocatedOps) + {op}
    {
      DecidesExactly(Now(), limits, op, resources);
      if isFenced { return Fenced; }
      var k := 0;
      assert resources[0..] == resources;
      while k < |resources|
        invariant 0 <= k <= |resources| && FirstHeld(Now(), op, resources) == FirstHeld(Now(), op, resources[k..])
      {
        if resources[k] in lockedResources && lockedResources[resources[k]] != op { return Refused(resources[k]); }
        assert resources[k..][1..] == resources[k + 1..];
        k := k + 1;
      }
      if limits.cap != 0 {
        var active := allocatedOps + limits.unfinished;
        if |active| >= limits.cap && op !in active { return Refused(CAP); }
      }
      allocatedOps := allocatedOps + {op};
      lockedResources := lockedResources + map r | r in resources :: op;
      return Admitted;
    }

    predicate OverlapsQueue(resources: seq<Resource>)
      reads this`waitQueue
    {
      exists k :: 0 <= k < |waitQueue| && Overlaps(resources, Wants(waitQueue[k]))
    }

    /** Nobody who comes later takes what a queued request wants: with an overlap the request queues up
        behind it or fails, without one it is tried at once. */
    method AllocateResourcesWithWait(ticket: nat, op: Operation, resources: seq<Resource>, maxWaitMs: int, isCancelled: bool) returns (o: WaitOutcome)
      modifies this`lockedResources, this`allocatedOps, this`waitQueue
      ensures old(isFenced) ==> o == Failed && Now() == old(Now())
      ensures !old(isFenced) && isCancelled ==> o == Returned && Now() == old(Now()) && waitQueue == old(waitQueue)
      ensures !old(isFenced) && !isCancelled ==>
                var mayTry := (forall q, r | q in old(waitQueue) && r in q.resources :: r !in resources) && Decide(old(Now()), limits, op, resources).Granted?;
                && (o == Returned <==> mayTry)
                && Now() == (if mayTry then Lock(old(Now()), op, resources) else old(Now()))
                && (o == Waiting <==> !mayTry && maxWaitMs > 0)
      ensures waitQueue == if o == Waiting then old(waitQueue) + [Request(ticket, op, resources)] else old(waitQueue)
    {
      hide Decide, Lock;
      assert OverlapsQueue(resources) <==> exists q, r :: q in waitQueue && r in q.resources && r in resources by {
        if q, r :| q in waitQueue && r in q.resources && r in resources {
          var k :| 0 <= k < |waitQueue| && waitQueue[k] == q;
          assert Overlaps(resources, Wants(waitQueue[k]));
        }
      }
      if isFenced { return Failed; }
      if isCancelled { return Returned; }
      if !OverlapsQueue(resources) {
        var tried := AllocateResources(op, resources);
        if tried.Admitted? { return Returned; }
        if maxWaitMs <= 0 { return Failed; }
      } else {
        if maxWaitMs <= 0 { return Failed; }
      }
      waitQueue := waitQueue + [Request(ticket, op, resources)];
      return Waiting;
    }

    /** `cancelWait` takes one request out and does not run the queue. */
    method CancelWait(op: Operation) returns (found: bool)
      modifies this`waitQueue
      ensures found <==> exists k :: 0 <= k < |old(waitQueue)| && old(waitQueue)[k].operation == op
      ensures if found
              then exists k :: 0 <= k < |old(waitQueue)| && old(waitQueue)[k].operation == op
                     && (forall j | 0 <= j < k :: old(waitQueue)[j].operation != op)
                     && waitQueue == old(waitQueue)[..k] + old(waitQueue)[k + 1..]
              else waitQueue == old(waitQueue)
    {
      var k := 0;
      while k < |waitQueue|
        invariant 0 <= k <= |waitQueue| && waitQueue == old(waitQueue)
        invariant forall j | 0 <= j < k :: waitQueue[j].operation != op
      {
        if waitQueue[k].operation == op {
          waitQueue := waitQueue[..k] + waitQueue[k + 1..];
          return true;
        }
        k := k + 1;
      }
      return false;
    }

    /** `processWaitQueue`; `cancelled` says which requests answer that they are. */
    method ProcessWaitQueue(cancelled: set<nat>) returns (granted: seq<Request>)
      modifies this`lockedResources, this`allocatedOps, this`waitQueue
      ensures old(isFenced) ==> Now() == old(Now()) && waitQueue == old(waitQueue) && granted == []
      ensures !old(isFenced) ==> Pass(Now(), waitQueue, granted) == Process(old(Now()), limits, cancelled, old(waitQueue), {}, false)
    {
      hide Process, Decide, Overlaps, Join, Lock, Wants;
      granted := [];
      ProcessNone(Now(), limits, cancelled, {}, false);
      if |waitQueue| == 0 || isFenced { return; }
      var reservedResources: set<Resource>, concurrencyBlocked := {}, false;
      ghost var all := Process(Now(), limits, cancelled, waitQueue, {}, false);
      var i := 0;
      assert waitQueue[0..] == waitQueue && waitQueue[..0] == [];
      Joined([], all, []);
      while i < |waitQueue|
        invariant 0 <= i <= |waitQueue|
        invariant all == Join(waitQueue[..i], Process(Now(), limits, cancelled, waitQueue[i..], reservedResources, concurrencyBlocked), granted)
        decreases |waitQueue| - i
      {
        var item := waitQueue[i];
        ghost var before, rest := waitQueue[..i], waitQueue[i..];
        ProcessStep(Now(), limits, cancelled, rest, reservedResources, concurrencyBlocked, before, granted);
        assert rest[0] == item && rest[1..] == waitQueue[i + 1..] && before + [item] == waitQueue[..i + 1];
        if item.ticket in cancelled {
          RemovedAt(waitQueue, i);
          waitQueue := waitQueue[..i] + waitQueue[i + 1..];
          continue;
        }
        if Overlaps(item.resources, reservedResources) || concurrencyBlocked {
          reservedResources := reservedResources + Wants(item);
          i := i + 1;
          continue;
        }
        var tried := AllocateResources(item.operation, item.resources);
        if tried.Admitted? {
          RemovedAt(waitQueue, i);
          waitQueue := waitQueue[..i] + waitQueue[i + 1..];
          granted := granted + [item];
        } else {
          reservedResources := reservedResources + Wants(item);
          if tried.resource == CAP { concurrencyBlocked := true; }
          i := i + 1;
        }
      }
      assert waitQueue[..i] == waitQueue && waitQueue[i..] == [];
      ProcessNone(Now(), limits, cancelled, reservedResources, concurrencyBlocked);
      Joined(waitQueue, Process(Now(), limits, cancelled, [], reservedResources, concurrencyBlocked), granted);
    }

    /** `internalReleaseResources`: drop, then run the queue, so nobody is left who could be granted. */
    method InternalReleaseResources(op: Operation, resources: seq<Resource>, persisted: set<Resource>, cancelled: set<nat>)
      returns (ok: bool, granted: seq<Request>)
      modifies this`lockedResources, this`allocatedOps, this`waitQueue
      ensures ok <==> !isFenced
      ensures !ok ==> Now() == old(Now()) && waitQueue == old(waitQueue)
      ensures ok ==> IsReleased(old(Now()), op, resources, persisted, granted, Now())
      ensures ok ==>
                && (forall q | q in old(waitQueue) :: q.ticket in cancelled || q in waitQueue || q in granted)
                && (forall q | q in waitQueue || q in granted :: q in old(waitQueue) && q.ticket !in cancelled)
      ensures ok ==> var p := Process(Released(old(Now()), op, resources, persisted), limits, cancelled, old(waitQueue), {}, false);
                     Now() == p.table && waitQueue == p.kept && forall k: nat | k < |waitQueue| :: Stuck(Now(), limits, waitQueue, k)
    {
      granted := [];
      if isFenced { return false, granted; }
      ghost var dropped := Dropped(Now(), op, resources, persisted);
      if resources != [] {
        var k := 0;
        while k < |resources|
          invariant 0 <= k <= |resources| && allocatedOps == old(allocatedOps) && waitQueue == old(waitQueue)
          invariant lockedResources == old(lockedResources) - (dropped * set r | r in resources[..k])
        {
          var res := resources[k];
          assert resources[..k + 1] == resources[..k] + [res];
          assert res in dropped <==> (res in old(lockedResources) && old(lockedResources)[res] == op) || res in persisted;
          if (res in lockedResources && lockedResources[res] == op) || res in persisted { lockedResources := lockedResources - {res}; }
          k := k + 1;
        }
        assert resources[..k] == resources && dropped * (set r | r in resources) == dropped;
      } else {
        lockedResources := lockedResources - (set r | r in lockedResources && lockedResources[r] == op);
      }
      if op !in lockedResources.Values { allocatedOps := allocatedOps - {op}; }
      assert Now() == Released(old(Now()), op, resources, persisted);
      PassLeavesNobodyGrantable(Now(), limits, cancelled, waitQueue);
      KeptAndGranted(Now(), limits, cancelled, waitQueue, {}, false);
      ReleasesExactly(old(Now()), op, resources, persisted, limits, cancelled, waitQueue);
      hide Process, Released, IsReleased;
      granted := ProcessWaitQueue(cancelled);
      ok := true;
    }
  }

  /** What a pass has produced so far, in front of what is still to come. */
  ghost function Join(kept: seq<Request>, rest: Pass, granted: seq<Request>): Pass {
    Pass(rest.table, kept + rest.kept, granted + rest.granted)
  }

  lemma Joined(kept: seq<Request>, rest: Pass, granted: seq<Request>)
    ensures kept == [] && granted == [] ==> Join(kept, rest, granted) == rest
    ensures rest.kept == [] && rest.granted == [] ==> Join(kept, rest, granted) == Pass(rest.table, kept, granted)
  {
  }

  lemma ProcessNone(t: Table, limits: Limits, cancelled: set<nat>, reserved: set<Resource>, blocked: bool)
    ensures Process(t, limits, cancelled, [], reserved, blocked) == Pass(t, [], [])
  {
  }

  lemma RemovedAt(queue: seq<Request>, i: nat)
    requires i < |queue|
    ensures var shorter := queue[..i] + queue[i + 1..]; shorter[..i] == queue[..i] && shorter[i..] == queue[i + 1..]
  {
  }

  lemma ProcessStep(t: Table, limits: Limits, cancelled: set<nat>, queue: seq<Request>, reserved: set<Resource>, blocked: bool,
                    before: seq<Request>, granted: seq<Request>)
    requires queue != []
    ensures var item := queue[0];
            Join(before, Process(t, limits, cancelled, queue, reserved, blocked), granted)
            == if item.ticket in cancelled then Join(before, Process(t, limits, cancelled, queue[1..], reserved, blocked), granted)
               else if Overlaps(item.resources, reserved) || blocked then
                 Join(before + [item], Process(t, limits, cancelled, queue[1..], reserved + Wants(item), blocked), granted)
               else match Decide(t, limits, item.operation, item.resources)
                    case Conflict(r) => Join(before + [item], Process(t, limits, cancelled, queue[1..], reserved + Wants(item), r == CAP), granted)
                    case Granted => Join(before, Process(Lock(t, item.operation, item.resources), limits, cancelled, queue[1..], reserved, blocked), granted + [item])
  {
  }
}
