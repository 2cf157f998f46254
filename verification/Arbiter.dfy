/** The lease arbiter of `domain.ts`: exclusive leases, a first-come queue with reservations, a cap on
    concurrent operations. */
module Arbiter {

  type Operation = string
  type Resource = string

  datatype Request = Request(ticket: nat, operation: Operation, resources: seq<Resource>)

  /** `cap` is `maxConcurrentOps`, 0 for none; `unfinished` is what the store reports. */
  datatype Limits = Limits(cap: nat, unfinished: set<Operation>)

  /** In-memory leases and admitted operations (`inMemoryAllocatedOps`). */
  datatype Table = Table(locked: map<Resource, Operation>, admitted: set<Operation>)

  datatype Verdict = Granted | Conflict(resource: Resource)

  const CAP: Resource := "domain:max_concurrent_ops"

  function Active(t: Table, limits: Limits): set<Operation> {
    t.admitted + limits.unfinished
  }

  predicate HeldByOther(t: Table, op: Operation, r: Resource) {
    r in t.locked && t.locked[r] != op
  }

  predicate AtCap(t: Table, limits: Limits) {
    limits.cap != 0 && |Active(t, limits)| >= limits.cap
  }

  /** The first resource of the list that somebody else holds. */
  function FirstHeld(t: Table, op: Operation, resources: seq<Resource>): Verdict {
    if resources == [] then Granted
    else if HeldByOther(t, op, resources[0]) then Conflict(resources[0])
    else FirstHeld(t, op, resources[1..])
  }

  /** What `allocateResources` decides. */
  function Decide(t: Table, limits: Limits, op: Operation, resources: seq<Resource>): Verdict {
    var held := FirstHeld(t, op, resources);
    if held.Conflict? then held
    else if AtCap(t, limits) && op !in Active(t, limits) then Conflict(CAP)
    else Granted
  }

  function Lock(t: Table, op: Operation, resources: seq<Resource>): Table {
    Table(t.locked + (map r | r in resources :: op), t.admitted + {op})
  }

  lemma {:induction false} FirstHeldExactly(t: Table, op: Operation, resources: seq<Resource>)
    ensures match FirstHeld(t, op, resources)
            case Granted => forall r | r in resources :: !HeldByOther(t, op, r)
            case Conflict(r) => exists k :: 0 <= k < |resources| && resources[k] == r && IsFirstHeld(t, op, resources, k)
  {
    if resources != [] {
      FirstHeldExactly(t, op, resources[1..]);
      assert resources == [resources[0]] + resources[1..];
      var rest := FirstHeld(t, op, resources[1..]);
      if !HeldByOther(t, op, resources[0]) && rest.Conflict? {
        var k :| 0 <= k < |resources| - 1 && resources[1..][k] == rest.resource && IsFirstHeld(t, op, resources[1..], k);
        forall j | 0 <= j < k + 1 ensures !HeldByOther(t, op, resources[j]) {
          if j > 0 { assert resources[1..][j - 1] == resources[j]; }
        }
        assert resources[k + 1] == rest.resource && IsFirstHeld(t, op, resources, k + 1);
      } else if HeldByOther(t, op, resources[0]) {
        assert IsFirstHeld(t, op, resources, 0);
      }
    }
  }

  ghost predicate IsFirstHeld(t: Table, op: Operation, resources: seq<Resource>, k: nat)
    requires k < |resources|
  {
    HeldByOther(t, op, resources[k]) && forall j | 0 <= j < k :: !HeldByOther(t, op, resources[j])
  }

  /** An operation is admitted exactly when nobody else holds what it asks for and the cap leaves room, or
      has it counted already; otherwise the first resource that another one holds is named, or the cap. */
  lemma DecidesExactly(t: Table, limits: Limits, op: Operation, resources: seq<Resource>)
    ensures Decide(t, limits, op, resources).Granted?
            <==> && (forall r | r in resources && r in t.locked :: t.locked[r] == op)
                 && (limits.cap == 0 || op in t.admitted || op in limits.unfinished || |t.admitted + limits.unfinished| < limits.cap)
    ensures Decide(t, limits, op, resources).Conflict? ==>
              var named := Decide(t, limits, op, resources).resource;
              if forall r | r in resources && r in t.locked :: t.locked[r] == op then named == "domain:max_concurrent_ops"
              else exists k :: 0 <= k < |resources| && resources[k] == named && named in t.locked && t.locked[named] != op
                               && forall j | 0 <= j < k && resources[j] in t.locked :: t.locked[resources[j]] == op
  {
    FirstHeldExactly(t, op, resources);
    var held := FirstHeld(t, op, resources);
    if held.Conflict? {
      var k :| 0 <= k < |resources| && resources[k] == held.resource && IsFirstHeld(t, op, resources, k);
      assert forall j | 0 <= j < k && resources[j] in t.locked :: !HeldByOther(t, op, resources[j]);
    } else {
      assert forall r | r in resources && r in t.locked :: !HeldByOther(t, op, r);
    }
  }

  // ---- one pass over the queue

  predicate Overlaps(a: seq<Resource>, b: set<Resource>) {
    exists r :: r in a && r in b
  }

  function Wants(r: Request): set<Resource> {
    set x | x in r.resources
  }

  datatype Pass = Pass(table: Table, kept: seq<Request>, granted: seq<Request>)

  /** `processWaitQueue` from some position on: `reserved` holds what the kept requests before it want. */
  function Process(t: Table, limits: Limits, cancelled: set<nat>, queue: seq<Request>, reserved: set<Resource>, blocked: bool): Pass
    decreases queue
  {
    if queue == [] then Pass(t, [], [])
    else
      var item, wants := queue[0], Wants(queue[0]);
      if item.ticket in cancelled then Process(t, limits, cancelled, queue[1..], reserved, blocked)
      else if Overlaps(item.resources, reserved) || blocked then
        var rest := Process(t, limits, cancelled, queue[1..], reserved + wants, blocked);
        rest.(kept := [item] + rest.kept)
      else
        var verdict := Decide(t, limits, item.operation, item.resources);
        if verdict.Conflict? then
          var rest := Process(t, limits, cancelled, queue[1..], reserved + wants, verdict.resource == CAP);
          rest.(kept := [item] + rest.kept)
        else
          var rest := Process(Lock(t, item.operation, item.resources), limits, cancelled, queue[1..], reserved, blocked);
          rest.(granted := [item] + rest.granted)
  }

  // ---- exclusive leases

  /** Every lease in `later` that `earlier` had is held by the same operation. */
  predicate Extends(earlier: Table, later: Table) {
    && (forall r | r in earlier.locked :: r in later.locked && later.locked[r] == earlier.locked[r])
    && earlier.admitted <= later.admitted
  }

  lemma GrantExtends(t: Table, limits: Limits, op: Operation, resources: seq<Resource>)
    requires Decide(t, limits, op, resources).Granted?
    ensures Extends(t, Lock(t, op, resources))
    ensures forall r | r in resources :: Lock(t, op, resources).locked[r] == op
    ensures forall r | r !in resources :: r in Lock(t, op, resources).locked <==> r in t.locked
  {
    FirstHeldExactly(t, op, resources);
  }

  /** An admission never takes the number of operations past the cap, whatever it was. */
  lemma AdmissionWithinCap(t: Table, limits: Limits, op: Operation, resources: seq<Resource>)
    requires Decide(t, limits, op, resources).Granted? && limits.cap != 0
    ensures var before, after := |Active(t, limits)|, |Active(Lock(t, op, resources), limits)|;
            after <= limits.cap || after == before
  {
    FirstHeldExactly(t, op, resources);
    var active := Active(t, limits);
    assert Active(Lock(t, op, resources), limits) == active + {op};
    if op in active { assert active + {op} == active; }
  }

  lemma {:induction false} ProcessExtends(t: Table, limits: Limits, cancelled: set<nat>, queue: seq<Request>, reserved: set<Resource>, blocked: bool)
    ensures var p := Process(t, limits, cancelled, queue, reserved, blocked);
            && Extends(t, p.table)
            && (limits.cap != 0 ==> |Active(p.table, limits)| <= limits.cap || p.table.admitted + limits.unfinished == Active(t, limits))
            && (blocked ==> p.table == t && p.granted == [])
    decreases queue
  {
    if queue != [] {
      var item, wants := queue[0], Wants(queue[0]);
      if item.ticket in cancelled {
        ProcessExtends(t, limits, cancelled, queue[1..], reserved, blocked);
      } else if Overlaps(item.resources, reserved) || blocked {
        ProcessExtends(t, limits, cancelled, queue[1..], reserved + wants, blocked);
      } else {
        var verdict := Decide(t, limits, item.operation, item.resources);
        if verdict.Conflict? {
          ProcessExtends(t, limits, cancelled, queue[1..], reserved + wants, verdict.resource == CAP);
        } else {
          var next := Lock(t, item.operation, item.resources);
          GrantExtends(t, limits, item.operation, item.resources);
          if limits.cap != 0 {
            AdmissionWithinCap(t, limits, item.operation, item.resources);
            assert Active(next, limits) == Active(t, limits) + {item.operation};
            if |Active(next, limits)| == |Active(t, limits)| { SameSize(Active(t, limits), item.operation); }
          }
          ProcessExtends(next, limits, cancelled, queue[1..], reserved, blocked);
        }
      }
    }
  }

  lemma SameSize(s: set<Operation>, op: Operation)
    requires |s + {op}| == |s|
    ensures s + {op} == s
  {
    assert op !in s ==> |s + {op}| == |s| + 1;
  }

  // ---- no overtaking

  predicate DistinctTickets(queue: seq<Request>) {
    forall j, k | 0 <= j < k < |queue| :: queue[j].ticket != queue[k].ticket
  }

  /** A granted request shares nothing with a kept request that was ahead of it. */
  ghost predicate NoOvertaking(queue: seq<Request>, p: Pass) {
    forall j, k | 0 <= j < k < |queue| && queue[j] in p.kept && queue[k] in p.granted ::
      !Overlaps(queue[k].resources, Wants(queue[j]))
  }

  lemma {:induction false} KeptAndGranted(t: Table, limits: Limits, cancelled: set<nat>, queue: seq<Request>, reserved: set<Resource>, blocked: bool)
    ensures var p := Process(t, limits, cancelled, queue, reserved, blocked);
            && (forall q | q in p.kept || q in p.granted :: q in queue && q.ticket !in cancelled)
            && (forall q | q in queue && q.ticket !in cancelled :: q in p.kept || q in p.granted)
            && (forall q | q in p.granted :: !Overlaps(q.resources, reserved))
            && (forall q | q in p.granted :: forall r | r in q.resources :: r in p.table.locked && p.table.locked[r] == q.operation)
    decreases queue
  {
    if queue != [] {
      var item, wants := queue[0], Wants(queue[0]);
      assert queue == [item] + queue[1..];
      if item.ticket in cancelled {
        KeptAndGranted(t, limits, cancelled, queue[1..], reserved, blocked);
      } else if Overlaps(item.resources, reserved) || blocked {
        KeptAndGranted(t, limits, cancelled, queue[1..], reserved + wants, blocked);
      } else {
        var verdict := Decide(t, limits, item.operation, item.resources);
        if verdict.Conflict? {
          KeptAndGranted(t, limits, cancelled, queue[1..], reserved + wants, verdict.resource == CAP);
        } else {
          var next := Lock(t, item.operation, item.resources);
          GrantExtends(t, limits, item.operation, item.resources);
          KeptAndGranted(next, limits, cancelled, queue[1..], reserved, blocked);
          ProcessExtends(next, limits, cancelled, queue[1..], reserved, blocked);
        }
      }
    }
  }

  predicate Holds(t: Table, r: Resource, op: Operation) {
    r in t.locked && t.locked[r] == op
  }

  ghost predicate IsGranted(granted: seq<Request>, op: Operation) {
    exists q :: q in granted && q.operation == op
  }

  ghost predicate Gives(granted: seq<Request>, r: Resource, op: Operation) {
    exists q :: q in granted && q.operation == op && r in q.resources
  }

  /** What a pass changes: the granted requests' resources are theirs, their operations are counted, and
      everything else is as it was. */
  lemma {:induction false} PassChangesExactly(t: Table, limits: Limits, cancelled: set<nat>, queue: seq<Request>, reserved: set<Resource>, blocked: bool)
    ensures var p := Process(t, limits, cancelled, queue, reserved, blocked);
            && (forall r, op :: Holds(p.table, r, op) <==> Holds(t, r, op) || Gives(p.granted, r, op))
            && (forall op :: op in p.table.admitted <==> op in t.admitted || IsGranted(p.granted, op))
    decreases queue
  {
    if queue != [] {
      var item, wants := queue[0], Wants(queue[0]);
      var p := Process(t, limits, cancelled, queue, reserved, blocked);
      if item.ticket in cancelled {
        PassChangesExactly(t, limits, cancelled, queue[1..], reserved, blocked);
      } else if Overlaps(item.resources, reserved) || blocked {
        PassChangesExactly(t, limits, cancelled, queue[1..], reserved + wants, blocked);
        var rest := Process(t, limits, cancelled, queue[1..], reserved + wants, blocked);
        assert p.table == rest.table && p.granted == rest.granted;
      } else {
        var verdict := Decide(t, limits, item.operation, item.resources);
        if verdict.Conflict? {
          PassChangesExactly(t, limits, cancelled, queue[1..], reserved + wants, verdict.resource == CAP);
        } else {
          var next := Lock(t, item.operation, item.resources);
          var rest := Process(next, limits, cancelled, queue[1..], reserved, blocked).granted;
          FirstHeldExactly(t, item.operation, item.resources);
          PassChangesExactly(next, limits, cancelled, queue[1..], reserved, blocked);
          hide Process, Decide, FirstHeld;
          GivesOneMore(item, rest);
          assert forall r, op :: Holds(next, r, op) <==> Holds(t, r, op) || (op == item.operation && r in item.resources) by {
            assert forall r | r in item.resources && r in t.locked :: !HeldByOther(t, item.operation, r);
          }
        }
      }
    }
  }

  lemma GivesOneMore(item: Request, rest: seq<Request>)
    ensures forall r, op :: Gives([item] + rest, r, op) <==> (op == item.operation && r in item.resources) || Gives(rest, r, op)
    ensures forall op :: IsGranted([item] + rest, op) <==> op == item.operation || IsGranted(rest, op)
  {
    assert forall q :: q in [item] + rest <==> q == item || q in rest;
  }

  lemma {:induction false} NobodyOvertakes(t: Table, limits: Limits, cancelled: set<nat>, queue: seq<Request>, reserved: set<Resource>, blocked: bool)
    requires DistinctTickets(queue)
    ensures NoOvertaking(queue, Process(t, limits, cancelled, queue, reserved, blocked))
    decreases queue
  {
    if queue != [] {
      var item, wants := queue[0], Wants(queue[0]);
      if item.ticket in cancelled {
        OvertakesStep(t, limits, cancelled, queue, reserved, blocked, t, reserved, blocked);
      } else if Overlaps(item.resources, reserved) || blocked {
        OvertakesStep(t, limits, cancelled, queue, reserved, blocked, t, reserved + wants, blocked);
      } else {
        var verdict := Decide(t, limits, item.operation, item.resources);
        if verdict.Conflict? {
          OvertakesStep(t, limits, cancelled, queue, reserved, blocked, t, reserved + wants, verdict.resource == CAP);
        } else {
          OvertakesStep(t, limits, cancelled, queue, reserved, blocked, Lock(t, item.operation, item.resources), reserved, blocked);
        }
      }
    }
  }

  lemma OvertakesStep(t: Table, limits: Limits, cancelled: set<nat>, queue: seq<Request>, reserved: set<Resource>, blocked: bool,
                      next: Table, reserved': set<Resource>, blocked': bool)
    requires DistinctTickets(queue) && queue != []
    requires var p, rest := Process(t, limits, cancelled, queue, reserved, blocked), Process(next, limits, cancelled, queue[1..], reserved', blocked');
             || (p.kept == rest.kept && (p.granted == rest.granted || p.granted == [queue[0]] + rest.granted))
             || (p.kept == [queue[0]] + rest.kept && p.granted == rest.granted && reserved' == reserved + Wants(queue[0]))
    ensures NoOvertaking(queue, Process(t, limits, cancelled, queue, reserved, blocked))
    decreases queue, 0
  {
    hide Process;
    var p, rest := Process(t, limits, cancelled, queue, reserved, blocked), Process(next, limits, cancelled, queue[1..], reserved', blocked');
    assert forall k | 0 <= k < |queue| - 1 :: queue[1..][k] == queue[k + 1];
    NobodyOvertakes(next, limits, cancelled, queue[1..], reserved', blocked');
    KeptAndGranted(next, limits, cancelled, queue[1..], reserved', blocked');
    forall j, k | 0 <= j < k < |queue| && queue[j] in p.kept && queue[k] in p.granted
      ensures !Overlaps(queue[k].resources, Wants(queue[j]))
    {
      if j > 0 { assert queue[1..][j - 1] in rest.kept && queue[1..][k - 1] in rest.granted; }
    }
  }

  // ---- nobody is left who could be granted

  ghost predicate WantsHeld(t: Table, r: Request) {
    exists x :: x in r.resources && HeldByOther(t, r.operation, x)
  }

  /** Some request up to `k` waits for a resource that is named like the cap. */
  ghost predicate CapName(t: Table, kept: seq<Request>, k: nat) {
    exists j :: 0 <= j <= k < |kept| && CAP in kept[j].resources && HeldByOther(t, kept[j].operation, CAP)
  }

  ghost predicate BehindEarlier(kept: seq<Request>, k: nat) {
    k < |kept| && exists j :: 0 <= j < k && Overlaps(kept[k].resources, Wants(kept[j]))
  }

  /** Why the `k`-th remaining request waits. */
  ghost predicate Stuck(t: Table, limits: Limits, kept: seq<Request>, k: nat) {
    k < |kept| && (WantsHeld(t, kept[k]) || BehindEarlier(kept, k) || AtCap(t, limits) || CapName(t, kept, k))
  }

  lemma HeldStays(t: Table, later: Table, op: Operation, r: Resource)
    requires Extends(t, later) && HeldByOther(t, op, r)
    ensures HeldByOther(later, op, r)
  {
  }

  lemma CapStays(t: Table, later: Table, limits: Limits)
    requires Extends(t, later) && AtCap(t, limits)
    ensures AtCap(later, limits)
  {
    SubsetSize(Active(t, limits), Active(later, limits));
  }

  lemma {:induction false} SubsetSize(a: set<Operation>, b: set<Operation>)
    requires a <= b
    ensures |a| <= |b|
  {
    if a != {} {
      var x :| x in a;
      SubsetSize(a - {x}, b - {x});
    }
  }

  /** The same for one position of the loop: `odd` says that an earlier request waits for a resource
      named like the cap. */
  ghost predicate StuckHere(t: Table, limits: Limits, kept: seq<Request>, k: nat, reserved: set<Resource>, odd: bool) {
    odd || (k < |kept| && Overlaps(kept[k].resources, reserved)) || Stuck(t, limits, kept, k)
  }

  ghost predicate AllStuck(t: Table, limits: Limits, kept: seq<Request>, reserved: set<Resource>, odd: bool) {
    forall k: nat {:trigger StuckHere(t, limits, kept, k, reserved, odd)} | k < |kept| :: StuckHere(t, limits, kept, k, reserved, odd)
  }

  lemma {:induction false} ProcessLeavesStuck(t: Table, limits: Limits, cancelled: set<nat>, queue: seq<Request>, reserved: set<Resource>, blocked: bool, odd: bool)
    requires blocked ==> odd || AtCap(t, limits)
    ensures var p := Process(t, limits, cancelled, queue, reserved, blocked);
            AllStuck(p.table, limits, p.kept, reserved, odd)
    decreases queue
  {
    if queue != [] {
      var item, wants := queue[0], Wants(queue[0]);
      if item.ticket in cancelled {
        ProcessLeavesStuck(t, limits, cancelled, queue[1..], reserved, blocked, odd);
      } else if Overlaps(item.resources, reserved) || blocked {
        ProcessLeavesStuck(t, limits, cancelled, queue[1..], reserved + wants, blocked, odd);
        var rest := Process(t, limits, cancelled, queue[1..], reserved + wants, blocked);
        ProcessExtends(t, limits, cancelled, queue[1..], reserved + wants, blocked);
        if blocked && !odd { CapStays(t, rest.table, limits); }
        StuckBehind(rest.table, limits, item, rest.kept, reserved, odd, odd);
      } else {
        var verdict := Decide(t, limits, item.operation, item.resources);
        if verdict.Conflict? {
          KeptItemIsStuck(t, limits, cancelled, queue, reserved, odd);
        } else {
          ProcessLeavesStuck(Lock(t, item.operation, item.resources), limits, cancelled, queue[1..], reserved, blocked, odd);
        }
      }
    }
  }

  lemma KeptItemIsStuck(t: Table, limits: Limits, cancelled: set<nat>, queue: seq<Request>, reserved: set<Resource>, odd: bool)
    requires queue != [] && queue[0].ticket !in cancelled && !Overlaps(queue[0].resources, reserved)
    requires Decide(t, limits, queue[0].operation, queue[0].resources).Conflict?
    ensures var p := Process(t, limits, cancelled, queue, reserved, false);
            AllStuck(p.table, limits, p.kept, reserved, odd)
    decreases queue, 0
  {
    var item, wants := queue[0], Wants(queue[0]);
    var verdict := Decide(t, limits, item.operation, item.resources);
    FirstHeldExactly(t, item.operation, item.resources);
    var byName := verdict == Conflict(CAP) && FirstHeld(t, item.operation, item.resources).Conflict?;
    ProcessLeavesStuck(t, limits, cancelled, queue[1..], reserved + wants, verdict.resource == CAP, odd || byName);
    var rest := Process(t, limits, cancelled, queue[1..], reserved + wants, verdict.resource == CAP);
    ProcessExtends(t, limits, cancelled, queue[1..], reserved + wants, verdict.resource == CAP);
    var held := FirstHeld(t, item.operation, item.resources);
    if held.Conflict? { HeldStays(t, rest.table, item.operation, held.resource); } else { CapStays(t, rest.table, limits); }
    StuckBehind(rest.table, limits, item, rest.kept, reserved, odd || byName, odd);
  }

  /** Putting a stuck request in front of stuck requests. */
  lemma StuckBehind(t: Table, limits: Limits, item: Request, kept: seq<Request>, reserved: set<Resource>, oddBehind: bool, odd: bool)
    requires AllStuck(t, limits, kept, reserved + Wants(item), oddBehind)
    requires odd || Overlaps(item.resources, reserved) || WantsHeld(t, item) || AtCap(t, limits)
    requires oddBehind && !odd ==> CAP in item.resources && HeldByOther(t, item.operation, CAP)
    ensures AllStuck(t, limits, [item] + kept, reserved, odd)
  {
    var longer := [item] + kept;
    forall k: nat | k < |longer| ensures StuckHere(t, limits, longer, k, reserved, odd) {
      if k > 0 {
        assert StuckHere(t, limits, kept, k - 1, reserved + Wants(item), oddBehind) && longer[k] == kept[k - 1];
        if oddBehind && !odd {
          assert CAP in longer[0].resources && HeldByOther(t, longer[0].operation, CAP);
        } else if Overlaps(kept[k - 1].resources, reserved + Wants(item)) {
          var x :| x in kept[k - 1].resources && x in reserved + Wants(item);
          if x !in reserved { assert Overlaps(longer[k].resources, Wants(longer[0])); }
        } else if BehindEarlier(kept, k - 1) {
          var j :| 0 <= j < k - 1 && Overlaps(kept[k - 1].resources, Wants(kept[j]));
          assert longer[j + 1] == kept[j];
        } else if CapName(t, kept, k - 1) {
          var j :| 0 <= j <= k - 1 && CAP in kept[j].resources && HeldByOther(t, kept[j].operation, CAP);
          assert longer[j + 1] == kept[j];
        }
      }
    }
  }

  /** When a pass over the whole queue returns, every remaining request is blocked by a holder, by an
      earlier overlapping request, by the cap, or behind one that waits for a resource named like the cap. */
  lemma PassLeavesNobodyGrantable(t: Table, limits: Limits, cancelled: set<nat>, queue: seq<Request>)
    ensures var p := Process(t, limits, cancelled, queue, {}, false);
            forall k: nat | k < |p.kept| :: Stuck(p.table, limits, p.kept, k)
  {
    ProcessLeavesStuck(t, limits, cancelled, queue, {}, false, false);
    var p := Process(t, limits, cancelled, queue, {}, false);
    forall k: nat | k < |p.kept| ensures Stuck(p.table, limits, p.kept, k) {
      assert StuckHere(p.table, limits, p.kept, k, {}, false);
    }
  }
}
