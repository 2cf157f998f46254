/** The arbiter between passes: what a cancelled or timed-out wait leaves behind, and first come first
    served over whole runs of arrivals, releases, cancellations, timeouts and fencing. */
module ArbiterRuns {
  import opened Arbiter
  import opened ArbiterDomain

  // ---- whom a pass would grant

  /** The `j`-th request is tried, and refused because of the cap or of a resource that bears its name. */
  predicate CapStops(t: Table, limits: Limits, queue: seq<Request>, j: nat)
    requires j < |queue|
  {
    !Behind(queue, j) && Decide(t, limits, queue[j].operation, queue[j].resources) == Conflict(CAP)
  }

  predicate Behind(queue: seq<Request>, m: nat)
    requires m < |queue|
  {
    exists j :: 0 <= j < m && Overlaps(queue[m].resources, Wants(queue[j]))
  }

  /** The first grant of a pass goes to the first such request. */
  predicate Grantable(t: Table, limits: Limits, queue: seq<Request>, m: nat) {
    && m < |queue| && !Behind(queue, m) && (forall j | 0 <= j < m :: !CapStops(t, limits, queue, j))
    && Decide(t, limits, queue[m].operation, queue[m].resources).Granted?
  }

  predicate GrantsNobody(t: Table, limits: Limits, queue: seq<Request>) {
    Process(t, limits, {}, queue, {}, false).granted == []
  }

  function WantsOf(front: seq<Request>): set<Resource> {
    set j, r | 0 <= j < |front| && r in front[j].resources :: r
  }

  /** Where the pass stands after `n` requests of which it granted none. */
  ghost predicate NoneSoFar(t: Table, limits: Limits, queue: seq<Request>, n: nat) {
    n <= |queue| && forall m: nat | m < n :: !Grantable(t, limits, queue, m)
  }

  ghost predicate StoppedBefore(t: Table, limits: Limits, queue: seq<Request>, n: nat)
    requires n <= |queue|
  {
    exists j :: 0 <= j < n && CapStops(t, limits, queue, j)
  }

  lemma ReservedIsBehind(queue: seq<Request>, n: nat)
    requires n < |queue|
    ensures Overlaps(queue[n].resources, WantsOf(queue[..n])) <==> Behind(queue, n)
    ensures WantsOf(queue[..n + 1]) == WantsOf(queue[..n]) + Wants(queue[n])
  {
    var front := queue[..n];
    if Behind(queue, n) {
      var j :| 0 <= j < n && Overlaps(queue[n].resources, Wants(queue[j]));
      assert front[j] == queue[j];
    }
    assert queue[..n + 1] == front + [queue[n]];
    forall r ensures r in WantsOf(queue[..n + 1]) <==> r in WantsOf(front) + Wants(queue[n]) {
      if r in WantsOf(front) {
        var j :| 0 <= j < |front| && r in front[j].resources;
        assert queue[..n + 1][j] == front[j];
      }
      if r in queue[n].resources { assert queue[..n + 1][n] == queue[n]; }
    }
  }

  /** From position `n` on a pass that has granted nobody grants somebody exactly when there is one. */
  lemma {:induction false} RestGrantsExactly(t: Table, limits: Limits, queue: seq<Request>, n: nat)
    requires NoneSoFar(t, limits, queue, n)
    ensures Process(t, limits, {}, queue[n..], WantsOf(queue[..n]), StoppedBefore(t, limits, queue, n)).granted != []
            <==> exists m: nat :: Grantable(t, limits, queue, m)
    decreases |queue| - n
  {
    var reserved, blocked := WantsOf(queue[..n]), StoppedBefore(t, limits, queue, n);
    if n < |queue| {
      var item := queue[n];
      assert queue[n..][0] == item && queue[n..][1..] == queue[n + 1..];
      ReservedIsBehind(queue, n);
      assert Grantable(t, limits, queue, n) <==>
             !Behind(queue, n) && !blocked && Decide(t, limits, item.operation, item.resources).Granted?;
      assert StoppedBefore(t, limits, queue, n + 1) <==> blocked || CapStops(t, limits, queue, n);
      if !Grantable(t, limits, queue, n) { RestGrantsExactly(t, limits, queue, n + 1); }
    }
  }

  lemma PassGrantsExactly(t: Table, limits: Limits, queue: seq<Request>)
    ensures GrantsNobody(t, limits, queue) <==> forall m: nat :: !Grantable(t, limits, queue, m)
  {
    assert queue[0..] == queue && queue[..0] == [] && WantsOf([]) == {};
    RestGrantsExactly(t, limits, queue, 0);
  }

  // ---- taking one request out

  function Without(queue: seq<Request>, k: nat): seq<Request>
    requires k < |queue|
  {
    queue[..k] + queue[k + 1..]
  }

  /** Without the `k`-th request, the `m`-th one is behind nobody. */
  predicate InFront(queue: seq<Request>, k: nat, m: nat)
    requires m < |queue|
  {
    forall j | 0 <= j < m && j != k :: !Overlaps(queue[m].resources, Wants(queue[j]))
  }

  /** A later request that wants nothing another operation holds and is not refused by the cap, that
      shares nothing with an earlier one except perhaps the `k`-th, and before which no other request
      that shares nothing with the rest is stopped by the cap. */
  predicate Freed(t: Table, limits: Limits, queue: seq<Request>, k: nat, m: nat) {
    && k < m < |queue| && InFront(queue, k, m)
    && Decide(t, limits, queue[m].operation, queue[m].resources).Granted?
    && forall j | 0 <= j < m && j != k && InFront(queue, k, j) ::
         Decide(t, limits, queue[j].operation, queue[j].resources) != Conflict(CAP)
  }

  function Shifted(k: nat, m: nat): nat {
    if m < k then m else m + 1
  }

  lemma WithoutAt(queue: seq<Request>, k: nat, m: nat)
    requires k < |queue| && m < |queue| - 1
    ensures Without(queue, k)[m] == queue[Shifted(k, m)]
  {
  }

  lemma BehindWithout(queue: seq<Request>, k: nat, m: nat)
    requires k < |queue| && m < |queue| - 1
    ensures Behind(Without(queue, k), m) <==> !InFront(queue, k, Shifted(k, m))
  {
    var shorter, at := Without(queue, k), Shifted(k, m);
    if Behind(shorter, m) {
      var j :| 0 <= j < m && Overlaps(shorter[m].resources, Wants(shorter[j]));
      assert shorter[j] == queue[Shifted(k, j)];
    }
    if !InFront(queue, k, at) {
      var j :| 0 <= j < at && j != k && Overlaps(queue[at].resources, Wants(queue[j]));
      assert shorter[if j < k then j else j - 1] == queue[j];
    }
  }

  lemma GrantableWithout(t: Table, limits: Limits, queue: seq<Request>, k: nat, m: nat)
    requires k < |queue| && m < |queue| - 1 && k <= m
    ensures Grantable(t, limits, Without(queue, k), m) <==> Freed(t, limits, queue, k, m + 1)
  {
    var shorter := Without(queue, k);
    WithoutAt(queue, k, m);
    BehindWithout(queue, k, m);
    forall j: nat | j < m
      ensures CapStops(t, limits, shorter, j) <==>
              InFront(queue, k, Shifted(k, j)) && Decide(t, limits, queue[Shifted(k, j)].operation, queue[Shifted(k, j)].resources) == Conflict(CAP)
    {
      WithoutAt(queue, k, j);
      BehindWithout(queue, k, j);
    }
    if Grantable(t, limits, shorter, m) {
      forall j | 0 <= j < m + 1 && j != k && InFront(queue, k, j)
        ensures Decide(t, limits, queue[j].operation, queue[j].resources) != Conflict(CAP)
      {
        assert !CapStops(t, limits, shorter, if j < k then j else j - 1);
      }
    }
  }

  lemma EarlierStays(t: Table, limits: Limits, queue: seq<Request>, k: nat, m: nat)
    requires m < k < |queue|
    ensures Grantable(t, limits, Without(queue, k), m) <==> Grantable(t, limits, queue, m)
  {
    var shorter := Without(queue, k);
    assert forall j | 0 <= j <= m :: shorter[j] == queue[j];
    assert forall j: nat | j <= m :: Behind(shorter, j) <==> Behind(queue, j);
    assert forall j: nat | j <= m :: CapStops(t, limits, shorter, j) <==> CapStops(t, limits, queue, j);
  }

  /** `cancelWait` and timeouts take a request out without running the queue. Where a pass would have
      granted nobody before, one would grant somebody afterwards exactly when the removal frees a later
      request. */
  lemma RemovalLeavesGrantableExactly(t: Table, limits: Limits, queue: seq<Request>, k: nat)
    requires GrantsNobody(t, limits, queue) && k < |queue|
    ensures !GrantsNobody(t, limits, Without(queue, k)) <==> exists m: nat :: Freed(t, limits, queue, k, m)
  {
    hide Process, Decide, Behind, InFront, CapStops;
    var shorter := Without(queue, k);
    PassGrantsExactly(t, limits, queue);
    PassGrantsExactly(t, limits, shorter);
    hide GrantsNobody;
    if !GrantsNobody(t, limits, shorter) {
      var m: nat :| Grantable(t, limits, shorter, m);
      if m < k { EarlierStays(t, limits, queue, k, m); } else { GrantableWithout(t, limits, queue, k, m); }
    }
    if m: nat :| Freed(t, limits, queue, k, m) { GrantableWithout(t, limits, queue, k, m - 1); }
  }

  /** What is freed had waited for the removed request: behind it, or behind its being stopped by the cap. */
  lemma FreedHadWaitedForIt(t: Table, limits: Limits, queue: seq<Request>, k: nat, m: nat)
    requires GrantsNobody(t, limits, queue) && Freed(t, limits, queue, k, m)
    ensures Overlaps(queue[m].resources, Wants(queue[k])) || exists j :: k <= j < m && CapStops(t, limits, queue, j)
  {
    PassGrantsExactly(t, limits, queue);
    assert !Grantable(t, limits, queue, m);
    if !Behind(queue, m) {
      var j :| 0 <= j < m && CapStops(t, limits, queue, j);
    }
  }

  /** A request that waits for a lease and one that waits behind it: cancelling the first one leaves the
      second one waiting although nothing keeps it. */
  lemma CancelWaitLeavesGrantable()
    ensures var t, limits := Table(map["a" := "x"], {"x"}), Limits(0, {});
            var queue := [Request(1, "y", ["a", "b"]), Request(2, "z", ["b"])];
            GrantsNobody(t, limits, queue) && !GrantsNobody(t, limits, Without(queue, 0))
  {
    var t, limits := Table(map["a" := "x"], {"x"}), Limits(0, {});
    var queue := [Request(1, "y", ["a", "b"]), Request(2, "z", ["b"])];
    FirstHeldExactly(t, "y", queue[0].resources);
    FirstHeldExactly(t, "z", queue[1].resources);
    assert HeldByOther(t, "y", queue[0].resources[0]) && queue[0].resources[1] == "b" && "b" in Wants(queue[0]);
    assert "b" in queue[1].resources && Overlaps(queue[1].resources, Wants(queue[0])) && Behind(queue, 1);
    PassGrantsExactly(t, limits, queue);
    RemovalLeavesGrantableExactly(t, limits, queue, 0);
    assert Freed(t, limits, queue, 0, 1);
  }

  // ---- after a pass nobody could be granted

  lemma {:induction false} BlockedKeepsAll(t: Table, limits: Limits, queue: seq<Request>, reserved: set<Resource>)
    ensures Process(t, limits, {}, queue, reserved, true) == Pass(t, queue, [])
    decreases queue
  {
    if queue != [] {
      BlockedKeepsAll(t, limits, queue[1..], reserved + Wants(queue[0]));
      assert [queue[0]] + queue[1..] == queue;
    }
  }

  /** What a pass kept, a pass keeps again. */
  lemma {:induction false} PassTwice(t: Table, limits: Limits, cancelled: set<nat>, queue: seq<Request>, reserved: set<Resource>, blocked: bool)
    ensures var p := Process(t, limits, cancelled, queue, reserved, blocked);
            Process(p.table, limits, {}, p.kept, reserved, blocked) == Pass(p.table, p.kept, [])
    decreases queue
  {
    if queue != [] {
      var item, wants := queue[0], Wants(queue[0]);
      var p := Process(t, limits, cancelled, queue, reserved, blocked);
      if item.ticket in cancelled {
        PassTwice(t, limits, cancelled, queue[1..], reserved, blocked);
      } else if Overlaps(item.resources, reserved) || blocked {
        PassTwice(t, limits, cancelled, queue[1..], reserved + wants, blocked);
        assert p.kept[0] == item && p.kept[1..] == Process(t, limits, cancelled, queue[1..], reserved + wants, blocked).kept;
      } else {
        var verdict := Decide(t, limits, item.operation, item.resources);
        if verdict.Conflict? {
          var stops := verdict.resource == CAP;
          PassTwice(t, limits, cancelled, queue[1..], reserved + wants, stops);
          ProcessExtends(t, limits, cancelled, queue[1..], reserved + wants, stops);
          assert p.kept[0] == item && p.kept[1..] == Process(t, limits, cancelled, queue[1..], reserved + wants, stops).kept;
          RefusedAgain(t, p.table, limits, item);
          BlockedKeepsAll(p.table, limits, p.kept[1..], reserved + wants);
        } else {
          PassTwice(Lock(t, item.operation, item.resources), limits, cancelled, queue[1..], reserved, blocked);
        }
      }
    }
  }

  lemma RefusedAgain(t: Table, later: Table, limits: Limits, item: Request)
    requires Extends(t, later) && Decide(t, limits, item.operation, item.resources).Conflict?
    requires Decide(t, limits, item.operation, item.resources) == Conflict(CAP) ==> later == t
    ensures Decide(later, limits, item.operation, item.resources).Conflict?
  {
    FirstHeldExactly(t, item.operation, item.resources);
    FirstHeldExactly(later, item.operation, item.resources);
    var held := FirstHeld(t, item.operation, item.resources);
    if held.Conflict? { HeldStays(t, later, item.operation, held.resource); }
  }

  lemma AfterAPassNobody(t: Table, limits: Limits, cancelled: set<nat>, queue: seq<Request>)
    ensures var p := Process(t, limits, cancelled, queue, {}, false); GrantsNobody(p.table, limits, p.kept)
  {
    PassTwice(t, limits, cancelled, queue, {}, false);
  }

  // ---- whole runs

  /** The limits are what the store reports at the moment of a step. */
  datatype Step =
    | Arrive(op: Operation, resources: seq<Resource>, waits: bool, isCancelled: bool, limits: Limits)
    | Release(op: Operation, resources: seq<Resource>, persisted: set<Resource>, cancelled: set<nat>, limits: Limits)
    | CancelWait(op: Operation)
    | TimeOut(ticket: nat)
    | Fence
    | Rebuild(leases: seq<Lease>, ops: seq<Unfinished>) // a new owner starts over the same store

  datatype State = State(table: Table, queue: seq<Request>, next: nat, fenced: bool)

  const INITIAL := State(Table(map[], {}), [], 0, false)

  predicate OverlapsAny(resources: seq<Resource>, queue: seq<Request>) {
    exists k :: 0 <= k < |queue| && Overlaps(resources, Wants(queue[k]))
  }

  predicate TakenAtOnce(s: State, step: Step)
    requires step.Arrive?
  {
    !s.fenced && !step.isCancelled && !OverlapsAny(step.resources, s.queue)
    && Decide(s.table, step.limits, step.op, step.resources).Granted?
  }

  function PassOf(s: State, step: Step): Pass
    requires step.Release?
  {
    Process(Released(s.table, step.op, step.resources, step.persisted), step.limits, step.cancelled, s.queue, {}, false)
  }

  function RemoveFirst(queue: seq<Request>, op: Operation): seq<Request> {
    if queue == [] then [] else if queue[0].operation == op then queue[1..] else [queue[0]] + RemoveFirst(queue[1..], op)
  }

  function RemoveTicket(queue: seq<Request>, ticket: nat): seq<Request> {
    if queue == [] then [] else if queue[0].ticket == ticket then queue[1..] else [queue[0]] + RemoveTicket(queue[1..], ticket)
  }

  /** The methods of `ExecutionDomain`, one after the other, and its constructor after a crash, which finds
      no queue; arrivals are numbered. */
  function Apply(s: State, step: Step): State {
    match step
    case Arrive(op, resources, waits, isCancelled, _) =>
      if TakenAtOnce(s, step) then s.(table := Lock(s.table, op, resources), next := s.next + 1)
      else if s.fenced || isCancelled || !waits then s.(next := s.next + 1)
      else s.(queue := s.queue + [Request(s.next, op, resources)], next := s.next + 1)
    case Release(_, _, _, _, _) => if s.fenced then s else s.(table := PassOf(s, step).table, queue := PassOf(s, step).kept)
    case CancelWait(op) => s.(queue := RemoveFirst(s.queue, op))
    case TimeOut(ticket) => s.(queue := RemoveTicket(s.queue, ticket))
    case Fence => s.(fenced := true)
    case Rebuild(leases, ops) => State(Rebuilt(leases, ops), [], s.next, false)
  }

  /** The requests that a step admits. */
  function Grants(s: State, step: Step): seq<Request> {
    match step
    case Arrive(op, resources, _, _, _) => if TakenAtOnce(s, step) then [Request(s.next, op, resources)] else []
    case Release(_, _, _, _, _) => if s.fenced then [] else PassOf(s, step).granted
    case _ => []
  }

  function Run(steps: seq<Step>): State {
    if steps == [] then INITIAL else Apply(Run(steps[..|steps| - 1]), steps[|steps| - 1])
  }

  predicate Ascending(queue: seq<Request>) {
    forall j, k | 0 <= j < k < |queue| :: queue[j].ticket < queue[k].ticket
  }

  /** The queue is in order of arrival. */
  predicate InOrder(s: State) {
    Ascending(s.queue) && forall q | q in s.queue :: q.ticket < s.next
  }

  lemma {:induction false} FirstRemoved(queue: seq<Request>, op: Operation)
    requires Ascending(queue)
    ensures Ascending(RemoveFirst(queue, op)) && forall q | q in RemoveFirst(queue, op) :: q in queue
  {
    if queue != [] && queue[0].operation != op {
      FirstRemoved(queue[1..], op);
      var rest := RemoveFirst(queue[1..], op);
      assert forall k | 0 <= k < |rest| :: rest[k] in queue[1..];
    }
  }

  lemma {:induction false} TicketRemoved(queue: seq<Request>, ticket: nat)
    requires Ascending(queue)
    ensures Ascending(RemoveTicket(queue, ticket)) && forall q | q in RemoveTicket(queue, ticket) :: q in queue
  {
    if queue != [] && queue[0].ticket != ticket {
      TicketRemoved(queue[1..], ticket);
      var rest := RemoveTicket(queue[1..], ticket);
      assert forall k | 0 <= k < |rest| :: rest[k] in queue[1..];
    }
  }

  /** A pass keeps the order, and what it grants is not kept. */
  lemma {:induction false} PassInOrder(t: Table, limits: Limits, cancelled: set<nat>, queue: seq<Request>, reserved: set<Resource>, blocked: bool)
    requires Ascending(queue)
    ensures var p := Process(t, limits, cancelled, queue, reserved, blocked);
            Ascending(p.kept) && Ascending(p.granted) && forall a, b | a in p.kept && b in p.granted :: a.ticket != b.ticket
    decreases queue
  {
    if queue != [] {
      var item, wants := queue[0], Wants(queue[0]);
      if item.ticket in cancelled {
        PassInOrder(t, limits, cancelled, queue[1..], reserved, blocked);
      } else if Overlaps(item.resources, reserved) || blocked {
        InOrderBehind(t, limits, cancelled, queue, reserved + wants, blocked);
      } else {
        var verdict := Decide(t, limits, item.operation, item.resources);
        if verdict.Conflict? {
          InOrderBehind(t, limits, cancelled, queue, reserved + wants, verdict.resource == CAP);
        } else {
          InOrderBehind(Lock(t, item.operation, item.resources), limits, cancelled, queue, reserved, blocked);
        }
      }
    }
  }

  lemma InOrderBehind(t: Table, limits: Limits, cancelled: set<nat>, queue: seq<Request>, reserved: set<Resource>, blocked: bool)
    requires Ascending(queue) && queue != []
    ensures var p := Process(t, limits, cancelled, queue[1..], reserved, blocked);
            && Ascending([queue[0]] + p.kept) && Ascending([queue[0]] + p.granted) && Ascending(p.kept) && Ascending(p.granted)
            && (forall a, b | a in p.kept && b in p.granted :: a.ticket != b.ticket)
            && (forall q | q in p.kept || q in p.granted :: queue[0].ticket < q.ticket)
    decreases queue, 0
  {
    hide Process;
    PassInOrder(t, limits, cancelled, queue[1..], reserved, blocked);
    KeptAndGranted(t, limits, cancelled, queue[1..], reserved, blocked);
    var p := Process(t, limits, cancelled, queue[1..], reserved, blocked);
    forall q | q in p.kept || q in p.granted ensures queue[0].ticket < q.ticket {
      var j :| 0 <= j < |queue| - 1 && queue[1..][j] == q;
      assert queue[j + 1] == q;
    }
  }

  lemma StepInOrder(s: State, step: Step)
    requires InOrder(s)
    ensures InOrder(Apply(s, step)) && s.next <= Apply(s, step).next
    ensures forall q | q in Apply(s, step).queue :: q in s.queue || q.ticket >= s.next
    ensures forall b | b in Grants(s, step) :: (b in s.queue || b.ticket >= s.next) && b.ticket < Apply(s, step).next
    ensures forall a, b | a in Apply(s, step).queue && b in Grants(s, step) :: a.ticket != b.ticket
  {
    hide Process, Decide, Released;
    match step
    case Arrive(_, _, _, _, _) =>
    case Release(op, resources, persisted, cancelled, limits) =>
      var t := Released(s.table, op, resources, persisted);
      PassInOrder(t, limits, cancelled, s.queue, {}, false);
      KeptAndGranted(t, limits, cancelled, s.queue, {}, false);
    case CancelWait(op) => FirstRemoved(s.queue, op);
    case TimeOut(ticket) => TicketRemoved(s.queue, ticket);
    case Fence =>
    case Rebuild(_, _) =>
  }

  lemma {:induction false} RunInOrder(steps: seq<Step>)
    ensures InOrder(Run(steps))
  {
    if steps != [] {
      RunInOrder(steps[..|steps| - 1]);
      StepInOrder(Run(steps[..|steps| - 1]), steps[|steps| - 1]);
    }
  }

  /** First come, first served, on every run: a request that is granted shares nothing with one that arrived
      before it and is still waiting. */
  lemma FirstComeFirstServed(steps: seq<Step>, step: Step, a: Request, b: Request)
    requires b in Grants(Run(steps), step) && a in Apply(Run(steps), step).queue && a.ticket < b.ticket
    ensures !Overlaps(b.resources, Wants(a))
  {
    hide Process, Decide, Released;
    var s := Run(steps);
    RunInOrder(steps);
    if step.Arrive? {
      var k :| 0 <= k < |s.queue| && s.queue[k] == a;
    } else {
      var t := Released(s.table, step.op, step.resources, step.persisted);
      KeptAndGranted(t, step.limits, step.cancelled, s.queue, {}, false);
      NobodyOvertakes(t, step.limits, step.cancelled, s.queue, {}, false);
      var j :| 0 <= j < |s.queue| && s.queue[j] == a;
      var k :| 0 <= k < |s.queue| && s.queue[k] == b;
    }
  }

  /** A ticket that has left the queue never comes back. */
  predicate IsGone(s: State, ticket: nat) {
    ticket < s.next && forall q | q in s.queue :: q.ticket != ticket
  }

  lemma {:induction false} StaysGone(steps: seq<Step>, n: nat, ticket: nat)
    requires n <= |steps| && IsGone(Run(steps[..n]), ticket)
    ensures IsGone(Run(steps), ticket)
    decreases |steps|
  {
    if n == |steps| {
      assert steps[..n] == steps;
    } else {
      var front := steps[..|steps| - 1];
      assert front[..n] == steps[..n];
      StaysGone(front, n, ticket);
      RunInOrder(front);
      StepInOrder(Run(front), steps[|steps| - 1]);
    }
  }

  /** No request is granted twice on any run. */
  lemma GrantedOnce(steps: seq<Step>, n: nat, later: Step, b: Request, c: Request)
    requires n < |steps| && b in Grants(Run(steps[..n]), steps[n]) && c in Grants(Run(steps), later)
    ensures b.ticket != c.ticket
  {
    hide Grants, Apply, InOrder, IsGone;
    RunInOrder(steps[..n]);
    GoneWhenGranted(Run(steps[..n]), steps[n], b);
    assert steps[..n + 1][..n] == steps[..n] && Run(steps[..n + 1]) == Apply(Run(steps[..n]), steps[n]);
    StaysGone(steps, n + 1, b.ticket);
    RunInOrder(steps);
    GoneIsNotGranted(Run(steps), later, b.ticket, c);
  }

  lemma GoneWhenGranted(s: State, step: Step, b: Request)
    requires InOrder(s) && b in Grants(s, step)
    ensures IsGone(Apply(s, step), b.ticket)
  {
    hide Grants, Apply;
    StepInOrder(s, step);
  }

  lemma GoneIsNotGranted(s: State, step: Step, ticket: nat, c: Request)
    requires InOrder(s) && IsGone(s, ticket) && c in Grants(s, step)
    ensures c.ticket != ticket
  {
    hide Grants, Apply;
    StepInOrder(s, step);
  }

  /** The step takes away the lease on `r`. */
  predicate Takes(s: State, step: Step, r: Resource) {
    step.Release? && !s.fenced && r in s.table.locked && r in Dropped(s.table, step.op, step.resources, step.persisted)
  }

  /** On every run, as long as the same owner is at work: a lease changes hands only when it is released. */
  lemma OnlyReleasesTakeLeases(steps: seq<Step>, step: Step)
    ensures var s, n := Run(steps), Apply(Run(steps), step);
            forall r | !step.Rebuild? && r in s.table.locked && !Takes(s, step, r) :: r in n.table.locked && n.table.locked[r] == s.table.locked[r]
  {
    var s := Run(steps);
    if step.Arrive? && TakenAtOnce(s, step) { GrantExtends(s.table, step.limits, step.op, step.resources); }
    if step.Release? && !s.fenced {
      ProcessExtends(Released(s.table, step.op, step.resources, step.persisted), step.limits, step.cancelled, s.queue, {}, false);
    }
  }

  /** Only an operation's own release takes its leases. */
  predicate TakesOnlyItsOwn(s: State, step: Step) {
    step.Release? ==> forall r | r in s.table.locked && Takes(s, step, r) :: s.table.locked[r] == step.op
  }

  /** No listed resource is persisted for the releasing operation while another one holds it. */
  predicate ListsNoneOfOthers(s: State, step: Step) {
    step.Release? && !s.fenced ==>
      forall r | r in step.resources && r in step.persisted :: !HeldByOther(s.table, step.op, r)
  }

  lemma StepTakesOnlyItsOwnExactly(s: State, step: Step)
    ensures TakesOnlyItsOwn(s, step) <==> ListsNoneOfOthers(s, step)
  {
    if step.Release? && !s.fenced {
      ReleaseSparesOthersExactly(s.table, step.op, step.resources, step.persisted);
      var after := Released(s.table, step.op, step.resources, step.persisted);
      assert forall r | HeldByOther(s.table, step.op, r) :: HeldByOther(after, step.op, r) <==> !Takes(s, step, r);
    }
  }

  /** On every run leases are taken by their own operation's release alone, exactly when no release lists
      a resource that is persisted for its operation and held by another one. */
  lemma OnlyOwnersReleaseExactly(steps: seq<Step>)
    ensures (forall k | 0 <= k < |steps| :: TakesOnlyItsOwn(Run(steps[..k]), steps[k]))
            <==> forall k | 0 <= k < |steps| :: ListsNoneOfOthers(Run(steps[..k]), steps[k])
  {
    hide Run, TakesOnlyItsOwn, ListsNoneOfOthers;
    forall k | 0 <= k < |steps| ensures TakesOnlyItsOwn(Run(steps[..k]), steps[k]) <==> ListsNoneOfOthers(Run(steps[..k]), steps[k]) {
      StepTakesOnlyItsOwnExactly(Run(steps[..k]), steps[k]);
    }
  }

  /** A resource that the store lists for two operations: the rebuild locks it for the second one, and the
      release of the first one takes it. */
  lemma ReleaseTakesAnothersLease(r: Resource, a: Operation, b: Operation, limits: Limits)
    requires a != b
    ensures var s := Run([Rebuild([Lease(r, a), Lease(r, b)], [])]);
            s.table.locked == map[r := b] && Takes(s, Release(a, [r], {r}, {}, limits), r)
    ensures !TakesOnlyItsOwn(Run([Rebuild([Lease(r, a), Lease(r, b)], [])]), Release(a, [r], {r}, {}, limits))
  {
    var leases := [Lease(r, a), Lease(r, b)];
    assert leases[..1] == [Lease(r, a)] && leases[..1][..0] == [];
    assert LeasesOf(leases[..1]) == map[r := a] && LeasesOf(leases) == map[r := b];
    var step := Rebuild(leases, []);
    assert [step][..0] == [];
    assert Run([step]) == Apply(Run([]), step);
    assert r in [r];
  }

  // ---- the cap

  /** The store's answers stay the same over the run, rebuilds included. */
  predicate UnderLimits(steps: seq<Step>, limits: Limits) {
    forall k | 0 <= k < |steps| :: IsUnder(steps[k], limits)
  }

  predicate IsUnder(step: Step, limits: Limits) {
    && (step.Arrive? || step.Release? ==> step.limits == limits)
    && (step.Rebuild? ==> forall u | u in step.ops :: u.operation in limits.unfinished)
  }

  lemma {:induction false} RebuiltAdmitsUnfinished(leases: seq<Lease>, ops: seq<Unfinished>, limits: Limits)
    requires forall u | u in ops :: u.operation in limits.unfinished
    ensures Active(Rebuilt(leases, ops), limits) == limits.unfinished
  {
    if ops != [] { RebuiltAdmitsUnfinished(leases, ops[..|ops| - 1], limits); }
  }

  function Most(limits: Limits): nat {
    if |limits.unfinished| > limits.cap then |limits.unfinished| else limits.cap
  }

  lemma ReleasedIsFewer(t: Table, limits: Limits, op: Operation, resources: seq<Resource>, persisted: set<Resource>)
    ensures |Active(Released(t, op, resources, persisted), limits)| <= |Active(t, limits)|
  {
    FewerAre(Active(Released(t, op, resources, persisted), limits), Active(t, limits));
  }

  lemma {:induction false} FewerAre(a: set<Operation>, b: set<Operation>)
    requires a <= b
    ensures |a| <= |b|
  {
    if a != {} {
      var x :| x in a;
      FewerAre(a - {x}, b - {x});
    }
  }

  lemma StepWithinCap(s: State, step: Step, limits: Limits)
    requires limits.cap != 0 && IsUnder(step, limits)
    requires |Active(s.table, limits)| <= Most(limits)
    ensures |Active(Apply(s, step).table, limits)| <= Most(limits)
  {
    hide Process, Decide, Released;
    if step.Arrive? && TakenAtOnce(s, step) { AdmissionWithinCap(s.table, limits, step.op, step.resources); }
    if step.Rebuild? { RebuiltAdmitsUnfinished(step.leases, step.ops, limits); }
    if step.Release? && !s.fenced {
      ReleasedIsFewer(s.table, limits, step.op, step.resources, step.persisted);
      ProcessExtends(Released(s.table, step.op, step.resources, step.persisted), limits, step.cancelled, s.queue, {}, false);
    }
  }

  /** On every run no more operations are active than the cap allows, unless the store already had more
      unfinished ones. */
  lemma {:induction false} CapOnEveryRun(steps: seq<Step>, limits: Limits)
    requires limits.cap != 0 && UnderLimits(steps, limits)
    ensures |Active(Run(steps).table, limits)| <= Most(limits)
  {
    if steps == [] {
      assert Active(Run(steps).table, limits) == limits.unfinished;
    } else {
      CapOnEveryRun(steps[..|steps| - 1], limits);
      StepWithinCap(Run(steps[..|steps| - 1]), steps[|steps| - 1], limits);
    }
  }

  // ---- who counts for the cap

  /** The step admits the operation. */
  ghost predicate ComesIn(s: State, step: Step, op: Operation) {
    (step.Rebuild? && exists u :: u in step.ops && u.operation == op) || IsGranted(Grants(s, step), op)
  }

  /** The step ends what was admitted before: a release that leaves the operation without a lease, or a
      rebuild. */
  ghost predicate GoesOut(s: State, step: Step, op: Operation) {
    step.Rebuild? || (step.Release? && !s.fenced && step.op == op && !KeepsSome(s.table, op, step.resources))
  }

  lemma {:induction false} RebuiltAdmits(leases: seq<Lease>, ops: seq<Unfinished>, op: Operation)
    ensures op in Rebuilt(leases, ops).admitted <==> exists u :: u in ops && u.operation == op
  {
    if ops != [] {
      var n := |ops| - 1;
      RebuiltAdmits(leases, ops[..n], op);
      assert forall u :: u in ops <==> u in ops[..n] || u == ops[n];
    }
  }

  lemma StepAdmits(s: State, step: Step, op: Operation)
    ensures op in Apply(s, step).table.admitted <==> ComesIn(s, step, op) || (op in s.table.admitted && !GoesOut(s, step, op))
  {
    hide Process, Decide, Released, KeepsSome, Rebuilt;
    match step
    case Arrive(who, resources, _, _, _) =>
      if TakenAtOnce(s, step) { assert Grants(s, step)[0].operation == who; }
    case Release(who, resources, persisted, cancelled, limits) =>
      ReleasesExactly(s.table, who, resources, persisted, limits, cancelled, s.queue);
    case Rebuild(leases, ops) => RebuiltAdmits(leases, ops, op);
    case _ =>
  }

  ghost predicate InSince(steps: seq<Step>, k: nat, op: Operation) {
    && k < |steps| && ComesIn(Run(steps[..k]), steps[k], op)
    && forall j | k < j < |steps| :: !GoesOut(Run(steps[..j]), steps[j], op)
  }

  lemma InSinceFront(steps: seq<Step>, k: nat, op: Operation)
    requires steps != [] && k < |steps| - 1
    ensures InSince(steps, k, op)
            <==> InSince(steps[..|steps| - 1], k, op) && !GoesOut(Run(steps[..|steps| - 1]), steps[|steps| - 1], op)
  {
    hide Run, ComesIn, GoesOut;
    var front := steps[..|steps| - 1];
    assert forall j | 0 <= j <= |front| :: front[..j] == steps[..j];
    if InSince(steps, k, op) {
      forall j | k < j < |front| ensures !GoesOut(Run(front[..j]), front[j], op) {
        assert !GoesOut(Run(steps[..j]), steps[j], op);
      }
    }
  }

  /** On every run an operation counts for the cap exactly since a step that admitted it and as long as no
      release has left it without a lease. */
  lemma {:induction false} AdmittedExactly(steps: seq<Step>, op: Operation)
    ensures op in Run(steps).table.admitted <==> exists k: nat :: InSince(steps, k, op)
  {
    hide Apply, ComesIn, GoesOut, InSince;
    if steps != [] {
      var n := |steps| - 1;
      AdmittedExactly(steps[..n], op);
      StepAdmits(Run(steps[..n]), steps[n], op);
      LastComesIn(steps, op);
      if k: nat :| InSince(steps[..n], k, op) { Earlier(steps[..n], k, op); InSinceFront(steps, k, op); }
      if k: nat :| InSince(steps, k, op) {
        Earlier(steps, k, op);
        if k < n { InSinceFront(steps, k, op); }
      }
    } else if k: nat :| InSince(steps, k, op) {
      Earlier(steps, k, op);
    }
  }

  lemma Earlier(steps: seq<Step>, k: nat, op: Operation)
    requires InSince(steps, k, op)
    ensures k < |steps|
  {
  }

  lemma LastComesIn(steps: seq<Step>, op: Operation)
    requires steps != []
    ensures InSince(steps, |steps| - 1, op) <==> ComesIn(Run(steps[..|steps| - 1]), steps[|steps| - 1], op)
  {
  }

  /** A cap of one: the place of an operation that has released its lease is free for the next one. */
  lemma PlaceIsGivenBack(x: Operation, y: Operation, a: Resource, b: Resource)
    requires x != y && a != b
    ensures var limits := Limits(1, {});
            var steps := [Arrive(x, [a], false, false, limits), Release(x, [a], {}, {}, limits)];
            && x in Run(steps[..1]).table.admitted && x !in Run(steps).table.admitted
            && IsGranted(Grants(Run(steps), Arrive(y, [b], false, false, limits)), y)
            && !IsGranted(Grants(Run(steps[..1]), Arrive(y, [b], false, false, limits)), y)
  {
    var limits := Limits(1, {});
    var arrive, release := Arrive(x, [a], false, false, limits), Release(x, [a], {}, {}, limits);
    var steps := [arrive, release];
    assert steps[..1] == [arrive] && [arrive][..0] == [] && Run([]) == INITIAL;
    DecidesExactly(INITIAL.table, limits, x, [a]);
    var s := Apply(INITIAL, arrive);
    assert Run([arrive]) == s && s.table == Table(map[a := x], {x}) && s.queue == [];
    var t := Apply(s, release);
    assert Run(steps) == t;
    assert a in [a] && Dropped(s.table, x, [a], {}) == {a};
    assert t.table == Table(map[], {}) && t.queue == [];
    DecidesExactly(t.table, limits, y, [b]);
    DecidesExactly(s.table, limits, y, [b]);
    var next := Arrive(y, [b], false, false, limits);
    assert Grants(t, next) == [Request(t.next, y, [b])] && Grants(t, next)[0].operation == y;
    assert s.table.admitted + limits.unfinished == {x};
  }
}
