/** Per-domain resource locks and in-flight joining of `PipelineDomainCoordinator`. */
module Coordinator {

  type Resource = string

  /** `resources` is the deduplicated request; its order plays no part in the decisions. */
  datatype Waiter<T> = Waiter(owner: T, resources: set<Resource>)

  /** The lock state: what is held, who waits in arrival order, and whose release is outstanding. */
  datatype Table<T> = Table(held: set<Resource>, waiting: seq<Waiter<T>>, live: map<T, set<Resource>>)

  /** Held resources are exactly the disjoint union of the outstanding grants. */
  ghost predicate Consistent<T(!new)>(t: Table<T>) {
    && (forall o | o in t.live :: t.live[o] <= t.held)
    && (forall r | r in t.held :: exists o :: o in t.live && r in t.live[o])
    && (forall o, q | o in t.live && q in t.live && o != q :: t.live[o] !! t.live[q])
    && (forall k | 0 <= k < |t.waiting| :: t.waiting[k].owner !in t.live)
    && (forall j, k | 0 <= j < k < |t.waiting| :: t.waiting[j].owner != t.waiting[k].owner)
  }

  predicate Blocked<T>(t: Table<T>, w: Waiter<T>) {
    !(w.resources !! t.held)
  }

  ghost predicate NoneGrantable<T>(t: Table<T>, upTo: nat) {
    upTo <= |t.waiting| && forall k | 0 <= k < upTo :: Blocked(t, t.waiting[k])
  }

  function Grant<T>(t: Table<T>, k: nat): Table<T>
    requires k < |t.waiting|
  {
    var w := t.waiting[k];
    Table(t.held + w.resources, t.waiting[..k] + t.waiting[k + 1..], t.live[w.owner := w.resources])
  }

  /** One drain pass from position `k`: grant what is free, step over what is blocked. */
  function Drain<T>(t: Table<T>, k: nat): Table<T>
    requires k <= |t.waiting|
    decreases |t.waiting| - k
  {
    if k == |t.waiting| then t
    else if Blocked(t, t.waiting[k]) then Drain(t, k + 1)
    else Drain(Grant(t, k), k)
  }

  function Request<T>(t: Table<T>, w: Waiter<T>): Table<T> {
    Drain(t.(waiting := t.waiting + [w]), 0)
  }

  /** Releasing drops the resources the grant captured and lets the queue through. */
  function Free<T>(t: Table<T>, o: T): Table<T>
    requires o in t.live
  {
    Drain(t.(held := t.held - t.live[o], live := t.live - {o}), 0)
  }

  function Owners<T>(t: Table<T>): set<T> {
    set k | 0 <= k < |t.waiting| :: t.waiting[k].owner
  }

  ghost predicate Wants<T>(t: Table<T>, o: T, rs: set<Resource>) {
    (o in t.live && t.live[o] == rs) || Waiter(o, rs) in t.waiting
  }

  /** A drain keeps the table consistent, leaves nobody grantable, and neither loses nor invents a
      request. */
  lemma {:induction false} DrainIsSafe<T(!new)>(t: Table<T>, k: nat)
    requires Consistent(t) && NoneGrantable(t, k)
    ensures var u := Drain(t, k);
            && Consistent(u) && NoneGrantable(u, |u.waiting|)
            && t.live.Keys <= u.live.Keys && (forall o | o in t.live :: u.live[o] == t.live[o])
            && (forall o, rs :: Wants(u, o, rs) <==> Wants(t, o, rs))
    decreases |t.waiting| - k
  {
    if k == |t.waiting| {
    } else if Blocked(t, t.waiting[k]) {
      DrainIsSafe(t, k + 1);
    } else {
      var u := Grant(t, k);
      GrantIsConsistent(t, k);
      GrantWants(t, k);
      hide Wants, Consistent, Blocked;
      DrainIsSafe(u, k);
    }
  }

  lemma GrantWants<T(!new)>(t: Table<T>, k: nat)
    requires k < |t.waiting| && Consistent(t) && NoneGrantable(t, k) && !Blocked(t, t.waiting[k])
    ensures var u := Grant(t, k);
            && NoneGrantable(u, k) && (forall o, rs :: Wants(u, o, rs) <==> Wants(t, o, rs))
            && t.live.Keys <= u.live.Keys && forall o | o in t.live :: u.live[o] == t.live[o]
  {
    var u := Grant(t, k);
    assert forall j | 0 <= j < |u.waiting| :: u.waiting[j] == t.waiting[if j < k then j else j + 1];
    forall o, rs ensures Wants(u, o, rs) <==> Wants(t, o, rs) {
      if Waiter(o, rs) in t.waiting {
        var j :| 0 <= j < |t.waiting| && t.waiting[j] == Waiter(o, rs);
        if j != k { assert u.waiting[if j < k then j else j - 1] == Waiter(o, rs); }
      }
    }
  }

  /** Who still waits, in the order of arrival. */
  ghost function StillWaiting<T(!new)>(waiting: seq<Waiter<T>>, live: map<T, set<Resource>>): seq<Waiter<T>> {
    if waiting == [] then []
    else
      var front, last := waiting[..|waiting| - 1], waiting[|waiting| - 1];
      StillWaiting(front, live) + if last.owner in live then [] else [last]
  }

  lemma {:induction false} StillWaitingJoins<T(!new)>(a: seq<Waiter<T>>, b: seq<Waiter<T>>, live: map<T, set<Resource>>)
    ensures StillWaiting(a + b, live) == StillWaiting(a, live) + StillWaiting(b, live)
  {
    if b == [] {
      assert a + b == a;
    } else {
      assert (a + b)[..|a + b| - 1] == a + b[..|b| - 1];
      StillWaitingJoins(a, b[..|b| - 1], live);
    }
  }

  lemma {:induction false} AllStillWaiting<T(!new)>(a: seq<Waiter<T>>, live: map<T, set<Resource>>)
    requires forall k | 0 <= k < |a| :: a[k].owner !in live
    ensures StillWaiting(a, live) == a
  {
    if a != [] { AllStillWaiting(a[..|a| - 1], live); }
  }

  /** The `m`-th request can be granted beside what is held and what was granted before it in this pass. */
  ghost predicate Fits<T(!new)>(t: Table<T>, k: nat, m: nat, live: map<T, set<Resource>>)
    requires m < |t.waiting|
  {
    && t.waiting[m].resources !! t.held
    && forall i | k <= i < m && t.waiting[i].owner in live :: t.waiting[i].resources !! t.waiting[m].resources
  }

  /** From position `k` on exactly those are granted that fit beside what is held and beside those before them
      that are granted; the others keep their order. */
  ghost predicate IsGreedy<T(!new)>(t: Table<T>, k: nat, u: Table<T>) {
    && (forall m: nat | m < k && m < |t.waiting| :: t.waiting[m].owner !in u.live)
    && (forall m: nat | k <= m < |t.waiting| :: t.waiting[m].owner in u.live <==> Fits(t, k, m, u.live))
    && u.waiting == StillWaiting(t.waiting, u.live)
  }

  lemma GreedyBehindBlocked<T(!new)>(t: Table<T>, k: nat, u: Table<T>)
    requires k < |t.waiting| && Blocked(t, t.waiting[k]) && IsGreedy(t, k + 1, u)
    ensures IsGreedy(t, k, u)
  {
    hide StillWaiting;
    forall m: nat | k <= m < |t.waiting| ensures t.waiting[m].owner in u.live <==> Fits(t, k, m, u.live) {
      if m > k { assert Fits(t, k, m, u.live) <==> Fits(t, k + 1, m, u.live); }
    }
  }

  lemma GreedyBehindGranted<T(!new)>(t: Table<T>, k: nat, u: Table<T>)
    requires k < |t.waiting| && t.waiting[k].owner in u.live && !Blocked(t, t.waiting[k]) && IsGreedy(Grant(t, k), k, u)
    ensures IsGreedy(t, k, u)
  {
    hide StillWaiting, Fits;
    var next, w := Grant(t, k), t.waiting[k];
    forall m: nat | m < k ensures t.waiting[m].owner !in u.live { assert next.waiting[m] == t.waiting[m]; }
    forall m: nat | k <= m < |t.waiting| ensures t.waiting[m].owner in u.live <==> Fits(t, k, m, u.live) {
      if m > k { FitsAfterGrant(t, k, m, u.live); } else { FirstFits(t, k, u.live); }
    }
    RemovedIsNotWaiting(t.waiting, k, u.live);
  }

  lemma FirstFits<T(!new)>(t: Table<T>, k: nat, live: map<T, set<Resource>>)
    requires k < |t.waiting|
    ensures Fits(t, k, k, live) <==> !Blocked(t, t.waiting[k])
  {
  }

  lemma RemovedIsNotWaiting<T(!new)>(waiting: seq<Waiter<T>>, k: nat, live: map<T, set<Resource>>)
    requires k < |waiting| && waiting[k].owner in live
    ensures StillWaiting(waiting[..k] + waiting[k + 1..], live) == StillWaiting(waiting, live)
  {
    var one := [waiting[k]];
    assert waiting == waiting[..k] + (one + waiting[k + 1..]) && one[..0] == [];
    assert StillWaiting(one, live) == StillWaiting(one[..0], live) + [];
    StillWaitingJoins(waiting[..k], one + waiting[k + 1..], live);
    StillWaitingJoins(one, waiting[k + 1..], live);
    StillWaitingJoins(waiting[..k], waiting[k + 1..], live);
  }

  /** First come, first served, stepping over who is blocked. */
  lemma {:induction false} DrainIsGreedy<T(!new)>(t: Table<T>, k: nat)
    requires Consistent(t) && NoneGrantable(t, k)
    ensures IsGreedy(t, k, Drain(t, k))
    decreases |t.waiting| - k
  {
    var u := Drain(t, k);
    DrainIsSafe(t, k);
    if k == |t.waiting| {
      AllStillWaiting(t.waiting, t.live);
    } else if Blocked(t, t.waiting[k]) {
      hide IsGreedy;
      DrainIsGreedy(t, k + 1);
      GreedyBehindBlocked(t, k, u);
    } else {
      hide IsGreedy;
      var next := Grant(t, k);
      GrantIsConsistent(t, k);
      DrainIsGreedy(next, k);
      DrainIsSafe(next, k);
      assert t.waiting[k].owner in next.live;
      GreedyBehindGranted(t, k, u);
    }
  }

  lemma FitsAfterGrant<T(!new)>(t: Table<T>, k: nat, m: nat, live: map<T, set<Resource>>)
    requires k < m < |t.waiting| && t.waiting[k].owner in live
    ensures Fits(t, k, m, live) <==> Fits(Grant(t, k), k, m - 1, live)
    ensures Grant(t, k).waiting[m - 1] == t.waiting[m]
  {
    var next := Grant(t, k);
    assert forall i | k <= i < m - 1 :: next.waiting[i] == t.waiting[i + 1];
    if Fits(next, k, m - 1, live) {
      forall i | k <= i < m && t.waiting[i].owner in live ensures t.waiting[i].resources !! t.waiting[m].resources {
        if i > k { assert next.waiting[i - 1] == t.waiting[i]; }
      }
    }
  }

  lemma GrantIsConsistent<T(!new)>(t: Table<T>, k: nat)
    requires Consistent(t) && NoneGrantable(t, k) && k < |t.waiting| && !Blocked(t, t.waiting[k])
    ensures Consistent(Grant(t, k)) && NoneGrantable(Grant(t, k), k)
  {
    var u, w := Grant(t, k), t.waiting[k];
    assert forall j | 0 <= j < |u.waiting| :: u.waiting[j] == t.waiting[if j < k then j else j + 1];
    forall r | r in u.held ensures exists o :: o in u.live && r in u.live[o] {
      if r in w.resources {
        assert w.owner in u.live;
      } else {
        var o :| o in t.live && r in t.live[o];
        assert o in u.live;
      }
    }
  }

  lemma RequestIsSafe<T(!new)>(t: Table<T>, w: Waiter<T>)
    requires Consistent(t) && w.owner !in t.live && w.owner !in Owners(t)
    ensures var u := Request(t, w);
            && Consistent(u) && NoneGrantable(u, |u.waiting|)
            && t.live.Keys <= u.live.Keys && (forall o | o in t.live :: u.live[o] == t.live[o])
            && (forall o, rs :: Wants(u, o, rs) <==> Wants(t, o, rs) || (o == w.owner && rs == w.resources))
  {
    var q := t.(waiting := t.waiting + [w]);
    forall k | 0 <= k < |t.waiting| ensures t.waiting[k].owner in Owners(t) {}
    assert forall o, rs :: Wants(q, o, rs) <==> Wants(t, o, rs) || (o == w.owner && rs == w.resources);
    DrainIsSafe(q, 0);
  }

  lemma FreeIsSafe<T(!new)>(t: Table<T>, o: T)
    requires Consistent(t) && o in t.live
    ensures var u := Free(t, o);
            && Consistent(u) && NoneGrantable(u, |u.waiting|) && o !in u.live
            && t.live.Keys - {o} <= u.live.Keys && (forall q | q in t.live && q != o :: u.live[q] == t.live[q])
            && (forall q, rs :: Wants(u, q, rs) <==> q != o && Wants(t, q, rs))
  {
    var q := t.(held := t.held - t.live[o], live := t.live - {o});
    forall r | r in q.held ensures exists p :: p in q.live && r in q.live[p] {
      var p :| p in t.live && r in t.live[p];
      assert p in q.live;
    }
    forall p, rs ensures Wants(q, p, rs) <==> p != o && Wants(t, p, rs) {}
    DrainIsSafe(q, 0);
    if o in Free(t, o).live {
      assert Wants(Free(t, o), o, Free(t, o).live[o]);
    }
  }

  lemma IdleTicket(t: Table<nat>, ticket: nat)
    requires forall o: nat, rs :: Wants(t, o, rs) ==> o < ticket
    ensures ticket !in t.live && ticket !in Owners(t)
  {
    if ticket in t.live { assert Wants(t, ticket, t.live[ticket]); }
    forall k | 0 <= k < |t.waiting| ensures t.waiting[k].owner != ticket {
      assert Wants(t, t.waiting[k].owner, t.waiting[k].resources);
    }
  }

  datatype Flight = Flight(fingerprint: nat, result: nat)
  datatype Joining = NotInFlight | Joins(result: nat) | Conflict

  class PipelineDomainCoordinator {
    var heldResources: set<Resource>
    var waiters: seq<Waiter<nat>>
    var live: map<nat, set<Resource>>   // release closures not called yet, with what each captured
    var nextTicket: nat
    var inFlight: map<string, Flight>

    function View(): Table<nat>
      reads this
    {
      Table(heldResources, waiters, live)
    }

    ghost predicate Valid()
      reads this
    {
      && Consistent(View())
      && NoneGrantable(View(), |waiters|)
      && (forall o: nat, rs :: Wants(View(), o, rs) ==> o < nextTicket)
    }

    constructor ()
      ensures Valid() && View() == Table({}, [], map[]) && inFlight == map[]
    {
      heldResources, waiters, live, nextTicket, inFlight := {}, [], map[], 0, map[];
    }

    method DrainWaiters()
      modifies this`heldResources, this`waiters, this`live
      ensures View() == Drain(old(View()), 0)
    {
      var index := 0;
      while index < |waiters|
        invariant index <= |waiters|
        invariant Drain(old(View()), 0) == Drain(View(), index)
        decreases |waiters| - index
      {
        var waiter := waiters[index];
        if !(waiter.resources !! heldResources) {
          index := index + 1;
          continue;
        }
        waiters := waiters[..index] + waiters[index + 1..];
        heldResources := heldResources + waiter.resources;
        live := live[waiter.owner := waiter.resources];
      }
    }

    /** `acquire`: the ticket names the release closure that its promise resolves to. */
    method Acquire(resources: seq<Resource>) returns (ticket: nat)
      requires Valid()
      modifies this`heldResources, this`waiters, this`live, this`nextTicket
      ensures Valid()
      ensures View() == Request(old(View()), Waiter(ticket, set r | r in resources))
      ensures forall rs :: !old(Wants(View(), ticket, rs))
      ensures Wants(View(), ticket, set r | r in resources)
    {
      ticket := nextTicket;
      nextTicket := nextTicket + 1;
      var waiter := Waiter(ticket, set r | r in resources);
      ghost var before := View();
      IdleTicket(before, ticket);
      RequestIsSafe(before, waiter);
      waiters := waiters + [waiter];
      DrainWaiters();
      assert View() == Request(before, waiter);
    }

    /** The release closure: the first call frees exactly what this grant captured, a second call
        finds the closure spent and changes nothing. */
    method Release(ticket: nat)
      requires Valid()
      modifies this`heldResources, this`waiters, this`live
      ensures Valid()
      ensures View() == if ticket in old(live) then Free(old(View()), ticket) else old(View())
      ensures ticket in old(live) ==> ticket !in live
    {
      if ticket !in live { return; }
      ghost var before := View();
      FreeIsSafe(before, ticket);
      heldResources := heldResources - live[ticket];
      live := live - {ticket};
      DrainWaiters();
      assert View() == Free(before, ticket);
    }

    method JoinInFlight(key: string, fingerprint: nat) returns (j: Joining)
      ensures j == if key !in inFlight then NotInFlight
                   else if inFlight[key].fingerprint == fingerprint then Joins(inFlight[key].result) else Conflict
    {
      if key !in inFlight { return NotInFlight; }
      if inFlight[key].fingerprint != fingerprint { return Conflict; }
      return Joins(inFlight[key].result);
    }

    method RegisterInFlight(key: string, fingerprint: nat, result: nat)
      modifies this`inFlight
      ensures inFlight == old(inFlight)[key := Flight(fingerprint, result)]
    {
      inFlight := inFlight[key := Flight(fingerprint, result)];
    }

    /** The settlement callback only clears the entry it was registered for. */
    method SettleInFlight(key: string, result: nat)
      modifies this`inFlight
      ensures inFlight == if key in old(inFlight) && old(inFlight)[key].result == result
                          then old(inFlight) - {key} else old(inFlight)
    {
      if key in inFlight && inFlight[key].result == result {
        inFlight := inFlight - {key};
      }
    }
  }
}
