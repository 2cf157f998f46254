/** What every step of every interleaving keeps, and what it says about a running executor. */
module PipelineSafety {
  import opened DependencyGraph
  import opened Coordinator
  import opened Pipeline
  import Validator

  // ---- the invariant

  /** Whoever wants or holds locks is a run between `acquire` and its release, with its own needs. */
  ghost predicate LocksOk(c: Config, s: State)
    requires Shape(c, s)
  {
    && Consistent(s.table) && NoneGrantable(s.table, |s.table.waiting|)
    && (forall r, rs {:trigger Wants(s.table, r, rs)} :: Wants(s.table, r, rs) ==> ClaimOk(c, s, r, rs))
  }

  ghost predicate ClaimOk(c: Config, s: State, r: Ref, rs: set<Resource>)
    requires Shape(c, s)
  {
    r in s.tasks && rs == InstrOf(c, r).resources && (s.tasks[r].phase.Locking? || Holds(s.tasks[r].phase))
  }

  ghost predicate LockOk(c: Config, s: State, r: Ref)
    requires Shape(c, s) && r in s.tasks
  {
    && (s.tasks[r].phase.Locking? ==> Wants(s.table, r, InstrOf(c, r).resources))
    && (Holds(s.tasks[r].phase) ==> r in s.table.live)
  }

  /** The commit queue holds exactly the committing runs that are waiting or running, once each. */
  ghost predicate QueueOk(c: Config, s: State)
    requires Shape(c, s)
  {
    && (forall j, k | 0 <= j < k < |s.commits| :: s.commits[j] != s.commits[k])
    && (forall k {:trigger QueuedOk(c, s, k)} | 0 <= k < |s.commits| :: QueuedOk(c, s, k))
  }

  ghost predicate QueuedOk(c: Config, s: State, k: nat)
    requires Shape(c, s) && k < |s.commits|
  {
    var r := s.commits[k];
    r in s.tasks && Commits(c, r) && (s.tasks[r].phase.WaitCommit? || s.tasks[r].phase.Checking? || s.tasks[r].phase.Executing?)
  }

  ghost predicate TurnOk(c: Config, s: State, r: Ref)
    requires Shape(c, s) && r in s.tasks
  {
    && (s.tasks[r].phase.WaitCommit? ==> r in s.commits)
    && ((s.tasks[r].phase.Checking? || s.tasks[r].phase.Executing?) && Commits(c, r) ==>
          s.commits != [] && s.commits[0] == r)
  }

  /** The entry under a key names the one run that owns the key and has not delivered its result. */
  ghost predicate EntryOk(c: Config, s: State, key: string)
    requires Shape(c, s) && key in s.inFlight
  {
    var owner := s.inFlight[key];
    owner in s.tasks && InstrOf(c, owner).key == key && Owned(s.tasks[owner].phase) && s.tasks[owner].completed.None?
  }

  ghost predicate FlightOk(c: Config, s: State, r: Ref)
    requires Shape(c, s) && r in s.tasks
  {
    && (Owned(s.tasks[r].phase) && s.tasks[r].completed.None? ==>
          InstrOf(c, r).key in s.inFlight && s.inFlight[InstrOf(c, r).key] == r)
    && (s.tasks[r].phase.Joined? ==>
          var owner := s.tasks[r].phase.owner;
          && owner in s.tasks && Owned(s.tasks[owner].phase)
          && InstrOf(c, owner).key == InstrOf(c, r).key && InstrOf(c, owner).fingerprint == InstrOf(c, r).fingerprint
          && (s.tasks[r].completed.Some? ==> s.tasks[owner].phase == Settled(s.tasks[r].completed.value)))
  }

  ghost predicate LifeOk(c: Config, s: State, r: Ref)
    requires Shape(c, s) && r in s.tasks
  {
    var t := s.tasks[r];
    && (t.phase.Pending? ==> !t.active && t.completed.None?)
    && (t.phase.Dropped? ==> !t.active && t.completed.Some?)
    && (!t.phase.Pending? && t.completed.None? ==> t.active)
    && (Owned(t.phase) && t.completed.Some? ==> t.phase == Settled(t.completed.value))
    && (t.phase.Checking? ==> t.phase.next <= |InstrOf(c, r).conditions|)
    && (!t.phase.Pending? && !t.phase.Dropped? ==> DependenciesSucceeded(c, s, r))
  }

  ghost predicate TaskOk(c: Config, s: State, r: Ref)
    requires Shape(c, s) && r in s.tasks
  {
    LockOk(c, s, r) && TurnOk(c, s, r) && FlightOk(c, s, r) && LifeOk(c, s, r)
  }

  ghost predicate Core(c: Config, s: State) {
    && Shape(c, s) && LocksOk(c, s) && QueueOk(c, s)
    && (forall k {:trigger EntryOk(c, s, k)} | k in s.inFlight :: EntryOk(c, s, k))
    && (forall r {:trigger TaskOk(c, s, r)} | r in s.tasks :: TaskOk(c, s, r))
  }

  ghost predicate ControlOk(c: Config, s: State, p: nat)
    requires Shape(c, s) && p < |c|
  {
    && (s.control[p].Racing? ==> ActiveOf(s, p) != {})
    && (s.control[p].Finished? ==> !HasWork(s, p))
    && !s.control[p].Rejected?
    && |ActiveOf(s, p)| <= c[p].maxConcurrency
  }

  ghost predicate Inv(c: Config, s: State) {
    Core(c, s) && forall p | 0 <= p < |c| :: ControlOk(c, s, p)
  }

  // ---- single actions keep the core invariant

  ghost predicate KeepsResults(s: State, t: State) {
    t.tasks.Keys == s.tasks.Keys && forall r | r in s.tasks && s.tasks[r].completed.Some? :: t.tasks[r].completed == s.tasks[r].completed
  }

  lemma ResultsStay(c: Config, s: State, t: State, r: Ref)
    requires Shape(c, s) && KeepsResults(s, t) && Declared(c, r) && DependenciesSucceeded(c, s, r)
    ensures DependenciesSucceeded(c, t, r)
  {
    forall d | d in InstrOf(c, r).dependsOn ensures exists x :: ResultIs(c, t, r.p, d, x) && Succeeds(x) {
      var x :| ResultIs(c, s, r.p, d, x) && Succeeds(x);
      assert ResultIs(c, t, r.p, d, x);
    }
  }

  /** A task nobody touched stays in order when results are kept. */
  lemma LifeStays(c: Config, s: State, t: State, q: Ref)
    requires Shape(c, s) && Shape(c, t) && KeepsResults(s, t) && q in s.tasks
    requires LifeOk(c, s, q) && t.tasks[q].phase == s.tasks[q].phase && t.tasks[q].completed == s.tasks[q].completed
    requires t.tasks[q].active == s.tasks[q].active || t.tasks[q].completed.Some?
    requires t.tasks[q].active ==> s.tasks[q].active
    ensures LifeOk(c, t, q)
  {
    if DependenciesSucceeded(c, s, q) { ResultsStay(c, s, t, q); }
  }

  /** The same for all a task is checked for, when the lock table still covers it and the run it
      joined is still there. */
  lemma BystanderStays(c: Config, s: State, t: State, q: Ref)
    requires Shape(c, s) && Shape(c, t) && KeepsResults(s, t) && q in s.tasks
    requires TaskOk(c, s, q) && t.tasks[q] == s.tasks[q]
    requires LockOk(c, t, q) && TurnOk(c, t, q)
    requires Owned(s.tasks[q].phase) && s.tasks[q].completed.None? ==>
               InstrOf(c, q).key in t.inFlight && t.inFlight[InstrOf(c, q).key] == q
    requires s.tasks[q].phase.Joined? ==> StillOwned(s, t, s.tasks[q].phase.owner)
    ensures TaskOk(c, t, q)
  {
    LifeStays(c, s, t, q);
  }

  ghost predicate StillOwned(s: State, t: State, owner: Ref) {
    owner in s.tasks && owner in t.tasks && Owned(s.tasks[owner].phase) ==>
      Owned(t.tasks[owner].phase) && (s.tasks[owner].phase.Settled? ==> t.tasks[owner].phase == s.tasks[owner].phase)
  }

  lemma StartLocks(c: Config, s: State, r: Ref)
    requires Shape(c, s) && LocksOk(c, s)
    requires r in s.tasks && s.tasks[r].phase.Pending? && InstrOf(c, r).key !in s.inFlight
    ensures var t := Start(c, s, r);
            LocksOk(c, t) && Wants(t.table, r, InstrOf(c, r).resources)
            && s.table.live.Keys <= t.table.live.Keys
            && (forall q, rs :: Wants(s.table, q, rs) ==> Wants(t.table, q, rs))
  {
    var t := Start(c, s, r);
    var instr := InstrOf(c, r);
    if r in s.table.live { assert Wants(s.table, r, s.table.live[r]); }
    forall k | 0 <= k < |s.table.waiting| ensures s.table.waiting[k].owner != r {
      assert Wants(s.table, s.table.waiting[k].owner, s.table.waiting[k].resources);
    }
    RequestIsSafe(s.table, Waiter(r, instr.resources));
    forall q, rs | Wants(t.table, q, rs) ensures ClaimOk(c, t, q, rs) {
      if q != r || rs != instr.resources { assert ClaimOk(c, s, q, rs); }
    }
  }

  /** Locks and queue do not notice a task that stays outside of both. */
  lemma IdleTaskLeavesLocks(c: Config, s: State, t: State, idle: set<Ref>)
    requires Shape(c, s) && Shape(c, t) && LocksOk(c, s) && QueueOk(c, s)
    requires t.table == s.table && t.commits == s.commits
    requires forall q | q in s.tasks && q !in idle :: t.tasks[q].phase == s.tasks[q].phase
    requires forall q | q in idle && q in s.tasks :: !s.tasks[q].phase.Locking? && !Holds(s.tasks[q].phase)
    ensures LocksOk(c, t) && QueueOk(c, t)
  {
    forall q, rs | Wants(t.table, q, rs) ensures ClaimOk(c, t, q, rs) { assert ClaimOk(c, s, q, rs); }
    forall k | 0 <= k < |t.commits| ensures QueuedOk(c, t, k) { assert QueuedOk(c, s, k); }
  }

  /** Giving pending instructions a result without running them. */
  lemma DropAllKeeps(c: Config, s: State, t: State, dropped: set<Ref>)
    requires Core(c, s) && t == s.(tasks := t.tasks) && t.tasks.Keys == s.tasks.Keys && dropped <= s.tasks.Keys
    requires forall r | r in dropped :: s.tasks[r].phase.Pending? && t.tasks[r].phase.Dropped? && !t.tasks[r].active && t.tasks[r].completed.Some?
    requires forall r | r in s.tasks && r !in dropped :: t.tasks[r] == s.tasks[r]
    ensures Core(c, t) && KeepsResults(s, t)
  {
    IdleTaskLeavesLocks(c, s, t, dropped);
    forall r | r in dropped ensures s.tasks[r].completed.None? { assert TaskOk(c, s, r); }
    forall k | k in t.inFlight ensures EntryOk(c, t, k) { assert EntryOk(c, s, k); }
    forall q | q in t.tasks ensures TaskOk(c, t, q) {
      assert TaskOk(c, s, q);
      if q !in dropped { LifeStays(c, s, t, q); }
    }
  }

  lemma DropKeeps(c: Config, s: State, r: Ref, x: Result)
    requires Core(c, s) && r in s.tasks && s.tasks[r].phase.Pending?
    ensures Core(c, Drop(s, r, x)) && KeepsResults(s, Drop(s, r, x))
  {
    DropAllKeeps(c, s, Drop(s, r, x), {r});
  }

  lemma JoinKeeps(c: Config, s: State, t: State, r: Ref, owner: Ref)
    requires Core(c, s) && r in s.tasks && s.tasks[r].phase.Pending? && DependenciesSucceeded(c, s, r)
    requires InstrOf(c, r).key in s.inFlight && s.inFlight[InstrOf(c, r).key] == owner
    requires Declared(c, owner) && InstrOf(c, owner).fingerprint == InstrOf(c, r).fingerprint
    requires t == s.(tasks := s.tasks[r := Task(Joined(owner), true, None)])
    ensures Core(c, t) && KeepsResults(s, t)
  {
    assert TaskOk(c, s, r) && EntryOk(c, s, InstrOf(c, r).key);
    IdleTaskLeavesLocks(c, s, t, {r});
    forall k | k in t.inFlight ensures EntryOk(c, t, k) { assert EntryOk(c, s, k); }
    forall q | q in t.tasks ensures TaskOk(c, t, q) {
      assert TaskOk(c, s, q);
      if q == r { ResultsStay(c, s, t, r); } else { BystanderStays(c, s, t, q); }
    }
  }

  lemma BesideStart(c: Config, s: State, r: Ref, q: Ref)
    requires Core(c, s) && r in s.tasks && s.tasks[r].phase.Pending? && InstrOf(c, r).key !in s.inFlight
    requires q in s.tasks && q != r
    ensures Shape(c, Start(c, s, r)) && TaskOk(c, Start(c, s, r), q)
  {
    assert TaskOk(c, s, q) && TaskOk(c, s, r);
    StartLocks(c, s, r);
    BystanderStays(c, s, Start(c, s, r), q);
  }

  lemma OwnKeeps(c: Config, s: State, r: Ref)
    requires Core(c, s) && r in s.tasks && s.tasks[r].phase.Pending? && DependenciesSucceeded(c, s, r)
    requires InstrOf(c, r).key !in s.inFlight
    ensures Core(c, Start(c, s, r)) && KeepsResults(s, Start(c, s, r))
  {
    var t := Start(c, s, r);
    assert TaskOk(c, s, r);
    StartLocks(c, s, r);
    forall k | 0 <= k < |t.commits| ensures QueuedOk(c, t, k) { assert QueuedOk(c, s, k); }
    forall k | k in t.inFlight ensures EntryOk(c, t, k) {
      if k in s.inFlight { assert EntryOk(c, s, k); }
    }
    ResultsStay(c, s, t, r);
    forall q | q in t.tasks && q != r ensures TaskOk(c, t, q) { BesideStart(c, s, r, q); }
  }

  lemma StartKeeps(c: Config, s: State, r: Ref)
    requires Core(c, s) && r in s.tasks && s.tasks[r].phase.Pending? && DependenciesSucceeded(c, s, r)
    ensures Core(c, Start(c, s, r)) && KeepsResults(s, Start(c, s, r))
  {
    var instr := InstrOf(c, r);
    if instr.key !in s.inFlight {
      OwnKeeps(c, s, r);
    } else {
      var owner := s.inFlight[instr.key];
      if Declared(c, owner) && InstrOf(c, owner).fingerprint == instr.fingerprint {
        JoinKeeps(c, s, Start(c, s, r), r, owner);
      } else {
        DropKeeps(c, s, r, Result(instr.rollback, Failed));
      }
    }
  }

  lemma MoveLocks(c: Config, s: State, t: State, r: Ref, f: Phase)
    requires Core(c, s) && r in s.tasks && Holds(f) && Owned(s.tasks[r].phase) && s.tasks[r].completed.None?
    requires t == SetPhase(s, r, f).(commits := t.commits)
    ensures LocksOk(c, t) && forall k | k in t.inFlight :: EntryOk(c, t, k)
  {
    forall q, rs | Wants(t.table, q, rs) ensures ClaimOk(c, t, q, rs) { assert ClaimOk(c, s, q, rs); }
    forall k | k in t.inFlight ensures EntryOk(c, t, k) { assert EntryOk(c, s, k); }
  }

  /** A run moves on inside its locks. */
  lemma MoveKeeps(c: Config, s: State, t: State, r: Ref, f: Phase)
    requires Core(c, s) && r in s.tasks && r in s.table.live
    requires s.tasks[r].phase.Locking? || Holds(s.tasks[r].phase)
    requires Holds(f) && (f.Checking? ==> f.next <= |InstrOf(c, r).conditions|)
    requires t == SetPhase(s, r, f).(commits := t.commits) && QueueOk(c, t)
    requires forall q | q in t.tasks :: TurnOk(c, t, q)
    ensures Core(c, t) && KeepsResults(s, t)
  {
    assert TaskOk(c, s, r);
    MoveLocks(c, s, t, r, f);
    ResultsStay(c, s, t, r);
    hide DependenciesSucceeded;
    forall q | q in t.tasks && q != r ensures TaskOk(c, t, q) {
      assert TaskOk(c, s, q);
      BystanderStays(c, s, t, q);
    }
  }

  lemma ConcludeKeeps(c: Config, s: State, r: Ref, status: Status)
    requires Core(c, s) && r in s.tasks
    requires s.tasks[r].phase.Checking? || s.tasks[r].phase.Executing?
             || (s.tasks[r].phase.WaitCommit? && s.commits != [] && s.commits[0] == r)
             || (s.tasks[r].phase.Locking? && r in s.table.live && !Commits(c, r))
    ensures Core(c, Conclude(c, s, r, status)) && KeepsResults(s, Conclude(c, s, r, status))
  {
    var t := Conclude(c, s, r, status);
    assert TaskOk(c, s, r);
    var shift := if Commits(c, r) then 1 else 0;
    assert t.commits == s.commits[shift..];
    forall k | 0 <= k < |t.commits| ensures QueuedOk(c, t, k) { assert QueuedOk(c, s, k + shift); }
    forall q | q in t.tasks ensures TurnOk(c, t, q) {
      assert TaskOk(c, s, q);
      if q in s.commits && q != r {
        var k :| 0 <= k < |s.commits| && s.commits[k] == q;
        assert t.commits[k - shift] == q;
      }
    }
    MoveKeeps(c, s, t, r, t.tasks[r].phase);
  }

  lemma EnterKeeps(c: Config, s: State, r: Ref)
    requires Core(c, s) && r in s.tasks
    requires (s.tasks[r].phase.WaitCommit? && s.commits != [] && s.commits[0] == r)
             || (s.tasks[r].phase.Locking? && r in s.table.live && !Commits(c, r))
    ensures Core(c, Enter(c, s, r)) && KeepsResults(s, Enter(c, s, r))
  {
    assert TaskOk(c, s, r);
    if r.p in s.aborted { ConcludeKeeps(c, s, r, Cancelled); } else { AdvanceKeeps(c, s, r, Checking(0)); }
  }

  /** The head of the commit queue, or a run that needs no commit ticket, moves on. */
  lemma AdvanceKeeps(c: Config, s: State, r: Ref, f: Phase)
    requires Core(c, s) && r in s.tasks && r in s.table.live
    requires s.tasks[r].phase.Locking? || s.tasks[r].phase.WaitCommit? || s.tasks[r].phase.Checking?
    requires Commits(c, r) ==> s.commits != [] && s.commits[0] == r
    requires (f.Checking? && f.next <= |InstrOf(c, r).conditions|) || f.Executing?
    ensures Core(c, SetPhase(s, r, f)) && KeepsResults(s, SetPhase(s, r, f))
  {
    var t := SetPhase(s, r, f);
    forall k | 0 <= k < |t.commits| ensures QueuedOk(c, t, k) { assert QueuedOk(c, s, k); }
    forall q | q in t.tasks ensures TurnOk(c, t, q) { assert TaskOk(c, s, q); }
    MoveKeeps(c, s, t, r, f);
  }

  lemma QueueUpKeeps(c: Config, s: State, r: Ref)
    requires Core(c, s) && r in s.tasks && r in s.table.live && s.tasks[r].phase.Locking? && Commits(c, r)
    ensures var t := SetPhase(s, r, WaitCommit).(commits := s.commits + [r]); Core(c, t) && KeepsResults(s, t)
  {
    var t := SetPhase(s, r, WaitCommit).(commits := s.commits + [r]);
    forall k | 0 <= k < |s.commits| ensures s.commits[k] != r { assert QueuedOk(c, s, k); }
    forall k | 0 <= k < |t.commits| ensures QueuedOk(c, t, k) {
      if k < |s.commits| { assert QueuedOk(c, s, k); }
    }
    forall q | q in t.tasks ensures TurnOk(c, t, q) { assert TaskOk(c, s, q); }
    MoveKeeps(c, s, t, r, WaitCommit);
  }

  lemma UnlockLocks(c: Config, s: State, r: Ref)
    requires Core(c, s) && Enabled(c, s, Unlock(r))
    ensures var t := Apply(c, s, Unlock(r));
            LocksOk(c, t) && QueueOk(c, t) && forall q | q in t.tasks :: LockOk(c, t, q)
  {
    var t := Apply(c, s, Unlock(r));
    FreeIsSafe(s.table, r);
    forall q, rs | Wants(t.table, q, rs) ensures ClaimOk(c, t, q, rs) {
      assert Wants(s.table, q, rs) && ClaimOk(c, s, q, rs);
    }
    forall k | 0 <= k < |t.commits| ensures QueuedOk(c, t, k) { assert QueuedOk(c, s, k); }
    forall q | q in t.tasks ensures LockOk(c, t, q) { assert TaskOk(c, s, q); }
  }

  lemma UnlockKeeps(c: Config, s: State, r: Ref)
    requires Core(c, s) && Enabled(c, s, Unlock(r))
    ensures Core(c, Apply(c, s, Unlock(r))) && KeepsResults(s, Apply(c, s, Unlock(r)))
  {
    var t := Apply(c, s, Unlock(r));
    UnlockLocks(c, s, r);
    assert TaskOk(c, s, r);
    ResultsStay(c, s, t, r);
    forall k | k in t.inFlight ensures EntryOk(c, t, k) { assert EntryOk(c, s, k); }
    forall q | q in t.tasks ensures TaskOk(c, t, q) {
      assert TaskOk(c, s, q) && LockOk(c, t, q);
      if q != r { BystanderStays(c, s, t, q); }
    }
  }

  lemma BesideDeliver(c: Config, s: State, r: Ref, q: Ref)
    requires Core(c, s) && Enabled(c, s, Deliver(r)) && q in s.tasks && q != r
    ensures Shape(c, Apply(c, s, Deliver(r))) && TaskOk(c, Apply(c, s, Deliver(r)), q)
  {
    assert TaskOk(c, s, q) && TaskOk(c, s, r);
    BystanderStays(c, s, Apply(c, s, Deliver(r)), q);
  }

  lemma DeliverKeeps(c: Config, s: State, r: Ref)
    requires Core(c, s) && Enabled(c, s, Deliver(r))
    ensures Core(c, Apply(c, s, Deliver(r))) && KeepsResults(s, Apply(c, s, Deliver(r)))
  {
    var t := Apply(c, s, Deliver(r));
    assert TaskOk(c, s, r);
    IdleTaskLeavesLocks(c, s, t, {});
    forall k | k in t.inFlight ensures EntryOk(c, t, k) { assert EntryOk(c, s, k); }
    ResultsStay(c, s, t, r);
    forall q | q in t.tasks && q != r ensures TaskOk(c, t, q) { BesideDeliver(c, s, r, q); }
  }

  lemma WakeKeeps(c: Config, s: State, p: nat)
    requires Core(c, s) && Enabled(c, s, Wake(p))
    ensures Core(c, Apply(c, s, Wake(p))) && KeepsResults(s, Apply(c, s, Wake(p)))
  {
    var t := Apply(c, s, Wake(p));
    IdleTaskLeavesLocks(c, s, t, {});
    forall k | k in t.inFlight ensures EntryOk(c, t, k) { assert EntryOk(c, s, k); }
    forall q | q in t.tasks ensures TaskOk(c, t, q) {
      assert TaskOk(c, s, q);
      LifeStays(c, s, t, q);
    }
  }

  // ---- the pass and the turn

  ghost predicate OthersStay(s: State, t: State, p: nat) {
    t.tasks.Keys == s.tasks.Keys && forall r | r in s.tasks && r.p != p :: t.tasks[r] == s.tasks[r]
  }

  lemma VisitKeeps(c: Config, s: State, r: Ref)
    requires Core(c, s) && r in s.tasks && s.tasks[r].phase.Pending?
    ensures var t := Visit(c, s, r);
            && Core(c, t) && KeepsResults(s, t) && OthersStay(s, t, r.p)
            && (ActiveOf(t, r.p) == ActiveOf(s, r.p) || ActiveOf(t, r.p) == ActiveOf(s, r.p) + {r})
  {
    assert TaskOk(c, s, r);
    if DependenciesSucceeded(c, s, r) {
      StartKeeps(c, s, r);
    } else {
      DropKeeps(c, s, r, Result(InstrOf(c, r).rollback, Partial));
    }
  }

  /** No pending instruction from position `i` on could be visited. */
  ghost predicate Stuck(c: Config, s: State, p: nat, i: nat)
    requires p < |c| && Shape(c, s)
  {
    forall k: nat {:trigger Ref(p, k)} | i <= k < |c[p].instrs| && s.tasks[Ref(p, k)].phase.Pending? ::
      !DependenciesDone(c, s, Ref(p, k))
  }

  /** What one pass over the pending ids does and leaves alone. */
  lemma {:induction false} PassKeeps(c: Config, s: State, p: nat, i: nat, progressed: bool)
    requires Core(c, s) && p < |c| && i <= |c[p].instrs| && |ActiveOf(s, p)| <= c[p].maxConcurrency
    ensures var end := Pass(c, s, p, i, progressed);
            && Core(c, end.state) && KeepsResults(s, end.state) && OthersStay(s, end.state, p)
            && ActiveOf(s, p) <= ActiveOf(end.state, p) && |ActiveOf(end.state, p)| <= c[p].maxConcurrency
            && (!end.progressed ==> end.state == s && !progressed)
            && (!end.progressed && |ActiveOf(s, p)| < c[p].maxConcurrency ==> Stuck(c, s, p, i))
    decreases |c[p].instrs| - i
  {
    hide LocksOk, QueueOk, TaskOk, EntryOk, DependenciesDone, Visit;
    var r := Ref(p, i);
    if i == |c[p].instrs| {
    } else if !s.tasks[r].phase.Pending? {
      PassKeeps(c, s, p, i + 1, progressed);
    } else if |ActiveOf(s, p)| >= c[p].maxConcurrency {
    } else if !DependenciesDone(c, s, r) {
      PassKeeps(c, s, p, i + 1, progressed);
    } else {
      VisitKeeps(c, s, r);
      PassKeeps(c, Visit(c, s, r), p, i + 1, true);
    }
  }

  /** The dependency graph that the validator searched, as a table of the program's instructions. */
  lemma ProgramGraph(instrs: seq<Instr>) returns (g: Graph)
    requires Validator.WellFormed(RawOf(instrs))
    ensures Acyclic(g)
    ensures forall k | 0 <= k < |instrs| :: instrs[k].id in g && g[instrs[k].id] == instrs[k].dependsOn
    ensures forall k, d | 0 <= k < |instrs| && d in instrs[k].dependsOn :: exists j :: 0 <= j < |instrs| && instrs[j].id == d
  {
    var raw := RawOf(instrs);
    Validator.EntriesOfKnown(raw);
    var parsed := Validator.Entries(raw);
    forall j, k | 0 <= j < k < |parsed| ensures parsed[j].id != parsed[k].id {
      assert raw[j].id != raw[k].id;
    }
    Validator.GraphLookup(parsed);
    g := Validator.GraphOf(parsed);
    forall k | 0 <= k < |instrs| ensures instrs[k].id in g && g[instrs[k].id] == instrs[k].dependsOn {
      assert parsed[k].id == raw[k].id;
    }
    forall k, d | 0 <= k < |instrs| && d in instrs[k].dependsOn ensures exists j :: 0 <= j < |instrs| && instrs[j].id == d {
      assert d in raw[k].dependsOn && Validator.Declared(raw, d);
      var j :| 0 <= j < |raw| && Validator.IdAt(raw, j) == d;
      assert instrs[j].id == raw[j].id == d;
    }
  }

  ghost predicate IsTable(g: Graph, instrs: seq<Instr>) {
    && (forall k | 0 <= k < |instrs| :: instrs[k].id in g && g[instrs[k].id] == instrs[k].dependsOn)
    && forall v | v in g :: exists k :: 0 <= k < |instrs| && instrs[k].id == v
  }

  /** Which programs pass: so many instructions, with valid and distinct ids, each with so many distinct dependencies on
      instructions of the program, and no cycle among them. */
  lemma ValidatedExactly(instrs: seq<Instr>)
    ensures Validator.WellFormed(RawOf(instrs)) <==>
            && 1 <= |instrs| <= 256
            && (forall k | 0 <= k < |instrs| :: Validator.ValidId(instrs[k].id))
            && (forall j, k | 0 <= j < k < |instrs| :: instrs[j].id != instrs[k].id)
            && (forall k | 0 <= k < |instrs| :: |instrs[k].dependsOn| <= 64 && Validator.Distinct(instrs[k].dependsOn))
            && (forall k, d | 0 <= k < |instrs| && d in instrs[k].dependsOn :: exists j :: 0 <= j < |instrs| && instrs[j].id == d)
            && exists g :: IsTable(g, instrs) && Acyclic(g)
  {
    hide Validator.ValidId, Validator.Distinct, Validator.IdAt, Validator.Entries, Validator.GraphOf, Acyclic, IsTable;
    var raw := RawOf(instrs);
    assert forall k | 0 <= k < |instrs| :: raw[k].id == instrs[k].id && raw[k].dependsOn == instrs[k].dependsOn && raw[k].knownOpcode;
    if forall k | 0 <= k < |instrs| :: Validator.ValidId(instrs[k].id) {
      forall d ensures Validator.Declared(raw, d) <==> exists j :: 0 <= j < |instrs| && instrs[j].id == d { DeclaredHere(instrs, d); }
      forall d | exists j :: 0 <= j < |instrs| && instrs[j].id == d ensures Validator.ValidId(d) {}
      if forall j, k | 0 <= j < k < |instrs| :: instrs[j].id != instrs[k].id {
        TheTable(instrs);
        assert IsTable(Validator.GraphOf(Validator.Entries(raw)), instrs);
        if Validator.WellFormed(raw) {
          forall k, d | 0 <= k < |instrs| && d in instrs[k].dependsOn ensures exists j :: 0 <= j < |instrs| && instrs[j].id == d {
            assert d in raw[k].dependsOn && Validator.Declared(raw, d);
          }
        }
        if forall k, d | 0 <= k < |instrs| && d in instrs[k].dependsOn :: exists j :: 0 <= j < |instrs| && instrs[j].id == d {
          forall k, d | 0 <= k < |raw| && d in raw[k].dependsOn ensures Validator.ValidId(d) && Validator.Declared(raw, d) {
            assert d in instrs[k].dependsOn;
          }
        }
      } else {
        assert !Validator.WellFormed(raw) by {
          var j, k :| 0 <= j < k < |instrs| && instrs[j].id == instrs[k].id;
          assert raw[j].id == raw[k].id;
        }
      }
    }
  }

  lemma DeclaredHere(instrs: seq<Instr>, d: Id)
    requires forall k | 0 <= k < |instrs| :: Validator.ValidId(instrs[k].id)
    ensures Validator.Declared(RawOf(instrs), d) <==> exists j :: 0 <= j < |instrs| && instrs[j].id == d
  {
    hide Validator.ValidId;
    var raw := RawOf(instrs);
    assert forall j | 0 <= j < |instrs| :: Validator.IdAt(raw, j) == instrs[j].id;
  }

  lemma TheTable(instrs: seq<Instr>)
    requires forall k | 0 <= k < |instrs| :: Validator.ValidId(instrs[k].id)
    requires forall j, k | 0 <= j < k < |instrs| :: instrs[j].id != instrs[k].id
    ensures forall g :: IsTable(g, instrs) <==> g == Validator.GraphOf(Validator.Entries(RawOf(instrs)))
  {
    var raw := RawOf(instrs);
    Validator.EntriesOfKnown(raw);
    var parsed := Validator.Entries(raw);
    forall j, k | 0 <= j < k < |parsed| ensures parsed[j].id != parsed[k].id {
      assert raw[j].id != raw[k].id;
    }
    Validator.GraphLookup(parsed);
    var table := Validator.GraphOf(parsed);
    forall k | 0 <= k < |instrs| ensures instrs[k].id in table && table[instrs[k].id] == instrs[k].dependsOn { assert parsed[k].id == raw[k].id; }
    forall v | v in table ensures exists k :: 0 <= k < |instrs| && instrs[k].id == v {
      var k :| 0 <= k < |parsed| && parsed[k].id == v;
      assert instrs[k].id == raw[k].id == v;
    }
    forall g | IsTable(g, instrs) ensures g == table { OneTable(g, table, instrs); }
  }

  lemma OneTable(g: Graph, h: Graph, instrs: seq<Instr>)
    requires IsTable(g, instrs) && IsTable(h, instrs)
    ensures g == h
  {
    assert forall v :: v in g <==> v in h;
  }

  /** An idle program with work left can always start something: this is where acyclicity is used. */
  lemma SomeInstructionIsReady(c: Config, s: State, p: nat) returns (r: Ref)
    requires Core(c, s) && Validated(c) && p < |c| && PendingOf(s, p) != {} && ActiveOf(s, p) == {}
    ensures r in PendingOf(s, p) && DependenciesDone(c, s, r)
  {
    var g := ProgramGraph(c[p].instrs);
    var pending := set q | q in PendingOf(s, p) :: InstrOf(c, q).id;
    var some :| some in PendingOf(s, p);
    assert InstrOf(c, some).id in pending;
    var v := SomeIdIsReady(g, pending);
    r :| r in PendingOf(s, p) && InstrOf(c, r).id == v;
    forall d | d in InstrOf(c, r).dependsOn ensures HasResult(c, s, p, d) {
      var j: nat :| j < |c[p].instrs| && c[p].instrs[j].id == d;
      var q := Ref(p, j);
      assert d in g && TaskOk(c, s, q);
      assert q !in PendingOf(s, p) && q !in ActiveOf(s, p);
      assert ResultIs(c, s, p, d, s.tasks[q].completed.value);
    }
  }

  lemma DropPendingKeeps(c: Config, s: State, p: nat)
    requires Core(c, s)
    ensures var t := DropPending(c, s, p);
            && Core(c, t) && KeepsResults(s, t) && OthersStay(s, t, p)
            && ActiveOf(t, p) == ActiveOf(s, p) && PendingOf(t, p) == {}
  {
    forall r | r in PendingOf(s, p) ensures !s.tasks[r].active { assert TaskOk(c, s, r); }
    DropAllKeeps(c, s, DropPending(c, s, p), PendingOf(s, p));
  }

  /** The core invariant reads neither the control state nor the abort signals. */
  lemma ControlOnly(c: Config, s: State, t: State)
    requires Core(c, s) && |t.control| == |c| && t == s.(control := t.control, aborted := t.aborted)
    ensures Core(c, t) && KeepsResults(s, t)
  {
    IdleTaskLeavesLocks(c, s, t, {});
    forall k | k in t.inFlight ensures EntryOk(c, t, k) { assert EntryOk(c, s, k); }
    forall q | q in t.tasks ensures TaskOk(c, t, q) {
      assert TaskOk(c, s, q);
      LifeStays(c, s, t, q);
    }
  }

  lemma ReadyKeeps(c: Config, s: State, p: nat)
    requires Core(c, s) && p < |c| && |ActiveOf(s, p)| <= c[p].maxConcurrency
    ensures var ready := Ready(c, s, p); var end := Pass(c, ready, p, 0, false);
            && Core(c, ready) && ActiveOf(ready, p) == ActiveOf(s, p)
            && Core(c, end.state) && KeepsResults(s, end.state) && OthersStay(s, end.state, p)
            && |ActiveOf(end.state, p)| <= c[p].maxConcurrency
            && (!end.progressed ==> end.state == ready)
            && (!end.progressed && ActiveOf(s, p) == {} && c[p].maxConcurrency >= 1 ==> Stuck(c, ready, p, 0))
  {
    if p in s.aborted { DropPendingKeeps(c, s, p); }
    PassKeeps(c, Ready(c, s, p), p, 0, false);
  }

  /** A turn never rejects a validated program. */
  lemma TurnKeeps(c: Config, s: State, p: nat)
    requires Core(c, s) && p < |c| && ControlOk(c, s, p) && Validated(c) && Enabled(c, s, Loop(p))
    ensures var t := Turn(c, s, p);
            Core(c, t) && KeepsResults(s, t) && OthersStay(s, t, p) && ControlOk(c, t, p)
  {
    var t := Turn(c, s, p);
    if !HasWork(s, p) {
      ControlOnly(c, s, t);
    } else {
      ReadyKeeps(c, s, p);
      var end := Pass(c, Ready(c, s, p), p, 0, false);
      if ActiveOf(end.state, p) == {} && PendingOf(end.state, p) != {} && !end.progressed {
        var r := SomeInstructionIsReady(c, Ready(c, s, p), p);
        assert false;
      }
      assert t == end.state.(control := t.control, aborted := t.aborted);
      ControlOnly(c, end.state, t);
    }
  }

  // ---- every run is safe

  lemma InitialIsSafe(c: Config, s: State)
    requires Initial(c, s) && Validated(c)
    ensures Inv(c, s)
  {
    forall r, rs ensures !Wants(s.table, r, rs) {}
    forall p | 0 <= p < |c| ensures ControlOk(c, s, p) { assert ActiveOf(s, p) == {}; }
  }

  ghost predicate IsRunStep(a: Action) {
    a.Begin? || a.EnterCommit? || a.Check? || a.Dispatch? || a.Finish? || a.Unlock? || a.Deliver?
  }

  lemma InnerStepKeeps(c: Config, s: State, a: Action)
    requires Core(c, s) && Enabled(c, s, a) && (a.Check? || a.Dispatch? || a.Finish?)
    ensures Core(c, Apply(c, s, a)) && KeepsResults(s, Apply(c, s, a))
  {
    assert TaskOk(c, s, a.r);
    match a
    case Check(r, valid) =>
      if valid { AdvanceKeeps(c, s, r, Checking(s.tasks[r].phase.next + 1)); } else { ConcludeKeeps(c, s, r, Failed); }
    case Dispatch(r) => if r.p in s.aborted { ConcludeKeeps(c, s, r, Cancelled); } else { AdvanceKeeps(c, s, r, Executing); }
    case Finish(r, outcome) => ConcludeKeeps(c, s, r, outcome);
  }

  lemma RunStepKeeps(c: Config, s: State, a: Action)
    requires Core(c, s) && Enabled(c, s, a) && IsRunStep(a)
    ensures Core(c, Apply(c, s, a)) && KeepsResults(s, Apply(c, s, a))
  {
    if a.Begin? {
      if Commits(c, a.r) { QueueUpKeeps(c, s, a.r); } else { EnterKeeps(c, s, a.r); }
    } else if a.EnterCommit? {
      EnterKeeps(c, s, a.r);
    } else if a.Unlock? {
      UnlockKeeps(c, s, a.r);
    } else if a.Deliver? {
      DeliverKeeps(c, s, a.r);
    } else {
      InnerStepKeeps(c, s, a);
    }
  }

  /** A run step changes one started task and no program's control. */
  lemma RunStepIsLocal(c: Config, s: State, a: Action)
    requires Shape(c, s) && Enabled(c, s, a) && IsRunStep(a)
    ensures var t := Apply(c, s, a);
            && t.control == s.control && t.aborted == s.aborted && t.tasks == s.tasks[a.r := t.tasks[a.r]]
            && t.tasks[a.r].active == s.tasks[a.r].active && !t.tasks[a.r].phase.Pending? && !s.tasks[a.r].phase.Pending?
  {}

  lemma WakeStepKeeps(c: Config, s: State, p: nat)
    requires Inv(c, s) && Enabled(c, s, Wake(p))
    ensures Inv(c, Apply(c, s, Wake(p))) && KeepsResults(s, Apply(c, s, Wake(p)))
  {
    var t := Apply(c, s, Wake(p));
    WakeKeeps(c, s, p);
    assert ControlOk(c, s, p);
    assert ActiveOf(t, p) <= ActiveOf(s, p);
    SubsetIsSmaller(ActiveOf(t, p), ActiveOf(s, p));
    ControlElsewhere(c, s, t, p);
  }

  lemma AbortStepKeeps(c: Config, s: State, p: nat)
    requires Inv(c, s) && Enabled(c, s, Abort(p))
    ensures Inv(c, Apply(c, s, Abort(p))) && KeepsResults(s, Apply(c, s, Abort(p)))
  {
    var t := Apply(c, s, Abort(p));
    ControlOnly(c, s, t);
    assert ControlOk(c, s, p) && ActiveOf(t, p) == ActiveOf(s, p) && PendingOf(t, p) == PendingOf(s, p);
    ControlElsewhere(c, s, t, p);
  }

  lemma RunStepKeepsInv(c: Config, s: State, a: Action)
    requires Inv(c, s) && Enabled(c, s, a)
    requires IsRunStep(a)
    ensures Inv(c, Apply(c, s, a)) && KeepsResults(s, Apply(c, s, a))
  {
    var t := Apply(c, s, a);
    RunStepKeeps(c, s, a);
    RunStepIsLocal(c, s, a);
    forall q | 0 <= q < |c| ensures ControlOk(c, t, q) {
      assert ControlOk(c, s, q) && ActiveOf(t, q) == ActiveOf(s, q) && PendingOf(t, q) == PendingOf(s, q);
    }
  }

  lemma StepKeeps(c: Config, s: State, a: Action)
    requires Inv(c, s) && Validated(c) && Enabled(c, s, a)
    ensures Inv(c, Apply(c, s, a)) && KeepsResults(s, Apply(c, s, a))
  {
    if a.Loop? {
      assert ControlOk(c, s, a.p);
      TurnKeeps(c, s, a.p);
      ControlElsewhere(c, s, Turn(c, s, a.p), a.p);
    } else if a.Wake? {
      WakeStepKeeps(c, s, a.p);
    } else if a.Abort? {
      AbortStepKeeps(c, s, a.p);
    } else {
      RunStepKeepsInv(c, s, a);
    }
  }

  lemma {:induction false} SubsetIsSmaller<T>(a: set<T>, b: set<T>)
    requires a <= b
    ensures |a| <= |b|
  {
    assert b == a + (b - a);
  }

  lemma ControlElsewhere(c: Config, s: State, t: State, p: nat)
    requires Inv(c, s) && Core(c, t) && p < |c| && ControlOk(c, t, p)
    requires OthersStay(s, t, p) && forall q | 0 <= q < |c| && q != p :: t.control[q] == s.control[q]
    ensures Inv(c, t)
  {
    forall q | 0 <= q < |c| && q != p ensures ControlOk(c, t, q) {
      assert ControlOk(c, s, q) && ActiveOf(t, q) == ActiveOf(s, q) && PendingOf(t, q) == PendingOf(s, q);
    }
  }

  /** An executor runs only under its locks, after its dependencies succeeded, alone on each of its
      resources, on its operation key and, for committing instructions, in the domain. */
  lemma ExecutorSafety(c: Config, s: State, r: Ref)
    requires Inv(c, s) && r in s.tasks && s.tasks[r].phase.Executing?
    ensures DependenciesSucceeded(c, s, r)
    ensures InstrOf(c, r).resources <= s.table.held
    ensures forall q | q in s.tasks && q != r && s.tasks[q].phase.Executing? ::
              && InstrOf(c, q).resources !! InstrOf(c, r).resources
              && InstrOf(c, q).key != InstrOf(c, r).key
              && !(Commits(c, q) && Commits(c, r))
  {
    assert TaskOk(c, s, r);
    assert Wants(s.table, r, s.table.live[r]) && ClaimOk(c, s, r, s.table.live[r]);
    forall q | q in s.tasks && q != r && s.tasks[q].phase.Executing?
      ensures InstrOf(c, q).resources !! InstrOf(c, r).resources && InstrOf(c, q).key != InstrOf(c, r).key && !(Commits(c, q) && Commits(c, r))
    {
      assert TaskOk(c, s, q);
      assert Wants(s.table, q, s.table.live[q]) && ClaimOk(c, s, q, s.table.live[q]);
    }
  }

  /** Joining happens only on the same key and fingerprint, and delivers the owner's own result. */
  lemma JoinedSharesTheRun(c: Config, s: State, r: Ref)
    requires Inv(c, s) && r in s.tasks && s.tasks[r].phase.Joined?
    ensures var owner := s.tasks[r].phase.owner;
            && owner in s.tasks && Owned(s.tasks[owner].phase)
            && InstrOf(c, owner).key == InstrOf(c, r).key && InstrOf(c, owner).fingerprint == InstrOf(c, r).fingerprint
            && (s.tasks[r].completed.Some? ==> s.tasks[owner].phase == Settled(s.tasks[r].completed.value))
  {
    assert TaskOk(c, s, r);
  }

  /** A finished program has a result for every instruction. */
  lemma FinishedHasAllResults(c: Config, s: State, p: nat)
    requires Inv(c, s) && p < |c| && s.control[p].Finished?
    ensures forall i: nat {:trigger Ref(p, i)} | i < |c[p].instrs| :: s.tasks[Ref(p, i)].completed.Some?
  {
    assert ControlOk(c, s, p);
    forall i: nat | i < |c[p].instrs| ensures s.tasks[Ref(p, i)].completed.Some? {
      assert TaskOk(c, s, Ref(p, i));
      assert Ref(p, i) !in PendingOf(s, p) && Ref(p, i) !in ActiveOf(s, p);
    }
  }
}
