/** The loops of `runtime.ts` over agent trees, on the fields they update. */
module AgentReconcile {
  import opened AgentScopes

  // ---- a visit leaves the other trees alone, and repeating it changes nothing

  lemma {:induction false} SameTreeFinishesAlike(a: seq<Agent>, b: seq<Agent>, i: Id)
    requires Rooted(a) && SameShape(a, b) && i < |a|
    requires forall j: nat | j < |a| && Root(a, j) == Root(a, i) :: a[j] == b[j]
    ensures Finishes(a, i) == Finishes(b, i)
    decreases |a| - i
  {
    forall c | i < c < |a| && a[c].parent == Some(i) ensures a[c] == b[c] && Finishes(a, c) == Finishes(b, c) {
      SameTreeFinishesAlike(a, b, c);
    }
  }

  lemma OtherTreesAlike(a: seq<Agent>, b: seq<Agent>, root: Id, quanta: set<Id>, recoveries: set<Id>)
    requires Rooted(a) && SameShape(a, b)
    requires forall j: nat | j < |a| && Root(a, j) == root :: a[j] == b[j]
    ensures forall i: nat | i < |a| && Root(a, i) == root :: SettleTree(a, root, quanta, recoveries)[i] == SettleTree(b, root, quanta, recoveries)[i]
  {
    forall i: nat | i < |a| ensures Root(a, i) == Root(b, i) { ShapeKeeps(a, b, root, i); }
    assert Broken(a, root) <==> Broken(b, root);
    forall i: nat | i < |a| && Root(a, i) == root ensures Finishes(a, i) == Finishes(b, i) { SameTreeFinishesAlike(a, b, i); }
  }

  lemma SettlingTwice(agents: seq<Agent>, root: Id, quanta: set<Id>, recoveries: set<Id>)
    requires Rooted(agents)
    ensures var once := SettleTree(agents, root, quanta, recoveries); SettleTree(once, root, quanta, recoveries) == once
  {
    SettledTreeIsSettled(agents, root, quanta, recoveries);
    var once := SettleTree(agents, root, quanta, recoveries);
    NothingToDo(once, root, quanta, recoveries);
  }

  lemma NothingToDo(agents: seq<Agent>, root: Id, quanta: set<Id>, recoveries: set<Id>)
    requires Rooted(agents) && TreeSettled(agents, root)
    ensures SettleTree(agents, root, quanta, recoveries) == agents
  {
    if !Broken(agents, root) {
      forall i: nat | i < |agents| && Root(agents, i) == root ensures !Finishes(agents, i) { NotFinishing(agents, root, i); }
    }
  }

  /** In a settled tree nothing finishes. */
  lemma {:induction false} NotFinishing(agents: seq<Agent>, root: Id, i: Id)
    requires Rooted(agents) && TreeSettled(agents, root) && !Broken(agents, root) && i < |agents| && Root(agents, i) == root
    ensures !Finishes(agents, i)
    decreases |agents| - i
  {
    if agents[i].status.Waiting? {
      var c: nat :| c < |agents| && agents[c].parent == Some(i) && !agents[c].status.Completed?;
      NotFinishing(agents, root, c);
    }
  }

  function Redirty(before: seq<Agent>, after: seq<Agent>, root: Id, dirty: set<Id>): set<Id> {
    if before == after then dirty - {root} else dirty
  }

  /** Visiting one dirty tree leads to the same end as visiting all of them at once. */
  lemma VisitKeepsTheGoal(agents: seq<Agent>, dirty: set<Id>, root: Id, quanta: set<Id>, recoveries: set<Id>)
    requires Rooted(agents) && root in dirty
    ensures var after := SettleTree(agents, root, quanta, recoveries);
            Settle(after, Redirty(agents, after, root, dirty), quanta, recoveries) == Settle(agents, dirty, quanta, recoveries)
  {
    var after := SettleTree(agents, root, quanta, recoveries);
    var dirtied := Redirty(agents, after, root, dirty);
    SettledTreeIsSettled(agents, root, quanta, recoveries);
    SettlingTwice(agents, root, quanta, recoveries);
    forall i: nat | i < |agents| ensures Root(after, i) == Root(agents, i) { ShapeKeeps(agents, after, root, i); }
    forall i: nat | i < |agents|
      ensures Settle(after, dirtied, quanta, recoveries)[i] == Settle(agents, dirty, quanta, recoveries)[i]
    {
      if Root(agents, i) != root { OtherTreesAlike(agents, after, Root(agents, i), quanta, recoveries); }
    }
  }

  // ---- progress of the reconciliation loop

  /** Agents a visit could still change. */
  function Unsettled(agents: seq<Agent>): nat {
    if agents == [] then 0
    else Unsettled(agents[..|agents| - 1]) + if Stopped(agents[|agents| - 1]) then 0 else 1
  }

  lemma {:induction false} StoppingSettles(a: seq<Agent>, b: seq<Agent>)
    requires |a| == |b| && forall i | 0 <= i < |a| :: a[i] == b[i] || (!Stopped(a[i]) && Stopped(b[i]))
    ensures Unsettled(b) <= Unsettled(a) && (a != b ==> Unsettled(b) < Unsettled(a))
  {
    if a != [] {
      StoppingSettles(a[..|a| - 1], b[..|a| - 1]);
      assert a == a[..|a| - 1] + [a[|a| - 1]] && b == b[..|a| - 1] + [b[|a| - 1]];
    }
  }

  lemma VisitStops(agents: seq<Agent>, root: Id, quanta: set<Id>, recoveries: set<Id>)
    requires Rooted(agents)
    ensures var after := SettleTree(agents, root, quanta, recoveries);
            Unsettled(after) <= Unsettled(agents) && (after != agents ==> Unsettled(after) < Unsettled(agents))
  {
    var after := SettleTree(agents, root, quanta, recoveries);
    forall i | 0 <= i < |agents| ensures after[i] == agents[i] || (!Stopped(agents[i]) && Stopped(after[i])) {
      if !Broken(agents, root) && Root(agents, i) == root && Finishes(agents, i) { assert !Hurt(agents[i]); }
    }
    StoppingSettles(agents, after);
  }

  // ---- breadth-first scopes

  /** The first `i` members of the list have had their children appended. */
  ghost predicate Explored(agents: seq<Agent>, id: Id, scope: seq<Id>, i: nat) {
    && i <= |scope| && scope != [] && scope[0] == id
    && (forall j | 0 <= j < |scope| :: scope[j] < |agents| && Under(agents, id, scope[j]))
    && (forall j, k | 0 <= j < k < |scope| :: scope[j] != scope[k])
    && (forall k | 0 < k < |scope| :: ParentBefore(agents, scope, i, k))
    && (forall m | 0 <= m < i :: ChildrenIn(agents, scope, scope[m]))
  }

  ghost predicate ChildrenIn(agents: seq<Agent>, scope: seq<Id>, p: Id) {
    forall c: nat | c < |agents| && agents[c].parent == Some(p) :: c in scope
  }

  ghost predicate ParentBefore(agents: seq<Agent>, scope: seq<Id>, i: nat, k: nat) {
    i <= |scope| && k < |scope| && scope[k] < |agents|
    && exists m :: 0 <= m < i && m < k && agents[scope[k]].parent == Some(scope[m])
  }

  /** Exactly the members of the scope, once each, every parent before its children. */
  ghost predicate IsScope(agents: seq<Agent>, id: Id, scope: seq<Id>) {
    && (forall c: nat :: c in scope <==> c < |agents| && Under(agents, id, c))
    && (forall j, k | 0 <= j < k < |scope| :: scope[j] != scope[k])
    && (forall k | 0 < k < |scope| :: ParentBefore(agents, scope, |scope|, k))
    && scope != [] && scope[0] == id
  }

  ghost predicate AreChildren(agents: seq<Agent>, p: Id, children: seq<Id>) {
    && (forall c: nat :: c in children <==> c < |agents| && agents[c].parent == Some(p))
    && (forall j, k | 0 <= j < k < |children| :: children[j] != children[k])
  }

  lemma ExploreOne(agents: seq<Agent>, id: Id, scope: seq<Id>, i: nat, found: seq<Id>)
    requires Rooted(agents) && Explored(agents, id, scope, i) && i < |scope| && AreChildren(agents, scope[i], found)
    ensures Explored(agents, id, scope + found, i + 1)
  {
    var longer := scope + found;
    forall k: nat {:trigger ParentBefore(agents, longer, i + 1, k)} | 0 < k < |longer| ensures ParentBefore(agents, longer, i + 1, k) {
      ParentsStayFirst(agents, id, scope, i, found, k);
    }
    forall j, k | 0 <= j < k < |longer| ensures longer[j] != longer[k] {
      if j < |scope| <= k { assert longer[k] in found; NotYetFound(agents, id, scope, i, j, longer[k]); }
    }
    forall j | 0 <= j < |longer| ensures longer[j] < |agents| && Under(agents, id, longer[j]) {
      if j >= |scope| { assert longer[j] in found; }
    }
    forall m | 0 <= m < i + 1 ensures ChildrenIn(agents, longer, longer[m]) {
      if m < i { assert ChildrenIn(agents, scope, scope[m]); } else { assert forall c | c in found :: c in longer; }
    }
  }

  lemma ParentsStayFirst(agents: seq<Agent>, id: Id, scope: seq<Id>, i: nat, found: seq<Id>, k: nat)
    requires Explored(agents, id, scope, i) && i < |scope| && AreChildren(agents, scope[i], found) && 0 < k < |scope + found|
    ensures ParentBefore(agents, scope + found, i + 1, k)
  {
    var longer := scope + found;
    if k < |scope| {
      assert ParentBefore(agents, scope, i, k);
      var m :| 0 <= m < i && m < k && agents[scope[k]].parent == Some(scope[m]);
      assert agents[longer[k]].parent == Some(longer[m]);
    } else {
      assert longer[k] in found;
      assert agents[longer[k]].parent == Some(longer[i]);
    }
  }

  lemma NotYetFound(agents: seq<Agent>, id: Id, scope: seq<Id>, i: nat, j: nat, c: Id)
    requires Rooted(agents) && Explored(agents, id, scope, i) && i < |scope| && j < |scope|
    requires c < |agents| && agents[c].parent == Some(scope[i])
    ensures scope[j] != c
  {
    if j == 0 {
      UnderIsLater(agents, id, scope[i]);
    } else {
      assert ParentBefore(agents, scope, i, j);
    }
  }

  lemma {:induction false} DistinctFits(s: seq<Id>, n: nat)
    requires forall k | 0 <= k < |s| :: s[k] < n
    requires forall j, k | 0 <= j < k < |s| :: s[j] != s[k]
    ensures |s| <= n
  {
    assert s != [] ==> s[0] < n;
    if n == 0 {
    } else if k :| 0 <= k < |s| && s[k] == n - 1 {
      DistinctFits(s[..k] + s[k + 1..], n - 1);
    } else {
      DistinctFits(s, n - 1);
    }
  }

  lemma {:induction false} ReachesAll(agents: seq<Agent>, id: Id, scope: seq<Id>, c: Id)
    requires Rooted(agents) && Explored(agents, id, scope, |scope|) && c < |agents| && Under(agents, id, c)
    ensures c in scope
    decreases c
  {
    if c != id {
      ReachesAll(agents, id, scope, agents[c].parent.value);
      var m :| 0 <= m < |scope| && scope[m] == agents[c].parent.value;
      assert ChildrenIn(agents, scope, scope[m]);
    }
  }

  lemma ExploredAll(agents: seq<Agent>, id: Id, scope: seq<Id>)
    requires Rooted(agents) && Explored(agents, id, scope, |scope|)
    ensures IsScope(agents, id, scope)
  {
    forall c: nat | c < |agents| && Under(agents, id, c) ensures c in scope { ReachesAll(agents, id, scope, c); }
  }

  // ---- the passes over a scope

  /** A reverse pass sees every child of a member in its final state. */
  lemma ChildrenAreDone(agents: seq<Agent>, root: Id, scope: seq<Id>, k: nat, now: seq<Agent>)
    requires Rooted(agents) && root < |agents| && agents[root].parent == None && IsScope(agents, root, scope) && k < |scope|
    requires !Broken(agents, root) && SameShape(agents, now) && forall j | 0 <= j < |scope| :: scope[j] < |agents|
    requires forall j | k < j < |scope| :: now[scope[j]] == CompleteTree(agents, root)[scope[j]]
    ensures scope[k] < |agents|
    ensures Finishes(agents, scope[k]) <==>
            agents[scope[k]].status.Waiting? && forall c: nat | c < |agents| && agents[c].parent == Some(scope[k]) :: now[c].status.Completed?
  {
    assert scope[k] in scope;
    forall c: nat | c < |agents| && agents[c].parent == Some(scope[k])
      ensures c > scope[k] && (now[c].status.Completed? <==> agents[c].status.Completed? || Finishes(agents, c))
    {
      TreeOfRoot(agents, root, c);
      assert c in scope;
      var j :| 0 <= j < |scope| && scope[j] == c;
      assert j > 0;
      assert ParentBefore(agents, scope, |scope|, j);
      assert now[c] == CompleteTree(agents, root)[c];
    }
  }

  /** The members in `done` are as the pass leaves them, all others as it found them. */
  ghost predicate Passed(before: seq<Agent>, now: seq<Agent>, goal: seq<Agent>, scope: seq<Id>, done: set<Id>) {
    && |before| == |now| == |goal| && (forall i | i in done :: i in scope)
    && forall i | 0 <= i < |now| :: now[i] == if i in done then goal[i] else before[i]
  }

  lemma NotPassed(before: seq<Agent>, now: seq<Agent>, goal: seq<Agent>, scope: seq<Id>, done: set<Id>, id: Id)
    requires Passed(before, now, goal, scope, done) && SameShape(before, goal) && id < |before|
    ensures SameShape(before, now) && Root(before, id) == Root(now, id) && (id !in done ==> now[id] == before[id])
  {
    ShapeKeeps(before, now, id, id);
  }

  lemma PassedOne(before: seq<Agent>, now: seq<Agent>, next: seq<Agent>, goal: seq<Agent>, scope: seq<Id>, done: set<Id>, id: Id)
    requires Passed(before, now, goal, scope, done) && id in scope && id !in done && id < |now|
    requires next == now[id := goal[id]]
    ensures Passed(before, next, goal, scope, done + {id})
    ensures next == before <==> now == before && goal[id] == before[id]
  {
    if goal[id] == before[id] {
      assert next == now;
    } else {
      assert next[id] != before[id];
    }
  }

  lemma ChangesShow(a: Agent, active: bool)
    ensures Cancel(a, active) == a <==> Stopped(a)
    ensures Complete(a) != a
  {
    assert |Complete(a).log| == |a.log| + 1;
    if !Stopped(a) { assert |Cancel(a, active).log| == |a.log| + 1; }
  }

  lemma CancelGoalOf(agents: seq<Agent>, root: Id, i: Id, quanta: set<Id>, recoveries: set<Id>)
    requires i < |agents|
    ensures CancelTree(agents, root, quanta, recoveries)[i]
            == if Root(agents, i) == root then Cancel(agents[i], IsActive(agents[i], i, quanta, recoveries)) else agents[i]
  {
  }

  lemma CancelShape(agents: seq<Agent>, root: Id, i: Id, quanta: set<Id>, recoveries: set<Id>)
    requires i < |agents|
    ensures CancelTree(agents, root, quanta, recoveries)[i].parent == agents[i].parent && CancelTree(agents, root, quanta, recoveries)[i].run == agents[i].run
  {
  }

  lemma CompleteShape(agents: seq<Agent>, root: Id, i: Id)
    requires i < |agents|
    ensures CompleteTree(agents, root)[i].parent == agents[i].parent && CompleteTree(agents, root)[i].run == agents[i].run
  {
  }

  lemma GoalOf(agents: seq<Agent>, root: Id, i: Id)
    requires i < |agents|
    ensures CompleteTree(agents, root)[i] == if Root(agents, i) == root && Finishes(agents, i) then Complete(agents[i]) else agents[i]
  {
  }

  class ScopeTable {
    var agents: seq<Agent>
    var childrenByParent: map<Id, seq<Id>>
    var dirtyScopes: set<Id>
    var quanta: set<Id>
    var recoveries: set<Id>

    function Children(p: Id): seq<Id>
      reads this`childrenByParent
    {
      if p in childrenByParent then childrenByParent[p] else []
    }

    ghost predicate Indexed()
      reads this`agents, this`childrenByParent
    {
      forall p: Id {:trigger Children(p)} :: AreChildren(agents, p, Children(p))
    }

    ghost predicate Valid()
      reads this`agents, this`childrenByParent, this`dirtyScopes
    {
      && Rooted(agents)
      && Indexed()
      && (forall d | d in dirtyScopes :: d < |agents| && agents[d].parent == None)
    }

    constructor ()
      ensures Valid() && agents == [] && dirtyScopes == {} && quanta == {} && recoveries == {}
    {
      agents, childrenByParent, dirtyScopes, quanta, recoveries := [], map[], {}, {}, {};
    }

    /** `scope` */
    method Scope(id: Id) returns (scope: seq<Id>)
      requires Valid() && id < |agents|
      ensures IsScope(agents, id, scope)
    {
      scope := [id];
      var i := 0;
      while i < |scope|
        invariant Explored(agents, id, scope, i)
        decreases |agents| - i
      {
        ExploreOne(agents, id, scope, i, Children(scope[i]));
        DistinctFits(scope, |agents|);
        scope := scope + Children(scope[i]);
        i := i + 1;
      }
      ExploredAll(agents, id, scope);
    }

    /** The walk to the root that ends `sync`. */
    method MarkDirty(id: Id)
      requires Valid() && id < |agents|
      modifies this`dirtyScopes
      ensures Valid() && dirtyScopes == old(dirtyScopes) + {Root(agents, id)}
    {
      var root: nat := id;
      while agents[root].parent.Some?
        invariant root < |agents| && Root(agents, root) == Root(agents, id)
        decreases root
      {
        root := agents[root].parent.value;
      }
      dirtyScopes := dirtyScopes + {root};
    }

    /** `sync` on one event about a known agent: the projection is replaced and its root is dirty. */
    method Put(id: Id, after: Agent)
      requires Valid() && id < |agents| && after.parent == agents[id].parent && after.run == agents[id].run
      modifies this`agents, this`dirtyScopes
      ensures Valid() && agents == old(agents)[id := after] && dirtyScopes == old(dirtyScopes) + {Root(agents, id)}
    {
      agents := agents[id := after];
      forall p: Id ensures AreChildren(agents, p, Children(p)) {
        assert AreChildren(old(agents), p, Children(p));
      }
      MarkDirty(id);
    }

    /** `sync` on a creation event. */
    method Add(a: Agent)
      requires Valid() && (a.parent.Some? ==> a.parent.value < |agents| && agents[a.parent.value].run == a.run)
      modifies this`agents, this`dirtyScopes, this`childrenByParent
      ensures Valid() && agents == old(agents) + [a] && dirtyScopes == old(dirtyScopes) + {Root(agents, |agents| - 1)}
    {
      var id := |agents|;
      agents := agents + [a];
      if a.parent.Some? {
        childrenByParent := childrenByParent[a.parent.value := Children(a.parent.value) + [id]];
      }
      forall p: Id ensures AreChildren(agents, p, Children(p)) { ChildAdded(old(agents), a, p, old(Children(p)), Children(p)); }
      MarkDirty(id);
    }

    method CancelMember(id: Id) returns (changed: bool)
      requires Valid() && id < |agents|
      modifies this`agents, this`dirtyScopes
      ensures Valid() && agents == old(agents)[id := Cancel(old(agents[id]), IsActive(old(agents[id]), id, quanta, recoveries))]
      ensures changed <==> !Stopped(old(agents[id]))
      ensures dirtyScopes == if changed then old(dirtyScopes) + {Root(old(agents), id)} else old(dirtyScopes)
    {
      var state := agents[id];
      changed := !Stopped(state);
      if changed {
        Put(id, Cancel(state, IsActive(state, id, quanta, recoveries)));
        ShapeKeeps(old(agents), agents, id, id);
      }
    }

    /** `cancelScope` on a root. */
    method CancelScope(root: Id)
      requires Valid() && root < |agents| && agents[root].parent == None
      modifies this`agents, this`dirtyScopes
      ensures Valid() && agents == CancelTree(old(agents), root, quanta, recoveries)
      ensures dirtyScopes == if agents == old(agents) then old(dirtyScopes) else old(dirtyScopes) + {root}
    {
      var scope := Scope(root);
      hide Under, Root, IsScope, AreChildren, CancelTree, IsActive, Cancel;
      MembersOfTree(agents, root, scope);
      CancelPass(root, scope);
      forall i: nat | i < |agents| ensures agents[i] == CancelTree(old(agents), root, quanta, recoveries)[i] { CancelGoalOf(old(agents), root, i, quanta, recoveries); }
    }

    /** The pass over a scope. */
    method CancelPass(root: Id, scope: seq<Id>)
      requires Valid() && root < |agents| && agents[root].parent == None && IsScope(agents, root, scope)
      modifies this`agents, this`dirtyScopes
      ensures Valid() && |agents| == |old(agents)|
      ensures forall i | 0 <= i < |agents| :: agents[i] == if i in scope then CancelTree(old(agents), root, quanta, recoveries)[i] else old(agents[i])
      ensures dirtyScopes == if agents == old(agents) then old(dirtyScopes) else old(dirtyScopes) + {root}
    {
      hide Under, Root, IsScope, AreChildren, CancelTree, IsActive, Cancel;
      MembersOfTree(agents, root, scope);
      ghost var goal := CancelTree(agents, root, quanta, recoveries);
      forall i: nat | i < |agents| ensures goal[i].parent == agents[i].parent && goal[i].run == agents[i].run { CancelShape(agents, root, i, quanta, recoveries); }
      ghost var done: set<Id> := {};
      var k := 0;
      while k < |scope|
        invariant 0 <= k <= |scope| && Valid() && |agents| == |old(agents)|
        invariant Passed(old(agents), agents, goal, scope, done)
        invariant forall j | 0 <= j < |scope| :: scope[j] in done <==> j < k
        invariant dirtyScopes == if agents == old(agents) then old(dirtyScopes) else old(dirtyScopes) + {root}
      {
        ghost var id := scope[k];
        NotPassed(old(agents), agents, goal, scope, done, id);
        ghost var before := agents;
        var changed := CancelMember(scope[k]);
        ChangesShow(old(agents)[id], IsActive(old(agents)[id], id, quanta, recoveries));
        CancelGoalOf(old(agents), root, id, quanta, recoveries);
        PassedOne(old(agents), before, agents, goal, scope, done, id);
        done := done + {id};
        k := k + 1;
      }
    }

    /** `reconcileScopes` */
    method ReconcileScopes()
      requires Valid()
      modifies this`agents, this`dirtyScopes
      ensures Valid() && agents == Settle(old(agents), old(dirtyScopes), quanta, recoveries) && dirtyScopes == {}
    {
      NothingDirty(agents, quanta, recoveries);
      while dirtyScopes != {}
        invariant Valid()
        invariant Settle(agents, dirtyScopes, quanta, recoveries) == Settle(old(agents), old(dirtyScopes), quanta, recoveries)
        decreases Unsettled(agents), dirtyScopes
      {
        var root :| root in dirtyScopes;
        VisitKeepsTheGoal(agents, dirtyScopes, root, quanta, recoveries);
        VisitStops(agents, root, quanta, recoveries);
        VisitTree(root);
      }
      NothingDirty(agents, quanta, recoveries);
    }

    method SomeHurt(root: Id, scope: seq<Id>) returns (hurt: bool)
      requires Rooted(agents) && root < |agents| && agents[root].parent == None && IsScope(agents, root, scope)
      ensures hurt <==> Broken(agents, root)
    {
      MembersOfTree(agents, root, scope);
      var k := 0;
      while k < |scope|
        invariant 0 <= k <= |scope|
        invariant forall j | 0 <= j < k :: !Hurt(agents[scope[j]])
      {
        if Hurt(agents[scope[k]]) { return true; }
        k := k + 1;
      }
      return false;
    }

    /** One round of the loop in `reconcileScopes`. */
    method VisitTree(root: Id)
      requires Valid() && root in dirtyScopes
      modifies this`agents, this`dirtyScopes
      ensures Valid() && agents == SettleTree(old(agents), root, quanta, recoveries)
      ensures dirtyScopes == Redirty(old(agents), agents, root, old(dirtyScopes))
    {
      dirtyScopes := dirtyScopes - {root};
      var scope := Scope(root);
      var hurt := SomeHurt(root, scope);
      if hurt { CancelScope(root); } else { CompletePass(root, scope); }
    }

    method CompletePass(root: Id, scope: seq<Id>)
      requires Valid() && root < |agents| && agents[root].parent == None && IsScope(agents, root, scope) && !Broken(agents, root)
      modifies this`agents, this`dirtyScopes
      ensures Valid() && agents == CompleteTree(old(agents), root)
      ensures dirtyScopes == if agents == old(agents) then old(dirtyScopes) else old(dirtyScopes) + {root}
    {
      hide Finishes, Under, Root, CompleteTree, IsScope, Broken, AreChildren;
      MembersOfTree(agents, root, scope);
      ReversePass(root, scope);
      forall i: nat | i < |agents| ensures agents[i] == CompleteTree(old(agents), root)[i] { GoalOf(old(agents), root, i); }
    }

    /** The reverse pass over a scope. */
    method ReversePass(root: Id, scope: seq<Id>)
      requires Valid() && root < |agents| && agents[root].parent == None && IsScope(agents, root, scope) && !Broken(agents, root)
      modifies this`agents, this`dirtyScopes
      ensures Valid() && |agents| == |old(agents)|
      ensures forall i | 0 <= i < |agents| :: agents[i] == if i in scope then CompleteTree(old(agents), root)[i] else old(agents[i])
      ensures dirtyScopes == if agents == old(agents) then old(dirtyScopes) else old(dirtyScopes) + {root}
    {
      hide Finishes, Under, Root, CompleteTree, IsScope, Broken, AreChildren, Complete;
      MembersOfTree(agents, root, scope);
      ghost var goal := CompleteTree(agents, root);
      forall i: nat | i < |agents| ensures goal[i].parent == agents[i].parent && goal[i].run == agents[i].run { CompleteShape(agents, root, i); }
      ghost var done: set<Id> := {};
      var k := |scope|;
      while k > 0
        invariant 0 <= k <= |scope| && Valid() && |agents| == |old(agents)|
        invariant Passed(old(agents), agents, goal, scope, done)
        invariant forall j | 0 <= j < |scope| :: scope[j] in done <==> k <= j
        invariant dirtyScopes == if agents == old(agents) then old(dirtyScopes) else old(dirtyScopes) + {root}
      {
        k := k - 1;
        ghost var id := scope[k];
        NotPassed(old(agents), agents, goal, scope, done, id);
        GoalOf(old(agents), root, id);
        ChildrenAreDone(old(agents), root, scope, k, agents);
        ghost var before := agents;
        var changed := CompleteMember(scope[k]);
        ChangesShow(old(agents)[id], false);
        PassedOne(old(agents), before, agents, goal, scope, done, id);
        done := done + {id};
      }
    }

    method CompleteMember(id: Id) returns (changed: bool)
      requires Valid() && id < |agents|
      modifies this`agents, this`dirtyScopes
      ensures Valid()
      ensures changed <==> old(agents[id]).status.Waiting?
                           && forall c: nat | c < |old(agents)| && old(agents)[c].parent == Some(id) :: old(agents)[c].status.Completed?
      ensures agents == if changed then old(agents)[id := Complete(old(agents[id]))] else old(agents)
      ensures dirtyScopes == if changed then old(dirtyScopes) + {Root(old(agents), id)} else old(dirtyScopes)
    {
      assert AreChildren(agents, id, Children(id));
      changed := agents[id].status.Waiting? && forall c | c in Children(id) :: agents[c].status.Completed?;
      if changed {
        Put(id, Complete(agents[id]));
        ShapeKeeps(old(agents), agents, id, id);
      }
    }
  }

  lemma ChildAdded(agents: seq<Agent>, a: Agent, p: Id, before: seq<Id>, after: seq<Id>)
    requires AreChildren(agents, p, before)
    requires after == if a.parent == Some(p) then before + [|agents|] else before
    ensures AreChildren(agents + [a], p, after)
  {
    assert forall j | 0 <= j < |before| :: before[j] in before;
  }

  lemma MembersOfTree(agents: seq<Agent>, root: Id, scope: seq<Id>)
    requires Rooted(agents) && root < |agents| && agents[root].parent == None && IsScope(agents, root, scope)
    ensures forall i: nat :: i in scope <==> i < |agents| && Root(agents, i) == root
    ensures forall k | 0 <= k < |scope| :: scope[k] < |agents| && Root(agents, scope[k]) == root && scope[k] in scope
    ensures forall j, k | 0 <= j < k < |scope| :: scope[j] != scope[k]
  {
    forall i: nat | i < |agents| ensures i in scope <==> Root(agents, i) == root { TreeOfRoot(agents, root, i); }
    forall k | 0 <= k < |scope| ensures scope[k] < |agents| && Root(agents, scope[k]) == root && scope[k] in scope {
      assert scope[k] in scope;
    }
  }

  lemma NothingDirty(agents: seq<Agent>, quanta: set<Id>, recoveries: set<Id>)
    ensures Settle(agents, {}, quanta, recoveries) == agents
  {
  }
}
