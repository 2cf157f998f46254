/** The sampler's seeded breadth-first search over one snapshot (`sampler.ts` lines 185-257). */
module ProcessSampler {
  import opened ProcessTree

  datatype Tree = Tree(allDescendants: seq<Pid>, inGroupDescendants: seq<Pid>, escapedDescendants: seq<Pid>)

  predicate Distinct(s: seq<Pid>) {
    forall j, k | 0 <= j < k < |s| :: s[j] != s[k]
  }

  predicate Alive(table: seq<Proc>, pid: Pid) {
    exists i :: 0 <= i < |table| && table[i].pid == pid && !table[i].zombie
  }

  predicate AliveInGroup(table: seq<Proc>, leader: Pid, pid: Pid) {
    exists i :: 0 <= i < |table| && table[i].pid == pid && !table[i].zombie && table[i].pgid == leader
  }

  /** A root, or a process whose parent links lead to one. */
  ghost predicate Reached(table: seq<Proc>, roots: set<Pid>, pid: Pid) {
    pid in roots || exists i: nat :: i < |table| && table[i].pid == pid && Descends(table, roots, i)
  }

  /** The lists hold the live ones among `members`, each once, those of the leader's group apart from
      the others. */
  ghost predicate Lists(table: seq<Proc>, leader: Pid, t: Tree, members: set<Pid>) {
    && (forall pid :: pid in t.allDescendants <==> pid in members && Alive(table, pid))
    && (forall pid :: pid in t.inGroupDescendants <==> pid in members && AliveInGroup(table, leader, pid))
    && (forall pid :: pid in t.escapedDescendants <==> pid in members && Alive(table, pid) && !AliveInGroup(table, leader, pid))
    && Distinct(t.allDescendants) && Distinct(t.inGroupDescendants) && Distinct(t.escapedDescendants)
  }

  function Add(table: seq<Proc>, leader: Pid, t: Tree, pid: Pid): Tree {
    if !Alive(table, pid) then t
    else if AliveInGroup(table, leader, pid) then
      t.(allDescendants := t.allDescendants + [pid], inGroupDescendants := t.inGroupDescendants + [pid])
    else t.(allDescendants := t.allDescendants + [pid], escapedDescendants := t.escapedDescendants + [pid])
  }

  lemma AddLists(table: seq<Proc>, leader: Pid, t: Tree, members: set<Pid>, pid: Pid)
    requires DistinctPids(table) && Lists(table, leader, t, members) && pid !in members
    ensures Lists(table, leader, Add(table, leader, t, pid), members + {pid})
  {
  }

  function ChildrenOf(table: seq<Proc>, p: Pid): (children: seq<Pid>)
    ensures forall c :: c in children <==> exists i :: 0 <= i < |table| && table[i].pid == c && table[i].ppid == p
  {
    if table == [] then []
    else
      var front, last := table[..|table| - 1], table[|table| - 1];
      assert table == front + [last];
      ChildrenOf(front, p) + if last.ppid == p then [last.pid] else []
  }

  lemma TheChildren(table: seq<Proc>, p: Pid)
    ensures forall c :: c in ChildrenOf(table, p) <==> exists i :: 0 <= i < |table| && table[i].pid == c && table[i].ppid == p
  {
  }

  function PidsOf(table: seq<Proc>): set<Pid> {
    set i | 0 <= i < |table| :: table[i].pid
  }

  /** Everything visited is reached, and the children of everything processed are visited. */
  ghost predicate Searched(table: seq<Proc>, roots: set<Pid>, visited: set<Pid>, open: set<Pid>) {
    && roots <= visited && open <= visited
    && (forall p | p in visited :: Reached(table, roots, p))
    && (forall p, i: nat | p in visited && p !in open && i < |table| && table[i].ppid == p :: table[i].pid in visited)
  }

  lemma ChildIsReached(table: seq<Proc>, roots: set<Pid>, p: Pid, i: nat)
    requires DistinctPids(table) && Reached(table, roots, p) && i < |table| && table[i].ppid == p
    ensures Reached(table, roots, table[i].pid)
  {
    if p in roots {
      DirectChild(table, roots, i);
    } else {
      var parent: nat :| parent < |table| && table[parent].pid == p && Descends(table, roots, parent);
      ChildOfDescendant(table, roots, parent, i);
    }
  }

  lemma SearchIsComplete(table: seq<Proc>, roots: set<Pid>, visited: set<Pid>, pid: Pid)
    requires DistinctPids(table) && Searched(table, roots, visited, {}) && Reached(table, roots, pid)
    ensures pid in visited
  {
    if pid !in roots {
      var i: nat :| i < |table| && table[i].pid == pid && Descends(table, roots, i);
      var chain :| Chain(table, roots, chain) && chain[|chain| - 1] == i;
      var marked := set j: nat | j < |table| && table[j].pid in visited;
      ClosedHoldsAll(table, roots, marked, chain);
    }
  }

  /** Take the children of one process into the search. */
  method Expand(table: seq<Proc>, leader: Pid, ghost roots: set<Pid>, current: Pid, visitedBefore: set<Pid>, queueBefore: seq<Pid>, before: Tree)
    returns (visited: set<Pid>, queue: seq<Pid>, t: Tree)
    requires DistinctPids(table) && leader in roots && current in visitedBefore
    requires Lists(table, leader, before, visitedBefore - {leader})
    requires Searched(table, roots, visitedBefore, {current} + set p | p in queueBefore)
    ensures Lists(table, leader, t, visited - {leader}) && visitedBefore <= visited
    ensures Searched(table, roots, visited, set p | p in queue)
    ensures visited - visitedBefore <= PidsOf(table)
    ensures visited == visitedBefore ==> queue == queueBefore
  {
    hide Lists, Reached, ChildrenOf, Descends;
    visited, queue, t := visitedBefore, queueBefore, before;
    var children := ChildrenOf(table, current);
    TheChildren(table, current);
    var k := 0;
    while k < |children|
      invariant 0 <= k <= |children| && visitedBefore <= visited
      invariant Lists(table, leader, t, visited - {leader})
      invariant Searched(table, roots, visited, {current} + set p | p in queue)
      invariant forall j | 0 <= j < k :: children[j] in visited
      invariant visited - visitedBefore <= PidsOf(table)
      invariant visited == visitedBefore ==> queue == queueBefore
    {
      var child := children[k];
      assert child in children;
      if child !in visited {
        ghost var i: nat :| i < |table| && table[i].pid == child && table[i].ppid == current;
        ChildIsReached(table, roots, current, i);
        AddLists(table, leader, t, visited - {leader}, child);
        t := Add(table, leader, t, child);
        assert visited + {child} - {leader} == visited - {leader} + {child};
        visited := visited + {child};
        queue := queue + [child];
      }
      k := k + 1;
    }
    forall p, i: nat | p in visited && p !in (set q | q in queue) && i < |table| && table[i].ppid == p ensures table[i].pid in visited {
      if p == current { assert table[i].pid in children; }
    }
  }

  /** The roots: the leader, then the seeds that were known before. */
  method Seed(table: seq<Proc>, leader: Pid, seeds: seq<Pid>) returns (visited: set<Pid>, queue: seq<Pid>, t: Tree)
    requires DistinctPids(table)
    ensures visited == {leader} + (set s | s in seeds) && visited == set p | p in queue
    ensures Lists(table, leader, t, visited - {leader})
  {
    t := Tree([], [], []);
    visited, queue := {leader}, [leader];
    var k := 0;
    while k < |seeds|
      invariant 0 <= k <= |seeds| && Lists(table, leader, t, visited - {leader})
      invariant visited == {leader} + (set s | s in seeds[..k]) && visited == set p | p in queue
    {
      var s := seeds[k];
      assert seeds[..k + 1] == seeds[..k] + [s];
      if s !in visited {
        AddLists(table, leader, t, visited - {leader}, s);
        t := Add(table, leader, t, s);
        assert visited + {s} - {leader} == visited - {leader} + {s};
        visited := visited + {s};
        queue := queue + [s];
      }
      k := k + 1;
    }
    assert seeds[..k] == seeds;
  }

  /** The breadth-first loop visits exactly what is reached. */
  method Search(table: seq<Proc>, leader: Pid, ghost roots: set<Pid>, start: set<Pid>, queueStart: seq<Pid>, before: Tree)
    returns (visited: set<Pid>, t: Tree)
    requires DistinctPids(table) && leader in roots && start == roots && start == set p | p in queueStart
    requires Lists(table, leader, before, start - {leader})
    ensures Lists(table, leader, t, visited - {leader})
    ensures forall p :: p in visited <==> Reached(table, roots, p)
  {
    hide Lists, Reached, ChildrenOf, Descends;
    var queue := queueStart;
    visited, t := start, before;
    StartIsSearched(table, roots);
    while queue != []
      invariant Lists(table, leader, t, visited - {leader})
      invariant Searched(table, roots, visited, set p | p in queue)
      decreases |PidsOf(table) - visited|, |queue|
    {
      var current := queue[0];
      assert (set p | p in queue) == {current} + set p | p in queue[1..] by { assert queue == [current] + queue[1..]; }
      ghost var visitedBefore := visited;
      visited, queue, t := Expand(table, leader, roots, current, visited, queue[1..], t);
      if visited != visitedBefore { FewerLeft(PidsOf(table), visitedBefore, visited); }
    }
    assert (set p | p in queue) == {};
    forall p ensures p in visited <==> Reached(table, roots, p) {
      if Reached(table, roots, p) { SearchIsComplete(table, roots, visited, p); }
    }
  }

  lemma StartIsSearched(table: seq<Proc>, roots: set<Pid>)
    ensures Searched(table, roots, roots, roots)
  {
  }

  lemma FewerLeft(pids: set<Pid>, before: set<Pid>, after: set<Pid>)
    requires before < after && after - before <= pids
    ensures |pids - after| < |pids - before|
  {
    var p :| p in after && p !in before;
    assert p in pids - before && p !in pids - after;
    SmallerSet(pids - after, pids - before);
  }

  /** `getProcessTree`: the live processes below the leader or a seed, and live members of the leader's
      group, without the leader; each once, in-group and escaped apart. */
  method GetProcessTree(table: seq<Proc>, leader: Pid, seeds: seq<Pid>) returns (t: Tree)
    requires DistinctPids(table)
    ensures var roots := {leader} + set s | s in seeds;
            Lists(table, leader, t, (set p | p in PidsOf(table) + roots && (Reached(table, roots, p) || AliveInGroup(table, leader, p))) - {leader})
  {
    ghost var roots := {leader} + set s | s in seeds;
    var visited, queue, seeded := Seed(table, leader, seeds);
    var reached, found := Search(table, leader, roots, visited, queue, seeded);
    t := GroupOrphans(table, leader, roots, reached, found);
  }

  lemma SmallerSet(a: set<Pid>, b: set<Pid>)
    requires a < b
    ensures |a| < |b|
  {
    assert |b - a| > 0 by {
      var x :| x in b && x !in a;
      assert x in b - a;
    }
    assert b == a + (b - a);
  }

  /** The last loop: members of the leader's group that no link reached. */
  method GroupOrphans(table: seq<Proc>, leader: Pid, ghost roots: set<Pid>, reached: set<Pid>, before: Tree) returns (t: Tree)
    requires DistinctPids(table) && leader in roots && Lists(table, leader, before, reached - {leader})
    requires forall p :: p in reached <==> Reached(table, roots, p)
    ensures Lists(table, leader, t, (set p | p in PidsOf(table) + roots && (Reached(table, roots, p) || AliveInGroup(table, leader, p))) - {leader})
  {
    t := before;
    var visited := reached;
    var k := 0;
    while k < |table|
      invariant 0 <= k <= |table| && Lists(table, leader, t, visited - {leader})
      invariant visited == reached + set j | 0 <= j < k && !table[j].zombie && table[j].pgid == leader :: table[j].pid
    {
      var p := table[k];
      if p.pgid == leader && p.pid !in visited && !p.zombie {
        AddLists(table, leader, t, visited - {leader}, p.pid);
        assert AliveInGroup(table, leader, p.pid);
        assert visited + {p.pid} - {leader} == visited - {leader} + {p.pid};
        visited := visited + {p.pid};
        t := t.(allDescendants := t.allDescendants + [p.pid], inGroupDescendants := t.inGroupDescendants + [p.pid]);
      }
      k := k + 1;
    }
    assert forall p | Reached(table, roots, p) :: p in PidsOf(table) + roots;
    assert visited == set p | p in PidsOf(table) + roots && (Reached(table, roots, p) || AliveInGroup(table, leader, p)) by {
      forall p ensures p in visited <==> p in PidsOf(table) + roots && (Reached(table, roots, p) || AliveInGroup(table, leader, p)) {
        if AliveInGroup(table, leader, p) {
          var i :| 0 <= i < |table| && table[i].pid == p && !table[i].zombie && table[i].pgid == leader;
          assert table[i].pid in PidsOf(table);
        }
      }
    }
  }
}
