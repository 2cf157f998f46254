/** The dependency graph of one program: declared instruction ids and the ids each one lists in
    `dependsOn`. An id that is listed but not declared is no edge, as in the validator. */
module DependencyGraph {

  type Id = string
  type Graph = map<Id, seq<Id>>

  ghost predicate Edge(g: Graph, v: Id, w: Id) {
    v in g && w in g && w in g[v]
  }

  ghost predicate Walk(g: Graph, p: seq<Id>) {
    && p != []
    && (forall k | 0 <= k < |p| :: p[k] in g)
    && (forall k | 0 <= k < |p| - 1 :: Edge(g, p[k], p[k + 1]))
  }

  ghost predicate Cycle(g: Graph, p: seq<Id>) {
    Walk(g, p) && |p| >= 2 && p[0] == p[|p| - 1]
  }

  ghost predicate Acyclic(g: Graph) {
    forall p :: !Cycle(g, p)
  }

  /** Every declared id sits somewhere in `order`, after all of its declared dependencies. */
  ghost predicate DependenciesFirst(g: Graph, order: seq<Id>) {
    forall k | 0 <= k < |order| :: order[k] in g && (forall w | w in g[order[k]] && w in g :: w in order[..k])
  }

  lemma AppendReady(g: Graph, order: seq<Id>, v: Id)
    requires DependenciesFirst(g, order) && v in g
    requires forall w | w in g[v] && w in g :: w in order
    ensures DependenciesFirst(g, order + [v])
  {
    var longer := order + [v];
    forall k | 0 <= k < |longer|
      ensures longer[k] in g && forall w | w in g[longer[k]] && w in g :: w in longer[..k]
    {
      assert longer[..k] == order[..k];
    }
  }

  lemma SubWalk(g: Graph, p: seq<Id>, i: nat, j: nat)
    requires Walk(g, p) && i < j <= |p|
    ensures Walk(g, p[i..j])
  {
    forall m | 0 <= m < j - i - 1 ensures Edge(g, p[i..j][m], p[i..j][m + 1]) {
      assert Edge(g, p[i + m], p[i + m + 1]);
    }
  }

  /** A walk from `order[k]` never climbs: it ends strictly earlier in the order. */
  lemma {:induction false} WalkDescends(g: Graph, order: seq<Id>, p: seq<Id>, k: nat) returns (j: nat)
    requires DependenciesFirst(g, order) && Walk(g, p) && |p| >= 2
    requires k < |order| && order[k] == p[0]
    ensures j < k && order[j] == p[|p| - 1]
    decreases |p|
  {
    assert Edge(g, p[0], p[1]);
    assert p[1] in order[..k];
    j :| 0 <= j < k && order[j] == p[1];
    if |p| > 2 {
      SubWalk(g, p, 1, |p|);
      j := WalkDescends(g, order, p[1..], j);
    }
  }

  lemma {:induction false} NoCycleThrough(g: Graph, order: seq<Id>, p: seq<Id>, k: nat)
    requires DependenciesFirst(g, order) && Cycle(g, p)
    requires k < |order| && order[k] == p[0]
    ensures false
    decreases k
  {
    var j := WalkDescends(g, order, p, k);
    NoCycleThrough(g, order, p, j);
  }

  /** An order that puts dependencies first and lists every declared id rules out every cycle. */
  lemma OrderedIsAcyclic(g: Graph, order: seq<Id>)
    requires DependenciesFirst(g, order)
    requires forall v | v in g :: v in order
    ensures Acyclic(g)
  {
    forall p ensures !Cycle(g, p) {
      if Cycle(g, p) {
        var k :| 0 <= k < |order| && order[k] == p[0];
        NoCycleThrough(g, order, p, k);
      }
    }
  }

  /** A walk longer than the graph has nodes revisits one, so it holds a cycle. */
  lemma {:induction false} LongWalkHasCycle(g: Graph, p: seq<Id>, nodes: set<Id>)
    requires Walk(g, p) && (forall k | 0 <= k < |p| :: p[k] in nodes) && |p| > |nodes|
    ensures !Acyclic(g)
  {
    if i, j :| 0 <= i < j < |p| && p[i] == p[j] {
      var c := p[i..j + 1];
      SubWalk(g, p, i, j + 1);
      assert Cycle(g, c);
    } else {
      DistinctFits(p, nodes);
    }
  }

  lemma {:induction false} DistinctFits(p: seq<Id>, nodes: set<Id>)
    requires forall k | 0 <= k < |p| :: p[k] in nodes
    requires forall i, j | 0 <= i < j < |p| :: p[i] != p[j]
    ensures |p| <= |nodes|
    decreases |p|
  {
    if p != [] {
      var rest := nodes - {p[0]};
      assert nodes == rest + {p[0]};
      DistinctFits(p[1..], rest);
    }
  }

  /** In an acyclic graph every nonempty set of ids holds one that depends on none of the others. */
  lemma {:induction false} SomeIdIsReady(g: Graph, pending: set<Id>) returns (v: Id)
    requires Acyclic(g) && pending != {} && pending <= g.Keys
    ensures v in pending && forall w | w in g[v] && w in g :: w !in pending
  {
    var start :| start in pending;
    v := FollowPending(g, pending, [start]);
  }

  lemma {:induction false} FollowPending(g: Graph, pending: set<Id>, p: seq<Id>) returns (v: Id)
    requires Acyclic(g) && pending <= g.Keys
    requires Walk(g, p) && (forall k | 0 <= k < |p| :: p[k] in pending) && |p| <= |pending| + 1
    ensures v in pending && forall w | w in g[v] && w in g :: w !in pending
    decreases |pending| + 1 - |p|
  {
    v := p[|p| - 1];
    if w :| w in g[v] && w in pending {
      var q := p + [w];
      assert forall m | 0 <= m < |q| - 1 :: Edge(g, q[m], q[m + 1]);
      if |p| > |pending| {
        LongWalkHasCycle(g, p, pending);
      } else {
        v := FollowPending(g, pending, q);
      }
    }
  }
}
