/** The two scans that find a process tree: the helper's fixpoint over parent links
    (`xioflow-reaper.c` lines 355-399, Linux) and the sampler's seeded search (`sampler.ts` lines 185-257). */
module ProcessTree {

  type Pid = nat

  datatype Proc = Proc(pid: Pid, ppid: Pid, pgid: Pid, zombie: bool)

  predicate DistinctPids(table: seq<Proc>) {
    forall j, k | 0 <= j < k < |table| :: table[j].pid != table[k].pid
  }

  /** A chain of parent links through the table that starts below one of the roots. */
  ghost predicate Chain(table: seq<Proc>, roots: set<Pid>, chain: seq<nat>) {
    && chain != [] && (forall k | 0 <= k < |chain| :: chain[k] < |table|)
    && table[chain[0]].ppid in roots
    && forall k | 0 < k < |chain| :: table[chain[k]].ppid == table[chain[k - 1]].pid
  }

  /** Entry `i` descends from a root, through zombies or not. */
  ghost predicate Descends(table: seq<Proc>, roots: set<Pid>, i: nat) {
    exists chain :: Chain(table, roots, chain) && chain[|chain| - 1] == i
  }

  lemma DirectChild(table: seq<Proc>, roots: set<Pid>, i: nat)
    requires i < |table| && table[i].ppid in roots
    ensures Descends(table, roots, i)
  {
    assert Chain(table, roots, [i]);
  }

  lemma ChildOfDescendant(table: seq<Proc>, roots: set<Pid>, parent: nat, i: nat)
    requires i < |table| && parent < |table| && Descends(table, roots, parent) && table[i].ppid == table[parent].pid
    ensures Descends(table, roots, i)
  {
    var chain :| Chain(table, roots, chain) && chain[|chain| - 1] == parent;
    assert Chain(table, roots, chain + [i]);
  }

  /** A set of entries closed under parent links holds every descendant. */
  lemma {:induction false} ClosedHoldsAll(table: seq<Proc>, roots: set<Pid>, marked: set<nat>, chain: seq<nat>)
    requires Chain(table, roots, chain)
    requires forall i: nat | i < |table| && table[i].ppid in roots :: i in marked
    requires forall i: nat, p: nat | i < |table| && p in marked && p < |table| && table[i].ppid == table[p].pid :: i in marked
    ensures chain[|chain| - 1] in marked
  {
    if |chain| > 1 {
      ClosedHoldsAll(table, roots, marked, chain[..|chain| - 1]);
    }
  }

  // ---- the helper's fixpoint

  predicate Sorted(table: seq<Proc>) {
    forall j, k | 0 <= j < k < |table| :: table[j].pid < table[k].pid
  }

  /** `find_pid` is a binary search. */
  method FindPid(table: seq<Proc>, pid: Pid) returns (found: int)
    requires Sorted(table)
    ensures found == -1 || (0 <= found < |table| && table[found].pid == pid)
    ensures found == -1 ==> forall k | 0 <= k < |table| :: table[k].pid != pid
  {
    var low, high := 0, |table|;
    while low < high
      invariant 0 <= low <= high <= |table|
      invariant forall k | 0 <= k < low :: table[k].pid < pid
      invariant forall k | high <= k < |table| :: table[k].pid > pid
    {
      var middle := (low + high) / 2;
      if table[middle].pid == pid { return middle; }
      if table[middle].pid < pid { low := middle + 1; } else { high := middle; }
    }
    return -1;
  }

  function Unmarked(flags: seq<bool>): nat {
    if flags == [] then 0 else Unmarked(flags[..|flags| - 1]) + if flags[|flags| - 1] then 0 else 1
  }

  lemma {:induction false} MarkingOne(flags: seq<bool>, i: nat)
    requires i < |flags| && !flags[i]
    ensures Unmarked(flags[i := true]) == Unmarked(flags) - 1
  {
    var n := |flags| - 1;
    if i == n {
      assert flags[i := true][..n] == flags[..n];
    } else {
      MarkingOne(flags[..n], i);
      assert flags[i := true][..n] == flags[..n][i := true];
    }
  }

  /** What the next sweep would mark. */
  ghost predicate ParentMarked(table: seq<Proc>, self: Pid, flags: seq<bool>, i: nat) {
    i < |table| == |flags|
    && (table[i].ppid == self || exists p :: 0 <= p < |table| && flags[p] && table[p].pid == table[i].ppid)
  }

  /** One sweep of the fixpoint, in place. */
  method Sweep(table: seq<Proc>, self: Pid, marked: array<bool>) returns (changed: bool)
    requires Sorted(table) && marked.Length == |table|
    requires forall i: nat | i < |table| && marked[i] :: Descends(table, {self}, i)
    modifies marked
    ensures forall i: nat | i < |table| && marked[i] :: Descends(table, {self}, i)
    ensures forall i | 0 <= i < |table| && old(marked[i]) :: marked[i]
    ensures changed ==> Unmarked(marked[..]) < Unmarked(old(marked[..]))
    ensures !changed ==> marked[..] == old(marked[..]) && forall i: nat | i < |table| && ParentMarked(table, self, marked[..], i) :: marked[i]
  {
    hide Descends, ParentMarked, Unmarked;
    changed := false;
    var i := 0;
    while i < |table|
      invariant 0 <= i <= |table|
      invariant forall j: nat | j < |table| && marked[j] :: Descends(table, {self}, j)
      invariant forall j | 0 <= j < |table| && old(marked[j]) :: marked[j]
      invariant changed ==> Unmarked(marked[..]) < Unmarked(old(marked[..]))
      invariant !changed ==> marked[..] == old(marked[..]) && forall j: nat | j < i && ParentMarked(table, self, marked[..], j) :: marked[j]
    {
      if !marked[i] {
        var ppid := table[i].ppid;
        var parent := -1;
        if ppid != self { parent := FindPid(table, ppid); }
        if ppid == self || (parent >= 0 && marked[parent]) {
          if ppid == self { DirectChild(table, {self}, i); } else { ChildOfDescendant(table, {self}, parent, i); }
          MarkingOne(marked[..], i);
          ghost var before := marked[..];
          marked[i] := true;
          assert marked[..] == before[i := true];
          changed := true;
        } else {
          NoMarkedParent(table, self, marked[..], i, parent);
        }
      }
      i := i + 1;
    }
  }

  lemma NoMarkedParent(table: seq<Proc>, self: Pid, flags: seq<bool>, i: nat, parent: int)
    requires Sorted(table) && |flags| == |table| && i < |table| && table[i].ppid != self
    requires parent == -1 ==> forall k | 0 <= k < |table| :: table[k].pid != table[i].ppid
    requires parent == -1 || (0 <= parent < |table| && table[parent].pid == table[i].ppid && !flags[parent])
    ensures !ParentMarked(table, self, flags, i)
  {
  }

  /** The last loop of `collect_tree`. */
  method LiveOnes(table: seq<Proc>, self: Pid, marked: array<bool>) returns (out: seq<Proc>)
    requires Sorted(table) && marked.Length == |table|
    ensures forall p :: p in out <==> exists k: nat :: k < |table| && table[k] == p && marked[k] && !p.zombie && p.pid != self
    ensures Sorted(out)
  {
    out := [];
    var i := 0;
    while i < |table|
      invariant 0 <= i <= |table|
      invariant forall p :: p in out <==> exists k: nat :: k < i && table[k] == p && marked[k] && !p.zombie && p.pid != self
      invariant Sorted(out)
      invariant forall p | p in out :: forall k | i <= k < |table| :: p.pid < table[k].pid
    {
      if marked[i] && !table[i].zombie && table[i].pid != self { out := out + [table[i]]; }
      i := i + 1;
    }
  }

  /** `collect_tree`: the live descendants of the helper, exactly. */
  method CollectTree(table: seq<Proc>, self: Pid) returns (out: seq<Proc>)
    requires Sorted(table)
    ensures forall p :: p in out <==> exists i: nat :: i < |table| && table[i] == p && Descends(table, {self}, i) && !p.zombie && p.pid != self
    ensures Sorted(out)
  {
    hide Descends, ParentMarked, Unmarked;
    var marked := new bool[|table|](_ => false);
    var changed := true;
    while changed
      invariant forall i: nat | i < |table| && marked[i] :: Descends(table, {self}, i)
      invariant !changed ==> forall i: nat | i < |table| && ParentMarked(table, self, marked[..], i) :: marked[i]
      decreases Unmarked(marked[..]), changed
    {
      changed := Sweep(table, self, marked);
    }
    forall i: nat | i < |table| && Descends(table, {self}, i) ensures marked[i] { FixpointIsComplete(table, self, marked[..], i); }
    out := LiveOnes(table, self, marked);
  }

  lemma FixpointIsComplete(table: seq<Proc>, self: Pid, flags: seq<bool>, i: nat)
    requires |flags| == |table| && i < |table| && Descends(table, {self}, i)
    requires forall j: nat | j < |table| && ParentMarked(table, self, flags, j) :: flags[j]
    ensures flags[i]
  {
    var chain :| Chain(table, {self}, chain) && chain[|chain| - 1] == i;
    var marked := set j: nat | j < |table| && flags[j];
    forall j: nat | j < |table| && table[j].ppid in {self} ensures j in marked { assert ParentMarked(table, self, flags, j); }
    forall j: nat, p: nat | j < |table| && p in marked && p < |table| && table[j].ppid == table[p].pid ensures j in marked {
      assert ParentMarked(table, self, flags, j);
    }
    ClosedHoldsAll(table, {self}, marked, chain);
  }
}
