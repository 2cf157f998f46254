/** `validateProgram`'s checks on ids and dependencies, and its depth-first cycle search. */
module Validator {
  import opened DependencyGraph

  datatype Issue =
    | InvalidCount
    | InvalidId(at: nat)
    | DuplicateId(at: nat)
    | UnsupportedOpcode(at: nat)
    | TooManyDependencies(at: nat)
    | InvalidReference(at: nat, dependency: nat)
    | DuplicateDependency(at: nat, dependency: nat)
    | UnknownReference(at: nat, id: Id)
    | DependencyCycle(trail: seq<Id>)

  /** An entry that survived the opcode lookup: its id and its `dependsOn` strings. */
  datatype Parsed = Parsed(id: Id, dependsOn: seq<Id>)

  datatype Colour = Visiting | Visited

  /** The reported trail runs back into itself: from some point on it is a cycle of the graph. */
  ghost predicate ClosesCycle(g: Graph, trail: seq<Id>) {
    exists k :: 0 <= k < |trail| && Cycle(g, trail[k..])
  }

  /** A later entry with the same id replaces the dependencies of an earlier one. */
  function GraphOf(parsed: seq<Parsed>): Graph {
    if parsed == [] then map[]
    else var last := parsed[|parsed| - 1]; GraphOf(parsed[..|parsed| - 1])[last.id := last.dependsOn]
  }

  /** Visited ids are finished, and those being visited are on the stack. */
  ghost predicate TrueColours(state: map<Id, Colour>, finished: seq<Id>, stack: seq<Id>) {
    && (forall v :: v in finished <==> v in state && state[v] == Visited)
    && (forall v :: v in stack <==> v in state && state[v] == Visiting)
  }

  lemma ColourOf(state: map<Id, Colour>, finished: seq<Id>, stack: seq<Id>, id: Id)
    requires TrueColours(state, finished, stack)
    ensures id in finished <==> id in state && state[id] == Visited
    ensures id in stack <==> id in state && state[id] == Visiting
    ensures id !in state ==> TrueColours(state[id := Visiting], finished, stack + [id])
  {
  }

  lemma Leave(state: map<Id, Colour>, finished: seq<Id>, stack: seq<Id>, id: Id)
    requires TrueColours(state, finished, stack + [id]) && id !in stack
    ensures TrueColours(state[id := Visited], finished + [id], stack)
  {
    forall v ensures v in stack + [id] <==> v in stack || v == id {}
  }

  lemma WalkOn(g: Graph, stack: seq<Id>, id: Id)
    requires id in g && (stack != [] ==> Walk(g, stack) && Edge(g, stack[|stack| - 1], id))
    ensures Walk(g, stack + [id])
  {
    var trail := stack + [id];
    assert forall m | 0 <= m < |trail| - 1 :: Edge(g, trail[m], trail[m + 1]);
  }

  lemma FoundCycle(g: Graph, stack: seq<Id>, id: Id)
    requires id in g && id in stack && Walk(g, stack) && Edge(g, stack[|stack| - 1], id)
    ensures ClosesCycle(g, stack + [id])
  {
    var trail := stack + [id];
    var k :| 0 <= k < |stack| && stack[k] == id;
    WalkOn(g, stack, id);
    assert Cycle(g, trail[k..]);
  }

  /** The depth-first search of `detectCycles`: `state` colours ids, `issues` is appended to. */
  class CycleDetector {
    const graph: Graph
    var state: map<Id, Colour>
    var issues: seq<Issue>
    ghost const before: seq<Issue>
    ghost var finished: seq<Id>

    constructor (graph: Graph, issues: seq<Issue>)
      ensures Valid([]) && state == map[]
      ensures this.graph == graph && this.issues == before == issues && finished == []
    {
      this.graph := graph;
      this.state := map[];
      this.issues := issues;
      this.before := issues;
      this.finished := [];
    }

    ghost predicate Valid(stack: seq<Id>)
      reads this
    {
      && before <= issues
      && (forall k | |before| <= k < |issues| :: issues[k].DependencyCycle? && ClosesCycle(graph, issues[k].trail))
      && state.Keys <= graph.Keys
      && TrueColours(state, finished, stack)
      && (stack != [] ==> Walk(graph, stack))
      && (issues == before ==> DependenciesFirst(graph, finished))
    }

    method Visit(id: Id, stack: seq<Id>)
      requires Valid(stack) && id in graph
      requires stack != [] ==> Edge(graph, stack[|stack| - 1], id)
      modifies this
      ensures Valid(stack)
      ensures old(issues) <= issues && old(finished) <= finished && old(state).Keys <= state.Keys
      ensures id in state && (issues == before ==> id in finished)
      decreases graph.Keys - state.Keys
    {
      hide ClosesCycle, Walk, DependenciesFirst, TrueColours;
      ColourOf(state, finished, stack, id);
      if id in state && state[id] == Visiting {
        FoundCycle(graph, stack, id);
        issues := issues + [DependencyCycle(stack + [id])];
        return;
      }
      if id in state && state[id] == Visited { return; }
      state := state[id := Visiting];
      var inner := stack + [id];
      WalkOn(graph, stack, id);
      var dependencies := graph[id];
      for k := 0 to |dependencies|
        invariant Valid(inner)
        invariant old(issues) <= issues && old(finished) <= finished
        invariant old(state).Keys + {id} <= state.Keys
        invariant issues == before ==> forall m | 0 <= m < k && dependencies[m] in graph :: dependencies[m] in finished
      {
        if dependencies[k] in graph {
          Visit(dependencies[k], inner);
        }
      }
      if issues == before { AppendReady(graph, finished, id); }
      Leave(state, finished, stack, id);
      state := state[id := Visited];
      finished := finished + [id];
    }
  }

  /** `detectCycles` reports something exactly when the graph has a cycle, and every trail it
      reports ends in one. */
  method DetectCycles(parsed: seq<Parsed>, issues: seq<Issue>) returns (all: seq<Issue>)
    ensures issues <= all
    ensures all == issues <==> Acyclic(GraphOf(parsed))
    ensures forall k | |issues| <= k < |all| :: all[k].DependencyCycle? && ClosesCycle(GraphOf(parsed), all[k].trail)
  {
    var graph: Graph, order: seq<Id> := map[], [];
    for k := 0 to |parsed|
      invariant graph == GraphOf(parsed[..k])
      invariant forall v :: v in order <==> v in graph
    {
      if parsed[k].id !in graph { order := order + [parsed[k].id]; }
      graph := graph[parsed[k].id := parsed[k].dependsOn];
      assert parsed[..k + 1][..k] == parsed[..k];
    }
    assert parsed[..|parsed|] == parsed;
    var search := new CycleDetector(graph, issues);
    for k := 0 to |order|
      invariant fresh(search) && search.graph == graph && search.before == issues && search.Valid([])
      invariant search.issues == issues ==> forall m | 0 <= m < k :: order[m] in search.finished
    {
      search.Visit(order[k], []);
    }
    all := search.issues;
    if all == issues {
      OrderedIsAcyclic(graph, search.finished);
    } else {
      assert ClosesCycle(graph, all[|issues|].trail);
    }
  }

  const MAX_INSTRUCTIONS := 256
  const MAX_DEPENDENCIES := 64

  /** The fields of a raw instruction these checks read; `knownOpcode` is the registry lookup. */
  datatype Raw = Raw(id: string, knownOpcode: bool, dependsOn: seq<string>)

  predicate IdHead(c: char) {
    'A' <= c <= 'Z' || 'a' <= c <= 'z'
  }

  predicate IdTail(c: char) {
    IdHead(c) || '0' <= c <= '9' || c in ['.', '_', ':', '-']
  }

  predicate ValidId(s: string) {
    1 <= |s| <= 128 && IdHead(s[0]) && forall k | 1 <= k < |s| :: IdTail(s[k])
  }

  function Decimal(n: nat): string {
    var digit := [('0' as int + n % 10) as char];
    if n < 10 then digit else Decimal(n / 10) + digit
  }

  /** A malformed id is stood in for by the instruction's position. */
  function IdAt(raw: seq<Raw>, k: nat): Id
    requires k < |raw|
  {
    if ValidId(raw[k].id) then raw[k].id else "#" + Decimal(k)
  }

  function Read(s: string): int {
    if s == "" then 0 else Read(s[..|s| - 1]) * 10 + (s[|s| - 1] as int - '0' as int)
  }

  lemma {:induction false} DecimalIsRead(n: nat)
    ensures Read(Decimal(n)) == n && Decimal(n) != ""
  {
    var digit := [('0' as int + n % 10) as char];
    if n < 10 {
      assert digit[..0] == "";
    } else {
      DecimalIsRead(n / 10);
      assert Decimal(n) == Decimal(n / 10) + digit;
      assert (Decimal(n / 10) + digit)[..|Decimal(n / 10)|] == Decimal(n / 10);
    }
  }

  /** What stands in for a malformed id is no other instruction's id: ids clash exactly where two valid ones are equal. */
  lemma StandInsAreApart(raw: seq<Raw>, k: nat)
    requires k < |raw|
    ensures forall j | 0 <= j < k :: IdAt(raw, j) == IdAt(raw, k) <==> ValidId(raw[k].id) && raw[j].id == raw[k].id
  {
    forall j | 0 <= j < k ensures IdAt(raw, j) == IdAt(raw, k) <==> ValidId(raw[k].id) && raw[j].id == raw[k].id {
      DecimalIsRead(j);
      DecimalIsRead(k);
      assert ("#" + Decimal(j))[1..] == Decimal(j) && ("#" + Decimal(k))[1..] == Decimal(k);
    }
  }

  /** Ids by their character codes: letters, then also `-`, `.`, digits, `:` and `_`. */
  lemma IdsExactly(s: string)
    ensures ValidId(s) <==>
            && 1 <= |s| <= 128 && (65 <= s[0] as int <= 90 || 97 <= s[0] as int <= 122)
            && forall k | 1 <= k < |s| :: var code := s[k] as int; 65 <= code <= 90 || 97 <= code <= 122 || 48 <= code <= 58 || code in {45, 46, 95}
  {
  }

  function Entries(raw: seq<Raw>): seq<Parsed> {
    if raw == [] then []
    else
      var n := |raw| - 1;
      Entries(raw[..n]) + if raw[n].knownOpcode then [Parsed(IdAt(raw, n), raw[n].dependsOn)] else []
  }

  predicate Distinct(s: seq<string>) {
    forall i, j | 0 <= i < j < |s| :: s[i] != s[j]
  }

  predicate DependenciesOk(s: seq<string>) {
    (forall d | d in s :: ValidId(d)) && Distinct(s)
  }

  lemma OneMoreDependency(s: seq<string>, d: nat)
    requires d < |s|
    ensures DependenciesOk(s[..d + 1]) <==> DependenciesOk(s[..d]) && ValidId(s[d]) && s[d] !in s[..d]
  {
    var front := s[..d];
    assert s[..d + 1] == front + [s[d]];
    if DependenciesOk(s[..d + 1]) {
      assert forall j | 0 <= j < d :: s[..d + 1][j] == front[j];
      assert s[..d + 1][d] == s[d];
    }
  }

  ghost predicate InstructionOk(raw: seq<Raw>, k: nat)
    requires k < |raw|
  {
    && ValidId(raw[k].id)
    && (forall j | 0 <= j < k :: IdAt(raw, j) != IdAt(raw, k))
    && raw[k].knownOpcode
    && |raw[k].dependsOn| <= MAX_DEPENDENCIES
    && DependenciesOk(raw[k].dependsOn)
  }

  /** The issues an instruction deserves, as far as its first `n` dependencies. */
  predicate Deserved(raw: seq<Raw>, k: nat, n: nat, issue: Issue)
    requires k < |raw| && n <= |raw[k].dependsOn|
  {
    var r := raw[k];
    match issue
    case InvalidId(at) => at == k && !ValidId(r.id)
    case DuplicateId(at) => at == k && ValidId(r.id) && exists j :: 0 <= j < k && raw[j].id == r.id
    case UnsupportedOpcode(at) => at == k && !r.knownOpcode
    case TooManyDependencies(at) => at == k && r.knownOpcode && |r.dependsOn| > MAX_DEPENDENCIES
    case InvalidReference(at, d) => at == k && r.knownOpcode && d < n && !ValidId(r.dependsOn[d])
    case DuplicateDependency(at, d) => at == k && r.knownOpcode && d < n && ValidId(r.dependsOn[d]) && r.dependsOn[d] in r.dependsOn[..d]
    case _ => false
  }

  /** What is wrong with a program, apart from cycles. An unknown reference is numbered among the entries that are left. */
  ghost predicate Justified(raw: seq<Raw>, issue: Issue) {
    match issue
    case InvalidCount => |raw| == 0 || |raw| > MAX_INSTRUCTIONS
    case UnknownReference(at, id) => at < |Entries(raw)| && id in Entries(raw)[at].dependsOn && !Declared(raw, id)
    case DependencyCycle(_) => false
    case _ => issue.at < |raw| && Deserved(raw, issue.at, |raw[issue.at].dependsOn|, issue)
  }

  ghost predicate Declared(raw: seq<Raw>, id: Id) {
    exists j :: 0 <= j < |raw| && IdAt(raw, j) == id
  }

  /** What the validator demands of ids and dependencies. */
  ghost predicate WellFormed(raw: seq<Raw>) {
    && 1 <= |raw| <= MAX_INSTRUCTIONS
    && (forall k | 0 <= k < |raw| :: ValidId(raw[k].id) && raw[k].knownOpcode)
    && (forall j, k | 0 <= j < k < |raw| :: raw[j].id != raw[k].id)
    && (forall k | 0 <= k < |raw| :: |raw[k].dependsOn| <= MAX_DEPENDENCIES && Distinct(raw[k].dependsOn))
    && (forall k, d | 0 <= k < |raw| && d in raw[k].dependsOn :: ValidId(d) && Declared(raw, d))
    && Acyclic(GraphOf(Entries(raw)))
  }

  method CheckInstruction(raw: seq<Raw>, k: nat, ids: set<Id>) returns (found: seq<Issue>)
    requires k < |raw| && ids == set j | 0 <= j < k :: IdAt(raw, j)
    ensures found == [] <==> InstructionOk(raw, k)
    ensures forall issue: Issue :: issue in found <==> Deserved(raw, k, |raw[k].dependsOn|, issue)
  {
    StandInsAreApart(raw, k);
    hide ValidId, DependenciesOk, IdAt;
    found := [];
    if !ValidId(raw[k].id) { found := found + [InvalidId(k)]; }
    if IdAt(raw, k) in ids { found := found + [DuplicateId(k)]; }
    if !raw[k].knownOpcode { return found + [UnsupportedOpcode(k)]; }
    if |raw[k].dependsOn| > MAX_DEPENDENCIES { found := found + [TooManyDependencies(k)]; }
    var references := CheckDependencies(raw, k);
    found := found + references;
  }

  predicate AboutADependency(issue: Issue) {
    issue.InvalidReference? || issue.DuplicateDependency?
  }

  /** The loop over the dependencies of an instruction. */
  method CheckDependencies(raw: seq<Raw>, k: nat) returns (found: seq<Issue>)
    requires k < |raw| && raw[k].knownOpcode
    ensures found == [] <==> DependenciesOk(raw[k].dependsOn)
    ensures forall issue :: issue in found <==> AboutADependency(issue) && Deserved(raw, k, |raw[k].dependsOn|, issue)
  {
    var dependencies := raw[k].dependsOn;
    assert DependenciesOk(dependencies[..0]);
    hide ValidId, DependenciesOk, IdAt;
    found := [];
    var seen: set<Id> := {};
    for d := 0 to |dependencies|
      invariant forall x :: x in seen <==> x in dependencies[..d]
      invariant found == [] <==> DependenciesOk(dependencies[..d])
      invariant forall issue :: issue in found <==> AboutADependency(issue) && Deserved(raw, k, d, issue)
    {
      OneMoreDependency(dependencies, d);
      assert dependencies[..d + 1] == dependencies[..d] + [dependencies[d]];
      if !ValidId(dependencies[d]) {
        found := found + [InvalidReference(k, d)];
      } else if dependencies[d] in seen {
        found := found + [DuplicateDependency(k, d)];
      }
      seen := seen + {dependencies[d]};
    }
    assert dependencies[..|dependencies|] == dependencies;
  }

  method CheckReferences(parsed: seq<Parsed>, ids: set<Id>) returns (found: seq<Issue>)
    ensures found == [] <==> forall k, d | 0 <= k < |parsed| && d in parsed[k].dependsOn :: d in ids
    ensures forall issue: Issue :: issue in found <==>
              issue.UnknownReference? && issue.at < |parsed| && issue.id in parsed[issue.at].dependsOn && issue.id !in ids
  {
    found := [];
    for k := 0 to |parsed|
      invariant found == [] <==> forall j, d | 0 <= j < k && d in parsed[j].dependsOn :: d in ids
      invariant forall issue: Issue :: issue in found <==>
                  issue.UnknownReference? && issue.at < k && issue.id in parsed[issue.at].dependsOn && issue.id !in ids
    {
      var dependencies := parsed[k].dependsOn;
      ghost var start := found;
      for d := 0 to |dependencies|
        invariant start <= found
        invariant found == start <==> forall j | 0 <= j < d :: dependencies[j] in ids
        invariant forall issue: Issue :: issue in found <==>
                    issue in start || (issue.UnknownReference? && issue.at == k && issue.id in dependencies[..d] && issue.id !in ids)
      {
        assert dependencies[..d + 1] == dependencies[..d] + [dependencies[d]];
        if dependencies[d] !in ids { found := found + [UnknownReference(k, dependencies[d])]; }
      }
    }
  }

  ghost predicate DeservedBySome(raw: seq<Raw>, n: nat, issue: Issue)
    requires n <= |raw|
  {
    exists k :: 0 <= k < n && Deserved(raw, k, |raw[k].dependsOn|, issue)
  }

  method CheckInstructions(raw: seq<Raw>, start: seq<Issue>) returns (issues: seq<Issue>, parsed: seq<Parsed>, ids: set<Id>)
    ensures parsed == Entries(raw) && ids == (set j | 0 <= j < |raw| :: IdAt(raw, j))
    ensures start <= issues && (issues == start <==> AllOk(raw))
    ensures forall issue :: issue in issues <==> issue in start || DeservedBySome(raw, |raw|, issue)
  {
    issues, parsed, ids := start, [], {};
    for k := 0 to |raw|
      invariant start <= issues
      invariant ids == set j | 0 <= j < k :: IdAt(raw, j)
      invariant parsed == Entries(raw[..k])
      invariant issues == start <==> forall j | 0 <= j < k :: InstructionOk(raw, j)
      invariant forall issue :: issue in issues <==> issue in start || DeservedBySome(raw, k, issue)
    {
      var found := CheckInstruction(raw, k, ids);
      issues := issues + found;
      ids := ids + {IdAt(raw, k)};
      assert raw[..k + 1][..k] == raw[..k];
      if raw[k].knownOpcode { parsed := parsed + [Parsed(IdAt(raw, k), raw[k].dependsOn)]; }
    }
    assert raw[..|raw|] == raw;
  }

  /** No issue is left exactly when the program is well formed; every issue is reported exactly when it is justified, and
      every cycle that is reported is one. */
  method ValidateProgram(raw: seq<Raw>) returns (issues: seq<Issue>)
    ensures issues == [] <==> WellFormed(raw)
    ensures forall issue: Issue :: if issue.DependencyCycle? then issue in issues ==> ClosesCycle(GraphOf(Entries(raw)), issue.trail)
                            else issue in issues <==> Justified(raw, issue)
  {
    issues := [];
    if |raw| == 0 || |raw| > MAX_INSTRUCTIONS { issues := issues + [InvalidCount]; }
    var parsed, ids;
    ghost var counted := issues;
    issues, parsed, ids := CheckInstructions(raw, issues);
    ghost var instructions := issues;
    var unknown := CheckReferences(parsed, ids);
    DeclaredIds(raw, ids);
    issues := issues + unknown;
    ghost var before := issues;
    IssuesAreJustified(raw, counted, instructions, unknown);
    issues := DetectCycles(parsed, issues);
    CyclesComeLast(raw, before, issues);
    if issues == [] { PassingIsWellFormed(raw); }
    if WellFormed(raw) { WellFormedPasses(raw); }
  }

  lemma IssuesAreJustified(raw: seq<Raw>, counted: seq<Issue>, instructions: seq<Issue>, unknown: seq<Issue>)
    requires counted == if |raw| == 0 || |raw| > MAX_INSTRUCTIONS then [InvalidCount] else []
    requires forall issue :: issue in instructions <==> issue in counted || DeservedBySome(raw, |raw|, issue)
    requires var parsed := Entries(raw);
             forall issue: Issue :: issue in unknown <==>
               issue.UnknownReference? && issue.at < |parsed| && issue.id in parsed[issue.at].dependsOn && !Declared(raw, issue.id)
    ensures forall issue :: issue in instructions + unknown <==> Justified(raw, issue)
  {
    hide Entries, IdAt, ValidId;
    forall issue ensures issue in instructions + unknown <==> Justified(raw, issue) {
      if DeservedBySome(raw, |raw|, issue) {
        var k :| 0 <= k < |raw| && Deserved(raw, k, |raw[k].dependsOn|, issue);
      }
    }
  }

  lemma CyclesComeLast(raw: seq<Raw>, before: seq<Issue>, all: seq<Issue>)
    requires before <= all && forall issue :: issue in before <==> Justified(raw, issue)
    requires forall k | |before| <= k < |all| :: all[k].DependencyCycle? && ClosesCycle(GraphOf(Entries(raw)), all[k].trail)
    ensures forall issue: Issue :: if issue.DependencyCycle? then issue in all ==> ClosesCycle(GraphOf(Entries(raw)), issue.trail)
                                   else issue in all <==> Justified(raw, issue)
  {
    hide ClosesCycle, Justified;
    forall issue: Issue | issue in all ensures Justified(raw, issue) || (issue.DependencyCycle? && ClosesCycle(GraphOf(Entries(raw)), issue.trail)) {
      var k :| 0 <= k < |all| && all[k] == issue;
      if k < |before| { assert before[k] == issue; }
    }
    forall issue: Issue ensures issue.DependencyCycle? ==> !Justified(raw, issue) { CyclesAreApart(raw, issue); }
    assert forall issue | issue in before :: issue in all by {
      forall issue | issue in before ensures issue in all {
        var k :| 0 <= k < |before| && before[k] == issue;
        assert all[k] == issue;
      }
    }
  }

  lemma CyclesAreApart(raw: seq<Raw>, issue: Issue)
    ensures issue.DependencyCycle? ==> !Justified(raw, issue)
  {
  }

  lemma DeclaredIds(raw: seq<Raw>, ids: set<Id>)
    requires ids == set j | 0 <= j < |raw| :: IdAt(raw, j)
    ensures ReferencesOk(raw, Entries(raw)) <==> forall k, d | 0 <= k < |Entries(raw)| && d in Entries(raw)[k].dependsOn :: d in ids
  {
    assert forall id :: id in ids <==> Declared(raw, id);
  }

  ghost predicate AllOk(raw: seq<Raw>) {
    forall k | 0 <= k < |raw| :: InstructionOk(raw, k)
  }

  ghost predicate ReferencesOk(raw: seq<Raw>, parsed: seq<Parsed>) {
    forall k, d | 0 <= k < |parsed| && d in parsed[k].dependsOn :: Declared(raw, d)
  }

  lemma {:induction false} PassingIsWellFormed(raw: seq<Raw>)
    requires 1 <= |raw| <= MAX_INSTRUCTIONS && AllOk(raw)
    requires ReferencesOk(raw, Entries(raw)) && Acyclic(GraphOf(Entries(raw)))
    ensures WellFormed(raw)
  {
    assert forall k | 0 <= k < |raw| :: InstructionOk(raw, k) && ValidId(raw[k].id);
    EntriesOfKnown(raw);
    forall k, d | 0 <= k < |raw| && d in raw[k].dependsOn ensures ValidId(d) && Declared(raw, d) {
      assert InstructionOk(raw, k) && d in Entries(raw)[k].dependsOn;
    }
    forall j, k | 0 <= j < k < |raw| ensures raw[j].id != raw[k].id {
      assert InstructionOk(raw, k) && IdAt(raw, j) != IdAt(raw, k);
    }
  }

  lemma {:induction false} WellFormedPasses(raw: seq<Raw>)
    requires WellFormed(raw)
    ensures AllOk(raw) && ReferencesOk(raw, Entries(raw))
  {
    var parsed := Entries(raw);
    EntriesOfKnown(raw);
    forall k | 0 <= k < |raw| ensures InstructionOk(raw, k) {
      assert forall j | 0 <= j < k :: raw[j].id != raw[k].id;
      assert forall d | d in raw[k].dependsOn :: ValidId(d);
    }
    forall k, d | 0 <= k < |parsed| && d in parsed[k].dependsOn ensures Declared(raw, d) {
      assert d in raw[k].dependsOn;
    }
  }

  lemma {:induction false} EntriesOfKnown(raw: seq<Raw>)
    requires forall k | 0 <= k < |raw| :: ValidId(raw[k].id) && raw[k].knownOpcode
    ensures |Entries(raw)| == |raw|
    ensures forall k | 0 <= k < |raw| :: Entries(raw)[k] == Parsed(raw[k].id, raw[k].dependsOn)
  {
    if raw != [] { EntriesOfKnown(raw[..|raw| - 1]); }
  }

  /** With distinct ids the graph is a faithful table of the entries. */
  lemma {:induction false} GraphLookup(parsed: seq<Parsed>)
    requires forall j, k | 0 <= j < k < |parsed| :: parsed[j].id != parsed[k].id
    ensures forall k | 0 <= k < |parsed| :: parsed[k].id in GraphOf(parsed) && GraphOf(parsed)[parsed[k].id] == parsed[k].dependsOn
    ensures forall v :: v in GraphOf(parsed) ==> exists k :: 0 <= k < |parsed| && parsed[k].id == v
  {
    if parsed != [] {
      var init := parsed[..|parsed| - 1];
      GraphLookup(init);
      assert forall k | 0 <= k < |init| :: parsed[k] == init[k] && parsed[k].id != parsed[|parsed| - 1].id;
      forall v | v in GraphOf(parsed) ensures exists k :: 0 <= k < |parsed| && parsed[k].id == v {
        if v in GraphOf(init) {
          var k :| 0 <= k < |init| && init[k].id == v;
          assert parsed[k].id == v;
        } else {
          assert parsed[|parsed| - 1].id == v;
        }
      }
    }
  }
}
