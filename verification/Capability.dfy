/** Capabilities (`capability/check.ts`, `path-utils.ts`, and `attenuate` in `domain.ts`): containment of
    resolved paths, admission, attenuation. A list without repetitions is a set. */
module Capability {

  datatype Option<T> = None | Some(value: T)

  // ---- paths

  type Path = string

  /** What `realpath` returns: absolute, without a trailing separator. */
  predicate Resolved(p: Path) {
    p == "/" || (|p| > 1 && p[0] == '/' && p[|p| - 1] != '/')
  }

  /** A fixed file system: every literal path has one resolved form. */
  ghost predicate FileSystem(resolve: Path -> Path) {
    forall p :: Resolved(resolve(p)) && resolve(resolve(p)) == resolve(p)
  }

  /** `isPathContained` once both sides are resolved. */
  predicate Contains(parent: Path, child: Path) {
    parent == child || parent == "/" || (if parent != "" && parent[|parent| - 1] == '/' then parent else parent + "/") <= child
  }

  predicate IsPathContained(resolve: Path -> Path, parent: Path, child: Path) {
    Contains(resolve(parent), resolve(child))
  }

  /** Containment is a partial order on resolved paths. */
  lemma ContainmentIsAPartialOrder(a: Path, b: Path, c: Path)
    requires Resolved(a) && Resolved(b) && Resolved(c)
    ensures Contains(a, a)
    ensures Contains(a, b) && Contains(b, c) ==> Contains(a, c)
    ensures Contains(a, b) && Contains(b, a) ==> a == b
  {
    if a != b && b != c && Contains(a, b) && Contains(b, c) && a != "/" {
      assert a + "/" <= b && b != "/" && b + "/" <= c;
      assert a + "/" <= b[..|a| + 1] && b[..|a| + 1] == c[..|a| + 1];
    }
  }

  /** Segments, not characters: what is contained but different goes on with a separator. */
  lemma ContainmentIsBySegments(a: Path, b: Path)
    requires Resolved(a) && Resolved(b) && a != "/"
    ensures Contains(a, b) <==> a == b || (|b| > |a| && b[..|a|] == a && b[|a|] == '/')
  {
    if |b| > |a| && b[..|a|] == a && b[|a|] == '/' { assert b[..|a| + 1] == a + "/"; }
    if a != b && Contains(a, b) { assert b[..|a| + 1] == a + "/"; }
  }

  // ---- capabilities

  datatype Limits = Limits(cpuMs: nat, memoryBytes: nat, outputBytes: nat, concurrentOps: nat, processes: nat)
  datatype PartialLimits = PartialLimits(
    cpuMs: Option<int>, memoryBytes: Option<int>, outputBytes: Option<int>, concurrentOps: Option<int>, processes: Option<int>)

  datatype Scope = Scope(write: set<Path>, exclusive: set<string>, opcodes: set<string>, workspaces: set<string>, paths: set<Path>, secrets: set<string>)
  datatype ScopeInput = ScopeInput(
    write: Option<set<Path>>, exclusive: Option<set<string>>, opcodes: Option<set<string>>, workspaces: Option<set<string>>,
    paths: Option<set<Path>>, secrets: Option<set<string>>)

  /** Capabilities are numbered in order of creation, so a parent has a smaller number. */
  datatype Cap = Cap(
    domain: string, parent: Option<nat>, scope: Scope, policyVersion: string, limits: Limits,
    expiresAt: int, epoch: int, revoked: bool)

  datatype Request = Request(
    domain: string, epoch: int, now: int, resources: Option<set<string>>, mutationRoots: Option<set<Path>>,
    opcode: Option<string>, workspace: Option<string>, secretRefs: Option<set<string>>, limits: PartialLimits,
    concurrentOps: Option<int>, processes: Option<int>, policyVersion: Option<string>)

  datatype Reason =
    | Expired | Revoked | EpochMismatch | OutOfScopeResource | OutOfScopePath | OutOfScopeOpcode | OutOfScopeWorkspace
    | OutOfScopeSecret | BudgetExceeded | ConcurrencyExceeded | PolicyMismatch | DomainMismatch | AttenuationWidened
  datatype Verdict = Admitted(resources: set<string>, roots: set<Path>) | Rejected(reason: Reason)

  // ---- admission

  function ResolveAll(resolve: Path -> Path, paths: set<Path>): set<Path> {
    set p | p in paths :: resolve(p)
  }

  function NormalizeScope(resolve: Path -> Path, s: Scope): Scope {
    s.(write := ResolveAll(resolve, s.write), paths := ResolveAll(resolve, s.paths))
  }

  /** The walk up the ancestors: why one of them rejects, if one does. */
  function AncestorRejects(caps: seq<Cap>, id: nat, epoch: int, now: int): Option<Reason>
    requires id < |caps|
    decreases id
  {
    match caps[id].parent
    case None => None
    case Some(p) =>
      if p >= |caps| || caps[p].revoked then Some(Revoked)
      else if caps[p].epoch != epoch then Some(EpochMismatch)
      else if caps[p].expiresAt <= now then Some(Expired)
      else if p < id then AncestorRejects(caps, p, epoch, now) else None
  }

  predicate Exceeds(requested: PartialLimits, limits: Limits) {
    || (requested.cpuMs.Some? && requested.cpuMs.value > limits.cpuMs)
    || (requested.memoryBytes.Some? && requested.memoryBytes.value > limits.memoryBytes)
    || (requested.outputBytes.Some? && requested.outputBytes.value > limits.outputBytes)
    || (requested.concurrentOps.Some? && requested.concurrentOps.value > limits.concurrentOps)
    || (requested.processes.Some? && requested.processes.value > limits.processes)
  }

  predicate AllContained(resolve: Path -> Path, roots: set<Path>, paths: set<Path>) {
    forall r | r in roots :: exists p :: p in paths && IsPathContained(resolve, p, r)
  }

  /** The checks on the capability itself, in order. */
  function OwnRejects(cap: Cap, r: Request): Option<Reason> {
    if cap.domain != r.domain then Some(DomainMismatch)
    else if cap.epoch != r.epoch then Some(EpochMismatch)
    else if cap.expiresAt <= r.now then Some(Expired)
    else if cap.revoked then Some(Revoked)
    else if r.policyVersion.Some? && cap.policyVersion != r.policyVersion.value then Some(PolicyMismatch)
    else None
  }

  function ScopeRejects(resolve: Path -> Path, scope: Scope, limits: Limits, r: Request): Option<Reason> {
    if r.opcode.Some? && r.opcode.value !in scope.opcodes then Some(OutOfScopeOpcode)
    else if r.workspace.Some? && scope.workspaces != {} && r.workspace.value !in scope.workspaces then Some(OutOfScopeWorkspace)
    else if r.secretRefs.Some? && !(r.secretRefs.value <= scope.secrets) then Some(OutOfScopeSecret)
    else if Exceeds(r.limits, limits) then Some(BudgetExceeded)
    else if r.concurrentOps.Some? && r.concurrentOps.value >= limits.concurrentOps then Some(ConcurrencyExceeded)
    else if r.opcode == Some("proc.spawn") && r.processes.Some? && r.processes.value >= limits.processes then Some(ConcurrencyExceeded)
    else if r.resources.Some? && !(r.resources.value <= scope.exclusive) then Some(OutOfScopeResource)
    else if r.mutationRoots.Some? && !AllContained(resolve, ResolveAll(resolve, r.mutationRoots.value), scope.paths) then Some(OutOfScopePath)
    else None
  }

  /** `checkCapabilityAdmission` */
  function Admit(caps: seq<Cap>, resolve: Path -> Path, id: nat, r: Request): Verdict {
    if id >= |caps| then Rejected(Revoked)
    else
      var cap := caps[id];
      var scope := NormalizeScope(resolve, cap.scope);
      if OwnRejects(cap, r).Some? then Rejected(OwnRejects(cap, r).value)
      else if AncestorRejects(caps, id, r.epoch, r.now).Some? then Rejected(AncestorRejects(caps, id, r.epoch, r.now).value)
      else if ScopeRejects(resolve, scope, cap.limits, r).Some? then Rejected(ScopeRejects(resolve, scope, cap.limits, r).value)
      else Admitted(if r.resources.Some? && r.resources.value != {} then r.resources.value else scope.exclusive,
                    if r.mutationRoots.Some? && r.mutationRoots.value != {} then ResolveAll(resolve, r.mutationRoots.value) else scope.paths)
  }

  // ---- attenuation

  function Chosen<T>(requested: Option<T>, parent: T): T {
    if requested.Some? then requested.value else parent
  }

  /** `validateScopeNarrowing`, with `None` where it throws. */
  function Narrow(resolve: Path -> Path, parent: Scope, input: ScopeInput): Option<Scope> {
    var p := NormalizeScope(resolve, parent);
    var requested := if input.paths.Some? then input.paths else input.write;
    var paths := if requested.None? then p.paths else ResolveAll(resolve, requested.value);
    var exclusive, opcodes := Chosen(input.exclusive, p.exclusive), Chosen(input.opcodes, p.opcodes);
    var workspaces, secrets := Chosen(input.workspaces, p.workspaces), Chosen(input.secrets, p.secrets);
    if !AllContained(resolve, paths, p.paths) || !(exclusive <= p.exclusive) || !(opcodes <= p.opcodes)
       || (p.workspaces != {} && (!(workspaces <= p.workspaces) || input.workspaces == Some({})))
       || !(secrets <= p.secrets) then None
    else Some(Scope(if requested.None? then p.write else paths, exclusive, opcodes, workspaces, paths, secrets))
  }

  function Or(requested: Option<int>, limit: nat): int {
    if requested.Some? then requested.value else limit
  }

  /** `narrowCapabilityLimits`: natural numbers, none above the parent's. */
  function NarrowLimits(parent: Limits, requested: PartialLimits): Option<Limits> {
    var cpu, memory, output, ops, processes :=
      Or(requested.cpuMs, parent.cpuMs), Or(requested.memoryBytes, parent.memoryBytes), Or(requested.outputBytes, parent.outputBytes),
      Or(requested.concurrentOps, parent.concurrentOps), Or(requested.processes, parent.processes);
    if 0 <= cpu <= parent.cpuMs && 0 <= memory <= parent.memoryBytes && 0 <= output <= parent.outputBytes
       && 0 <= ops <= parent.concurrentOps && 0 <= processes <= parent.processes
    then Some(Limits(cpu, memory, output, ops, processes)) else None
  }

  const MAX_SAFE_INTEGER := 0x1F_FFFF_FFFF_FFFF
  const DEFAULT_LIMITS := Limits(315_360_000_000, 1_099_511_627_776, 107_374_182_400, 4096, 65_536)

  /** `normalizeCapabilityLimits`, with `None` where it throws. */
  function NormalizeLimits(requested: PartialLimits): Option<Limits> {
    var cpu, memory, output, ops, processes :=
      Or(requested.cpuMs, DEFAULT_LIMITS.cpuMs), Or(requested.memoryBytes, DEFAULT_LIMITS.memoryBytes),
      Or(requested.outputBytes, DEFAULT_LIMITS.outputBytes), Or(requested.concurrentOps, DEFAULT_LIMITS.concurrentOps),
      Or(requested.processes, DEFAULT_LIMITS.processes);
    if 0 <= cpu <= MAX_SAFE_INTEGER && 0 <= memory <= MAX_SAFE_INTEGER && 0 <= output <= MAX_SAFE_INTEGER
       && 0 <= ops <= MAX_SAFE_INTEGER && 0 <= processes <= MAX_SAFE_INTEGER
    then Some(Limits(cpu, memory, output, ops, processes)) else None
  }

  datatype Config = Config(ttlMs: Option<int>, policyVersion: Option<string>, limits: PartialLimits)

  /** `attenuate` by the runtime of `domain`; the parent is looked up in the whole store. */
  function Attenuate(caps: seq<Cap>, resolve: Path -> Path, domain: string, epoch: int, now: int, id: nat, input: ScopeInput, config: Config): Option<Cap> {
    if id >= |caps| then None
    else
      var parent := caps[id];
      if parent.epoch != epoch || parent.revoked || parent.expiresAt <= now || AncestorRejects(caps, id, epoch, now).Some? then None
      else
        var scope, limits := Narrow(resolve, parent.scope, input), NarrowLimits(parent.limits, config.limits);
        if scope.None? || limits.None? || (config.policyVersion.Some? && config.policyVersion.value != parent.policyVersion) then None
        else
          var requested := if config.ttlMs.None? then parent.expiresAt else now + config.ttlMs.value;
          Some(Cap(domain, Some(id), scope.value, parent.policyVersion, limits.value,
                   if requested < parent.expiresAt then requested else parent.expiresAt, epoch, false))
  }

  // ---- order

  /** Every right of the child is one of the parent's; no workspaces means all workspaces. */
  ghost predicate Within(resolve: Path -> Path, child: Cap, parent: Cap) {
    var c, p := NormalizeScope(resolve, child.scope), NormalizeScope(resolve, parent.scope);
    && c.exclusive <= p.exclusive && c.opcodes <= p.opcodes && c.secrets <= p.secrets
    && (p.workspaces != {} ==> c.workspaces != {} && c.workspaces <= p.workspaces)
    && AllContained(resolve, c.paths, p.paths)
    && child.limits.cpuMs <= parent.limits.cpuMs && child.limits.memoryBytes <= parent.limits.memoryBytes
    && child.limits.outputBytes <= parent.limits.outputBytes && child.limits.concurrentOps <= parent.limits.concurrentOps
    && child.limits.processes <= parent.limits.processes
    && child.policyVersion == parent.policyVersion && child.expiresAt <= parent.expiresAt && child.epoch == parent.epoch
  }

  lemma ResolvedTwice(resolve: Path -> Path, paths: set<Path>)
    requires FileSystem(resolve)
    ensures ResolveAll(resolve, ResolveAll(resolve, paths)) == ResolveAll(resolve, paths)
  {
    forall p | p in ResolveAll(resolve, paths) ensures p in ResolveAll(resolve, ResolveAll(resolve, paths)) {
      assert resolve(p) in ResolveAll(resolve, ResolveAll(resolve, paths));
    }
  }

  lemma ContainedTransitively(resolve: Path -> Path, a: set<Path>, b: set<Path>, c: set<Path>)
    requires FileSystem(resolve) && AllContained(resolve, a, b) && AllContained(resolve, b, c)
    ensures AllContained(resolve, a, c)
  {
    forall r | r in a ensures exists p :: p in c && IsPathContained(resolve, p, r) {
      var q :| q in b && IsPathContained(resolve, q, r);
      var p :| p in c && IsPathContained(resolve, p, q);
      ContainmentIsAPartialOrder(resolve(p), resolve(q), resolve(r));
      assert IsPathContained(resolve, p, r);
    }
  }

  lemma AttenuationNarrows(caps: seq<Cap>, resolve: Path -> Path, domain: string, epoch: int, now: int, id: nat, input: ScopeInput, config: Config)
    requires FileSystem(resolve) && Attenuate(caps, resolve, domain, epoch, now, id, input, config).Some?
    ensures Within(resolve, Attenuate(caps, resolve, domain, epoch, now, id, input, config).value, caps[id])
  {
    var child := Attenuate(caps, resolve, domain, epoch, now, id, input, config).value;
    var requested := if input.paths.Some? then input.paths else input.write;
    ResolvedTwice(resolve, if requested.Some? then requested.value else caps[id].scope.paths);
    assert NormalizeScope(resolve, child.scope).paths == child.scope.paths;
  }

  lemma WithinTransitively(resolve: Path -> Path, a: Cap, b: Cap, c: Cap)
    requires FileSystem(resolve) && Within(resolve, a, b) && Within(resolve, b, c)
    ensures Within(resolve, a, c)
  {
    ContainedTransitively(resolve, NormalizeScope(resolve, a.scope).paths, NormalizeScope(resolve, b.scope).paths, NormalizeScope(resolve, c.scope).paths);
  }

  /** What a narrower capability admits, its scope and limits do not make a wider one reject. */
  lemma WiderScopeAdmits(resolve: Path -> Path, child: Cap, parent: Cap, r: Request)
    requires FileSystem(resolve) && Within(resolve, child, parent)
    requires ScopeRejects(resolve, NormalizeScope(resolve, child.scope), child.limits, r).None?
    ensures ScopeRejects(resolve, NormalizeScope(resolve, parent.scope), parent.limits, r).None?
  {
    if r.mutationRoots.Some? {
      ContainedTransitively(resolve, ResolveAll(resolve, r.mutationRoots.value), NormalizeScope(resolve, child.scope).paths, NormalizeScope(resolve, parent.scope).paths);
    }
  }

  // ---- chains

  /** Every capability with a parent is within it. */
  ghost predicate WellAttenuated(resolve: Path -> Path, caps: seq<Cap>) {
    forall i | 0 <= i < |caps| && caps[i].parent.Some? :: caps[i].parent.value < i && Within(resolve, caps[i], caps[caps[i].parent.value])
  }

  predicate Ancestor(caps: seq<Cap>, a: nat, id: nat)
    requires id < |caps|
    decreases id
  {
    a == id || (caps[id].parent.Some? && caps[id].parent.value < id && Ancestor(caps, a, caps[id].parent.value))
  }

  /** A live capability's ancestors are live, and their own ancestors are. */
  lemma {:induction false} LiveAncestors(caps: seq<Cap>, resolve: Path -> Path, a: nat, id: nat, epoch: int, now: int)
    requires FileSystem(resolve) && WellAttenuated(resolve, caps) && id < |caps| && Ancestor(caps, a, id)
    requires AncestorRejects(caps, id, epoch, now).None? && caps[id].epoch == epoch && caps[id].expiresAt > now && !caps[id].revoked
    ensures a < |caps| && AncestorRejects(caps, a, epoch, now).None? && caps[a].epoch == epoch && caps[a].expiresAt > now && !caps[a].revoked
    ensures Within(resolve, caps[id], caps[a])
    decreases id
  {
    if a == id {
      forall r | r in NormalizeScope(resolve, caps[a].scope).paths
        ensures exists p :: p in NormalizeScope(resolve, caps[a].scope).paths && IsPathContained(resolve, p, r)
      {
        assert IsPathContained(resolve, r, r);
      }
    } else {
      LiveAncestors(caps, resolve, a, caps[id].parent.value, epoch, now);
      WithinTransitively(resolve, caps[id], caps[caps[id].parent.value], caps[a]);
    }
  }

  /** Along any chain: what is admitted under a descendant is admitted under an ancestor at that moment,
      exactly when the ancestor belongs to the same domain. */
  lemma AdmissionIsMonotone(caps: seq<Cap>, resolve: Path -> Path, a: nat, id: nat, r: Request)
    requires FileSystem(resolve) && WellAttenuated(resolve, caps) && id < |caps| && Ancestor(caps, a, id)
    requires Admit(caps, resolve, id, r).Admitted?
    ensures a < |caps| && (Admit(caps, resolve, a, r).Admitted? <==> caps[a].domain == caps[id].domain)
  {
    LiveAncestors(caps, resolve, a, id, r.epoch, r.now);
    WiderScopeAdmits(resolve, caps[id], caps[a], r);
  }

  /** Revoking any ancestor, or the capability itself, rejects every request under it. */
  lemma {:induction false} RevocationCascades(caps: seq<Cap>, resolve: Path -> Path, a: nat, id: nat, r: Request)
    requires id < |caps| && Ancestor(caps, a, id) && a < |caps| && caps[a].revoked
    ensures Admit(caps, resolve, id, r).Rejected?
    ensures a != id ==> AncestorRejects(caps, id, r.epoch, r.now).Some?
    decreases id
  {
    if a != id && a != caps[id].parent.value { RevocationCascades(caps, resolve, a, caps[id].parent.value, r); }
  }

  /** `attenuate` does not look at the parent's domain, so a child can live in another one. */
  lemma AttenuationCrossesDomains(caps: seq<Cap>, resolve: Path -> Path, other: string, now: int, id: nat)
    requires FileSystem(resolve) && id < |caps| && !caps[id].revoked && caps[id].expiresAt > now && caps[id].domain != other
    requires AncestorRejects(caps, id, caps[id].epoch, now).None?
    ensures var everything := ScopeInput(None, None, None, None, None, None);
            var child := Attenuate(caps, resolve, other, caps[id].epoch, now, id, everything, Config(None, None, PartialLimits(None, None, None, None, None)));
            child.Some? && child.value.domain != caps[id].domain
  {
    var p := NormalizeScope(resolve, caps[id].scope).paths;
    forall q | q in p ensures exists x :: x in p && IsPathContained(resolve, x, q) { assert IsPathContained(resolve, q, q); }
  }

  // ---- who is admitted, read off the fields

  /** The capability and all it was attenuated from are in force. */
  ghost predicate InForce(caps: seq<Cap>, id: nat, epoch: int, now: int)
    requires id < |caps|
  {
    forall a: nat {:trigger Ancestor(caps, a, id)} | a < |caps| && Ancestor(caps, a, id) ::
      !caps[a].revoked && caps[a].epoch == epoch && caps[a].expiresAt > now
  }

  predicate AtMost(requested: Option<int>, limit: nat) {
    requested.Some? ==> requested.value <= limit
  }

  ghost predicate SomePathHolds(resolve: Path -> Path, paths: set<Path>, root: Path) {
    exists p :: p in paths && Contains(resolve(p), resolve(root))
  }

  /** What a request needs of one capability's scope and limits. */
  ghost predicate WithinScope(resolve: Path -> Path, cap: Cap, r: Request) {
    && (r.opcode.Some? ==> r.opcode.value in cap.scope.opcodes)
    && (r.workspace.Some? ==> cap.scope.workspaces == {} || r.workspace.value in cap.scope.workspaces)
    && (r.secretRefs.Some? ==> forall secret | secret in r.secretRefs.value :: secret in cap.scope.secrets)
    && AtMost(r.limits.cpuMs, cap.limits.cpuMs) && AtMost(r.limits.memoryBytes, cap.limits.memoryBytes)
    && AtMost(r.limits.outputBytes, cap.limits.outputBytes) && AtMost(r.limits.concurrentOps, cap.limits.concurrentOps)
    && AtMost(r.limits.processes, cap.limits.processes)
    && (r.concurrentOps.Some? ==> r.concurrentOps.value < cap.limits.concurrentOps)
    && (r.opcode == Some("proc.spawn") && r.processes.Some? ==> r.processes.value < cap.limits.processes)
    && (r.resources.Some? ==> forall resource | resource in r.resources.value :: resource in cap.scope.exclusive)
    && (r.mutationRoots.Some? ==> forall root | root in r.mutationRoots.value :: SomePathHolds(resolve, cap.scope.paths, root))
  }

  ghost predicate Permitted(caps: seq<Cap>, resolve: Path -> Path, id: nat, r: Request) {
    && id < |caps| && caps[id].domain == r.domain && InForce(caps, id, r.epoch, r.now)
    && (r.policyVersion.Some? ==> r.policyVersion.value == caps[id].policyVersion)
    && WithinScope(resolve, caps[id], r)
  }

  /** Something is wrong that the reason names. */
  ghost predicate Explains(caps: seq<Cap>, resolve: Path -> Path, id: nat, r: Request, reason: Reason) {
    if id >= |caps| then reason.Revoked?
    else
      var cap := caps[id];
      match reason
      case DomainMismatch => cap.domain != r.domain
      case Expired => exists a: nat :: a < |caps| && Ancestor(caps, a, id) && caps[a].expiresAt <= r.now
      case Revoked => exists a: nat :: a < |caps| && Ancestor(caps, a, id) && caps[a].revoked
      case EpochMismatch => exists a: nat :: a < |caps| && Ancestor(caps, a, id) && caps[a].epoch != r.epoch
      case PolicyMismatch => r.policyVersion.Some? && r.policyVersion.value != cap.policyVersion
      case OutOfScopeOpcode => r.opcode.Some? && r.opcode.value !in cap.scope.opcodes
      case OutOfScopeWorkspace => r.workspace.Some? && cap.scope.workspaces != {} && r.workspace.value !in cap.scope.workspaces
      case OutOfScopeSecret => r.secretRefs.Some? && exists secret :: secret in r.secretRefs.value && secret !in cap.scope.secrets
      case BudgetExceeded =>
        !(AtMost(r.limits.cpuMs, cap.limits.cpuMs) && AtMost(r.limits.memoryBytes, cap.limits.memoryBytes)
          && AtMost(r.limits.outputBytes, cap.limits.outputBytes) && AtMost(r.limits.concurrentOps, cap.limits.concurrentOps)
          && AtMost(r.limits.processes, cap.limits.processes))
      case ConcurrencyExceeded =>
        || (r.concurrentOps.Some? && r.concurrentOps.value >= cap.limits.concurrentOps)
        || (r.opcode == Some("proc.spawn") && r.processes.Some? && r.processes.value >= cap.limits.processes)
      case OutOfScopeResource => r.resources.Some? && exists resource :: resource in r.resources.value && resource !in cap.scope.exclusive
      case OutOfScopePath => r.mutationRoots.Some? && exists root :: root in r.mutationRoots.value && !SomePathHolds(resolve, cap.scope.paths, root)
      case AttenuationWidened => false
  }

  ghost predicate ParentsFirst(caps: seq<Cap>) {
    forall i | 0 <= i < |caps| && caps[i].parent.Some? :: caps[i].parent.value < i
  }

  lemma {:induction false} AncestorsInForceExactly(caps: seq<Cap>, id: nat, epoch: int, now: int)
    requires ParentsFirst(caps) && id < |caps|
    ensures var cap := caps[id];
            AncestorRejects(caps, id, epoch, now).None? && !cap.revoked && cap.epoch == epoch && cap.expiresAt > now
            <==> InForce(caps, id, epoch, now)
    ensures match AncestorRejects(caps, id, epoch, now)
            case None => true
            case Some(Expired) => exists a: nat :: a < |caps| && Ancestor(caps, a, id) && caps[a].expiresAt <= now
            case Some(Revoked) => exists a: nat :: a < |caps| && Ancestor(caps, a, id) && caps[a].revoked
            case Some(EpochMismatch) => exists a: nat :: a < |caps| && Ancestor(caps, a, id) && caps[a].epoch != epoch
            case _ => false
    decreases id
  {
    assert Ancestor(caps, id, id);
    if caps[id].parent.Some? {
      var p := caps[id].parent.value;
      AncestorsInForceExactly(caps, p, epoch, now);
      assert Ancestor(caps, p, p);
      forall a: nat | a < |caps| ensures Ancestor(caps, a, id) <==> a == id || Ancestor(caps, a, p) {}
    }
  }

  lemma PathsHoldExactly(resolve: Path -> Path, roots: set<Path>, paths: set<Path>)
    requires FileSystem(resolve)
    ensures AllContained(resolve, ResolveAll(resolve, roots), ResolveAll(resolve, paths))
            <==> forall root | root in roots :: SomePathHolds(resolve, paths, root)
  {
    forall root ensures SomePathHolds(resolve, paths, root)
                        <==> exists p :: p in ResolveAll(resolve, paths) && IsPathContained(resolve, p, resolve(root)) {
      if SomePathHolds(resolve, paths, root) {
        var p :| p in paths && Contains(resolve(p), resolve(root));
        assert resolve(p) in ResolveAll(resolve, paths) && IsPathContained(resolve, resolve(p), resolve(root));
      }
    }
    if AllContained(resolve, ResolveAll(resolve, roots), ResolveAll(resolve, paths)) {
      forall root | root in roots ensures SomePathHolds(resolve, paths, root) { assert resolve(root) in ResolveAll(resolve, roots); }
    }
  }

  lemma ScopeExactly(resolve: Path -> Path, cap: Cap, r: Request)
    requires FileSystem(resolve)
    ensures ScopeRejects(resolve, NormalizeScope(resolve, cap.scope), cap.limits, r).None? <==> WithinScope(resolve, cap, r)
    ensures ScopeRejects(resolve, NormalizeScope(resolve, cap.scope), cap.limits, r).Some? ==>
              Explains([cap], resolve, 0, r, ScopeRejects(resolve, NormalizeScope(resolve, cap.scope), cap.limits, r).value)
              && ScopeRejects(resolve, NormalizeScope(resolve, cap.scope), cap.limits, r).value !in {Expired, Revoked, EpochMismatch, DomainMismatch, PolicyMismatch}
  {
    if r.mutationRoots.Some? { PathsHoldExactly(resolve, r.mutationRoots.value, cap.scope.paths); }
  }

  /** A request is admitted exactly when each condition holds, and a rejection names one that does not. */
  lemma AdmittedExactly(caps: seq<Cap>, resolve: Path -> Path, id: nat, r: Request)
    requires FileSystem(resolve) && ParentsFirst(caps)
    ensures Admit(caps, resolve, id, r).Admitted? <==> Permitted(caps, resolve, id, r)
    ensures Admit(caps, resolve, id, r).Rejected? ==> Explains(caps, resolve, id, r, Admit(caps, resolve, id, r).reason)
  {
    if id < |caps| {
      assert Ancestor(caps, id, id);
      AncestorsInForceExactly(caps, id, r.epoch, r.now);
      ScopeExactly(resolve, caps[id], r);
    }
  }

  // ---- what may be attenuated, and to what

  predicate IsNarrower(requested: Option<int>, limit: nat) {
    requested.Some? ==> 0 <= requested.value <= limit
  }

  /** The requested scope is the parent's or less. */
  ghost predicate NarrowerScope(resolve: Path -> Path, parent: Scope, input: ScopeInput) {
    var requested := if input.paths.Some? then input.paths else input.write;
    && (requested.Some? ==> forall path | path in requested.value :: SomePathHolds(resolve, parent.paths, path))
    && (input.exclusive.Some? ==> input.exclusive.value <= parent.exclusive)
    && (input.opcodes.Some? ==> input.opcodes.value <= parent.opcodes)
    && (input.secrets.Some? ==> input.secrets.value <= parent.secrets)
    && (input.workspaces.Some? && parent.workspaces != {} ==> input.workspaces.value != {} && input.workspaces.value <= parent.workspaces)
  }

  predicate NarrowerLimits(parent: Limits, requested: PartialLimits) {
    && IsNarrower(requested.cpuMs, parent.cpuMs) && IsNarrower(requested.memoryBytes, parent.memoryBytes)
    && IsNarrower(requested.outputBytes, parent.outputBytes) && IsNarrower(requested.concurrentOps, parent.concurrentOps)
    && IsNarrower(requested.processes, parent.processes)
  }

  /** What was requested, and the parent's where nothing was. */
  predicate Takes<T(==)>(child: T, requested: Option<T>, parent: T) {
    child == if requested.Some? then requested.value else parent
  }

  ghost predicate AreResolved(resolve: Path -> Path, resolved: set<Path>, paths: set<Path>) {
    forall path :: path in resolved <==> exists p :: p in paths && path == resolve(p)
  }

  ghost predicate IsChildScope(resolve: Path -> Path, parent: Scope, input: ScopeInput, child: Scope) {
    var requested := if input.paths.Some? then input.paths else input.write;
    && Takes(child.exclusive, input.exclusive, parent.exclusive) && Takes(child.opcodes, input.opcodes, parent.opcodes)
    && Takes(child.workspaces, input.workspaces, parent.workspaces) && Takes(child.secrets, input.secrets, parent.secrets)
    && AreResolved(resolve, child.paths, if requested.Some? then requested.value else parent.paths)
    && AreResolved(resolve, child.write, if requested.Some? then requested.value else parent.write)
  }

  predicate AreChildLimits(parent: Limits, requested: PartialLimits, child: Limits) {
    && Takes(child.cpuMs as int, requested.cpuMs, parent.cpuMs) && Takes(child.memoryBytes as int, requested.memoryBytes, parent.memoryBytes)
    && Takes(child.outputBytes as int, requested.outputBytes, parent.outputBytes)
    && Takes(child.concurrentOps as int, requested.concurrentOps, parent.concurrentOps)
    && Takes(child.processes as int, requested.processes, parent.processes)
  }

  ghost predicate Narrower(resolve: Path -> Path, parent: Cap, input: ScopeInput, config: Config) {
    && NarrowerScope(resolve, parent.scope, input) && NarrowerLimits(parent.limits, config.limits)
    && (config.policyVersion.Some? ==> config.policyVersion.value == parent.policyVersion)
  }

  ghost predicate IsChild(resolve: Path -> Path, domain: string, epoch: int, now: int, id: nat, parent: Cap, input: ScopeInput, config: Config, child: Cap) {
    && child.domain == domain && child.parent == Some(id) && child.epoch == epoch && !child.revoked
    && child.policyVersion == parent.policyVersion
    && child.expiresAt <= parent.expiresAt && (config.ttlMs.Some? ==> child.expiresAt <= now + config.ttlMs.value)
    && (child.expiresAt == parent.expiresAt || (config.ttlMs.Some? && child.expiresAt == now + config.ttlMs.value))
    && IsChildScope(resolve, parent.scope, input, child.scope) && AreChildLimits(parent.limits, config.limits, child.limits)
  }

  /** The paths that `validateScopeNarrowing` ends up with. */
  function NewPaths(parent: Scope, input: ScopeInput): set<Path> {
    if input.paths.Some? then input.paths.value else if input.write.Some? then input.write.value else parent.paths
  }

  lemma NarrowedExactly(resolve: Path -> Path, parent: Scope, input: ScopeInput)
    requires FileSystem(resolve)
    ensures Narrow(resolve, parent, input).Some? <==> NarrowerScope(resolve, parent, input)
  {
    var requested := if input.paths.Some? then input.paths else input.write;
    PathsHoldExactly(resolve, NewPaths(parent, input), parent.paths);
    assert forall p | p in parent.paths :: SomePathHolds(resolve, parent.paths, p);
    ChosenFits(input.exclusive, parent.exclusive);
    ChosenFits(input.opcodes, parent.opcodes);
    ChosenFits(input.workspaces, parent.workspaces);
    ChosenFits(input.secrets, parent.secrets);
    hide SomePathHolds, AllContained, ResolveAll, Chosen;
    var fits := AllContained(resolve, ResolveAll(resolve, NewPaths(parent, input)), ResolveAll(resolve, parent.paths));
    assert fits <==> (requested.Some? ==> forall path | path in requested.value :: SomePathHolds(resolve, parent.paths, path));
    assert Narrow(resolve, parent, input).Some? ==> fits;
  }

  lemma ChosenFits<T>(requested: Option<set<T>>, parent: set<T>)
    ensures Chosen(requested, parent) <= parent <==> (requested.Some? ==> requested.value <= parent)
  {
  }

  lemma NarrowedIsChild(resolve: Path -> Path, parent: Scope, input: ScopeInput)
    requires Narrow(resolve, parent, input).Some?
    ensures IsChildScope(resolve, parent, input, Narrow(resolve, parent, input).value)
  {
    ResolvedAre(resolve, NewPaths(parent, input));
    ResolvedAre(resolve, parent.write);
    hide AllContained, ResolveAll, AreResolved;
  }

  lemma ResolvedAre(resolve: Path -> Path, paths: set<Path>)
    ensures AreResolved(resolve, ResolveAll(resolve, paths), paths)
  {
  }

  /** A child can be made exactly of a capability in force and for no more than it has; it has exactly what
      was asked for, and the parent's where nothing was. */
  lemma AttenuatedExactly(caps: seq<Cap>, resolve: Path -> Path, domain: string, epoch: int, now: int, id: nat, input: ScopeInput, config: Config)
    requires FileSystem(resolve) && ParentsFirst(caps)
    ensures var made := Attenuate(caps, resolve, domain, epoch, now, id, input, config);
            && (made.Some? <==> id < |caps| && InForce(caps, id, epoch, now) && Narrower(resolve, caps[id], input, config))
            && (made.Some? ==> IsChild(resolve, domain, epoch, now, id, caps[id], input, config, made.value))
  {
    if id < |caps| {
      AncestorsInForceExactly(caps, id, epoch, now);
      NarrowedExactly(resolve, caps[id].scope, input);
      if Narrow(resolve, caps[id].scope, input).Some? { NarrowedIsChild(resolve, caps[id].scope, input); }
      hide InForce, AncestorRejects, Narrow, NarrowerScope, IsChildScope;
    }
  }

  // ---- the store

  datatype Event =
    | CapabilityIssued(id: nat)
    | CapabilityAttenuated(id: nat, parent: nat)
    | CapabilityRejected(id: nat, reason: Reason)
    | CapabilityRevoked(id: nat)

  class CapabilityStore {
    var caps: seq<Cap>
    var journal: seq<Event>

    constructor ()
      ensures caps == [] && journal == []
    {
      caps, journal := [], [];
    }

    /** `issueCapability`: refused by a fenced domain, for an expiry that is not in the future and for
        limits that are not natural safe integers. */
    method Issue(resolve: Path -> Path, domain: string, fenced: bool, epoch: int, now: int, scope: Scope, policyVersion: string, requested: PartialLimits, expiresAt: int)
      returns (id: Option<nat>)
      requires WellAttenuated(resolve, caps)
      modifies this
      ensures WellAttenuated(resolve, caps)
      ensures id.Some? <==> !fenced && expiresAt > now && NormalizeLimits(requested).Some?
      ensures NormalizeLimits(requested).Some? <==>
                && IsNarrower(requested.cpuMs, MAX_SAFE_INTEGER) && IsNarrower(requested.memoryBytes, MAX_SAFE_INTEGER)
                && IsNarrower(requested.outputBytes, MAX_SAFE_INTEGER) && IsNarrower(requested.concurrentOps, MAX_SAFE_INTEGER)
                && IsNarrower(requested.processes, MAX_SAFE_INTEGER)
      ensures id.None? ==> caps == old(caps) && journal == old(journal)
      ensures id.Some? ==>
                && id.value == |old(caps)| < |caps| && journal == old(journal) + [CapabilityIssued(id.value)]
                && caps == old(caps) + [Cap(domain, None, NormalizeScope(resolve, scope), policyVersion, NormalizeLimits(requested).value, expiresAt, epoch, false)]
      ensures id.Some? ==>
                var limits := caps[id.value].limits;
                && limits.cpuMs == Or(requested.cpuMs, 315_360_000_000) && limits.memoryBytes == Or(requested.memoryBytes, 1_099_511_627_776)
                && limits.outputBytes == Or(requested.outputBytes, 107_374_182_400) && limits.concurrentOps == Or(requested.concurrentOps, 4096)
                && limits.processes == Or(requested.processes, 65_536)
    {
      if fenced || expiresAt <= now { return None; }
      var limits := NormalizeLimits(requested);
      if limits.None? { return None; }
      id := Some(|caps|);
      caps := caps + [Cap(domain, None, NormalizeScope(resolve, scope), policyVersion, limits.value, expiresAt, epoch, false)];
      journal := journal + [CapabilityIssued(id.value)];
    }

    /** `attenuate` */
    method AttenuateCapability(resolve: Path -> Path, domain: string, fenced: bool, epoch: int, now: int, id: nat, input: ScopeInput, config: Config)
      returns (child: Option<nat>)
      requires FileSystem(resolve) && WellAttenuated(resolve, caps)
      modifies this
      ensures WellAttenuated(resolve, caps)
      ensures child.None? ==> caps == old(caps) && journal == old(journal)
      ensures child.Some? <==> !fenced && id < |old(caps)| && InForce(old(caps), id, epoch, now) && Narrower(resolve, old(caps)[id], input, config)
      ensures child.Some? ==> |caps| == |old(caps)| + 1 && IsChild(resolve, domain, epoch, now, id, old(caps)[id], input, config, caps[|old(caps)|])
      ensures var made := Attenuate(old(caps), resolve, domain, epoch, now, id, input, config);
              && (child.Some? <==> !fenced && made.Some?)
              && (child.Some? ==>
                    && child.value == |old(caps)| && caps == old(caps) + [made.value]
                    && journal == old(journal) + [CapabilityAttenuated(child.value, id)])
    {
      AttenuatedExactly(caps, resolve, domain, epoch, now, id, input, config);
      if fenced { return None; }
      var made := Attenuate(caps, resolve, domain, epoch, now, id, input, config);
      if made.None? { return None; }
      AttenuationNarrows(caps, resolve, domain, epoch, now, id, input, config);
      child := Some(|caps|);
      caps := caps + [made.value];
      journal := journal + [CapabilityAttenuated(child.value, id)];
    }

    /** `revokeCapability`: the store's update is limited to the caller's domain. */
    method Revoke(resolve: Path -> Path, domain: string, fenced: bool, id: nat) returns (ok: bool)
      requires WellAttenuated(resolve, caps)
      modifies this
      ensures WellAttenuated(resolve, caps) && ok == !fenced
      ensures fenced || id >= |old(caps)| ==> caps == old(caps) && journal == old(journal)
      ensures !fenced && id < |old(caps)| ==> journal == old(journal) + [CapabilityRevoked(id)]
      ensures !fenced && id < |old(caps)| ==> caps == if old(caps)[id].domain == domain then old(caps)[id := old(caps)[id].(revoked := true)] else old(caps)
    {
      if fenced || id >= |caps| { return !fenced; }
      ok := true;
      if caps[id].domain == domain { caps := caps[id := caps[id].(revoked := true)]; }
      journal := journal + [CapabilityRevoked(id)];
    }

    /** `checkCapabilityAdmission`: the walk over the ancestors, and a journal entry for every rejection. */
    method CheckAdmission(resolve: Path -> Path, id: nat, r: Request) returns (v: Verdict)
      requires ParentsFirst(caps)
      modifies this`journal
      ensures v == Admit(caps, resolve, id, r)
      ensures FileSystem(resolve) ==> (v.Admitted? <==> Permitted(caps, resolve, id, r))
      ensures FileSystem(resolve) && v.Rejected? ==> Explains(caps, resolve, id, r, v.reason)
      ensures v.Admitted? ==>
                && v.resources <= caps[id].scope.exclusive
                && v.resources == (if r.resources.Some? && r.resources.value != {} then r.resources.value else caps[id].scope.exclusive)
      ensures FileSystem(resolve) && v.Admitted? ==>
                && (forall root | root in v.roots :: SomePathHolds(resolve, caps[id].scope.paths, root))
                && (forall root :: root in v.roots <==>
                      exists p :: p in (if r.mutationRoots.Some? && r.mutationRoots.value != {} then r.mutationRoots.value else caps[id].scope.paths)
                                  && root == resolve(p))
      ensures journal == if v.Rejected? then old(journal) + [CapabilityRejected(id, v.reason)] else old(journal)
    {
      if FileSystem(resolve) { AdmittedExactly(caps, resolve, id, r); }
      if id >= |caps| {
        v := Reject(id, Revoked);
        return;
      }
      var cap := caps[id];
      var own := OwnRejects(cap, r);
      if own.Some? {
        v := Reject(id, own.value);
        return;
      }
      var at := id;
      while caps[at].parent.Some?
        invariant at < |caps| && AncestorRejects(caps, at, r.epoch, r.now) == AncestorRejects(caps, id, r.epoch, r.now)
        invariant journal == old(journal)
        decreases at
      {
        var ancestor := caps[at].parent.value;
        if caps[ancestor].revoked {
          v := Reject(id, Revoked);
          return;
        }
        if caps[ancestor].epoch != r.epoch {
          v := Reject(id, EpochMismatch);
          return;
        }
        if caps[ancestor].expiresAt <= r.now {
          v := Reject(id, Expired);
          return;
        }
        at := ancestor;
      }
      var scope := NormalizeScope(resolve, cap.scope);
      var outOfScope := ScopeRejects(resolve, scope, cap.limits, r);
      if outOfScope.Some? {
        v := Reject(id, outOfScope.value);
        return;
      }
      v := Admitted(if r.resources.Some? && r.resources.value != {} then r.resources.value else scope.exclusive,
                    if r.mutationRoots.Some? && r.mutationRoots.value != {} then ResolveAll(resolve, r.mutationRoots.value) else scope.paths);
    }

    method Reject(id: nat, reason: Reason) returns (v: Verdict)
      modifies this`journal
      ensures v == Rejected(reason) && journal == old(journal) + [CapabilityRejected(id, reason)]
    {
      journal := journal + [CapabilityRejected(id, reason)];
      v := Rejected(reason);
    }
  }
}
