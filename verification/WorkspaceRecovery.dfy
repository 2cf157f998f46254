/** Workspace recovery (`workspace-recovery.ts`) and the replay it rests on (`observation-replay.ts`):
    skipping checkpoints whose log extends a known failing prefix refines replaying every one. */
module WorkspaceRecovery {

  datatype Option<T> = None | Some(value: T)

  datatype Entry = Entry(mutates: bool, hasResultHash: bool, content: string)

  /** How one replayed step compares with its record, once cutoffs have been considered. */
  datatype StepOutcome = Same | CutOff | Changed | Threw(error: string)

  /** A replay adapter on a fresh fork of the baseline: the outcome of the last entry of a prefix. */
  type Behaviour = seq<Entry> -> StepOutcome

  datatype Checkpoint = Checkpoint(at: int, closedWorld: bool, log: seq<Entry>, behaviour: Behaviour)

  datatype Replay =
    | Matched(cutoffIndices: seq<nat>)
    | Diverged(divergedAt: nat, mutationNotApplicable: bool, error: Option<string>, cutoffIndices: seq<nat>)

  // ---- replaying one log

  function ReplayFrom(b: Behaviour, log: seq<Entry>, i: nat, cutoffs: seq<nat>): Replay
    requires i <= |log|
    decreases |log| - i
  {
    if i == |log| then Matched(cutoffs)
    else
      match b(log[..i + 1])
      case Same => ReplayFrom(b, log, i + 1, cutoffs)
      case CutOff => ReplayFrom(b, log, i + 1, cutoffs + [i])
      case Changed => Diverged(i, false, None, cutoffs)
      case Threw(error) => Diverged(i, log[i].mutates, Some(error), cutoffs)
  }

  function ReplayLog(b: Behaviour, log: seq<Entry>): Replay {
    ReplayFrom(b, log, 0, [])
  }

  /** Calls of the adapter. */
  function StepsOf(r: Replay, log: seq<Entry>): nat {
    if r.Matched? then |log| else r.divergedAt + 1
  }

  /** `replayObservationLog` */
  method ReplayObservationLog(b: Behaviour, log: seq<Entry>) returns (r: Replay, steps: nat)
    ensures r == ReplayLog(b, log) && steps == StepsOf(r, log)
  {
    var cutoffIndices: seq<nat> := [];
    steps := 0;
    var i := 0;
    while i < |log|
      invariant 0 <= i <= |log| && steps == i && ReplayFrom(b, log, i, cutoffIndices) == ReplayLog(b, log)
    {
      var entry := log[i];
      steps := steps + 1;
      match b(log[..i + 1]) {
        case Same =>
        case CutOff => cutoffIndices := cutoffIndices + [i];
        case Changed => return Diverged(i, false, None, cutoffIndices), steps;
        case Threw(error) => return Diverged(i, entry.mutates, Some(error), cutoffIndices), steps;
      }
      i := i + 1;
    }
    return Matched(cutoffIndices), steps;
  }

  /** The step of entry `i` replays: it shows what was recorded, or was cut off as recorded. */
  predicate Passes(b: Behaviour, log: seq<Entry>, i: nat)
    requires i < |log|
  {
    b(log[..i + 1]).Same? || b(log[..i + 1]).CutOff?
  }

  predicate CutsOff(b: Behaviour, log: seq<Entry>, i: nat)
    requires i < |log|
  {
    b(log[..i + 1]).CutOff?
  }

  predicate IsCutoffs(b: Behaviour, log: seq<Entry>, end: nat, cutoffs: seq<nat>)
    requires end <= |log|
  {
    && (forall j, k | 0 <= j < k < |cutoffs| :: cutoffs[j] < cutoffs[k])
    && (forall k | 0 <= k < |cutoffs| :: cutoffs[k] < end && CutsOff(b, log, cutoffs[k]))
    && (forall i | 0 <= i < end && CutsOff(b, log, i) :: i in cutoffs)
  }

  /** A replay goes on to the first step that does not pass, and says how that one failed. */
  predicate IsReplayOf(b: Behaviour, log: seq<Entry>, r: Replay) {
    match r
    case Matched(cutoffs) => (forall i | 0 <= i < |log| :: Passes(b, log, i)) && IsCutoffs(b, log, |log|, cutoffs)
    case Diverged(d, mutationNotApplicable, error, cutoffs) =>
      && d < |log| && !Passes(b, log, d) && (forall i | 0 <= i < d :: Passes(b, log, i)) && IsCutoffs(b, log, d, cutoffs)
      && error == (if b(log[..d + 1]).Threw? then Some(b(log[..d + 1]).error) else None)
      && (mutationNotApplicable <==> error.Some? && log[d].mutates)
  }

  lemma {:induction false} ReplaysFrom(b: Behaviour, log: seq<Entry>, i: nat, cutoffs: seq<nat>)
    requires i <= |log| && IsCutoffs(b, log, i, cutoffs) && forall j | 0 <= j < i :: Passes(b, log, j)
    ensures IsReplayOf(b, log, ReplayFrom(b, log, i, cutoffs))
    decreases |log| - i
  {
    if i < |log| {
      match b(log[..i + 1])
      case Same => ReplaysFrom(b, log, i + 1, cutoffs);
      case CutOff => ReplaysFrom(b, log, i + 1, cutoffs + [i]);
      case _ =>
    }
  }

  /** There is one such replay, and it is the one that is made; it asks the adapter for every step up to its end. */
  lemma ReplaysExactly(b: Behaviour, log: seq<Entry>)
    ensures forall r :: IsReplayOf(b, log, r) <==> r == ReplayLog(b, log)
    ensures StepsOf(ReplayLog(b, log), log) == if ReplayLog(b, log).Matched? then |log| else ReplayLog(b, log).divergedAt + 1
  {
    ReplaysFrom(b, log, 0, []);
    forall r | IsReplayOf(b, log, r) ensures r == ReplayLog(b, log) {
      OneReplay(b, log, r, ReplayLog(b, log));
    }
  }

  lemma OneReplay(b: Behaviour, log: seq<Entry>, r: Replay, s: Replay)
    requires IsReplayOf(b, log, r) && IsReplayOf(b, log, s)
    ensures r == s
  {
    hide IsCutoffs;
    if r.Diverged? && s.Diverged? {
      assert r.divergedAt == s.divergedAt;
      OneListOfCutoffs(b, log, r.divergedAt, r.cutoffIndices, s.cutoffIndices);
    } else if r.Matched? && s.Matched? {
      OneListOfCutoffs(b, log, |log|, r.cutoffIndices, s.cutoffIndices);
    }
  }

  lemma CutoffsButLast(b: Behaviour, log: seq<Entry>, end: nat, a: seq<nat>)
    requires 0 < end <= |log| && IsCutoffs(b, log, end, a) && CutsOff(b, log, end - 1)
    ensures a != [] && a[|a| - 1] == end - 1 && IsCutoffs(b, log, end - 1, a[..|a| - 1])
    ensures a == a[..|a| - 1] + [end - 1]
  {
    hide CutsOff;
    assert end - 1 in a;
    forall i | 0 <= i < end - 1 && CutsOff(b, log, i) ensures i in a[..|a| - 1] {
      var k :| 0 <= k < |a| && a[k] == i;
      assert a[..|a| - 1][k] == i;
    }
  }

  lemma CutoffsBelow(b: Behaviour, log: seq<Entry>, end: nat, a: seq<nat>)
    requires end <= |log| && IsCutoffs(b, log, end, a)
    ensures |a| > 0 ==> a[0] < end
  {
  }

  lemma {:induction false} OneListOfCutoffs(b: Behaviour, log: seq<Entry>, end: nat, a: seq<nat>, c: seq<nat>)
    requires end <= |log| && IsCutoffs(b, log, end, a) && IsCutoffs(b, log, end, c)
    ensures a == c
    decreases end
  {
    if end == 0 {
      CutoffsBelow(b, log, end, a);
      CutoffsBelow(b, log, end, c);
      hide IsCutoffs;
    } else {
      var i := end - 1;
      if CutsOff(b, log, i) {
        CutoffsButLast(b, log, end, a);
        CutoffsButLast(b, log, end, c);
        hide IsCutoffs;
        OneListOfCutoffs(b, log, i, a[..|a| - 1], c[..|c| - 1]);
      } else {
        OneListOfCutoffs(b, log, i, a, c);
      }
    }
  }

  /** A log that extends the failing part of another fails at the same point in the same way. */
  lemma {:induction false} SamePrefixSameFailure(b: Behaviour, log: seq<Entry>, other: seq<Entry>, i: nat, cutoffs: seq<nat>)
    requires i <= |log| && i <= |other|
    requires ReplayFrom(b, log, i, cutoffs).Diverged?
    requires var d := ReplayFrom(b, log, i, cutoffs).divergedAt; d < |log| && i <= d < |other| && log[..d + 1] == other[..d + 1]
    ensures ReplayFrom(b, other, i, cutoffs) == ReplayFrom(b, log, i, cutoffs)
    decreases |log| - i
  {
    var r := ReplayFrom(b, log, i, cutoffs);
    assert log[..i + 1] == log[..r.divergedAt + 1][..i + 1] && other[..i + 1] == other[..r.divergedAt + 1][..i + 1];
    assert log[i] == log[..r.divergedAt + 1][i] && other[i] == other[..r.divergedAt + 1][i];
    match b(log[..i + 1])
    case Same =>
      DivergesLater(b, log, i + 1, cutoffs);
      SamePrefixSameFailure(b, log, other, i + 1, cutoffs);
    case CutOff =>
      DivergesLater(b, log, i + 1, cutoffs + [i]);
      SamePrefixSameFailure(b, log, other, i + 1, cutoffs + [i]);
    case _ =>
  }

  lemma {:induction false} DivergesLater(b: Behaviour, log: seq<Entry>, i: nat, cutoffs: seq<nat>)
    requires i <= |log|
    ensures ReplayFrom(b, log, i, cutoffs).Diverged? ==> i <= ReplayFrom(b, log, i, cutoffs).divergedAt < |log|
    decreases |log| - i
  {
    if i < |log| {
      DivergesLater(b, log, i + 1, cutoffs);
      DivergesLater(b, log, i + 1, cutoffs + [i]);
    }
  }

  // ---- replaying every candidate

  datatype Rejection = Rejection(at: int, replay: Replay)
  datatype Outcome = Restored(at: int, cutoffIndices: seq<nat>) | NoValidCheckpoint | InvalidLog

  datatype Plain = Plain(outcome: Outcome, rejections: seq<Rejection>, replayedSteps: nat)

  /** The log is closed and every observation carries a hash. */
  predicate Usable(c: Checkpoint) {
    c.closedWorld && forall k | 0 <= k < |c.log| :: c.log[k].mutates || c.log[k].hasResultHash
  }

  /** Newest first, each replayed until one matches. */
  function ReplayAll(candidates: seq<Checkpoint>): Plain {
    if candidates == [] then Plain(NoValidCheckpoint, [], 0)
    else if !Usable(candidates[0]) then Plain(InvalidLog, [], 0)
    else
      var c := candidates[0];
      var r := ReplayLog(c.behaviour, c.log);
      if r.Matched? then Plain(Restored(c.at, r.cutoffIndices), [], StepsOf(r, c.log))
      else
        var rest := ReplayAll(candidates[1..]);
        rest.(rejections := [Rejection(c.at, r)] + rest.rejections, replayedSteps := StepsOf(r, c.log) + rest.replayedSteps)
  }

  /** The search ends with this candidate: its log cannot be used, or it replays. */
  predicate Decides(c: Checkpoint) {
    !Usable(c) || forall i | 0 <= i < |c.log| :: Passes(c.behaviour, c.log, i)
  }

  function Steps(candidates: seq<Checkpoint>): nat {
    if candidates == [] then 0
    else
      var front, c := candidates[..|candidates| - 1], candidates[|candidates| - 1];
      Steps(front) + if Usable(c) then StepsOf(ReplayLog(c.behaviour, c.log), c.log) else 0
  }

  /** The newest candidate that decides, number `n`, is restored if its log can be used; those newer are rejected, each
      with its own replay; those older are not looked at. */
  ghost predicate IsSearch(candidates: seq<Checkpoint>, all: Plain, n: nat) {
    && n == |all.rejections| <= |candidates|
    && AllRejected(candidates[..n], all.rejections)
    && (n == |candidates| ==> all.outcome == NoValidCheckpoint)
    && (n < |candidates| ==> Decides(candidates[n]) && IsDecision(candidates[n], all.outcome))
    && all.replayedSteps == Steps(candidates[..if n < |candidates| then n + 1 else n])
  }

  predicate AllRejected(candidates: seq<Checkpoint>, rejections: seq<Rejection>) {
    |candidates| == |rejections| && forall k | 0 <= k < |candidates| :: !Decides(candidates[k]) && IsRejection(candidates[k], rejections[k])
  }

  predicate IsRejection(c: Checkpoint, r: Rejection) {
    r.at == c.at && IsReplayOf(c.behaviour, c.log, r.replay)
  }

  predicate IsDecision(c: Checkpoint, outcome: Outcome) {
    if c.closedWorld && forall e | e in c.log :: e.mutates || e.hasResultHash then
      outcome.Restored? && outcome.at == c.at && IsReplayOf(c.behaviour, c.log, Matched(outcome.cutoffIndices))
    else outcome == InvalidLog
  }

  lemma {:induction false} NewestThatReplays(candidates: seq<Checkpoint>)
    ensures IsSearch(candidates, ReplayAll(candidates), |ReplayAll(candidates).rejections|)
  {
    if candidates != [] {
      var c, rest := candidates[0], ReplayAll(candidates[1..]);
      var r := ReplayLog(c.behaviour, c.log);
      ReplaysExactly(c.behaviour, c.log);
      MatchedPasses(c.behaviour, c.log, r);
      hide IsReplayOf, ReplayFrom, Usable;
      if Decides(c) {
        FoundAtOnce(candidates, r);
      } else {
        NewestThatReplays(candidates[1..]);
        FoundLater(candidates, rest, |rest.rejections|);
      }
    }
  }

  lemma FoundAtOnce(candidates: seq<Checkpoint>, r: Replay)
    requires candidates != [] && Decides(candidates[0])
    requires var c := candidates[0]; r == ReplayLog(c.behaviour, c.log) && IsReplayOf(c.behaviour, c.log, r) && (Usable(c) ==> r.Matched?)
    ensures IsSearch(candidates, ReplayAll(candidates), 0) && ReplayAll(candidates).rejections == []
  {
    assert Usable(candidates[0]) ==> forall e | e in candidates[0].log :: e.mutates || e.hasResultHash;
    assert !Usable(candidates[0]) ==> !candidates[0].closedWorld || exists e :: e in candidates[0].log && !e.mutates && !e.hasResultHash by {
      if k :| 0 <= k < |candidates[0].log| && !candidates[0].log[k].mutates && !candidates[0].log[k].hasResultHash {
        assert candidates[0].log[k] in candidates[0].log;
      }
    }
    hide IsReplayOf, ReplayFrom, Usable, Decides;
    assert candidates[..1] == [candidates[0]] && [candidates[0]][..0] == [];
    assert Steps([candidates[0]]) == Steps([]) + if Usable(candidates[0]) then StepsOf(r, candidates[0].log) else 0;
  }

  lemma RejectedFirst(c: Checkpoint, r: Rejection, others: seq<Checkpoint>, rejections: seq<Rejection>)
    requires AllRejected(others, rejections) && !Decides(c) && IsRejection(c, r)
    ensures AllRejected([c] + others, [r] + rejections)
  {
    hide Decides, IsRejection;
  }

  lemma FoundLater(candidates: seq<Checkpoint>, rest: Plain, n: nat)
    requires candidates != [] && IsSearch(candidates[1..], rest, n) && !Decides(candidates[0])
    ensures var c := candidates[0]; var r := ReplayLog(c.behaviour, c.log);
            IsReplayOf(c.behaviour, c.log, r) ==>
              IsSearch(candidates, rest.(rejections := [Rejection(c.at, r)] + rest.rejections, replayedSteps := StepsOf(r, c.log) + rest.replayedSteps), n + 1)
  {
    var c, others := candidates[0], candidates[1..];
    var r, end := ReplayLog(c.behaviour, c.log), if n < |others| then n + 1 else n;
    assert Usable(c);
    hide IsReplayOf, ReplayFrom, Usable, Decides, IsDecision, StepsOf;
    assert Steps(candidates[..end + 1]) == Steps(others[..end]) + StepsOf(r, c.log) by {
      assert candidates[..end + 1] == [c] + others[..end];
      StepsOfFirst(c, others[..end]);
    }
    hide Steps;
    if IsReplayOf(c.behaviour, c.log, r) { RejectedFirst(c, Rejection(c.at, r), others[..n], rest.rejections); }
    hide AllRejected;
    assert candidates[..n + 1] == [c] + others[..n] && candidates[1..] == others;
  }

  lemma MatchedPasses(b: Behaviour, log: seq<Entry>, r: Replay)
    requires IsReplayOf(b, log, r)
    ensures r.Matched? <==> forall i | 0 <= i < |log| :: Passes(b, log, i)
  {
  }

  lemma {:induction false} StepsOfFirst(c: Checkpoint, others: seq<Checkpoint>)
    ensures Steps([c] + others) == Steps(others) + if Usable(c) then StepsOf(ReplayLog(c.behaviour, c.log), c.log) else 0
    decreases |others|
  {
    hide Usable;
    var all := [c] + others;
    if others == [] {
      assert all == [c] && [c][..0] == [];
    } else {
      StepsOfFirst(c, others[..|others| - 1]);
      assert all[..|all| - 1] == [c] + others[..|others| - 1] && all[|all| - 1] == others[|others| - 1];
    }
  }

  // ---- skipping known failures

  datatype Known = Known(prefix: seq<Entry>, replay: Replay)

  predicate Extends(log: seq<Entry>, prefix: seq<Entry>) {
    |prefix| <= |log| && prefix == log[..|prefix|]
  }

  /** What is known was a changed observation, seen at the end of the prefix, under this behaviour. */
  ghost predicate Evidence(b: Behaviour, k: Known) {
    && k.replay.Diverged? && k.replay.error.None? && |k.prefix| == k.replay.divergedAt + 1
    && exists log :: Extends(log, k.prefix) && ReplayLog(b, log) == k.replay
  }

  lemma KnownFails(b: Behaviour, k: Known, log: seq<Entry>)
    requires Evidence(b, k) && Extends(log, k.prefix)
    ensures ReplayLog(b, log) == k.replay
  {
    var was :| Extends(was, k.prefix) && ReplayLog(b, was) == k.replay;
    DivergesLater(b, was, 0, []);
    SamePrefixSameFailure(b, was, log, 0, []);
  }

  /** The adapter behaves the same whichever checkpoint asked. */
  ghost predicate Deterministic(candidates: seq<Checkpoint>, b: Behaviour) {
    forall k | 0 <= k < |candidates| :: candidates[k].behaviour == b
  }

  /** The candidate's own replay ends in a changed observation at the end of the prefix. */
  ghost predicate FailsBy(c: Checkpoint, prefix: seq<Entry>) {
    var r := ReplayLog(c.behaviour, c.log);
    r.Diverged? && r.error.None? && r.divergedAt < |c.log| && prefix == c.log[..r.divergedAt + 1]
  }

  /** A newer candidate failed on a prefix that this one's log extends. */
  ghost predicate Skippable(candidates: seq<Checkpoint>, k: nat)
    requires k < |candidates|
  {
    exists j, prefix :: 0 <= j < k && FailsBy(candidates[j], prefix) && Extends(candidates[k].log, prefix)
  }

  ghost function SkippableUpTo(candidates: seq<Checkpoint>, n: nat): set<nat>
    requires n <= |candidates|
  {
    set k: nat | k < n && Skippable(candidates, k)
  }

  /** The known prefixes are those the first `n` candidates fail by. */
  ghost predicate KnowsAll(known: seq<Known>, candidates: seq<Checkpoint>, n: nat)
    requires n <= |candidates|
  {
    && (forall f | f in known :: exists j :: 0 <= j < n && FailsBy(candidates[j], f.prefix))
    && (forall j, prefix | 0 <= j < n && FailsBy(candidates[j], prefix) :: exists f :: f in known && f.prefix == prefix)
  }

  lemma SkippedExactly(known: seq<Known>, candidates: seq<Checkpoint>, n: nat)
    requires n < |candidates| && KnowsAll(known, candidates, n)
    ensures Skippable(candidates, n) <==> exists f :: f in known && Extends(candidates[n].log, f.prefix)
    ensures |SkippableUpTo(candidates, n + 1)| == |SkippableUpTo(candidates, n)| + if Skippable(candidates, n) then 1 else 0
  {
    assert SkippableUpTo(candidates, n + 1) == SkippableUpTo(candidates, n) + if Skippable(candidates, n) then {n} else {};
  }

  lemma KnowsOneMore(known: seq<Known>, more: seq<Known>, candidates: seq<Checkpoint>, n: nat, f: Known)
    requires n < |candidates| && KnowsAll(known, candidates, n) && FailsBy(candidates[n], f.prefix)
    requires f in more && forall g :: g in more <==> g in known || g == f
    ensures KnowsAll(more, candidates, n + 1)
  {
    hide Extends, ReplayFrom;
    forall j, prefix | 0 <= j < n + 1 && FailsBy(candidates[j], prefix) ensures exists g :: g in more && g.prefix == prefix {
      if j < n {
        var g :| g in known && g.prefix == prefix;
        assert g in more;
      }
    }
  }

  lemma KnowsNoMore(known: seq<Known>, candidates: seq<Checkpoint>, n: nat)
    requires n < |candidates| && KnowsAll(known, candidates, n) && forall prefix :: !FailsBy(candidates[n], prefix)
    ensures KnowsAll(known, candidates, n + 1)
  {
  }

  /** A candidate is skipped for a known prefix: its own replay would have said the same. */
  lemma AfterSkip(known: seq<Known>, candidates: seq<Checkpoint>, n: nat, f: Known, b: Behaviour)
    requires n < |candidates| && KnowsAll(known, candidates, n) && candidates[n].behaviour == b
    requires f in known && Extends(candidates[n].log, f.prefix) && Evidence(b, f)
    ensures ReplayLog(b, candidates[n].log) == f.replay && f.replay.Diverged? && KnowsAll(known, candidates, n + 1)
    ensures |SkippableUpTo(candidates, n + 1)| == |SkippableUpTo(candidates, n)| + 1
  {
    KnownFails(b, f, candidates[n].log);
    assert FailsBy(candidates[n], f.prefix);
    hide FailsBy, Evidence, KnowsAll, Skippable, SkippableUpTo, ReplayFrom;
    SkippedExactly(known, candidates, n);
    KnowsOneMore(known, known, candidates, n, f);
  }

  function Learn(known: seq<Known>, c: Checkpoint, r: Replay): seq<Known> {
    if r.Diverged? && r.error.None? && r.divergedAt < |c.log| then known + [Known(c.log[..r.divergedAt + 1], r)] else known
  }

  /** A candidate is replayed: what its replay proves is known from then on. */
  lemma AfterReplay(known: seq<Known>, candidates: seq<Checkpoint>, n: nat)
    requires n < |candidates| && KnowsAll(known, candidates, n)
    ensures var c := candidates[n]; var r := ReplayLog(c.behaviour, c.log);
            && KnowsAll(Learn(known, c, r), candidates, n + 1)
            && (forall f | f in Learn(known, c, r) :: f in known || Evidence(c.behaviour, f))
            && (r.Diverged? ==> r.divergedAt < |c.log|)
    ensures (forall f | f in known :: !Extends(candidates[n].log, f.prefix)) ==>
              |SkippableUpTo(candidates, n + 1)| == |SkippableUpTo(candidates, n)|
  {
    var c := candidates[n];
    var r := ReplayLog(c.behaviour, c.log);
    var more := Learn(known, c, r);
    DivergesLater(c.behaviour, c.log, 0, []);
    SkippedExactly(known, candidates, n);
    if r.Diverged? && r.error.None? {
      assert Extends(c.log, c.log[..r.divergedAt + 1]);
      hide KnowsAll, SkippableUpTo, Skippable, ReplayFrom;
      KnowsOneMore(known, more, candidates, n, more[|known|]);
    } else {
      KnowsNoMore(known, candidates, n);
    }
  }

  method FindKnown(known: seq<Known>, log: seq<Entry>) returns (found: Option<Known>)
    ensures found.Some? ==> found.value in known && Extends(log, found.value.prefix)
    ensures found.None? ==> forall f | f in known :: !Extends(log, f.prefix)
  {
    var k := 0;
    while k < |known|
      invariant 0 <= k <= |known| && forall j | 0 <= j < k :: !Extends(log, known[j].prefix)
    {
      if Extends(log, known[k].prefix) { return Some(known[k]); }
      k := k + 1;
    }
    return None;
  }

  /** What goes wrong with one attempt: opening its fork, its replay as a whole, or giving the fork up. */
  datatype Fault = Fault(begin: bool, replay: bool, abort: bool)

  const NO_FAULT := Fault(false, false, false)

  /** `prepareCandidates`: `open` holds the forks still open when it returns or throws, `baseline` whether
      the shared snapshot was kept. Unless it throws, whatever the policy, the same checkpoint is restored or none is, every
      rejected checkpoint is reported with the divergence a replay of it would have shown, no step is
      replayed that plain replay would not have replayed, a rejected candidate goes unreplayed exactly
      when a newer one failed on a prefix of its log, and no rejected fork stays open. It throws at the
      first attempt with a fault; a fork then stays open exactly when giving it up failed, and the
      snapshot is kept exactly when that happened or a later fork could not be opened. */
  method PrepareCandidates(candidates: seq<Checkpoint>, skipKnown: bool, faults: nat -> Fault, ghost b: Behaviour)
    returns (outcome: Option<Outcome>, rejections: seq<Rejection>, replayedSteps: nat, attempts: nat, skipped: nat, open: set<nat>, baseline: bool)
    requires skipKnown ==> Deterministic(candidates, b)
    ensures outcome.Some? ==> outcome.value == ReplayAll(candidates).outcome && rejections == ReplayAll(candidates).rejections
    ensures outcome.Some? ==> replayedSteps <= ReplayAll(candidates).replayedSteps
    ensures outcome.Some? && !skipKnown ==> replayedSteps == ReplayAll(candidates).replayedSteps && skipped == 0
    ensures outcome.Some? ==> attempts + skipped == |rejections| + if outcome.value.Restored? then 1 else 0
    ensures outcome.Some? ==> |rejections| <= |candidates| && (skipKnown ==> skipped == |SkippableUpTo(candidates, |rejections|)|)
    ensures outcome.Some? ==> open == if outcome.value.Restored? then {attempts} else {}
    ensures outcome.Some? ==> (baseline <==> outcome.value.Restored?)
    ensures forall i | 0 < i < attempts :: faults(i) == NO_FAULT
    ensures outcome.None? ==>
              var fault := faults(attempts);
              && attempts > 0 && fault != NO_FAULT
              && open == (if !fault.begin && fault.abort then {attempts} else {})
              && (baseline <==> if fault.begin then attempts > 1 else fault.abort)
    ensures outcome.Some? && attempts > 0 && faults(attempts) != NO_FAULT ==>
              outcome.value.Restored? && faults(attempts) == Fault(false, false, true)
  {
    hide ReplayAll, ReplayFrom, KnowsAll, Skippable, SkippableUpTo, FailsBy, Evidence, Extends, Usable, StepsOf;
    rejections, replayedSteps, attempts, skipped, open, baseline := [], 0, 0, 0, {}, false;
    var knownFailures: seq<Known> := [];
    var k := 0;
    ghost var saved: nat := 0;
    NothingKnown(candidates);
    while k < |candidates|
      invariant 0 <= k <= |candidates| && open == {} && (!skipKnown ==> saved == 0 && skipped == 0)
      invariant attempts + skipped == |rejections|
      invariant |rejections| == k && forall i | 0 < i <= attempts :: faults(i) == NO_FAULT
      invariant skipKnown ==> forall f | f in knownFailures :: Evidence(b, f)
      invariant KnowsAll(knownFailures, candidates, k) && (skipKnown ==> skipped == |SkippableUpTo(candidates, k)|)
      invariant var rest := ReplayAll(candidates[k..]);
                ReplayAll(candidates) == Plain(rest.outcome, rejections + rest.rejections, replayedSteps + saved + rest.replayedSteps)
    {
      var c := candidates[k];
      RestOf(candidates, k, rejections, replayedSteps + saved);
      if !Usable(c) {
        outcome := Some(InvalidLog);
        return;
      }
      if skipKnown {
        var known := FindKnown(knownFailures, c.log);
        if known.Some? {
          AfterSkip(knownFailures, candidates, k, known.value, b);
          skipped := skipped + 1;
          rejections := rejections + [Rejection(c.at, known.value.replay)];
          saved := saved + StepsOf(known.value.replay, c.log);
          k := k + 1;
          continue;
        }
      }
      attempts := attempts + 1;
      var fault := faults(attempts);
      if fault.begin {
        outcome, baseline := None, attempts > 1;
        return;
      }
      open := open + {attempts};
      var replay, steps := ReplayObservationLog(c.behaviour, c.log);
      replayedSteps := replayedSteps + steps;
      if fault.replay {
        if !fault.abort { open := open - {attempts}; }
        outcome, baseline := None, fault.abort;
        return;
      }
      if replay.Matched? {
        outcome, baseline := Some(Restored(c.at, replay.cutoffIndices)), true;
        return;
      }
      rejections := rejections + [Rejection(c.at, replay)];
      AfterReplay(knownFailures, candidates, k);
      if replay.error.None? {
        knownFailures := knownFailures + [Known(c.log[..replay.divergedAt + 1], replay)];
      }
      if fault.abort {
        outcome, baseline := None, true;
        return;
      }
      open := open - {attempts};
      k := k + 1;
    }
    assert candidates[k..] == [];
    outcome := Some(NoValidCheckpoint);
  }

  lemma NothingKnown(candidates: seq<Checkpoint>)
    ensures candidates[0..] == candidates && KnowsAll([], candidates, 0) && SkippableUpTo(candidates, 0) == {}
    ensures ReplayAll([]) == Plain(NoValidCheckpoint, [], 0)
  {
  }

  lemma RestOf(candidates: seq<Checkpoint>, k: nat, rejections: seq<Rejection>, steps: nat)
    requires k < |candidates|
    ensures var c, rest, next := candidates[k], ReplayAll(candidates[k..]), ReplayAll(candidates[k + 1..]);
            var r := ReplayLog(c.behaviour, c.log);
            && (!Usable(c) ==> rest == Plain(InvalidLog, [], 0) && rejections + rest.rejections == rejections)
            && (Usable(c) && r.Matched? ==> rest == Plain(Restored(c.at, r.cutoffIndices), [], StepsOf(r, c.log)) && rejections + rest.rejections == rejections)
            && (Usable(c) && r.Diverged? ==>
                  && rest.outcome == next.outcome && rest.replayedSteps == StepsOf(r, c.log) + next.replayedSteps
                  && rejections + rest.rejections == (rejections + [Rejection(c.at, r)]) + next.rejections)
    ensures k + 1 == |candidates| ==> ReplayAll(candidates[k + 1..]) == Plain(NoValidCheckpoint, [], 0)
  {
    assert candidates[k..][1..] == candidates[k + 1..];
  }
}
