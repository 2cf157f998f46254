/** Stopping a process tree over the control channel (`reaper-driver.ts` and `xioflow-reaper.c`, Linux):
    the operating system, the helper and the host as one state machine. */
module ReaperSession {

  import opened ReaperHost

  // ---- the operating system

  /** Processes are numbered in order of creation; 0 is the root command. `Reaper` is the helper,
      `Elsewhere` whoever adopts orphans once the helper is gone. */
  datatype Parent = Reaper | Elsewhere | Of(p: nat)
  datatype Proc = Proc(parent: Parent, zombie: bool)

  // ---- the channel and the two parties

  datatype State = State(
    procs: map<nat, Proc>, next: nat, rootReaped: bool,
    helper: bool,               // the helper runs
    observed: bool,             // it has seen ECHILD with no live descendant
    lines: seq<Line>,           // sent and not yet read
    stops: nat,                 // stop requests the helper has not answered
    closeSeen: bool, host: Host)

  function Initial(): State {
    State(map[0 := Proc(Reaper, false)], 1, false, true, false, [], 0, false, OPENED)
  }

  datatype Step =
    | Fork(p: nat) | Die(p: nat) | ReapOwn(p: nat, child: nat) | HelperReaps(child: nat)
    | HelperSeesEmpty | HelperAnswersStop(empty: bool) | HelperSignalled(empty: bool) | HelperKilled | HelperSays(line: Line)
    | HostReads | HostSeesClose
    | HostTerminates | HostTimesOut | HostConcludes | HostSettles

  // ---- what each side looks at

  /** `waitid` answers ECHILD: the helper has no child left, not even a zombie. */
  ghost predicate NoChildLeft(s: State) {
    forall p | p in s.procs :: s.procs[p].parent != Reaper
  }

  predicate LiveProc(s: State, p: nat) {
    p in s.procs && !s.procs[p].zombie
  }

  /** On exit children go to the subreaper, or to whoever is left when there is none. */
  function Adopted(s: State, dead: nat): map<nat, Proc> {
    map p | p in s.procs ::
      if p == dead then s.procs[p].(zombie := true)
      else if s.procs[p].parent == Of(dead) then s.procs[p].(parent := if s.helper then Reaper else Elsewhere)
      else s.procs[p]
  }

  function Orphaned(s: State): map<nat, Proc> {
    map p | p in s.procs :: if s.procs[p].parent == Reaper then s.procs[p].(parent := Elsewhere) else s.procs[p]
  }

  ghost predicate Enabled(s: State, step: Step) {
    match step
    case Fork(p) => LiveProc(s, p)
    case Die(p) => LiveProc(s, p)
    case ReapOwn(p, child) => LiveProc(s, p) && child in s.procs && s.procs[child].zombie && s.procs[child].parent == Of(p)
    case HelperReaps(child) => s.helper && child in s.procs && s.procs[child].zombie && s.procs[child].parent == Reaper
    case HelperSeesEmpty => s.helper && s.rootReaped && NoChildLeft(s)
    case HelperAnswersStop(empty) => s.helper && s.stops > 0 && (empty ==> NoChildLeft(s))
    case HelperSignalled(empty) => s.helper && (empty ==> NoChildLeft(s))
    case HelperKilled => s.helper
    case HelperSays(line) => s.helper && (line.Exit? || line.OtherLine?)
    case HostReads => s.lines != []
    case HostSeesClose => !s.helper && s.lines == [] && !s.closeSeen
    case HostTerminates => !s.host.awaiting && s.host.reply.None?
    case HostTimesOut => s.host.awaiting
    case HostConcludes => s.host.reply.Some?
    case HostSettles => true
  }

  // ---- steps

  function Leave(s: State, lines: seq<Line>): State {
    s.(helper := false, lines := lines, procs := Orphaned(s))
  }

  ghost function Apply(s: State, step: Step): State
    requires Enabled(s, step)
  {
    match step
    case Fork(p) => s.(procs := s.procs[s.next := Proc(Of(p), false)], next := s.next + 1)
    case Die(p) => s.(procs := Adopted(s, p))
    case ReapOwn(p, child) => s.(procs := s.procs - {child})
    case HelperReaps(child) => s.(procs := s.procs - {child}, rootReaped := s.rootReaped || child == 0)
    case HelperSeesEmpty => Leave(s.(observed := true), s.lines + [Empty])
    case HelperAnswersStop(empty) =>
      if empty then Leave(s.(observed := true, stops := s.stops - 1), s.lines + [Stopped])
      else s.(stops := s.stops - 1, lines := s.lines + [Residual])
    case HelperSignalled(empty) => Leave(s.(observed := s.observed || empty), s.lines + [if empty then Stopped else Residual])
    case HelperKilled => Leave(s, s.lines)
    case HelperSays(line) => s.(lines := s.lines + [line])
    case HostReads => s.(lines := s.lines[1..], host := Read(s.host, s.lines[0]))
    case HostSeesClose => s.(closeSeen := true, host := Close(s.host))
    case HostTerminates => s.(stops := if EarlyAnswer(s.host).None? then s.stops + 1 else s.stops, host := Terminate(s.host))
    case HostTimesOut => s.(host := TimeOut(s.host))
    case HostConcludes => s.(host := Conclude(s.host))
    case HostSettles => s.(host := Settle(s.host))
  }

  ghost function Run(steps: seq<Step>): Option<State> {
    if steps == [] then Some(Initial())
    else
      var before := Run(steps[..|steps| - 1]);
      if before.Some? && Enabled(before.value, steps[|steps| - 1]) then Some(Apply(before.value, steps[|steps| - 1])) else None
  }

  // ---- the subreaper keeps every orphan

  /** While the helper runs, every process is its child or the child of a live process created earlier. */
  ghost predicate Linked(s: State, p: nat) {
    p in s.procs ==>
      match s.procs[p].parent
      case Reaper => true
      case Elsewhere => false
      case Of(q) => q < p && LiveProc(s, q)
  }

  lemma {:induction false} SomeoneIsTheHelpers(s: State, p: nat)
    requires p in s.procs && forall q: nat {:trigger Linked(s, q)} :: Linked(s, q)
    ensures !NoChildLeft(s)
    decreases p
  {
    assert Linked(s, p);
    if s.procs[p].parent.Of? { SomeoneIsTheHelpers(s, s.procs[p].parent.p); }
  }

  /** ECHILD means that the whole tree is gone, because every orphan is the helper's. */
  lemma EchildMeansEmpty(s: State)
    requires (forall q: nat {:trigger Linked(s, q)} :: Linked(s, q)) && NoChildLeft(s)
    ensures s.procs == map[]
  {
    if p :| p in s.procs { SomeoneIsTheHelpers(s, p); }
  }

  // ---- every run

  /** Every sign of an empty tree, on its way or arrived, goes back to an observation. */
  ghost predicate Signs(s: State) {
    (Empty in s.lines || Stopped in s.lines || Told(s.host)) ==> s.observed
  }

  /** While the helper runs every orphan is its own, and once it is gone none is; after an observation there is no process
      left that could start another. */
  ghost predicate Inv(s: State) {
    && (s.helper ==> forall q: nat {:trigger Linked(s, q)} :: Linked(s, q)) && (!s.helper ==> NoChildLeft(s))
    && (forall p | p in s.procs :: p < s.next)
    && (s.observed ==> s.procs == map[])
    && Signs(s)
  }

  lemma OneMore(list: seq<Line>, x: Line)
    ensures forall y :: y in list + [x] <==> y in list || y == x
  {
  }

  lemma ProcessStepKeeps(s: State, step: Step)
    requires Inv(s) && Enabled(s, step) && (step.Fork? || step.Die? || step.ReapOwn? || step.HelperReaps?)
    ensures Inv(Apply(s, step)) && Apply(s, step).observed == s.observed
  {
    var n := Apply(s, step);
    if s.helper {
      forall q: nat ensures Linked(n, q) {
        assert Linked(s, q);
        if q in s.procs && s.procs[q].parent.Of? { assert Linked(s, s.procs[q].parent.p); }
        if step.Fork? { assert Linked(s, step.p); }
      }
    }
  }

  lemma HelperStepKeeps(s: State, step: Step)
    requires Inv(s) && Enabled(s, step)
    requires step.HelperSeesEmpty? || step.HelperAnswersStop? || step.HelperSignalled? || step.HelperKilled? || step.HelperSays?
    ensures Inv(Apply(s, step)) && (s.observed ==> Apply(s, step).observed)
  {
    var n := Apply(s, step);
    if (step.HelperAnswersStop? && step.empty) || (step.HelperSignalled? && step.empty) || step.HelperSeesEmpty? { EchildMeansEmpty(s); }
    if n.helper { SameProcs(s, n); }
    OneMore(s.lines, Empty);
    OneMore(s.lines, Stopped);
    OneMore(s.lines, Residual);
  }

  lemma HostStepKeeps(s: State, step: Step)
    requires Inv(s) && Enabled(s, step)
    requires step.HostReads? || step.HostSeesClose? || step.HostTerminates? || step.HostTimesOut? || step.HostConcludes? || step.HostSettles?
    ensures Inv(Apply(s, step)) && (s.observed ==> Apply(s, step).observed)
  {
    hide Linked, Read, Close, TimeOut, Terminate, Conclude, Settle, Told;
    var n := Apply(s, step);
    if s.lines != [] {
      OnlyLinesTell(s.host, s.lines[0]);
      assert s.lines == [s.lines[0]] + s.lines[1..];
    } else {
      OnlyLinesTell(s.host, OtherLine);
    }
    SameProcs(s, n);
  }

  lemma StepKeeps(s: State, step: Step)
    requires Inv(s) && Enabled(s, step)
    ensures Inv(Apply(s, step)) && (s.observed ==> Apply(s, step).observed)
  {
    hide Inv, Apply, Enabled;
    if step.Fork? || step.Die? || step.ReapOwn? || step.HelperReaps? {
      ProcessStepKeeps(s, step);
    } else if step.HostReads? || step.HostSeesClose? || step.HostTerminates? || step.HostTimesOut? || step.HostConcludes? || step.HostSettles? {
      HostStepKeeps(s, step);
    } else {
      HelperStepKeeps(s, step);
    }
  }

  lemma SameProcs(s: State, n: State)
    requires n.procs == s.procs && n.helper == s.helper && (s.helper ==> forall q: nat {:trigger Linked(s, q)} :: Linked(s, q))
    ensures n.helper ==> forall q: nat {:trigger Linked(n, q)} :: Linked(n, q)
  {
    if s.helper {
      forall q: nat ensures Linked(n, q) { assert Linked(s, q); }
    }
  }

  lemma {:induction false} RunKeeps(steps: seq<Step>)
    requires Run(steps).Some?
    ensures Inv(Run(steps).value)
  {
    if steps == [] {
      forall q: nat ensures Linked(Initial(), q) {}
    } else {
      RunKeeps(steps[..|steps| - 1]);
      StepKeeps(Run(steps[..|steps| - 1]).value, steps[|steps| - 1]);
    }
  }

  /** `confirmed_stopped` from a held session, and `empty` from `settleTree`, mean that the helper has
      seen ECHILD and that no process of the tree exists, over every order of lines, timeouts,
      signals, kills and channel close. */
  lemma PositiveAnswersAreProofs(steps: seq<Step>)
    requires Run(steps).Some? && exists k :: 0 <= k < |Run(steps).value.host.answers| && Positive(Run(steps).value.host.answers[k])
    ensures Run(steps).value.observed && Run(steps).value.procs == map[]
  {
    RunKeeps(steps);
  }

  /** Once observed, emptiness lasts. */
  lemma {:induction false} EmptinessIsStable(steps: seq<Step>, n: nat)
    requires n <= |steps| && Run(steps).Some? && Run(steps[..n]).Some? && Run(steps[..n]).value.observed
    ensures Run(steps).value.observed && Run(steps).value.procs == map[]
    decreases |steps|
  {
    hide Apply, Enabled;
    RunKeeps(steps);
    if n == |steps| {
      assert steps[..n] == steps;
    } else {
      var front := steps[..|steps| - 1];
      assert front[..n] == steps[..n];
      EmptinessIsStable(front, n);
      RunKeeps(front);
      StepKeeps(Run(front).value, steps[|steps| - 1]);
    }
  }

  // ---- what passes between the two

  /** What the helper says in a step. */
  function Says(step: Step): seq<Line> {
    match step
    case HelperSeesEmpty => [Empty]
    case HelperAnswersStop(empty) => [if empty then Stopped else Residual]
    case HelperSignalled(empty) => [if empty then Stopped else Residual]
    case HelperSays(line) => [line]
    case _ => []
  }

  /** What happens to the host in a step. */
  function HappensTo(s: State, step: Step): seq<Event> {
    match step
    case HostReads => if s.lines != [] then [Heard(s.lines[0])] else []
    case HostSeesClose => [Closed]
    case HostTerminates => [Asked]
    case HostTimesOut => [TimedOut]
    case HostConcludes => [Looked]
    case HostSettles => [Settled]
    case _ => []
  }

  function HeardBy(e: Event): seq<Line> {
    if e.Heard? then [e.line] else []
  }

  function SaidIn(steps: seq<Step>): seq<Line> {
    if steps == [] then [] else SaidIn(steps[..|steps| - 1]) + Says(steps[|steps| - 1])
  }

  ghost function EventsIn(steps: seq<Step>): seq<Event>
    requires Run(steps).Some?
  {
    if steps == [] then []
    else EventsIn(steps[..|steps| - 1]) + HappensTo(Run(steps[..|steps| - 1]).value, steps[|steps| - 1])
  }

  function HeardIn(events: seq<Event>): seq<Line> {
    if events == [] then [] else HeardIn(events[..|events| - 1]) + HeardBy(events[|events| - 1])
  }

  function Answered(steps: seq<Step>): nat {
    if steps == [] then 0 else Answered(steps[..|steps| - 1]) + if steps[|steps| - 1].HelperAnswersStop? then 1 else 0
  }

  function Requested(events: seq<Event>): nat {
    if events == [] then 0
    else Requested(events[..|events| - 1]) + if AskedAt(events, |events| - 1) then 1 else 0
  }

  /** On every run the host is what its own events make of it, it hears what the helper says in the order it is said, the
      helper has said `empty` or `stopped` exactly when it has seen the tree empty, and the requests that went out are
      those it has answered and those still open. */
  lemma {:induction false} ChannelConserves(steps: seq<Step>)
    requires Run(steps).Some?
    ensures var s, events := Run(steps).value, EventsIn(steps);
            && After(events) == Some(s.host)
            && HeardIn(events) + s.lines == SaidIn(steps)
            && (s.observed <==> Empty in SaidIn(steps) || Stopped in SaidIn(steps))
            && Answered(steps) + s.stops == Requested(events)
  {
    if steps != [] {
      var front, step := steps[..|steps| - 1], steps[|steps| - 1];
      ChannelConserves(front);
      StepConserves(Run(front).value, step, EventsIn(front), SaidIn(front));
    }
  }

  lemma StepConserves(s: State, step: Step, events: seq<Event>, said: seq<Line>)
    requires Enabled(s, step) && After(events) == Some(s.host) && HeardIn(events) + s.lines == said
    requires s.observed <==> Empty in said || Stopped in said
    ensures var n, more := Apply(s, step), events + HappensTo(s, step);
            && After(more) == Some(n.host)
            && HeardIn(more) + n.lines == said + Says(step)
            && (n.observed <==> Empty in said + Says(step) || Stopped in said + Says(step))
            && (if step.HelperAnswersStop? then 1 else 0) + n.stops - s.stops == Requested(more) - Requested(events)
  {
    hide Linked, Read, Close, TimeOut, Terminate, Conclude, Settle, NoChildLeft;
    var n, more := Apply(s, step), events + HappensTo(s, step);
    if HappensTo(s, step) == [] {
      assert more == events;
      OnlyHelper(s, step, HeardIn(events), said);
    } else {
      var e := HappensTo(s, step)[0];
      assert HappensTo(s, step) == [e] && more[..|events|] == events && more[|events|] == e;
      assert After(more) == Some(Happen(s.host, e)) == Some(n.host);
      assert said + [] == said;
      RequestExactly(s.host, events, e);
      assert e.Heard? ==> HeardIn(events) + [s.lines[0]] + s.lines[1..] == HeardIn(events) + s.lines;
    }
  }

  lemma OnlyHelper(s: State, step: Step, heard: seq<Line>, said: seq<Line>)
    requires Enabled(s, step) && HappensTo(s, step) == [] && heard + s.lines == said
    requires s.observed <==> Empty in said || Stopped in said
    ensures var n := Apply(s, step);
            && n.host == s.host && heard + n.lines == said + Says(step)
            && (n.observed <==> Empty in said + Says(step) || Stopped in said + Says(step))
            && n.stops == s.stops - if step.HelperAnswersStop? then 1 else 0
  {
    hide Linked, NoChildLeft, Orphaned, Adopted;
    assert heard + (s.lines + Says(step)) == said + Says(step);
    assert said + [] == said;
  }

  lemma RequestExactly(h: Host, events: seq<Event>, e: Event)
    requires After(events) == Some(h) && CanHappen(h, e)
    ensures AskedAt(events + [e], |events|) <==> e.Asked? && EarlyAnswer(h).None?
  {
    AnswersExactly(events);
    AskedAtSnoc(events, e, |events|);
    RememberedIsKnown(events);
    hide KnowsEmpty, Remembered;
  }
}
