/** The host's side of a held process tree (`reaper-driver.ts`): the session fields and their handlers. */
module ReaperHost {

  datatype Option<T> = None | Some(value: T)

  datatype Line = Exit | Empty | Stopped | Residual | OtherLine

  /** What the host concludes from a call of `terminate` or `settleTree`; `AskFacts` falls back on the
      operating system. */
  datatype Answer = ConfirmedStopped | TreeIsEmpty | TreeIsResidual | CannotDetermine | AskFacts

  /** `terminal` and `registered` are the driver's own memory of the session; `awaiting` says that
      `onStopReply` is set; `reply` is a settled reply its caller has not looked at, None inside for null. */
  datatype Host = Host(
    treeEmpty: bool, helperLost: bool, terminal: bool, registered: bool,
    awaiting: bool, reply: Option<Option<Line>>, answers: seq<Answer>)

  const OPENED := Host(false, false, false, true, false, None, [])

  /** `onLine` */
  function Read(h: Host, line: Line): Host {
    if line.Empty? then h.(treeEmpty := true)
    else if (line.Stopped? || line.Residual?) && h.awaiting then h.(awaiting := false, reply := Some(Some(line)))
    else h
  }

  /** The `close` listener: by now every line has been read. */
  function Close(h: Host): Host {
    var lost := h.(helperLost := h.helperLost || !h.treeEmpty);
    var settled := if h.awaiting then lost.(awaiting := false, reply := Some(None)) else lost;
    settled.(terminal := h.terminal || h.treeEmpty, registered := false)
  }

  /** The timer of a stop request. */
  function TimeOut(h: Host): Host {
    h.(awaiting := false, reply := Some(None))
  }

  /** The early answers of `terminate`; without one a stop request is sent. */
  function EarlyAnswer(h: Host): Option<Answer> {
    if h.terminal then Some(ConfirmedStopped)
    else if !h.registered || h.helperLost then Some(AskFacts)
    else if h.treeEmpty then Some(ConfirmedStopped)
    else None
  }

  /** `terminate` up to its first await. */
  function Terminate(h: Host): Host {
    if EarlyAnswer(h).Some? then h.(answers := h.answers + [EarlyAnswer(h).value]) else h.(awaiting := true)
  }

  /** What `requestStop` makes of its reply: null is no denial when the tree is already known to be empty. */
  function StopAnswer(h: Host): Answer
    requires h.reply.Some?
  {
    match h.reply.value
    case None => if h.treeEmpty then ConfirmedStopped else CannotDetermine
    case Some(line) => if line.Stopped? then ConfirmedStopped else CannotDetermine
  }

  /** The rest of `requestStop`, some time after the reply was settled. */
  function Conclude(h: Host): Host
    requires h.reply.Some?
  {
    h.(reply := None, treeEmpty := h.treeEmpty || h.reply.value == Some(Stopped), answers := h.answers + [StopAnswer(h)])
  }

  function SettleAnswer(h: Host): Answer {
    if h.terminal then TreeIsEmpty
    else if !h.registered then AskFacts
    else if h.treeEmpty then TreeIsEmpty
    else if h.helperLost then AskFacts
    else TreeIsResidual
  }

  /** `settleTree` once its wait is over. */
  function Settle(h: Host): Host {
    var found := !h.terminal && h.registered && h.treeEmpty;
    h.(answers := h.answers + [SettleAnswer(h)], terminal := h.terminal || found, registered := h.registered && !found)
  }

  predicate Positive(a: Answer) {
    a.ConfirmedStopped? || a.TreeIsEmpty?
  }

  /** A host that has been told: it knows of an empty tree, or is about to. */
  predicate Told(h: Host) {
    h.treeEmpty || h.terminal || h.reply == Some(Some(Stopped)) || exists k :: 0 <= k < |h.answers| && Positive(h.answers[k])
  }

  /** Only `empty` and `stopped` can tell it: no timeout, no close and no call does. */
  lemma OnlyLinesTell(h: Host, line: Line)
    ensures Told(Read(h, line)) ==> Told(h) || line.Empty? || line.Stopped?
    ensures Told(Close(h)) ==> Told(h)
    ensures Told(TimeOut(h)) ==> Told(h)
    ensures Told(Terminate(h)) ==> Told(h)
    ensures Told(Settle(h)) ==> Told(h)
    ensures h.reply.Some? && Told(Conclude(h)) ==> Told(h)
  {
    assert forall k | 0 <= k < |h.answers| :: Terminate(h).answers[k] == h.answers[k] && Settle(h).answers[k] == h.answers[k];
    if h.reply.Some? { assert forall k | 0 <= k < |h.answers| :: Conclude(h).answers[k] == h.answers[k]; }
  }

  // ---- what a session answers, from what has happened to it

  datatype Event = Heard(line: Line) | Closed | TimedOut | Asked | Looked | Settled

  predicate CanHappen(h: Host, e: Event) {
    match e
    case TimedOut => h.awaiting
    case Asked => !h.awaiting && h.reply.None?
    case Looked => h.reply.Some?
    case _ => true
  }

  function Happen(h: Host, e: Event): Host
    requires CanHappen(h, e)
  {
    match e
    case Heard(line) => Read(h, line)
    case Closed => Close(h)
    case TimedOut => TimeOut(h)
    case Asked => Terminate(h)
    case Looked => Conclude(h)
    case Settled => Settle(h)
  }

  function After(events: seq<Event>): Option<Host> {
    if events == [] then Some(OPENED)
    else
      var h := After(events[..|events| - 1]);
      if h.Some? && CanHappen(h.value, events[|events| - 1]) then Some(Happen(h.value, events[|events| - 1])) else None
  }

  /** A stop request went out: the call found the channel open and the tree not known to be empty. */
  predicate AskedAt(events: seq<Event>, a: nat)
    decreases |events|, 1
  {
    a < |events| && events[a].Asked? && Closed !in events[..a] && !KnowsEmpty(events[..a])
  }

  /** An answer, the close of the channel or the timeout settles a request. */
  predicate EndsWait(e: Event) {
    e.Closed? || e.TimedOut? || e == Heard(Stopped) || e == Heard(Residual)
  }

  predicate IsAwaited(events: seq<Event>, a: nat)
    decreases |events|, 2
  {
    AskedAt(events, a) && forall j | a < j < |events| :: !EndsWait(events[j])
  }

  /** What settled the request is the first such event after it, and the caller has not looked at it. */
  predicate IsReply(events: seq<Event>, a: nat, k: nat)
    decreases |events|, 3
  {
    k < |events| && a < k && IsAwaited(events[..k], a) && EndsWait(events[k]) && forall j | k < j < |events| :: !events[j].Looked?
  }

  /** The tree is known to be empty: the helper said so unasked, or a caller has looked at a `stopped`. */
  predicate KnowsEmpty(events: seq<Event>)
    decreases |events|, 0
  {
    Heard(Empty) in events || exists k | 0 <= k < |events| :: events[k].Looked? && RepliedStopped(events[..k])
  }

  predicate RepliedStopped(events: seq<Event>)
    decreases |events|, 4
  {
    exists a, k | 0 <= a < k < |events| :: IsReply(events, a, k) && events[k] == Heard(Stopped)
  }

  /** Remembered for good: known when the channel closed, or when the open session was asked to settle. */
  predicate Remembered(events: seq<Event>) {
    exists k | 0 <= k < |events| :: KnowsEmpty(events[..k]) && (events[k].Closed? || (events[k].Settled? && Closed !in events[..k]))
  }

  predicate ClosedTooEarly(events: seq<Event>) {
    exists k | 0 <= k < |events| :: events[k].Closed? && !KnowsEmpty(events[..k])
  }

  function ReplyBy(e: Event): Option<Line> {
    if e.Heard? then Some(e.line) else None
  }

  ghost predicate Waits(events: seq<Event>) {
    exists a: nat :: IsAwaited(events, a)
  }

  /** There is a reply nobody has looked at; None inside when the request ended without an answer. */
  ghost predicate Replied(events: seq<Event>, line: Option<Line>) {
    exists a: nat, k: nat :: k < |events| && IsReply(events, a, k) && ReplyBy(events[k]) == line
  }

  ghost predicate Agrees(h: Host, events: seq<Event>) {
    && (h.treeEmpty <==> KnowsEmpty(events)) && (h.helperLost <==> ClosedTooEarly(events)) && (h.terminal <==> Remembered(events))
    && (h.registered <==> Closed !in events && !Remembered(events))
    && (h.awaiting <==> Waits(events)) && (h.awaiting ==> h.reply.None?)
    && (forall line :: Replied(events, line) <==> h.reply == Some(line))
  }

  // ---- one more event

  lemma AskedAtSnoc(front: seq<Event>, e: Event, a: nat)
    ensures AskedAt(front + [e], a) <==>
            if a < |front| then AskedAt(front, a) else a == |front| && e.Asked? && Closed !in front && !KnowsEmpty(front)
  {
    var events := front + [e];
    if a < |front| {
      assert events[..a] == front[..a];
    } else if a == |front| {
      assert events[..a] == front;
    }
  }

  lemma IsAwaitedSnoc(front: seq<Event>, e: Event, a: nat)
    ensures IsAwaited(front + [e], a) <==>
            if a < |front| then IsAwaited(front, a) && !EndsWait(e) else a == |front| && e.Asked? && Closed !in front && !KnowsEmpty(front)
  {
    AskedAtSnoc(front, e, a);
    var events := front + [e];
    assert events[|front|] == e && forall j | 0 <= j < |front| :: events[j] == front[j];
  }

  lemma AwaitedWasAsked(events: seq<Event>, a: nat)
    ensures IsAwaited(events, a) ==> a < |events|
  {
    if IsAwaited(events, a) { assert AskedAt(events, a); }
  }

  lemma IsReplySnoc(front: seq<Event>, e: Event, a: nat, k: nat)
    ensures IsReply(front + [e], a, k) <==>
            if k < |front| then IsReply(front, a, k) && !e.Looked? else k == |front| && IsAwaited(front, a) && EndsWait(e)
  {
    var events := front + [e];
    assert events[|front|] == e && forall j | 0 <= j < |front| :: events[j] == front[j];
    if k < |front| {
      assert events[..k] == front[..k];
    } else if k == |front| {
      assert events[..k] == front;
      AwaitedWasAsked(front, a);
    }
  }

  lemma KnowsEmptySnoc(front: seq<Event>, e: Event)
    ensures KnowsEmpty(front + [e]) <==> KnowsEmpty(front) || e == Heard(Empty) || (e.Looked? && RepliedStopped(front))
  {
    hide RepliedStopped;
    var events := front + [e];
    assert events[|front|] == e && events[..|front|] == front;
    if k :| 0 <= k < |events| && events[k].Looked? && RepliedStopped(events[..k]) {
      if k < |front| { assert events[..k] == front[..k]; }
    }
    if k :| 0 <= k < |front| && front[k].Looked? && RepliedStopped(front[..k]) {
      assert events[..k] == front[..k] && events[k].Looked?;
    }
  }

  lemma RememberedSnoc(front: seq<Event>, e: Event)
    ensures Remembered(front + [e]) <==> Remembered(front) || (KnowsEmpty(front) && (e.Closed? || (e.Settled? && Closed !in front)))
    ensures ClosedTooEarly(front + [e]) <==> ClosedTooEarly(front) || (e.Closed? && !KnowsEmpty(front))
  {
    hide KnowsEmpty;
    var events := front + [e];
    assert events[|front|] == e && events[..|front|] == front;
    assert forall k | 0 <= k < |front| :: events[k] == front[k] && events[..k] == front[..k];
  }

  lemma {:induction false} RememberedIsKnown(events: seq<Event>)
    ensures Remembered(events) ==> KnowsEmpty(events)
    ensures ClosedTooEarly(events) ==> Closed in events
  {
    if events != [] {
      var front, e := events[..|events| - 1], events[|events| - 1];
      RememberedIsKnown(front);
      assert events == front + [e];
      RememberedSnoc(front, e);
      KnowsEmptySnoc(front, e);
    }
  }

  lemma {:induction false} HistoryDecides(events: seq<Event>)
    requires After(events).Some?
    ensures Agrees(After(events).value, events)
  {
    if events == [] {
    } else {
      var front, e := events[..|events| - 1], events[|events| - 1];
      HistoryDecides(front);
      assert events == front + [e];
      HappenAgrees(After(front).value, front, e);
    }
  }

  lemma HappenAgrees(h: Host, front: seq<Event>, e: Event)
    requires Agrees(h, front) && CanHappen(h, e)
    ensures Agrees(Happen(h, e), front + [e])
  {
    hide KnowsEmpty, Remembered, ClosedTooEarly, Waits, Replied, RepliedStopped;
    var n, events := Happen(h, e), front + [e];
    RememberedIsKnown(front);
    RememberedSnoc(front, e);
    KnowsEmptySnoc(front, e);
    WaitAgrees(h, front, e);
    ReplyAgrees(h, front, e);
    if e.Looked? { StoppedAgrees(h, front); }
  }

  lemma StoppedAgrees(h: Host, front: seq<Event>)
    requires Agrees(h, front)
    ensures RepliedStopped(front) <==> h.reply == Some(Some(Stopped))
  {
    assert Replied(front, Some(Stopped)) <==> h.reply == Some(Some(Stopped));
    hide IsReply;
    if Replied(front, Some(Stopped)) {
      var a: nat, k: nat :| k < |front| && IsReply(front, a, k) && ReplyBy(front[k]) == Some(Stopped);
    }
  }

  lemma WaitAgrees(h: Host, front: seq<Event>, e: Event)
    requires Agrees(h, front) && CanHappen(h, e)
    ensures Happen(h, e).awaiting <==> Waits(front + [e])
  {
    hide KnowsEmpty, Remembered, ClosedTooEarly, IsAwaited, Replied;
    RememberedIsKnown(front);
    if Waits(front + [e]) {
      var a: nat :| IsAwaited(front + [e], a);
      IsAwaitedSnoc(front, e, a);
    }
    if h.awaiting {
      var a: nat :| IsAwaited(front, a);
      AwaitedWasAsked(front, a);
      IsAwaitedSnoc(front, e, a);
    }
    IsAwaitedSnoc(front, e, |front|);
  }

  lemma ReplyAgrees(h: Host, front: seq<Event>, e: Event)
    requires Agrees(h, front) && CanHappen(h, e)
    ensures forall line :: Replied(front + [e], line) <==> Happen(h, e).reply == Some(line)
  {
    hide KnowsEmpty, Remembered, ClosedTooEarly, IsAwaited, IsReply;
    var n, events := Happen(h, e), front + [e];
    if h.reply.Some? {
      assert Replied(front, h.reply.value);
      var a: nat, k: nat :| k < |front| && IsReply(front, a, k) && ReplyBy(front[k]) == h.reply.value;
      IsReplySnoc(front, e, a, k);
    }
    if h.awaiting {
      var a: nat :| IsAwaited(front, a);
      IsReplySnoc(front, e, a, |front|);
    }
    forall line | Replied(events, line) ensures n.reply == Some(line) {
      var a: nat, k: nat :| k < |events| && IsReply(events, a, k) && ReplyBy(events[k]) == line;
      IsReplySnoc(front, e, a, k);
      if k < |front| { assert Replied(front, line); }
    }
    forall line | n.reply == Some(line) ensures Replied(events, line) {}
  }

  /** Settled: remembered, or known while the channel is open. */
  predicate CountsAsEmpty(events: seq<Event>) {
    Remembered(events) || (Closed !in events && KnowsEmpty(events))
  }

  /** Every answer, from what has happened alone. While the channel is open an ask is answered at once, or awaited, by
      whether the tree is known to be empty; afterwards only what was remembered counts, and anything else needs facts from
      the operating system. A stop is confirmed exactly by a `stopped`, or, where the request ended without an answer,
      by an emptiness known by then. */
  lemma AnswersExactly(events: seq<Event>)
    requires After(events).Some?
    ensures var h := After(events).value;
            && EarlyAnswer(h) == (if CountsAsEmpty(events) then Some(ConfirmedStopped) else if Closed in events then Some(AskFacts) else None)
            && SettleAnswer(h) == (if CountsAsEmpty(events) then TreeIsEmpty else if Closed in events then AskFacts else TreeIsResidual)
            && (h.reply.Some? ==>
                  StopAnswer(h) == if Replied(events, Some(Stopped)) || (Replied(events, None) && KnowsEmpty(events)) then ConfirmedStopped
                                   else CannotDetermine)
  {
    HistoryDecides(events);
    RememberedIsKnown(events);
    hide KnowsEmpty, Remembered, ClosedTooEarly, Waits, Replied;
    var h := After(events).value;
    assert forall line :: Replied(events, line) <==> h.reply == Some(line);
  }

  /** What a call is answered is what is recorded, and nothing else is. */
  lemma EveryAnswerIsRecorded(h: Host, e: Event)
    requires CanHappen(h, e)
    ensures Happen(h, e).answers ==
            h.answers + match e
                        case Asked => (if EarlyAnswer(h).Some? then [EarlyAnswer(h).value] else [])
                        case Looked => [StopAnswer(h)]
                        case Settled => [SettleAnswer(h)]
                        case _ => []
  {
  }

  /** One session object. */
  class HeldSession {
    var treeEmpty: bool
    var helperLost: bool
    var terminal: bool
    var registered: bool
    var awaiting: bool
    var reply: Option<Option<Line>>
    ghost var answers: seq<Answer>

    ghost function Now(): Host
      reads this
    {
      Host(treeEmpty, helperLost, terminal, registered, awaiting, reply, answers)
    }

    constructor ()
      ensures Now() == OPENED
    {
      treeEmpty, helperLost, terminal, registered, awaiting, reply, answers := false, false, false, true, false, None, [];
    }

    method OnLine(line: Line)
      modifies this
      ensures Now() == Read(old(Now()), line)
    {
      if line == Empty {
        treeEmpty := true;
      } else if line == Stopped || line == Residual {
        if awaiting { awaiting, reply := false, Some(Some(line)); }
      }
    }

    method OnClose()
      modifies this
      ensures Now() == Close(old(Now()))
    {
      if !treeEmpty { helperLost := true; }
      if awaiting { awaiting, reply := false, Some(None); }
      if treeEmpty { terminal := true; }
      registered := false;
    }

    method OnStopTimeout()
      requires awaiting
      modifies this
      ensures Now() == TimeOut(old(Now()))
    {
      awaiting, reply := false, Some(None);
    }

    /** None where the caller goes on to wait for the helper's answer. */
    method BeginTerminate() returns (r: Option<Answer>)
      requires !awaiting && reply.None?
      modifies this
      ensures r == EarlyAnswer(old(Now())) && Now() == Terminate(old(Now()))
    {
      if terminal {
        r := Some(ConfirmedStopped);
      } else if !registered || helperLost {
        r := Some(AskFacts);
      } else if treeEmpty {
        r := Some(ConfirmedStopped);
      } else {
        awaiting := true;
        return None;
      }
      answers := answers + [r.value];
    }

    method FinishTerminate() returns (r: Answer)
      requires reply.Some?
      modifies this
      ensures r == StopAnswer(old(Now())) && Now() == Conclude(old(Now()))
    {
      var line := reply.value;
      reply := None;
      if line == None && treeEmpty {
        r := ConfirmedStopped;
      } else if line == Some(Stopped) {
        treeEmpty := true;
        r := ConfirmedStopped;
      } else {
        r := CannotDetermine;
      }
      answers := answers + [r];
    }

    method SettleTree() returns (r: Answer)
      modifies this
      ensures r == SettleAnswer(old(Now())) && Now() == Settle(old(Now()))
    {
      if terminal {
        r := TreeIsEmpty;
      } else if !registered {
        r := AskFacts;
      } else if treeEmpty {
        terminal, registered := true, false;
        r := TreeIsEmpty;
      } else if helperLost {
        r := AskFacts;
      } else {
        r := TreeIsResidual;
      }
      answers := answers + [r];
    }
  }
}
