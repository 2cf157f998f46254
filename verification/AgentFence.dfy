/** The interruption fence, read off the journal of one agent. */
module AgentFence {
  import opened AgentScopes

  predicate Interrupts(e: Event) {
    e.status.Interrupted? || e.requested
  }

  predicate Steps(e: Event) {
    e.transition.StepStart? || e.transition.StepCompletion?
  }

  /** After an interruption is recorded no step starts or completes until the agent has been restored
      and, after that, resumed. */
  ghost predicate FenceHolds(log: seq<Event>) {
    forall i, j | 0 <= i < j < |log| && Interrupts(log[i]) && Steps(log[j]) ::
      exists a, b :: i < a < b < j && log[a].transition.Restoration? && log[b].transition.Resumption?
  }

  // ---- the same, one event at a time

  datatype Fence = Open | Fenced | Lifted

  function Next(f: Fence, e: Event): Fence {
    if Interrupts(e) then Fenced
    else if e.transition.Restoration? && f.Fenced? then Lifted
    else if e.transition.Resumption? && f.Lifted? then Open
    else f
  }

  function FenceOf(log: seq<Event>): Fence {
    if log == [] then Open else Next(FenceOf(log[..|log| - 1]), log[|log| - 1])
  }

  /** Every step was recorded with the fence open. */
  ghost predicate Respected(log: seq<Event>) {
    forall j | 0 <= j < |log| && Steps(log[j]) :: FenceOf(log[..j]).Open?
  }

  lemma FenceStep(log: seq<Event>, e: Event)
    ensures FenceOf(log + [e]) == Next(FenceOf(log), e)
  {
    assert (log + [e])[..|log|] == log;
  }

  lemma RespectedStep(log: seq<Event>, e: Event)
    requires Respected(log) && (Steps(e) ==> FenceOf(log).Open?)
    ensures Respected(log + [e])
  {
    forall j | 0 <= j < |log + [e]| && Steps((log + [e])[j]) ensures FenceOf((log + [e])[..j]).Open? {
      assert (log + [e])[..j] == if j < |log| then log[..j] else log;
    }
  }

  ghost predicate RestoredAfter(log: seq<Event>, i: nat) {
    exists a :: i < a < |log| && log[a].transition.Restoration?
  }

  ghost predicate ResumedAfter(log: seq<Event>, i: nat) {
    exists a, b :: i < a < b < |log| && log[a].transition.Restoration? && log[b].transition.Resumption?
  }

  lemma LaterAnswers(front: seq<Event>, e: Event, i: nat)
    requires i < |front|
    ensures RestoredAfter(front + [e], i) <==> RestoredAfter(front, i) || e.transition.Restoration?
    ensures ResumedAfter(front + [e], i) <==> ResumedAfter(front, i) || (RestoredAfter(front, i) && e.transition.Resumption?)
    ensures ResumedAfter(front, i) ==> RestoredAfter(front, i)
  {
    var log := front + [e];
    assert log[|front|] == e && forall k | 0 <= k < |front| :: log[k] == front[k];
    if RestoredAfter(front, i) {
      var a :| i < a < |front| && front[a].transition.Restoration?;
      assert log[a].transition.Restoration?;
    }
    if ResumedAfter(front, i) {
      var a, b :| i < a < b < |front| && front[a].transition.Restoration? && front[b].transition.Resumption?;
      assert log[a].transition.Restoration? && log[b].transition.Resumption?;
    }
  }

  lemma NotAnsweredYet(log: seq<Event>)
    requires log != []
    ensures !RestoredAfter(log, |log| - 1) && !ResumedAfter(log, |log| - 1)
  {
  }

  /** The fence is open exactly when every interruption has been answered. */
  lemma {:induction false} OpenExactly(log: seq<Event>)
    ensures FenceOf(log).Open? <==> forall i: nat | i < |log| && Interrupts(log[i]) :: ResumedAfter(log, i)
    ensures !FenceOf(log).Fenced? <==> forall i: nat | i < |log| && Interrupts(log[i]) :: RestoredAfter(log, i)
    decreases |log|
  {
    hide RestoredAfter, ResumedAfter;
    if log != [] {
      var n := |log| - 1;
      var front, e := log[..n], log[n];
      OpenExactly(front);
      forall i: nat | i < n
        ensures RestoredAfter(log, i) <==> RestoredAfter(front, i) || e.transition.Restoration?
        ensures ResumedAfter(log, i) <==> ResumedAfter(front, i) || (RestoredAfter(front, i) && e.transition.Resumption?)
        ensures ResumedAfter(front, i) ==> RestoredAfter(front, i)
      {
        LaterAnswers(front, e, i);
        assert front + [e] == log;
      }
      NotAnsweredYet(log);
    }
  }

  lemma FenceHoldsExactly(log: seq<Event>)
    ensures FenceHolds(log) <==> Respected(log)
  {
    forall j | 0 <= j < |log| ensures FenceOf(log[..j]).Open? <==> Answered(log, j) {
      OpenExactly(log[..j]);
      forall i: nat | i < j
        ensures ResumedAfter(log[..j], i) <==> exists a, b :: i < a < b < j && log[a].transition.Restoration? && log[b].transition.Resumption?
      {
        assert forall k | 0 <= k < j :: log[..j][k] == log[k];
      }
    }
    assert FenceHolds(log) <==> forall j | 0 <= j < |log| && Steps(log[j]) :: Answered(log, j);
  }

  ghost predicate Answered(log: seq<Event>, j: nat) {
    j <= |log| && forall i: nat | i < j && Interrupts(log[i]) ::
      exists a, b :: i < a < b < j && log[a].transition.Restoration? && log[b].transition.Resumption?
  }
}
