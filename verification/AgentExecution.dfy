/** The command group of one quantum (`execution.ts`): reservation, pending set and finish barrier. */
module AgentExecution {

  /** How a submitted command ends: `failed` covers a rejection and an indeterminate outcome. */
  datatype Outcome = Outcome(failed: bool, error: string)

  /** `usage.pendingCommands` of a Run, shared by all its quanta. */
  class Usage {
    const maxPendingCommands: nat
    var pendingCommands: nat

    constructor (maxPendingCommands: nat)
      ensures this.maxPendingCommands == maxPendingCommands && pendingCommands == 0
    {
      this.maxPendingCommands, pendingCommands := maxPendingCommands, 0;
    }
  }

  class AgentCommandGroup {
    const usage: Usage
    var open: bool
    /** Submitted commands whose outcome has not been taken in. */
    var pending: set<nat>
    /** Those among them that still hold their reservation. */
    var reserved: set<nat>
    var failures: seq<string>
    /** Reservations of the Run that other quanta hold. */
    ghost var elsewhere: nat

    ghost predicate Valid()
      reads this, usage
    {
      && reserved <= pending
      && usage.pendingCommands == |reserved| + elsewhere
      && usage.pendingCommands <= usage.maxPendingCommands
    }

    constructor (usage: Usage)
      requires usage.pendingCommands <= usage.maxPendingCommands
      ensures Valid() && this.usage == usage && open && pending == {} && failures == [] && elsewhere == usage.pendingCommands
    {
      this.usage := usage;
      open, pending, reserved, failures, elsewhere := true, {}, {}, [], usage.pendingCommands;
    }

    /** `executeProcess`: `refused` is what the abort signal or the scope and admission checks raise. */
    method Submit(command: nat, refused: bool, error: string) returns (accepted: bool)
      requires Valid() && command !in pending
      modifies this, usage
      ensures Valid() && elsewhere == old(elsewhere) && open == old(open)
      ensures accepted <==> old(open) && old(failures) == [] && !refused && old(usage.pendingCommands) < usage.maxPendingCommands
      ensures pending == if accepted then old(pending) + {command} else old(pending)
      ensures reserved == if accepted then old(reserved) + {command} else old(reserved)
      ensures failures == if accepted || !old(open) || old(failures) != [] then old(failures) else [error]
    {
      if !open { return false; }
      if failures != [] { return false; }
      assert command !in reserved;
      if refused || usage.pendingCommands >= usage.maxPendingCommands {
        failures := failures + [error];
        return false;
      }
      usage.pendingCommands := usage.pendingCommands + 1;
      pending := pending + {command};
      reserved := reserved + {command};
      return true;
    }

    /** The `finally` that gives the reservation back, whatever the outcome. */
    method Release(command: nat)
      requires Valid() && command in reserved
      modifies this`reserved, usage
      ensures Valid() && reserved == old(reserved) - {command} && usage.pendingCommands == old(usage.pendingCommands) - 1
    {
      usage.pendingCommands := usage.pendingCommands - 1;
      reserved := reserved - {command};
    }

    /** The outcome is taken in after the release. */
    method Settle(command: nat, outcome: Outcome)
      requires Valid() && command in pending && command !in reserved
      modifies this`pending, this`failures
      ensures Valid() && pending == old(pending) - {command}
      ensures failures == if outcome.failed then old(failures) + [outcome.error] else old(failures)
    {
      if outcome.failed { failures := failures + [outcome.error]; }
      pending := pending - {command};
    }

    /** `finish`, with the commands ending in any order: when it returns the group accepts nothing more,
        holds no reservation, and has reported a failure if one of its commands had one. */
    method Finish(outcomes: map<nat, Outcome>) returns (reported: seq<string>)
      requires Valid() && pending <= outcomes.Keys
      modifies this, usage
      ensures Valid() && !open && pending == {} && reserved == {}
      ensures usage.pendingCommands == elsewhere == old(elsewhere)
      ensures reported == failures && old(failures) <= reported
      ensures forall c | c in old(pending) && outcomes[c].failed :: outcomes[c].error in reported
      ensures (forall c | c in old(pending) :: !outcomes[c].failed) ==> reported == old(failures)
    {
      open := false;
      while pending != {}
        invariant Valid() && !open && elsewhere == old(elsewhere) && pending <= old(pending) && old(failures) <= failures
        invariant forall c | c in old(pending) && c !in pending && outcomes[c].failed :: outcomes[c].error in failures
        invariant (forall c | c in old(pending) :: !outcomes[c].failed) ==> failures == old(failures)
        decreases pending
      {
        var c :| c in pending;
        if c in reserved { Release(c); }
        ghost var before := failures;
        Settle(c, outcomes[c]);
        assert forall e | e in before :: e in failures;
      }
      reported := failures;
    }
  }
}
