/** Where a channel's balances come from, what its disputes rest on, and how long a forced close waits. */
module ChannelAccounts {
  import opened Word64
  import opened Results
  import opened ChannelModel
  import opened ChannelProofs

  /** What last fixed both balances. */
  datatype Origin = Deposits | Agreed(state: SignedState) | Awarded(honest: Address)

  /** The balances at that point, and what has gone from A to B since, less what has come back. */
  datatype Trail = Trail(origin: Origin, a: u64, b: u64, net: int)

  function Toward(fromA: bool, amount: int): int { if fromA then amount else -amount }

  /** The trail after a step on the channel that was not refused. */
  ghost function Extend(m: Manager, op: Op, t: Trail): Trail
    requires op.id in m.channels && op.id in m.states
  {
    var c := m.channels[op.id];
    match op
    case UpdateOp(_, s) => Trail(Agreed(s), s.balanceA, s.balanceB, 0)
    case CloseOp(_, s, _) => Trail(Agreed(s), s.balanceA, s.balanceB, 0)
    case ResolveOp(_, honest, _) =>
      if honest == c.partyA then Trail(Awarded(honest), c.Total(), 0, 0) else Trail(Awarded(honest), 0, c.Total(), 0)
    case TransferOp(_, amount, fromA) => t.(net := t.net + Toward(fromA, amount))
    case CompleteOp(_, hid, _) =>
      if hid in m.states[op.id].htlcs
      then
        var h := m.states[op.id].htlcs[hid];
        t.(net := t.net + Toward(h.sender == c.partyA, h.amount))
      else t
    case _ => t
  }

  /** The trail of channel `id` over a run. */
  ghost function History(env: Env, m: Manager, ops: seq<Op>, id: Id, t: Trail): Trail
    decreases |ops|
  {
    if ops == [] then t
    else
      var op := ops[0];
      var t' := if op.id == id && id in m.channels && id in m.states && Try(env, m, op).Ok? then Extend(m, op, t) else t;
      History(env, Step(env, m, op), ops[1..], id, t')
  }

  /** Both balances are what the trail says, and its origin is a fair one. */
  ghost predicate Explains(env: Env, c: Channel, t: Trail) {
    && c.balanceA == (t.a - t.net) % MOD && c.balanceB == (t.b + t.net) % MOD
    && match t.origin
       case Deposits => true
       case Agreed(s) => s.channelId == c.id && s.balanceA == t.a && s.balanceB == t.b && BothSigned(env, c, s)
       case Awarded(honest) =>
         || (honest == c.partyA && t.a == c.Total() && t.b == 0)
         || (honest == c.partyB && t.b == c.Total() && t.a == 0)
  }

  lemma MoveExplained(env: Env, c: Channel, t: Trail, amount: u64, fromA: bool)
    requires Explains(env, c, t)
    ensures Explains(env, Bumped(env, Move(c, amount, fromA)), t.(net := t.net + Toward(fromA, amount)))
  {
    MoveKeepsTotal(c, amount, fromA);
    BumpKeeps(env, Move(c, amount, fromA));
    if fromA {
      SubReduced(t.a - t.net, amount);
      AddReduced(t.b + t.net, amount);
    } else {
      AddReduced(t.a - t.net, amount);
      SubReduced(t.b + t.net, amount);
    }
  }

  lemma ResolveExplained(env: Env, m: Manager, op: Op, t: Trail)
    requires op.ResolveOp? && op.id in m.channels && op.id in m.states && Try(env, m, op).Ok?
    ensures op.id in Step(env, m, op).channels && Explains(env, Step(env, m, op).channels[op.id], Extend(m, op, t))
  {
    ResolvePays(m, op.id, op.honest, op.now);
    AddCases(m.channels[op.id].Total(), 0);
    AddCases(0, m.channels[op.id].Total());
  }

  lemma AgreedExplained(env: Env, m: Manager, op: Op, t: Trail)
    requires ManagerWF(env, m) && op.id in m.channels && Try(env, m, op).Ok? && (op.UpdateOp? || op.CloseOp?)
    ensures op.id in Step(env, m, op).channels && Explains(env, Step(env, m, op).channels[op.id], Extend(m, op, t))
  {
    assert ChannelWF(env, m, op.id);
  }

  lemma TransferExplained(env: Env, m: Manager, op: Op, t: Trail)
    requires op.TransferOp? && op.id in m.channels && op.id in m.states && Try(env, m, op).Ok?
    requires Explains(env, m.channels[op.id], t)
    ensures op.id in Step(env, m, op).channels && Explains(env, Step(env, m, op).channels[op.id], Extend(m, op, t))
  {
    MoveExplained(env, m.channels[op.id], t, op.amount, op.fromA);
  }

  lemma CompleteExplained(env: Env, m: Manager, op: Op, t: Trail)
    requires ManagerWF(env, m) && op.CompleteOp? && op.id in m.channels && Try(env, m, op).Ok?
    requires Explains(env, m.channels[op.id], t)
    ensures op.id in Step(env, m, op).channels && Explains(env, Step(env, m, op).channels[op.id], Extend(m, op, t))
  {
    var c, h := m.channels[op.id], m.states[op.id].htlcs[op.hid];
    assert ChannelWF(env, m, op.id) && PartiesOf(c, h);
    MoveExplained(env, c, t, h.amount, h.sender == c.partyA);
  }

  /** The steps that touch no balance. */
  ghost predicate Bookkeeping(op: Op) {
    || op.DisputeOp? || op.ForceCloseOp? || op.FinalizeOp? || op.AddHtlcOp? || op.ExpireOp? || op.RemoveOp?
    || op.SettleExpiredOp?
  }

  lemma BookkeepingExplained(env: Env, m: Manager, op: Op, t: Trail)
    requires op.id in m.channels && op.id in m.states && Try(env, m, op).Ok? && Bookkeeping(op)
    requires Explains(env, m.channels[op.id], t)
    ensures op.id in Step(env, m, op).channels && Explains(env, Step(env, m, op).channels[op.id], Extend(m, op, t))
  {
    assert Extend(m, op, t) == t;
  }

  lemma StepExplained(env: Env, m: Manager, op: Op, t: Trail)
    requires ManagerWF(env, m) && op.id in m.channels && Try(env, m, op).Ok?
    requires Explains(env, m.channels[op.id], t)
    ensures op.id in Step(env, m, op).channels && Explains(env, Step(env, m, op).channels[op.id], Extend(m, op, t))
  {
    if op.UpdateOp? || op.CloseOp? {
      AgreedExplained(env, m, op, t);
    } else if op.TransferOp? {
      TransferExplained(env, m, op, t);
    } else if op.CompleteOp? {
      CompleteExplained(env, m, op, t);
    } else if op.ResolveOp? {
      ResolveExplained(env, m, op, t);
    } else {
      BookkeepingExplained(env, m, op, t);
    }
  }

  /** Every balance is accounted for: over every run, what a channel holds is what was last deposited, signed by
      both parties or awarded, plus and minus exactly the transfers and completed HTLCs since then. */
  lemma {:induction false} RunExplained(env: Env, m: Manager, ops: seq<Op>, id: Id, t: Trail)
    requires ManagerWF(env, m) && id in m.channels && Explains(env, m.channels[id], t)
    ensures id in Run(env, m, ops).channels && Explains(env, Run(env, m, ops).channels[id], History(env, m, ops, id, t))
    decreases |ops|
  {
    if ops != [] {
      var op := ops[0];
      StepKeeps(env, m, op);
      if op.id == id && Try(env, m, op).Ok? {
        StepExplained(env, m, op, t);
        RunExplained(env, Step(env, m, op), ops[1..], id, Extend(m, op, t));
      } else {
        StepGood(env, m, op);
        assert Step(env, m, op).channels[id] == m.channels[id];
        RunExplained(env, Step(env, m, op), ops[1..], id, t);
      }
    }
  }

  /** So from its opening on: the trail starts at the deposits. */
  lemma OpenedExplained(env: Env, m: Manager, open: Op, ops: seq<Op>)
    requires ManagerWF(env, m) && open.OpenOp? && Try(env, m, open).Ok?
    ensures var m1, t := Step(env, m, open), Trail(Deposits, open.depositA, open.depositB, 0);
            var m' := Run(env, m1, ops);
            open.id in m'.channels && Explains(env, m'.channels[open.id], History(env, m1, ops, open.id, t))
  {
    StepKeeps(env, m, open);
    RunExplained(env, Step(env, m, open), ops, open.id, Trail(Deposits, open.depositA, open.depositB, 0));
  }

  // ---------------------------------------------------------------- disputes

  /** A dispute rests on a state both parties signed, ends one challenge period after its start, and names a
      party as its winner once it is resolved. */
  ghost predicate Founded(env: Env, c: Channel, d: Dispute) {
    && BothSigned(env, c, d.evidence)
    && d.end == d.start + env.challengePeriod && c.disputeEnd == Some(d.end)
    && (d.resolved <==> d.winner.Some?)
    && (d.resolved ==> d.winner.value == c.partyA || d.winner.value == c.partyB)
  }

  ghost predicate AllFounded(env: Env, m: Manager) {
    forall id :: id in m.disputes ==> id in m.channels && Founded(env, m.channels[id], m.disputes[id])
  }

  lemma StepFounded(env: Env, m: Manager, op: Op)
    requires ManagerWF(env, m) && AllFounded(env, m)
    ensures AllFounded(env, Step(env, m, op))
  {
    if Try(env, m, op).Ok? {
      StepGood(env, m, op);
      if op.id in m.channels {
        assert ChannelWF(env, m, op.id);
        OwnDisputeFounded(env, m, op);
      }
    }
  }

  lemma OwnDisputeFounded(env: Env, m: Manager, op: Op)
    requires ManagerWF(env, m) && AllFounded(env, m) && op.id in m.channels && Try(env, m, op).Ok?
    ensures var m' := Step(env, m, op);
            op.id in m'.disputes ==> op.id in m'.channels && Founded(env, m'.channels[op.id], m'.disputes[op.id])
  {
    assert ChannelWF(env, m, op.id);
  }

  /** In every run, from no channels at all, every dispute is well founded. */
  lemma {:induction false} RunFounded(env: Env, m: Manager, ops: seq<Op>)
    requires ManagerWF(env, m) && AllFounded(env, m)
    ensures AllFounded(env, Run(env, m, ops))
    decreases |ops|
  {
    if ops != [] {
      StepKeeps(env, m, ops[0]);
      StepFounded(env, m, ops[0]);
      RunFounded(env, Step(env, m, ops[0]), ops[1..]);
    }
  }

  // ---------------------------------------------------------------- forced closes

  lemma CompleteKeepsDeadline(env: Env, m: Manager, op: Op)
    requires op.CompleteOp? && op.id in m.channels && op.id in m.states && Try(env, m, op).Ok?
    ensures var m' := Step(env, m, op);
            op.id in m'.channels && m'.channels[op.id].disputeEnd == m.channels[op.id].disputeEnd
  {
  }

  lemma OwnClosingStep(env: Env, m: Manager, op: Op)
    requires op.id in m.channels && op.id in m.states && m.states[op.id].status.Closing? && Try(env, m, op).Ok?
    ensures var m' := Step(env, m, op);
            op.id in m'.channels && op.id in m'.states
            && (m'.states[op.id].status.Closing? ==> m'.channels[op.id].disputeEnd == m.channels[op.id].disputeEnd)
  {
    if op.CompleteOp? {
      CompleteKeepsDeadline(env, m, op);
    }
  }

  lemma ClosingStep(env: Env, m: Manager, op: Op, id: Id)
    requires ManagerWF(env, m) && id in m.channels && m.states[id].status.Closing?
    ensures var m' := Step(env, m, op);
            id in m'.channels && id in m'.states
            && (m'.states[id].status.Closing? ==> m'.channels[id].disputeEnd == m.channels[id].disputeEnd)
  {
    if Try(env, m, op).Ok? {
      if op.id == id { OwnClosingStep(env, m, op); } else { StepGood(env, m, op); }
    }
  }

  lemma {:induction false} ClosingKeepsDeadline(env: Env, m: Manager, ops: seq<Op>, id: Id)
    requires ManagerWF(env, m) && id in m.channels && m.states[id].status.Closing?
    ensures var m' := Run(env, m, ops);
            id in m'.channels && id in m'.states
            && (m'.states[id].status.Closing? ==> m'.channels[id].disputeEnd == m.channels[id].disputeEnd)
    decreases |ops|
  {
    RunConserves(env, m, ops, id);
    if ops != [] {
      var m1 := Step(env, m, ops[0]);
      ClosingStep(env, m, ops[0], id);
      StepKeeps(env, m, ops[0]);
      if m1.states[id].status.Closing? {
        ClosingKeepsDeadline(env, m1, ops[1..], id);
      } else {
        assert Evolves(m, m1, id);
        RunConserves(env, m1, ops[1..], id);
      }
    }
  }

  /** A forced close waits: whatever runs after it, FinalizeClose succeeds no earlier than one challenge period
      after the ForceClose. */
  lemma ForcedCloseWaits(env: Env, m: Manager, force: Op, ops: seq<Op>, now: int)
    requires ManagerWF(env, m) && force.ForceCloseOp? && Try(env, m, force).Ok?
    requires Try(env, Run(env, Step(env, m, force), ops), FinalizeOp(force.id, now)).Ok?
    ensures now >= force.now + env.challengePeriod
  {
    StepKeeps(env, m, force);
    ClosingKeepsDeadline(env, Step(env, m, force), ops, force.id);
  }
}
