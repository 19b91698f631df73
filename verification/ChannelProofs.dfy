/** What every step, and so every run, of the channel manager keeps. */
module ChannelProofs {
  import opened Word64
  import opened Results
  import opened ChannelModel

  /** Open, Closing, InDispute, Closed. */
  function Rank(s: Status): nat {
    match s case Open => 0 case Closing => 1 case InDispute => 2 case Closed => 3
  }

  /** A channel, its runtime state and its dispute record belong together. */
  ghost predicate ChannelWF(env: Env, m: Manager, id: Id)
    requires id in m.channels && id in m.states
  {
    var c, r := m.channels[id], m.states[id];
    && c.id == id
    && (!r.status.Closed? ==> c.stateHash == HashOf(env, c))
    && (r.status.Closing? ==> c.disputeEnd.Some?)
    && (id in m.disputes ==> r.status.InDispute? || r.status.Closed?)
    && (id in m.disputes && m.disputes[id].resolved ==> r.status.Closed?)
    && (r.status.InDispute? ==> id in m.disputes && !m.disputes[id].resolved)
    && (forall h :: h in r.htlcs ==> PartiesOf(c, r.htlcs[h]))
  }

  /** An HTLC runs between the two parties. */
  ghost predicate PartiesOf(c: Channel, h: Htlc) {
    || (h.sender == c.partyA && h.receiver == c.partyB && c.partyA != c.partyB)
    || (h.sender == c.partyB && h.receiver == c.partyA && c.partyA != c.partyB)
  }

  ghost predicate ManagerWF(env: Env, m: Manager) {
    && m.channels.Keys == m.states.Keys && m.disputes.Keys <= m.channels.Keys
    && forall id {:trigger ChannelWF(env, m, id)} :: id in m.channels ==> ChannelWF(env, m, id)
  }

  /** What one step may do to a channel: the total value stays, the status moves forward only, the
      sequence number does not fall until the channel is closed (unless it wraps), and a dispute record,
      once there, keeps its evidence and its dates, and once resolved never changes. */
  ghost predicate Evolves(m: Manager, m': Manager, id: Id)
    requires id in m.channels && id in m.states
  {
    && id in m'.channels && id in m'.states
    && var c, c', s, s' := m.channels[id], m'.channels[id], m.states[id].status, m'.states[id].status;
    && c'.id == c.id && c'.partyA == c.partyA && c'.partyB == c.partyB
    && c'.Total() == c.Total()
    && Rank(s) <= Rank(s')
    && (!s'.Closed? ==> c.sequence <= c'.sequence || c.sequence == MOD - 1)
    && (id in m.disputes ==> id in m'.disputes && SameDispute(m.disputes[id], m'.disputes[id]))
  }

  ghost predicate SameDispute(d: Dispute, d': Dispute) {
    d'.evidence == d.evidence && d'.start == d.start && d'.end == d.end && (d.resolved ==> d' == d)
  }

  /** Outside its own channel a step does nothing. */
  ghost predicate Elsewhere(m: Manager, m': Manager, id: Id) {
    && m'.channels.Keys == m.channels.Keys + {id} && m'.states.Keys == m.states.Keys + {id}
    && m'.disputes.Keys <= m.disputes.Keys + {id} && m.disputes.Keys <= m'.disputes.Keys
    && (forall j :: j in m.channels && j != id ==> m'.channels[j] == m.channels[j])
    && (forall j :: j in m.states && j != id ==> m'.states[j] == m.states[j])
    && (forall j :: j in m.disputes && j != id ==> m'.disputes[j] == m.disputes[j])
  }

  lemma MoveKeepsTotal(c: Channel, amount: u64, fromA: bool)
    ensures Move(c, amount, fromA).Total() == c.Total()
  {
    MoveKeepsSum(c.balanceA, c.balanceB, amount);
    MoveKeepsSum(c.balanceB, c.balanceA, amount);
  }

  lemma BumpKeeps(env: Env, c: Channel)
    ensures var c' := Bumped(env, c);
            && c'.Total() == c.Total() && c'.id == c.id && c'.partyA == c.partyA && c'.partyB == c.partyB
            && c'.stateHash == HashOf(env, c') && (c.sequence <= c'.sequence || c.sequence == MOD - 1)
            && c'.disputeEnd == c.disputeEnd && c'.balanceA == c.balanceA && c'.balanceB == c.balanceB
  {
  }

  ghost predicate Good(env: Env, m: Manager, m': Manager, id: Id) {
    && Elsewhere(m, m', id) && ChannelWF(env, m', id)
    && (id in m.channels && id in m.states ==> Evolves(m, m', id))
  }

  lemma OpenGood(env: Env, m: Manager, id: Id, a: Address, b: Address, depositA: u64, depositB: u64, funded: bool)
    requires ManagerWF(env, m)
    ensures var r := OpenChannel(env, m, id, a, b, depositA, depositB, funded); r.Ok? ==> Good(env, m, r.value, id)
  {
  }

  lemma UpdateGood(env: Env, m: Manager, id: Id, s: SignedState)
    requires ManagerWF(env, m)
    ensures UpdateState(env, m, id, s).Ok? ==> Good(env, m, UpdateState(env, m, id, s).value, id)
  {
    if id in m.channels { assert ChannelWF(env, m, id); }
  }

  lemma CloseGood(env: Env, m: Manager, id: Id, s: SignedState, spent: bool)
    requires ManagerWF(env, m)
    ensures CloseChannel(env, m, id, s, spent).Ok? ==> Good(env, m, CloseChannel(env, m, id, s, spent).value, id)
  {
    if id in m.channels { assert ChannelWF(env, m, id); }
  }

  lemma DisputeGood(env: Env, m: Manager, id: Id, s: SignedState, now: int)
    requires ManagerWF(env, m)
    ensures StartDispute(env, m, id, s, now).Ok? ==> Good(env, m, StartDispute(env, m, id, s, now).value, id)
  {
    if id in m.channels { assert ChannelWF(env, m, id); }
  }

  lemma ResolveElsewhere(m: Manager, id: Id, honest: Address, now: int)
    requires m.channels.Keys == m.states.Keys && ResolveDispute(m, id, honest, now).Ok?
    ensures Elsewhere(m, ResolveDispute(m, id, honest, now).value, id)
  {
  }

  lemma ResolveGood(env: Env, m: Manager, id: Id, honest: Address, now: int)
    requires ManagerWF(env, m)
    ensures ResolveDispute(m, id, honest, now).Ok? ==> Good(env, m, ResolveDispute(m, id, honest, now).value, id)
  {
    if ResolveDispute(m, id, honest, now).Ok? {
      assert ChannelWF(env, m, id);
      ResolveElsewhere(m, id, honest, now);
      ResolvePays(m, id, honest, now);
      AddCases(m.channels[id].Total(), 0);
      AddCases(0, m.channels[id].Total());
    }
  }

  lemma TransferGood(env: Env, m: Manager, id: Id, amount: u64, fromA: bool)
    requires ManagerWF(env, m)
    ensures Transfer(env, m, id, amount, fromA).Ok? ==> Good(env, m, Transfer(env, m, id, amount, fromA).value, id)
  {
    if id in m.channels {
      assert ChannelWF(env, m, id);
      MoveKeepsTotal(m.channels[id], amount, fromA);
      BumpKeeps(env, Move(m.channels[id], amount, fromA));
    }
  }

  lemma ForceCloseGood(env: Env, m: Manager, id: Id, s: SignedState, now: int)
    requires ManagerWF(env, m)
    ensures ForceClose(env, m, id, s, now).Ok? ==> Good(env, m, ForceClose(env, m, id, s, now).value, id)
  {
    if id in m.channels { assert ChannelWF(env, m, id); }
  }

  lemma FinalizeGood(env: Env, m: Manager, id: Id, now: int)
    requires ManagerWF(env, m)
    ensures FinalizeClose(m, id, now).Ok? ==> Good(env, m, FinalizeClose(m, id, now).value, id)
  {
    if id in m.channels { assert ChannelWF(env, m, id); }
  }

  lemma AddHtlcGood(env: Env, m: Manager, id: Id, h: Htlc)
    requires ManagerWF(env, m)
    ensures AddHtlc(m, id, h).Ok? ==> Good(env, m, AddHtlc(m, id, h).value, id)
  {
    if id in m.channels { assert ChannelWF(env, m, id); }
  }

  lemma CompleteGood(env: Env, m: Manager, id: Id, hid: Id, preimage: Bytes)
    requires ManagerWF(env, m)
    ensures CompleteHtlc(env, m, id, hid, preimage).Ok? ==> Good(env, m, CompleteHtlc(env, m, id, hid, preimage).value, id)
  {
    if id in m.channels && hid in m.states[id].htlcs {
      assert ChannelWF(env, m, id);
      var c, h := m.channels[id], m.states[id].htlcs[hid];
      var fromA := h.sender == c.partyA;
      MoveKeepsTotal(c, h.amount, fromA);
      BumpKeeps(env, Move(c, h.amount, fromA));
    }
  }

  lemma ExpireGood(env: Env, m: Manager, id: Id, hid: Id, now: int)
    requires ManagerWF(env, m)
    ensures ExpireHtlc(m, id, hid, now).Ok? ==> Good(env, m, ExpireHtlc(m, id, hid, now).value, id)
  {
    if id in m.channels { assert ChannelWF(env, m, id); }
  }

  lemma RemoveGood(env: Env, m: Manager, id: Id, hid: Id)
    requires ManagerWF(env, m)
    ensures RemoveHtlc(m, id, hid).Ok? ==> Good(env, m, RemoveHtlc(m, id, hid).value, id)
  {
    if id in m.channels { assert ChannelWF(env, m, id); }
  }

  lemma SettleExpiredGood(env: Env, m: Manager, id: Id, now: int)
    requires ManagerWF(env, m)
    ensures SettleExpired(m, id, now).Ok? ==> Good(env, m, SettleExpired(m, id, now).value, id)
  {
    if id in m.channels { assert ChannelWF(env, m, id); }
  }

  lemma StepGood(env: Env, m: Manager, op: Op)
    requires ManagerWF(env, m)
    ensures Try(env, m, op).Ok? ==> Good(env, m, Step(env, m, op), op.id)
  {
    match op
    case OpenOp(id, a, b, depositA, depositB, funded) => OpenGood(env, m, id, a, b, depositA, depositB, funded);
    case UpdateOp(id, s) => UpdateGood(env, m, id, s);
    case CloseOp(id, s, spent) => CloseGood(env, m, id, s, spent);
    case DisputeOp(id, s, now) => DisputeGood(env, m, id, s, now);
    case ResolveOp(id, honest, now) => ResolveGood(env, m, id, honest, now);
    case TransferOp(id, amount, fromA) => TransferGood(env, m, id, amount, fromA);
    case ForceCloseOp(id, s, now) => ForceCloseGood(env, m, id, s, now);
    case FinalizeOp(id, now) => FinalizeGood(env, m, id, now);
    case AddHtlcOp(id, h) => AddHtlcGood(env, m, id, h);
    case CompleteOp(id, hid, preimage) => CompleteGood(env, m, id, hid, preimage);
    case ExpireOp(id, hid, now) => ExpireGood(env, m, id, hid, now);
    case RemoveOp(id, hid) => RemoveGood(env, m, id, hid);
    case SettleExpiredOp(id, now) => SettleExpiredGood(env, m, id, now);
  }

  lemma GoodKeeps(env: Env, m: Manager, m': Manager, id: Id)
    requires ManagerWF(env, m) && Good(env, m, m', id)
    ensures ManagerWF(env, m')
    ensures forall j :: j in m.channels ==> Evolves(m, m', j)
  {
    forall j | j in m'.channels
      ensures ChannelWF(env, m', j)
      ensures j in m.channels ==> Evolves(m, m', j)
    {
      if j in m.channels { assert ChannelWF(env, m, j); }
    }
  }

  lemma RefusalKeeps(m: Manager)
    requires m.channels.Keys == m.states.Keys
    ensures forall j :: j in m.channels ==> Evolves(m, m, j)
  {
  }

  /** Every step keeps the manager consistent and lets every channel evolve only as it may. */
  lemma StepKeeps(env: Env, m: Manager, op: Op)
    requires ManagerWF(env, m)
    ensures ManagerWF(env, Step(env, m, op))
    ensures forall id :: id in m.channels ==> Evolves(m, Step(env, m, op), id)
  {
    StepGood(env, m, op);
    if Try(env, m, op).Ok? {
      GoodKeeps(env, m, Step(env, m, op), op.id);
    } else {
      RefusalKeeps(m);
    }
  }

  /** A channel there was before has evolved as it may. */
  ghost predicate Moved(m: Manager, m': Manager, id: Id) {
    id in m.channels && id in m.states ==> Evolves(m, m', id)
  }

  /** What is promised of every channel: value and parties stay, status and sequence move forward, disputes stay. */
  ghost predicate Forward(m: Manager, m': Manager) { forall id :: Moved(m, m', id) }

  lemma StandsStill(m: Manager)
    ensures Forward(m, m)
  {
    forall id ensures Moved(m, m, id) {
    }
  }

  lemma StepForward(env: Env, m: Manager, op: Op, m': Manager)
    requires ManagerWF(env, m) && Try(env, m, op) == Ok(m')
    ensures ManagerWF(env, m') && Forward(m, m')
  {
    StepKeeps(env, m, op);
    forall id ensures Moved(m, m', id) {
    }
  }

  /** Two pairs of balances with the same uint64 sum have the same true sum exactly when both wrap or neither does. */
  lemma SameTrueSum(a: u64, b: u64, a': u64, b': u64)
    requires Add(a, b) == Add(a', b')
    ensures a' + b' == a + b <==> (a' + b' < MOD <==> a + b < MOD)
  {
    AddCases(a, b);
    AddCases(a', b');
  }

  /** The balance tests of UpdateState and CloseChannel are on wrapped sums: an accepted state keeps the true sum of
      the balances exactly when its own sum wraps if and only if theirs did. */
  lemma UpdateKeepsTrueSum(env: Env, m: Manager, id: Id, s: SignedState)
    requires UpdateState(env, m, id, s).Ok? && id in m.channels
    ensures id in UpdateState(env, m, id, s).value.channels
    ensures var c, c' := m.channels[id], UpdateState(env, m, id, s).value.channels[id];
            c'.balanceA + c'.balanceB == c.balanceA + c.balanceB
            <==> (s.balanceA + s.balanceB < MOD <==> c.balanceA + c.balanceB < MOD)
  {
    SameTrueSum(m.channels[id].balanceA, m.channels[id].balanceB, s.balanceA, s.balanceB);
  }

  lemma CloseKeepsTrueSum(env: Env, m: Manager, id: Id, s: SignedState, spent: bool)
    requires CloseChannel(env, m, id, s, spent).Ok? && id in m.channels
    ensures id in CloseChannel(env, m, id, s, spent).value.channels
    ensures var c, c' := m.channels[id], CloseChannel(env, m, id, s, spent).value.channels[id];
            c'.balanceA + c'.balanceB == c.balanceA + c.balanceB
            <==> (s.balanceA + s.balanceB < MOD <==> c.balanceA + c.balanceB < MOD)
  {
    SameTrueSum(m.channels[id].balanceA, m.channels[id].balanceB, s.balanceA, s.balanceB);
  }

  /** So is OpenChannel's test against the largest channel value: an accepted channel is within it exactly when its
      deposits do not wrap. */
  lemma OpenWithinMaximumExactly(env: Env, m: Manager, id: Id, a: Address, b: Address, depositA: u64, depositB: u64, funded: bool)
    requires OpenChannel(env, m, id, a, b, depositA, depositB, funded).Ok?
    ensures depositA + depositB <= env.maxChannelValue <==> depositA + depositB < MOD
  {
    AddCases(depositA, depositB);
  }

  /** A closed channel refuses everything but HTLC bookkeeping and the resolution of its dispute. */
  lemma ClosedRefuses(env: Env, m: Manager, op: Op)
    requires op.id in m.channels && op.id in m.states && m.states[op.id].status.Closed?
    requires op.OpenOp? || op.UpdateOp? || op.CloseOp? || op.DisputeOp? || op.TransferOp? || op.ForceCloseOp?
             || op.FinalizeOp? || op.AddHtlcOp?
    ensures Try(env, m, op).Err?
  {
  }

  /** What moves a closed channel's balances: a preimage for a pending HTLC of some amount, or a party named honest,
      from the challenge end on, in an unresolved dispute whose other party still holds something. */
  ghost predicate MovesMoney(env: Env, m: Manager, op: Op)
    requires op.id in m.channels && op.id in m.states
  {
    var c, htlcs := m.channels[op.id], m.states[op.id].htlcs;
    match op
    case CompleteOp(_, hid, preimage) =>
      && hid in htlcs && htlcs[hid].state.HtlcPending? && env.lockHash(preimage) == htlcs[hid].hashLock
      && htlcs[hid].amount != 0
    case ResolveOp(id, honest, now) =>
      && id in m.disputes && !m.disputes[id].resolved && now >= m.disputes[id].end
      && ((honest == c.partyA && c.balanceB != 0) || (honest == c.partyB && honest != c.partyA && c.balanceA != 0))
    case _ => false
  }

  lemma CompleteMoves(env: Env, m: Manager, op: Op)
    requires ManagerWF(env, m) && op.id in m.channels && op.CompleteOp? && Try(env, m, op).Ok?
    ensures var m' := Step(env, m, op);
            && op.id in m'.channels && op.hid in m.states[op.id].htlcs
            && (SameBalances(m.channels[op.id], m'.channels[op.id]) <==> m.states[op.id].htlcs[op.hid].amount == 0)
  {
    assert ChannelWF(env, m, op.id);
    var c, h := m.channels[op.id], m.states[op.id].htlcs[op.hid];
    assert PartiesOf(c, h);
    BumpKeeps(env, Move(c, h.amount, h.sender == c.partyA));
    SubCases(c.balanceA, h.amount);
    SubCases(c.balanceB, h.amount);
  }

  ghost predicate SameBalances(c: Channel, c': Channel) { c'.balanceA == c.balanceA && c'.balanceB == c.balanceB }

  lemma ResolveMoves(env: Env, m: Manager, op: Op)
    requires op.id in m.channels && op.id in m.states && op.ResolveOp? && Try(env, m, op).Ok?
    ensures var m' := Step(env, m, op);
            && op.id in m'.channels
            && (SameBalances(m.channels[op.id], m'.channels[op.id]) <==> !MovesMoney(env, m, op))
  {
    ResolvePays(m, op.id, op.honest, op.now);
    AddCases(m.channels[op.id].balanceA, m.channels[op.id].balanceB);
  }

  /** A closed channel's balances are not final: they move exactly by steps of those two kinds. */
  lemma ClosedMovesExactly(env: Env, m: Manager, op: Op)
    requires ManagerWF(env, m) && op.id in m.channels && m.states[op.id].status.Closed?
    ensures op.id in Step(env, m, op).channels
    ensures !SameBalances(m.channels[op.id], Step(env, m, op).channels[op.id]) <==> MovesMoney(env, m, op)
  {
    if op.OpenOp? || op.UpdateOp? || op.CloseOp? || op.DisputeOp? || op.TransferOp? || op.ForceCloseOp?
       || op.FinalizeOp? || op.AddHtlcOp? {
      ClosedRefuses(env, m, op);
    } else if Try(env, m, op).Ok? {
      if op.CompleteOp? { CompleteMoves(env, m, op); }
      if op.ResolveOp? { ResolveMoves(env, m, op); }
    }
  }

  /** An accepted transfer takes exactly its amount from the payer, and the payee gets it exactly unless the two
      balances together do not fit in 64 bits and the payee's wraps. */
  lemma TransferPays(env: Env, m: Manager, id: Id, amount: u64, fromA: bool)
    requires Transfer(env, m, id, amount, fromA).Ok? && id in m.channels
    ensures id in Transfer(env, m, id, amount, fromA).value.channels
    ensures var c, c' := m.channels[id], Transfer(env, m, id, amount, fromA).value.channels[id];
            && c'.sequence == Add(c.sequence, 1)
            && var (payer, payee) := if fromA then (c.balanceA, c.balanceB) else (c.balanceB, c.balanceA);
               var (payer', payee') := if fromA then (c'.balanceA, c'.balanceB) else (c'.balanceB, c'.balanceA);
               && payer' == payer - amount
               && payee' == Add(payee, amount)
               && (payee' == payee + amount <==> payee + amount < MOD)
               && (payer + payee < MOD ==> payee' == payee + amount)
  {
  }

  /** The honest party of a resolved dispute ends up with the channel's whole value. */
  lemma ResolvePays(m: Manager, id: Id, honest: Address, now: int)
    requires ResolveDispute(m, id, honest, now).Ok? && id in m.channels
    ensures id in ResolveDispute(m, id, honest, now).value.channels
    ensures var c, c' := m.channels[id], ResolveDispute(m, id, honest, now).value.channels[id];
            if honest == c.partyA then c'.balanceA == c.Total() && c'.balanceB == 0
            else honest == c.partyB && c'.balanceB == c.Total() && c'.balanceA == 0
  {
  }

  /** A listed HTLC keeps its terms; it completes only against a preimage of its lock, expires only at or after
      its time, and once settled stays as it is. */
  lemma HtlcLifecycle(env: Env, m: Manager, op: Op, id: Id, hid: Id)
    requires id in m.channels && id in m.states && hid in m.states[id].htlcs
    ensures var m' := Step(env, m, op);
            && id in m'.states
            && (hid in m'.states[id].htlcs ==>
                  var h, h' := m.states[id].htlcs[hid], m'.states[id].htlcs[hid];
                  && h' == h.(state := h'.state)
                  && (h' != h ==>
                        && h.state.HtlcPending?
                        && (h'.state.HtlcCompleted? ==> op.CompleteOp? && env.lockHash(op.preimage) == h.hashLock)
                        && (h'.state.HtlcExpired? ==> (op.ExpireOp? || op.SettleExpiredOp?) && op.now >= h.timeLock)))
  {
  }

  // ---------------------------------------------------------------- whole runs

  /** Conservation: over every run, the two balances of a channel add up, as uint64, to what they did when
      the run began; so to the opening deposits. Its parties stay, and closed channels stay closed. */
  lemma {:induction false} RunConserves(env: Env, m: Manager, ops: seq<Op>, id: Id)
    requires ManagerWF(env, m) && id in m.channels
    ensures ManagerWF(env, Run(env, m, ops))
    ensures var m' := Run(env, m, ops);
            && id in m'.channels && id in m'.states
            && m'.channels[id].Total() == m.channels[id].Total()
            && m'.channels[id].partyA == m.channels[id].partyA && m'.channels[id].partyB == m.channels[id].partyB
            && Rank(m.states[id].status) <= Rank(m'.states[id].status)
    decreases |ops|
  {
    if ops != [] {
      StepKeeps(env, m, ops[0]);
      assert Evolves(m, Step(env, m, ops[0]), id);
      RunConserves(env, Step(env, m, ops[0]), ops[1..], id);
    }
  }

  /** A channel opened in a run keeps the value of its deposits to the end of the run. */
  lemma OpenedValueStays(env: Env, m: Manager, open: Op, ops: seq<Op>)
    requires ManagerWF(env, m) && open.OpenOp? && Try(env, m, open).Ok?
    ensures var m' := Run(env, Step(env, m, open), ops);
            open.id in m'.channels && m'.channels[open.id].Total() == Add(open.depositA, open.depositB)
  {
    StepKeeps(env, m, open);
    RunConserves(env, Step(env, m, open), ops, open.id);
  }

  /** Over every run a dispute record keeps its evidence and dates, and once resolved it is final: so a
      channel is disputed at most once and its dispute is resolved at most once. */
  lemma {:induction false} RunKeepsDispute(env: Env, m: Manager, ops: seq<Op>, id: Id)
    requires ManagerWF(env, m) && id in m.disputes
    ensures var m' := Run(env, m, ops); id in m'.disputes && SameDispute(m.disputes[id], m'.disputes[id])
    decreases |ops|
  {
    if ops != [] {
      StepKeeps(env, m, ops[0]);
      assert Evolves(m, Step(env, m, ops[0]), id);
      RunKeepsDispute(env, Step(env, m, ops[0]), ops[1..], id);
    }
  }

  /** No step starts a second dispute, and only ResolveDispute at or after the challenge end resolves one. */
  lemma DisputeTiming(env: Env, m: Manager, op: Op, id: Id)
    requires ManagerWF(env, m) && id in m.disputes && !m.disputes[id].resolved
    ensures var m' := Step(env, m, op);
            && id in m'.disputes
            && (m'.disputes[id].resolved ==> op.ResolveOp? && op.id == id && op.now >= m.disputes[id].end)
            && (op.DisputeOp? && op.id == id ==> Try(env, m, op).Err?)
  {
    assert ChannelWF(env, m, id);
  }

  /** While the channel stays unclosed, its sequence number only grows, unless it reaches the last uint64. */
  lemma {:induction false} RunRaisesSequence(env: Env, m: Manager, ops: seq<Op>, id: Id)
    requires ManagerWF(env, m) && id in m.channels
    requires forall k :: 0 <= k <= |ops| ==>
               var mk := Run(env, m, ops[..k]); id in mk.channels && mk.channels[id].sequence < MOD - 1
    ensures var m' := Run(env, m, ops);
            id in m'.channels && id in m'.states && (!m'.states[id].status.Closed? ==> m.channels[id].sequence <= m'.channels[id].sequence)
    decreases |ops|
  {
    RunConserves(env, m, ops, id);
    if ops != [] {
      var m1 := Step(env, m, ops[0]);
      StepKeeps(env, m, ops[0]);
      assert Evolves(m, m1, id);
      assert ops[..0] == [];
      forall k | 0 <= k <= |ops[1..]|
        ensures var mk := Run(env, m1, ops[1..][..k]); id in mk.channels && mk.channels[id].sequence < MOD - 1
      {
        assert ops[..k + 1][0] == ops[0] && ops[..k + 1][1..] == ops[1..][..k];
        assert Run(env, m, ops[..k + 1]) == Run(env, m1, ops[1..][..k]);
      }
      RunRaisesSequence(env, m1, ops[1..], id);
      RunConserves(env, m1, ops[1..], id);
    }
  }
}
