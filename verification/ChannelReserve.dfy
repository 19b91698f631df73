/** Pending HTLCs as a reserve: when they never exceed the sender's balance, and when the code lets them. */
module ChannelReserve {
  import opened Word64
  import opened ChannelModel
  import opened ChannelProofs
  import MapSums

  /** What a party may not spend elsewhere is there, and the two balances do not wrap when added. */
  ghost predicate Covered(c: Channel, r: Runtime) {
    && Reserved(r.htlcs, c.partyA) <= c.balanceA
    && Reserved(r.htlcs, c.partyB) <= c.balanceB
    && c.balanceA + c.balanceB < MOD
  }

  ghost predicate AllCovered(m: Manager) {
    m.channels.Keys == m.states.Keys && forall id :: id in m.channels ==> Covered(m.channels[id], m.states[id])
  }

  /** All HTLCs in the map are still pending: settled ones have been removed. */
  ghost predicate AllPending(htlcs: map<Id, Htlc>) {
    forall h :: h in htlcs ==> htlcs[h].state.HtlcPending?
  }

  // ---------------------------------------------------------------- sums of amounts

  lemma ListedIsReserved(htlcs: map<Id, Htlc>, party: Address)
    requires AllPending(htlcs)
    ensures Listed(htlcs, party) == Reserved(htlcs, party)
  {
    assert Amounts(htlcs, party) == PendingAmounts(htlcs, party);
  }

  lemma ListedNonNegative(htlcs: map<Id, Htlc>, party: Address)
    ensures 0 <= Listed(htlcs, party) && 0 <= Reserved(htlcs, party)
  {
    MapSums.Part(Amounts(htlcs, party), Amounts(htlcs, party));
    MapSums.Part(PendingAmounts(htlcs, party), PendingAmounts(htlcs, party));
  }

  lemma ReservedAfterAdd(htlcs: map<Id, Htlc>, h: Htlc, party: Address)
    requires h.id !in htlcs
    ensures Reserved(htlcs[h.id := h], party)
         == Reserved(htlcs, party) + (if h.sender == party && h.state.HtlcPending? then h.amount else 0)
  {
    var p := PendingAmounts(htlcs, party);
    if h.sender == party && h.state.HtlcPending? {
      assert PendingAmounts(htlcs[h.id := h], party) == p[h.id := h.amount];
      MapSums.Update(p, h.id, h.amount);
    } else {
      assert PendingAmounts(htlcs[h.id := h], party) == p;
    }
  }

  /** Settling a pending HTLC releases its amount. */
  lemma ReservedAfterSettle(htlcs: map<Id, Htlc>, hid: Id, h': Htlc, party: Address)
    requires hid in htlcs && htlcs[hid].state.HtlcPending? && !h'.state.HtlcPending?
    ensures Reserved(htlcs[hid := h'], party)
         == Reserved(htlcs, party) - (if htlcs[hid].sender == party then htlcs[hid].amount else 0)
  {
    var p := PendingAmounts(htlcs, party);
    if htlcs[hid].sender == party {
      assert PendingAmounts(htlcs[hid := h'], party) == p - {hid};
      MapSums.Split(p, hid);
    } else {
      assert PendingAmounts(htlcs[hid := h'], party) == p;
    }
  }

  /** Dropping or settling HTLCs never raises the reserve. */
  lemma ReservedShrinks(htlcs: map<Id, Htlc>, htlcs': map<Id, Htlc>, party: Address)
    requires forall h :: h in htlcs' && htlcs'[h].state.HtlcPending? ==> h in htlcs && htlcs'[h] == htlcs[h]
    ensures Reserved(htlcs', party) <= Reserved(htlcs, party)
  {
    MapSums.Part(PendingAmounts(htlcs', party), PendingAmounts(htlcs, party));
  }

  // ---------------------------------------------------------------- what AddHTLC lets through

  ghost function BalanceOf(c: Channel, party: Address): u64 {
    if party == c.partyA then c.balanceA else c.balanceB
  }

  /** getAvailableBalance never notices an overdraft, its test being on unsigned numbers: it gives the true
      rest exactly when the listed amounts, settled ones included, fit in the balance. */
  lemma AvailableExactly(c: Channel, r: Runtime, party: Address)
    requires party == c.partyA || party == c.partyB
    ensures Available(c, r, party) == BalanceOf(c, party) - Listed(r.htlcs, party)
       <==> Listed(r.htlcs, party) <= BalanceOf(c, party)
  {
    ListedNonNegative(r.htlcs, party);
  }

  /** AddHTLC's balance test, and the one its comment asks for. */
  ghost predicate Passes(c: Channel, r: Runtime, party: Address, amount: u64) { amount <= Available(c, r, party) }

  ghost predicate Fits(c: Channel, r: Runtime, party: Address, amount: u64) {
    Listed(r.htlcs, party) + amount <= BalanceOf(c, party)
  }

  /** The two agree on every amount exactly under the same condition. */
  lemma BalanceTestExactly(c: Channel, r: Runtime, party: Address)
    requires party == c.partyA || party == c.partyB
    ensures (forall amount: u64 :: Passes(c, r, party, amount) <==> Fits(c, r, party, amount))
       <==> Listed(r.htlcs, party) <= BalanceOf(c, party)
  {
    AvailableExactly(c, r, party);
    if Listed(r.htlcs, party) > BalanceOf(c, party) {
      assert Passes(c, r, party, 0) && !Fits(c, r, party, 0);
    }
  }

  // ---------------------------------------------------------------- steps

  /** How a run has to be used, as far as its steps are accepted: deposits that do not wrap; settled HTLCs removed
      before the next AddHTLC; and no signed state, transfer or penalty that takes a party below its reserve. */
  ghost predicate Careful(env: Env, m: Manager, op: Op) { Try(env, m, op).Ok? ==> Mindful(m, op) }

  ghost predicate Mindful(m: Manager, op: Op) {
    match op
    case OpenOp(_, _, _, depositA, depositB, _) => depositA + depositB < MOD
    case AddHtlcOp(id, _) => id in m.states ==> AllPending(m.states[id].htlcs)
    case UpdateOp(id, s) => s.balanceA + s.balanceB < MOD && Respects(m, id, s.balanceA, s.balanceB)
    case CloseOp(id, s, _) => s.balanceA + s.balanceB < MOD && Respects(m, id, s.balanceA, s.balanceB)
    case TransferOp(id, amount, fromA) =>
      id in m.channels && id in m.states ==>
        var c, r := m.channels[id], m.states[id];
        if fromA then Reserved(r.htlcs, c.partyA) + amount <= c.balanceA
        else Reserved(r.htlcs, c.partyB) + amount <= c.balanceB
    case ResolveOp(id, honest, _) =>
      id in m.channels && id in m.states ==>
        var c, r := m.channels[id], m.states[id];
        if honest == c.partyA then Reserved(r.htlcs, c.partyB) <= 0 else Reserved(r.htlcs, c.partyA) <= 0
    case _ => true
  }

  ghost predicate Respects(m: Manager, id: Id, balanceA: u64, balanceB: u64) {
    id in m.channels && id in m.states ==>
      && Reserved(m.states[id].htlcs, m.channels[id].partyA) <= balanceA
      && Reserved(m.states[id].htlcs, m.channels[id].partyB) <= balanceB
  }

  /** An accepted HTLC fits in what its sender has left. */
  lemma AddKeepsCovered(m: Manager, id: Id, h: Htlc)
    requires AllCovered(m) && id in m.channels && AllPending(m.states[id].htlcs) && AddHtlc(m, id, h).Ok?
    ensures var m' := AddHtlc(m, id, h).value; id in m'.states && Covered(m.channels[id], m'.states[id])
  {
    var c, r := m.channels[id], m.states[id];
    assert Covered(c, r);
    ListedIsReserved(r.htlcs, h.sender);
    AvailableExactly(c, r, h.sender);
    ReservedAfterAdd(r.htlcs, h, c.partyA);
    ReservedAfterAdd(r.htlcs, h, c.partyB);
  }

  lemma MoveExact(c: Channel, amount: u64, fromA: bool)
    requires c.balanceA + c.balanceB < MOD && amount <= (if fromA then c.balanceA else c.balanceB)
    ensures var c' := Move(c, amount, fromA);
            if fromA then c'.balanceA == c.balanceA - amount && c'.balanceB == c.balanceB + amount
            else c'.balanceB == c.balanceB - amount && c'.balanceA == c.balanceA + amount
  {
  }

  /** One pending HTLC is part of the reserve. */
  lemma PendingWithinReserve(htlcs: map<Id, Htlc>, hid: Id)
    requires hid in htlcs && htlcs[hid].state.HtlcPending?
    ensures htlcs[hid].amount <= Reserved(htlcs, htlcs[hid].sender)
  {
    var p := PendingAmounts(htlcs, htlcs[hid].sender);
    MapSums.Split(p, hid);
    MapSums.Part(p - {hid}, p);
  }

  /** Completing a covered HTLC moves exactly its amount from sender to receiver, with no wrap-around. */
  lemma CompleteMovesExactly(env: Env, m: Manager, id: Id, hid: Id, preimage: Bytes)
    requires ManagerWF(env, m) && AllCovered(m) && CompleteHtlc(env, m, id, hid, preimage).Ok?
    ensures id in m.channels && hid in m.states[id].htlcs
    ensures var m' := CompleteHtlc(env, m, id, hid, preimage).value;
            var c, h := m.channels[id], m.states[id].htlcs[hid];
            && id in m'.channels
            && var c' := m'.channels[id];
               if h.sender == c.partyA
               then c'.balanceA == c.balanceA - h.amount && c'.balanceB == c.balanceB + h.amount
               else c'.balanceB == c.balanceB - h.amount && c'.balanceA == c.balanceA + h.amount
  {
    assert ChannelWF(env, m, id);
    var c, r := m.channels[id], m.states[id];
    var h := r.htlcs[hid];
    assert Covered(c, r) && PartiesOf(c, h);
    PendingWithinReserve(r.htlcs, hid);
    MoveExact(c, h.amount, h.sender == c.partyA);
    BumpKeeps(env, Move(c, h.amount, h.sender == c.partyA));
  }

  lemma CompleteKeepsCovered(env: Env, m: Manager, id: Id, hid: Id, preimage: Bytes)
    requires ManagerWF(env, m) && AllCovered(m) && CompleteHtlc(env, m, id, hid, preimage).Ok?
    ensures var m' := CompleteHtlc(env, m, id, hid, preimage).value;
            id in m'.channels && id in m'.states && Covered(m'.channels[id], m'.states[id])
  {
    CompleteMovesExactly(env, m, id, hid, preimage);
    assert ChannelWF(env, m, id);
    var c, r := m.channels[id], m.states[id];
    var h := r.htlcs[hid];
    assert Covered(c, r) && PartiesOf(c, h);
    ReservedAfterSettle(r.htlcs, hid, h.(state := HtlcCompleted), c.partyA);
    ReservedAfterSettle(r.htlcs, hid, h.(state := HtlcCompleted), c.partyB);
  }

  lemma TransferKeepsCovered(env: Env, m: Manager, id: Id, amount: u64, fromA: bool)
    requires AllCovered(m) && Transfer(env, m, id, amount, fromA).Ok? && Careful(env, m, TransferOp(id, amount, fromA))
    ensures var m' := Transfer(env, m, id, amount, fromA).value;
            id in m'.channels && id in m'.states && Covered(m'.channels[id], m'.states[id])
  {
    assert Covered(m.channels[id], m.states[id]);
    MoveExact(m.channels[id], amount, fromA);
    BumpKeeps(env, Move(m.channels[id], amount, fromA));
  }

  lemma ResolveKeepsCovered(env: Env, m: Manager, id: Id, honest: Address, now: int)
    requires AllCovered(m) && ResolveDispute(m, id, honest, now).Ok? && Careful(env, m, ResolveOp(id, honest, now))
    ensures var m' := ResolveDispute(m, id, honest, now).value;
            id in m'.channels && id in m'.states && Covered(m'.channels[id], m'.states[id])
  {
    var c := m.channels[id];
    assert Covered(c, m.states[id]);
    AddCases(c.balanceA, c.balanceB);
    AddCases(c.balanceB, c.balanceA);
  }

  lemma SettleKeepsCovered(m: Manager, id: Id, htlcs: map<Id, Htlc>)
    requires AllCovered(m) && id in m.channels
    requires forall h :: h in htlcs && htlcs[h].state.HtlcPending? ==> h in m.states[id].htlcs && htlcs[h] == m.states[id].htlcs[h]
    ensures Covered(m.channels[id], m.states[id].(htlcs := htlcs))
  {
    assert Covered(m.channels[id], m.states[id]);
    ReservedShrinks(m.states[id].htlcs, htlcs, m.channels[id].partyA);
    ReservedShrinks(m.states[id].htlcs, htlcs, m.channels[id].partyB);
  }

  lemma OpenCovered(c: Channel)
    requires c.balanceA + c.balanceB < MOD
    ensures Covered(c, Runtime(Open, map[]))
  {
    assert PendingAmounts(map[], c.partyA) == map[] && PendingAmounts(map[], c.partyB) == map[];
  }

  /** The steps that release HTLCs. */
  lemma ReleaseCovered(env: Env, m: Manager, op: Op)
    requires AllCovered(m) && Try(env, m, op).Ok? && (op.ExpireOp? || op.RemoveOp? || op.SettleExpiredOp?)
    ensures var m' := Step(env, m, op);
            op.id in m'.channels && op.id in m'.states && Covered(m'.channels[op.id], m'.states[op.id])
  {
    SettleKeepsCovered(m, op.id, Step(env, m, op).states[op.id].htlcs);
  }

  /** The steps that install a signed state or only change the status. */
  lemma SignedCovered(env: Env, m: Manager, op: Op)
    requires AllCovered(m) && Careful(env, m, op) && Try(env, m, op).Ok?
    requires op.UpdateOp? || op.CloseOp? || op.DisputeOp? || op.ForceCloseOp? || op.FinalizeOp?
    ensures var m' := Step(env, m, op);
            op.id in m'.channels && op.id in m'.states && Covered(m'.channels[op.id], m'.states[op.id])
  {
    assert Covered(m.channels[op.id], m.states[op.id]);
  }

  /** The channel a careful step works on stays covered. */
  lemma OwnChannelCovered(env: Env, m: Manager, op: Op)
    requires ManagerWF(env, m) && AllCovered(m) && Careful(env, m, op) && Try(env, m, op).Ok?
    ensures var m' := Step(env, m, op);
            op.id in m'.channels && op.id in m'.states && Covered(m'.channels[op.id], m'.states[op.id])
  {
    if op.ExpireOp? || op.RemoveOp? || op.SettleExpiredOp? {
      ReleaseCovered(env, m, op);
    } else if op.UpdateOp? || op.CloseOp? || op.DisputeOp? || op.ForceCloseOp? || op.FinalizeOp? {
      SignedCovered(env, m, op);
    } else {
      PaymentCovered(env, m, op);
    }
  }

  /** The steps that open a channel or move money in it. */
  lemma PaymentCovered(env: Env, m: Manager, op: Op)
    requires ManagerWF(env, m) && AllCovered(m) && Careful(env, m, op) && Try(env, m, op).Ok?
    requires op.OpenOp? || op.AddHtlcOp? || op.CompleteOp? || op.TransferOp? || op.ResolveOp?
    ensures var m' := Step(env, m, op);
            op.id in m'.channels && op.id in m'.states && Covered(m'.channels[op.id], m'.states[op.id])
  {
    match op
    case OpenOp(id, _, _, _, _, _) => OpenCovered(Step(env, m, op).channels[id]);
    case AddHtlcOp(id, h) => AddKeepsCovered(m, id, h);
    case CompleteOp(id, hid, preimage) => CompleteKeepsCovered(env, m, id, hid, preimage);
    case TransferOp(id, amount, fromA) => TransferKeepsCovered(env, m, id, amount, fromA);
    case ResolveOp(id, honest, now) => ResolveKeepsCovered(env, m, id, honest, now);
  }

  lemma StepKeepsCovered(env: Env, m: Manager, op: Op)
    requires ManagerWF(env, m) && AllCovered(m) && Careful(env, m, op)
    ensures AllCovered(Step(env, m, op))
  {
    if Try(env, m, op).Ok? {
      OwnChannelCovered(env, m, op);
      StepGood(env, m, op);
    }
  }

  ghost predicate CarefulRun(env: Env, m: Manager, ops: seq<Op>)
    decreases |ops|
  {
    ops != [] ==> Careful(env, m, ops[0]) && CarefulRun(env, Step(env, m, ops[0]), ops[1..])
  }

  /** In every careful run the pending amounts of each party stay within its balance; so, by
      `CompleteMovesExactly`, no completed HTLC ever wraps a balance. */
  lemma {:induction false} ReserveHolds(env: Env, m: Manager, ops: seq<Op>)
    requires ManagerWF(env, m) && AllCovered(m) && CarefulRun(env, m, ops)
    ensures ManagerWF(env, Run(env, m, ops)) && AllCovered(Run(env, m, ops))
    decreases |ops|
  {
    if ops != [] {
      StepKeeps(env, m, ops[0]);
      StepKeepsCovered(env, m, ops[0]);
      ReserveHolds(env, Step(env, m, ops[0]), ops[1..]);
    }
  }
}
