/** What a caller of the channel manager gets: for every step, exactly when it is accepted, and everything it then
    changes. Stated from the channel before the step, its runtime state and the arguments. */
module ChannelSteps {
  import opened Word64
  import opened Results
  import opened ChannelModel
  import opened ChannelProofs

  /** The party has signed the state: this channel, this number, these balances, and the low byte of this time. */
  predicate Signs(env: Env, party: Address, s: SignedState, sig: Bytes) {
    |sig| == 64 && env.verify(party, Message(s.channelId, s.sequence, s.balanceA, s.balanceB, s.timestamp % 256), sig)
  }

  predicate BothSign(env: Env, c: Channel, s: SignedState) {
    Signs(env, c.partyA, s, s.sigA) && Signs(env, c.partyB, s, s.sigB)
  }

  ghost predicate Known(m: Manager, id: Id) { id in m.channels && id in m.states }

  /** Only this channel, its runtime state and its dispute may differ. */
  ghost predicate OnlyHere(m: Manager, m': Manager, id: Id) {
    && m'.channels - {id} == m.channels - {id} && m'.states - {id} == m.states - {id}
    && m'.disputes - {id} == m.disputes - {id} && Known(m', id)
  }

  /** And of these only the channel, or only the runtime state. */
  ghost predicate OnlyChannel(m: Manager, m': Manager, id: Id) {
    OnlyHere(m, m', id) && m'.states == m.states && m'.disputes == m.disputes
  }

  ghost predicate OnlyState(m: Manager, m': Manager, id: Id) {
    OnlyHere(m, m', id) && m'.channels == m.channels && m'.disputes == m.disputes
  }

  /** A record takes these balances and this number, and nothing else of it changes. */
  predicate Takes(c: Channel, c': Channel, balanceA: int, balanceB: int, sequence: int) {
    && c'.balanceA == balanceA && c'.balanceB == balanceB && c'.sequence == sequence
    && c'.id == c.id && c'.partyA == c.partyA && c'.partyB == c.partyB && c'.disputeEnd == c.disputeEnd
  }

  predicate FreshHash(env: Env, c: Channel) {
    c.stateHash == env.stateHash(c.id, c.partyA, c.partyB, c.balanceA, c.balanceB, c.sequence)
  }

  lemma OpenExactly(env: Env, m: Manager, id: Id, a: Address, b: Address, depositA: u64, depositB: u64, funded: bool)
    ensures var r := OpenChannel(env, m, id, a, b, depositA, depositB, funded);
            && (r.Ok? <==> depositA >= env.minDeposit && depositB >= env.minDeposit
                           && (depositA + depositB) % MOD <= env.maxChannelValue && id !in m.channels && funded)
            && (r.Ok? ==>
                  && OnlyHere(m, r.value, id) && r.value.disputes == m.disputes
                  && var c := r.value.channels[id];
                     && c.id == id && c.partyA == a && c.partyB == b && c.balanceA == depositA && c.balanceB == depositB
                     && c.sequence == 0 && FreshHash(env, c) && c.disputeEnd.None?
                     && r.value.states[id].status.Open? && r.value.states[id].htlcs == map[])
  {
  }

  /** A signed state replaces the present one exactly while the channel is open or closing, and only with a higher
      number; the balances have to have the same uint64 sum. */
  lemma UpdateExactly(env: Env, m: Manager, id: Id, s: SignedState)
    ensures var r := UpdateState(env, m, id, s);
            && (r.Ok? <==>
                  && Known(m, id) && (m.states[id].status.Open? || m.states[id].status.Closing?)
                  && s.channelId == id && s.sequence > m.channels[id].sequence && BothSign(env, m.channels[id], s)
                  && (s.balanceA + s.balanceB) % MOD == (m.channels[id].balanceA + m.channels[id].balanceB) % MOD)
            && (r.Ok? ==>
                  && OnlyChannel(m, r.value, id) && FreshHash(env, r.value.channels[id])
                  && Takes(m.channels[id], r.value.channels[id], s.balanceA, s.balanceB, s.sequence)
                  && r.value.channels[id].sequence > m.channels[id].sequence)
  {
  }

  /** So once a state is installed, no state with its number or a lower one replaces it, whatever runs in between: as
    long as the number stays below the last uint64, after which a transfer would wrap it. */
  lemma ReplayRefused(env: Env, m: Manager, id: Id, s: SignedState, ops: seq<Op>, late: SignedState)
    requires ManagerWF(env, m) && UpdateState(env, m, id, s).Ok? && late.sequence <= s.sequence
    requires var m1 := UpdateState(env, m, id, s).value;
             forall k :: 0 <= k <= |ops| ==>
               var mk := Run(env, m1, ops[..k]); id in mk.channels && mk.channels[id].sequence < MOD - 1
    ensures UpdateState(env, Run(env, UpdateState(env, m, id, s).value, ops), id, late).Err?
  {
    var m1 := UpdateState(env, m, id, s).value;
    UpdateExactly(env, m, id, s);
    StepForward(env, m, UpdateOp(id, s), m1);
    RunRaisesSequence(env, m1, ops, id);
    UpdateExactly(env, Run(env, m1, ops), id, late);
  }

  /** Closing does not compare numbers and keeps the old hash. */
  lemma CloseExactly(env: Env, m: Manager, id: Id, s: SignedState, spent: bool)
    ensures var r := CloseChannel(env, m, id, s, spent);
            && (r.Ok? <==>
                  && Known(m, id) && !m.states[id].status.Closed?
                  && s.channelId == id && BothSign(env, m.channels[id], s) && spent
                  && (s.balanceA + s.balanceB) % MOD == (m.channels[id].balanceA + m.channels[id].balanceB) % MOD)
            && (r.Ok? ==>
                  && OnlyHere(m, r.value, id) && r.value.disputes == m.disputes
                  && Takes(m.channels[id], r.value.channels[id], s.balanceA, s.balanceB, s.sequence)
                  && r.value.channels[id].stateHash == m.channels[id].stateHash
                  && r.value.states[id].status.Closed? && r.value.states[id].htlcs == m.states[id].htlcs)
  {
  }

  /** The evidence has to be newer than the present state; which channel it is for is not looked at. */
  lemma DisputeExactly(env: Env, m: Manager, id: Id, s: SignedState, now: int)
    ensures var r := StartDispute(env, m, id, s, now);
            && (r.Ok? <==>
                  && Known(m, id) && (m.states[id].status.Open? || m.states[id].status.Closing?)
                  && BothSign(env, m.channels[id], s) && s.sequence > m.channels[id].sequence)
            && (r.Ok? ==>
                  && OnlyHere(m, r.value, id)
                  && r.value.channels[id] == m.channels[id].(disputeEnd := Some(now + env.challengePeriod))
                  && r.value.states[id].status.InDispute? && r.value.states[id].htlcs == m.states[id].htlcs
                  && id in r.value.disputes
                  && var d := r.value.disputes[id];
                     && d.evidence == s && d.start == now && d.end == now + env.challengePeriod
                     && !d.resolved && d.winner.None?)
  {
  }

  lemma ResolveExactly(m: Manager, id: Id, honest: Address, now: int)
    ensures var r := ResolveDispute(m, id, honest, now);
            && (r.Ok? <==>
                  && id in m.disputes && !m.disputes[id].resolved && now >= m.disputes[id].end
                  && Known(m, id) && (honest == m.channels[id].partyA || honest == m.channels[id].partyB))
            && (r.Ok? ==>
                  && OnlyHere(m, r.value, id) && id in r.value.disputes
                  && var c, c', total := m.channels[id], r.value.channels[id], (m.channels[id].balanceA + m.channels[id].balanceB) % MOD;
                     && (if honest == c.partyA then Takes(c, c', total, 0, c.sequence) else Takes(c, c', 0, total, c.sequence))
                     && c'.stateHash == c.stateHash
                     && r.value.states[id].status.Closed? && r.value.states[id].htlcs == m.states[id].htlcs
                     && r.value.disputes[id] == m.disputes[id].(resolved := true, winner := Some(honest)))
  {
  }

  /** Paid exactly by a party of an open channel that has the amount. */
  lemma TransferExactly(env: Env, m: Manager, id: Id, amount: u64, fromA: bool)
    ensures var r := Transfer(env, m, id, amount, fromA);
            && (r.Ok? <==>
                  && Known(m, id) && m.states[id].status.Open?
                  && amount <= (if fromA then m.channels[id].balanceA else m.channels[id].balanceB))
            && (r.Ok? ==>
                  && OnlyChannel(m, r.value, id) && FreshHash(env, r.value.channels[id])
                  && var c, c' := m.channels[id], r.value.channels[id];
                     if fromA then Takes(c, c', c.balanceA - amount, (c.balanceB + amount) % MOD, (c.sequence + 1) % MOD)
                     else Takes(c, c', (c.balanceA + amount) % MOD, c.balanceB - amount, (c.sequence + 1) % MOD))
  {
  }

  lemma ForceCloseExactly(env: Env, m: Manager, id: Id, s: SignedState, now: int)
    ensures var r := ForceClose(env, m, id, s, now);
            && (r.Ok? <==>
                  Known(m, id) && m.states[id].status.Open? && s.channelId == id && BothSign(env, m.channels[id], s))
            && (r.Ok? ==>
                  && OnlyHere(m, r.value, id) && r.value.disputes == m.disputes
                  && r.value.channels[id] == m.channels[id].(disputeEnd := Some(now + env.challengePeriod))
                  && r.value.states[id].status.Closing? && r.value.states[id].htlcs == m.states[id].htlcs)
  {
  }

  lemma FinalizeExactly(m: Manager, id: Id, now: int)
    ensures var r := FinalizeClose(m, id, now);
            && (r.Ok? <==>
                  && Known(m, id) && m.states[id].status.Closing?
                  && m.channels[id].disputeEnd.Some? && now >= m.channels[id].disputeEnd.value)
            && (r.Ok? ==>
                  && OnlyState(m, r.value, id)
                  && r.value.states[id].status.Closed? && r.value.states[id].htlcs == m.states[id].htlcs)
  {
  }

  // ---------------------------------------------------------------- HTLCs

  /** Listed exactly between the two parties of an open channel, under a new id, for an amount within what the sender
      has after subtracting everything listed, modulo 2^64. */
  lemma AddHtlcExactly(m: Manager, id: Id, h: Htlc)
    ensures var r := AddHtlc(m, id, h);
            && (r.Ok? <==>
                  && Known(m, id) && m.states[id].status.Open? && h.channelId == id && h.id !in m.states[id].htlcs
                  && var c := m.channels[id];
                     && ((h.sender == c.partyA && h.receiver == c.partyB) || (h.sender == c.partyB && h.receiver == c.partyA))
                     && h.sender != h.receiver
                     && h.amount <= ((if h.sender == c.partyA then c.balanceA else c.balanceB)
                                     - Listed(m.states[id].htlcs, h.sender)) % MOD)
            && (r.Ok? ==>
                  && OnlyState(m, r.value, id)
                  && r.value.states[id].status.Open? && r.value.states[id].htlcs == m.states[id].htlcs[h.id := h])
  {
  }

  /** Paid exactly for a preimage of a pending HTLC, whatever the channel's status: from its sender to its receiver. */
  lemma CompleteExactly(env: Env, m: Manager, id: Id, hid: Id, preimage: Bytes)
    requires ManagerWF(env, m)
    ensures var r := CompleteHtlc(env, m, id, hid, preimage);
            && (r.Ok? <==>
                  && Known(m, id) && hid in m.states[id].htlcs && m.states[id].htlcs[hid].state.HtlcPending?
                  && env.lockHash(preimage) == m.states[id].htlcs[hid].hashLock)
            && (r.Ok? ==>
                  && OnlyHere(m, r.value, id) && r.value.disputes == m.disputes && FreshHash(env, r.value.channels[id])
                  && r.value.states[id].status == m.states[id].status
                  && var c, c', h := m.channels[id], r.value.channels[id], m.states[id].htlcs[hid];
                     && (if h.sender == c.partyA
                         then Takes(c, c', (c.balanceA - h.amount) % MOD, (c.balanceB + h.amount) % MOD, (c.sequence + 1) % MOD)
                         else Takes(c, c', (c.balanceA + h.amount) % MOD, (c.balanceB - h.amount) % MOD, (c.sequence + 1) % MOD))
                     && r.value.states[id].htlcs == m.states[id].htlcs[hid := h.(state := HtlcCompleted)])
  {
    if Known(m, id) && hid in m.states[id].htlcs {
      assert ChannelWF(env, m, id) && PartiesOf(m.channels[id], m.states[id].htlcs[hid]);
    }
  }

  lemma ExpireExactly(m: Manager, id: Id, hid: Id, now: int)
    requires m.channels.Keys == m.states.Keys
    ensures var r := ExpireHtlc(m, id, hid, now);
            && (r.Ok? <==>
                  && Known(m, id) && hid in m.states[id].htlcs && m.states[id].htlcs[hid].state.HtlcPending?
                  && now >= m.states[id].htlcs[hid].timeLock)
            && (r.Ok? ==>
                  && OnlyState(m, r.value, id) && r.value.states[id].status == m.states[id].status
                  && r.value.states[id].htlcs
                       == m.states[id].htlcs[hid := m.states[id].htlcs[hid].(state := HtlcExpired)])
  {
  }

  lemma RemoveExactly(m: Manager, id: Id, hid: Id)
    requires m.channels.Keys == m.states.Keys
    ensures var r := RemoveHtlc(m, id, hid);
            && (r.Ok? <==> Known(m, id))
            && (r.Ok? ==>
                  && OnlyState(m, r.value, id) && r.value.states[id].status == m.states[id].status
                  && hid !in r.value.states[id].htlcs
                  && forall h :: h != hid ==> SameHtlc(m.states[id].htlcs, r.value.states[id].htlcs, h))
  {
  }

  ghost predicate SameHtlc(htlcs: map<Id, Htlc>, htlcs': map<Id, Htlc>, h: Id) {
    (h in htlcs' <==> h in htlcs) && (h in htlcs ==> htlcs'[h] == htlcs[h])
  }

  /** Marks exactly the pending HTLCs whose time has passed, at their time not yet. */
  lemma SettleExpiredExactly(m: Manager, id: Id, now: int)
    requires m.channels.Keys == m.states.Keys
    ensures var r := SettleExpired(m, id, now);
            && (r.Ok? <==> Known(m, id))
            && (r.Ok? ==>
                  && OnlyState(m, r.value, id) && r.value.states[id].status == m.states[id].status
                  && forall h ::
                       if h in m.states[id].htlcs && m.states[id].htlcs[h].state.HtlcPending? && now > m.states[id].htlcs[h].timeLock
                       then h in r.value.states[id].htlcs
                            && r.value.states[id].htlcs[h] == m.states[id].htlcs[h].(state := HtlcExpired)
                       else SameHtlc(m.states[id].htlcs, r.value.states[id].htlcs, h))
  {
  }
}
