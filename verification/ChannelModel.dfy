/** Payment channels (pkg/channel/state_channel.go and the HTLC operations of htlc.go) as values. Each step
    gives the manager's next state, or the reason it was refused, in which case nothing changes. */
module ChannelModel {
  import opened Word64
  import opened Results
  import MapSums

  type Id = nat
  type Address = nat
  type Hash32 = nat
  type Bytes = seq<int>

  datatype Status = Open | Closing | InDispute | Closed

  datatype HtlcStatus = HtlcPending | HtlcCompleted | HtlcExpired

  datatype Htlc = Htlc(
    channelId: Id, id: Id, hashLock: Hash32, timeLock: int, amount: u64,
    sender: Address, receiver: Address, state: HtlcStatus)

  datatype Channel = Channel(
    id: Id, partyA: Address, partyB: Address, balanceA: u64, balanceB: u64,
    sequence: u64, stateHash: Hash32, disputeEnd: Option<int>)
  {
    /** The channel's value, as the uint64 sum the code compares. */
    function Total(): u64 { Add(balanceA, balanceB) }
  }

  /** The runtime state of a channel. `htlcs` is PendingHTLCs, which also holds settled ones. */
  datatype Runtime = Runtime(status: Status, htlcs: map<Id, Htlc>)

  datatype SignedState = SignedState(
    channelId: Id, sequence: u64, balanceA: u64, balanceB: u64, sigA: Bytes, sigB: Bytes, timestamp: int)

  /** What the parties sign: only the low byte of the time is part of it. */
  datatype Message = Message(channelId: Id, sequence: u64, balanceA: u64, balanceB: u64, stamp: int)

  datatype Dispute = Dispute(evidence: SignedState, start: int, end: int, resolved: bool, winner: Option<Address>)

  /** Hashing, signature checking and configuration: parameters about which nothing is assumed. */
  datatype Env = Env(
    stateHash: (Id, Address, Address, u64, u64, u64) -> Hash32, lockHash: Bytes -> Hash32,
    verify: (Address, Message, Bytes) -> bool,
    minDeposit: u64, maxChannelValue: u64, challengePeriod: int)

  datatype Manager = Manager(channels: map<Id, Channel>, states: map<Id, Runtime>, disputes: map<Id, Dispute>)

  datatype Error =
    | ChannelNotFound | AlreadyExists | InvalidBalance | FundingFailed | SpendFailed
    | ChannelClosed | ChannelInDispute | InvalidState | InvalidSequence | InvalidSignature
    | InsufficientBalance | NotOpen | NotClosing | DisputeNotFound | AlreadyResolved | DisputeTimeout
    | InvalidParty | HtlcMismatch | HtlcExists | HtlcNotFound | HtlcNotPending | InvalidPreimage | NotExpired

  const NO_CHANNELS: Manager := Manager(map[], map[], map[])

  function HashOf(env: Env, c: Channel): Hash32 {
    env.stateHash(c.id, c.partyA, c.partyB, c.balanceA, c.balanceB, c.sequence)
  }

  function MessageOf(s: SignedState): Message {
    Message(s.channelId, s.sequence, s.balanceA, s.balanceB, s.timestamp % 256)
  }

  /** verifySignatures. */
  predicate BothSigned(env: Env, c: Channel, s: SignedState) {
    && |s.sigA| == 64 && env.verify(c.partyA, MessageOf(s), s.sigA)
    && |s.sigB| == 64 && env.verify(c.partyB, MessageOf(s), s.sigB)
  }

  // ---------------------------------------------------------------- steps of the manager

  /** OpenChannel; the id comes from a random nonce and `funded` is the answer of the multi-sig locker. */
  function OpenChannel(env: Env, m: Manager, id: Id, a: Address, b: Address, depositA: u64, depositB: u64, funded: bool)
      : Result<Manager, Error>
  {
    if depositA < env.minDeposit || depositB < env.minDeposit then Err(InvalidBalance)
    else if Add(depositA, depositB) > env.maxChannelValue then Err(InvalidBalance)
    else if id in m.channels then Err(AlreadyExists)
    else if !funded then Err(FundingFailed)
    else
      var c := Channel(id, a, b, depositA, depositB, 0, 0, None);
      Ok(m.(channels := m.channels[id := c.(stateHash := HashOf(env, c))],
            states := m.states[id := Runtime(Open, map[])]))
  }

  function UpdateState(env: Env, m: Manager, id: Id, s: SignedState): Result<Manager, Error> {
    if id !in m.channels || id !in m.states then Err(ChannelNotFound)
    else if m.states[id].status.Closed? then Err(ChannelClosed)
    else if m.states[id].status.InDispute? then Err(ChannelInDispute)
    else if s.channelId != id then Err(InvalidState)
    else if s.sequence <= m.channels[id].sequence then Err(InvalidSequence)
    else if !BothSigned(env, m.channels[id], s) then Err(InvalidSignature)
    else if Add(s.balanceA, s.balanceB) != m.channels[id].Total() then Err(InvalidBalance)
    else
      var c := m.channels[id].(balanceA := s.balanceA, balanceB := s.balanceB, sequence := s.sequence);
      Ok(m.(channels := m.channels[id := c.(stateHash := HashOf(env, c))]))
  }

  /** CloseChannel; it compares no sequence numbers and leaves the state hash behind. */
  function CloseChannel(env: Env, m: Manager, id: Id, s: SignedState, spent: bool): Result<Manager, Error> {
    if id !in m.channels || id !in m.states then Err(ChannelNotFound)
    else if m.states[id].status.Closed? then Err(ChannelClosed)
    else if s.channelId != id then Err(InvalidState)
    else if !BothSigned(env, m.channels[id], s) then Err(InvalidSignature)
    else if Add(s.balanceA, s.balanceB) != m.channels[id].Total() then Err(InvalidBalance)
    else if !spent then Err(SpendFailed)
    else
      Ok(m.(channels := m.channels[id := m.channels[id].(balanceA := s.balanceA, balanceB := s.balanceB, sequence := s.sequence)],
            states := m.states[id := m.states[id].(status := Closed)]))
  }

  function StartDispute(env: Env, m: Manager, id: Id, s: SignedState, now: int): Result<Manager, Error> {
    if id !in m.channels || id !in m.states then Err(ChannelNotFound)
    else if m.states[id].status.Closed? then Err(ChannelClosed)
    else if m.states[id].status.InDispute? then Err(ChannelInDispute)
    else if !BothSigned(env, m.channels[id], s) then Err(InvalidSignature)
    else if s.sequence <= m.channels[id].sequence then Err(InvalidSequence)
    else
      var end := now + env.challengePeriod;
      Ok(Manager(m.channels[id := m.channels[id].(disputeEnd := Some(end))],
                 m.states[id := m.states[id].(status := InDispute)],
                 m.disputes[id := Dispute(s, now, end, false, None)]))
  }

  /** ResolveDispute gives everything to the honest party; it does not look at the channel's status. */
  function ResolveDispute(m: Manager, id: Id, honest: Address, now: int): Result<Manager, Error> {
    if id !in m.disputes then Err(DisputeNotFound)
    else if m.disputes[id].resolved then Err(AlreadyResolved)
    else if now < m.disputes[id].end then Err(DisputeTimeout)
    else if id !in m.channels || id !in m.states then Err(ChannelNotFound)
    else
      var c := m.channels[id];
      if honest != c.partyA && honest != c.partyB then Err(InvalidParty)
      else
        var c' :=
          if honest == c.partyA then c.(balanceA := c.Total(), balanceB := 0)
          else c.(balanceA := 0, balanceB := Add(c.balanceB, c.balanceA));
        Ok(Manager(m.channels[id := c'], m.states[id := m.states[id].(status := Closed)],
                   m.disputes[id := m.disputes[id].(resolved := true, winner := Some(honest))]))
  }

  /** The channel after `amount` has moved, with wrap-around as uint64 has it. */
  function Move(c: Channel, amount: u64, fromA: bool): Channel {
    if fromA then c.(balanceA := Sub(c.balanceA, amount), balanceB := Add(c.balanceB, amount))
    else c.(balanceA := Add(c.balanceA, amount), balanceB := Sub(c.balanceB, amount))
  }

  function Bumped(env: Env, c: Channel): Channel {
    var c' := c.(sequence := Add(c.sequence, 1));
    c'.(stateHash := HashOf(env, c'))
  }

  function Transfer(env: Env, m: Manager, id: Id, amount: u64, fromA: bool): Result<Manager, Error> {
    if id !in m.channels || id !in m.states then Err(ChannelNotFound)
    else if !m.states[id].status.Open? then Err(NotOpen)
    else if (if fromA then m.channels[id].balanceA else m.channels[id].balanceB) < amount then Err(InsufficientBalance)
    else Ok(m.(channels := m.channels[id := Bumped(env, Move(m.channels[id], amount, fromA))]))
  }

  function ForceClose(env: Env, m: Manager, id: Id, s: SignedState, now: int): Result<Manager, Error> {
    if id !in m.channels || id !in m.states then Err(ChannelNotFound)
    else if !m.states[id].status.Open? then Err(NotOpen)
    else if !BothSigned(env, m.channels[id], s) then Err(InvalidSignature)
    else if s.channelId != id then Err(InvalidState)
    else
      Ok(m.(channels := m.channels[id := m.channels[id].(disputeEnd := Some(now + env.challengePeriod))],
            states := m.states[id := m.states[id].(status := Closing)]))
  }

  function FinalizeClose(m: Manager, id: Id, now: int): Result<Manager, Error> {
    if id !in m.channels || id !in m.states then Err(ChannelNotFound)
    else if !m.states[id].status.Closing? then Err(NotClosing)
    else if m.channels[id].disputeEnd.None? then Err(InvalidState)
    else if now < m.channels[id].disputeEnd.value then Err(DisputeTimeout)
    else Ok(m.(states := m.states[id := m.states[id].(status := Closed)]))
  }

  // ---------------------------------------------------------------- HTLC steps

  /** The amounts a party has sent in HTLCs of the map, all of them or only those in the given state. */
  ghost function Amounts(htlcs: map<Id, Htlc>, party: Address): map<Id, int> {
    map h | h in htlcs && htlcs[h].sender == party :: htlcs[h].amount
  }

  ghost function PendingAmounts(htlcs: map<Id, Htlc>, party: Address): map<Id, int> {
    map h | h in htlcs && htlcs[h].sender == party && htlcs[h].state.HtlcPending? :: htlcs[h].amount
  }

  ghost function Listed(htlcs: map<Id, Htlc>, party: Address): int { MapSums.Sum(Amounts(htlcs, party)) }

  ghost function Reserved(htlcs: map<Id, Htlc>, party: Address): int { MapSums.Sum(PendingAmounts(htlcs, party)) }

  /** getAvailableBalance: every listed amount is subtracted, settled or not, with wrap-around. */
  ghost function Available(c: Channel, r: Runtime, party: Address): u64 {
    if party == c.partyA then (c.balanceA - Listed(r.htlcs, party)) % MOD
    else if party == c.partyB then (c.balanceB - Listed(r.htlcs, party)) % MOD
    else 0
  }

  ghost function AddHtlc(m: Manager, id: Id, h: Htlc): Result<Manager, Error> {
    if id !in m.channels || id !in m.states then Err(ChannelNotFound)
    else
      var c, r := m.channels[id], m.states[id];
      if !r.status.Open? then Err(NotOpen)
      else if h.channelId != id then Err(HtlcMismatch)
      else if h.sender != c.partyA && h.sender != c.partyB then Err(InvalidParty)
      else if h.receiver != c.partyA && h.receiver != c.partyB then Err(InvalidParty)
      else if h.sender == h.receiver then Err(InvalidParty)
      else if h.id in r.htlcs then Err(HtlcExists)
      else if h.amount > Available(c, r, h.sender) then Err(InsufficientBalance)
      else Ok(m.(states := m.states[id := r.(htlcs := r.htlcs[h.id := h])]))
  }

  /** CompleteHTLC, in whatever status the channel is. */
  function CompleteHtlc(env: Env, m: Manager, id: Id, hid: Id, preimage: Bytes): Result<Manager, Error> {
    if id !in m.channels || id !in m.states then Err(ChannelNotFound)
    else if hid !in m.states[id].htlcs then Err(HtlcNotFound)
    else
      var c, r := m.channels[id], m.states[id];
      var h := r.htlcs[hid];
      if !h.state.HtlcPending? then Err(HtlcNotPending)
      else if env.lockHash(preimage) != h.hashLock then Err(InvalidPreimage)
      else
        var c' :=
          if h.sender == c.partyA && h.receiver == c.partyB then Move(c, h.amount, true)
          else if h.sender == c.partyB && h.receiver == c.partyA then Move(c, h.amount, false)
          else c;
        Ok(m.(channels := m.channels[id := Bumped(env, c')],
              states := m.states[id := r.(htlcs := r.htlcs[hid := h.(state := HtlcCompleted)])]))
  }

  function ExpireHtlc(m: Manager, id: Id, hid: Id, now: int): Result<Manager, Error> {
    if id !in m.states then Err(ChannelNotFound)
    else if hid !in m.states[id].htlcs then Err(HtlcNotFound)
    else if !m.states[id].htlcs[hid].state.HtlcPending? then Err(HtlcNotPending)
    else if now < m.states[id].htlcs[hid].timeLock then Err(NotExpired)
    else
      var r := m.states[id];
      Ok(m.(states := m.states[id := r.(htlcs := r.htlcs[hid := r.htlcs[hid].(state := HtlcExpired)])]))
  }

  function RemoveHtlc(m: Manager, id: Id, hid: Id): Result<Manager, Error> {
    if id !in m.states then Err(ChannelNotFound)
    else Ok(m.(states := m.states[id := m.states[id].(htlcs := m.states[id].htlcs - {hid})]))
  }

  function Expired(h: Htlc, now: int): Htlc {
    if h.state.HtlcPending? && now > h.timeLock then h.(state := HtlcExpired) else h
  }

  function AllExpired(htlcs: map<Id, Htlc>, now: int): map<Id, Htlc> {
    map h | h in htlcs :: Expired(htlcs[h], now)
  }

  function SettleExpired(m: Manager, id: Id, now: int): Result<Manager, Error> {
    if id !in m.states then Err(ChannelNotFound)
    else Ok(m.(states := m.states[id := m.states[id].(htlcs := AllExpired(m.states[id].htlcs, now))]))
  }

  // ---------------------------------------------------------------- runs

  datatype Op =
    | OpenOp(id: Id, a: Address, b: Address, depositA: u64, depositB: u64, funded: bool)
    | UpdateOp(id: Id, state: SignedState)
    | CloseOp(id: Id, state: SignedState, spent: bool)
    | DisputeOp(id: Id, state: SignedState, now: int)
    | ResolveOp(id: Id, honest: Address, now: int)
    | TransferOp(id: Id, amount: u64, fromA: bool)
    | ForceCloseOp(id: Id, state: SignedState, now: int)
    | FinalizeOp(id: Id, now: int)
    | AddHtlcOp(id: Id, htlc: Htlc)
    | CompleteOp(id: Id, hid: Id, preimage: Bytes)
    | ExpireOp(id: Id, hid: Id, now: int)
    | RemoveOp(id: Id, hid: Id)
    | SettleExpiredOp(id: Id, now: int)

  ghost function Try(env: Env, m: Manager, op: Op): Result<Manager, Error> {
    match op
    case OpenOp(id, a, b, depositA, depositB, funded) => OpenChannel(env, m, id, a, b, depositA, depositB, funded)
    case UpdateOp(id, s) => UpdateState(env, m, id, s)
    case CloseOp(id, s, spent) => CloseChannel(env, m, id, s, spent)
    case DisputeOp(id, s, now) => StartDispute(env, m, id, s, now)
    case ResolveOp(id, honest, now) => ResolveDispute(m, id, honest, now)
    case TransferOp(id, amount, fromA) => Transfer(env, m, id, amount, fromA)
    case ForceCloseOp(id, s, now) => ForceClose(env, m, id, s, now)
    case FinalizeOp(id, now) => FinalizeClose(m, id, now)
    case AddHtlcOp(id, h) => AddHtlc(m, id, h)
    case CompleteOp(id, hid, preimage) => CompleteHtlc(env, m, id, hid, preimage)
    case ExpireOp(id, hid, now) => ExpireHtlc(m, id, hid, now)
    case RemoveOp(id, hid) => RemoveHtlc(m, id, hid)
    case SettleExpiredOp(id, now) => SettleExpired(m, id, now)
  }

  /** A refused step changes nothing. */
  ghost function Step(env: Env, m: Manager, op: Op): Manager {
    var r := Try(env, m, op);
    if r.Ok? then r.value else m
  }

  ghost function Run(env: Env, m: Manager, ops: seq<Op>): Manager
    decreases |ops|
  {
    if ops == [] then m else Run(env, Step(env, m, ops[0]), ops[1..])
  }
}
