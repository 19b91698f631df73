/** The channel manager as the source runs it: channels, runtime states, HTLCs and disputes are objects that the methods
    change in place. Every method takes the step of the same name in ChannelModel, keeps the manager consistent, and
    lets channels move forward only. */
module ChannelManagers {
  import opened Word64
  import opened Results
  import opened ChannelModel
  import opened ChannelProofs
  import MapSums

  class LiveChannel {
    const id: Id
    const partyA: Address
    const partyB: Address
    var balanceA: u64
    var balanceB: u64
    var sequence: u64
    var stateHash: Hash32
    var disputeEnd: Option<int>

    constructor (env: Env, id: Id, partyA: Address, partyB: Address, balanceA: u64, balanceB: u64)
      ensures this.id == id
      ensures var c := Channel(id, partyA, partyB, balanceA, balanceB, 0, 0, None);
              Value() == c.(stateHash := HashOf(env, c))
    {
      this.id, this.partyA, this.partyB, this.balanceA, this.balanceB := id, partyA, partyB, balanceA, balanceB;
      sequence, disputeEnd := 0, None;
      stateHash := env.stateHash(id, partyA, partyB, balanceA, balanceB, 0);
    }

    function Value(): Channel
      reads this
    {
      Channel(id, partyA, partyB, balanceA, balanceB, sequence, stateHash, disputeEnd)
    }

    method Adopt(s: SignedState)
      modifies this
      ensures Value() == old(Value()).(balanceA := s.balanceA, balanceB := s.balanceB, sequence := s.sequence)
    {
      balanceA := s.balanceA;
      balanceB := s.balanceB;
      sequence := s.sequence;
    }

    /** The penalty of ResolveDispute. */
    method Award(toA: bool)
      modifies this
      ensures var c := old(Value());
              Value() == if toA then c.(balanceA := c.Total(), balanceB := 0)
                         else c.(balanceA := 0, balanceB := Add(c.balanceB, c.balanceA))
    {
      if toA {
        balanceA := Add(balanceA, balanceB);
        balanceB := 0;
      } else {
        balanceB := Add(balanceB, balanceA);
        balanceA := 0;
      }
    }

    /** The assignments shared by Transfer and CompleteHTLC. */
    method Pay(env: Env, amount: u64, fromA: bool)
      modifies this
      ensures Value() == Bumped(env, Move(old(Value()), amount, fromA))
    {
      if fromA {
        balanceA := Sub(balanceA, amount);
        balanceB := Add(balanceB, amount);
      } else {
        balanceB := Sub(balanceB, amount);
        balanceA := Add(balanceA, amount);
      }
      sequence := Add(sequence, 1);
      stateHash := HashOf(env, Value());
    }
  }

  class LiveHtlc {
    const channelId: Id
    const id: Id
    const hashLock: Hash32
    const timeLock: int
    const amount: u64
    const sender: Address
    const receiver: Address
    var state: HtlcStatus

    /** A new HTLC, as callers build it. */
    constructor (channelId: Id, id: Id, hashLock: Hash32, timeLock: int, amount: u64, sender: Address, receiver: Address)
      ensures Value() == Htlc(channelId, id, hashLock, timeLock, amount, sender, receiver, HtlcPending)
    {
      this.channelId, this.id, this.hashLock, this.timeLock := channelId, id, hashLock, timeLock;
      this.amount, this.sender, this.receiver, state := amount, sender, receiver, HtlcPending;
    }

    function Value(): Htlc
      reads this
    {
      Htlc(channelId, id, hashLock, timeLock, amount, sender, receiver, state)
    }
  }

  class LiveState {
    ghost const channelId: Id
    var status: Status
    var pending: map<Id, LiveHtlc>

    constructor (ghost channelId: Id)
      ensures this.channelId == channelId && status == Open && pending == map[]
    {
      this.channelId := channelId;
      status, pending := Open, map[];
    }
  }

  class LiveDispute {
    const channelId: Id
    const evidence: SignedState
    const start: int
    const end: int
    var resolved: bool
    var winner: Option<Address>

    constructor (channelId: Id, evidence: SignedState, start: int, end: int)
      ensures this.channelId == channelId && Value() == Dispute(evidence, start, end, false, None)
    {
      this.channelId, this.evidence, this.start, this.end := channelId, evidence, start, end;
      resolved, winner := false, None;
    }

    function Value(): Dispute
      reads this
    {
      Dispute(evidence, start, end, resolved, winner)
    }
  }

  // ---------------------------------------------------------------- which values the objects stand for

  /** The object at a key has the given value. It carries its key, so no object is at two keys. */
  ghost predicate ChannelAt(channels: map<Id, LiveChannel>, values: map<Id, Channel>, id: Id)
    reads channels.Values
  {
    id in channels ==> channels[id].id == id && id in values && channels[id].Value() == values[id]
  }

  ghost predicate Channels(channels: map<Id, LiveChannel>, values: map<Id, Channel>)
    reads channels.Values
  {
    channels.Keys == values.Keys && forall id :: ChannelAt(channels, values, id)
  }

  ghost predicate HtlcAt(pending: map<Id, LiveHtlc>, values: map<Id, Htlc>, channelId: Id, h: Id)
    reads pending.Values
  {
    h in pending ==>
      pending[h].channelId == channelId && pending[h].id == h && h in values && pending[h].Value() == values[h]
  }

  ghost predicate Htlcs(pending: map<Id, LiveHtlc>, values: map<Id, Htlc>, channelId: Id)
    reads pending.Values
  {
    pending.Keys == values.Keys && forall h :: HtlcAt(pending, values, channelId, h)
  }

  ghost predicate StateAt(states: map<Id, LiveState>, values: map<Id, Runtime>, htlcs: set<LiveHtlc>, id: Id)
    reads states.Values, htlcs
  {
    id in states ==>
      && states[id].channelId == id && id in values && states[id].status == values[id].status
      && states[id].pending.Values <= htlcs && Htlcs(states[id].pending, values[id].htlcs, id)
  }

  ghost predicate States(states: map<Id, LiveState>, values: map<Id, Runtime>, htlcs: set<LiveHtlc>)
    reads states.Values, htlcs
  {
    states.Keys == values.Keys && forall id :: StateAt(states, values, htlcs, id)
  }

  ghost predicate DisputeAt(disputes: map<Id, LiveDispute>, values: map<Id, Dispute>, id: Id)
    reads disputes.Values
  {
    id in disputes ==> disputes[id].channelId == id && id in values && disputes[id].Value() == values[id]
  }

  ghost predicate Disputes(disputes: map<Id, LiveDispute>, values: map<Id, Dispute>)
    reads disputes.Values
  {
    disputes.Keys == values.Keys && forall id :: DisputeAt(disputes, values, id)
  }

  // ---------------------------------------------------------------- taking one entry out and putting it back

  lemma ChannelsSplit(channels: map<Id, LiveChannel>, values: map<Id, Channel>, id: Id)
    requires Channels(channels, values) && id in channels
    ensures Channels(channels - {id}, values - {id}) && channels[id] !in (channels - {id}).Values
    ensures channels[id].id == id && id in values && channels[id].Value() == values[id]
  {
    assert ChannelAt(channels, values, id);
    var channels', values' := channels - {id}, values - {id};
    forall j ensures ChannelAt(channels', values', j) {
      assert ChannelAt(channels, values, j);
    }
    forall j | j in channels' ensures channels'[j] != channels[id] {
      assert ChannelAt(channels, values, j);
    }
  }

  lemma ChannelsAdd(channels: map<Id, LiveChannel>, values: map<Id, Channel>, c: LiveChannel)
    requires Channels(channels, values)
    ensures Channels(channels[c.id := c], values[c.id := c.Value()])
  {
    var channels', values' := channels[c.id := c], values[c.id := c.Value()];
    forall j ensures ChannelAt(channels', values', j) {
      assert ChannelAt(channels, values, j);
    }
  }

  lemma ChannelsJoin(channels: map<Id, LiveChannel>, values: map<Id, Channel>, id: Id)
    requires id in channels && channels[id].id == id && Channels(channels - {id}, values - {id})
    ensures Channels(channels, values[id := channels[id].Value()])
  {
    var values' := values[id := channels[id].Value()];
    forall j ensures ChannelAt(channels, values', j) {
      assert ChannelAt(channels - {id}, values - {id}, j);
    }
    assert channels.Keys == (channels - {id}).Keys + {id} && values'.Keys == (values - {id}).Keys + {id};
  }

  lemma HtlcsSplit(pending: map<Id, LiveHtlc>, values: map<Id, Htlc>, channelId: Id, h: Id)
    requires Htlcs(pending, values, channelId) && h in pending
    ensures Htlcs(pending - {h}, values - {h}, channelId) && pending[h] !in (pending - {h}).Values
    ensures pending[h].channelId == channelId && pending[h].id == h && h in values && pending[h].Value() == values[h]
  {
    assert HtlcAt(pending, values, channelId, h);
    var pending', values' := pending - {h}, values - {h};
    forall j ensures HtlcAt(pending', values', channelId, j) {
      assert HtlcAt(pending, values, channelId, j);
    }
    forall j | j in pending' ensures pending'[j] != pending[h] {
      assert HtlcAt(pending, values, channelId, j);
    }
  }

  lemma HtlcsRemove(pending: map<Id, LiveHtlc>, values: map<Id, Htlc>, channelId: Id, h: Id)
    requires Htlcs(pending, values, channelId)
    ensures Htlcs(pending - {h}, values - {h}, channelId)
  {
    var pending', values' := pending - {h}, values - {h};
    forall j ensures HtlcAt(pending', values', channelId, j) {
      assert HtlcAt(pending, values, channelId, j);
    }
  }

  lemma HtlcsJoin(pending: map<Id, LiveHtlc>, values: map<Id, Htlc>, channelId: Id, h: Id)
    requires h in pending && pending[h].channelId == channelId && pending[h].id == h
    requires Htlcs(pending - {h}, values - {h}, channelId)
    ensures Htlcs(pending, values[h := pending[h].Value()], channelId)
  {
    var values' := values[h := pending[h].Value()];
    forall j ensures HtlcAt(pending, values', channelId, j) {
      assert HtlcAt(pending - {h}, values - {h}, channelId, j);
    }
    assert pending.Keys == (pending - {h}).Keys + {h} && values'.Keys == (values - {h}).Keys + {h};
  }

  lemma HtlcsAdd(pending: map<Id, LiveHtlc>, values: map<Id, Htlc>, channelId: Id, h: LiveHtlc)
    requires Htlcs(pending, values, channelId) && h.channelId == channelId && h.id !in pending
    ensures Htlcs(pending[h.id := h], values[h.id := h.Value()], channelId)
  {
    var pending', values' := pending[h.id := h], values[h.id := h.Value()];
    forall j ensures HtlcAt(pending', values', channelId, j) {
      assert HtlcAt(pending, values, channelId, j);
    }
  }

  /** What a runtime state object stands for. */
  ghost predicate StandsFor(r: LiveState, value: Runtime)
    reads r, r.pending.Values
  {
    r.status == value.status && Htlcs(r.pending, value.htlcs, r.channelId)
  }

  /** A state taken out takes its HTLCs with it: no other state lists any of them. */
  lemma StatesSplit(states: map<Id, LiveState>, values: map<Id, Runtime>, htlcs: set<LiveHtlc>, id: Id)
    requires States(states, values, htlcs) && id in states
    ensures States(states - {id}, values - {id}, htlcs - states[id].pending.Values)
    ensures states[id] !in (states - {id}).Values
    ensures states[id].channelId == id && id in values && StandsFor(states[id], values[id])
    ensures states[id].pending.Values <= htlcs
  {
    assert StateAt(states, values, htlcs, id);
    var states', values' := states - {id}, values - {id};
    var rest := htlcs - states[id].pending.Values;
    forall j ensures StateAt(states', values', rest, j) {
      assert StateAt(states, values, htlcs, j);
      if j in states' { PendingApart(states, values, htlcs, id, j); }
    }
    forall j | j in states' ensures states'[j] != states[id] {
      assert StateAt(states, values, htlcs, j);
    }
  }

  lemma PendingKeyed(pending: map<Id, LiveHtlc>, values: map<Id, Htlc>, channelId: Id)
    requires Htlcs(pending, values, channelId)
    ensures forall x :: x in pending.Values ==> x.channelId == channelId
  {
    forall x | x in pending.Values ensures x.channelId == channelId {
      var h :| h in pending && pending[h] == x;
      assert HtlcAt(pending, values, channelId, h);
    }
  }

  lemma PendingApart(states: map<Id, LiveState>, values: map<Id, Runtime>, htlcs: set<LiveHtlc>, id: Id, j: Id)
    requires States(states, values, htlcs) && id in states && j in states && id != j
    ensures states[id].pending.Values !! states[j].pending.Values
  {
    assert StateAt(states, values, htlcs, id) && StateAt(states, values, htlcs, j);
    PendingKeyed(states[id].pending, values[id].htlcs, id);
    PendingKeyed(states[j].pending, values[j].htlcs, j);
  }

  lemma StatesAdd(states: map<Id, LiveState>, values: map<Id, Runtime>, htlcs: set<LiveHtlc>, r: LiveState)
    requires States(states, values, htlcs) && r.pending == map[]
    ensures States(states[r.channelId := r], values[r.channelId := Runtime(r.status, map[])], htlcs)
  {
    var states', values' := states[r.channelId := r], values[r.channelId := Runtime(r.status, map[])];
    forall j ensures StateAt(states', values', htlcs, j) {
      assert StateAt(states, values, htlcs, j);
    }
  }

  lemma StatesJoin(states: map<Id, LiveState>, values: map<Id, Runtime>, rest: set<LiveHtlc>, htlcs: set<LiveHtlc>,
                   id: Id, value: Runtime)
    requires id in states && states[id].channelId == id && StandsFor(states[id], value)
    requires States(states - {id}, values - {id}, rest) && rest <= htlcs && states[id].pending.Values <= htlcs
    ensures States(states, values[id := value], htlcs)
  {
    var values' := values[id := value];
    forall j ensures StateAt(states, values', htlcs, j) {
      assert StateAt(states - {id}, values - {id}, rest, j);
    }
    assert states.Keys == (states - {id}).Keys + {id} && values'.Keys == (values - {id}).Keys + {id};
  }

  lemma DisputesSplit(disputes: map<Id, LiveDispute>, values: map<Id, Dispute>, id: Id)
    requires Disputes(disputes, values)
    ensures Disputes(disputes - {id}, values - {id})
    ensures id in disputes ==>
              && disputes[id] !in (disputes - {id}).Values && disputes[id].channelId == id
              && id in values && disputes[id].Value() == values[id]
  {
    assert DisputeAt(disputes, values, id);
    var disputes', values' := disputes - {id}, values - {id};
    forall j ensures DisputeAt(disputes', values', j) {
      assert DisputeAt(disputes, values, j);
    }
    forall j | j in disputes' && id in disputes ensures disputes'[j] != disputes[id] {
      assert DisputeAt(disputes, values, j);
    }
  }

  lemma DisputesAdd(disputes: map<Id, LiveDispute>, values: map<Id, Dispute>, d: LiveDispute)
    requires Disputes(disputes, values)
    ensures Disputes(disputes[d.channelId := d], values[d.channelId := d.Value()])
  {
    var disputes', values' := disputes[d.channelId := d], values[d.channelId := d.Value()];
    forall j ensures DisputeAt(disputes', values', j) {
      assert DisputeAt(disputes, values, j);
    }
  }

  lemma DisputesJoin(disputes: map<Id, LiveDispute>, values: map<Id, Dispute>, id: Id)
    requires id in disputes && disputes[id].channelId == id && Disputes(disputes - {id}, values - {id})
    ensures Disputes(disputes, values[id := disputes[id].Value()])
  {
    var values' := values[id := disputes[id].Value()];
    forall j ensures DisputeAt(disputes, values', j) {
      assert DisputeAt(disputes - {id}, values - {id}, j);
    }
    assert disputes.Keys == (disputes - {id}).Keys + {id} && values'.Keys == (values - {id}).Keys + {id};
  }

  /** The step succeeded with the given state, or was refused and changed nothing. */
  ghost predicate Answers(r: Result<Manager, Error>, before: Manager, after: Manager, e: Option<Error>) {
    match r
    case Ok(m) => e.None? && after == m
    case Err(x) => e == Some(x) && after == before
  }

  /** The manager after a dispute was filed. */
  ghost function Disputed(m: Manager, id: Id, s: SignedState, start: int, end: int): Manager
    requires id in m.channels && id in m.states
  {
    Manager(m.channels[id := m.channels[id].(disputeEnd := Some(end))],
            m.states[id := m.states[id].(status := InDispute)],
            m.disputes[id := Dispute(s, start, end, false, None)])
  }

  class ChannelManager {
    const env: Env
    var channels: map<Id, LiveChannel>
    var states: map<Id, LiveState>
    var disputes: map<Id, LiveDispute>
    ghost var view: Manager          // the values all of this stands for
    ghost var htlcs: set<LiveHtlc>   // every HTLC that was ever listed

    constructor (env: Env)
      ensures Valid() && view == NO_CHANNELS && this.env == env && htlcs == {}
    {
      this.env := env;
      channels, states, disputes := map[], map[], map[];
      view, htlcs := NO_CHANNELS, {};
    }

    /** The objects stand for the values in `view`. */
    ghost predicate Stands()
      reads this, channels.Values, states.Values, disputes.Values, htlcs
    {
      Channels(channels, view.channels) && States(states, view.states, htlcs) && Disputes(disputes, view.disputes)
    }

    /** And these make a consistent manager. */
    ghost predicate Valid()
      reads this, channels.Values, states.Values, disputes.Values, htlcs
    {
      Stands() && ManagerWF(env, view)
    }

    // ---------------------------------------------------------------- writing to the objects

    /** What the maps hold under `id`, in values. */
    lemma Here(id: Id)
      requires Stands()
      ensures id in channels <==> id in view.channels
      ensures id in states <==> id in view.states
      ensures id in disputes <==> id in view.disputes
      ensures id in channels ==> channels[id].id == id && channels[id].Value() == view.channels[id]
      ensures id in states ==> states[id].channelId == id && StandsFor(states[id], view.states[id])
      ensures id in states ==> states[id].pending.Values <= htlcs
      ensures id in disputes ==> disputes[id].Value() == view.disputes[id]
    {
      assert ChannelAt(channels, view.channels, id) && StateAt(states, view.states, htlcs, id);
      assert DisputeAt(disputes, view.disputes, id);
    }

    /** Stores a new channel with its state. */
    method Record(c: LiveChannel, r: LiveState)
      requires Stands() && r.channelId == c.id && r.pending == map[]
      modifies this`channels, this`states, this`view
      ensures Stands() && channels == old(channels)[c.id := c] && states == old(states)[c.id := r]
      ensures view == old(view).(channels := old(view).channels[c.id := c.Value()],
                                 states := old(view).states[c.id := Runtime(r.status, map[])])
    {
      ChannelsAdd(channels, view.channels, c);
      StatesAdd(states, view.states, htlcs, r);
      channels, states := channels[c.id := c], states[c.id := r];
      view := view.(channels := view.channels[c.id := c.Value()],
                    states := view.states[c.id := Runtime(r.status, map[])]);
    }

    method PayIn(id: Id, amount: u64, fromA: bool)
      requires Stands() && id in channels && id in view.channels
      modifies this`view, channels[id]
      ensures Stands()
      ensures view == old(view).(channels := old(view).channels[id := Bumped(env, Move(old(view).channels[id], amount, fromA))])
    {
      ChannelsSplit(channels, view.channels, id);
      channels[id].Pay(env, amount, fromA);
      ChannelsJoin(channels, view.channels, id);
      view := view.(channels := view.channels[id := channels[id].Value()]);
    }

    /** The balances and the sequence number of a signed state. */
    method Adopt(id: Id, s: SignedState)
      requires Stands() && id in channels && id in view.channels
      modifies this`view, channels[id]
      ensures Stands()
      ensures view == old(view).(channels := old(view).channels[id :=
                old(view).channels[id].(balanceA := s.balanceA, balanceB := s.balanceB, sequence := s.sequence)])
    {
      ChannelsSplit(channels, view.channels, id);
      channels[id].Adopt(s);
      ChannelsJoin(channels, view.channels, id);
      view := view.(channels := view.channels[id := channels[id].Value()]);
    }

    /** The same, with a new hash. */
    method AdoptHashed(id: Id, s: SignedState)
      requires Stands() && id in channels && id in view.channels
      modifies this`view, channels[id]
      ensures Stands()
      ensures var c := old(view).channels[id].(balanceA := s.balanceA, balanceB := s.balanceB, sequence := s.sequence);
              view == old(view).(channels := old(view).channels[id := c.(stateHash := HashOf(env, c))])
    {
      ChannelsSplit(channels, view.channels, id);
      channels[id].Adopt(s);
      channels[id].stateHash := HashOf(env, channels[id].Value());
      ChannelsJoin(channels, view.channels, id);
      view := view.(channels := view.channels[id := channels[id].Value()]);
    }

    method SetDisputeEnd(id: Id, end: int)
      requires Stands() && id in channels && id in view.channels
      modifies this`view, channels[id]
      ensures Stands()
      ensures view == old(view).(channels := old(view).channels[id := old(view).channels[id].(disputeEnd := Some(end))])
    {
      ChannelsSplit(channels, view.channels, id);
      channels[id].disputeEnd := Some(end);
      ChannelsJoin(channels, view.channels, id);
      view := view.(channels := view.channels[id := channels[id].Value()]);
    }

    /** Everything to one party. */
    method Award(id: Id, toA: bool)
      requires Stands() && id in channels && id in view.channels
      modifies this`view, channels[id]
      ensures Stands()
      ensures var c := old(view).channels[id];
              view == old(view).(channels := old(view).channels[id :=
                if toA then c.(balanceA := c.Total(), balanceB := 0)
                else c.(balanceA := 0, balanceB := Add(c.balanceB, c.balanceA))])
    {
      ChannelsSplit(channels, view.channels, id);
      channels[id].Award(toA);
      ChannelsJoin(channels, view.channels, id);
      view := view.(channels := view.channels[id := channels[id].Value()]);
    }

    method SetStatus(id: Id, status: Status)
      requires Stands() && id in states && id in view.states
      modifies this`view, states[id]
      ensures Stands()
      ensures view == old(view).(states := old(view).states[id := old(view).states[id].(status := status)])
    {
      StatesSplit(states, view.states, htlcs, id);
      ghost var rest := htlcs - states[id].pending.Values;
      states[id].status := status;
      StatesJoin(states, view.states, rest, htlcs, id, view.states[id].(status := status));
      view := view.(states := view.states[id := view.states[id].(status := status)]);
    }

    method FileDispute(d: LiveDispute)
      requires Stands()
      modifies this`disputes, this`view
      ensures Stands() && disputes == old(disputes)[d.channelId := d]
      ensures view == old(view).(disputes := old(view).disputes[d.channelId := d.Value()])
    {
      DisputesAdd(disputes, view.disputes, d);
      disputes := disputes[d.channelId := d];
      view := view.(disputes := view.disputes[d.channelId := d.Value()]);
    }

    method MarkResolved(id: Id, winner: Address)
      requires Stands() && id in disputes && id in view.disputes
      modifies this`view, disputes[id]
      ensures Stands()
      ensures view == old(view).(disputes := old(view).disputes[id :=
                old(view).disputes[id].(resolved := true, winner := Some(winner))])
    {
      DisputesSplit(disputes, view.disputes, id);
      disputes[id].resolved := true;
      disputes[id].winner := Some(winner);
      DisputesJoin(disputes, view.disputes, id);
      view := view.(disputes := view.disputes[id := disputes[id].Value()]);
    }

    method SetPending(id: Id, pending: map<Id, LiveHtlc>, ghost values: map<Id, Htlc>)
      requires Stands() && id in states && id in view.states && Htlcs(pending, values, id)
      modifies this`view, this`htlcs, states[id]
      ensures Stands() && htlcs == old(htlcs) + pending.Values
      ensures view == old(view).(states := old(view).states[id := old(view).states[id].(htlcs := values)])
    {
      StatesSplit(states, view.states, htlcs, id);
      ghost var rest := htlcs - states[id].pending.Values;
      states[id].pending := pending;
      htlcs := htlcs + pending.Values;
      StatesJoin(states, view.states, rest, htlcs, id, view.states[id].(htlcs := values));
      view := view.(states := view.states[id := view.states[id].(htlcs := values)]);
    }

    /** Lists an HTLC object the caller has made. */
    method List(id: Id, h: LiveHtlc)
      requires Stands() && id in states && id in view.states && h.channelId == id && h.id !in states[id].pending
      modifies this`view, this`htlcs, states[id]
      ensures Stands() && htlcs <= old(htlcs) + {h}
      ensures view == old(view).(states := old(view).states[id :=
                old(view).states[id].(htlcs := old(view).states[id].htlcs[h.id := h.Value()])])
    {
      Here(id);
      HtlcsAdd(states[id].pending, view.states[id].htlcs, id, h);
      SetPending(id, states[id].pending[h.id := h], view.states[id].htlcs[h.id := h.Value()]);
    }

    method Unlist(id: Id, hid: Id)
      requires Stands() && id in states && id in view.states
      modifies this`view, this`htlcs, states[id]
      ensures Stands() && htlcs <= old(htlcs)
      ensures view == old(view).(states := old(view).states[id :=
                old(view).states[id].(htlcs := old(view).states[id].htlcs - {hid})])
    {
      Here(id);
      HtlcsRemove(states[id].pending, view.states[id].htlcs, id, hid);
      SetPending(id, states[id].pending - {hid}, view.states[id].htlcs - {hid});
    }

    /** Marks one listed HTLC. */
    method Mark(id: Id, hid: Id, state: HtlcStatus)
      requires Stands() && id in states && id in view.states && hid in states[id].pending && hid in view.states[id].htlcs
      modifies this`view, states[id].pending[hid]
      ensures Stands()
      ensures var r := old(view).states[id];
              view == old(view).(states := old(view).states[id := r.(htlcs := r.htlcs[hid := r.htlcs[hid].(state := state)])])
    {
      StatesSplit(states, view.states, htlcs, id);
      ghost var rest := htlcs - states[id].pending.Values;
      ghost var r := view.states[id];
      HtlcsSplit(states[id].pending, r.htlcs, id, hid);
      states[id].pending[hid].state := state;
      HtlcsJoin(states[id].pending, r.htlcs, id, hid);
      StatesJoin(states, view.states, rest, htlcs, id, r.(htlcs := r.htlcs[hid := states[id].pending[hid].Value()]));
      view := view.(states := view.states[id := r.(htlcs := r.htlcs[hid := states[id].pending[hid].Value()])]);
    }

    /** The loop of SettleExpiredHTLCs. */
    method MarkExpired(id: Id, now: int)
      requires Stands() && id in states && id in view.states
      modifies this`view, states[id].pending.Values
      ensures Stands()
      ensures var r := old(view).states[id];
              view == old(view).(states := old(view).states[id := r.(htlcs := AllExpired(r.htlcs, now))])
    {
      StatesSplit(states, view.states, htlcs, id);
      ghost var rest := htlcs - states[id].pending.Values;
      ghost var r := view.states[id];
      ExpireAll(states[id].pending, r.htlcs, id, now);
      StatesJoin(states, view.states, rest, htlcs, id, r.(htlcs := AllExpired(r.htlcs, now)));
      view := view.(states := view.states[id := r.(htlcs := AllExpired(r.htlcs, now))]);
    }

    /** A new dispute record, and the channel's answer to it. */
    method Freeze(id: Id, s: SignedState, start: int, end: int, ghost m: Manager)
      requires Stands() && id in channels && id in view.channels && id in states && id in view.states
      modifies this`view, this`disputes, channels[id], states[id]
      requires m == Disputed(view, id, s, start, end)
      ensures Stands() && view == m && fresh(disputes.Values - old(disputes.Values))
    {
      var d := new LiveDispute(id, s, start, end);
      FileDispute(d);
      SetStatus(id, InDispute);
      SetDisputeEnd(id, end);
    }

    method Penalise(id: Id, toA: bool, winner: Address)
      requires Stands() && id in channels && id in view.channels && id in states && id in view.states
      requires id in disputes && id in view.disputes
      modifies this`view, channels[id], states[id], disputes[id]
      ensures Stands()
      ensures var c := old(view).channels[id];
              view == Manager(
                old(view).channels[id := if toA then c.(balanceA := c.Total(), balanceB := 0)
                                         else c.(balanceA := 0, balanceB := Add(c.balanceB, c.balanceA))],
                old(view).states[id := old(view).states[id].(status := Closed)],
                old(view).disputes[id := old(view).disputes[id].(resolved := true, winner := Some(winner))])
    {
      Award(id, toA);
      MarkResolved(id, winner);
      SetStatus(id, Closed);
    }

    method BeginClose(id: Id, end: int)
      requires Stands() && id in channels && id in view.channels && id in states && id in view.states
      modifies this`view, channels[id], states[id]
      ensures Stands()
      ensures view == old(view).(channels := old(view).channels[id := old(view).channels[id].(disputeEnd := Some(end))],
                                 states := old(view).states[id := old(view).states[id].(status := Closing)])
    {
      SetDisputeEnd(id, end);
      SetStatus(id, Closing);
    }

    // ---------------------------------------------------------------- the manager's methods

    method Open(id: Id, a: Address, b: Address, depositA: u64, depositB: u64, funded: bool) returns (e: Option<Error>)
      requires Valid()
      modifies this`channels, this`states, this`view
      ensures Valid() && Forward(old(view), view)
      ensures Answers(OpenChannel(env, old(view), id, a, b, depositA, depositB, funded), old(view), view, e)
      ensures fresh(channels.Values - old(channels.Values)) && fresh(states.Values - old(states.Values))
    {
      StandsStill(view);
      Here(id);
      if depositA < env.minDeposit || depositB < env.minDeposit {
        return Some(InvalidBalance);
      }
      var totalValue := Add(depositA, depositB);
      if totalValue > env.maxChannelValue {
        return Some(InvalidBalance);
      }
      if id in channels {
        return Some(AlreadyExists);
      }
      if !funded {
        return Some(FundingFailed);
      }
      var c := new LiveChannel(env, id, a, b, depositA, depositB);
      var r := new LiveState(id);
      Record(c, r);
      StepForward(env, old(view), OpenOp(id, a, b, depositA, depositB, funded), view);
      e := None;
    }

    method Update(id: Id, s: SignedState) returns (e: Option<Error>)
      requires Valid()
      modifies this`view, channels.Values
      ensures Valid() && Forward(old(view), view)
      ensures Answers(UpdateState(env, old(view), id, s), old(view), view, e)
    {
      StandsStill(view);
      Here(id);
      if id !in channels {
        return Some(ChannelNotFound);
      }
      var c := channels[id];
      if states[id].status.Closed? {
        return Some(ChannelClosed);
      }
      if states[id].status.InDispute? {
        return Some(ChannelInDispute);
      }
      if s.channelId != id {
        return Some(InvalidState);
      }
      if s.sequence <= c.sequence {
        return Some(InvalidSequence);
      }
      if !BothSigned(env, c.Value(), s) {
        return Some(InvalidSignature);
      }
      var oldTotal, newTotal := Add(c.balanceA, c.balanceB), Add(s.balanceA, s.balanceB);
      if newTotal != oldTotal {
        return Some(InvalidBalance);
      }
      AdoptHashed(id, s);
      StepForward(env, old(view), UpdateOp(id, s), view);
      e := None;
    }

    method Close(id: Id, s: SignedState, spent: bool) returns (e: Option<Error>)
      requires Valid()
      modifies this`view, channels.Values, states.Values
      ensures Valid() && Forward(old(view), view)
      ensures Answers(CloseChannel(env, old(view), id, s, spent), old(view), view, e)
    {
      StandsStill(view);
      Here(id);
      if id !in channels {
        return Some(ChannelNotFound);
      }
      var c := channels[id];
      if states[id].status.Closed? {
        return Some(ChannelClosed);
      }
      if s.channelId != id {
        return Some(InvalidState);
      }
      if !BothSigned(env, c.Value(), s) {
        return Some(InvalidSignature);
      }
      var oldTotal, newTotal := Add(c.balanceA, c.balanceB), Add(s.balanceA, s.balanceB);
      if newTotal != oldTotal {
        return Some(InvalidBalance);
      }
      if !spent {
        return Some(SpendFailed);
      }
      StepForward(env, view, CloseOp(id, s, spent), CloseChannel(env, view, id, s, spent).value);
      SetStatus(id, Closed);
      Adopt(id, s);
      e := None;
    }

    /** The refusals of Dispute, in the order of the source; where there is none, what the dispute comes to. */
    method MayDispute(id: Id, s: SignedState, ghost now: int) returns (e: Option<Error>, ghost m: Manager)
      requires Valid()
      ensures e.Some? <==> ChannelModel.StartDispute(env, view, id, s, now).Err?
      ensures ManagerWF(env, m) && Forward(view, m)
      ensures Answers(ChannelModel.StartDispute(env, view, id, s, now), view, m, e)
      ensures e.None? ==>
                && id in channels && id in view.channels && id in states && id in view.states
                && m == Disputed(view, id, s, now, now + env.challengePeriod)
    {
      StandsStill(view);
      Here(id);
      if id !in channels {
        return Some(ChannelNotFound), view;
      }
      if states[id].status.Closed? {
        return Some(ChannelClosed), view;
      }
      if states[id].status.InDispute? {
        return Some(ChannelInDispute), view;
      }
      if !BothSigned(env, channels[id].Value(), s) {
        return Some(InvalidSignature), view;
      }
      if s.sequence <= channels[id].sequence {
        return Some(InvalidSequence), view;
      }
      e, m := None, Disputed(view, id, s, now, now + env.challengePeriod);
      StepForward(env, view, DisputeOp(id, s, now), m);
    }

    method StartDispute(id: Id, s: SignedState, now: int) returns (e: Option<Error>)
      requires Valid()
      modifies this`view, this`disputes, channels.Values, states.Values
      ensures Valid() && Forward(old(view), view)
      ensures Answers(ChannelModel.StartDispute(env, old(view), id, s, now), old(view), view, e)
      ensures fresh(disputes.Values - old(disputes.Values))
    {
      ghost var m;
      e, m := MayDispute(id, s, now);
      if e.None? {
        Freeze(id, s, now, now + env.challengePeriod, m);
      }
    }

    method Resolve(id: Id, honest: Address, now: int) returns (e: Option<Error>)
      requires Valid()
      modifies this`view, channels.Values, states.Values, disputes.Values
      ensures Valid() && Forward(old(view), view)
      ensures Answers(ResolveDispute(old(view), id, honest, now), old(view), view, e)
    {
      StandsStill(view);
      Here(id);
      if id !in disputes {
        return Some(DisputeNotFound);
      }
      if disputes[id].resolved {
        return Some(AlreadyResolved);
      }
      if now < disputes[id].end {
        return Some(DisputeTimeout);
      }
      if id !in channels {
        return Some(ChannelNotFound);
      }
      var c := channels[id];
      if honest != c.partyA && honest != c.partyB {
        return Some(InvalidParty);
      }
      StepForward(env, view, ResolveOp(id, honest, now), ResolveDispute(view, id, honest, now).value);
      Penalise(id, honest == c.partyA, honest);
      e := None;
    }

    method Pay(id: Id, amount: u64, fromA: bool) returns (e: Option<Error>)
      requires Valid()
      modifies this`view, channels.Values
      ensures Valid() && Forward(old(view), view)
      ensures Answers(Transfer(env, old(view), id, amount, fromA), old(view), view, e)
    {
      StandsStill(view);
      Here(id);
      if id !in channels {
        return Some(ChannelNotFound);
      }
      if !states[id].status.Open? {
        return Some(NotOpen);
      }
      var c := channels[id];
      if (if fromA then c.balanceA else c.balanceB) < amount {
        return Some(InsufficientBalance);
      }
      StepForward(env, view, TransferOp(id, amount, fromA), Transfer(env, view, id, amount, fromA).value);
      PayIn(id, amount, fromA);
      e := None;
    }

    method ForceClose(id: Id, s: SignedState, now: int) returns (e: Option<Error>)
      requires Valid()
      modifies this`view, channels.Values, states.Values
      ensures Valid() && Forward(old(view), view)
      ensures Answers(ChannelModel.ForceClose(env, old(view), id, s, now), old(view), view, e)
    {
      StandsStill(view);
      Here(id);
      if id !in channels {
        return Some(ChannelNotFound);
      }
      if !states[id].status.Open? {
        return Some(NotOpen);
      }
      if !BothSigned(env, channels[id].Value(), s) {
        return Some(InvalidSignature);
      }
      if s.channelId != id {
        return Some(InvalidState);
      }
      StepForward(env, view, ForceCloseOp(id, s, now), ChannelModel.ForceClose(env, view, id, s, now).value);
      BeginClose(id, now + env.challengePeriod);
      e := None;
    }

    method FinalizeClose(id: Id, now: int) returns (e: Option<Error>)
      requires Valid()
      modifies this`view, states.Values
      ensures Valid() && Forward(old(view), view)
      ensures Answers(ChannelModel.FinalizeClose(old(view), id, now), old(view), view, e)
    {
      StandsStill(view);
      Here(id);
      if id !in channels {
        return Some(ChannelNotFound);
      }
      if !states[id].status.Closing? {
        return Some(NotClosing);
      }
      if channels[id].disputeEnd.None? {
        return Some(InvalidState);
      }
      if now < channels[id].disputeEnd.value {
        return Some(DisputeTimeout);
      }
      SetStatus(id, Closed);
      StepForward(env, old(view), FinalizeOp(id, now), view);
      e := None;
    }

    /** AddHTLC lists the caller's object. */
    method AddHtlc(id: Id, h: LiveHtlc) returns (e: Option<Error>)
      requires Valid()
      modifies this`view, this`htlcs, states.Values
      ensures Valid() && Forward(old(view), view)
      ensures Answers(ChannelModel.AddHtlc(old(view), id, h.Value()), old(view), view, e)
      ensures htlcs <= old(htlcs) + {h}
    {
      StandsStill(view);
      Here(id);
      if id !in channels || id !in states {
        return Some(ChannelNotFound);
      }
      var c, r := channels[id], states[id];
      if !r.status.Open? {
        return Some(NotOpen);
      }
      if h.channelId != id {
        return Some(HtlcMismatch);
      }
      if h.sender != c.partyA && h.sender != c.partyB {
        return Some(InvalidParty);
      }
      if h.receiver != c.partyA && h.receiver != c.partyB {
        return Some(InvalidParty);
      }
      if h.sender == h.receiver {
        return Some(InvalidParty);
      }
      if h.id in r.pending {
        return Some(HtlcExists);
      }
      var available := AvailableBalance(c, r, view.states[id], h.sender);
      if h.amount > available {
        return Some(InsufficientBalance);
      }
      StepForward(env, view, AddHtlcOp(id, h.Value()), ChannelModel.AddHtlc(view, id, h.Value()).value);
      List(id, h);
      e := None;
    }

    method Complete(id: Id, hid: Id, preimage: Bytes) returns (e: Option<Error>)
      requires Valid()
      modifies this`view, channels.Values, htlcs
      ensures Valid() && Forward(old(view), view)
      ensures Answers(CompleteHtlc(env, old(view), id, hid, preimage), old(view), view, e)
    {
      StandsStill(view);
      Here(id);
      if id !in channels || id !in states {
        return Some(ChannelNotFound);
      }
      if hid !in states[id].pending {
        return Some(HtlcNotFound);
      }
      HereHtlc(id, hid);
      var c, h := channels[id], states[id].pending[hid];
      if !h.state.HtlcPending? {
        return Some(HtlcNotPending);
      }
      if env.lockHash(preimage) != h.hashLock {
        return Some(InvalidPreimage);
      }
      StepForward(env, view, CompleteOp(id, hid, preimage), CompleteHtlc(env, view, id, hid, preimage).value);
      PayIn(id, h.amount, h.sender == c.partyA);
      Mark(id, hid, HtlcCompleted);
      e := None;
    }

    method Expire(id: Id, hid: Id, now: int) returns (e: Option<Error>)
      requires Valid()
      modifies this`view, htlcs
      ensures Valid() && Forward(old(view), view)
      ensures Answers(ExpireHtlc(old(view), id, hid, now), old(view), view, e)
    {
      StandsStill(view);
      Here(id);
      if id !in states {
        return Some(ChannelNotFound);
      }
      if hid !in states[id].pending {
        return Some(HtlcNotFound);
      }
      HereHtlc(id, hid);
      var h := states[id].pending[hid];
      if !h.state.HtlcPending? {
        return Some(HtlcNotPending);
      }
      if now < h.timeLock {
        return Some(NotExpired);
      }
      StepForward(env, view, ExpireOp(id, hid, now), ExpireHtlc(view, id, hid, now).value);
      Mark(id, hid, HtlcExpired);
      e := None;
    }

    method Remove(id: Id, hid: Id) returns (e: Option<Error>)
      requires Valid()
      modifies this`view, this`htlcs, states.Values
      ensures Valid() && Forward(old(view), view)
      ensures Answers(RemoveHtlc(old(view), id, hid), old(view), view, e)
      ensures htlcs <= old(htlcs)
    {
      StandsStill(view);
      Here(id);
      if id !in states {
        return Some(ChannelNotFound);
      }
      Unlist(id, hid);
      StepForward(env, old(view), RemoveOp(id, hid), view);
      e := None;
    }

    method SettleExpiredHtlcs(id: Id, now: int) returns (e: Option<Error>)
      requires Valid()
      modifies this`view, htlcs
      ensures Valid() && Forward(old(view), view)
      ensures Answers(SettleExpired(old(view), id, now), old(view), view, e)
    {
      StandsStill(view);
      Here(id);
      if id !in states {
        return Some(ChannelNotFound);
      }
      StepForward(env, view, SettleExpiredOp(id, now), SettleExpired(view, id, now).value);
      MarkExpired(id, now);
      e := None;
    }

    lemma HereHtlc(id: Id, hid: Id)
      requires Valid() && id in states && hid in states[id].pending
      ensures id in view.states && hid in view.states[id].htlcs
      ensures states[id].pending[hid] in htlcs && states[id].pending[hid].Value() == view.states[id].htlcs[hid]
      ensures id in view.channels && PartiesOf(view.channels[id], view.states[id].htlcs[hid])
    {
      assert StateAt(states, view.states, htlcs, id) && HtlcAt(states[id].pending, view.states[id].htlcs, id, hid);
      assert ChannelWF(env, view, id);
    }
  }

  /** getAvailableBalance: a loop over the map in no fixed order, subtracting with wrap-around. */
  method AvailableBalance(c: LiveChannel, r: LiveState, ghost value: Runtime, party: Address) returns (available: u64)
    requires StandsFor(r, value)
    ensures available == Available(c.Value(), value, party)
  {
    if party != c.partyA && party != c.partyB {
      return 0;
    }
    available := if party == c.partyA then c.balanceA else c.balanceB;
    ghost var exact: int := available;
    ghost var amounts := Amounts(value.htlcs, party);
    var keys := r.pending.Keys;
    assert MapSums.Among(amounts, keys) == amounts;
    while keys != {}
      invariant keys <= r.pending.Keys && available == exact % MOD
      invariant exact - MapSums.Sum(MapSums.Among(amounts, keys))
             == (if party == c.partyA then c.balanceA else c.balanceB) - MapSums.Sum(amounts)
      decreases keys
    {
      var k :| k in keys;
      VisitAmount(amounts, keys, k);
      assert HtlcAt(r.pending, value.htlcs, r.channelId, k);
      if r.pending[k].sender == party {
        SubReduced(exact, r.pending[k].amount);
        exact := exact - r.pending[k].amount;
        available := Sub(available, r.pending[k].amount);
      }
      keys := keys - {k};
    }
    assert MapSums.Among(amounts, {}) == map[];
  }

  lemma VisitAmount(amounts: map<Id, int>, keys: set<Id>, k: Id)
    requires k in keys
    ensures MapSums.Sum(MapSums.Among(amounts, keys))
         == MapSums.Sum(MapSums.Among(amounts, keys - {k})) + (if k in amounts then amounts[k] else 0)
  {
    var some := MapSums.Among(amounts, keys);
    if k in amounts {
      MapSums.Split(some, k);
      assert some - {k} == MapSums.Among(amounts, keys - {k});
    } else {
      assert some == MapSums.Among(amounts, keys - {k});
    }
  }

  /** The values while the expiry loop is under way: those still to be visited are as they were. */
  ghost function Partly(values: map<Id, Htlc>, keys: set<Id>, now: int): map<Id, Htlc> {
    map h | h in values :: if h in keys then values[h] else Expired(values[h], now)
  }

  /** The loop of SettleExpiredHTLCs, over a map in no fixed order. */
  method ExpireAll(pending: map<Id, LiveHtlc>, ghost values: map<Id, Htlc>, ghost channelId: Id, now: int)
    requires Htlcs(pending, values, channelId)
    modifies pending.Values
    ensures Htlcs(pending, AllExpired(values, now), channelId)
  {
    var keys := pending.Keys;
    assert Partly(values, keys, now) == values;
    while keys != {}
      invariant keys <= pending.Keys && Htlcs(pending, Partly(values, keys, now), channelId)
      decreases keys
    {
      var k :| k in keys;
      ghost var before := Partly(values, keys, now);
      HtlcsSplit(pending, before, channelId, k);
      if pending[k].state.HtlcPending? && now > pending[k].timeLock {
        pending[k].state := HtlcExpired;
      }
      HtlcsJoin(pending, before, channelId, k);
      keys := keys - {k};
      assert before[k := pending[k].Value()] == Partly(values, keys, now);
    }
    assert Partly(values, {}, now) == AllExpired(values, now);
  }
}
