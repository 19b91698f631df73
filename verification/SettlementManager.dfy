/** The settlement manager as the source runs it: settlement records are objects whose stage changes in place, on top
    of a channel manager. Every method takes the step of the same name in SettlementModel and keeps every stored
    settlement balanced against its channel. */
module SettlementManagers {
  import opened Word64
  import opened Results
  import opened ChannelModel
  import opened ChannelProofs
  import opened SettlementModel
  import opened ChannelManagers

  class LiveSettlement {
    const channelId: Id
    const balanceA: u64
    const balanceB: u64
    const sequence: u64
    const kind: Kind
    var stage: Stage
    const sigA: Bytes
    const sigB: Bytes
    const timestamp: int
    const challengeEnd: Option<int>

    constructor (channelId: Id, t: Settlement)
      ensures this.channelId == channelId && Value() == t
    {
      this.channelId, balanceA, balanceB, sequence := channelId, t.balanceA, t.balanceB, t.sequence;
      kind, stage, sigA, sigB := t.kind, t.stage, t.sigA, t.sigB;
      timestamp, challengeEnd := t.timestamp, t.challengeEnd;
    }

    function Value(): Settlement
      reads this
    {
      Settlement(balanceA, balanceB, sequence, kind, stage, sigA, sigB, timestamp, challengeEnd)
    }
  }

  ghost predicate SettlementAt(settlements: map<Id, LiveSettlement>, values: map<Id, Settlement>, id: Id)
    reads settlements.Values
  {
    id in settlements ==> settlements[id].channelId == id && id in values && settlements[id].Value() == values[id]
  }

  ghost predicate Settlements(settlements: map<Id, LiveSettlement>, values: map<Id, Settlement>)
    reads settlements.Values
  {
    settlements.Keys == values.Keys && forall id :: SettlementAt(settlements, values, id)
  }

  lemma SettlementsSplit(settlements: map<Id, LiveSettlement>, values: map<Id, Settlement>, id: Id)
    requires Settlements(settlements, values) && id in settlements
    ensures Settlements(settlements - {id}, values - {id}) && settlements[id] !in (settlements - {id}).Values
    ensures settlements[id].channelId == id && id in values && settlements[id].Value() == values[id]
  {
    assert SettlementAt(settlements, values, id);
    var settlements', values' := settlements - {id}, values - {id};
    forall j ensures SettlementAt(settlements', values', j) {
      assert SettlementAt(settlements, values, j);
    }
    forall j | j in settlements' ensures settlements'[j] != settlements[id] {
      assert SettlementAt(settlements, values, j);
    }
  }

  lemma SettlementsJoin(settlements: map<Id, LiveSettlement>, values: map<Id, Settlement>, id: Id)
    requires id in settlements && settlements[id].channelId == id && Settlements(settlements - {id}, values - {id})
    ensures Settlements(settlements, values[id := settlements[id].Value()])
  {
    var values' := values[id := settlements[id].Value()];
    forall j ensures SettlementAt(settlements, values', j) {
      assert SettlementAt(settlements - {id}, values - {id}, j);
    }
    assert settlements.Keys == (settlements - {id}).Keys + {id} && values'.Keys == (values - {id}).Keys + {id};
  }

  lemma SettlementsAdd(settlements: map<Id, LiveSettlement>, values: map<Id, Settlement>, t: LiveSettlement)
    requires Settlements(settlements, values)
    ensures Settlements(settlements[t.channelId := t], values[t.channelId := t.Value()])
  {
    var settlements', values' := settlements[t.channelId := t], values[t.channelId := t.Value()];
    forall j ensures SettlementAt(settlements', values', j) {
      assert SettlementAt(settlements, values, j);
    }
  }

  class SettlementManager {
    const manager: ChannelManager
    var settlements: map<Id, LiveSettlement>
    ghost var stored: map<Id, Settlement>   // the values the objects stand for

    constructor (manager: ChannelManager)
      requires manager.Valid()
      ensures Valid() && this.manager == manager && World() == System(manager.view, map[])
    {
      this.manager := manager;
      settlements, stored := map[], map[];
    }

    /** The two managers together, in values. */
    ghost function World(): System
      reads this, manager
    {
      System(manager.view, stored)
    }

    /** Every stored settlement pays out what its channel holds, unless it was forced, and cooperative ones carry
        both signatures. */
    ghost predicate Valid()
      reads this, settlements.Values
      reads manager, manager.channels.Values, manager.states.Values, manager.disputes.Values, manager.htlcs
    {
      manager.Valid() && Settlements(settlements, stored) && SystemWF(manager.env, World())
    }

    /** What is stored for a channel. */
    lemma Stored(id: Id)
      requires Settlements(settlements, stored)
      ensures id in settlements <==> id in stored
      ensures id in settlements ==> settlements[id].Value() == stored[id]
    {
      assert SettlementAt(settlements, stored, id);
    }

    /** Files a new record in place of what was stored for the channel. */
    method File(id: Id, t: Settlement)
      requires Settlements(settlements, stored)
      modifies this`settlements, this`stored
      ensures Settlements(settlements, stored) && stored == old(stored)[id := t]
      ensures fresh(settlements.Values - old(settlements.Values))
    {
      var record := new LiveSettlement(id, t);
      SettlementsAdd(settlements, stored, record);
      settlements := settlements[id := record];
      stored := stored[id := t];
    }

    method Move(id: Id, stage: Stage)
      requires Settlements(settlements, stored) && id in settlements && id in stored
      modifies settlements[id], this`stored
      ensures Settlements(settlements, stored) && stored == old(stored)[id := old(stored)[id].(stage := stage)]
    {
      SettlementsSplit(settlements, stored, id);
      settlements[id].stage := stage;
      SettlementsJoin(settlements, stored, id);
      stored := stored[id := settlements[id].Value()];
    }

    /** The channel manager does not see it. */
    method SetStage(id: Id, stage: Stage)
      requires manager.Valid() && Settlements(settlements, stored) && id in settlements && id in stored
      modifies settlements[id], this`stored
      ensures manager.Valid() && Settlements(settlements, stored) && World() == WithStage(old(World()), id, stage)
    {
      Move(id, stage);
    }

    /** After steps of the channel manager, taken by whomever, the settlements are still balanced. */
    lemma StillValid(before: Manager)
      requires manager.Valid() && Settlements(settlements, stored)
      requires SystemWF(manager.env, System(before, stored)) && Forward(before, manager.view)
      ensures Valid()
    {
      ForwardKeepsBalanced(manager.env, System(before, stored), manager.view);
    }

    /** Files a record and then moves it on. */
    method FileAt(id: Id, t: Settlement, stage: Stage)
      requires Settlements(settlements, stored)
      modifies this`settlements, this`stored
      ensures Settlements(settlements, stored) && stored == old(stored)[id := t.(stage := stage)]
      ensures fresh(settlements.Values - old(settlements.Values))
    {
      var record := new LiveSettlement(id, t);
      record.stage := stage;
      SettlementsAdd(settlements, stored, record);
      settlements := settlements[id := record];
      stored := stored[id := t.(stage := stage)];
    }

    /** The channel manager's steps leave the records alone. */
    method CloseUnder(id: Id, s: SignedState, closed: bool) returns (e: Option<Error>)
      requires manager.Valid() && Settlements(settlements, stored)
      modifies manager`view, manager.channels.Values, manager.states.Values
      ensures manager.Valid() && Settlements(settlements, stored)
      ensures Answers(CloseChannel(manager.env, old(manager.view), id, s, closed), old(manager.view), manager.view, e)
    {
      e := manager.Close(id, s, closed);
    }

    method ForceUnder(id: Id, s: SignedState, now: int) returns (e: Option<Error>)
      requires manager.Valid() && Settlements(settlements, stored)
      modifies manager`view, manager.channels.Values, manager.states.Values
      ensures manager.Valid() && Settlements(settlements, stored)
      ensures Answers(ChannelModel.ForceClose(manager.env, old(manager.view), id, s, now), old(manager.view), manager.view, e)
    {
      e := manager.ForceClose(id, s, now);
    }

    method FinalizeUnder(id: Id, now: int) returns (e: Option<Error>)
      requires manager.Valid() && Settlements(settlements, stored)
      modifies manager`view, manager.states.Values
      ensures manager.Valid() && Settlements(settlements, stored)
      ensures Answers(ChannelModel.FinalizeClose(old(manager.view), id, now), old(manager.view), manager.view, e)
    {
      e := manager.FinalizeClose(id, now);
    }

    /** The checks of BuildSettlement; a pending settlement is kept as it is. */
    method MayBuild(id: Id, s: SignedState, ghost now: int) returns (o: Option<Outcome>)
      requires Valid()
      ensures var y := BuildSettlement(manager.env, World(), id, s, now);
              && SystemWF(manager.env, y.0)
              && y == match o
                      case Some(x) => (World(), x)
                      case None => (World().(settlements := stored[id := AgreedOn(s, now)]), Done)
    {
      Stored(id);
      manager.Here(id);
      BuildKeeps(manager.env, World(), id, s, now);
      if id !in manager.channels {
        return Some(Refused(NoChannel));
      }
      if manager.states[id].status.Closed? {
        return Some(Refused(AlreadyClosed));
      }
      if !Acceptable(manager.env, manager.channels[id].Value(), s) {
        return Some(Refused(NotAcceptable));
      }
      if id in settlements && settlements[id].stage.Pending? {
        return Some(Done);
      }
      o := None;
    }

    method Build(id: Id, s: SignedState, now: int) returns (o: Outcome)
      requires Valid()
      modifies this`settlements, this`stored
      ensures Valid() && (World(), o) == BuildSettlement(manager.env, old(World()), id, s, now)
      ensures fresh(settlements.Values - old(settlements.Values))
    {
      var early := MayBuild(id, s, now);
      if early.Some? {
        return early.value;
      }
      File(id, AgreedOn(s, now));
      o := Done;
    }

    /** The checks before the locker is asked, and what it is asked for. */
    method MayExecute(id: Id, ghost spent: bool, ghost closed: bool) returns (o: Option<Outcome>, spend: Spend)
      requires Valid()
      ensures o.Some? ==> ExecuteSettlement(manager.env, World(), id, spent, closed) == (World(), o.value)
      ensures o.None? ==>
                && id in settlements && id in stored && stored[id].stage.Pending? && settlements[id].Value() == stored[id]
                && id in manager.view.channels && spend == SpendOf(manager.view.channels[id], stored[id])
    {
      Stored(id);
      manager.Here(id);
      spend := Spend(0, 0, 0);
      if id !in settlements {
        return Some(Refused(NoSettlement)), spend;
      }
      var t := settlements[id];
      if !t.stage.Pending? {
        return Some(Refused(NotPending)), spend;
      }
      if id !in manager.channels {
        return Some(Refused(NoChannel)), spend;
      }
      var c := manager.channels[id];
      o, spend := None, Spend(Add(c.balanceA, c.balanceB), t.balanceA, t.balanceB);
    }

    method CloseAfter(id: Id, spend: Spend, closed: bool) returns (o: Outcome)
      requires manager.Valid() && Settlements(settlements, stored) && id in settlements && id in stored
      modifies manager`view, manager.channels.Values, manager.states.Values
      ensures manager.Valid() && Settlements(settlements, stored)
      ensures (World(), o) == ClosePaid(manager.env, old(World()), id, spend, closed)
    {
      Stored(id);
      var e := CloseUnder(id, FinalOf(id, settlements[id].Value()), closed);
      o := if e.Some? then Refused(CloseRefused(spend, e.value)) else Spent(spend);
    }

    method Execute(id: Id, spent: bool, closed: bool) returns (o: Outcome)
      requires Valid()
      modifies this`stored, settlements.Values, manager`view, manager.channels.Values, manager.states.Values
      ensures Valid() && (World(), o) == ExecuteSettlement(manager.env, old(World()), id, spent, closed)
    {
      ExecuteKeeps(manager.env, World(), id, spent, closed);
      var early, spend := MayExecute(id, spent, closed);
      if early.Some? {
        return early.value;
      }
      o := Pay(id, spend, spent, closed);
    }

    method Pay(id: Id, spend: Spend, spent: bool, closed: bool) returns (o: Outcome)
      requires manager.Valid() && Settlements(settlements, stored) && id in settlements && id in stored
      requires settlements[id].Value() == stored[id] && stored[id].stage.Pending?
      requires id in manager.view.channels && spend == SpendOf(manager.view.channels[id], stored[id])
      modifies this`stored, settlements[id], manager`view, manager.channels.Values, manager.states.Values
      ensures manager.Valid() && Settlements(settlements, stored)
      ensures (World(), o) == ExecuteSettlement(manager.env, old(World()), id, spent, closed)
    {
      if !spent {
        SetStage(id, Failed);
        return Refused(SpendRefused(spend));
      }
      SetStage(id, Confirming);
      o := CloseAfter(id, spend, closed);
    }

    method ForceClose(id: Id, s: SignedState, now: int, period: int) returns (o: Outcome)
      requires Valid()
      modifies this`settlements, this`stored, manager`view, manager.channels.Values, manager.states.Values
      ensures Valid() && (World(), o) == ForceSettlement(manager.env, old(World()), id, s, now, period)
      ensures fresh(settlements.Values - old(settlements.Values))
    {
      manager.Here(id);
      ForceKeeps(manager.env, World(), id, s, now, period);
      if id !in manager.channels {
        return Refused(NoChannel);
      }
      var c := manager.channels[id];
      if |s.sigA| == 0 && |s.sigB| == 0 {
        return Refused(NoSignature);
      }
      if |s.sigA| > 0 && !manager.env.verify(c.partyA, MessageOf(s), s.sigA) {
        return Refused(NoSignature);
      }
      if |s.sigB| > 0 && !manager.env.verify(c.partyB, MessageOf(s), s.sigB) {
        return Refused(NoSignature);
      }
      o := FileForced(id, s, now, period);
    }

    /** The record is filed first; if the manager then refuses, it stays. */
    method FileForced(id: Id, s: SignedState, now: int, period: int) returns (o: Outcome)
      requires manager.Valid() && Settlements(settlements, stored)
      modifies this`settlements, this`stored, manager`view, manager.channels.Values, manager.states.Values
      ensures manager.Valid() && Settlements(settlements, stored)
      ensures stored == old(stored)[id := ForcedBy(s, now, period)]
      ensures match ChannelModel.ForceClose(manager.env, old(manager.view), id, s, now)
              case Ok(m) => o == Done && manager.view == m
              case Err(x) => o == Refused(ManagerRefused(x)) && manager.view == old(manager.view)
      ensures fresh(settlements.Values - old(settlements.Values))
    {
      File(id, ForcedBy(s, now, period));
      var e := ForceUnder(id, s, now);
      o := if e.Some? then Refused(ManagerRefused(e.value)) else Done;
    }

    /** The checks of ConfirmForceClose. */
    method MayConfirm(id: Id, now: int, ghost spent: bool) returns (o: Option<Outcome>, spend: Spend)
      requires Valid()
      ensures o.Some? ==> ConfirmForceClose(World(), id, now, spent) == (World(), o.value)
      ensures o.None? ==>
                && id in settlements && id in stored && stored[id].kind.Forced? && stored[id].stage.Pending?
                && stored[id].challengeEnd.Some? && now >= stored[id].challengeEnd.value
                && id in manager.view.channels && spend == SpendOf(manager.view.channels[id], stored[id])
    {
      Stored(id);
      manager.Here(id);
      spend := Spend(0, 0, 0);
      if id !in settlements {
        return Some(Refused(NoSettlement)), spend;
      }
      var t := settlements[id];
      if !t.kind.Forced? {
        return Some(Refused(NotForced)), spend;
      }
      if !t.stage.Pending? {
        return Some(Refused(NotPending)), spend;
      }
      if t.challengeEnd.None? || now < t.challengeEnd.value {
        return Some(Refused(TooEarly)), spend;
      }
      if id !in manager.channels {
        return Some(Refused(NoChannel)), spend;
      }
      var c := manager.channels[id];
      o, spend := None, Spend(Add(c.balanceA, c.balanceB), t.balanceA, t.balanceB);
    }

    method FinalizeAfter(id: Id, spend: Spend, now: int) returns (o: Outcome)
      requires manager.Valid() && Settlements(settlements, stored)
      modifies manager`view, manager.states.Values
      ensures manager.Valid() && Settlements(settlements, stored)
      ensures (World(), o) == FinalizePaid(old(World()), id, spend, now)
    {
      var e := FinalizeUnder(id, now);
      o := if e.Some? then Refused(CloseRefused(spend, e.value)) else Spent(spend);
    }

    method ConfirmForce(id: Id, now: int, spent: bool) returns (o: Outcome)
      requires Valid()
      modifies this`stored, settlements.Values, manager`view, manager.states.Values
      ensures Valid() && (World(), o) == ConfirmForceClose(old(World()), id, now, spent)
    {
      ConfirmForceKeeps(manager.env, World(), id, now, spent);
      var early, spend := MayConfirm(id, now, spent);
      if early.Some? {
        return early.value;
      }
      if spent {
        o := PayForced(id, spend, now);
      } else {
        SetStage(id, Failed);
        o := Refused(SpendRefused(spend));
      }
    }

    method PayForced(id: Id, spend: Spend, now: int) returns (o: Outcome)
      requires manager.Valid() && Settlements(settlements, stored) && id in settlements && id in stored
      modifies this`stored, settlements[id], manager`view, manager.states.Values
      ensures manager.Valid() && Settlements(settlements, stored)
      ensures (World(), o) == FinalizePaid(WithStage(old(World()), id, Confirming), id, spend, now)
    {
      SetStage(id, Confirming);
      o := FinalizeAfter(id, spend, now);
    }

    method ExecuteDispute(id: Id, honest: Address, penalty: bool, now: int, spent: bool) returns (o: Outcome)
      requires Valid()
      modifies this`settlements, this`stored
      ensures Valid() && (World(), o) == DisputeSettlement(old(World()), id, honest, penalty, now, spent)
      ensures fresh(settlements.Values - old(settlements.Values))
    {
      manager.Here(id);
      DisputeKeeps(manager.env, World(), id, honest, penalty, now, spent);
      if id !in manager.channels {
        return Refused(NoChannel);
      }
      var c := manager.channels[id];
      var a, b := c.balanceA, c.balanceB;
      if penalty {
        if honest == c.partyA {
          a, b := Add(a, b), 0;
        } else if honest == c.partyB {
          a, b := 0, Add(b, a);
        }
      }
      var spend := Spend(Add(a, b), a, b);
      o := if spent then Spent(spend) else Refused(SpendRefused(spend));
      FileAt(id, Settlement(a, b, c.sequence, Disputed, Pending, [], [], now, None), if spent then Confirming else Failed);
    }

    method Cancel(id: Id) returns (o: Outcome)
      requires Valid()
      modifies this`stored, settlements.Values
      ensures Valid() && (World(), o) == CancelSettlement(old(World()), id)
    {
      Stored(id);
      if id !in settlements {
        return Refused(NoSettlement);
      }
      if !settlements[id].stage.Pending? {
        return Refused(NotPending);
      }
      StageKeepsBalanced(manager.env, World(), id, Cancelled);
      SetStage(id, Cancelled);
      o := Done;
    }

    method Confirm(id: Id) returns (o: Outcome)
      requires Valid()
      modifies this`stored, settlements.Values
      ensures Valid() && (World(), o) == ConfirmSettlement(old(World()), id)
    {
      Stored(id);
      if id !in settlements {
        return Refused(NoSettlement);
      }
      if !settlements[id].stage.Confirming? {
        return Refused(NotConfirming);
      }
      StageKeepsBalanced(manager.env, World(), id, Complete);
      SetStage(id, Complete);
      o := Done;
    }
  }
}
