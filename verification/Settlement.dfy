/** Settlements (pkg/channel/settlement.go) on top of the channel manager. */
module SettlementModel {
  import opened Word64
  import opened Results
  import opened ChannelModel
  import opened ChannelProofs

  datatype Kind = Cooperative | Forced | Disputed

  datatype Stage = Pending | Confirming | Complete | Failed | Cancelled

  datatype Settlement = Settlement(
    balanceA: u64, balanceB: u64, sequence: u64, kind: Kind, stage: Stage,
    sigA: Bytes, sigB: Bytes, timestamp: int, challengeEnd: Option<int>)

  datatype System = System(manager: Manager, settlements: map<Id, Settlement>)

  /** What a settlement asks of the multi-sig locker: spend `value` into the two outputs. */
  datatype Spend = Spend(value: u64, toA: u64, toB: u64)

  datatype Failure =
    | NoChannel | AlreadyClosed | NotAcceptable | NoSettlement | NotPending | NotConfirming
    | NotForced | NoSignature | TooEarly | ManagerRefused(error: Error)
    | SpendRefused(spend: Spend)                // the locker was asked and refused
    | CloseRefused(spend: Spend, error: Error)   // the locker has paid out, the channel stays as it is

  datatype Outcome = Done | Spent(spend: Spend) | Refused(failure: Failure)

  const NOTHING: System := System(NO_CHANNELS, map[])

  /** validateSignedState. */
  predicate Acceptable(env: Env, c: Channel, s: SignedState) {
    && s.channelId == c.id && s.sequence >= c.sequence
    && Add(s.balanceA, s.balanceB) == c.Total()
    && BothSigned(env, c, s)
  }

  /** The record of a cooperative settlement, and of a forced one. */
  function AgreedOn(s: SignedState, now: int): Settlement {
    Settlement(s.balanceA, s.balanceB, s.sequence, Cooperative, Pending, s.sigA, s.sigB, now, None)
  }

  function ForcedBy(s: SignedState, now: int, period: int): Settlement {
    Settlement(s.balanceA, s.balanceB, s.sequence, Forced, Pending, s.sigA, s.sigB, now, Some(now + period))
  }

  function BuildSettlement(env: Env, y: System, id: Id, s: SignedState, now: int): (System, Outcome) {
    if id !in y.manager.channels || id !in y.manager.states then (y, Refused(NoChannel))
    else if y.manager.states[id].status.Closed? then (y, Refused(AlreadyClosed))
    else if !Acceptable(env, y.manager.channels[id], s) then (y, Refused(NotAcceptable))
    else if id in y.settlements && y.settlements[id].stage.Pending? then (y, Done)
    else
      (y.(settlements := y.settlements[id := AgreedOn(s, now)]), Done)
  }

  function SpendOf(c: Channel, t: Settlement): Spend { Spend(c.Total(), t.balanceA, t.balanceB) }

  function WithStage(y: System, id: Id, stage: Stage): System
    requires id in y.settlements
  {
    y.(settlements := y.settlements[id := y.settlements[id].(stage := stage)])
  }

  /** The state a settlement asks the manager to close with: its own terms, at its own time. */
  function FinalOf(id: Id, t: Settlement): SignedState {
    SignedState(id, t.sequence, t.balanceA, t.balanceB, t.sigA, t.sigB, t.timestamp)
  }

  /** Once the locker has paid: the channel is closed, if the manager agrees. */
  function ClosePaid(env: Env, y: System, id: Id, spend: Spend, closed: bool): (System, Outcome)
    requires id in y.settlements
  {
    match CloseChannel(env, y.manager, id, FinalOf(id, y.settlements[id]), closed)
    case Ok(m) => (y.(manager := m), Spent(spend))
    case Err(e) => (y, Refused(CloseRefused(spend, e)))
  }

  function FinalizePaid(y: System, id: Id, spend: Spend, now: int): (System, Outcome) {
    match FinalizeClose(y.manager, id, now)
    case Ok(m) => (y.(manager := m), Spent(spend))
    case Err(e) => (y, Refused(CloseRefused(spend, e)))
  }

  /** ExecuteSettlement; `spent` and `closed` are the locker's answers to the two spends it is asked for. */
  function ExecuteSettlement(env: Env, y: System, id: Id, spent: bool, closed: bool): (System, Outcome) {
    if id !in y.settlements then (y, Refused(NoSettlement))
    else if !y.settlements[id].stage.Pending? then (y, Refused(NotPending))
    else if id !in y.manager.channels then (y, Refused(NoChannel))
    else
      var t := y.settlements[id];
      var spend := SpendOf(y.manager.channels[id], t);
      if !spent then (WithStage(y, id, Failed), Refused(SpendRefused(spend)))
      else ClosePaid(env, WithStage(y, id, Confirming), id, spend, closed)
  }

  /** ForceClose of the settlement manager: one signature is enough and the balances are not compared. */
  function ForceSettlement(env: Env, y: System, id: Id, s: SignedState, now: int, period: int): (System, Outcome) {
    if id !in y.manager.channels then (y, Refused(NoChannel))
    else
      var c := y.manager.channels[id];
      if s.sigA == [] && s.sigB == [] then (y, Refused(NoSignature))
      else if s.sigA != [] && !env.verify(c.partyA, MessageOf(s), s.sigA) then (y, Refused(NoSignature))
      else if s.sigB != [] && !env.verify(c.partyB, MessageOf(s), s.sigB) then (y, Refused(NoSignature))
      else
        var settlements := y.settlements[id := ForcedBy(s, now, period)];
        match ForceClose(env, y.manager, id, s, now)
        case Ok(m) => (System(m, settlements), Done)
        case Err(e) => (System(y.manager, settlements), Refused(ManagerRefused(e)))
  }

  function ConfirmForceClose(y: System, id: Id, now: int, spent: bool): (System, Outcome) {
    if id !in y.settlements then (y, Refused(NoSettlement))
    else
      var t := y.settlements[id];
      if !t.kind.Forced? then (y, Refused(NotForced))
      else if !t.stage.Pending? then (y, Refused(NotPending))
      else if t.challengeEnd.None? || now < t.challengeEnd.value then (y, Refused(TooEarly))
      else if id !in y.manager.channels then (y, Refused(NoChannel))
      else
        var spend := SpendOf(y.manager.channels[id], t);
        if !spent then (WithStage(y, id, Failed), Refused(SpendRefused(spend)))
        else FinalizePaid(WithStage(y, id, Confirming), id, spend, now)
  }

  /** ExecuteDisputeSettlement pays out the balances the dispute has left, or all of them to one party. */
  function DisputeSettlement(y: System, id: Id, honest: Address, penalty: bool, now: int, spent: bool): (System, Outcome) {
    if id !in y.manager.channels then (y, Refused(NoChannel))
    else
      var c := y.manager.channels[id];
      var a := if penalty && honest == c.partyA then c.Total() else if penalty && honest == c.partyB then 0 else c.balanceA;
      var b := if penalty && honest == c.partyA then 0
               else if penalty && honest == c.partyB then Add(c.balanceB, c.balanceA) else c.balanceB;
      var stage := if spent then Confirming else Failed;
      var t := Settlement(a, b, c.sequence, Disputed, stage, [], [], now, None);
      var spend := Spend(Add(a, b), a, b);
      (y.(settlements := y.settlements[id := t]), if spent then Spent(spend) else Refused(SpendRefused(spend)))
  }

  function CancelSettlement(y: System, id: Id): (System, Outcome) {
    if id !in y.settlements then (y, Refused(NoSettlement))
    else if !y.settlements[id].stage.Pending? then (y, Refused(NotPending))
    else (y.(settlements := y.settlements[id := y.settlements[id].(stage := Cancelled)]), Done)
  }

  function ConfirmSettlement(y: System, id: Id): (System, Outcome) {
    if id !in y.settlements then (y, Refused(NoSettlement))
    else if !y.settlements[id].stage.Confirming? then (y, Refused(NotConfirming))
    else (y.(settlements := y.settlements[id := y.settlements[id].(stage := Complete)]), Done)
  }

  datatype SysOp =
    | ManagerStep(op: Op)
    | BuildStep(id: Id, state: SignedState, now: int)
    | ExecuteStep(id: Id, spent: bool, closed: bool)
    | ForceStep(id: Id, state: SignedState, now: int, period: int)
    | ConfirmForceStep(id: Id, now: int, spent: bool)
    | DisputeStep(id: Id, honest: Address, penalty: bool, now: int, spent: bool)
    | CancelStep(id: Id)
    | ConfirmStep(id: Id)

  ghost function SysStep(env: Env, y: System, op: SysOp): (System, Outcome) {
    match op
    case ManagerStep(op) => (y.(manager := Step(env, y.manager, op)), Done)
    case BuildStep(id, s, now) => BuildSettlement(env, y, id, s, now)
    case ExecuteStep(id, spent, closed) => ExecuteSettlement(env, y, id, spent, closed)
    case ForceStep(id, s, now, period) => ForceSettlement(env, y, id, s, now, period)
    case ConfirmForceStep(id, now, spent) => ConfirmForceClose(y, id, now, spent)
    case DisputeStep(id, honest, penalty, now, spent) => DisputeSettlement(y, id, honest, penalty, now, spent)
    case CancelStep(id) => CancelSettlement(y, id)
    case ConfirmStep(id) => ConfirmSettlement(y, id)
  }

  ghost function SysRun(env: Env, y: System, ops: seq<SysOp>): System
    decreases |ops|
  {
    if ops == [] then y else SysRun(env, SysStep(env, y, ops[0]).0, ops[1..])
  }

  // ---------------------------------------------------------------- what every step keeps

  /** Both parties have signed the settlement's terms: this channel, this sequence number, these balances. */
  ghost predicate Endorsed(env: Env, c: Channel, id: Id, t: Settlement) {
    exists stamp ::
      && env.verify(c.partyA, Message(id, t.sequence, t.balanceA, t.balanceB, stamp), t.sigA)
      && env.verify(c.partyB, Message(id, t.sequence, t.balanceA, t.balanceB, stamp), t.sigB)
  }

  /** Unless it was forced by one side, a settlement pays out exactly what its channel holds; and a cooperative
      one pays each party what both have signed. */
  ghost predicate Balanced(env: Env, m: Manager, id: Id, t: Settlement) {
    && id in m.channels
    && (!t.kind.Forced? ==> Add(t.balanceA, t.balanceB) == m.channels[id].Total())
    && (t.kind.Cooperative? ==> Endorsed(env, m.channels[id], id, t))
  }

  ghost predicate SystemWF(env: Env, y: System) {
    ManagerWF(env, y.manager)
    && forall id {:trigger Balanced(env, y.manager, id, y.settlements[id])} ::
         id in y.settlements ==> Balanced(env, y.manager, id, y.settlements[id])
  }

  /** An endorsement depends on the parties and the terms only. */
  lemma SameParties(env: Env, c: Channel, c': Channel, id: Id, t: Settlement, t': Settlement)
    requires Endorsed(env, c, id, t) && c'.partyA == c.partyA && c'.partyB == c.partyB && t' == t.(stage := t'.stage)
    ensures Endorsed(env, c', id, t')
  {
    var stamp :|
      && env.verify(c.partyA, Message(id, t.sequence, t.balanceA, t.balanceB, stamp), t.sigA)
      && env.verify(c.partyB, Message(id, t.sequence, t.balanceA, t.balanceB, stamp), t.sigB);
    assert env.verify(c'.partyA, Message(id, t'.sequence, t'.balanceA, t'.balanceB, stamp), t'.sigA);
  }

  lemma BuildKeeps(env: Env, y: System, id: Id, s: SignedState, now: int)
    requires SystemWF(env, y)
    ensures SystemWF(env, BuildSettlement(env, y, id, s, now).0)
  {
    if id in y.manager.channels && Acceptable(env, y.manager.channels[id], s) {
      assert ChannelWF(env, y.manager, id);
      assert MessageOf(s) == Message(id, s.sequence, s.balanceA, s.balanceB, s.timestamp % 256);
      var c := y.manager.channels[id];
      assert env.verify(c.partyA, Message(id, s.sequence, s.balanceA, s.balanceB, s.timestamp % 256), s.sigA);
    }
  }

  /** Steps of the manager keep every stored settlement balanced. */
  lemma ManagerKeepsBalanced(env: Env, y: System, m': Manager)
    requires SystemWF(env, y) && ManagerWF(env, m')
    requires forall id :: id in y.manager.channels ==> Evolves(y.manager, m', id)
    ensures SystemWF(env, System(m', y.settlements))
  {
    forall id | id in y.settlements ensures Balanced(env, m', id, y.settlements[id]) {
      var t := y.settlements[id];
      assert Balanced(env, y.manager, id, t);
      assert Evolves(y.manager, m', id);
      if t.kind.Cooperative? {
        SameParties(env, y.manager.channels[id], m'.channels[id], id, t, t);
      }
    }
  }

  /** So the channel manager can be used in between: its steps keep every stored settlement balanced. */
  lemma ForwardKeepsBalanced(env: Env, y: System, m': Manager)
    requires SystemWF(env, y) && ManagerWF(env, m') && Forward(y.manager, m')
    ensures SystemWF(env, System(m', y.settlements))
  {
    forall id | id in y.manager.channels ensures Evolves(y.manager, m', id) {
      assert Moved(y.manager, m', id);
    }
    ManagerKeepsBalanced(env, y, m');
  }

  /** Changing only the stage of a settlement keeps it balanced. */
  lemma StageKeepsBalanced(env: Env, y: System, id: Id, stage: Stage)
    requires SystemWF(env, y) && id in y.settlements
    ensures SystemWF(env, y.(settlements := y.settlements[id := y.settlements[id].(stage := stage)]))
  {
    var t := y.settlements[id];
    assert Balanced(env, y.manager, id, t);
    if t.kind.Cooperative? {
      SameParties(env, y.manager.channels[id], y.manager.channels[id], id, t, t.(stage := stage));
    }
  }

  lemma GoodKeepsSystem(env: Env, y: System, m': Manager, id: Id)
    requires SystemWF(env, y) && Good(env, y.manager, m', id)
    ensures SystemWF(env, System(m', y.settlements))
  {
    GoodKeeps(env, y.manager, m', id);
    ManagerKeepsBalanced(env, y, m');
  }

  lemma ExecuteKeeps(env: Env, y: System, id: Id, spent: bool, closed: bool)
    requires SystemWF(env, y)
    ensures SystemWF(env, ExecuteSettlement(env, y, id, spent, closed).0)
  {
    if id in y.settlements && y.settlements[id].stage.Pending? {
      var t := y.settlements[id];
      StageKeepsBalanced(env, y, id, Failed);
      StageKeepsBalanced(env, y, id, Confirming);
      var final := FinalOf(id, t);
      CloseGood(env, y.manager, id, final, closed);
      var r := CloseChannel(env, y.manager, id, final, closed);
      if r.Ok? {
        GoodKeepsSystem(env, y.(settlements := y.settlements[id := t.(stage := Confirming)]), r.value, id);
      }
    }
  }

  lemma ForceKeeps(env: Env, y: System, id: Id, s: SignedState, now: int, period: int)
    requires SystemWF(env, y)
    ensures SystemWF(env, ForceSettlement(env, y, id, s, now, period).0)
  {
    if id in y.manager.channels {
      var t := ForcedBy(s, now, period);
      ForceCloseGood(env, y.manager, id, s, now);
      var r := ForceClose(env, y.manager, id, s, now);
      if r.Ok? {
        GoodKeepsSystem(env, y.(settlements := y.settlements[id := t]), r.value, id);
      }
    }
  }

  lemma ConfirmForceKeeps(env: Env, y: System, id: Id, now: int, spent: bool)
    requires SystemWF(env, y)
    ensures SystemWF(env, ConfirmForceClose(y, id, now, spent).0)
  {
    if id in y.settlements {
      StageKeepsBalanced(env, y, id, Failed);
      StageKeepsBalanced(env, y, id, Confirming);
      FinalizeGood(env, y.manager, id, now);
      var r := FinalizeClose(y.manager, id, now);
      if r.Ok? {
        GoodKeepsSystem(env, y.(settlements := y.settlements[id := y.settlements[id].(stage := Confirming)]), r.value, id);
      }
    }
  }

  lemma DisputeKeeps(env: Env, y: System, id: Id, honest: Address, penalty: bool, now: int, spent: bool)
    requires SystemWF(env, y)
    ensures SystemWF(env, DisputeSettlement(y, id, honest, penalty, now, spent).0)
  {
    if id in y.manager.channels {
      AddCases(y.manager.channels[id].Total(), 0);
      AddCases(0, y.manager.channels[id].Total());
    }
  }

  lemma SysStepKeeps(env: Env, y: System, op: SysOp)
    requires SystemWF(env, y)
    ensures SystemWF(env, SysStep(env, y, op).0)
  {
    match op
    case ManagerStep(op) =>
      StepKeeps(env, y.manager, op);
      ManagerKeepsBalanced(env, y, Step(env, y.manager, op));
    case BuildStep(id, s, now) => BuildKeeps(env, y, id, s, now);
    case ExecuteStep(id, spent, closed) => ExecuteKeeps(env, y, id, spent, closed);
    case ForceStep(id, s, now, period) => ForceKeeps(env, y, id, s, now, period);
    case ConfirmForceStep(id, now, spent) => ConfirmForceKeeps(env, y, id, now, spent);
    case DisputeStep(id, honest, penalty, now, spent) => DisputeKeeps(env, y, id, honest, penalty, now, spent);
    case CancelStep(id) => if id in y.settlements { StageKeepsBalanced(env, y, id, Cancelled); }
    case ConfirmStep(id) => if id in y.settlements { StageKeepsBalanced(env, y, id, Complete); }
  }

  lemma {:induction false} SysRunKeeps(env: Env, y: System, ops: seq<SysOp>)
    requires SystemWF(env, y)
    ensures SystemWF(env, SysRun(env, y, ops))
    decreases |ops|
  {
    if ops != [] {
      SysStepKeeps(env, y, ops[0]);
      SysRunKeeps(env, SysStep(env, y, ops[0]).0, ops[1..]);
    }
  }

  // ---------------------------------------------------------------- what the locker is asked for

  /** One call of the locker, and its answer. */
  datatype Call = Call(spend: Spend, agreed: bool)

  /** The call a settlement step makes itself, if it gets that far. */
  function OwnCalls(o: Outcome): seq<Call> {
    match o
    case Spent(s) => [Call(s, true)]
    case Refused(SpendRefused(s)) => [Call(s, false)]
    case Refused(CloseRefused(s, _)) => [Call(s, true)]
    case _ => []
  }

  /** CloseChannel asks as well, once everything else is in order. */
  function CloseCalls(env: Env, m: Manager, id: Id, s: SignedState, agreed: bool): seq<Call> {
    if id in m.channels && CloseChannel(env, m, id, s, true).Ok?
    then [Call(Spend(m.channels[id].Total(), s.balanceA, s.balanceB), agreed)]
    else []
  }

  /** All the calls of a step, in order: a settlement that has been paid asks again when it closes the channel. */
  ghost function Calls(env: Env, y: System, op: SysOp): seq<Call> {
    var own := OwnCalls(SysStep(env, y, op).1);
    match op
    case ManagerStep(CloseOp(id, s, spent)) => CloseCalls(env, y.manager, id, s, spent)
    case ExecuteStep(id, spent, closed) =>
      if spent && own != [] && id in y.settlements
      then own + CloseCalls(env, y.manager, id, FinalOf(id, y.settlements[id]), closed)
      else own
    case _ => own
  }

  /** The channel is closed exactly if that call is made and agreed to. */
  lemma CloseAsks(env: Env, m: Manager, id: Id, s: SignedState, spent: bool)
    ensures CloseChannel(env, m, id, s, spent).Ok? <==> CloseCalls(env, m, id, s, spent) != [] && spent
    ensures CloseChannel(env, m, id, s, spent) == Err(SpendFailed) <==> CloseCalls(env, m, id, s, spent) != [] && !spent
  {
  }

  /** The call pays the channel's value into two outputs that add up to it and that both parties have signed. */
  ghost predicate Proper(env: Env, m: Manager, id: Id, t: Settlement, c: Call) {
    && id in m.channels && c.spend.value == m.channels[id].Total()
    && Add(c.spend.toA, c.spend.toB) == c.spend.value
    && Endorsed(env, m.channels[id], id, t.(balanceA := c.spend.toA, balanceB := c.spend.toB))
  }

  /** Whatever steps ran before, executing asks the locker exactly for pending settlements; and every call made for a
      cooperative one, its own and that of the close after it, agreed to or not, is proper. */
  lemma ExecutionConserves(env: Env, ops: seq<SysOp>, id: Id, spent: bool, closed: bool)
    ensures var y := SysRun(env, NOTHING, ops);
            var calls := Calls(env, y, ExecuteStep(id, spent, closed));
            var y' := ExecuteSettlement(env, y, id, spent, closed).0;
            && (calls != [] <==> id in y.settlements && y.settlements[id].stage.Pending?)
            && (calls != [] ==>
                  && calls[0].agreed == spent && |calls| <= 2 && (|calls| == 2 ==> spent && calls[1].agreed == closed)
                  && id in y'.settlements && y'.settlements[id].stage == if spent then Confirming else Failed)
            && (calls != [] && y.settlements[id].kind.Cooperative? ==>
                  forall c :: c in calls ==> Proper(env, y.manager, id, y.settlements[id], c))
  {
    SysRunKeeps(env, NOTHING, ops);
    var y := SysRun(env, NOTHING, ops);
    if id in y.settlements {
      var t := y.settlements[id];
      assert Balanced(env, y.manager, id, t);
      assert t.(balanceA := t.balanceA, balanceB := t.balanceB) == t;
    }
  }

  /** The stages a stored settlement may go through without being replaced. */
  ghost predicate StageMoves(s: Stage, s': Stage) {
    || s == s'
    || (s.Pending? && (s'.Confirming? || s'.Failed? || s'.Cancelled?))
    || (s.Confirming? && s'.Complete?)
  }

  /** A step either leaves a settlement's terms alone and moves its stage forward, or is one that files a new
      settlement; and BuildSettlement never replaces a pending one. */
  lemma SettlementLifecycle(env: Env, y: System, op: SysOp, id: Id)
    requires id in y.settlements
    ensures var y' := SysStep(env, y, op).0;
            && id in y'.settlements
            && var t, t' := y.settlements[id], y'.settlements[id];
            || (t' == t.(stage := t'.stage) && StageMoves(t.stage, t'.stage))
            || ((op.ForceStep? || op.DisputeStep?) && op.id == id)
            || (op.BuildStep? && op.id == id && !t.stage.Pending?)
  {
  }
}
