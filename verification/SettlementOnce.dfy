/** How often the value of a channel can be paid out: every spend the locker agrees to counts, those of settlements and
    those of CloseChannel alike. */
module SettlementOnce {
  import opened Word64
  import opened Results
  import opened ChannelModel
  import opened ChannelProofs
  import opened SettlementModel

  /** The channel a step is about. */
  function Target(op: SysOp): Id { if op.ManagerStep? then op.op.id else op.id }

  function Agreed(calls: seq<Call>): nat {
    if calls == [] then 0 else (if calls[0].agreed then 1 else 0) + Agreed(calls[1..])
  }

  /** How many spends of the channel a step brings about. */
  ghost function Pays(env: Env, y: System, op: SysOp, id: Id): nat {
    if Target(op) == id then Agreed(Calls(env, y, op)) else 0
  }

  /** And a run. */
  ghost function Payouts(env: Env, y: System, ops: seq<SysOp>, id: Id): nat
    decreases |ops|
  {
    if ops == [] then 0 else Pays(env, y, ops[0], id) + Payouts(env, SysStep(env, y, ops[0]).0, ops[1..], id)
  }

  lemma PayoutsCons(env: Env, y: System, op: SysOp, ops: seq<SysOp>, id: Id)
    ensures Payouts(env, y, [op] + ops, id) == Pays(env, y, op, id) + Payouts(env, SysStep(env, y, op).0, ops, id)
  {
    assert ([op] + ops)[1..] == ops;
  }

  lemma AgreedFew(c: Call, d: Call)
    ensures Agreed([]) == 0 && Agreed([c]) == (if c.agreed then 1 else 0)
    ensures Agreed([c, d]) == (if c.agreed then 1 else 0) + (if d.agreed then 1 else 0)
  {
    assert [c][1..] == [] && [c, d][1..] == [d];
    assert Agreed([d]) == (if d.agreed then 1 else 0) + Agreed([d][1..]);
  }

  ghost predicate IsClosed(y: System, id: Id) {
    id in y.manager.channels && id in y.manager.states && y.manager.states[id].status.Closed?
  }

  ghost predicate IsPending(y: System, id: Id) { id in y.settlements && y.settlements[id].stage.Pending? }

  // ---------------------------------------------------------------- one execution

  /** The close after a payment goes through: the manager and the locker have nothing against it. */
  ghost predicate WillClose(env: Env, y: System, id: Id, closed: bool)
    requires id in y.settlements && id in y.manager.channels
  {
    var c, t := y.manager.channels[id], y.settlements[id];
    !IsClosed(y, id) && closed && BothSigned(env, c, FinalOf(id, t)) && Add(t.balanceA, t.balanceB) == c.Total()
  }

  /** A settlement that is paid pays the channel twice exactly when it closes it, by its own spend and by that of the
      close, both for the same value and outputs; otherwise once. */
  lemma ExecutionPaysExactly(env: Env, y: System, id: Id, closed: bool)
    requires SystemWF(env, y) && IsPending(y, id)
    ensures id in y.manager.channels
    ensures var op := ExecuteStep(id, true, closed);
            && Pays(env, y, op, id) == (if WillClose(env, y, id, closed) then 2 else 1)
            && (IsClosed(SysStep(env, y, op).0, id) <==> IsClosed(y, id) || WillClose(env, y, id, closed))
            && (forall c :: c in Calls(env, y, op) ==> c.spend == SpendOf(y.manager.channels[id], y.settlements[id]))
  {
    var t := y.settlements[id];
    assert Balanced(env, y.manager, id, t);
    var own := Call(SpendOf(y.manager.channels[id], t), true);
    var closing := Call(own.spend, closed);
    AgreedFew(own, closing);
    ExecutionCalls(env, y, id, closed);
  }

  lemma ExecutionCalls(env: Env, y: System, id: Id, closed: bool)
    requires IsPending(y, id) && id in y.manager.channels
    ensures var spend := SpendOf(y.manager.channels[id], y.settlements[id]);
            Calls(env, y, ExecuteStep(id, true, closed)) ==
              if CloseChannel(env, y.manager, id, FinalOf(id, y.settlements[id]), true).Ok?
              then [Call(spend, true), Call(spend, closed)] else [Call(spend, true)]
  {
    var spend := SpendOf(y.manager.channels[id], y.settlements[id]);
    assert [Call(spend, true)] + [Call(spend, closed)] == [Call(spend, true), Call(spend, closed)];
    assert [Call(spend, true)] + [] == [Call(spend, true)];
  }

  // ---------------------------------------------------------------- runs

  /** No settlement is forced or imposed by a dispute: neither looks at the channel's status before it is filed. */
  ghost predicate Cooperating(ops: seq<SysOp>, id: Id) {
    forall i :: 0 <= i < |ops| ==> !((ops[i].ForceStep? || ops[i].DisputeStep?) && ops[i].id == id)
  }

  /** What a closed channel can still be paid: a pending settlement does not see that it is closed. */
  ghost function Owed(y: System, id: Id): nat { if IsPending(y, id) then 1 else 0 }

  lemma ClosedManager(env: Env, y: System, op: Op, id: Id)
    requires SystemWF(env, y) && IsClosed(y, id)
    ensures var y' := SysStep(env, y, ManagerStep(op)).0; IsClosed(y', id) && Owed(y', id) == Owed(y, id)
    ensures Pays(env, y, ManagerStep(op), id) == 0
  {
    StepKeeps(env, y.manager, op);
    assert Evolves(y.manager, Step(env, y.manager, op), id);
  }

  lemma ClosedElsewhere(env: Env, y: System, op: SysOp, id: Id)
    requires IsClosed(y, id) && !op.ManagerStep? && op.id != id
    ensures var y' := SysStep(env, y, op).0; IsClosed(y', id) && Owed(y', id) == Owed(y, id)
  {
  }

  lemma ClosedExecutes(env: Env, y: System, op: SysOp, id: Id)
    requires SystemWF(env, y) && IsClosed(y, id) && op.ExecuteStep? && op.id == id
    ensures var y' := SysStep(env, y, op).0; IsClosed(y', id) && Pays(env, y, op, id) + Owed(y', id) <= Owed(y, id)
  {
    if IsPending(y, id) {
      if op.spent {
        ExecutionPaysExactly(env, y, id, op.closed);
      } else {
        AgreedFew(Calls(env, y, op)[0], Calls(env, y, op)[0]);
      }
    }
  }

  lemma ClosedConfirms(env: Env, y: System, op: SysOp, id: Id)
    requires IsClosed(y, id) && op.ConfirmForceStep? && op.id == id
    ensures var y' := SysStep(env, y, op).0; IsClosed(y', id) && Pays(env, y, op, id) + Owed(y', id) <= Owed(y, id)
  {
    if Calls(env, y, op) != [] {
      AgreedFew(Calls(env, y, op)[0], Calls(env, y, op)[0]);
    }
  }

  lemma ClosedHere(env: Env, y: System, op: SysOp, id: Id)
    requires IsClosed(y, id) && (op.BuildStep? || op.CancelStep? || op.ConfirmStep?) && op.id == id
    ensures var y' := SysStep(env, y, op).0; IsClosed(y', id) && Pays(env, y, op, id) + Owed(y', id) <= Owed(y, id)
  {
  }

  /** A closed channel pays no more than it owes. */
  lemma {:induction false} ClosedPays(env: Env, y: System, ops: seq<SysOp>, id: Id)
    requires SystemWF(env, y) && IsClosed(y, id) && Cooperating(ops, id)
    ensures Payouts(env, y, ops, id) <= Owed(y, id)
    decreases |ops|
  {
    if ops != [] {
      var op := ops[0];
      SysStepKeeps(env, y, op);
      if op.ManagerStep? {
        ClosedManager(env, y, op.op, id);
      } else if op.id != id {
        ClosedElsewhere(env, y, op, id);
      } else if op.ExecuteStep? {
        ClosedExecutes(env, y, op, id);
      } else if op.ConfirmForceStep? {
        ClosedConfirms(env, y, op, id);
      } else {
        ClosedHere(env, y, op, id);
      }
      ClosedPays(env, SysStep(env, y, op).0, ops[1..], id);
    }
  }

  /** Where the channel is not closed and both parties have signed a state it accepts, it can be paid twice: build a
      settlement, unless one is pending, close the channel, and execute. */
  function TwicePaid(id: Id, s: SignedState): seq<SysOp> {
    [BuildStep(id, s, 0)] + ([ManagerStep(CloseOp(id, s, true))] + ([ExecuteStep(id, true, false)] + []))
  }

  lemma OpenBuilds(env: Env, y: System, id: Id, s: SignedState)
    requires SystemWF(env, y) && id in y.manager.channels && !IsClosed(y, id) && Acceptable(env, y.manager.channels[id], s)
    ensures var op := BuildStep(id, s, 0);
            var y' := SysStep(env, y, op).0;
            && Pays(env, y, op, id) == 0 && SystemWF(env, y') && y'.manager == y.manager && IsPending(y', id)
  {
    BuildKeeps(env, y, id, s, 0);
  }

  lemma OpenCloses(env: Env, y: System, id: Id, s: SignedState)
    requires SystemWF(env, y) && id in y.manager.channels && !IsClosed(y, id) && Acceptable(env, y.manager.channels[id], s)
    ensures var op := ManagerStep(CloseOp(id, s, true));
            var y' := SysStep(env, y, op).0;
            && Pays(env, y, op, id) == 1 && SystemWF(env, y') && y'.settlements == y.settlements && IsClosed(y', id)
  {
    assert ChannelWF(env, y.manager, id);
    SysStepKeeps(env, y, ManagerStep(CloseOp(id, s, true)));
    var calls := Calls(env, y, ManagerStep(CloseOp(id, s, true)));
    AgreedFew(calls[0], calls[0]);
    assert calls == [calls[0]];
  }

  lemma OpenPaysTwice(env: Env, y: System, id: Id, s: SignedState)
    requires SystemWF(env, y) && id in y.manager.channels && !IsClosed(y, id) && Acceptable(env, y.manager.channels[id], s)
    ensures Cooperating(TwicePaid(id, s), id) && Payouts(env, y, TwicePaid(id, s), id) == 2
  {
    var build, close, execute := BuildStep(id, s, 0), ManagerStep(CloseOp(id, s, true)), ExecuteStep(id, true, false);
    OpenBuilds(env, y, id, s);
    var y1 := SysStep(env, y, build).0;
    OpenCloses(env, y1, id, s);
    var y2 := SysStep(env, y1, close).0;
    ExecutionPaysExactly(env, y2, id, false);
    PayoutsCons(env, y, build, [close] + ([execute] + []), id);
    PayoutsCons(env, y1, close, [execute] + [], id);
    PayoutsCons(env, y2, execute, [], id);
  }

  /** What may still be paid, as long as the parties cooperate: at most one spend exactly if the channel is closed, and
      none exactly if, besides, no settlement is pending. */
  lemma PaidAtMostOnceExactly(env: Env, y: System, id: Id, s: SignedState)
    requires SystemWF(env, y) && id in y.manager.channels
    requires !IsClosed(y, id) ==> Acceptable(env, y.manager.channels[id], s)
    ensures (forall ops :: Cooperating(ops, id) ==> Payouts(env, y, ops, id) <= 1) <==> IsClosed(y, id)
    ensures (forall ops :: Cooperating(ops, id) ==> Payouts(env, y, ops, id) == 0) <==> IsClosed(y, id) && !IsPending(y, id)
  {
    if IsClosed(y, id) {
      forall ops | Cooperating(ops, id) ensures Payouts(env, y, ops, id) <= Owed(y, id) {
        ClosedPays(env, y, ops, id);
      }
      if IsPending(y, id) {
        var execute := ExecuteStep(id, true, false);
        ExecutionPaysExactly(env, y, id, false);
        PayoutsCons(env, y, execute, [], id);
        assert Cooperating([execute] + [], id);
      }
    } else {
      OpenPaysTwice(env, y, id, s);
    }
  }

  // ---------------------------------------------------------------- the spend of the close

  /** The step makes the spend of CloseChannel, by itself or after a settlement was paid. */
  ghost predicate Closes(env: Env, y: System, op: SysOp, id: Id) {
    match op
    case ManagerStep(CloseOp(i, _, spent)) => i == id && spent && Calls(env, y, op) != []
    case ExecuteStep(i, _, closed) => i == id && closed && |Calls(env, y, op)| == 2
    case _ => false
  }

  lemma ClosesOpenOnly(env: Env, y: System, op: SysOp, id: Id)
    requires SystemWF(env, y) && Closes(env, y, op, id)
    ensures !IsClosed(y, id) && IsClosed(SysStep(env, y, op).0, id)
  {
    if op.ExecuteStep? {
      assert IsPending(y, id);
      assert Balanced(env, y.manager, id, y.settlements[id]);
      ExecutionCalls(env, y, id, true);
    }
  }

  ghost function Closings(env: Env, y: System, ops: seq<SysOp>, id: Id): nat
    decreases |ops|
  {
    if ops == [] then 0
    else (if Closes(env, y, ops[0], id) then 1 else 0) + Closings(env, SysStep(env, y, ops[0]).0, ops[1..], id)
  }

  lemma ClosedStays(env: Env, y: System, op: SysOp, id: Id)
    requires SystemWF(env, y) && IsClosed(y, id)
    ensures IsClosed(SysStep(env, y, op).0, id)
  {
    if op.ManagerStep? {
      ClosedManager(env, y, op.op, id);
    } else if op.id != id {
      ClosedElsewhere(env, y, op, id);
    }
  }

  /** Over every run of all steps, CloseChannel spends a channel at most once. */
  lemma {:induction false} ClosesOnce(env: Env, y: System, ops: seq<SysOp>, id: Id)
    requires SystemWF(env, y)
    ensures Closings(env, y, ops, id) <= (if IsClosed(y, id) then 0 else 1)
    decreases |ops|
  {
    if ops != [] {
      SysStepKeeps(env, y, ops[0]);
      if IsClosed(y, id) {
        ClosedStays(env, y, ops[0], id);
      }
      if Closes(env, y, ops[0], id) {
        ClosesOpenOnly(env, y, ops[0], id);
      }
      ClosesOnce(env, SysStep(env, y, ops[0]).0, ops[1..], id);
    }
  }

  // ---------------------------------------------------------------- disputes

  /** A dispute settlement that the locker agrees to spends the channel's whole value, into outputs that add up to it,
      and leaves the channel as it was: closed or not, paid before or not. */
  lemma DisputeSpends(env: Env, y: System, id: Id, honest: Address, penalty: bool, now: int)
    requires id in y.manager.channels
    ensures var op, value := DisputeStep(id, honest, penalty, now, true), y.manager.channels[id].Total();
            && Pays(env, y, op, id) == 1 && |Calls(env, y, op)| == 1
            && Calls(env, y, op)[0].spend.value == value
            && Add(Calls(env, y, op)[0].spend.toA, Calls(env, y, op)[0].spend.toB) == value
            && SysStep(env, y, op).0.manager == y.manager
  {
    var calls := Calls(env, y, DisputeStep(id, honest, penalty, now, true));
    AgreedFew(calls[0], calls[0]);
    assert calls == [calls[0]];
    AddCases(y.manager.channels[id].Total(), 0);
    AddCases(0, y.manager.channels[id].Total());
  }

  function Repeated(op: SysOp, n: nat): seq<SysOp> { if n == 0 then [] else [op] + Repeated(op, n - 1) }

  /** So there is no bound on how often it is paid out that way. */
  lemma {:induction false} DisputesPayWithoutEnd(env: Env, y: System, id: Id, honest: Address, penalty: bool, now: int, n: nat)
    requires id in y.manager.channels
    ensures Payouts(env, y, Repeated(DisputeStep(id, honest, penalty, now, true), n), id) == n
    decreases n
  {
    if n > 0 {
      var op := DisputeStep(id, honest, penalty, now, true);
      DisputeSpends(env, y, id, honest, penalty, now);
      PayoutsCons(env, y, op, Repeated(op, n - 1), id);
      DisputesPayWithoutEnd(env, SysStep(env, y, op).0, id, honest, penalty, now, n - 1);
    }
  }

  // ---------------------------------------------------------------- forced settlements and their challenge end

  /** The step pays the settlement stored for the channel. */
  ghost predicate PaysStored(env: Env, y: System, op: SysOp, id: Id) {
    IsPending(y, id) && Target(op) == id && !op.ManagerStep? && !op.DisputeStep? && Pays(env, y, op, id) > 0
  }

  /** A pending forced settlement is paid by ConfirmForceClose from its challenge end on, and by ExecuteSettlement at
      any time: that does not look at the kind. */
  lemma ForcedPaidExactly(env: Env, y: System, op: SysOp, id: Id)
    requires SystemWF(env, y) && IsPending(y, id) && y.settlements[id].kind.Forced?
    ensures PaysStored(env, y, op, id)
       <==> || op == ExecuteStep(id, true, true) || op == ExecuteStep(id, true, false)
            || (op.ConfirmForceStep? && op.id == id && op.spent
                && y.settlements[id].challengeEnd.Some? && op.now >= y.settlements[id].challengeEnd.value)
  {
    assert Balanced(env, y.manager, id, y.settlements[id]);
    if op.ExecuteStep? && op.id == id && op.spent {
      ExecutionPaysExactly(env, y, id, op.closed);
    } else if Target(op) == id && Calls(env, y, op) != [] {
      AgreedFew(Calls(env, y, op)[0], Calls(env, y, op)[0]);
    }
  }

  /** If a forced settlement is pending for the channel, it is the given one. */
  ghost predicate OnlyForced(y: System, id: Id, t: Settlement) {
    IsPending(y, id) && y.settlements[id].kind.Forced? ==> y.settlements[id] == t
  }

  /** No step files another forced settlement in its place, or executes it. */
  ghost predicate LeavesForced(op: SysOp, id: Id) {
    !op.ManagerStep? && op.id == id ==> !op.ForceStep? && !op.DisputeStep? && !op.ExecuteStep?
  }

  lemma ForcedStays(env: Env, y: System, op: SysOp, id: Id, t: Settlement)
    requires OnlyForced(y, id, t) && LeavesForced(op, id)
    ensures OnlyForced(SysStep(env, y, op).0, id, t)
  {
    if id in y.settlements {
      SettlementLifecycle(env, y, op, id);
    }
  }

  lemma {:induction false} RunStaysForced(env: Env, y: System, ops: seq<SysOp>, id: Id, t: Settlement)
    requires SystemWF(env, y) && OnlyForced(y, id, t) && forall i :: 0 <= i < |ops| ==> LeavesForced(ops[i], id)
    ensures SystemWF(env, SysRun(env, y, ops)) && OnlyForced(SysRun(env, y, ops), id, t)
    decreases |ops|
  {
    if ops != [] {
      SysStepKeeps(env, y, ops[0]);
      ForcedStays(env, y, ops[0], id, t);
      RunStaysForced(env, SysStep(env, y, ops[0]).0, ops[1..], id, t);
    }
  }

  /** A forced settlement filed at time `now` is paid no earlier than its challenge period later, in every run that
      does not execute it, and paid at once by one that does. */
  lemma ForcedWaits(env: Env, y: System, id: Id, s: SignedState, now: int, period: int, ops: seq<SysOp>, last: SysOp)
    requires SystemWF(env, y) && forall i :: 0 <= i < |ops| ==> LeavesForced(ops[i], id)
    requires var filed := SysStep(env, y, ForceStep(id, s, now, period)).0;
             && id in filed.settlements && filed.settlements[id] == ForcedBy(s, now, period)
             && var late := SysRun(env, filed, ops);
                PaysStored(env, late, last, id) && late.settlements[id].kind.Forced? && !last.ExecuteStep?
    ensures last.ConfirmForceStep? && last.now >= now + period
  {
    var filed := SysStep(env, y, ForceStep(id, s, now, period)).0;
    SysStepKeeps(env, y, ForceStep(id, s, now, period));
    RunStaysForced(env, filed, ops, id, ForcedBy(s, now, period));
    ForcedPaidExactly(env, SysRun(env, filed, ops), last, id);
  }

  // ---------------------------------------------------------------- witnesses

  /** A manager for deposits from 1 and channels up to 20, and parties who have signed at a time with low byte 0. */
  const AT_ZERO: Env := Env((id, a, b, x, y, n) => 0, p => 0, (a, m: Message, s) => m.stamp == 0, 1, 20, 5)

  /** Channel 1 of parties 7 and 8, who put in 10 each. */
  const OPENING: SysOp := ManagerStep(OpenOp(1, 7, 8, 10, 10, true))

  /** Both parties of channel 1 agree on 10 and 10. */
  function Even(): SignedState {
    var sig := seq(64, _ => 0);
    SignedState(1, 0, 10, 10, sig, sig, 0)
  }

  /** Channel 1 in the given status, with what is stored for it. */
  function Pair(status: Status, end: Option<int>, settlements: map<Id, Settlement>): System {
    System(Manager(map[1 := Channel(1, 7, 8, 10, 10, 0, 0, end)], map[1 := Runtime(status, map[])], map[]), settlements)
  }

  lemma PairOpens()
    ensures SysStep(AT_ZERO, NOTHING, OPENING).0 == Pair(Open, None, map[]) && Pays(AT_ZERO, NOTHING, OPENING, 1) == 0
  {
    assert HashOf(AT_ZERO, Channel(1, 7, 8, 10, 10, 0, 0, None)) == 0;
  }

  lemma NothingWF(env: Env)
    ensures SystemWF(env, NOTHING)
  {
  }

  lemma PairWF()
    ensures SystemWF(AT_ZERO, Pair(Open, None, map[]))
  {
    NothingWF(AT_ZERO);
    SysStepKeeps(AT_ZERO, NOTHING, OPENING);
    PairOpens();
  }

  lemma PairBuilds(settlements: map<Id, Settlement>, now: int)
    requires 1 in settlements ==> !settlements[1].stage.Pending?
    ensures SysStep(AT_ZERO, Pair(Open, None, settlements), BuildStep(1, Even(), now))
         == (Pair(Open, None, settlements[1 := AgreedOn(Even(), now)]), Done)
    ensures Pays(AT_ZERO, Pair(Open, None, settlements), BuildStep(1, Even(), now), 1) == 0
  {
    AddCases(10, 10);
    assert BothSigned(AT_ZERO, Pair(Open, None, settlements).manager.channels[1], Even());
  }

  /** The ordinary course: opened, settled at the time that was signed, executed. The channel is closed, and its value
      has gone out twice. */
  lemma OrdinaryRunPaysTwice()
    ensures var ops := [OPENING] + ([BuildStep(1, Even(), 0)] + ([ExecuteStep(1, true, true)] + []));
            && Payouts(AT_ZERO, NOTHING, ops, 1) == 2
            && IsClosed(SysStep(AT_ZERO, Pair(Open, None, map[][1 := AgreedOn(Even(), 0)]), ExecuteStep(1, true, true)).0, 1)
  {
    var build, execute := BuildStep(1, Even(), 0), ExecuteStep(1, true, true);
    var y0, y1 := Pair(Open, None, map[]), Pair(Open, None, map[][1 := AgreedOn(Even(), 0)]);
    PairOpens();
    PairWF();
    PairBuilds(map[], 0);
    SysStepKeeps(AT_ZERO, y0, build);
    AddCases(10, 10);
    assert FinalOf(1, y1.settlements[1]) == Even();
    assert BothSigned(AT_ZERO, y1.manager.channels[1], Even());
    ExecutionPaysExactly(AT_ZERO, y1, 1, true);
    PayoutsCons(AT_ZERO, NOTHING, OPENING, [build] + ([execute] + []), 1);
    PayoutsCons(AT_ZERO, y0, build, [execute] + [], 1);
    PayoutsCons(AT_ZERO, y1, execute, [], 1);
  }

  /** Built one second later, a paid settlement closes nothing: its own time is not the signed one. */
  lemma PairPaysOpen(settlements: map<Id, Settlement>)
    ensures var built := Pair(Open, None, settlements[1 := AgreedOn(Even(), 1)]);
            && SysStep(AT_ZERO, built, ExecuteStep(1, true, true)).0 == WithStage(built, 1, Confirming)
            && Pays(AT_ZERO, built, ExecuteStep(1, true, true), 1) == 1
  {
    var built := Pair(Open, None, settlements[1 := AgreedOn(Even(), 1)]);
    assert !BothSigned(AT_ZERO, built.manager.channels[1], FinalOf(1, built.settlements[1]));
    ExecutionCalls(AT_ZERO, built, 1, true);
    AgreedFew(Call(Spend(20, 10, 10), true), Call(Spend(20, 10, 10), true));
  }

  /** So the same channel can be built and paid again, and is still open. */
  lemma PaidTwiceRun()
    ensures var build, execute := BuildStep(1, Even(), 1), ExecuteStep(1, true, true);
            var ops := [OPENING] + ([build] + ([execute] + ([build] + ([execute] + []))));
            Payouts(AT_ZERO, NOTHING, ops, 1) == 2
  {
    var build, execute := BuildStep(1, Even(), 1), ExecuteStep(1, true, true);
    var agreed := AgreedOn(Even(), 1);
    PairOpens();
    PairPays(map[], [build] + ([execute] + []));
    var once := map[][1 := agreed][1 := agreed.(stage := Confirming)];
    PairPays(once, []);
    PayoutsCons(AT_ZERO, NOTHING, OPENING, [build] + ([execute] + ([build] + ([execute] + []))), 1);
  }

  lemma PairPays(before: map<Id, Settlement>, rest: seq<SysOp>)
    requires 1 in before ==> !before[1].stage.Pending?
    ensures var agreed := AgreedOn(Even(), 1);
            var after := before[1 := agreed][1 := agreed.(stage := Confirming)];
            var ops := [BuildStep(1, Even(), 1)] + ([ExecuteStep(1, true, true)] + rest);
            Payouts(AT_ZERO, Pair(Open, None, before), ops, 1) == 1 + Payouts(AT_ZERO, Pair(Open, None, after), rest, 1)
  {
    var build, execute := BuildStep(1, Even(), 1), ExecuteStep(1, true, true);
    PairBuilds(before, 1);
    PairPaysOpen(before);
    PayoutsCons(AT_ZERO, Pair(Open, None, before), build, [execute] + rest, 1);
    PayoutsCons(AT_ZERO, Pair(Open, None, before[1 := AgreedOn(Even(), 1)]), execute, rest, 1);
  }

  /** A settlement forced at time 0 with a challenge period of 1000 and executed at once is paid, and closes the channel. */
  lemma ForcedEarlyRun()
    ensures var force, execute := ForceStep(1, Even(), 0, 1000), ExecuteStep(1, true, true);
            var y := SysStep(AT_ZERO, SysStep(AT_ZERO, NOTHING, OPENING).0, force).0;
            && 1 in y.settlements && y.settlements[1].challengeEnd == Some(1000)
            && PaysStored(AT_ZERO, y, execute, 1) && IsClosed(SysStep(AT_ZERO, y, execute).0, 1)
  {
    var y := SysStep(AT_ZERO, Pair(Open, None, map[]), ForceStep(1, Even(), 0, 1000)).0;
    PairOpens();
    PairWF();
    SysStepKeeps(AT_ZERO, Pair(Open, None, map[]), ForceStep(1, Even(), 0, 1000));
    ForcedPair();
    AddCases(10, 10);
    assert FinalOf(1, y.settlements[1]) == Even();
    assert BothSigned(AT_ZERO, y.manager.channels[1], Even());
    ExecutionPaysExactly(AT_ZERO, y, 1, true);
  }

  lemma ForcedPair()
    ensures var y := SysStep(AT_ZERO, Pair(Open, None, map[]), ForceStep(1, Even(), 0, 1000)).0;
            && y.settlements == map[][1 := ForcedBy(Even(), 0, 1000)]
            && 1 in y.manager.channels && y.manager.channels[1] == Channel(1, 7, 8, 10, 10, 0, 0, Some(5))
            && 1 in y.manager.states && y.manager.states[1].status == Closing
  {
    assert BothSigned(AT_ZERO, Pair(Open, None, map[]).manager.channels[1], Even());
  }
}
