/** What a caller of the settlement manager gets: for every step, exactly when it does something, who is paid how much,
    and what is stored. Stated from the channel, the stored settlement and the arguments. */
module SettlementTerms {
  import opened Word64
  import opened Results
  import opened ChannelModel
  import opened ChannelProofs
  import opened ChannelSteps
  import opened SettlementModel

  /** The channel's value as its two balances make it. */
  function Worth(c: Channel): int { (c.balanceA + c.balanceB) % MOD }

  /** The settlement under `id` has these terms; nothing else is stored anew. */
  ghost predicate Files(y: System, y': System, id: Id, balanceA: int, balanceB: int, sequence: int, kind: Kind, stage: Stage) {
    && id in y'.settlements && y'.settlements - {id} == y.settlements - {id}
    && var t := y'.settlements[id];
       t.balanceA == balanceA && t.balanceB == balanceB && t.sequence == sequence && t.kind == kind && t.stage == stage
  }

  /** Only the stage of the stored settlement changes. */
  ghost predicate Restages(y: System, y': System, id: Id, stage: Stage) {
    && id in y.settlements && id in y'.settlements && y'.settlements - {id} == y.settlements - {id}
    && y'.settlements[id] == y.settlements[id].(stage := stage)
  }

  /** A cooperative settlement is filed exactly for a state of this channel that is not older, keeps its value and is
      signed by both, while the channel is not closed and nothing is pending; with the terms of that state. */
  lemma BuildExactly(env: Env, y: System, id: Id, s: SignedState, now: int)
    requires ManagerWF(env, y.manager)
    ensures var (y', o) := BuildSettlement(env, y, id, s, now);
            var fine := && Known(y.manager, id) && !y.manager.states[id].status.Closed? && s.channelId == id
                        && s.sequence >= y.manager.channels[id].sequence && BothSign(env, y.manager.channels[id], s)
                        && (s.balanceA + s.balanceB) % MOD == Worth(y.manager.channels[id]);
            var pending := id in y.settlements && y.settlements[id].stage.Pending?;
            && (o == Done <==> fine)
            && (fine && !pending ==>
                  && Files(y, y', id, s.balanceA, s.balanceB, s.sequence, Cooperative, Pending)
                  && y'.settlements[id].sigA == s.sigA && y'.settlements[id].sigB == s.sigB
                  && y'.settlements[id].timestamp == now && y'.manager == y.manager)
            && (!fine || pending ==> y' == y)
  {
    if id in y.manager.channels { assert ChannelWF(env, y.manager, id); }
  }

  /** The locker is asked exactly for a pending settlement of a known channel, of any kind, to pay its balances out of
      the channel's value, in that order; its stage then says what the locker answered. */
  lemma ExecuteExactly(env: Env, y: System, id: Id, spent: bool, closed: bool)
    ensures var (y', o) := ExecuteSettlement(env, y, id, spent, closed);
            var due := id in y.settlements && y.settlements[id].stage.Pending? && id in y.manager.channels;
            && (OwnCalls(o) != [] <==> due)
            && (due ==>
                  && Restages(y, y', id, if spent then Confirming else Failed)
                  && var t := y.settlements[id];
                     OwnCalls(o) == [Call(Spend(Worth(y.manager.channels[id]), t.balanceA, t.balanceB), spent)])
            && (!due ==> y' == y)
            && (!due || !spent ==> y'.manager == y.manager)
  {
  }

  /** Whatever becomes of the close after it, is what CloseChannel makes of the settlement's own terms and time. */
  lemma ExecuteCloses(env: Env, y: System, id: Id, closed: bool)
    requires id in y.settlements && y.settlements[id].stage.Pending? && id in y.manager.channels
    ensures var y' := ExecuteSettlement(env, y, id, true, closed).0;
            var t := y.settlements[id];
            var r := CloseChannel(env, y.manager, id,
                                  SignedState(id, t.sequence, t.balanceA, t.balanceB, t.sigA, t.sigB, t.timestamp), closed);
            y'.manager == if r.Ok? then r.value else y.manager
  {
  }

  /** A forced settlement is filed exactly when at least one signature is given and each given one is good; its
      balances are taken as they are. */
  lemma ForceExactly(env: Env, y: System, id: Id, s: SignedState, now: int, period: int)
    ensures var (y', o) := ForceSettlement(env, y, id, s, now, period);
            var message := Message(s.channelId, s.sequence, s.balanceA, s.balanceB, s.timestamp % 256);
            var fine := && id in y.manager.channels && (s.sigA != [] || s.sigB != [])
                        && (s.sigA != [] ==> env.verify(y.manager.channels[id].partyA, message, s.sigA))
                        && (s.sigB != [] ==> env.verify(y.manager.channels[id].partyB, message, s.sigB));
            && (fine ==>
                  && Files(y, y', id, s.balanceA, s.balanceB, s.sequence, Forced, Pending)
                  && y'.settlements[id].sigA == s.sigA && y'.settlements[id].sigB == s.sigB
                  && y'.settlements[id].timestamp == now && y'.settlements[id].challengeEnd == Some(now + period)
                  && var r := ForceClose(env, y.manager, id, s, now);
                     && (o == Done <==> r.Ok?) && y'.manager == if r.Ok? then r.value else y.manager)
            && (!fine ==> y' == y && o != Done)
            && OwnCalls(o) == []
  {
  }

  /** A forced settlement is paid by confirming exactly from its challenge end on. */
  lemma ConfirmForceExactly(y: System, id: Id, now: int, spent: bool)
    ensures var (y', o) := ConfirmForceClose(y, id, now, spent);
            var due := && id in y.settlements && y.settlements[id].kind.Forced? && y.settlements[id].stage.Pending?
                       && y.settlements[id].challengeEnd.Some? && now >= y.settlements[id].challengeEnd.value
                       && id in y.manager.channels;
            && (OwnCalls(o) != [] <==> due)
            && (due ==>
                  && Restages(y, y', id, if spent then Confirming else Failed)
                  && var t, r := y.settlements[id], FinalizeClose(y.manager, id, now);
                     && OwnCalls(o) == [Call(Spend(Worth(y.manager.channels[id]), t.balanceA, t.balanceB), spent)]
                     && y'.manager == if spent && r.Ok? then r.value else y.manager)
            && (!due ==> y' == y)
  {
  }

  /** Who is paid what in a dispute settlement: all to the honest party with the penalty, party A first if both are
      the same; otherwise, also when a stranger is named honest, each party its balance. */
  function DueToA(c: Channel, honest: Address, penalty: bool): int {
    if !penalty || (honest != c.partyA && honest != c.partyB) then c.balanceA
    else if honest == c.partyA then (c.balanceA + c.balanceB) % MOD else 0
  }

  function DueToB(c: Channel, honest: Address, penalty: bool): int {
    if !penalty || (honest != c.partyA && honest != c.partyB) then c.balanceB
    else if honest == c.partyA then 0 else (c.balanceA + c.balanceB) % MOD
  }

  /** The locker is asked for every known channel, to pay exactly that, and the settlement is filed with it. */
  lemma DisputeExactly(y: System, id: Id, honest: Address, penalty: bool, now: int, spent: bool)
    ensures var (y', o) := DisputeSettlement(y, id, honest, penalty, now, spent);
            && (OwnCalls(o) != [] <==> id in y.manager.channels)
            && y'.manager == y.manager
            && (id in y.manager.channels ==>
                  var c := y.manager.channels[id];
                  var a, b := DueToA(c, honest, penalty), DueToB(c, honest, penalty);
                  && OwnCalls(o) == [Call(Spend(Worth(c), a, b), spent)]
                  && Files(y, y', id, a, b, c.sequence, Disputed, if spent then Confirming else Failed))
            && (id !in y.manager.channels ==> y' == y)
  {
    if id in y.manager.channels {
      var c := y.manager.channels[id];
      AddCases(c.Total(), 0);
      AddCases(0, c.Total());
      AddCases(c.balanceA, c.balanceB);
    }
  }

  /** The penalty goes to the honest party, whole, and the other one gets nothing. */
  lemma PenaltyGoesToHonest(y: System, id: Id, honest: Address, now: int)
    requires id in y.manager.channels
    requires honest == y.manager.channels[id].partyA || honest == y.manager.channels[id].partyB
    ensures var o := DisputeSettlement(y, id, honest, true, now, true).1;
            && o.Spent? && o.spend.value == (y.manager.channels[id].balanceA + y.manager.channels[id].balanceB) % MOD
            && (honest == y.manager.channels[id].partyA ==> o.spend.toA == o.spend.value && o.spend.toB == 0)
            && (honest != y.manager.channels[id].partyA ==> o.spend.toB == o.spend.value && o.spend.toA == 0)
  {
    DisputeExactly(y, id, honest, true, now, true);
  }

  lemma CancelExactly(y: System, id: Id)
    ensures var (y', o) := CancelSettlement(y, id);
            && (o == Done <==> id in y.settlements && y.settlements[id].stage.Pending?)
            && (o == Done ==> Restages(y, y', id, Cancelled) && y'.manager == y.manager)
            && (o != Done ==> y' == y) && OwnCalls(o) == []
  {
  }

  lemma ConfirmExactly(y: System, id: Id)
    ensures var (y', o) := ConfirmSettlement(y, id);
            && (o == Done <==> id in y.settlements && y.settlements[id].stage.Confirming?)
            && (o == Done ==> Restages(y, y', id, Complete) && y'.manager == y.manager)
            && (o != Done ==> y' == y) && OwnCalls(o) == []
  {
  }
}
