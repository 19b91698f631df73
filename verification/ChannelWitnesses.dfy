/** Runs from an empty manager in which the channel code does what its comments rule out. */
module ChannelWitnesses {
  import opened Word64
  import opened Results
  import opened ChannelModel
  import opened ChannelReserve
  import MapSums

  /** A manager for deposits from 1 and channels up to 20, and parties who sign everything. */
  const EASY: Env := Env((id, a, b, x, y, n) => 0, p => 0, (a, m, s) => true, 1, 20, 5)

  /** Channel 1 of parties 7 and 8, who put in 10 each. */
  const OPENING: Op := OpenOp(1, 7, 8, 10, 10, true)

  function Terms(sequence: u64, balanceA: u64, balanceB: u64): SignedState {
    var sig := seq(64, _ => 0);
    SignedState(1, sequence, balanceA, balanceB, sig, sig, 0)
  }

  /** An HTLC of party 7 to party 8. */
  function Promise(id: Id, amount: u64): Htlc { Htlc(1, id, 0, 100, amount, 7, 8, HtlcPending) }

  ghost function Opened(): Manager { Step(EASY, NO_CHANNELS, OPENING) }

  lemma OpenedIs()
    ensures Opened() == Manager(map[1 := Channel(1, 7, 8, 10, 10, 0, 0, None)], map[1 := Runtime(Open, map[])], map[])
  {
    assert HashOf(EASY, Channel(1, 7, 8, 10, 10, 0, 0, None)) == 0;
  }

  // ---------------------------------------------------------------- sums that wrap

  /** Deposits of 2^64 - 1 and 21 pass the test against a maximum of 20. */
  lemma OversizedChannel()
    ensures var m := Step(EASY, NO_CHANNELS, OpenOp(1, 7, 8, MOD - 1, 21, true));
            1 in m.channels && m.channels[1].balanceA + m.channels[1].balanceB > EASY.maxChannelValue
  {
    AddCases(MOD - 1, 21);
  }

  /** Balances 2^64 - 1 and 21 have the same uint64 sum as 10 and 10, so both ways of installing them succeed. */
  lemma InflatedBalances()
    ensures 1 in Step(EASY, Opened(), UpdateOp(1, Terms(1, MOD - 1, 21))).channels
    ensures var c := Step(EASY, Opened(), UpdateOp(1, Terms(1, MOD - 1, 21))).channels[1];
            c.balanceA + c.balanceB == 20 + MOD
    ensures 1 in Step(EASY, Opened(), CloseOp(1, Terms(1, MOD - 1, 21), true)).channels
    ensures var c := Step(EASY, Opened(), CloseOp(1, Terms(1, MOD - 1, 21), true)).channels[1];
            c.balanceA + c.balanceB == 20 + MOD
  {
    OpenedIs();
    AddCases(MOD - 1, 21);
    AddCases(10, 10);
    assert BothSigned(EASY, Opened().channels[1], Terms(1, MOD - 1, 21));
  }

  // ---------------------------------------------------------------- HTLCs

  lemma NothingListed(party: Address)
    ensures Listed(map[], party) == 0 && Reserved(map[], party) == 0
  {
    assert Amounts(map[], party) == map[] && PendingAmounts(map[], party) == map[];
  }

  lemma OneListed(h: Htlc, party: Address)
    requires h.sender == party
    ensures Listed(map[h.id := h], party) == h.amount
  {
    assert Amounts(map[h.id := h], party) == map[][h.id := h.amount];
    MapSums.Update(map[], h.id, h.amount);
  }

  /** Channel 1 with a promise of 6 listed. */
  lemma Promised() returns (m: Manager)
    ensures m == Step(EASY, Opened(), AddHtlcOp(1, Promise(2, 6)))
    ensures m == Opened().(states := map[1 := Runtime(Open, map[2 := Promise(2, 6)])])
  {
    OpenedIs();
    NothingListed(7);
    m := Step(EASY, Opened(), AddHtlcOp(1, Promise(2, 6)));
    assert map[][2 := Promise(2, 6)] == map[2 := Promise(2, 6)];
    assert Opened().states[1 := Runtime(Open, map[2 := Promise(2, 6)])] == map[1 := Runtime(Open, map[2 := Promise(2, 6)])];
  }

  /** A closed channel whose balances move: 10 and 10 when it is closed, 4 and 16 after a pending promise is kept. */
  lemma ClosedMovesRun()
    ensures var ops := [OPENING, AddHtlcOp(1, Promise(2, 6)), CloseOp(1, Terms(0, 10, 10), true)];
            var closed, late := Run(EASY, NO_CHANNELS, ops), Run(EASY, NO_CHANNELS, ops + [CompleteOp(1, 2, [])]);
            && 1 in closed.channels && 1 in closed.states && closed.states[1].status.Closed?
            && closed.channels[1].balanceA == 10 && closed.channels[1].balanceB == 10
            && 1 in late.channels && late.channels[1].balanceA == 4 && late.channels[1].balanceB == 16
  {
    var ops := [OPENING, AddHtlcOp(1, Promise(2, 6)), CloseOp(1, Terms(0, 10, 10), true)];
    var last := CompleteOp(1, 2, []);
    var m := Promised();
    OpenedIs();
    var closed := Step(EASY, m, ops[2]);
    RunThree(EASY, NO_CHANNELS, ops);
    RunSnoc(EASY, NO_CHANNELS, ops, last);
    CloseAtTen(m);
    LateCompletion(closed);
  }

  lemma CloseAtTen(m: Manager)
    requires m == Opened().(states := map[1 := Runtime(Open, map[2 := Promise(2, 6)])])
    ensures Step(EASY, m, CloseOp(1, Terms(0, 10, 10), true))
         == m.(channels := map[1 := Channel(1, 7, 8, 10, 10, 0, 0, None)],
               states := map[1 := Runtime(Closed, map[2 := Promise(2, 6)])])
  {
    OpenedIs();
    assert BothSigned(EASY, m.channels[1], Terms(0, 10, 10));
    assert map[1 := Channel(1, 7, 8, 10, 10, 0, 0, None)][1 := Channel(1, 7, 8, 10, 10, 0, 0, None)]
        == map[1 := Channel(1, 7, 8, 10, 10, 0, 0, None)];
    assert m.states[1 := Runtime(Closed, map[2 := Promise(2, 6)])] == map[1 := Runtime(Closed, map[2 := Promise(2, 6)])];
  }

  lemma LateCompletion(m: Manager)
    requires 1 in m.channels && 1 in m.states && m.channels[1] == Channel(1, 7, 8, 10, 10, 0, 0, None)
    requires 2 in m.states[1].htlcs && m.states[1].htlcs[2] == Promise(2, 6)
    ensures var m' := Step(EASY, m, CompleteOp(1, 2, []));
            && 1 in m'.channels && 1 in m'.states
            && m'.channels[1] == Channel(1, 7, 8, 4, 16, 1, 0, None)
            && m'.states[1] == m.states[1].(htlcs := m.states[1].htlcs[2 := Promise(2, 6).(state := HtlcCompleted)])
  {
    SubCases(10, 6);
    AddCases(10, 6);
    AddCases(0, 1);
  }

  /** A completed HTLC that is still listed is subtracted twice: with 4 left after paying 6, nearly 2^64 counts as
      available, a promise of 100 is accepted, and keeping it would wrap the balance. */
  lemma OverdraftRun()
    ensures var ops := [OPENING, AddHtlcOp(1, Promise(2, 6)), CompleteOp(1, 2, []), AddHtlcOp(1, Promise(3, 100))];
            var m := Run(EASY, NO_CHANNELS, ops);
            && 1 in m.channels && 1 in m.states && m.channels[1].balanceA == 4
            && Reserved(m.states[1].htlcs, 7) == 100 && !Covered(m.channels[1], m.states[1])
  {
    var first := [OPENING, AddHtlcOp(1, Promise(2, 6)), CompleteOp(1, 2, [])];
    var m := Promised();
    OpenedIs();
    LateCompletion(m);
    var paid := Step(EASY, m, first[2]);
    RunThree(EASY, NO_CHANNELS, first);
    RunSnoc(EASY, NO_CHANNELS, first, AddHtlcOp(1, Promise(3, 100)));
    assert first + [AddHtlcOp(1, Promise(3, 100))]
        == [OPENING, AddHtlcOp(1, Promise(2, 6)), CompleteOp(1, 2, []), AddHtlcOp(1, Promise(3, 100))];
    assert m.states[1].htlcs[2 := Promise(2, 6).(state := HtlcCompleted)]
        == map[2 := Promise(2, 6).(state := HtlcCompleted)];
    Overdraft(paid);
  }

  lemma Overdraft(m: Manager)
    requires 1 in m.channels && 1 in m.states && m.channels[1] == Channel(1, 7, 8, 4, 16, 1, 0, None)
    requires m.states[1] == Runtime(Open, map[2 := Promise(2, 6).(state := HtlcCompleted)])
    ensures var m' := Step(EASY, m, AddHtlcOp(1, Promise(3, 100)));
            && 1 in m'.channels && 1 in m'.states && m'.channels[1] == m.channels[1]
            && Reserved(m'.states[1].htlcs, 7) == 100 && !Covered(m'.channels[1], m'.states[1])
  {
    var c, r := m.channels[1], m.states[1];
    OneListed(r.htlcs[2], 7);
    assert Available(c, r, 7) == MOD - 2;
    assert PendingAmounts(r.htlcs, 7) == map[];
    ReservedAfterAdd(r.htlcs, Promise(3, 100), 7);
  }

  lemma RunThree(env: Env, m: Manager, ops: seq<Op>)
    requires |ops| == 3
    ensures Run(env, m, ops) == Step(env, Step(env, Step(env, m, ops[0]), ops[1]), ops[2])
  {
    RunSnoc(env, m, ops[..2], ops[2]);
    RunSnoc(env, m, ops[..1], ops[1]);
    RunSnoc(env, m, [], ops[0]);
    assert ops == ops[..2] + [ops[2]] && ops[..2] == ops[..1] + [ops[1]] && ops[..1] == [] + [ops[0]];
  }

  lemma {:induction false} RunSnoc(env: Env, m: Manager, ops: seq<Op>, op: Op)
    ensures Run(env, m, ops + [op]) == Step(env, Run(env, m, ops), op)
    decreases |ops|
  {
    if ops == [] {
      assert ([] + [op])[1..] == [];
    } else {
      assert (ops + [op])[1..] == ops[1..] + [op];
      RunSnoc(env, Step(env, m, ops[0]), ops[1..], op);
    }
  }
}
