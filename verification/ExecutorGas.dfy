/** What a transaction costs, in numbers: when it is executed, how much gas it uses, and what the sender is left with. */
module ExecutorGas {
  import opened Word64
  import opened Results
  import opened AccountModel
  import opened ExecutorModel

  /** 4 gas for each zero byte and 16 for each other one. */
  ghost function BytesCost(data: Bytes): nat { 4 * multiset(data)[0] + 16 * (|data| - multiset(data)[0]) }

  lemma {:induction false} DataCosts(data: Bytes)
    ensures multiset(data)[0] <= |data| && DataGas(data) == BytesCost(data)
  {
    if data != [] {
      var n := |data| - 1;
      assert data == data[..n] + [data[n]];
      DataCosts(data[..n]);
    }
  }

  /** What a transaction has to bring at least: 21000, or 53000 for a creation, and its data, as a uint64. */
  ghost function AtLeast(tx: Tx): u64 { ((if tx.to.Some? then 21000 else 53000) + BytesCost(tx.data)) % MOD }

  lemma AtLeastIsIntrinsic(tx: Tx)
    ensures IntrinsicGas(tx.data, tx.to.None?) == AtLeast(tx)
  {
    DataCosts(tx.data);
  }

  /** A transaction is executed exactly when it has a sender, a gas limit within the block's that covers what it has to
      bring, and a sender who can pay its value and all of its gas; otherwise it gets the first error that applies. */
  lemma ExecutesExactly(env: Env, accts: Accounts, tx: Tx)
    ensures var x := Execute(env, accts, tx);
            var sound := tx.from != 0 && 0 < tx.gasLimit <= env.blockGasLimit;
            var funded := At(accts, tx.from).balance >= tx.Value() + tx.gasLimit * tx.Price();
            && (x.outcome.Ok? <==> sound && AtLeast(tx) <= tx.gasLimit && funded)
            && (tx.from == 0 ==> x.outcome == Err(MissingFrom))
            && (tx.from != 0 && tx.gasLimit == 0 ==> x.outcome == Err(ZeroGasLimit))
            && (tx.from != 0 && tx.gasLimit > env.blockGasLimit && tx.gasLimit != 0 ==> x.outcome == Err(GasLimitExceeded))
            && (sound && AtLeast(tx) > tx.gasLimit ==> x.outcome == Err(OutOfGas))
            && (sound && AtLeast(tx) <= tx.gasLimit && !funded ==> x.outcome == Err(InsufficientBalance))
  {
    AtLeastIsIntrinsic(tx);
  }

  /** A call uses what it has to bring and 3 gas for each byte of the target's code, as a uint64, but no more than its
      limit. */
  ghost function CallCost(accts: Accounts, tx: Tx, to: Address): int {
    var total := (21000 + BytesCost(tx.data) + 3 * |At(accts, to).code|) % MOD;
    if total < tx.gasLimit then total else tx.gasLimit
  }

  lemma TwoTotals(x: int, y: int)
    ensures Add(x % MOD, y % MOD) == (x + y) % MOD
  {
  }

  /** The code of the target is what it was when the call began. */
  lemma TargetCode(accts: Accounts, tx: Tx, to: Address)
    ensures At(Call(accts, tx, to).0, to).code == At(accts, to).code
  {
    CallTouches(accts, tx, to, to);
  }

  lemma CallReceipt(accts: Accounts, tx: Tx, to: Address)
    requires !Call(accts, tx, to).1.failed
    ensures var (ran, receipt) := Call(accts, tx, to);
            var gas := Add(IntrinsicGas(tx.data, false), (3 * |At(ran, to).code|) % MOD);
            receipt.gasUsed == (if gas < tx.gasLimit then gas else tx.gasLimit) && receipt.contract.None?
  {
  }

  /** The gas of a call that does not run short of balance. */
  lemma CallGas(accts: Accounts, tx: Tx, to: Address)
    requires !Call(accts, tx, to).1.failed
    ensures Call(accts, tx, to).1.gasUsed == CallCost(accts, tx, to) && Call(accts, tx, to).1.contract.None?
  {
    CallReceipt(accts, tx, to);
    TargetCode(accts, tx, to);
    DataCosts(tx.data);
    TwoTotals(21000 + BytesCost(tx.data), 3 * |At(accts, to).code|);
  }

  lemma CostAfterCharge(accts: Accounts, tx: Tx, to: Address, amount: int)
    ensures CallCost(SubBalance(accts, tx.from, amount), tx, to) == CallCost(accts, tx, to)
  {
  }

  /** The gas of every executed transaction: a creation uses its whole limit. */
  lemma GasExactly(env: Env, accts: Accounts, tx: Tx)
    requires NoDebt(accts) && 0 <= tx.Value() && 0 <= tx.Price() && Execute(env, accts, tx).outcome.Ok?
    ensures var receipt := Execute(env, accts, tx).outcome.value;
            && receipt.gasUsed == (if tx.to.Some? then CallCost(accts, tx, tx.to.value) else tx.gasLimit)
            && !receipt.failed && (receipt.contract.Some? <==> tx.to.None?)
  {
    ExecuteConserves(env, accts, tx);
    var charged := SubBalance(accts, tx.from, tx.gasLimit * tx.Price());
    AtLeastIsIntrinsic(tx);
    if tx.to.Some? {
      CallGas(charged, tx, tx.to.value);
      CostAfterCharge(accts, tx, tx.to.value, tx.gasLimit * tx.Price());
    }
  }

  /** What the sender of a call to somebody else is left with, and what the target has then. */
  lemma CallLeaves(env: Env, accts: Accounts, tx: Tx)
    requires NoDebt(accts) && 0 <= tx.Value() && 0 <= tx.Price() && Execute(env, accts, tx).outcome.Ok?
    requires tx.to.Some? && tx.to.value != tx.from
    ensures var after := Execute(env, accts, tx).accounts;
            && At(after, tx.from).balance
                 == At(accts, tx.from).balance - tx.Value() - CallCost(accts, tx, tx.to.value) * tx.Price()
            && At(after, tx.to.value).balance == At(accts, tx.to.value).balance + tx.Value()
  {
    GasExactly(env, accts, tx);
    ExecuteShares(env, accts, tx, tx.from);
    ExecuteShares(env, accts, tx, tx.to.value);
  }

  /** A call to oneself, and a creation, cost their gas only. */
  lemma OthersLeave(env: Env, accts: Accounts, tx: Tx)
    requires NoDebt(accts) && 0 <= tx.Value() && 0 <= tx.Price() && Execute(env, accts, tx).outcome.Ok?
    requires tx.to.None? || tx.to.value == tx.from
    ensures At(Execute(env, accts, tx).accounts, tx.from).balance
         == At(accts, tx.from).balance
            - (if tx.to.None? then tx.gasLimit else CallCost(accts, tx, tx.from)) * tx.Price()
  {
    GasExactly(env, accts, tx);
    ExecuteShares(env, accts, tx, tx.from);
  }

  /** Where a created contract's account exists already, its code and the hash of it are replaced. */
  lemma CreationCodes(env: Env, accts: Accounts, tx: Tx)
    requires tx.to.None? && Execute(env, accts, tx).outcome.Ok?
    ensures var addr := env.createAddress(tx.from, At(accts, tx.from).nonce);
            && Execute(env, accts, tx).outcome.value.contract == Some(addr)
            && var was, now := At(accts, addr), At(Execute(env, accts, tx).accounts, addr);
               if addr in accts then now.code == tx.data && now.codeHash == env.keccak(tx.data)
               else now.code == [] && now.codeHash == []
  {
  }

  /** 200000, a call without value or data to an account without code, a limit of 100000 at price 1: 21000 gas, and
      179000 are left. */
  lemma PlainCallGivesBack(env: Env, tx: Tx, accts: Accounts)
    requires tx == Tx(1, Some(2), Some(0), [], 100000, Some(1)) && env.blockGasLimit >= 100000
    requires accts == map[1 := Blank(1).(balance := 200000)]
    ensures var x := Execute(env, accts, tx);
            && x.outcome == Ok(Receipt(21000, false, None)) && At(x.accounts, 1).balance == 179000
  {
    assert BytesCost(tx.data) == 0;
    ExecutesExactly(env, accts, tx);
    GasExactly(env, accts, tx);
    CallLeaves(env, accts, tx);
  }
}
