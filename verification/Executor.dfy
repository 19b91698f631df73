/** The transaction executor (pkg/aal/evm.go, with the balance operations and gas of abstraction.go). */
module ExecutorModel {
  import opened Word64
  import opened Results
  import opened AccountModel
  import MapSums

  datatype Tx = Tx(from: Address, to: Option<Address>, value: Option<int>, data: Bytes, gasLimit: u64, gasPrice: Option<int>)
  {
    /** Missing amounts count as zero. */
    function Value(): int { if value.Some? then value.value else 0 }

    function Price(): int { if gasPrice.Some? then gasPrice.value else 0 }
  }

  datatype Error = NoTransaction | MissingFrom | ZeroGasLimit | GasLimitExceeded | OutOfGas | InsufficientBalance

  datatype Receipt = Receipt(gasUsed: u64, failed: bool, contract: Option<Address>)

  datatype Env = Env(keccak: Bytes -> Bytes, createAddress: (Address, u64) -> Address, blockGasLimit: u64)

  datatype Execution = Execution(accounts: Accounts, outcome: Result<Receipt, Error>)

  // ---------------------------------------------------------------- gas

  const BASE_COST := 21000
  const CREATION_COST := 32000

  function DataGas(data: Bytes): nat {
    if data == [] then 0
    else DataGas(data[..|data| - 1]) + (if data[|data| - 1] == 0 then 4 else 16)
  }

  function IntrinsicGas(data: Bytes, creation: bool): u64 {
    (BASE_COST + (if creation then CREATION_COST else 0) + DataGas(data)) % MOD
  }

  // ---------------------------------------------------------------- account operations

  function SubBalance(accts: Accounts, addr: Address, amount: int): Accounts {
    if addr in accts then accts[addr := accts[addr].(balance := accts[addr].balance - amount)] else accts
  }

  function AddBalance(accts: Accounts, addr: Address, amount: int): Accounts {
    accts[addr := At(accts, addr).(balance := At(accts, addr).balance + amount)]
  }

  function SetNonce(accts: Accounts, addr: Address, nonce: u64): Accounts {
    if addr in accts then accts[addr := accts[addr].(nonce := nonce)] else accts
  }

  /** SetCode of the state wrapper: without an account there is nowhere to put code. */
  function SetCode(keccak: Bytes -> Bytes, accts: Accounts, addr: Address, code: Bytes): Accounts {
    if addr in accts then accts[addr := accts[addr].(code := code, codeHash := keccak(code))] else accts
  }

  function BumpNonce(accts: Accounts, addr: Address): Accounts {
    SetNonce(accts, addr, Add(At(accts, addr).nonce, 1))
  }

  // ---------------------------------------------------------------- execution

  function Deploy(env: Env, accts: Accounts, tx: Tx): (Accounts, Receipt) {
    var addr := env.createAddress(tx.from, At(accts, tx.from).nonce);
    var intrinsic := IntrinsicGas(tx.data, true);
    var gasUsed := if tx.gasLimit > intrinsic then tx.gasLimit else intrinsic;
    (SetCode(env.keccak, BumpNonce(accts, tx.from), addr, tx.data), Receipt(gasUsed, false, Some(addr)))
  }

  function Call(accts: Accounts, tx: Tx, to: Address): (Accounts, Receipt) {
    var bumped := BumpNonce(accts, tx.from);
    if tx.Value() > 0 && At(bumped, tx.from).balance < tx.Value()
    then (bumped, Receipt(tx.gasLimit, true, None))
    else
      var moved := if tx.Value() > 0 then AddBalance(SubBalance(bumped, tx.from, tx.Value()), to, tx.Value()) else bumped;
      var gas := Add(IntrinsicGas(tx.data, false), (3 * |At(moved, to).code|) % MOD);
      (moved, Receipt(if gas > tx.gasLimit then tx.gasLimit else gas, false, None))
  }

  function Validate(env: Env, tx: Tx): Option<Error> {
    if tx.from == 0 then Some(MissingFrom)
    else if tx.gasLimit == 0 then Some(ZeroGasLimit)
    else if tx.gasLimit > env.blockGasLimit then Some(GasLimitExceeded)
    else None
  }

  /** ExecuteTransaction: charge the gas limit, run, give back what was not used. No receipt ever carries a
      gas refund, so the capped refund at the end of the source adds nothing. */
  function Execute(env: Env, accts: Accounts, tx: Tx): Execution {
    if Validate(env, tx).Some? then Execution(accts, Err(Validate(env, tx).value))
    else if tx.gasLimit < IntrinsicGas(tx.data, tx.to.None?) then Execution(accts, Err(OutOfGas))
    else if At(accts, tx.from).balance < tx.Value() + tx.gasLimit * tx.Price() then Execution(accts, Err(InsufficientBalance))
    else
      var charged := SubBalance(accts, tx.from, tx.gasLimit * tx.Price());
      var (ran, receipt) := if tx.to.None? then Deploy(env, charged, tx) else Call(charged, tx, tx.to.value);
      if receipt.failed then Execution(ran, Ok(receipt))
      else
        var unused := Sub(tx.gasLimit, receipt.gasUsed);
        Execution(AddBalance(ran, tx.from, unused * tx.Price()), Ok(receipt))
  }

  // ---------------------------------------------------------------- what becomes of the money

  ghost function Balances(accts: Accounts): map<Address, int> { map a | a in accts :: accts[a].balance }

  ghost function Total(accts: Accounts): int { MapSums.Sum(Balances(accts)) }

  ghost predicate NoDebt(accts: Accounts) { forall a :: a in accts ==> accts[a].balance >= 0 }

  lemma TotalAfter(accts: Accounts, addr: Address, acct: Acct)
    ensures Total(accts[addr := acct]) == Total(accts) + acct.balance - At(accts, addr).balance
  {
    assert Balances(accts[addr := acct]) == Balances(accts)[addr := acct.balance];
    MapSums.Update(Balances(accts), addr, acct.balance);
  }

  /** Debiting what the account holds, or crediting, moves the total by the amount. */
  lemma DebitTotal(accts: Accounts, addr: Address, amount: int)
    requires NoDebt(accts) && 0 <= amount <= At(accts, addr).balance
    ensures var r := SubBalance(accts, addr, amount);
            && Total(r) == Total(accts) - amount && NoDebt(r)
            && At(r, addr).balance == At(accts, addr).balance - amount
  {
    if addr in accts {
      TotalAfter(accts, addr, accts[addr].(balance := accts[addr].balance - amount));
    }
  }

  lemma CreditTotal(accts: Accounts, addr: Address, amount: int)
    requires NoDebt(accts) && 0 <= amount
    ensures Total(AddBalance(accts, addr, amount)) == Total(accts) + amount && NoDebt(AddBalance(accts, addr, amount))
  {
    TotalAfter(accts, addr, At(accts, addr).(balance := At(accts, addr).balance + amount));
  }

  lemma NonceKeepsTotal(accts: Accounts, addr: Address)
    requires NoDebt(accts)
    ensures var r := BumpNonce(accts, addr);
            Total(r) == Total(accts) && NoDebt(r) && forall a :: At(r, a).balance == At(accts, a).balance
  {
    if addr in accts {
      TotalAfter(accts, addr, accts[addr].(nonce := Add(accts[addr].nonce, 1)));
    }
  }

  lemma CodeKeepsTotal(keccak: Bytes -> Bytes, accts: Accounts, addr: Address, code: Bytes)
    requires NoDebt(accts)
    ensures Total(SetCode(keccak, accts, addr, code)) == Total(accts) && NoDebt(SetCode(keccak, accts, addr, code))
  {
    if addr in accts {
      TotalAfter(accts, addr, accts[addr].(code := code, codeHash := keccak(code)));
    }
  }

  /** A call moves value between accounts, also from an account to itself, and cannot run short once the
      balance covers it. */
  lemma CallKeepsTotal(accts: Accounts, tx: Tx, to: Address)
    requires NoDebt(accts) && 0 <= tx.Value() <= At(accts, tx.from).balance
    ensures var (ran, receipt) := Call(accts, tx, to);
            Total(ran) == Total(accts) && NoDebt(ran) && !receipt.failed && receipt.gasUsed <= tx.gasLimit
  {
    NonceKeepsTotal(accts, tx.from);
    var bumped := BumpNonce(accts, tx.from);
    if tx.Value() > 0 {
      DebitTotal(bumped, tx.from, tx.Value());
      CreditTotal(SubBalance(bumped, tx.from, tx.Value()), to, tx.Value());
    }
  }

  lemma DeployKeepsTotal(env: Env, accts: Accounts, tx: Tx)
    requires NoDebt(accts) && IntrinsicGas(tx.data, true) <= tx.gasLimit
    ensures var (ran, receipt) := Deploy(env, accts, tx);
            Total(ran) == Total(accts) && NoDebt(ran) && !receipt.failed && receipt.gasUsed == tx.gasLimit
  {
    NonceKeepsTotal(accts, tx.from);
    CodeKeepsTotal(env.keccak, BumpNonce(accts, tx.from), env.createAddress(tx.from, At(accts, tx.from).nonce), tx.data);
  }

  lemma GasSplit(limit: nat, used: nat, price: nat)
    requires used <= limit
    ensures limit * price - (limit - used) * price == used * price && 0 <= (limit - used) * price && 0 <= limit * price
  {
    assert limit * price == (limit - used) * price + used * price;
  }

  /** Conservation: with amounts that are not negative, an executed transaction lowers the sum of all balances
      by exactly gas used times gas price, leaves no account in debt and never ends in the inner
      insufficient-balance branch; a refused one changes nothing. */
  lemma ExecuteConserves(env: Env, accts: Accounts, tx: Tx)
    requires NoDebt(accts) && 0 <= tx.Value() && 0 <= tx.Price()
    ensures var x := Execute(env, accts, tx);
            && NoDebt(x.accounts)
            && (x.outcome.Err? ==> x.accounts == accts)
            && (x.outcome.Ok? ==>
                  && !x.outcome.value.failed && x.outcome.value.gasUsed <= tx.gasLimit
                  && Total(x.accounts) == Total(accts) - x.outcome.value.gasUsed * tx.Price())
  {
    var x := Execute(env, accts, tx);
    if x.outcome.Ok? {
      var charged := SubBalance(accts, tx.from, tx.gasLimit * tx.Price());
      GasSplit(tx.gasLimit, 0, tx.Price());
      DebitTotal(accts, tx.from, tx.gasLimit * tx.Price());
      RunAndRefund(env, charged, tx);
    }
  }

  lemma RunAndRefund(env: Env, charged: Accounts, tx: Tx)
    requires NoDebt(charged) && 0 <= tx.Value() <= At(charged, tx.from).balance && 0 <= tx.Price()
    requires IntrinsicGas(tx.data, tx.to.None?) <= tx.gasLimit
    ensures var (ran, receipt) := if tx.to.None? then Deploy(env, charged, tx) else Call(charged, tx, tx.to.value);
            var paid := AddBalance(ran, tx.from, Sub(tx.gasLimit, receipt.gasUsed) * tx.Price());
            && !receipt.failed && receipt.gasUsed <= tx.gasLimit && NoDebt(paid)
            && Total(paid) == Total(charged) + tx.gasLimit * tx.Price() - receipt.gasUsed * tx.Price()
  {
    var (ran, receipt) := if tx.to.None? then Deploy(env, charged, tx) else Call(charged, tx, tx.to.value);
    if tx.to.None? { DeployKeepsTotal(env, charged, tx); } else { CallKeepsTotal(charged, tx, tx.to.value); }
    SubCases(tx.gasLimit, receipt.gasUsed);
    GasSplit(tx.gasLimit, receipt.gasUsed, tx.Price());
    CreditTotal(ran, tx.from, (tx.gasLimit - receipt.gasUsed) * tx.Price());
  }

  /** What each account ends up with: the sender pays the gas used and the value, the recipient of a call
      gets the value, and nobody else's balance moves. A deployment moves no value. */
  ghost function Share(tx: Tx, gasUsed: u64, a: Address): int {
    var value := if tx.to.Some? then tx.Value() else 0;
    (if a == tx.from then -(gasUsed * tx.Price() + value) else 0)
    + (if tx.to == Some(a) then value else 0)
  }

  lemma CallShares(accts: Accounts, tx: Tx, to: Address, a: Address)
    requires 0 <= tx.Value() <= At(accts, tx.from).balance
    ensures At(Call(accts, tx, to).0, a).balance
         == At(accts, a).balance - (if a == tx.from then tx.Value() else 0) + (if a == to then tx.Value() else 0)
  {
  }

  lemma ExecuteShares(env: Env, accts: Accounts, tx: Tx, a: Address)
    requires NoDebt(accts) && 0 <= tx.Value() && 0 <= tx.Price() && Execute(env, accts, tx).outcome.Ok?
    ensures var x := Execute(env, accts, tx);
            At(x.accounts, a).balance == At(accts, a).balance + Share(tx, x.outcome.value.gasUsed, a)
  {
    ExecuteConserves(env, accts, tx);
    var charged := SubBalance(accts, tx.from, tx.gasLimit * tx.Price());
    GasSplit(tx.gasLimit, 0, tx.Price());
    DebitTotal(accts, tx.from, tx.gasLimit * tx.Price());
    RunShares(env, charged, tx, a);
  }

  lemma RunShares(env: Env, charged: Accounts, tx: Tx, a: Address)
    requires NoDebt(charged) && 0 <= tx.Value() <= At(charged, tx.from).balance && 0 <= tx.Price()
    requires IntrinsicGas(tx.data, tx.to.None?) <= tx.gasLimit
    ensures var (ran, receipt) := if tx.to.None? then Deploy(env, charged, tx) else Call(charged, tx, tx.to.value);
            var paid := AddBalance(ran, tx.from, Sub(tx.gasLimit, receipt.gasUsed) * tx.Price());
            At(paid, a).balance == At(charged, a).balance + (if a == tx.from then tx.gasLimit * tx.Price() else 0)
                                   + Share(tx, receipt.gasUsed, a)
  {
    var (ran, receipt) := if tx.to.None? then Deploy(env, charged, tx) else Call(charged, tx, tx.to.value);
    if tx.to.None? {
      DeployKeepsTotal(env, charged, tx);
    } else {
      CallKeepsTotal(charged, tx, tx.to.value);
      CallShares(charged, tx, tx.to.value, a);
    }
    SubCases(tx.gasLimit, receipt.gasUsed);
    GasSplit(tx.gasLimit, receipt.gasUsed, tx.Price());
  }

  /** A whole block of transactions, in order, refused ones included. */
  function ExecuteAll(env: Env, accts: Accounts, txs: seq<Tx>): Accounts
    decreases |txs|
  {
    if txs == [] then accts else ExecuteAll(env, Execute(env, accts, txs[0]).accounts, txs[1..])
  }

  /** What the executed ones among them pay for gas. */
  function GasPaid(env: Env, accts: Accounts, txs: seq<Tx>): int
    decreases |txs|
  {
    if txs == [] then 0
    else
      var x := Execute(env, accts, txs[0]);
      (if x.outcome.Ok? then x.outcome.value.gasUsed * txs[0].Price() else 0) + GasPaid(env, x.accounts, txs[1..])
  }

  /** Over every sequence of transactions, money leaves the accounts through gas only, and nobody is in debt. */
  lemma {:induction false} AllConserve(env: Env, accts: Accounts, txs: seq<Tx>)
    requires NoDebt(accts) && forall tx :: tx in txs ==> 0 <= tx.Value() && 0 <= tx.Price()
    ensures NoDebt(ExecuteAll(env, accts, txs))
    ensures Total(ExecuteAll(env, accts, txs)) == Total(accts) - GasPaid(env, accts, txs)
    decreases |txs|
  {
    if txs != [] {
      assert txs[0] in txs;
      ExecuteConserves(env, accts, txs[0]);
      AllConserve(env, Execute(env, accts, txs[0]).accounts, txs[1..]);
    }
  }

  /** The account differs in its balance only. */
  ghost predicate BalanceOnly(a: Acct, a': Acct) { a' == a.(balance := a'.balance) }

  lemma CallTouches(accts: Accounts, tx: Tx, to: Address, a: Address)
    ensures BalanceOnly(At(BumpNonce(accts, tx.from), a), At(Call(accts, tx, to).0, a))
  {
  }

  /** Besides balances, an executed transaction changes the sender's nonce, by one, and at most the code at the
      address of the contract it creates. */
  lemma ExecuteTouches(env: Env, accts: Accounts, tx: Tx, a: Address)
    requires Execute(env, accts, tx).outcome.Ok?
    ensures var a0, a1 := At(accts, a), At(Execute(env, accts, tx).accounts, a);
            && a1.nonce == (if a == tx.from && a in accts then Add(a0.nonce, 1) else a0.nonce)
            && a1.storage == a0.storage && a1.address == a0.address
            && (Execute(env, accts, tx).outcome.value.contract != Some(a) ==> a1.code == a0.code && a1.codeHash == a0.codeHash)
  {
    var charged := SubBalance(accts, tx.from, tx.gasLimit * tx.Price());
    assert BalanceOnly(At(accts, a), At(charged, a));
    if tx.to.Some? {
      CallTouches(charged, tx, tx.to.value, a);
    }
  }

  /** A deployment reports an address, but its code is found there afterwards exactly when that address already
      had an account, or there is no code: the account of a new contract is never created. */
  lemma DeployedCodeExactly(env: Env, accts: Accounts, tx: Tx)
    requires tx.to.None? && Execute(env, accts, tx).outcome.Ok?
    ensures var addr := env.createAddress(tx.from, At(accts, tx.from).nonce);
            && Execute(env, accts, tx).outcome.value.contract == Some(addr)
            && (At(Execute(env, accts, tx).accounts, addr).code == tx.data <==> addr in accts || tx.data == [])
  {
  }

  /** So a first deployment, to an address nobody has used, stores nothing. */
  lemma FirstDeploymentLost(env: Env, tx: Tx, balance: nat)
    requires tx.from != 0 && tx.to.None? && tx.value == Some(0) && tx.gasPrice == Some(0) && tx.data == [96]
    requires 0 < tx.gasLimit <= env.blockGasLimit && IntrinsicGas(tx.data, true) <= tx.gasLimit
    requires env.createAddress(tx.from, 0) != tx.from
    ensures var accts := map[tx.from := Blank(tx.from).(balance := balance)];
            var x := Execute(env, accts, tx);
            x.outcome.Ok? && At(x.accounts, env.createAddress(tx.from, 0)).code != tx.data
  {
    DeployedCodeExactly(env, map[tx.from := Blank(tx.from).(balance := balance)], tx);
  }
}

/** The executor on the heap: every account operation is a GetAccount, a change to the copy and a SetAccount. */
module Executors {
  import opened Word64
  import opened Results
  import opened AccountModel
  import opened StateManagers
  import X = ExecutorModel

  /** The state wrapper handed to one transaction. */
  class AccountState {
    const sm: StateManager

    constructor (sm: StateManager)
      ensures this.sm == sm
    {
      this.sm := sm;
    }

    method SubBalance(addr: Address, amount: int)
      requires sm.Valid()
      modifies sm`accounts, sm`live, sm`world
      ensures sm.Valid() && fresh(sm.live - old(sm.live))
      ensures sm.world == old(sm.world).(accounts := X.SubBalance(old(sm.world).accounts, addr, amount))
    {
      var r := sm.GetAccount(addr);
      if r.None? {
        return;
      }
      r.value.balance.value := r.value.balance.value - amount;
      sm.SetAccount(addr, r.value);
    }

    method AddBalance(addr: Address, amount: int)
      requires sm.Valid()
      modifies sm`accounts, sm`live, sm`world
      ensures sm.Valid() && fresh(sm.live - old(sm.live))
      ensures sm.world == old(sm.world).(accounts := X.AddBalance(old(sm.world).accounts, addr, amount))
    {
      var account := sm.GetOrBlank(addr);
      account.balance.value := account.balance.value + amount;
      sm.SetAccount(addr, account);
    }

    /** TransferSimple. */
    method Transfer(from: Address, to: Address, amount: int)
      requires sm.Valid()
      modifies sm`accounts, sm`live, sm`world
      ensures sm.Valid() && fresh(sm.live - old(sm.live))
      ensures sm.world == old(sm.world).(accounts :=
                X.AddBalance(X.SubBalance(old(sm.world).accounts, from, amount), to, amount))
    {
      SubBalance(from, amount);
      AddBalance(to, amount);
    }

    method GetAcct(addr: Address) returns (a: Acct)
      requires sm.Valid()
      ensures a == At(sm.world.accounts, addr)
    {
      var account := sm.GetOrBlank(addr);
      a := account.Value();
    }

    method BumpNonce(addr: Address)
      requires sm.Valid()
      modifies sm`accounts, sm`live, sm`world
      ensures sm.Valid() && fresh(sm.live - old(sm.live))
      ensures sm.world == old(sm.world).(accounts := X.BumpNonce(old(sm.world).accounts, addr))
    {
      var r := sm.GetAccount(addr);
      if r.None? {
        return;
      }
      r.value.nonce := Add(r.value.nonce, 1);
      sm.SetAccount(addr, r.value);
    }

    method SetCode(keccak: Bytes -> Bytes, addr: Address, code: Bytes)
      requires sm.Valid()
      modifies sm`accounts, sm`live, sm`world
      ensures sm.Valid() && fresh(sm.live - old(sm.live))
      ensures sm.world == old(sm.world).(accounts := X.SetCode(keccak, old(sm.world).accounts, addr, code))
    {
      var r := sm.GetAccount(addr);
      if r.None? {
        return;
      }
      r.value.code := code;
      r.value.codeHash := keccak(code);
      assert r.value.Value() == old(sm.world.accounts[addr]).(code := code, codeHash := keccak(code));
      sm.SetAccount(addr, r.value);
    }
  }

  /** CalculateIntrinsicGas: the loop over the data. */
  method CalculateIntrinsicGas(data: Bytes, creation: bool) returns (gas: u64)
    ensures gas == X.IntrinsicGas(data, creation)
  {
    gas := X.BASE_COST;
    if creation {
      gas := gas + X.CREATION_COST;
    }
    ghost var start := gas;
    var i := 0;
    while i < |data|
      invariant 0 <= i <= |data| && gas == (start + X.DataGas(data[..i])) % MOD
    {
      assert data[..i + 1][..i] == data[..i];
      AddReduced(start + X.DataGas(data[..i]), if data[i] == 0 then 4 else 16);
      gas := Add(gas, if data[i] == 0 then 4 else 16);
      i := i + 1;
    }
    assert data[..i] == data;
  }

  class EvmExecutor {
    const sm: StateManager
    const env: X.Env

    constructor (sm: StateManager, env: X.Env)
      ensures this.sm == sm && this.env == env
    {
      this.sm, this.env := sm, env;
    }

    method DeployContract(state: AccountState, tx: X.Tx) returns (receipt: X.Receipt)
      requires state.sm == sm && sm.Valid()
      modifies sm`accounts, sm`live, sm`world
      ensures sm.Valid() && fresh(sm.live - old(sm.live))
      ensures sm.world == old(sm.world).(accounts := X.Deploy(env, old(sm.world).accounts, tx).0)
      ensures receipt == X.Deploy(env, old(sm.world).accounts, tx).1
    {
      var sender := state.GetAcct(tx.from);
      var addr := env.createAddress(tx.from, sender.nonce);
      state.BumpNonce(tx.from);
      var gasUsed := CalculateIntrinsicGas(tx.data, true);
      if tx.gasLimit > gasUsed {
        gasUsed := tx.gasLimit;
      }
      receipt := X.Receipt(gasUsed, false, Some(addr));
      state.SetCode(env.keccak, addr, tx.data);
    }

    method CallContract(state: AccountState, tx: X.Tx, to: Address) returns (receipt: X.Receipt)
      requires state.sm == sm && sm.Valid()
      modifies sm`accounts, sm`live, sm`world
      ensures sm.Valid() && fresh(sm.live - old(sm.live))
      ensures sm.world == old(sm.world).(accounts := X.Call(old(sm.world).accounts, tx, to).0)
      ensures receipt == X.Call(old(sm.world).accounts, tx, to).1
    {
      state.BumpNonce(tx.from);
      if tx.Value() > 0 {
        var sender := state.GetAcct(tx.from);
        if sender.balance < tx.Value() {
          return X.Receipt(tx.gasLimit, true, None);
        }
        state.Transfer(tx.from, to, tx.Value());
      }
      var target := state.GetAcct(to);
      var gasUsed := CalculateIntrinsicGas(tx.data, false);
      gasUsed := Add(gasUsed, (3 * |target.code|) % MOD);
      if gasUsed > tx.gasLimit {
        gasUsed := tx.gasLimit;
      }
      receipt := X.Receipt(gasUsed, false, None);
    }

    /** ExecuteTransaction. */
    method ExecuteTransaction(t: Option<X.Tx>) returns (r: Result<X.Receipt, X.Error>)
      requires sm.Valid()
      modifies sm`accounts, sm`live, sm`world
      ensures sm.Valid() && fresh(sm.live - old(sm.live))
      ensures t.None? ==> r == Err(X.NoTransaction) && sm.world == old(sm.world)
      ensures t.Some? ==>
                var x := X.Execute(env, old(sm.world).accounts, t.value);
                r == x.outcome && sm.world == old(sm.world).(accounts := x.accounts)
    {
      if t.None? {
        return Err(X.NoTransaction);
      }
      var tx := t.value;
      var invalid := X.Validate(env, tx);
      if invalid.Some? {
        return Err(invalid.value);
      }
      var state := new AccountState(sm);
      var intrinsicGas := CalculateIntrinsicGas(tx.data, tx.to.None?);
      if tx.gasLimit < intrinsicGas {
        return Err(X.OutOfGas);
      }
      var gasCost := tx.gasLimit * tx.Price();
      var sender := state.GetAcct(tx.from);
      if sender.balance < tx.Value() + gasCost {
        return Err(X.InsufficientBalance);
      }
      state.SubBalance(tx.from, gasCost);
      var receipt;
      if tx.to.None? {
        receipt := DeployContract(state, tx);
      } else {
        receipt := CallContract(state, tx, tx.to.value);
      }
      if !receipt.failed {
        var unusedGas := Sub(tx.gasLimit, receipt.gasUsed);
        state.AddBalance(tx.from, unusedGas * tx.Price());
      }
      r := Ok(receipt);
    }
  }
}
