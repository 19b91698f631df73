/** What is read back from the account store after writes to it. */
module AccountReads {
  import opened Word64
  import opened AccountModel

  /** GetStorage: the zero hash where nothing was stored. */
  function SlotAt(accts: Accounts, a: Address, key: Hash32): Hash32 {
    if a in accts && key in accts[a].storage then accts[a].storage[key] else 0
  }

  /** What else can be read of an account; where there is none, what GetBalance, GetNonce and GetCode answer. */
  datatype Rest = Rest(balance: int, nonce: u64, code: Bytes, codeHash: Bytes)

  function RestAt(accts: Accounts, a: Address): Rest {
    if a in accts then Rest(accts[a].balance, accts[a].nonce, accts[a].code, accts[a].codeHash) else Rest(0, 0, [], [])
  }

  /** All other accounts are as they were, and so are the snapshots and the root. */
  ghost predicate OthersStay(w: World, w': World, addr: Address) {
    w'.accounts - {addr} == w.accounts - {addr} && w' == w.(accounts := w'.accounts)
  }

  /** All slots of all accounts read as they did. */
  ghost predicate SlotsStay(w: World, w': World) {
    forall a, k :: SlotAt(w'.accounts, a, k) == SlotAt(w.accounts, a, k)
  }

  /** SetStorage writes one slot: it reads the value, every other slot of every account reads as before, and so does
      everything else of that account. */
  lemma StoreReads(keccak: Bytes -> Bytes, w: World, addr: Address, key: Hash32, value: Hash32)
    ensures var w' := Apply(keccak, w, StoreAt(addr, key, value));
            && OthersStay(w, w', addr) && addr in w'.accounts && w'.accounts.Keys == w.accounts.Keys + {addr}
            && (forall a, k :: SlotAt(w'.accounts, a, k) == if a == addr && k == key then value else SlotAt(w.accounts, a, k))
            && RestAt(w'.accounts, addr) == RestAt(w.accounts, addr)
            && w'.accounts[addr].address == (if addr in w.accounts then w.accounts[addr].address else addr)
  {
  }

  lemma CodeReads(keccak: Bytes -> Bytes, w: World, addr: Address, code: Bytes)
    ensures var w' := Apply(keccak, w, PutCode(addr, code));
            && OthersStay(w, w', addr) && addr in w'.accounts && SlotsStay(w, w')
            && RestAt(w'.accounts, addr)
                 == RestAt(w.accounts, addr).(code := code, codeHash := if code == [] then [] else keccak(code))
  {
  }

  /** SetNonce does nothing where there is no account. */
  lemma NonceReads(keccak: Bytes -> Bytes, w: World, addr: Address, nonce: u64)
    ensures var w' := Apply(keccak, w, PutNonce(addr, nonce));
            && OthersStay(w, w', addr) && (addr in w'.accounts <==> addr in w.accounts) && SlotsStay(w, w')
            && (addr in w.accounts ==> RestAt(w'.accounts, addr) == RestAt(w.accounts, addr).(nonce := nonce))
  {
  }

  lemma BalanceReads(keccak: Bytes -> Bytes, w: World, addr: Address, balance: int)
    ensures var w' := Apply(keccak, w, PutBalance(addr, balance));
            && OthersStay(w, w', addr) && addr in w'.accounts && SlotsStay(w, w')
            && RestAt(w'.accounts, addr) == RestAt(w.accounts, addr).(balance := balance)
  {
  }

  /** SetAccount and DeleteAccount replace or remove one account whole. */
  lemma PutReads(keccak: Bytes -> Bytes, w: World, addr: Address, account: Acct)
    ensures var w' := Apply(keccak, w, Put(addr, account));
            OthersStay(w, w', addr) && addr in w'.accounts && w'.accounts[addr] == account
  {
  }

  lemma DeleteReads(keccak: Bytes -> Bytes, w: World, addr: Address)
    ensures var w' := Apply(keccak, w, Delete(addr)); OthersStay(w, w', addr) && addr !in w'.accounts
  {
  }

  // ---------------------------------------------------------------- whole runs

  /** The value of a slot after a change, from its value before and that change alone. A revert is the one change that
      needs to know more. */
  function Written(c: Change, a: Address, key: Hash32, was: Hash32): Hash32 {
    match c
    case StoreAt(addr, k, value) => if addr == a && k == key then value else was
    case Put(addr, account) => if addr == a then (if key in account.storage then account.storage[key] else 0) else was
    case Delete(addr) => if addr == a then 0 else was
    case Clear => 0
    case _ => was
  }

  /** The last value written to a slot by a run of changes. */
  function LastWritten(cs: seq<Change>, a: Address, key: Hash32, was: Hash32): Hash32
    decreases |cs|
  {
    if cs == [] then was else LastWritten(cs[1..], a, key, Written(cs[0], a, key, was))
  }

  lemma ChangeReads(keccak: Bytes -> Bytes, w: World, c: Change, a: Address, key: Hash32)
    requires !c.Revert?
    ensures SlotAt(Apply(keccak, w, c).accounts, a, key) == Written(c, a, key, SlotAt(w.accounts, a, key))
  {
  }

  /** Over every run without a revert, a slot reads the last value written to it. */
  lemma {:induction false} RunReads(keccak: Bytes -> Bytes, w: World, cs: seq<Change>, a: Address, key: Hash32)
    requires forall i :: 0 <= i < |cs| ==> !cs[i].Revert?
    ensures SlotAt(Run(keccak, w, cs).accounts, a, key) == LastWritten(cs, a, key, SlotAt(w.accounts, a, key))
    decreases |cs|
  {
    if cs != [] {
      ChangeReads(keccak, w, cs[0], a, key);
      RunReads(keccak, Apply(keccak, w, cs[0]), cs[1..], a, key);
    }
  }

  /** And after reverting to a snapshot that is still live, it reads the last value written since, starting from the
      one it had when the snapshot was taken. */
  lemma RevertReads(keccak: Bytes -> Bytes, w: World, cs: seq<Change>, ds: seq<Change>, a: Address, key: Hash32)
    requires Numbered(w) && forall i :: 0 <= i < |ds| ==> !ds[i].Revert?
    requires w.lastId + 1 in Run(keccak, Apply(keccak, w, TakeSnapshot), cs).saved
    ensures var late := Run(keccak, Apply(keccak, w, TakeSnapshot), cs);
            SlotAt(Run(keccak, late, [Revert(w.lastId + 1)] + ds).accounts, a, key)
            == LastWritten(ds, a, key, SlotAt(w.accounts, a, key))
  {
    var late := Run(keccak, Apply(keccak, w, TakeSnapshot), cs);
    RevertRestores(keccak, w, cs);
    var ops := [Revert(w.lastId + 1)] + ds;
    assert ops[0] == Revert(w.lastId + 1) && ops[1..] == ds;
    RunReads(keccak, Apply(keccak, late, Revert(w.lastId + 1)), ds, a, key);
  }
}
