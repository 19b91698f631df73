/** The account store of pkg/aal/state.go on the heap: accounts are objects, some methods write into them in
    place, and snapshots hold copies. What has to hold is ownership: no object reachable from a
    snapshot is ever a live account, so no later write can reach it. */
module StateManagers {
  import opened Word64
  import opened Results
  import opened AccountModel
  import opened AccountReads

  /** A big.Int, which is written in place. */
  class BigInt {
    var value: int

    constructor (value: int)
      ensures this.value == value
    {
      this.value := value;
    }
  }

  /** A Go map, which is shared by whoever holds it. */
  class Storage {
    var entries: map<Hash32, Hash32>

    constructor ()
      ensures entries == map[]
    {
      entries := map[];
    }

    /** The copy loop of cloneAccount. */
    method Clone() returns (copy: Storage)
      ensures fresh(copy) && copy.entries == entries
    {
      copy := new Storage();
      var keys := entries.Keys;
      while keys != {}
        invariant keys <= entries.Keys && copy.entries.Keys == entries.Keys - keys
        invariant forall k :: k in copy.entries ==> copy.entries[k] == entries[k]
        decreases keys
      {
        var k :| k in keys;
        copy.entries := copy.entries[k := entries[k]];
        keys := keys - {k};
      }
      assert copy.entries == entries;
    }
  }

  /** An account is made of three objects: its record, its balance and its storage. */
  class Account {
    const address: Address
    const balance: BigInt
    const storage: Storage
    var nonce: u64
    var codeHash: Bytes
    var code: Bytes

    constructor (address: Address)
      ensures Value() == Blank(address) && fresh(balance) && fresh(storage)
    {
      this.address := address;
      balance := new BigInt(0);
      storage := new Storage();
      nonce, codeHash, code := 0, [], [];
    }

    constructor Of(address: Address, balance: BigInt, storage: Storage, nonce: u64, codeHash: Bytes, code: Bytes)
      ensures this.address == address && this.balance == balance && this.storage == storage
      ensures this.nonce == nonce && this.codeHash == codeHash && this.code == code
    {
      this.address, this.balance, this.storage := address, balance, storage;
      this.nonce, this.codeHash, this.code := nonce, codeHash, code;
    }

    function Value(): Acct
      reads this, balance, storage
    {
      Acct(address, balance.value, nonce, codeHash, code, storage.entries)
    }

    /** cloneAccount: nothing that can be written to is shared with the copy. */
    method Clone() returns (copy: Account)
      ensures fresh(copy) && fresh(copy.balance) && fresh(copy.storage) && copy.Value() == Value()
    {
      var amount := new BigInt(balance.value);
      var stored := storage.Clone();
      copy := new Account.Of(address, amount, stored, nonce, codeHash, code);
    }
  }

  /** A stored snapshot: its own account objects and the root at the time. */
  datatype Snapshot = Snapshot(accounts: map<Address, Account>, root: Hash32)

  /** All that an account is made of belongs to the set. */
  ghost predicate Owned(account: Account, objects: set<object>) {
    account in objects && account.balance in objects && account.storage in objects
  }

  /** The account object at an address, if any, belongs to the set and has the given value. */
  ghost predicate Entry(accounts: map<Address, Account>, values: Accounts, objects: set<object>, a: Address)
    reads objects
  {
    a in accounts ==> Owned(accounts[a], objects) && a in values && accounts[a].Value() == values[a]
  }

  /** Accounts at different addresses share nothing. */
  ghost predicate Apart(accounts: map<Address, Account>, a: Address, b: Address) {
    a in accounts && b in accounts && a != b ==>
      var x, y := accounts[a], accounts[b];
      x != y && x.balance != y.balance && x.storage != y.storage
  }

  /** The objects in the set make up accounts with the given values, each of its own. */
  ghost predicate Live(accounts: map<Address, Account>, values: Accounts, objects: set<object>)
    reads objects
  {
    && accounts.Keys == values.Keys
    && (forall a :: Entry(accounts, values, objects, a))
    && (forall a, b :: Apart(accounts, a, b))
  }

  ghost predicate SnapshotEntry(snapshots: map<nat, Snapshot>, saved: map<nat, Saved>, objects: set<object>, s: nat)
    reads objects
  {
    s in snapshots ==>
      s in saved && snapshots[s].root == saved[s].root && Live(snapshots[s].accounts, saved[s].accounts, objects)
  }

  /** The same of the stored snapshots. */
  ghost predicate Kept(snapshots: map<nat, Snapshot>, saved: map<nat, Saved>, objects: set<object>)
    reads objects
  {
    snapshots.Keys == saved.Keys && forall s :: SnapshotEntry(snapshots, saved, objects, s)
  }

  lemma LiveMore(accounts: map<Address, Account>, values: Accounts, objects: set<object>, more: set<object>)
    requires Live(accounts, values, objects) && objects <= more
    ensures Live(accounts, values, more)
  {
    forall a ensures Entry(accounts, values, more, a) {
      assert Entry(accounts, values, objects, a);
    }
  }

  lemma LiveAdd(accounts: map<Address, Account>, values: Accounts, objects: set<object>, addr: Address, account: Account)
    requires Live(accounts, values, objects)
    requires account !in objects && account.balance !in objects && account.storage !in objects
    ensures Live(accounts[addr := account], values[addr := account.Value()],
                 objects + {account, account.balance, account.storage})
  {
    var accounts', values' := accounts[addr := account], values[addr := account.Value()];
    var objects' := objects + {account, account.balance, account.storage};
    forall a ensures Entry(accounts', values', objects', a) {
      assert Entry(accounts, values, objects, a);
    }
    forall a, b ensures Apart(accounts', a, b) {
      assert Apart(accounts, a, b) && Entry(accounts, values, objects, a) && Entry(accounts, values, objects, b);
    }
  }

  lemma LiveRemove(accounts: map<Address, Account>, values: Accounts, objects: set<object>, addr: Address)
    requires Live(accounts, values, objects)
    ensures Live(accounts - {addr}, values - {addr}, objects)
  {
    forall a ensures Entry(accounts - {addr}, values - {addr}, objects, a) {
      assert Entry(accounts, values, objects, a);
    }
    forall a, b ensures Apart(accounts - {addr}, a, b) {
      assert Apart(accounts, a, b);
    }
  }

  lemma KeptMore(snapshots: map<nat, Snapshot>, saved: map<nat, Saved>, objects: set<object>, more: set<object>)
    requires Kept(snapshots, saved, objects) && objects <= more
    ensures Kept(snapshots, saved, more)
  {
    forall s ensures SnapshotEntry(snapshots, saved, more, s) {
      assert SnapshotEntry(snapshots, saved, objects, s);
      if s in snapshots { LiveMore(snapshots[s].accounts, saved[s].accounts, objects, more); }
    }
  }

  lemma KeptAdd(snapshots: map<nat, Snapshot>, saved: map<nat, Saved>, objects: set<object>, id: nat, snapshot: Snapshot, value: Saved)
    requires Kept(snapshots, saved, objects) && Live(snapshot.accounts, value.accounts, objects) && snapshot.root == value.root
    ensures Kept(snapshots[id := snapshot], saved[id := value], objects)
  {
    var snapshots', saved' := snapshots[id := snapshot], saved[id := value];
    forall s ensures SnapshotEntry(snapshots', saved', objects, s) {
      assert SnapshotEntry(snapshots, saved, objects, s);
    }
  }

  lemma KeptOlder(snapshots: map<nat, Snapshot>, saved: map<nat, Saved>, objects: set<object>, id: int)
    requires Kept(snapshots, saved, objects)
    ensures Kept(Older(snapshots, id), Older(saved, id), objects)
  {
    forall s ensures SnapshotEntry(Older(snapshots, id), Older(saved, id), objects, s) {
      assert SnapshotEntry(snapshots, saved, objects, s);
    }
  }

  /** The loop of RevertToSnapshot that forgets a snapshot and all later ones. */
  method DropFrom(snapshots: map<nat, Snapshot>, id: int) returns (rest: map<nat, Snapshot>)
    ensures rest == Older(snapshots, id)
  {
    rest := snapshots;
    var ids := snapshots.Keys;
    while ids != {}
      invariant ids <= snapshots.Keys && rest.Keys <= snapshots.Keys
      invariant forall s :: s in snapshots ==> (s in rest <==> s in ids || s < id)
      invariant forall s :: s in rest ==> rest[s] == snapshots[s]
      decreases ids
    {
      var s :| s in ids;
      if s >= id {
        rest := rest - {s};
      }
      ids := ids - {s};
    }
  }

  /** The copy loop of Snapshot and RevertToSnapshot. */
  method CloneAll(accounts: map<Address, Account>, ghost values: Accounts, ghost objects: set<object>)
      returns (copies: map<Address, Account>, ghost made: set<object>)
    requires Live(accounts, values, objects)
    ensures fresh(made) && Live(copies, values, made)
  {
    copies, made := map[], {};
    ghost var done: Accounts := map[];
    var addrs := accounts.Keys;
    while addrs != {}
      invariant addrs <= accounts.Keys && copies.Keys == accounts.Keys - addrs
      invariant forall a :: a in done ==> a in values && done[a] == values[a]
      invariant fresh(made) && Live(copies, done, made)
      decreases addrs
    {
      var a :| a in addrs;
      assert Entry(accounts, values, objects, a);
      var copy := accounts[a].Clone();
      LiveAdd(copies, done, made, a, copy);
      copies, done := copies[a := copy], done[a := values[a]];
      made := made + {copy, copy.balance, copy.storage};
      addrs := addrs - {a};
    }
    assert done == values;
  }

  class StateManager {
    const keccak: Bytes -> Bytes
    var accounts: map<Address, Account>
    var snapshots: map<nat, Snapshot>
    var snapshotID: nat
    var stateRoot: Hash32
    ghost var world: World         // the values all of this stands for
    ghost var live: set<object>    // what live accounts are made of
    ghost var kept: set<object>    // what snapshots are made of

    constructor (keccak: Bytes -> Bytes)
      ensures Valid() && world == GENESIS && this.keccak == keccak && live == {} && kept == {}
    {
      this.keccak := keccak;
      accounts, snapshots, snapshotID, stateRoot := map[], map[], 0, 0;
      world, live, kept := GENESIS, {}, {};
    }

    /** Ownership: live accounts share no object with each other or with any snapshot. */
    ghost predicate Valid()
      reads this, live, kept
    {
      && Live(accounts, world.accounts, live)
      && Kept(snapshots, world.saved, kept)
      && snapshotID == world.lastId && stateRoot == world.root
      && live !! kept && this !in live && this !in kept
    }

    /** GetAccount gives out a copy. */
    method GetAccount(addr: Address) returns (r: Option<Account>)
      requires Valid()
      ensures r.Some? <==> addr in world.accounts
      ensures r.Some? ==> fresh(r.value) && fresh(r.value.balance) && fresh(r.value.storage)
                          && r.value.Value() == world.accounts[addr]
    {
      if addr !in accounts {
        return None;
      }
      assert Entry(accounts, world.accounts, live, addr);
      var copy := accounts[addr].Clone();
      r := Some(copy);
    }

    /** A copy of the account, or a blank one where there is none. */
    method GetOrBlank(addr: Address) returns (account: Account)
      requires Valid()
      ensures fresh(account) && fresh(account.balance) && fresh(account.storage)
      ensures account.Value() == At(world.accounts, addr)
    {
      var r := GetAccount(addr);
      if r.None? {
        account := new Account(addr);
      } else {
        account := r.value;
      }
    }

    /** GetStorage. */
    method GetStorage(addr: Address, key: Hash32) returns (value: Hash32)
      requires Valid()
      ensures value == SlotAt(world.accounts, addr, key)
    {
      if addr !in accounts {
        return 0;
      }
      assert Entry(accounts, world.accounts, live, addr);
      var entries := accounts[addr].storage.entries;
      value := if key in entries then entries[key] else 0;
    }

    /** Makes an account object that nobody else holds the live account at an address. */
    method TakeIn(addr: Address, account: Account)
      requires Valid() && account !in live + kept && account.balance !in live + kept && account.storage !in live + kept
      modifies this`accounts, this`live, this`world
      ensures Valid() && world == SetTo(old(world), addr, account.Value())
      ensures addr in accounts && accounts[addr] == account
      ensures live == old(live) + {account, account.balance, account.storage}
    {
      LiveAdd(accounts, world.accounts, live, addr, account);
      accounts, live := accounts[addr := account], live + {account, account.balance, account.storage};
      world := SetTo(world, addr, account.Value());
    }

    /** SetAccount takes a copy in. */
    method SetAccount(addr: Address, account: Account)
      requires Valid()
      modifies this`accounts, this`live, this`world
      ensures Valid() && world == SetTo(old(world), addr, account.Value())
      ensures fresh(live - old(live))
    {
      var copy := account.Clone();
      TakeIn(addr, copy);
    }

    method DeleteAccount(addr: Address)
      requires Valid()
      modifies this`accounts, this`world
      ensures Valid() && world == old(world).(accounts := old(world).accounts - {addr})
    {
      LiveRemove(accounts, world.accounts, live, addr);
      accounts := accounts - {addr};
      world := world.(accounts := world.accounts - {addr});
    }

    /** The live account object at an address, made if there is none. */
    method LiveAccount(addr: Address) returns (account: Account)
      requires Valid()
      modifies this`accounts, this`live, this`world
      ensures Valid() && fresh(live - old(live))
      ensures addr in accounts && accounts[addr] == account && Owned(account, live)
      ensures world == SetTo(old(world), addr, At(old(world).accounts, addr))
    {
      if addr in accounts {
        account := accounts[addr];
        assert Entry(accounts, world.accounts, live, addr);
        assert SetTo(world, addr, world.accounts[addr]) == world;
      } else {
        account := new Account(addr);
        TakeIn(addr, account);
      }
    }

    /** The in-place write of SetStorage. */
    method StoreInto(account: Account, addr: Address, key: Hash32, value: Hash32)
      requires Valid() && addr in accounts && accounts[addr] == account
      modifies account.storage, this`world
      ensures Valid() && world == SetTo(old(world), addr, Stored(old(world).accounts[addr], key, value))
    {
      assert Entry(accounts, world.accounts, live, addr);
      account.storage.entries := account.storage.entries[key := value];
      world := SetTo(world, addr, Stored(world.accounts[addr], key, value));
      forall a ensures Entry(accounts, world.accounts, live, a) {
        assert old(Entry(accounts, world.accounts, live, a)) && Apart(accounts, addr, a);
      }
    }

    /** The in-place write of SetCode. */
    method CodeInto(account: Account, addr: Address, code: Bytes)
      requires Valid() && addr in accounts && accounts[addr] == account
      modifies account, this`world
      ensures Valid() && world == SetTo(old(world), addr, Coded(keccak, old(world).accounts[addr], code))
    {
      assert Entry(accounts, world.accounts, live, addr);
      account.code := code;
      account.codeHash := if |code| > 0 then keccak(code) else [];
      world := SetTo(world, addr, Coded(keccak, world.accounts[addr], code));
      forall a ensures Entry(accounts, world.accounts, live, a) {
        assert old(Entry(accounts, world.accounts, live, a)) && Apart(accounts, addr, a);
      }
    }

    /** SetStorage writes into the storage of the live account. */
    method SetStorage(addr: Address, key: Hash32, value: Hash32)
      requires Valid()
      modifies this`accounts, this`live, this`world, live
      ensures Valid() && world == SetTo(old(world), addr, Stored(At(old(world).accounts, addr), key, value))
      ensures forall a, k :: SlotAt(world.accounts, a, k)
                          == if a == addr && k == key then value else SlotAt(old(world).accounts, a, k)
      ensures fresh(live - old(live))
    {
      StoreReads(keccak, world, addr, key, value);
      var account := LiveAccount(addr);
      StoreInto(account, addr, key, value);
    }

    /** SetCode writes into the live account. */
    method SetCode(addr: Address, code: Bytes)
      requires Valid()
      modifies this`accounts, this`live, this`world, live
      ensures Valid() && world == SetTo(old(world), addr, Coded(keccak, At(old(world).accounts, addr), code))
      ensures fresh(live - old(live))
    {
      var account := LiveAccount(addr);
      CodeInto(account, addr, code);
    }

    method SetNonce(addr: Address, nonce: u64) returns (found: bool)
      requires Valid()
      modifies this`accounts, this`live, this`world
      ensures Valid() && world == Apply(keccak, old(world), PutNonce(addr, nonce))
      ensures fresh(live - old(live)) && (found <==> addr in old(world).accounts)
    {
      var r := GetAccount(addr);
      if r.None? {
        return false;
      }
      r.value.nonce := nonce;
      SetAccount(addr, r.value);
      found := true;
    }

    method SetBalance(addr: Address, balance: int)
      requires Valid()
      modifies this`accounts, this`live, this`world
      ensures Valid() && world == SetTo(old(world), addr, At(old(world).accounts, addr).(balance := balance))
      ensures fresh(live - old(live))
    {
      var account := GetOrBlank(addr);
      account.balance.value := balance;
      SetAccount(addr, account);
    }

    /** Snapshot copies every live account. */
    method TakeSnapshot() returns (id: nat)
      requires Valid()
      modifies this`snapshots, this`snapshotID, this`kept, this`world
      ensures Valid() && world == Snapped(old(world)) && id == snapshotID
      ensures fresh(kept - old(kept))
    {
      var copies, made := CloneAll(accounts, world.accounts, live);
      id := snapshotID + 1;
      KeptMore(snapshots, world.saved, kept, kept + made);
      LiveMore(copies, world.accounts, made, kept + made);
      KeptAdd(snapshots, world.saved, kept + made, id, Snapshot(copies, stateRoot), Saved(world.accounts, world.root));
      snapshotID, snapshots, kept := id, snapshots[id := Snapshot(copies, stateRoot)], kept + made;
      world := Snapped(world);
    }

    /** The assignments of RevertToSnapshot. */
    method Install(id: nat, copies: map<Address, Account>, ghost made: set<object>, root: Hash32, older: map<nat, Snapshot>)
      requires Valid() && id in world.saved && older == Older(snapshots, id) && root == world.saved[id].root
      requires Live(copies, world.saved[id].accounts, made) && made !! kept && this !in made
      modifies this`accounts, this`snapshots, this`stateRoot, this`live, this`world
      ensures Valid() && world == Reverted(old(world), id) && live == old(live) + made
    {
      LiveMore(copies, world.saved[id].accounts, made, live + made);
      KeptOlder(snapshots, world.saved, kept, id);
      accounts, live, stateRoot, snapshots := copies, live + made, root, older;
      world := Reverted(world, id);
    }

    /** RevertToSnapshot copies the stored accounts back and forgets this snapshot and all later ones. */
    method RevertToSnapshot(id: int)
      requires Valid()
      modifies this`accounts, this`snapshots, this`stateRoot, this`live, this`world
      ensures Valid() && world == Reverted(old(world), id)
      ensures fresh(live - old(live))
    {
      if id !in snapshots {
        return;
      }
      var snapshot := snapshots[id];
      assert SnapshotEntry(snapshots, world.saved, kept, id);
      var copies, made := CloneAll(snapshot.accounts, world.saved[id].accounts, kept);
      var older := DropFrom(snapshots, id);
      Install(id, copies, made, snapshot.root, older);
    }
  }
}
