/** Account state with nested snapshots (pkg/aal/state.go) as values, and what snapshots promise. */
module AccountModel {
  import opened Word64

  type Address = nat   // 0 is Go's zero address
  type Hash32 = nat
  type Bytes = seq<int>

  datatype Acct = Acct(address: Address, balance: int, nonce: u64, codeHash: Bytes, code: Bytes, storage: map<Hash32, Hash32>)

  type Accounts = map<Address, Acct>

  function Blank(addr: Address): Acct { Acct(addr, 0, 0, [], [], map[]) }

  /** The account at an address, or the empty one the source makes up where there is none. */
  function At(accts: Accounts, addr: Address): Acct {
    if addr in accts then accts[addr] else Blank(addr)
  }

  datatype Saved = Saved(accounts: Accounts, root: Hash32)

  /** Live accounts, stored snapshots, the last snapshot id given out, the state root. */
  datatype World = World(accounts: Accounts, saved: map<nat, Saved>, lastId: nat, root: Hash32)

  const GENESIS: World := World(map[], map[], 0, 0)

  /** SetCode keeps the hash of non-empty code only. */
  function CodeHash(keccak: Bytes -> Bytes, code: Bytes): Bytes { if |code| > 0 then keccak(code) else [] }

  datatype Change =
    | Put(addr: Address, account: Acct)
    | Delete(addr: Address)
    | StoreAt(addr: Address, key: Hash32, value: Hash32)
    | PutCode(addr: Address, code: Bytes)
    | PutNonce(addr: Address, nonce: u64)
    | PutBalance(addr: Address, balance: int)
    | PutRoot(root: Hash32)
    | Clear
    | TakeSnapshot
    | Revert(id: int)

  /** The entries numbered below id. */
  function Older<V>(m: map<nat, V>, id: int): map<nat, V> { map s | s in m && s < id :: m[s] }

  function SetTo(w: World, addr: Address, a: Acct): World { w.(accounts := w.accounts[addr := a]) }

  function Stored(a: Acct, key: Hash32, value: Hash32): Acct { a.(storage := a.storage[key := value]) }

  function Coded(keccak: Bytes -> Bytes, a: Acct, code: Bytes): Acct { a.(code := code, codeHash := CodeHash(keccak, code)) }

  function Snapped(w: World): World {
    w.(saved := w.saved[w.lastId + 1 := Saved(w.accounts, w.root)], lastId := w.lastId + 1)
  }

  function Reverted(w: World, id: int): World {
    if id in w.saved then World(w.saved[id].accounts, Older(w.saved, id), w.lastId, w.saved[id].root) else w
  }

  function Apply(keccak: Bytes -> Bytes, w: World, c: Change): World {
    match c
    case Put(addr, account) => SetTo(w, addr, account)
    case Delete(addr) => w.(accounts := w.accounts - {addr})
    case StoreAt(addr, key, value) => SetTo(w, addr, Stored(At(w.accounts, addr), key, value))
    case PutCode(addr, code) => SetTo(w, addr, Coded(keccak, At(w.accounts, addr), code))
    case PutNonce(addr, nonce) =>
      if addr in w.accounts then SetTo(w, addr, w.accounts[addr].(nonce := nonce)) else w
    case PutBalance(addr, balance) => SetTo(w, addr, At(w.accounts, addr).(balance := balance))
    case PutRoot(root) => w.(root := root)
    case Clear => w.(accounts := map[])
    case TakeSnapshot => Snapped(w)
    case Revert(id) => Reverted(w, id)
  }

  function Run(keccak: Bytes -> Bytes, w: World, cs: seq<Change>): World
    decreases |cs|
  {
    if cs == [] then w else Run(keccak, Apply(keccak, w, cs[0]), cs[1..])
  }

  /** Snapshot ids are never ahead of the counter. */
  ghost predicate Numbered(w: World) { forall s :: s in w.saved ==> s <= w.lastId }

  /** As long as snapshot `id` of w is live in w', it and everything older is as it was in w. */
  ghost predicate Remembers(w: World, id: int, w': World) {
    && Numbered(w') && id <= w'.lastId
    && (id in w'.saved ==>
          && w'.saved[id] == Saved(w.accounts, w.root)
          && forall s :: s < id ==> (s in w'.saved <==> s in w.saved) && (s in w.saved ==> w'.saved[s] == w.saved[s]))
  }

  lemma {:induction false} RunRemembers(keccak: Bytes -> Bytes, w: World, id: int, w': World, cs: seq<Change>)
    requires Remembers(w, id, w')
    ensures Remembers(w, id, Run(keccak, w', cs))
    decreases |cs|
  {
    if cs != [] {
      assert Remembers(w, id, Apply(keccak, w', cs[0]));
      RunRemembers(keccak, w, id, Apply(keccak, w', cs[0]), cs[1..]);
    }
  }

  /** Snapshots undo everything: after any changes, further snapshots and reverts, reverting to a snapshot
      that is still live gives back exactly the world it was taken in: accounts, root and all older
      snapshots. Only the id counter has moved on. */
  lemma RevertRestores(keccak: Bytes -> Bytes, w: World, cs: seq<Change>)
    requires Numbered(w)
    ensures var id := w.lastId + 1;
            var late := Run(keccak, Apply(keccak, w, TakeSnapshot), cs);
            id in late.saved ==> Apply(keccak, late, Revert(id)) == w.(lastId := late.lastId)
  {
    var id, taken := w.lastId + 1, Apply(keccak, w, TakeSnapshot);
    assert Remembers(w, id, taken);
    RunRemembers(keccak, w, id, taken, cs);
    var late := Run(keccak, taken, cs);
    if id in late.saved {
      assert Apply(keccak, late, Revert(id)).saved == w.saved;
    }
  }

  /** Ids are never used again: a snapshot that is gone stays gone. */
  lemma {:induction false} GoneStaysGone(keccak: Bytes -> Bytes, w: World, id: nat, cs: seq<Change>)
    requires Numbered(w) && id <= w.lastId && id !in w.saved
    ensures id !in Run(keccak, w, cs).saved
    decreases |cs|
  {
    if cs != [] {
      GoneStaysGone(keccak, Apply(keccak, w, cs[0]), id, cs[1..]);
    }
  }

  /** No step of the run reverts to snapshot `id`, or to an older one that is live at the time. */
  ghost predicate Spared(keccak: Bytes -> Bytes, w: World, id: nat, cs: seq<Change>)
    decreases |cs|
  {
    cs != [] ==>
      && !(cs[0].Revert? && cs[0].id in w.saved && cs[0].id <= id)
      && Spared(keccak, Apply(keccak, w, cs[0]), id, cs[1..])
  }

  /** Which snapshots are live: a snapshot dies exactly when the world is reverted to it or to an older live one. */
  lemma {:induction false} LiveExactly(keccak: Bytes -> Bytes, w: World, id: nat, cs: seq<Change>)
    requires Numbered(w) && id in w.saved
    ensures id in Run(keccak, w, cs).saved <==> Spared(keccak, w, id, cs)
    decreases |cs|
  {
    if cs != [] {
      var w' := Apply(keccak, w, cs[0]);
      if cs[0].Revert? && cs[0].id in w.saved && cs[0].id <= id {
        GoneStaysGone(keccak, w', id, cs[1..]);
      } else {
        LiveExactly(keccak, w', id, cs[1..]);
      }
    }
  }
}
