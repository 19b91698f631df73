/** The stake-weighted finality gadget of cmd/aib-node/finality.go: trackers that receive the same votes in
    different orders cannot finalise different blocks at one height unless a third of the stake votes twice. */
module Finality {
  import opened Word64
  import MapSums

  type Address = nat
  type BlockHash = nat

  datatype Validator = Validator(address: Address, stake: u64)

  datatype Vote = Vote(height: u64, hash: BlockHash, voter: Address, pubKey: nat, sig: nat)

  /** Signature checking and the address of a public key, about which nothing is assumed. */
  datatype Crypto = Crypto(signed: (nat, u64, BlockHash, nat) -> bool, addressOf: nat -> Address)

  datatype Tracker = Tracker(
    votes: map<BlockHash, map<Address, u64>>, voteHt: map<BlockHash, u64>, finalized: u64, finalHash: BlockHash)

  const FRESH: Tracker := Tracker(map[], map[], 0, 0)

  /** The checks a vote must pass before it is looked at. */
  predicate Genuine(c: Crypto, v: Vote) {
    c.signed(v.pubKey, v.height, v.hash, v.sig) && v.voter == c.addressOf(v.pubKey)
  }

  function StakeOf(vals: seq<Validator>, a: Address): u64 {
    if vals == [] then 0 else if vals[0].address == a then vals[0].stake else StakeOf(vals[1..], a)
  }

  /** The stake held by the validators in s. */
  ghost function Weight(vals: seq<Validator>, s: set<Address>): nat {
    if vals == [] then 0 else (if vals[0].address in s then vals[0].stake else 0) + Weight(vals[1..], s)
  }

  ghost function Addresses(vals: seq<Validator>): set<Address> { set v | v in vals :: v.address }

  ghost function Total(vals: seq<Validator>): nat { Weight(vals, Addresses(vals)) }

  ghost predicate DistinctAddresses(vals: seq<Validator>) {
    forall i, j :: 0 <= i < j < |vals| ==> vals[i].address != vals[j].address
  }

  function Voters(t: Tracker, h: BlockHash): map<Address, u64> {
    if h in t.votes then t.votes[h] else map[]
  }

  /** HandleVote, with uint64 arithmetic as in the source. */
  ghost function Handle(c: Crypto, vals: seq<Validator>, t: Tracker, v: Vote): Tracker {
    var stake := StakeOf(vals, v.voter);
    if !Genuine(c, v) || stake == 0 || v.voter in Voters(t, v.hash) then t
    else
      var counted := Voters(t, v.hash)[v.voter := stake];
      var t' := t.(votes := t.votes[v.hash := counted], voteHt := t.voteHt[v.hash := v.height]);
      var got := MapSums.Sum(counted) % MOD;
      var total := Total(vals) % MOD;
      if total != 0 && Mul(got, 3) >= Mul(total, 2) && v.height > t.finalized
      then t'.(finalized := v.height, finalHash := v.hash)
      else t'
  }

  /** A tracker after a sequence of deliveries. */
  ghost function Deliver(c: Crypto, vals: seq<Validator>, t: Tracker, vs: seq<Vote>): Tracker
    decreases |vs|
  {
    if vs == [] then t else Deliver(c, vals, Handle(c, vals, t, vs[0]), vs[1..])
  }

  // ---------------------------------------------------------------- weights

  lemma {:induction false} WeightAdd(vals: seq<Validator>, s: set<Address>, a: Address)
    requires DistinctAddresses(vals) && a !in s
    ensures Weight(vals, s + {a}) == Weight(vals, s) + StakeOf(vals, a)
  {
    if vals != [] {
      if vals[0].address == a {
        WeightFrame(vals[1..], s, a);
      } else {
        WeightAdd(vals[1..], s, a);
      }
    }
  }

  lemma {:induction false} WeightFrame(vals: seq<Validator>, s: set<Address>, a: Address)
    requires forall i :: 0 <= i < |vals| ==> vals[i].address != a
    ensures Weight(vals, s + {a}) == Weight(vals, s)
  {
    if vals != [] {
      WeightFrame(vals[1..], s, a);
    }
  }

  lemma {:induction false} WeightMonotone(vals: seq<Validator>, s: set<Address>, r: set<Address>)
    requires s <= r
    ensures Weight(vals, s) <= Weight(vals, r)
  {
    if vals != [] {
      WeightMonotone(vals[1..], s, r);
    }
  }

  /** Inclusion and exclusion, with the whole validator set as the bound of the union. */
  lemma {:induction false} WeightUnion(vals: seq<Validator>, s: set<Address>, r: set<Address>, all: set<Address>)
    requires Addresses(vals) <= all
    ensures Weight(vals, s) + Weight(vals, r) <= Weight(vals, s * r) + Weight(vals, all)
  {
    if vals != [] {
      assert vals[0] in vals && vals[0].address in Addresses(vals);
      assert Addresses(vals[1..]) <= all;
      WeightUnion(vals[1..], s, r, all);
    }
  }

  lemma WeightWithin(vals: seq<Validator>, s: set<Address>)
    ensures Weight(vals, s) <= Total(vals)
  {
    WeightUnion(vals, s, {}, Addresses(vals));
    assert s * {} == {};
  }

  /** Two sets with two thirds of the stake each share a third of it. */
  lemma QuorumsIntersect(vals: seq<Validator>, s: set<Address>, r: set<Address>)
    requires 3 * Weight(vals, s) >= 2 * Total(vals) && 3 * Weight(vals, r) >= 2 * Total(vals)
    ensures 3 * Weight(vals, s * r) >= Total(vals)
  {
    WeightUnion(vals, s, r, Addresses(vals));
  }

  /** Recorded votes carry the voters' stakes. */
  ghost predicate Counted(vals: seq<Validator>, m: map<Address, u64>) {
    forall a :: a in m ==> m[a] == StakeOf(vals, a) && m[a] > 0
  }

  /** So the tally of a hash is the weight of its voters. */
  lemma {:induction false} TallyIsWeight(vals: seq<Validator>, m: map<Address, u64>)
    requires DistinctAddresses(vals) && Counted(vals, m)
    ensures MapSums.Sum(m) == Weight(vals, m.Keys)
    decreases |m|
  {
    if m == map[] {
      NoWeight(vals);
    } else {
      var a :| a in m;
      MapSums.Smaller(m, a);
      MapSums.Split(m, a);
      TallyIsWeight(vals, m - {a});
      WeightAdd(vals, m.Keys - {a}, a);
      assert m.Keys - {a} + {a} == m.Keys && (m - {a}).Keys == m.Keys - {a};
    }
  }

  lemma {:induction false} NoWeight(vals: seq<Validator>)
    ensures Weight(vals, {}) == 0
  {
    if vals != [] {
      NoWeight(vals[1..]);
    }
  }

  // ---------------------------------------------------------------- what one vote keeps

  /** The validator set the theorems are about: fixed, no address twice, and small enough for the
      threshold comparison not to wrap. */
  ghost predicate Stable(vals: seq<Validator>) { DistinctAddresses(vals) && 3 * Total(vals) < MOD }

  /** Two thirds of the stake have voted for h. */
  ghost predicate Quorum(vals: seq<Validator>, t: Tracker, h: BlockHash) {
    3 * Weight(vals, Voters(t, h).Keys) >= 2 * Total(vals)
  }

  /** A recorded vote was delivered and genuine. */
  ghost predicate Backed(c: Crypto, sent: iset<Vote>, h: BlockHash, a: Address) {
    exists v :: v in sent && Genuine(c, v) && v.hash == h && v.voter == a
  }

  /** The finalised hash was voted for at the finalised height. */
  ghost predicate BackedAt(c: Crypto, sent: iset<Vote>, h: BlockHash, height: u64) {
    exists v :: v in sent && Genuine(c, v) && v.hash == h && v.height == height
  }

  ghost predicate TrackerWF(c: Crypto, vals: seq<Validator>, sent: iset<Vote>, t: Tracker) {
    && (forall h :: h in t.votes ==> Counted(vals, t.votes[h]))
    && (forall h, a :: h in t.votes && a in t.votes[h] ==> Backed(c, sent, h, a))
    && (t.finalized > 0 ==> Quorum(vals, t, t.finalHash) && BackedAt(c, sent, t.finalHash, t.finalized))
  }

  /** A vote adds at most one voter to one hash, and never lowers the finalised height. */
  lemma HandleGrows(c: Crypto, vals: seq<Validator>, t: Tracker, v: Vote)
    ensures Handle(c, vals, t, v).finalized >= t.finalized
    ensures forall h :: Voters(t, h).Keys <= Voters(Handle(c, vals, t, v), h).Keys
  {
  }

  lemma HandleKeepsCounts(c: Crypto, vals: seq<Validator>, sent: iset<Vote>, t: Tracker, v: Vote)
    requires TrackerWF(c, vals, sent, t) && v in sent
    ensures var t' := Handle(c, vals, t, v);
            && (forall h :: h in t'.votes ==> Counted(vals, t'.votes[h]))
            && (forall h, a :: h in t'.votes && a in t'.votes[h] ==> Backed(c, sent, h, a))
  {
    var t' := Handle(c, vals, t, v);
    forall h, a | h in t'.votes && a in t'.votes[h] ensures Backed(c, sent, h, a) {
      assert (h in t.votes && a in t.votes[h]) || (h == v.hash && a == v.voter);
    }
  }

  /** The uint64 comparison is the real two-thirds test. */
  lemma ThresholdExact(vals: seq<Validator>, m: map<Address, u64>)
    requires Stable(vals) && Counted(vals, m)
    ensures MapSums.Sum(m) % MOD == Weight(vals, m.Keys) && Total(vals) % MOD == Total(vals)
    ensures Mul(Weight(vals, m.Keys), 3) == 3 * Weight(vals, m.Keys) && Mul(Total(vals), 2) == 2 * Total(vals)
  {
    TallyIsWeight(vals, m);
    WeightWithin(vals, m.Keys);
  }

  lemma HandleKeeps(c: Crypto, vals: seq<Validator>, sent: iset<Vote>, t: Tracker, v: Vote)
    requires Stable(vals) && TrackerWF(c, vals, sent, t) && v in sent
    ensures TrackerWF(c, vals, sent, Handle(c, vals, t, v))
  {
    var t' := Handle(c, vals, t, v);
    HandleKeepsCounts(c, vals, sent, t, v);
    HandleGrows(c, vals, t, v);
    WeightMonotone(vals, Voters(t, t.finalHash).Keys, Voters(t', t.finalHash).Keys);
    if t' != t {
      ThresholdExact(vals, t'.votes[v.hash]);
    }
  }

  // ---------------------------------------------------------------- whole runs

  /** Every reachable tracker has a quorum of genuine, delivered votes behind what it has finalised. */
  lemma {:induction false} DeliverKeeps(c: Crypto, vals: seq<Validator>, sent: iset<Vote>, t: Tracker, vs: seq<Vote>)
    requires Stable(vals) && TrackerWF(c, vals, sent, t) && forall v :: v in vs ==> v in sent
    ensures TrackerWF(c, vals, sent, Deliver(c, vals, t, vs))
    decreases |vs|
  {
    if vs != [] {
      HandleKeeps(c, vals, sent, t, vs[0]);
      DeliverKeeps(c, vals, sent, Handle(c, vals, t, vs[0]), vs[1..]);
    }
  }

  /** The finalised height never falls, whatever is delivered. */
  lemma {:induction false} FinalizedNeverFalls(c: Crypto, vals: seq<Validator>, t: Tracker, vs: seq<Vote>)
    ensures Deliver(c, vals, t, vs).finalized >= t.finalized
    decreases |vs|
  {
    if vs != [] {
      HandleGrows(c, vals, t, vs[0]);
      FinalizedNeverFalls(c, vals, Handle(c, vals, t, vs[0]), vs[1..]);
    }
  }

  /** Two trackers that finalise different hashes at one height have, between them, recorded votes under
      both hashes from validators holding a third of all stake. */
  lemma ConflictCostsAThird(c: Crypto, vals: seq<Validator>, xs: seq<Vote>, ys: seq<Vote>)
    requires Stable(vals)
    ensures var t, u := Deliver(c, vals, FRESH, xs), Deliver(c, vals, FRESH, ys);
            t.finalized == u.finalized > 0 && t.finalHash != u.finalHash ==>
              3 * Weight(vals, Voters(t, t.finalHash).Keys * Voters(u, u.finalHash).Keys) >= Total(vals)
  {
    var sent := iset v | v in xs || v in ys;
    DeliverKeeps(c, vals, sent, FRESH, xs);
    DeliverKeeps(c, vals, sent, FRESH, ys);
    var t, u := Deliver(c, vals, FRESH, xs), Deliver(c, vals, FRESH, ys);
    if t.finalized > 0 && u.finalized > 0 {
      QuorumsIntersect(vals, Voters(t, t.finalHash).Keys, Voters(u, u.finalHash).Keys);
    }
  }

  /** The validator has signed two hashes at one height. */
  ghost predicate VotesTwice(c: Crypto, sent: iset<Vote>, a: Address, height: u64) {
    exists v, w :: v in sent && w in sent && Genuine(c, v) && Genuine(c, w)
      && v.voter == a && w.voter == a && v.height == height && w.height == height && v.hash != w.hash
  }

  ghost function Equivocators(c: Crypto, vals: seq<Validator>, sent: iset<Vote>, height: u64): set<Address> {
    set a | a in Addresses(vals) && VotesTwice(c, sent, a, height)
  }

  /** Each block hash belongs to one height. */
  ghost predicate OneHeight(c: Crypto, sent: iset<Vote>) {
    forall v, w :: v in sent && w in sent && Genuine(c, v) && Genuine(c, w) && v.hash == w.hash ==> v.height == w.height
  }

  /** A voter recorded under two hashes of one height is an equivocator. */
  lemma SharedVotersEquivocate(c: Crypto, vals: seq<Validator>, sent: iset<Vote>, t: Tracker, u: Tracker, height: u64)
    requires TrackerWF(c, vals, sent, t) && TrackerWF(c, vals, sent, u) && OneHeight(c, sent)
    requires t.finalized == u.finalized == height && height > 0 && t.finalHash != u.finalHash
    ensures forall a :: a in Voters(t, t.finalHash) && a in Voters(u, u.finalHash) ==> VotesTwice(c, sent, a, height)
  {
    var x :| x in sent && Genuine(c, x) && x.hash == t.finalHash && x.height == height;
    var y :| y in sent && Genuine(c, y) && y.hash == u.finalHash && y.height == height;
    forall a | a in Voters(t, t.finalHash) && a in Voters(u, u.finalHash) ensures VotesTwice(c, sent, a, height) {
      assert Backed(c, sent, t.finalHash, a) && Backed(c, sent, u.finalHash, a);
      var v :| v in sent && Genuine(c, v) && v.hash == t.finalHash && v.voter == a;
      var w :| w in sent && Genuine(c, w) && w.hash == u.finalHash && w.voter == a;
      assert v.height == x.height && w.height == y.height;
    }
  }

  /** Only validators' addresses weigh anything. */
  lemma {:induction false} WeightOfMembers(vals: seq<Validator>, s: set<Address>, all: set<Address>)
    requires Addresses(vals) <= all
    ensures Weight(vals, s) == Weight(vals, s * all)
  {
    if vals != [] {
      assert vals[0] in vals && vals[0].address in Addresses(vals);
      assert Addresses(vals[1..]) <= all;
      WeightOfMembers(vals[1..], s, all);
    }
  }

  /** Agreement: if every hash has one height and less than a third of the stake votes twice at any height,
      then no two trackers, whatever votes they received and in whatever order, ever finalise different
      hashes at one height. */
  lemma Agreement(c: Crypto, vals: seq<Validator>, sent: iset<Vote>, xs: seq<Vote>, ys: seq<Vote>)
    requires Stable(vals) && OneHeight(c, sent)
    requires forall v :: v in xs || v in ys ==> v in sent
    requires forall height :: 3 * Weight(vals, Equivocators(c, vals, sent, height)) < Total(vals)
    ensures var t, u := Deliver(c, vals, FRESH, xs), Deliver(c, vals, FRESH, ys);
            t.finalized == u.finalized && t.finalized > 0 ==> t.finalHash == u.finalHash
  {
    DeliverKeeps(c, vals, sent, FRESH, xs);
    DeliverKeeps(c, vals, sent, FRESH, ys);
    var t, u := Deliver(c, vals, FRESH, xs), Deliver(c, vals, FRESH, ys);
    if t.finalized == u.finalized && t.finalized > 0 && t.finalHash != u.finalHash {
      var s, r := Voters(t, t.finalHash).Keys, Voters(u, u.finalHash).Keys;
      QuorumsIntersect(vals, s, r);
      SharedVotersEquivocate(c, vals, sent, t, u, t.finalized);
      WeightOfMembers(vals, s * r, Addresses(vals));
      WeightMonotone(vals, s * r * Addresses(vals), Equivocators(c, vals, sent, t.finalized));
      assert false;
    }
  }

  // ---------------------------------------------------------------- the code

  class FinalityTracker {
    const crypto: Crypto
    const validators: seq<Validator>   // consensus.GetActiveValidators(), taken as fixed
    var votes: map<BlockHash, map<Address, u64>>
    var voteHt: map<BlockHash, u64>
    var finalized: u64
    var finalHash: BlockHash

    constructor (crypto: Crypto, validators: seq<Validator>)
      ensures View() == FRESH && this.crypto == crypto && this.validators == validators
    {
      this.crypto, this.validators := crypto, validators;
      votes, voteHt, finalized, finalHash := map[], map[], 0, 0;
    }

    function View(): Tracker
      reads this
    {
      Tracker(votes, voteHt, finalized, finalHash)
    }

    /** stakeOf. */
    method FindStake(a: Address) returns (stake: u64)
      ensures stake == StakeOf(validators, a)
    {
      var i := 0;
      while i < |validators|
        invariant 0 <= i <= |validators|
        invariant StakeOf(validators, a) == StakeOf(validators[i..], a)
      {
        if validators[i].address == a {
          return validators[i].stake;
        }
        i := i + 1;
      }
      return 0;
    }

    /** totalStake. */
    method TotalStake() returns (t: u64)
      ensures t == Total(validators) % MOD
    {
      t := 0;
      ghost var exact := 0;
      var i := 0;
      while i < |validators|
        invariant 0 <= i <= |validators| && t == exact % MOD
        invariant exact + Weight(validators[i..], Addresses(validators)) == Total(validators)
      {
        assert validators[i] in validators;
        AddReduced(exact, validators[i].stake);
        exact := exact + validators[i].stake;
        t := Add(t, validators[i].stake);
        i := i + 1;
      }
    }

    /** The tally loop, over a map in no particular order. */
    method Tally(m: map<Address, u64>) returns (got: u64)
      ensures got == MapSums.Sum(m) % MOD
    {
      got := 0;
      var keys := m.Keys;
      ghost var exact := 0;
      assert MapSums.Among(m, keys) == m;
      while keys != {}
        invariant keys <= m.Keys && got == exact % MOD
        invariant exact + MapSums.Sum(MapSums.Among(m, keys)) == MapSums.Sum(m)
        decreases keys
      {
        var a :| a in keys;
        MapSums.TakeOut(m, keys, a);
        AddReduced(exact, m[a]);
        exact := exact + m[a];
        got := Add(got, m[a]);
        keys := keys - {a};
      }
    }

    /** HandleVote. */
    method HandleVote(v: Vote)
      modifies this
      ensures View() == Handle(crypto, validators, old(View()), v)
    {
      if !crypto.signed(v.pubKey, v.height, v.hash, v.sig) {
        return;
      }
      if v.voter != crypto.addressOf(v.pubKey) {
        return;
      }
      var stake := FindStake(v.voter);
      if stake == 0 {
        return;
      }
      var voters := if v.hash in votes then votes[v.hash] else map[];
      if v.voter in voters {
        return;
      }
      voters := voters[v.voter := stake];
      votes := votes[v.hash := voters];
      voteHt := voteHt[v.hash := v.height];
      var got := Tally(voters);
      var total := TotalStake();
      if total == 0 {
        return;
      }
      if Mul(got, 3) >= Mul(total, 2) && v.height > finalized {
        finalized := v.height;
        finalHash := v.hash;
      }
    }

    /** IsFinalized: rolling back below `height` is forbidden. */
    method IsFinalized(height: u64) returns (b: bool)
      ensures b <==> 0 < finalized && height <= finalized
    {
      b := height <= finalized && finalized > 0;
    }
  }
}
