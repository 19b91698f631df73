/** What a tracker finalises depends on the votes it has seen, not on their order: every quorum is finalised, and
    nothing else is. */
module FinalityOrder {
  import opened Word64
  import opened Finality

  /** The validators with stake whose genuine vote for h has been seen. */
  ghost function Supporters(c: Crypto, vals: seq<Validator>, seen: iset<Vote>, h: BlockHash): set<Address> {
    set a | a in Addresses(vals) && StakeOf(vals, a) > 0 && Backed(c, seen, h, a)
  }

  /** Two thirds of the stake support h, by the votes alone. */
  ghost predicate Supported(c: Crypto, vals: seq<Validator>, seen: iset<Vote>, h: BlockHash) {
    3 * Weight(vals, Supporters(c, vals, seen, h)) >= 2 * Total(vals)
  }

  /** Exactly the supporters of each hash are recorded. */
  ghost predicate Recorded(c: Crypto, vals: seq<Validator>, seen: iset<Vote>, t: Tracker) {
    forall h :: Voters(t, h).Keys == Supporters(c, vals, seen, h)
  }

  /** No hash with a quorum has been left behind. */
  ghost predicate CaughtUp(c: Crypto, vals: seq<Validator>, seen: iset<Vote>, t: Tracker) {
    forall v :: v in seen && Genuine(c, v) && Quorum(vals, t, v.hash) ==> v.height <= t.finalized
  }

  lemma {:induction false} StakeIsListed(vals: seq<Validator>, a: Address)
    requires StakeOf(vals, a) > 0
    ensures a in Addresses(vals)
  {
    if vals[0].address == a {
      assert vals[0] in vals;
    } else {
      StakeIsListed(vals[1..], a);
      var v :| v in vals[1..] && v.address == a;
      assert v in vals;
    }
  }

  lemma OneMoreVote(c: Crypto, vals: seq<Validator>, seen: iset<Vote>, v: Vote, h: BlockHash)
    ensures Supporters(c, vals, seen + iset{v}, h)
         == Supporters(c, vals, seen, h)
            + (if Genuine(c, v) && v.hash == h && StakeOf(vals, v.voter) > 0 then {v.voter} else {})
  {
    if Genuine(c, v) && v.hash == h && StakeOf(vals, v.voter) > 0 {
      StakeIsListed(vals, v.voter);
      assert v in seen + iset{v};
    }
    forall a | Backed(c, seen, h, a) ensures Backed(c, seen + iset{v}, h, a) {
      var w :| w in seen && Genuine(c, w) && w.hash == h && w.voter == a;
      assert w in seen + iset{v};
    }
  }

  lemma HandleRecords(c: Crypto, vals: seq<Validator>, seen: iset<Vote>, t: Tracker, v: Vote)
    requires Recorded(c, vals, seen, t)
    ensures Recorded(c, vals, seen + iset{v}, Handle(c, vals, t, v))
  {
    forall h ensures Voters(Handle(c, vals, t, v), h).Keys == Supporters(c, vals, seen + iset{v}, h) {
      OneMoreVote(c, vals, seen, v, h);
      assert Voters(t, h).Keys == Supporters(c, vals, seen, h);
    }
  }

  /** A vote is counted exactly when its key has signed this height and hash, the voter is the address of that key and
      has stake, and is not recorded under this hash yet; otherwise nothing at all changes. */
  lemma CountsExactly(c: Crypto, vals: seq<Validator>, t: Tracker, v: Vote)
    ensures var t' := Handle(c, vals, t, v);
            var counts := && c.signed(v.pubKey, v.height, v.hash, v.sig) && v.voter == c.addressOf(v.pubKey)
                          && StakeOf(vals, v.voter) > 0 && v.voter !in Voters(t, v.hash);
            && (!counts ==> t' == t)
            && (counts ==>
                  && Voters(t', v.hash) == Voters(t, v.hash)[v.voter := StakeOf(vals, v.voter)]
                  && v.hash in t'.voteHt && t'.voteHt[v.hash] == v.height
                  && (forall h :: h != v.hash ==> Voters(t', h) == Voters(t, h)))
            && ((t'.finalized, t'.finalHash) == (t.finalized, t.finalHash)
                || (counts && v.height > t.finalized && t'.finalized == v.height && t'.finalHash == v.hash))
  {
  }

  /** A quorum has at least one vote behind it. */
  lemma QuorumHasVote(c: Crypto, vals: seq<Validator>, seen: iset<Vote>, t: Tracker, h: BlockHash) returns (v: Vote)
    requires Recorded(c, vals, seen, t) && Quorum(vals, t, h) && Total(vals) > 0
    ensures v in seen && Genuine(c, v) && v.hash == h
  {
    assert Voters(t, h).Keys == Supporters(c, vals, seen, h);
    if Voters(t, h).Keys == {} {
      NoWeight(vals);
      assert false;
    }
    var a :| a in Voters(t, h).Keys;
    v :| v in seen && Genuine(c, v) && v.hash == h && v.voter == a;
  }

  /** A vote that is counted and completes a quorum finalises its height, at least. */
  lemma CountedVoteFinalises(c: Crypto, vals: seq<Validator>, t: Tracker, v: Vote)
    requires Stable(vals) && Total(vals) > 0 && (forall h :: h in t.votes ==> Counted(vals, t.votes[h]))
    requires Genuine(c, v) && StakeOf(vals, v.voter) > 0 && v.voter !in Voters(t, v.hash)
    requires Quorum(vals, Handle(c, vals, t, v), v.hash)
    ensures v.height <= Handle(c, vals, t, v).finalized
  {
    var counted := Voters(t, v.hash)[v.voter := StakeOf(vals, v.voter)];
    assert Voters(Handle(c, vals, t, v), v.hash) == counted;
    assert Counted(vals, counted);
    ThresholdExact(vals, counted);
  }

  /** The hash of a vote that is not counted, or of another vote, keeps its voters. */
  lemma VotersStay(c: Crypto, vals: seq<Validator>, t: Tracker, v: Vote, h: BlockHash)
    requires h != v.hash || !Genuine(c, v) || StakeOf(vals, v.voter) == 0 || v.voter in Voters(t, v.hash)
    ensures Voters(Handle(c, vals, t, v), h) == Voters(t, h)
  {
  }

  lemma HandleCatchesUp(c: Crypto, vals: seq<Validator>, seen: iset<Vote>, t: Tracker, v: Vote)
    requires Stable(vals) && Total(vals) > 0 && OneHeight(c, seen + iset{v})
    requires TrackerWF(c, vals, seen, t) && Recorded(c, vals, seen, t) && CaughtUp(c, vals, seen, t)
    ensures CaughtUp(c, vals, seen + iset{v}, Handle(c, vals, t, v))
  {
    var t' := Handle(c, vals, t, v);
    forall w | w in seen + iset{v} && Genuine(c, w) && Quorum(vals, t', w.hash) ensures w.height <= t'.finalized {
      NotLeftBehind(c, vals, seen, t, v, w);
    }
  }

  lemma NotLeftBehind(c: Crypto, vals: seq<Validator>, seen: iset<Vote>, t: Tracker, v: Vote, w: Vote)
    requires Stable(vals) && Total(vals) > 0 && OneHeight(c, seen + iset{v})
    requires TrackerWF(c, vals, seen, t) && Recorded(c, vals, seen, t) && CaughtUp(c, vals, seen, t)
    requires w in seen + iset{v} && Genuine(c, w) && Quorum(vals, Handle(c, vals, t, v), w.hash)
    ensures w.height <= Handle(c, vals, t, v).finalized
  {
    if w.hash == v.hash && Genuine(c, v) && StakeOf(vals, v.voter) > 0 && v.voter !in Voters(t, v.hash) {
      CountedVoteFinalises(c, vals, t, v);
      assert v in seen + iset{v} && v.height == w.height;
    } else {
      VotersStay(c, vals, t, v, w.hash);
      var x := QuorumHasVote(c, vals, seen, t, w.hash);
      assert x in seen + iset{v} && x.height == w.height;
      HandleGrows(c, vals, t, v);
    }
  }

  lemma WiderBacking(c: Crypto, vals: seq<Validator>, seen: iset<Vote>, sent: iset<Vote>, t: Tracker)
    requires TrackerWF(c, vals, seen, t) && seen <= sent
    ensures TrackerWF(c, vals, sent, t)
  {
    forall h, a | h in t.votes && a in t.votes[h] ensures Backed(c, sent, h, a) {
      assert Backed(c, seen, h, a);
      var v :| v in seen && Genuine(c, v) && v.hash == h && v.voter == a;
      assert v in sent;
    }
    if t.finalized > 0 {
      var v :| v in seen && Genuine(c, v) && v.hash == t.finalHash && v.height == t.finalized;
      assert v in sent;
    }
  }

  ghost predicate Complete(c: Crypto, vals: seq<Validator>, seen: iset<Vote>, t: Tracker) {
    TrackerWF(c, vals, seen, t) && Recorded(c, vals, seen, t) && CaughtUp(c, vals, seen, t)
  }

  ghost function VotesIn(vs: seq<Vote>): iset<Vote> { iset v | v in vs }

  lemma {:induction false} DeliverCompletes(c: Crypto, vals: seq<Validator>, seen: iset<Vote>, t: Tracker, vs: seq<Vote>)
    requires Stable(vals) && Total(vals) > 0 && OneHeight(c, seen + VotesIn(vs)) && Complete(c, vals, seen, t)
    ensures Complete(c, vals, seen + VotesIn(vs), Deliver(c, vals, t, vs))
    decreases |vs|
  {
    if vs == [] {
      assert seen + VotesIn(vs) == seen;
    } else {
      var v := vs[0];
      assert vs == [v] + vs[1..];
      assert seen + iset{v} + VotesIn(vs[1..]) == seen + VotesIn(vs);
      WiderBacking(c, vals, seen, seen + iset{v}, t);
      HandleKeeps(c, vals, seen + iset{v}, t, v);
      HandleRecords(c, vals, seen, t, v);
      HandleCatchesUp(c, vals, seen, t, v);
      DeliverCompletes(c, vals, seen + iset{v}, Handle(c, vals, t, v), vs[1..]);
    }
  }

  lemma NothingSeen(c: Crypto, vals: seq<Validator>)
    ensures Complete(c, vals, iset{}, FRESH)
  {
    forall h ensures Supporters(c, vals, iset{}, h) == {} {
    }
  }

  lemma TrackerComplete(c: Crypto, vals: seq<Validator>, vs: seq<Vote>)
    requires Stable(vals) && Total(vals) > 0 && OneHeight(c, VotesIn(vs))
    ensures Complete(c, vals, VotesIn(vs), Deliver(c, vals, FRESH, vs))
  {
    NothingSeen(c, vals);
    assert iset{} + VotesIn(vs) == VotesIn(vs);
    DeliverCompletes(c, vals, iset{}, FRESH, vs);
  }

  /** A height is final exactly when, by the votes seen alone, a block at that height or above is supported by
      two thirds of the stake; whatever the order and the repetitions of the votes. */
  lemma FinalExactly(c: Crypto, vals: seq<Validator>, vs: seq<Vote>, height: u64)
    requires Stable(vals) && Total(vals) > 0 && OneHeight(c, VotesIn(vs)) && height > 0
    ensures height <= Deliver(c, vals, FRESH, vs).finalized
       <==> exists v :: v in vs && Genuine(c, v) && height <= v.height && Supported(c, vals, VotesIn(vs), v.hash)
  {
    TrackerComplete(c, vals, vs);
    var t := Deliver(c, vals, FRESH, vs);
    if height <= t.finalized {
      assert BackedAt(c, VotesIn(vs), t.finalHash, t.finalized);
      var v :| v in VotesIn(vs) && Genuine(c, v) && v.hash == t.finalHash && v.height == t.finalized;
      assert Voters(t, v.hash).Keys == Supporters(c, vals, VotesIn(vs), v.hash);
    }
    forall v | v in vs && Genuine(c, v) && height <= v.height && Supported(c, vals, VotesIn(vs), v.hash)
      ensures height <= t.finalized
    {
      assert Voters(t, v.hash).Keys == Supporters(c, vals, VotesIn(vs), v.hash);
      assert v in VotesIn(vs);
    }
  }

  /** Two trackers that have seen the same votes, in whatever order and however often, have finalised the same
      height. */
  lemma SameVotesSameHeight(c: Crypto, vals: seq<Validator>, xs: seq<Vote>, ys: seq<Vote>)
    requires Stable(vals) && Total(vals) > 0 && OneHeight(c, VotesIn(xs)) && VotesIn(xs) == VotesIn(ys)
    ensures Deliver(c, vals, FRESH, xs).finalized == Deliver(c, vals, FRESH, ys).finalized
  {
    NotBehind(c, vals, xs, ys);
    NotBehind(c, vals, ys, xs);
  }

  lemma NotBehind(c: Crypto, vals: seq<Validator>, xs: seq<Vote>, ys: seq<Vote>)
    requires Stable(vals) && Total(vals) > 0 && OneHeight(c, VotesIn(xs)) && VotesIn(xs) == VotesIn(ys)
    ensures Deliver(c, vals, FRESH, xs).finalized <= Deliver(c, vals, FRESH, ys).finalized
  {
    var height := Deliver(c, vals, FRESH, xs).finalized;
    if height > 0 {
      FinalExactly(c, vals, xs, height);
      FinalExactly(c, vals, ys, height);
      var v :| v in xs && Genuine(c, v) && height <= v.height && Supported(c, vals, VotesIn(xs), v.hash);
      assert v in VotesIn(ys);
    }
  }

  /** With less than a third of the stake voting twice, such trackers agree on the block as well. */
  lemma SameVotesSameBlock(c: Crypto, vals: seq<Validator>, xs: seq<Vote>, ys: seq<Vote>)
    requires Stable(vals) && OneHeight(c, VotesIn(xs)) && VotesIn(xs) == VotesIn(ys)
    requires forall height :: 3 * Weight(vals, Equivocators(c, vals, VotesIn(xs), height)) < Total(vals)
    ensures var t, u := Deliver(c, vals, FRESH, xs), Deliver(c, vals, FRESH, ys);
            t.finalized == u.finalized && (t.finalized > 0 ==> t.finalHash == u.finalHash)
  {
    assert 3 * Weight(vals, Equivocators(c, vals, VotesIn(xs), 0)) < Total(vals);
    SameVotesSameHeight(c, vals, xs, ys);
    forall v | v in xs || v in ys ensures v in VotesIn(xs) {
      assert v in VotesIn(xs) || v in VotesIn(ys);
    }
    Agreement(c, vals, VotesIn(xs), xs, ys);
  }

  // ---------------------------------------------------------------- recorded heights

  /** Every hash with recorded votes has the height of a counted one of them. */
  ghost predicate Heights(c: Crypto, vals: seq<Validator>, seen: iset<Vote>, t: Tracker) {
    && t.voteHt.Keys == t.votes.Keys
    && forall h :: h in t.voteHt ==> HeightOf(c, vals, seen, h, t.voteHt[h])
  }

  ghost predicate HeightOf(c: Crypto, vals: seq<Validator>, seen: iset<Vote>, h: BlockHash, height: u64) {
    exists v :: v in seen && Genuine(c, v) && StakeOf(vals, v.voter) > 0 && v.hash == h && v.height == height
  }

  lemma HandleKeepsHeights(c: Crypto, vals: seq<Validator>, seen: iset<Vote>, t: Tracker, v: Vote)
    requires Heights(c, vals, seen, t)
    ensures Heights(c, vals, seen + iset{v}, Handle(c, vals, t, v))
  {
    var t', seen' := Handle(c, vals, t, v), seen + iset{v};
    forall h | h in t'.voteHt ensures HeightOf(c, vals, seen', h, t'.voteHt[h]) {
      if h == v.hash && t' != t {
        assert v in seen';
      } else {
        var w :| w in seen && Genuine(c, w) && StakeOf(vals, w.voter) > 0 && w.hash == h && w.height == t.voteHt[h];
        assert w in seen';
      }
    }
  }

  lemma {:induction false} DeliverKeepsHeights(c: Crypto, vals: seq<Validator>, seen: iset<Vote>, t: Tracker, vs: seq<Vote>)
    requires Heights(c, vals, seen, t)
    ensures Heights(c, vals, seen + VotesIn(vs), Deliver(c, vals, t, vs))
    decreases |vs|
  {
    if vs == [] {
      assert seen + VotesIn(vs) == seen;
    } else {
      assert vs == [vs[0]] + vs[1..];
      assert seen + iset{vs[0]} + VotesIn(vs[1..]) == seen + VotesIn(vs);
      HandleKeepsHeights(c, vals, seen, t, vs[0]);
      DeliverKeepsHeights(c, vals, seen + iset{vs[0]}, Handle(c, vals, t, vs[0]), vs[1..]);
    }
  }

  /** Where each hash has one height, that is the height recorded for it, as soon as one vote for it was counted. */
  lemma RecordedHeight(c: Crypto, vals: seq<Validator>, vs: seq<Vote>, v: Vote)
    requires OneHeight(c, VotesIn(vs)) && v in vs && Genuine(c, v) && StakeOf(vals, v.voter) > 0
    ensures var t := Deliver(c, vals, FRESH, vs); v.hash in t.voteHt && t.voteHt[v.hash] == v.height
  {
    var t := Deliver(c, vals, FRESH, vs);
    DeliverKeepsHeights(c, vals, iset{}, FRESH, vs);
    assert iset{} + VotesIn(vs) == VotesIn(vs);
    NothingSeen(c, vals);
    DeliverRecords(c, vals, iset{}, FRESH, vs);
    StakeIsListed(vals, v.voter);
    assert v in VotesIn(vs);
    assert v.voter in Supporters(c, vals, VotesIn(vs), v.hash);
    assert Voters(t, v.hash).Keys == Supporters(c, vals, VotesIn(vs), v.hash);
    assert HeightOf(c, vals, VotesIn(vs), v.hash, t.voteHt[v.hash]);
  }

  lemma {:induction false} DeliverRecords(c: Crypto, vals: seq<Validator>, seen: iset<Vote>, t: Tracker, vs: seq<Vote>)
    requires Recorded(c, vals, seen, t)
    ensures Recorded(c, vals, seen + VotesIn(vs), Deliver(c, vals, t, vs))
    decreases |vs|
  {
    if vs == [] {
      assert seen + VotesIn(vs) == seen;
    } else {
      assert vs == [vs[0]] + vs[1..];
      assert seen + iset{vs[0]} + VotesIn(vs[1..]) == seen + VotesIn(vs);
      HandleRecords(c, vals, seen, t, vs[0]);
      DeliverRecords(c, vals, seen + iset{vs[0]}, Handle(c, vals, t, vs[0]), vs[1..]);
    }
  }
}
