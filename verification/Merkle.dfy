/** Merkle trees with the last node of an odd level paired with itself (core/crypto/merkle.go and the
    recursive root of pkg/airdrop/distributor.go), over an arbitrary hash function. */
module Merkle {
  import opened Results

  type byte = x: int | 0 <= x < 256
  type Bytes = seq<byte>
  type Hasher = Bytes -> Bytes

  datatype Error = NoLeaves | IndexOutOfRange

  // ---------------------------------------------------------------- what a tree is

  function Padded(level: seq<Bytes>): seq<Bytes>
    requires level != []
  {
    if |level| % 2 != 0 then level + [level[|level| - 1]] else level
  }

  /** One node per pair. */
  function Pairs(h: Hasher, p: seq<Bytes>): (up: seq<Bytes>)
    ensures |up| == |p| / 2
  {
    if |p| < 2 then [] else [h(p[0] + p[1])] + Pairs(h, p[2..])
  }

  lemma {:induction false} PairAt(h: Hasher, p: seq<Bytes>, i: nat)
    requires i < |p| / 2
    ensures Pairs(h, p)[i] == h(p[2 * i] + p[2 * i + 1])
  {
    if i > 0 {
      PairAt(h, p[2..], i - 1);
    }
  }

  /** The level above. */
  function Parents(h: Hasher, level: seq<Bytes>): (up: seq<Bytes>)
    requires level != []
    ensures |up| == (|level| + 1) / 2
  {
    Pairs(h, Padded(level))
  }

  /** Levels as they are stored: each half the one below, rounded up. */
  ghost predicate Tower(levels: seq<seq<Bytes>>) {
    && levels != []
    && (forall k :: 0 <= k < |levels| ==> levels[k] != [])
    && (forall k :: 0 < k < |levels| ==> |levels[k]| == (|levels[k - 1]| + 1) / 2)
  }

  /** All levels, from the given one up to the root. */
  function Levels(h: Hasher, level: seq<Bytes>): (levels: seq<seq<Bytes>>)
    requires level != []
    ensures levels != [] && levels[0] == level
    decreases |level|
  {
    if |level| == 1 then [level] else [level] + Levels(h, Parents(h, level))
  }

  /** The last level holds the root. */
  function Top(levels: seq<seq<Bytes>>): Bytes {
    if levels == [] || levels[|levels| - 1] == [] then [] else levels[|levels| - 1][0]
  }

  lemma {:induction false} LevelsAreTower(h: Hasher, level: seq<Bytes>)
    requires level != []
    ensures Tower(Levels(h, level)) && |Levels(h, level)[|Levels(h, level)| - 1]| == 1
    decreases |level|
  {
    if |level| > 1 {
      LevelsAreTower(h, Parents(h, level));
      TowerCons(level, Levels(h, Parents(h, level)));
    }
  }

  lemma TowerCons(level: seq<Bytes>, above: seq<seq<Bytes>>)
    requires Tower(above) && level != [] && |above[0]| == (|level| + 1) / 2
    ensures Tower([level] + above) && Top([level] + above) == Top(above)
    ensures ([level] + above)[1..] == above
  {
    var levels := [level] + above;
    forall k | 0 < k < |levels| ensures |levels[k]| == (|levels[k - 1]| + 1) / 2 {
      if k > 1 {
        assert levels[k] == above[k - 1] && levels[k - 1] == above[k - 2];
      }
    }
  }

  function LeafHashes(h: Hasher, leaves: seq<Bytes>): (r: seq<Bytes>)
    ensures |r| == |leaves| && forall i :: 0 <= i < |r| ==> r[i] == h(leaves[i])
  {
    if leaves == [] then [] else [h(leaves[0])] + LeafHashes(h, leaves[1..])
  }

  function RootOf(h: Hasher, leaves: seq<Bytes>): Bytes
    requires leaves != []
  {
    Top(Levels(h, LeafHashes(h, leaves)))
  }

  /** What every stored node is: the hash of its leaf on the lowest level; above it, the hash of its two children, left
      before right, where a missing right child is the left one again. */
  ghost predicate BuiltUpTo(h: Hasher, levels: seq<seq<Bytes>>, n: nat) {
    forall k, i :: 0 < k < |levels| && k <= n && 0 <= i < |levels[k]| ==> NodeAt(h, levels, k, i)
  }

  ghost predicate NodeAt(h: Hasher, levels: seq<seq<Bytes>>, k: nat, i: nat)
    requires 0 < k < |levels| && i < |levels[k]|
  {
    && 2 * i < |levels[k - 1]|
    && var left := levels[k - 1][2 * i];
       var right := if 2 * i + 1 < |levels[k - 1]| then levels[k - 1][2 * i + 1] else left;
       levels[k][i] == h(left + right)
  }

  lemma {:induction false} LevelsAreBuilt(h: Hasher, level: seq<Bytes>)
    requires level != []
    ensures BuiltUpTo(h, Levels(h, level), |Levels(h, level)|)
    decreases |level|
  {
    if |level| > 1 {
      var above, levels := Levels(h, Parents(h, level)), Levels(h, level);
      LevelsAreBuilt(h, Parents(h, level));
      forall k, i | 0 < k < |levels| && 0 <= i < |levels[k]| ensures NodeAt(h, levels, k, i) {
        if k == 1 {
          PairAt(h, Padded(level), i);
        } else {
          assert NodeAt(h, above, k - 1, i);
        }
      }
    }
  }

  /** The tree of a list of leaves, node by node, and its root, which is the only node of the last level. */
  lemma TreeExactly(h: Hasher, leaves: seq<Bytes>)
    requires leaves != []
    ensures var levels := Levels(h, LeafHashes(h, leaves));
            && |levels[0]| == |leaves| && (forall i :: 0 <= i < |leaves| ==> levels[0][i] == h(leaves[i]))
            && Tower(levels) && BuiltUpTo(h, levels, |levels|)
            && levels[|levels| - 1] == [RootOf(h, leaves)]
  {
    LevelsAreTower(h, LeafHashes(h, leaves));
    LevelsAreBuilt(h, LeafHashes(h, leaves));
  }

  /** The node an index is paired with: its neighbour, or itself at the end of an odd level. */
  function Sibling(level: seq<Bytes>, i: nat): Bytes
    requires i < |level|
  {
    if i % 2 == 0 then (if i + 1 < |level| then level[i + 1] else level[i]) else level[i - 1]
  }

  /** The siblings on the way from index i up. */
  ghost function Siblings(levels: seq<seq<Bytes>>, i: nat): (proof: seq<Bytes>)
    requires Tower(levels) && i < |levels[0]|
    ensures |proof| == |levels| - 1
  {
    if |levels| == 1 then [] else [Sibling(levels[0], i)] + Siblings(levels[1..], i / 2)
  }

  // ---------------------------------------------------------------- checking a proof

  /** Go's index /= 2, which rounds towards zero. */
  function Half(i: int): int { if i >= 0 then i / 2 else -((-i) / 2) }

  function Combine(node: Bytes, sibling: Bytes, i: int): Bytes {
    if i % 2 == 0 then node + sibling else sibling + node
  }

  /** The root that an input leads to along a proof. */
  function Climb(h: Hasher, input: Bytes, proof: seq<Bytes>, i: int): Bytes
    decreases |proof|
  {
    if proof == [] then h(input) else Climb(h, Combine(h(input), proof[0], i), proof[1..], Half(i))
  }

  /** Everything hashed on the way. */
  function Inputs(h: Hasher, input: Bytes, proof: seq<Bytes>, i: int): (s: seq<Bytes>)
    ensures |s| == |proof| + 1
    decreases |proof|
  {
    [input] + if proof == [] then [] else Inputs(h, Combine(h(input), proof[0], i), proof[1..], Half(i))
  }

  // ---------------------------------------------------------------- proofs are accepted

  /** A node and its sibling hash to the parent, also where the level is odd and the stored level lacks
      the copy its parent was built from. */
  lemma PairMakesParent(h: Hasher, level: seq<Bytes>, i: nat)
    requires 1 < |level| && i < |level|
    ensures h(Combine(level[i], Sibling(level, i), i)) == Parents(h, level)[i / 2]
  {
    PairAt(h, Padded(level), i / 2);
  }

  lemma {:induction false} ClimbReachesTop(h: Hasher, level: seq<Bytes>, i: nat, input: Bytes)
    requires i < |level| && h(input) == level[i]
    ensures Tower(Levels(h, level))
    ensures Climb(h, input, Siblings(Levels(h, level), i), i) == Top(Levels(h, level))
    decreases |level|
  {
    LevelsAreTower(h, level);
    if |level| > 1 {
      var up := Parents(h, level);
      LevelsAreTower(h, up);
      TowerCons(level, Levels(h, up));
      PairMakesParent(h, level, i);
      ClimbReachesTop(h, up, i / 2, Combine(level[i], Sibling(level, i), i));
      ClimbStep(h, input, Sibling(level, i), Siblings(Levels(h, up), i / 2), i);
    }
  }

  lemma ClimbStep(h: Hasher, input: Bytes, sibling: Bytes, proof: seq<Bytes>, i: nat)
    ensures Climb(h, input, [sibling] + proof, i) == Climb(h, Combine(h(input), sibling, i), proof, i / 2)
  {
    assert ([sibling] + proof)[1..] == proof;
  }

  /** The proof of leaf i leads from that leaf to the root: for every non-empty list and every index. */
  lemma ProofAccepted(h: Hasher, leaves: seq<Bytes>, i: nat)
    requires i < |leaves|
    ensures Tower(Levels(h, LeafHashes(h, leaves)))
    ensures Climb(h, leaves[i], Siblings(Levels(h, LeafHashes(h, leaves)), i), i) == RootOf(h, leaves)
  {
    ClimbReachesTop(h, LeafHashes(h, leaves), i, leaves[i]);
  }

  // ---------------------------------------------------------------- proofs bind

  /** Two hashed inputs at the same step of two paths that differ and hash alike. */
  ghost predicate Collide(h: Hasher, xs: seq<Bytes>, ys: seq<Bytes>) {
    exists k :: 0 <= k < |xs| && k < |ys| && xs[k] != ys[k] && h(xs[k]) == h(ys[k])
  }

  /** Equal combinations come from equal nodes, whatever the lengths of the siblings. */
  lemma CombineSplits(x: Bytes, y: Bytes, sx: Bytes, sy: Bytes, i: int)
    requires |x| == |y| && Combine(x, sx, i) == Combine(y, sy, i)
    ensures x == y
  {
    if i % 2 == 0 {
      assert x == Combine(x, sx, i)[..|x|] && y == Combine(y, sy, i)[..|x|];
    } else {
      assert x == Combine(x, sx, i)[|sx|..] && y == Combine(y, sy, i)[|sy|..];
    }
  }

  /** Position binding: for a hash of fixed length, two inputs that lead to the same root from the same
      index along proofs of equal length are equal, or the two paths contain a collision. */
  lemma {:induction false} PositionBinding(h: Hasher, n: nat, x: Bytes, y: Bytes, px: seq<Bytes>, py: seq<Bytes>, i: int)
    requires forall z :: |h(z)| == n
    requires |px| == |py| && Climb(h, x, px, i) == Climb(h, y, py, i)
    ensures x == y || Collide(h, Inputs(h, x, px, i), Inputs(h, y, py, i))
    decreases |px|
  {
    var xs, ys := Inputs(h, x, px, i), Inputs(h, y, py, i);
    if px != [] {
      var x', y' := Combine(h(x), px[0], i), Combine(h(y), py[0], i);
      PositionBinding(h, n, x', y', px[1..], py[1..], Half(i));
      if x' == y' {
        CombineSplits(h(x), h(y), px[0], py[0], i);
      } else {
        var xs', ys' := Inputs(h, x', px[1..], Half(i)), Inputs(h, y', py[1..], Half(i));
        var k :| 0 <= k < |xs'| && k < |ys'| && xs'[k] != ys'[k] && h(xs'[k]) == h(ys'[k]);
        assert xs[k + 1] == xs'[k] && ys[k + 1] == ys'[k];
      }
    }
    if x != y && h(x) == h(y) {
      assert xs[0] == x && ys[0] == y;
    }
  }

  lemma {:induction false} LevelCount(h: Hasher, xs: seq<Bytes>, ys: seq<Bytes>)
    requires |xs| == |ys| && xs != []
    ensures |Levels(h, xs)| == |Levels(h, ys)|
    decreases |xs|
  {
    if |xs| > 1 {
      LevelCount(h, Parents(h, xs), Parents(h, ys));
    }
  }

  /** Two lists of the same length with the same root are the same list, or the hash has a collision. */
  lemma RootBindsLeaves(h: Hasher, n: nat, xs: seq<Bytes>, ys: seq<Bytes>)
    requires forall z :: |h(z)| == n
    requires |xs| == |ys| && xs != [] && RootOf(h, xs) == RootOf(h, ys)
    ensures xs == ys || exists x, y :: x != y && h(x) == h(y)
  {
    if xs != ys {
      var i :| 0 <= i < |xs| && xs[i] != ys[i];
      LeafBinding(h, n, xs, ys, i);
    }
  }

  lemma LeafBinding(h: Hasher, n: nat, xs: seq<Bytes>, ys: seq<Bytes>, i: nat)
    requires forall z :: |h(z)| == n
    requires i < |xs| == |ys| && RootOf(h, xs) == RootOf(h, ys)
    ensures xs[i] == ys[i] || exists x, y :: x != y && h(x) == h(y)
  {
    var lx, ly := Levels(h, LeafHashes(h, xs)), Levels(h, LeafHashes(h, ys));
    ProofAccepted(h, xs, i);
    ProofAccepted(h, ys, i);
    LevelCount(h, LeafHashes(h, xs), LeafHashes(h, ys));
    PositionBinding(h, n, xs[i], ys[i], Siblings(lx, i), Siblings(ly, i), i);
  }

  // ---------------------------------------------------------------- the recursive root

  const ZERO_HASH: Bytes :=
    [0, 0, 0, 0, 0, 0, 0, 0, 0, 0, 0, 0, 0, 0, 0, 0, 0, 0, 0, 0, 0, 0, 0, 0, 0, 0, 0, 0, 0, 0, 0, 0]

  /** The root by recursion over levels, of a list of hashes. */
  function RecursiveRoot(h: Hasher, hashes: seq<Bytes>): Bytes
    decreases |hashes|
  {
    if hashes == [] then ZERO_HASH
    else if |hashes| == 1 then hashes[0]
    else RecursiveRoot(h, Parents(h, hashes))
  }

  lemma {:induction false} RecursiveRootIsTop(h: Hasher, level: seq<Bytes>)
    requires level != []
    ensures RecursiveRoot(h, level) == Top(Levels(h, level))
    decreases |level|
  {
    if |level| > 1 {
      RecursiveRootIsTop(h, Parents(h, level));
      LevelsAreTower(h, Parents(h, level));
      TowerCons(level, Levels(h, Parents(h, level)));
    }
  }

  /** Both root algorithms agree on every non-empty list. */
  lemma RootsAgree(h: Hasher, leaves: seq<Bytes>)
    requires leaves != []
    ensures RecursiveRoot(h, LeafHashes(h, leaves)) == RootOf(h, leaves)
  {
    RecursiveRootIsTop(h, LeafHashes(h, leaves));
  }

  /** Appending a copy of the last leaf to an odd list longer than one does not change the root. */
  lemma CopyOfLastLeaf(h: Hasher, leaves: seq<Bytes>)
    requires 1 < |leaves| && |leaves| % 2 == 1
    ensures RootOf(h, leaves + [leaves[|leaves| - 1]]) == RootOf(h, leaves)
  {
    var more := leaves + [leaves[|leaves| - 1]];
    var a, b := LeafHashes(h, leaves), LeafHashes(h, more);
    assert Padded(a) == Padded(b);
    LevelsAreTower(h, Parents(h, a));
    TowerCons(a, Levels(h, Parents(h, a)));
    TowerCons(b, Levels(h, Parents(h, b)));
  }

  // ---------------------------------------------------------------- the code

  /** The fill loop both algorithms run on each level. */
  method ParentLevel(h: Hasher, level: seq<Bytes>) returns (up: seq<Bytes>)
    requires 1 < |level|
    ensures up == Parents(h, level)
  {
    var padded := level;
    if |level| % 2 != 0 {
      padded := padded + [level[|level| - 1]];
    }
    up := [];
    var i := 0;
    while i < |padded|
      invariant 0 <= i <= |padded| && i % 2 == 0 && |up| == i / 2
      invariant padded == Padded(level)
      invariant forall k :: 0 <= k < |up| ==> up[k] == Parents(h, level)[k]
    {
      var combined := padded[i] + padded[i + 1];
      PairAt(h, padded, i / 2);
      up := up + [h(combined)];
      i := i + 2;
    }
  }

  /** buildMerkleRoot. */
  method BuildMerkleRoot(h: Hasher, hashes: seq<Bytes>) returns (root: Bytes)
    ensures root == RecursiveRoot(h, hashes)
    decreases |hashes|
  {
    if |hashes| == 0 {
      return ZERO_HASH;
    }
    if |hashes| == 1 {
      return hashes[0];
    }
    var next := ParentLevel(h, hashes);
    root := BuildMerkleRoot(h, next);
  }

  /** VerifyMerkleProof. */
  method VerifyMerkleProof(h: Hasher, leaf: Bytes, root: Bytes, proof: seq<Bytes>, index: int) returns (ok: bool)
    ensures ok <==> Climb(h, leaf, proof, index) == root
  {
    var current, i, k := h(leaf), index, 0;
    ghost var input := leaf;
    while k < |proof|
      invariant 0 <= k <= |proof| && current == h(input)
      invariant Climb(h, leaf, proof, index) == Climb(h, input, proof[k..], i)
    {
      var combined := Combine(current, proof[k], i);
      input := combined;
      current := h(combined);
      i := Half(i);
      k := k + 1;
    }
    ok := current == root;
  }

  lemma LevelsStep(h: Hasher, below: seq<seq<Bytes>>, level: seq<Bytes>)
    requires |level| > 1
    ensures below + Levels(h, level) == below + [level] + Levels(h, Parents(h, level))
  {
    Associative(below, [level], Levels(h, Parents(h, level)));
  }

  lemma Associative<T>(a: seq<T>, b: seq<T>, c: seq<T>)
    ensures a + (b + c) == a + b + c
  {
  }

  lemma LevelsEnd(h: Hasher, level: seq<Bytes>)
    requires |level| == 1
    ensures Levels(h, level) == [level]
  {
  }

  class StandardMerkleTree {
    const hasher: Hasher
    const leaves: seq<Bytes>
    var levels: seq<seq<Bytes>>

    ghost predicate Valid()
      reads this
    {
      leaves != [] && levels == Levels(hasher, LeafHashes(hasher, leaves))
    }

    constructor (hasher: Hasher, leaves: seq<Bytes>)
      requires leaves != []
      ensures Valid() && this.hasher == hasher && this.leaves == leaves
    {
      this.hasher, this.leaves, this.levels := hasher, leaves, [];
      new;
      Build();
    }

    /** build. */
    method Build()
      requires leaves != []
      modifies this
      ensures Valid()
    {
      var level := LeafHashes(hasher, leaves);
      levels := [level];
      ghost var goal, below := Levels(hasher, level), [];
      while |level| > 1
        invariant level != [] && levels == below + [level]
        invariant goal == below + Levels(hasher, level)
        decreases |level|
      {
        var next := ParentLevel(hasher, level);
        LevelsStep(hasher, below, level);
        below := below + [level];
        levels := levels + [next];
        level := next;
      }
      LevelsEnd(hasher, level);
    }

    /** Root. */
    method Root() returns (root: Bytes)
      requires Valid()
      ensures root == RootOf(hasher, leaves)
    {
      if |levels| == 0 {
        return [];
      }
      var top := levels[|levels| - 1];
      if |top| == 0 {
        return [];
      }
      return top[0];
    }

    /** Proof: the siblings on the way up, accepted for its own leaf; refused outside the list. */
    method Proof(index: int) returns (r: Result<seq<Bytes>, Error>)
      requires Valid()
      ensures r.Ok? <==> 0 <= index < |leaves|
      ensures r.Ok? ==> Climb(hasher, leaves[index], r.value, index) == RootOf(hasher, leaves)
      ensures r.Ok? ==> |r.value| == |levels| - 1
      ensures r.Err? ==> r.error == IndexOutOfRange
    {
      if index < 0 || index >= |leaves| {
        return Err(IndexOutOfRange);
      }
      LevelsAreTower(hasher, LeafHashes(hasher, leaves));
      var proof := CollectSiblings(levels, index);
      ProofAccepted(hasher, leaves, index);
      r := Ok(proof);
    }
  }

  /** The loop of Proof. */
  method CollectSiblings(levels: seq<seq<Bytes>>, index: nat) returns (proof: seq<Bytes>)
    requires Tower(levels) && index < |levels[0]|
    ensures proof == Siblings(levels, index)
  {
    proof := [];
    var idx, lvl := index, 0;
    while lvl < |levels| - 1
      invariant 0 <= lvl < |levels| && 0 <= idx < |levels[lvl]| && Tower(levels[lvl..])
      invariant proof + Siblings(levels[lvl..], idx) == Siblings(levels, index)
    {
      var level := levels[lvl];
      var sibling: Bytes;
      if idx % 2 == 0 {
        if idx + 1 < |level| {
          sibling := level[idx + 1];
        } else {
          sibling := level[idx];
        }
      } else {
        sibling := level[idx - 1];
      }
      ghost var rest := levels[lvl..];
      assert rest[1..] == levels[lvl + 1..];
      TowerTail(rest);
      assert proof + ([sibling] + Siblings(rest[1..], idx / 2)) == proof + [sibling] + Siblings(rest[1..], idx / 2);
      proof := proof + [sibling];
      idx := idx / 2;
      lvl := lvl + 1;
    }
    assert proof + [] == proof;
  }

  lemma TowerTail(levels: seq<seq<Bytes>>)
    requires Tower(levels) && |levels| > 1
    ensures Tower(levels[1..])
  {
    forall k | 0 < k < |levels[1..]| ensures |levels[1..][k]| == (|levels[1..][k - 1]| + 1) / 2 {
      assert levels[1..][k] == levels[k + 1] && levels[1..][k - 1] == levels[k];
    }
  }

  /** NewStandardMerkleTree. */
  method NewTree(hasher: Hasher, leaves: seq<Bytes>) returns (r: Result<StandardMerkleTree, Error>)
    ensures r.Ok? <==> leaves != []
    ensures r.Ok? ==> r.value.Valid() && r.value.leaves == leaves && r.value.hasher == hasher
  {
    if |leaves| == 0 {
      return Err(NoLeaves);
    }
    var tree := new StandardMerkleTree(hasher, leaves);
    r := Ok(tree);
  }
}
