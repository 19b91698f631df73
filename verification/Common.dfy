/** Unsigned 64-bit arithmetic as Go's uint64 has it: every result is reduced modulo 2^64. */
module Word64 {
  const MOD: int := 0x1_0000_0000_0000_0000

  type u64 = x: int | 0 <= x < MOD

  function Add(a: u64, b: u64): u64 { (a + b) % MOD }

  function Sub(a: u64, b: u64): u64 { (a - b) % MOD }

  function Mul(a: u64, b: u64): u64 { (a * b) % MOD }

  /** A running uint64 total is the exact total reduced. */
  lemma AddReduced(exact: int, b: u64)
    ensures Add(exact % MOD, b) == (exact + b) % MOD
  {
  }

  lemma AddCases(a: u64, b: u64)
    ensures Add(a, b) == if a + b < MOD then a + b else a + b - MOD
  {
  }

  lemma SubCases(a: u64, b: u64)
    ensures Sub(a, b) == if b <= a then a - b else a - b + MOD
  {
  }

  /** Moving an amount from one number to another keeps their uint64 sum, also when it wraps. */
  lemma MoveKeepsSum(a: u64, b: u64, x: u64)
    ensures Add(Sub(a, x), Add(b, x)) == Add(a, b)
  {
    SubCases(a, x);
    AddCases(b, x);
    AddCases(a, b);
    AddCases(Sub(a, x), Add(b, x));
  }

  lemma SubReduced(exact: int, b: u64)
    ensures Sub(exact % MOD, b) == (exact - b) % MOD
  {
  }
}

/** Go's error returns: a value, or the reason the call was refused. */
module Results {
  datatype Option<+T> = None | Some(value: T)

  datatype Result<+T, +E> = Ok(value: T) | Err(error: E)
}

/** Sums over finite maps. Go iterates a map in no fixed order; `Split` is what makes the sum
    independent of that order. */
module MapSums {

  ghost function Sum<K(!new)>(m: map<K, int>): int {
    if m == map[] then 0
    else
      var k :| k in m;
      m[k] + Sum(m - {k})
  }

  /** Any key can be taken out first. */
  lemma {:induction false} Split<K(!new)>(m: map<K, int>, k: K)
    requires k in m
    ensures Sum(m) == m[k] + Sum(m - {k})
    decreases |m|
  {
    var j :| j in m && Sum(m) == m[j] + Sum(m - {j});
    if j != k {
      assert |m - {j}| < |m| && |m - {k}| < |m| by { Smaller(m, j); Smaller(m, k); }
      Split(m - {j}, k);
      Split(m - {k}, j);
      assert m - {j} - {k} == m - {k} - {j};
    }
  }

  lemma Smaller<K, V>(m: map<K, V>, k: K)
    requires k in m
    ensures |m - {k}| == |m| - 1
  {
    assert (m - {k}).Keys == m.Keys - {k};
  }

  lemma Update<K(!new)>(m: map<K, int>, k: K, v: int)
    ensures Sum(m[k := v]) == Sum(m) + v - (if k in m then m[k] else 0)
  {
    Split(m[k := v], k);
    if k in m {
      Split(m, k);
      assert m[k := v] - {k} == m - {k};
    } else {
      assert m[k := v] - {k} == m;
    }
  }

  /** The part of a map still to be visited by a loop over its keys. */
  ghost function Among<K(!new)>(m: map<K, int>, keys: set<K>): map<K, int> {
    map k | k in keys && k in m :: m[k]
  }

  lemma TakeOut<K(!new)>(m: map<K, int>, keys: set<K>, k: K)
    requires k in keys && keys <= m.Keys
    ensures Sum(Among(m, keys)) == m[k] + Sum(Among(m, keys - {k}))
  {
    Split(Among(m, keys), k);
    assert Among(m, keys) - {k} == Among(m, keys - {k});
  }

  /** A part of a map of non-negative numbers adds up to no more than the whole. */
  lemma {:induction false} Part<K(!new)>(part: map<K, int>, m: map<K, int>)
    requires forall k :: k in m ==> m[k] >= 0
    requires forall k :: k in part ==> k in m && part[k] == m[k]
    ensures 0 <= Sum(part) <= Sum(m)
    decreases |m|
  {
    if m == map[] {
      assert part == map[];
    } else {
      var k :| k in m;
      Split(m, k);
      Smaller(m, k);
      if k in part {
        Split(part, k);
        Part(part - {k}, m - {k});
      } else {
        Part(part, m - {k});
      }
    }
  }
}

/** Facts about sequences used as FIFO queues and as sorted price lists. */
module Seqs {

  predicate Distinct<T(==)>(s: seq<T>) {
    forall i, j :: 0 <= i < j < |s| ==> s[i] != s[j]
  }

  /** Removes the first occurrence of x. */
  function Without<T(==)>(s: seq<T>, x: T): seq<T> {
    if s == [] then []
    else if s[0] == x then s[1..]
    else [s[0]] + Without(s[1..], x)
  }

  /** From a sequence without repetitions, `Without` removes x and nothing else. */
  lemma {:induction false} WithoutElements<T(!new)>(s: seq<T>, x: T)
    requires Distinct(s)
    ensures Distinct(Without(s, x))
    ensures forall y :: y in Without(s, x) <==> y in s && y != x
    ensures x !in s ==> Without(s, x) == s
  {
    if s != [] {
      var rest := s[1..];
      assert s == [s[0]] + rest;
      assert s[0] !in rest;
      if s[0] != x {
        WithoutElements(rest, x);
        var w := Without(rest, x);
        assert forall y :: y in w ==> y in rest;
        assert s[0] !in w;
      }
    }
  }

  /** At a known position, removal is a cut. */
  lemma {:induction false} WithoutAt<T>(s: seq<T>, i: nat)
    requires i < |s| && s[i] !in s[..i]
    ensures Without(s, s[i]) == s[..i] + s[i + 1..]
  {
    if i == 0 {
    } else {
      assert s[0] == s[..i][0];
      assert s[1..][..i - 1] == s[..i][1..];
      WithoutAt(s[1..], i - 1);
    }
  }

  /** The order of a price list: descending for bids, ascending for asks. */
  predicate Before(descending: bool, p: nat, q: nat) {
    if descending then p > q else p < q
  }

  predicate Sorted(ps: seq<nat>, descending: bool) {
    forall i, j :: 0 <= i < j < |ps| ==> Before(descending, ps[i], ps[j])
  }

  function Insert(ps: seq<nat>, p: nat, descending: bool): seq<nat> {
    if ps == [] then [p]
    else if Before(descending, p, ps[0]) then [p] + ps
    else [ps[0]] + Insert(ps[1..], p, descending)
  }

  lemma {:induction false} InsertSorted(ps: seq<nat>, p: nat, descending: bool)
    requires Sorted(ps, descending) && p !in ps
    ensures Sorted(Insert(ps, p, descending), descending)
    ensures forall q :: q in Insert(ps, p, descending) <==> q == p || q in ps
    ensures |Insert(ps, p, descending)| == |ps| + 1
  {
    if ps != [] {
      assert ps == [ps[0]] + ps[1..];
      if Before(descending, p, ps[0]) {
        SortedCons(p, ps, descending);
      } else {
        InsertSorted(ps[1..], p, descending);
        SortedCons(ps[0], Insert(ps[1..], p, descending), descending);
      }
    }
  }

  lemma SortedCons(p: nat, ps: seq<nat>, descending: bool)
    requires Sorted(ps, descending) && forall q :: q in ps ==> Before(descending, p, q)
    ensures Sorted([p] + ps, descending)
  {
    var s := [p] + ps;
    assert forall j :: 0 < j < |s| ==> s[j] == ps[j - 1] && s[j] in ps;
  }

  lemma {:induction false} WithoutSorted(ps: seq<nat>, p: nat, descending: bool)
    requires Sorted(ps, descending)
    ensures Sorted(Without(ps, p), descending)
    ensures forall q :: q in Without(ps, p) <==> q in ps && q != p
  {
    if ps != [] {
      assert ps == [ps[0]] + ps[1..];
      if ps[0] != p {
        WithoutSorted(ps[1..], p, descending);
        SortedCons(ps[0], Without(ps[1..], p), descending);
      }
    }
  }

  /** A strictly sorted list is determined by its elements. */
  lemma {:induction false} SortedUnique(ps: seq<nat>, qs: seq<nat>, descending: bool)
    requires Sorted(ps, descending) && Sorted(qs, descending)
    requires forall p :: p in ps <==> p in qs
    ensures ps == qs
  {
    assert |ps| > 0 ==> ps[0] in ps;
    assert |qs| > 0 ==> qs[0] in qs;
    if ps != [] {
      assert ps[0] == qs[0];
      assert ps == [ps[0]] + ps[1..] && qs == [qs[0]] + qs[1..];
      forall p ensures p in ps[1..] <==> p in qs[1..] {
        assert p in ps <==> p in qs;
      }
      SortedUnique(ps[1..], qs[1..], descending);
    }
  }

  /** The least element of a non-empty set of prices. */
  ghost function Least(s: set<nat>): (p: nat)
    requires s != {}
    ensures p in s && forall q :: q in s ==> p <= q
  {
    var x :| x in s;
    if s == {x} then x
    else
      var rest := s - {x};
      assert s == rest + {x};
      assert rest != {};
      var y := Least(rest);
      if x < y then x else y
  }

  /** A set of prices from the lowest to the highest. */
  ghost function Ascending(s: set<nat>): seq<nat> {
    if s == {} then [] else [Least(s)] + Ascending(s - {Least(s)})
  }
}
