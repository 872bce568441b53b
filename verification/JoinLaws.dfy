/** How the four kinds of join relate (python/graphed/awkward/join.py). */
module JoinLaws {
  import opened Collections
  import opened Joining

  // ---- which pairs each kind keeps ---------------------------------------------------------------

  /** A left and right join keep the misses of one side, an outer join of both, an inner join none; every kind keeps
      the matches. */
  lemma PairsByHow<K>(bkeys: seq<K>, pkeys: seq<K>, how: How, i: nat, j: nat)
    ensures (i, j) in Pairs(bkeys, pkeys, how) <==> i < |bkeys| && j < |pkeys| && bkeys[i] == pkeys[j]
    ensures (i, -1) in Pairs(bkeys, pkeys, how) <==> i < |bkeys| && bkeys[i] !in pkeys && (how == Left || how == Outer)
    ensures (-1, j) in Pairs(bkeys, pkeys, how) <==> j < |pkeys| && pkeys[j] !in bkeys && (how == Right || how == Outer)
    ensures (-1, -1) !in Pairs(bkeys, pkeys, how)
  {
    hide Pairs;
    PairsAreRelated(bkeys, pkeys, how);
  }

  lemma {:induction false} PairsDistinct<K>(bkeys: seq<K>, pkeys: seq<K>, how: How, a: nat, b: nat)
    requires a < b < |Pairs(bkeys, pkeys, how)|
    ensures Pairs(bkeys, pkeys, how)[a] != Pairs(bkeys, pkeys, how)[b]
  {
    hide BuildPairs, ProbeMisses, Relates;
    BuildPairsInOrder(bkeys, pkeys, how, |bkeys|);
    BuildPairsAre(bkeys, pkeys, how, |bkeys|);
    ProbeMissesInOrder(bkeys, pkeys, |pkeys|);
    ProbeMissesAre(bkeys, pkeys, |pkeys|);
    var built := BuildPairs(bkeys, pkeys, how, |bkeys|);
    var all := Pairs(bkeys, pkeys, how);
    if a < |built| {
      assert all[a] in built;
      if b < |built| {
        assert PairBefore(built[a], built[b]);
      } else {
        assert all[b] in ProbeMisses(bkeys, pkeys, |pkeys|);
      }
    } else {
      var misses := ProbeMisses(bkeys, pkeys, |pkeys|);
      assert PairBefore(misses[a - |built|], misses[b - |built|]);
    }
  }

  // ---- a join and its mirror image ---------------------------------------------------------------

  /** Two lists of the same elements, neither twice, hold them equally often. */
  lemma {:induction false} SameElements<T>(xs: seq<T>, ys: seq<T>)
    requires forall x :: x in xs <==> x in ys
    requires forall a, b :: 0 <= a < b < |xs| ==> xs[a] != xs[b]
    requires forall a, b :: 0 <= a < b < |ys| ==> ys[a] != ys[b]
    ensures multiset(xs) == multiset(ys)
  {
    forall x ensures multiset(xs)[x] == multiset(ys)[x] {
      OnceEach(xs, x);
      OnceEach(ys, x);
    }
  }

  lemma {:induction false} OnceEach<T>(xs: seq<T>, x: T)
    requires forall a, b :: 0 <= a < b < |xs| ==> xs[a] != xs[b]
    ensures multiset(xs)[x] == if x in xs then 1 else 0
  {
    if xs != [] {
      var m := |xs| - 1;
      OnceEach(xs[..m], x);
      assert xs == xs[..m] + [xs[m]];
    }
  }

  /** `xs` without its element at `k`. */
  function Removed<T>(xs: seq<T>, k: nat): (r: seq<T>)
    requires k < |xs|
    ensures |r| == |xs| - 1
  {
    xs[..k] + xs[k + 1..]
  }

  lemma RemovedOnce<T>(xs: seq<T>, k: nat)
    requires k < |xs|
    ensures multiset(xs) == multiset(Removed(xs, k)) + multiset{xs[k]}
  {
    assert xs == xs[..k] + ([xs[k]] + xs[k + 1..]);
  }

  lemma RemovedMap<A, B>(f: A -> B, xs: seq<A>, k: nat)
    requires k < |xs|
    ensures Map(f, Removed(xs, k)) == Removed(Map(f, xs), k)
  {
  }

  /** What is made of each element does not depend on their order. */
  lemma {:induction false} PermutedMap<A, B>(f: A -> B, xs: seq<A>, ys: seq<A>)
    requires multiset(xs) == multiset(ys)
    ensures multiset(Map(f, xs)) == multiset(Map(f, ys))
    decreases |xs|
  {
    hide Removed;
    if xs == [] {
      assert |multiset(ys)| == 0;
    } else {
      assert xs[0] in multiset(ys);
      var k := IndexOf(ys, xs[0]);
      RemovedOnce(xs, 0);
      RemovedOnce(ys, k);
      assert multiset(Removed(xs, 0)) == multiset(xs) - multiset{xs[0]} == multiset(Removed(ys, k));
      PermutedMap(f, Removed(xs, 0), Removed(ys, k));
      RemovedMap(f, xs, 0);
      RemovedMap(f, ys, k);
      RemovedOnce(Map(f, xs), 0);
      RemovedOnce(Map(f, ys), k);
    }
  }

  function Flip(p: Pair): Pair { (p.1, p.0) }

  function FlipRow<L, R>(row: Row<L, R>): Row<R, L> { (row.1, row.0) }

  /** The kind that keeps the same misses once the sides are swapped. */
  function Mirrored(how: How): How {
    match how case Inner => Inner case Left => Right case Right => Left case Outer => Outer
  }

  lemma {:induction false} MirroredPairs<K>(bkeys: seq<K>, pkeys: seq<K>, how: How)
    ensures multiset(Map(Flip, Pairs(pkeys, bkeys, Mirrored(how)))) == multiset(Pairs(bkeys, pkeys, how))
  {
    hide Pairs, Relates;
    var ps, qs := Pairs(bkeys, pkeys, how), Map(Flip, Pairs(pkeys, bkeys, Mirrored(how)));
    forall p ensures p in ps <==> p in qs { MirroredPair(bkeys, pkeys, how, p); }
    forall a, b | 0 <= a < b < |ps| ensures ps[a] != ps[b] { PairsDistinct(bkeys, pkeys, how, a, b); }
    forall a, b | 0 <= a < b < |qs| ensures qs[a] != qs[b] { PairsDistinct(pkeys, bkeys, Mirrored(how), a, b); }
    SameElements(qs, ps);
  }

  lemma MirroredPair<K>(bkeys: seq<K>, pkeys: seq<K>, how: How, p: Pair)
    ensures p in Pairs(bkeys, pkeys, how) <==> p in Map(Flip, Pairs(pkeys, bkeys, Mirrored(how)))
  {
    hide Pairs;
    PairsAreRelated(bkeys, pkeys, how);
    PairsAreRelated(pkeys, bkeys, Mirrored(how));
    var other := Pairs(pkeys, bkeys, Mirrored(how));
    if Flip(p) in other {
      var k := IndexOf(other, Flip(p));
      assert Map(Flip, other)[k] == p;
    }
    if p in Map(Flip, other) {
      var k := IndexOf(Map(Flip, other), p);
      assert Flip(p) == other[k];
    }
  }

  /** The row of any pair, none where an index is out of range. */
  function RowAt<L, R>(ls: seq<L>, rs: seq<R>): Pair -> Row<L, R> {
    (p: Pair) => (if 0 <= p.0 < |ls| then Some(ls[p.0]) else None, if 0 <= p.1 < |rs| then Some(rs[p.1]) else None)
  }

  lemma RowsAreMapped<L, R>(ls: seq<L>, rs: seq<R>, ps: seq<Pair>)
    requires Indices(ps, |ls|, |rs|)
    ensures RowsOf(ls, rs, ps) == Map(RowAt(ls, rs), ps)
  {
  }

  /** A join is its mirror image with each row flipped: a right join is a left join of the swapped sides, and inner
      and outer joins are their own mirror images. */
  lemma {:induction false} JoinIsMirrored<K, L, R>(keys: Keys<K, L, R>, ls: seq<L>, rs: seq<R>, how: How)
    ensures var mirrored := match how case Inner => Inner case Left => Right case Right => Left case Outer => Outer;
      multiset(Joined(keys, ls, rs, how)) == multiset(Map(FlipRow, Joined(Keys(keys.right, keys.left), rs, ls, mirrored)))
  {
    hide Pairs;
    var lk, rk := Map(keys.left, ls), Map(keys.right, rs);
    var ps, qs := Pairs(lk, rk, how), Pairs(rk, lk, Mirrored(how));
    PairsAreIndices(lk, rk, how);
    PairsAreIndices(rk, lk, Mirrored(how));
    RowsAreMapped(ls, rs, ps);
    MirroredPairs(lk, rk, how);
    PermutedMap(RowAt(ls, rs), Map(Flip, qs), ps);
    FlippedRows(ls, rs, qs);
  }

  lemma FlippedRows<L, R>(ls: seq<L>, rs: seq<R>, qs: seq<Pair>)
    requires Indices(qs, |rs|, |ls|)
    ensures Map(FlipRow, RowsOf(rs, ls, qs)) == Map(RowAt(ls, rs), Map(Flip, qs))
  {
  }

  // ---- what the kinds add to an inner join -------------------------------------------------------

  /** A left row without a match, beside nothing. */
  ghost function LoneLeft<K, L, R>(keys: Keys<K, L, R>, rs: seq<R>): L -> multiset<Row<L, R>> {
    (l: L) => if keys.left(l) in Map(keys.right, rs) then multiset{} else multiset{(Some(l), None)}
  }

  ghost function LoneRight<K, L, R>(keys: Keys<K, L, R>, ls: seq<L>): R -> multiset<Row<L, R>> {
    (r: R) => if keys.right(r) in Map(keys.left, ls) then multiset{} else multiset{(None, Some(r))}
  }

  lemma {:induction false} LeftSum<K, L, R>(keys: Keys<K, L, R>, xs: seq<L>, rs: seq<R>, how: How)
    ensures SumOf(LeftRows(keys, rs, how), xs) == SumOf(LeftRows(keys, rs, Inner), xs)
      + if how == Left || how == Outer then SumOf(LoneLeft(keys, rs), xs) else multiset{}
  {
    hide LeftRows, LoneLeft;
    if xs != [] {
      LeftSum(keys, xs[..|xs| - 1], rs, how);
      LeftRowSum(keys, xs[|xs| - 1], rs, how);
    }
  }

  lemma LeftRowSum<K, L, R>(keys: Keys<K, L, R>, l: L, rs: seq<R>, how: How)
    ensures LeftRows(keys, rs, how)(l) == LeftRows(keys, rs, Inner)(l)
      + if how == Left || how == Outer then LoneLeft(keys, rs)(l) else multiset{}
  {
    hide Matching;
    NoneMatching(keys.right, rs, keys.left(l));
  }

  lemma {:induction false} RightSum<K, L, R>(keys: Keys<K, L, R>, ls: seq<L>, xs: seq<R>, how: How)
    ensures SumOf(RightRows(keys, ls, how), xs) == if how == Right || how == Outer then SumOf(LoneRight(keys, ls), xs) else multiset{}
  {
    hide Matching;
    if xs != [] {
      RightSum(keys, ls, xs[..|xs| - 1], how);
      NoneMatching(keys.left, ls, keys.right(xs[|xs| - 1]));
    }
  }

  /** A left join is the inner join and the left rows without a match, each beside nothing; a right join is the
      inner join and the lone right rows; an outer join is all three. */
  lemma {:induction false} JoinIsInnerAndLone<K, L, R>(keys: Keys<K, L, R>, ls: seq<L>, rs: seq<R>, how: How)
    ensures multiset(Joined(keys, ls, rs, how)) == multiset(Joined(keys, ls, rs, Inner))
      + (if how == Left || how == Outer then SumOf(LoneLeft(keys, rs), ls) else multiset{})
      + (if how == Right || how == Outer then SumOf(LoneRight(keys, ls), rs) else multiset{})
    ensures multiset(Joined(keys, ls, rs, Inner)) <= multiset(Joined(keys, ls, rs, how)) <= multiset(Joined(keys, ls, rs, Outer))
  {
    hide Joined, LeftRows, RightRows, SumOf;
    JoinedIsSum(keys, ls, rs, how);
    JoinedIsSum(keys, ls, rs, Inner);
    JoinedIsSum(keys, ls, rs, Outer);
    LeftSum(keys, ls, rs, how);
    LeftSum(keys, ls, rs, Outer);
    RightSum(keys, ls, rs, how);
    RightSum(keys, ls, rs, Inner);
    RightSum(keys, ls, rs, Outer);
  }
}
