/** The join, whole and distributed (python/graphed/awkward/join.py). */
module Joining {
  import opened Collections

  datatype How = Inner | Left | Right | Outer

  predicate KeepsLeft(how: How) { how.Left? || how.Outer? }

  predicate KeepsRight(how: How) { how.Right? || how.Outer? }

  // ---- matching ---------------------------------------------------------------------------------

  const MISS := -1

  type Pair = (int, int)

  /** Where `k` occurs, ascending. */
  function Spots<K(==)>(keys: seq<K>, k: K): (r: seq<nat>)
    ensures Below(r, |keys|)
  {
    if keys == [] then []
    else
      var m := |keys| - 1;
      Spots(keys[..m], k) + if keys[m] == k then [m] else []
  }

  /** The pairs of one build row. */
  function PairsOf(i: nat, spots: seq<nat>, how: How): seq<Pair> {
    if spots == [] then (if KeepsLeft(how) then [(i, MISS)] else [])
    else seq(|spots|, k requires 0 <= k < |spots| => (i, spots[k]))
  }

  /** The pairs of the first `n` build rows. */
  function BuildPairs<K(==)>(bkeys: seq<K>, pkeys: seq<K>, how: How, n: nat): seq<Pair>
    requires n <= |bkeys|
  {
    if n == 0 then [] else BuildPairs(bkeys, pkeys, how, n - 1) + PairsOf(n - 1, Spots(pkeys, bkeys[n - 1]), how)
  }

  /** The miss of probe row `j`, if no build row has its key. */
  function MissOf<K(==)>(bkeys: seq<K>, key: K, j: nat): seq<Pair> {
    if key in bkeys then [] else [(MISS, j)]
  }

  /** The misses among the first `n` probe rows. */
  function ProbeMisses<K(==)>(bkeys: seq<K>, pkeys: seq<K>, n: nat): seq<Pair>
    requires n <= |pkeys|
  {
    if n == 0 then [] else ProbeMisses(bkeys, pkeys, n - 1) + MissOf(bkeys, pkeys[n - 1], n - 1)
  }

  function Pairs<K(==)>(bkeys: seq<K>, pkeys: seq<K>, how: How): seq<Pair> {
    BuildPairs(bkeys, pkeys, how, |bkeys|) + if KeepsRight(how) then ProbeMisses(bkeys, pkeys, |pkeys|) else []
  }

  function Firsts(ps: seq<Pair>): (r: seq<int>)
    ensures |r| == |ps| && forall k :: 0 <= k < |r| ==> r[k] == ps[k].0
  {
    seq(|ps|, k requires 0 <= k < |ps| => ps[k].0)
  }

  function Seconds(ps: seq<Pair>): (r: seq<int>)
    ensures |r| == |ps| && forall k :: 0 <= k < |r| ==> r[k] == ps[k].1
  {
    seq(|ps|, k requires 0 <= k < |ps| => ps[k].1)
  }

  /** Every key's positions so far. */
  ghost predicate Indexes<K(!new)>(pmap: map<K, seq<nat>>, keys: seq<K>) {
    forall k {:trigger k in pmap} :: (k in pmap <==> k in keys) && (k in pmap ==> pmap[k] == Spots(keys, k))
  }

  lemma {:induction false} SpotsAre<K>(keys: seq<K>, k: K)
    ensures forall j :: j in Spots(keys, k) <==> 0 <= j < |keys| && keys[j] == k
    ensures Spots(keys, k) == [] <==> k !in keys
  {
    if keys != [] {
      var m := |keys| - 1;
      SpotsAre(keys[..m], k);
      assert keys == keys[..m] + [keys[m]];
    }
  }

  method IndexKeys<K(==, !new)>(keys: seq<K>) returns (pmap: map<K, seq<nat>>)
    ensures Indexes(pmap, keys)
  {
    pmap := map[];
    for j := 0 to |keys|
      invariant Indexes(pmap, keys[..j])
    {
      IndexNext(pmap, keys, j);
      pmap := pmap[keys[j] := (if keys[j] in pmap then pmap[keys[j]] else []) + [j]];
    }
    assert keys[..|keys|] == keys;
  }

  lemma IndexNext<K(!new)>(pmap: map<K, seq<nat>>, keys: seq<K>, j: nat)
    requires j < |keys| && Indexes(pmap, keys[..j])
    ensures Indexes(pmap[keys[j] := (if keys[j] in pmap then pmap[keys[j]] else []) + [j]], keys[..j + 1])
  {
    TakeMore(keys, j);
    assert keys[..j + 1][..j] == keys[..j];
    SpotsAre(keys[..j], keys[j]);
    var more := pmap[keys[j] := (if keys[j] in pmap then pmap[keys[j]] else []) + [j]];
    forall k | k in more ensures k in keys[..j + 1] && more[k] == Spots(keys[..j + 1], k) {
      if k != keys[j] { assert Spots(keys[..j], k) + [] == Spots(keys[..j], k); }
    }
  }

  /** `ps` as two aligned index lists. */
  predicate Aligned(ps: seq<Pair>, bOut: seq<int>, pOut: seq<int>) {
    bOut == Firsts(ps) && pOut == Seconds(ps)
  }

  lemma AlignedMore(ps: seq<Pair>, bOut: seq<int>, pOut: seq<int>, more: seq<Pair>)
    requires Aligned(ps, bOut, pOut)
    ensures Aligned(ps + more, bOut + Firsts(more), pOut + Seconds(more))
  {
  }

  /** `match_indices`: aligned build and probe indices, a miss as -1. */
  method MatchIndices<K(==, !new)>(bkeys: seq<K>, pkeys: seq<K>, how: How) returns (bOut: seq<int>, pOut: seq<int>)
    ensures Aligned(Pairs(bkeys, pkeys, how), bOut, pOut)
  {
    hide BuildPairs, ProbeMisses, Aligned;
    var matched;
    bOut, pOut, matched := MatchBuild(bkeys, pkeys, how);
    ghost var built := BuildPairs(bkeys, pkeys, how, |bkeys|);
    if KeepsRight(how) {
      bOut, pOut := EmitMisses(bkeys, pkeys, built, bOut, pOut, matched);
    } else {
      assert built + [] == built;
    }
  }

  method MatchBuild<K(==, !new)>(bkeys: seq<K>, pkeys: seq<K>, how: How)
    returns (bOut: seq<int>, pOut: seq<int>, matched: set<nat>)
    ensures Aligned(BuildPairs(bkeys, pkeys, how, |bkeys|), bOut, pOut)
    ensures forall j: nat :: j in matched <==> j < |pkeys| && pkeys[j] in bkeys
  {
    hide Aligned, Spots, PairsOf;
    var pmap := IndexKeys(pkeys);
    bOut, pOut, matched := [], [], {};
    NothingAligned();
    for i := 0 to |bkeys|
      invariant Aligned(BuildPairs(bkeys, pkeys, how, i), bOut, pOut)
      invariant forall j: nat :: j in matched <==> j < |pkeys| && pkeys[j] in bkeys[..i]
    {
      ghost var built := BuildPairs(bkeys, pkeys, how, i);
      SpotsAre(pkeys, bkeys[i]);
      TakeMore(bkeys, i);
      RowPairs(i, Spots(pkeys, bkeys[i]), how);
      if bkeys[i] in pmap {
        bOut, pOut, matched := EmitMatches(pkeys, bkeys[i], how, i, pmap[bkeys[i]], built, bOut, pOut, matched);
      } else if KeepsLeft(how) {
        AlignedMore(built, bOut, pOut, [(i, MISS)]);
        OnePair((i, MISS));
        bOut, pOut := bOut + [i], pOut + [MISS];
      } else {
        assert built + [] == built;
      }
    }
    assert bkeys[..|bkeys|] == bkeys;
  }

  lemma OnePair(p: Pair)
    ensures Firsts([p]) == [p.0] && Seconds([p]) == [p.1]
  {
  }

  lemma NothingAligned()
    ensures Aligned([], [], [])
  {
  }

  lemma RowPairs(i: nat, spots: seq<nat>, how: How)
    ensures spots == [] ==> PairsOf(i, spots, how) == if KeepsLeft(how) then [(i, MISS)] else []
  {
  }

  method EmitMatches<K(==)>(ghost pkeys: seq<K>, ghost key: K, how: How, i: nat, ms: seq<nat>, ghost built: seq<Pair>,
                            bOut0: seq<int>, pOut0: seq<int>, matched0: set<nat>)
    returns (bOut: seq<int>, pOut: seq<int>, matched: set<nat>)
    requires ms == Spots(pkeys, key) && ms != [] && Aligned(built, bOut0, pOut0)
    ensures Aligned(built + PairsOf(i, ms, how), bOut, pOut)
    ensures forall j: nat :: j in matched <==> j in matched0 || (j < |pkeys| && pkeys[j] == key)
  {
    hide Aligned, Spots;
    bOut, pOut, matched := bOut0, pOut0, matched0;
    ghost var ps := PairsOf(i, ms, how);
    assert built + ps[..0] == built;
    for k := 0 to |ms|
      invariant Aligned(built + ps[..k], bOut, pOut)
      invariant forall j: nat :: j in matched <==> j in matched0 || j in ms[..k]
    {
      TakeMore(ms, k);
      TakeMore(ps, k);
      AlignedMore(built + ps[..k], bOut, pOut, [ps[k]]);
      OnePair(ps[k]);
      assert built + ps[..k] + [ps[k]] == built + ps[..k + 1];
      bOut, pOut, matched := bOut + [i], pOut + [ms[k]], matched + {ms[k]};
    }
    assert ms[..|ms|] == ms && ps[..|ms|] == ps;
    SpotsAre(pkeys, key);
  }

  method EmitMisses<K(==)>(ghost bkeys: seq<K>, pkeys: seq<K>, ghost built: seq<Pair>, bOut0: seq<int>, pOut0: seq<int>, matched: set<nat>)
    returns (bOut: seq<int>, pOut: seq<int>)
    requires Aligned(built, bOut0, pOut0)
    requires forall j: nat :: j in matched <==> j < |pkeys| && pkeys[j] in bkeys
    ensures Aligned(built + ProbeMisses(bkeys, pkeys, |pkeys|), bOut, pOut)
  {
    hide Aligned;
    bOut, pOut := bOut0, pOut0;
    assert built + [] == built;
    for j := 0 to |pkeys|
      invariant Aligned(built + ProbeMisses(bkeys, pkeys, j), bOut, pOut)
    {
      ghost var before := ProbeMisses(bkeys, pkeys, j);
      if j !in matched {
        AlignedMore(built + before, bOut, pOut, [(MISS, j)]);
        OnePair((MISS, j));
        assert built + before + [(MISS, j)] == built + (before + [(MISS, j)]);
        bOut, pOut := bOut + [MISS], pOut + [j];
      } else {
        assert before + [] == before;
      }
    }
  }

  // ---- what a join is ---------------------------------------------------------------------------

  /** The relational meaning of a pair of indices. */
  predicate Relates<K(==)>(bkeys: seq<K>, pkeys: seq<K>, how: How, p: Pair) {
    || (0 <= p.0 < |bkeys| && 0 <= p.1 < |pkeys| && bkeys[p.0] == pkeys[p.1])
    || (0 <= p.0 < |bkeys| && p.1 == MISS && KeepsLeft(how) && bkeys[p.0] !in pkeys)
    || (p.0 == MISS && 0 <= p.1 < |pkeys| && KeepsRight(how) && pkeys[p.1] !in bkeys)
  }

  lemma {:induction false} BuildPairsAre<K>(bkeys: seq<K>, pkeys: seq<K>, how: How, n: nat)
    requires n <= |bkeys|
    ensures forall p :: p in BuildPairs(bkeys, pkeys, how, n) <==> p.0 < n && 0 <= p.0 && Relates(bkeys, pkeys, how, p)
  {
    hide Spots, PairsOf, Relates;
    if n > 0 {
      BuildPairsAre(bkeys, pkeys, how, n - 1);
      var row := PairsOf(n - 1, Spots(pkeys, bkeys[n - 1]), how);
      forall p ensures p in row <==> p.0 == n - 1 && Relates(bkeys, pkeys, how, p) {
        PairOfRow(bkeys, pkeys, how, n - 1, p);
      }
    }
  }

  lemma PairOfRow<K>(bkeys: seq<K>, pkeys: seq<K>, how: How, i: nat, p: Pair)
    requires i < |bkeys|
    ensures p in PairsOf(i, Spots(pkeys, bkeys[i]), how) <==> p.0 == i && Relates(bkeys, pkeys, how, p)
  {
    var spots := Spots(pkeys, bkeys[i]);
    SpotsAre(pkeys, bkeys[i]);
    if p.0 == i && Relates(bkeys, pkeys, how, p) && spots != [] {
      var k := IndexOf(spots, p.1);
      assert PairsOf(i, spots, how)[k] == p;
    }
    if p in PairsOf(i, spots, how) && spots != [] {
      var k :| 0 <= k < |spots| && p == (i, spots[k]);
      assert spots[k] in spots;
    }
  }

  lemma {:induction false} ProbeMissesAre<K>(bkeys: seq<K>, pkeys: seq<K>, n: nat)
    requires n <= |pkeys|
    ensures forall p :: p in ProbeMisses(bkeys, pkeys, n) <==> p.0 == MISS && 0 <= p.1 < n && pkeys[p.1] !in bkeys
  {
    if n > 0 { ProbeMissesAre(bkeys, pkeys, n - 1); }
  }

  /** The pairs are exactly the related ones. */
  lemma PairsAreRelated<K>(bkeys: seq<K>, pkeys: seq<K>, how: How)
    ensures forall p :: p in Pairs(bkeys, pkeys, how) <==> Relates(bkeys, pkeys, how, p)
  {
    BuildPairsAre(bkeys, pkeys, how, |bkeys|);
    ProbeMissesAre(bkeys, pkeys, |pkeys|);
  }

  predicate PairBefore(p: Pair, q: Pair) {
    p.0 < q.0 || (p.0 == q.0 && p.1 < q.1)
  }

  ghost predicate InOrder(ps: seq<Pair>) {
    forall a, b :: 0 <= a < b < |ps| ==> PairBefore(ps[a], ps[b])
  }

  lemma {:induction false} SpotsAscend<K>(keys: seq<K>, k: K)
    ensures Ascending(Spots(keys, k))
  {
    if keys != [] { SpotsAscend(keys[..|keys| - 1], k); }
  }

  /** Build rows first, in build order then probe order; then the probe misses, in probe order; nothing
      twice. */
  lemma {:induction false} BuildPairsInOrder<K>(bkeys: seq<K>, pkeys: seq<K>, how: How, n: nat)
    requires n <= |bkeys|
    ensures InOrder(BuildPairs(bkeys, pkeys, how, n))
  {
    hide Spots;
    if n > 0 {
      BuildPairsInOrder(bkeys, pkeys, how, n - 1);
      BuildPairsAre(bkeys, pkeys, how, n - 1);
      var before := BuildPairs(bkeys, pkeys, how, n - 1);
      var row := PairsOf(n - 1, Spots(pkeys, bkeys[n - 1]), how);
      SpotsAscend(pkeys, bkeys[n - 1]);
      RowInOrder(n - 1, Spots(pkeys, bkeys[n - 1]), how);
      forall a | 0 <= a < |before| ensures before[a].0 < n - 1 { assert before[a] in before; }
      InOrderJoin(before, row, n - 1);
    }
  }

  lemma RowInOrder(i: nat, spots: seq<nat>, how: How)
    requires Ascending(spots)
    ensures InOrder(PairsOf(i, spots, how)) && forall b :: 0 <= b < |PairsOf(i, spots, how)| ==> PairsOf(i, spots, how)[b].0 == i
  {
  }

  lemma InOrderJoin(before: seq<Pair>, row: seq<Pair>, i: nat)
    requires InOrder(before) && InOrder(row)
    requires forall a :: 0 <= a < |before| ==> before[a].0 < i
    requires forall b :: 0 <= b < |row| ==> row[b].0 == i
    ensures InOrder(before + row)
  {
    var all := before + row;
    forall a, b | 0 <= a < b < |all| ensures PairBefore(all[a], all[b]) {
      if b >= |before| && a >= |before| {
        assert PairBefore(row[a - |before|], row[b - |before|]);
      }
    }
  }

  lemma {:induction false} ProbeMissesInOrder<K>(bkeys: seq<K>, pkeys: seq<K>, n: nat)
    requires n <= |pkeys|
    ensures InOrder(ProbeMisses(bkeys, pkeys, n))
  {
    if n > 0 {
      ProbeMissesInOrder(bkeys, pkeys, n - 1);
      ProbeMissesAre(bkeys, pkeys, n - 1);
      var before := ProbeMisses(bkeys, pkeys, n - 1);
      forall a | 0 <= a < |before| ensures before[a].0 == MISS && before[a].1 < n - 1 { assert before[a] in before; }
    }
  }

  // ---- the joined rows --------------------------------------------------------------------------

  /** `take`: a miss is no row, never the last one. */
  function Taken<A>(block: seq<A>, index: seq<int>): (r: seq<Option<A>>)
    requires forall k :: 0 <= k < |index| ==> MISS <= index[k] < |block|
    ensures |r| == |index|
  {
    seq(|index|, k requires 0 <= k < |index| => if index[k] == MISS then None else Some(block[index[k]]))
  }

  type Row<+L, +R> = (Option<L>, Option<R>)

  datatype Keys<!K, !L, !R> = Keys(left: L -> K, right: R -> K)

  function RowOf<L, R>(ls: seq<L>, rs: seq<R>, p: Pair): Row<L, R>
    requires MISS <= p.0 < |ls| && MISS <= p.1 < |rs|
  {
    (if p.0 == MISS then None else Some(ls[p.0]), if p.1 == MISS then None else Some(rs[p.1]))
  }

  predicate Indices(ps: seq<Pair>, n: nat, m: nat) {
    forall k :: 0 <= k < |ps| ==> MISS <= ps[k].0 < n && MISS <= ps[k].1 < m
  }

  function RowsOf<L, R>(ls: seq<L>, rs: seq<R>, ps: seq<Pair>): (r: seq<Row<L, R>>)
    requires Indices(ps, |ls|, |rs|)
    ensures |r| == |ps|
    ensures forall k :: 0 <= k < |r| ==> r[k] == RowOf(ls, rs, ps[k])
  {
    seq(|ps|, k requires 0 <= k < |ps| => RowOf(ls, rs, ps[k]))
  }

  lemma PairsAreIndices<K>(bkeys: seq<K>, pkeys: seq<K>, how: How)
    ensures Indices(Pairs(bkeys, pkeys, how), |bkeys|, |pkeys|)
  {
    PairsAreRelated(bkeys, pkeys, how);
    var ps := Pairs(bkeys, pkeys, how);
    forall k | 0 <= k < |ps| ensures MISS <= ps[k].0 < |bkeys| && MISS <= ps[k].1 < |pkeys| { assert ps[k] in ps; }
  }

  /** The rows of `ls` joined with `rs`. */
  function Joined<K(==), L, R>(keys: Keys<K, L, R>, ls: seq<L>, rs: seq<R>, how: How): seq<Row<L, R>> {
    var lk, rk := Map(keys.left, ls), Map(keys.right, rs);
    PairsAreIndices(lk, rk, how);
    RowsOf(ls, rs, Pairs(lk, rk, how))
  }

  /** Match, then take both sides. */
  method Join<K(==, !new), L, R>(keys: Keys<K, L, R>, ls: seq<L>, rs: seq<R>, how: How)
    returns (left: seq<Option<L>>, right: seq<Option<R>>)
    ensures |left| == |right| == |Joined(keys, ls, rs, how)|
    ensures forall k :: 0 <= k < |left| ==> Joined(keys, ls, rs, how)[k] == (left[k], right[k])
  {
    var lk, rk := Map(keys.left, ls), Map(keys.right, rs);
    var li, ri := MatchIndices(lk, rk, how);
    PairsAreIndices(lk, rk, how);
    left := Taken(ls, li);
    right := Taken(rs, ri);
  }

  // ---- the rows as a multiset -------------------------------------------------------------------

  ghost function SumOf<A, T>(f: A -> multiset<T>, xs: seq<A>): multiset<T> {
    if xs == [] then multiset{} else SumOf(f, xs[..|xs| - 1]) + f(xs[|xs| - 1])
  }

  function Matching<K(==), A>(key: A -> K, xs: seq<A>, k: K): (r: seq<A>)
    ensures forall j :: 0 <= j < |r| ==> key(r[j]) == k
  {
    if xs == [] then []
    else
      var m := |xs| - 1;
      Matching(key, xs[..m], k) + if key(xs[m]) == k then [xs[m]] else []
  }

  function Beside<L, R>(l: L, rs: seq<R>): (r: seq<Row<L, R>>) {
    Map((r: R) => (Some(l), Some(r)), rs)
  }

  /** What one left row contributes. */
  ghost function LeftRows<K, L, R>(keys: Keys<K, L, R>, rs: seq<R>, how: How): L -> multiset<Row<L, R>> {
    (l: L) =>
      var found := Matching(keys.right, rs, keys.left(l));
      if found == [] then (if KeepsLeft(how) then multiset{(Some(l), None)} else multiset{})
      else multiset(Beside(l, found))
  }

  /** What one right row contributes of its own. */
  ghost function RightRows<K, L, R>(keys: Keys<K, L, R>, ls: seq<L>, how: How): R -> multiset<Row<L, R>> {
    (r: R) => if KeepsRight(how) && Matching(keys.left, ls, keys.right(r)) == [] then multiset{(None, Some(r))} else multiset{}
  }

  lemma {:induction false} MatchingIsSpots<K, A>(key: A -> K, xs: seq<A>, k: K)
    ensures Matching(key, xs, k) == Gather(xs, Spots(Map(key, xs), k))
  {
    if xs != [] {
      var m := |xs| - 1;
      MatchingIsSpots(key, xs[..m], k);
      assert Map(key, xs)[..m] == Map(key, xs[..m]);
      var before := Spots(Map(key, xs[..m]), k);
      assert Gather(xs, before) == Gather(xs[..m], before);
    }
  }

  lemma RowsOfMore<L, R>(ls: seq<L>, rs: seq<R>, a: seq<Pair>, b: seq<Pair>)
    requires Indices(a, |ls|, |rs|) && Indices(b, |ls|, |rs|)
    ensures Indices(a + b, |ls|, |rs|) && RowsOf(ls, rs, a + b) == RowsOf(ls, rs, a) + RowsOf(ls, rs, b)
  {
  }

  lemma {:induction false} RowOfLeft<K, L, R>(keys: Keys<K, L, R>, ls: seq<L>, rs: seq<R>, how: How, i: nat)
    requires i < |ls|
    ensures var row := PairsOf(i, Spots(Map(keys.right, rs), keys.left(ls[i])), how);
      Indices(row, |ls|, |rs|) && multiset(RowsOf(ls, rs, row)) == LeftRows(keys, rs, how)(ls[i])
  {
    hide Spots, Matching;
    var rk := Map(keys.right, rs);
    var spots := Spots(rk, keys.left(ls[i]));
    var row := PairsOf(i, spots, how);
    MatchingIsSpots(keys.right, rs, keys.left(ls[i]));
    var found := Matching(keys.right, rs, keys.left(ls[i]));
    assert |found| == |spots|;
    if spots == [] {
      assert RowsOf(ls, rs, row) == if KeepsLeft(how) then [(Some(ls[i]), None)] else [];
    } else {
      assert RowsOf(ls, rs, row) == Beside(ls[i], found);
    }
  }

  lemma {:induction false} BuildRows<K, L, R>(keys: Keys<K, L, R>, ls: seq<L>, rs: seq<R>, how: How, n: nat)
    requires n <= |ls|
    ensures var ps := BuildPairs(Map(keys.left, ls), Map(keys.right, rs), how, n);
      Indices(ps, |ls|, |rs|) && multiset(RowsOf(ls, rs, ps)) == SumOf(LeftRows(keys, rs, how), ls[..n])
  {
    hide Spots, Matching, PairsOf, LeftRows;
    var lk, rk := Map(keys.left, ls), Map(keys.right, rs);
    if n > 0 {
      BuildRows(keys, ls, rs, how, n - 1);
      RowOfLeft(keys, ls, rs, how, n - 1);
      RowsOfMore(ls, rs, BuildPairs(lk, rk, how, n - 1), PairsOf(n - 1, Spots(rk, lk[n - 1]), how));
      assert ls[..n][..n - 1] == ls[..n - 1];
    }
  }

  lemma {:induction false} NoneMatching<K, A>(key: A -> K, xs: seq<A>, k: K)
    ensures Matching(key, xs, k) == [] <==> k !in Map(key, xs)
  {
    if xs != [] {
      var m := |xs| - 1;
      NoneMatching(key, xs[..m], k);
      assert Map(key, xs) == Map(key, xs[..m]) + [key(xs[m])];
    }
  }

  lemma {:induction false} MissRow<K, L, R>(keys: Keys<K, L, R>, ls: seq<L>, rs: seq<R>, how: How, j: nat)
    requires j < |rs| && KeepsRight(how)
    ensures var miss := MissOf(Map(keys.left, ls), keys.right(rs[j]), j);
      Indices(miss, |ls|, |rs|) && multiset(RowsOf(ls, rs, miss)) == RightRows(keys, ls, how)(rs[j])
  {
    hide Matching;
    NoneMatching(keys.left, ls, keys.right(rs[j]));
    var miss := MissOf(Map(keys.left, ls), keys.right(rs[j]), j);
    assert RowsOf(ls, rs, miss) == if miss == [] then [] else [(None, Some(rs[j]))];
  }

  lemma {:induction false} MissRows<K, L, R>(keys: Keys<K, L, R>, ls: seq<L>, rs: seq<R>, how: How, n: nat)
    requires n <= |rs| && KeepsRight(how)
    ensures var ps := ProbeMisses(Map(keys.left, ls), Map(keys.right, rs), n);
      Indices(ps, |ls|, |rs|) && multiset(RowsOf(ls, rs, ps)) == SumOf(RightRows(keys, ls, how), rs[..n])
  {
    hide Matching, RightRows, MissOf;
    if n > 0 {
      MissRows(keys, ls, rs, how, n - 1);
      MissRow(keys, ls, rs, how, n - 1);
      var lk, rk := Map(keys.left, ls), Map(keys.right, rs);
      RowsOfMore(ls, rs, ProbeMisses(lk, rk, n - 1), MissOf(lk, rk[n - 1], n - 1));
      assert rs[..n][..n - 1] == rs[..n - 1];
    }
  }

  lemma {:induction false} NoRightRows<K, L, R>(keys: Keys<K, L, R>, ls: seq<L>, rs: seq<R>, how: How)
    requires !KeepsRight(how)
    ensures SumOf(RightRows(keys, ls, how), rs) == multiset{}
  {
    hide Matching;
    if rs != [] { NoRightRows(keys, ls, rs[..|rs| - 1], how); }
  }

  /** A join is what each left row contributes, and what each right row contributes of its own. */
  lemma {:induction false} JoinedIsSum<K, L, R>(keys: Keys<K, L, R>, ls: seq<L>, rs: seq<R>, how: How)
    ensures multiset(Joined(keys, ls, rs, how)) == SumOf(LeftRows(keys, rs, how), ls) + SumOf(RightRows(keys, ls, how), rs)
  {
    hide BuildPairs, ProbeMisses, Matching, LeftRows, RightRows, SumOf;
    var lk, rk := Map(keys.left, ls), Map(keys.right, rs);
    BuildRows(keys, ls, rs, how, |ls|);
    assert ls[..|ls|] == ls && rs[..|rs|] == rs;
    var built := BuildPairs(lk, rk, how, |ls|);
    if KeepsRight(how) {
      MissRows(keys, ls, rs, how, |rs|);
      RowsOfMore(ls, rs, built, ProbeMisses(lk, rk, |rs|));
    } else {
      NoRightRows(keys, ls, rs, how);
      assert built + [] == built;
    }
  }

  // ---- the distributed join ---------------------------------------------------------------------

  /** `partition`: the rows that go to dest `d`, in order. */
  function Routed<K, A>(route: K -> nat, key: A -> K, xs: seq<A>, d: nat): seq<A> {
    if xs == [] then []
    else
      var m := |xs| - 1;
      Routed(route, key, xs[..m], d) + if route(key(xs[m])) == d then [xs[m]] else []
  }

  /** A gather's side: the map tasks' blocks for its dest, in task order. */
  function Gathered<K, A>(route: K -> nat, key: A -> K, blocks: seq<seq<A>>, d: nat): seq<A> {
    Concat(seq(|blocks|, t requires 0 <= t < |blocks| => Routed(route, key, blocks[t], d)))
  }

  lemma {:induction false} RoutedMore<K, A>(route: K -> nat, key: A -> K, xs: seq<A>, ys: seq<A>, d: nat)
    ensures Routed(route, key, xs + ys, d) == Routed(route, key, xs, d) + Routed(route, key, ys, d)
  {
    if ys == [] {
      assert xs + ys == xs;
    } else {
      var m := |ys| - 1;
      assert (xs + ys)[..|xs| + m] == xs + ys[..m];
      RoutedMore(route, key, xs, ys[..m], d);
    }
  }

  /** Splitting the rows into map tasks changes no dest's rows. */
  lemma {:induction false} GatheredIsRouted<K, A>(route: K -> nat, key: A -> K, blocks: seq<seq<A>>, d: nat)
    ensures Gathered(route, key, blocks, d) == Routed(route, key, Concat(blocks), d)
  {
    var parts := seq(|blocks|, t requires 0 <= t < |blocks| => Routed(route, key, blocks[t], d));
    if blocks != [] {
      var m := |blocks| - 1;
      GatheredIsRouted(route, key, blocks[..m], d);
      assert parts[..m] == seq(m, t requires 0 <= t < m => Routed(route, key, blocks[..m][t], d));
      RoutedMore(route, key, Concat(blocks[..m]), blocks[m], d);
    }
  }

  ghost function OverDests<T>(g: nat -> multiset<T>, parts: nat): multiset<T> {
    if parts == 0 then multiset{} else OverDests(g, parts - 1) + g(parts - 1)
  }

  ghost function SumAt<K, A, T>(route: K -> nat, key: A -> K, f: A -> multiset<T>, xs: seq<A>): nat -> multiset<T> {
    (d: nat) => SumOf(f, Routed(route, key, xs, d))
  }

  /** One more row adds its contribution at its own dest only. */
  lemma {:induction false} OneMoreRow<K, A, T>(route: K -> nat, key: A -> K, f: A -> multiset<T>, xs: seq<A>, x: A, parts: nat)
    ensures OverDests(SumAt(route, key, f, xs + [x]), parts)
         == OverDests(SumAt(route, key, f, xs), parts) + if route(key(x)) < parts then f(x) else multiset{}
  {
    assert (xs + [x])[..|xs|] == xs;
    if parts > 0 {
      OneMoreRow(route, key, f, xs, x, parts - 1);
      var d := parts - 1;
      var before := Routed(route, key, xs, d);
      if route(key(x)) == d {
        assert (before + [x])[..|before|] == before;
      } else {
        assert before + [] == before;
      }
    }
  }

  /** Every row is at exactly one dest. */
  lemma {:induction false} SumOverDests<K, A, T>(route: K -> nat, key: A -> K, f: A -> multiset<T>, xs: seq<A>, parts: nat)
    requires forall k :: 0 <= k < |xs| ==> route(key(xs[k])) < parts
    ensures OverDests(SumAt(route, key, f, xs), parts) == SumOf(f, xs)
  {
    if xs == [] {
      NothingAnywhere(route, key, f, parts);
    } else {
      var m := |xs| - 1;
      SumOverDests(route, key, f, xs[..m], parts);
      OneMoreRow(route, key, f, xs[..m], xs[m], parts);
      assert xs[..m] + [xs[m]] == xs;
    }
  }

  lemma {:induction false} NothingAnywhere<K, A, T>(route: K -> nat, key: A -> K, f: A -> multiset<T>, parts: nat)
    ensures OverDests(SumAt(route, key, f, []), parts) == multiset{}
  {
    if parts > 0 { NothingAnywhere(route, key, f, parts - 1); }
  }

  /** All of a key's rows go where the key goes. */
  lemma {:induction false} MatchingIsLocal<K, A>(route: K -> nat, key: A -> K, xs: seq<A>, k: K)
    ensures Matching(key, Routed(route, key, xs, route(k)), k) == Matching(key, xs, k)
  {
    if xs != [] {
      var m := |xs| - 1;
      MatchingIsLocal(route, key, xs[..m], k);
      var before := Routed(route, key, xs[..m], route(k));
      if route(key(xs[m])) == route(k) {
        assert (before + [xs[m]])[..|before|] == before;
      } else {
        assert before + [] == before;
      }
    }
  }

  lemma {:induction false} SumAgrees<A, T>(f: A -> multiset<T>, g: A -> multiset<T>, xs: seq<A>)
    requires forall k :: 0 <= k < |xs| ==> f(xs[k]) == g(xs[k])
    ensures SumOf(f, xs) == SumOf(g, xs)
  {
    if xs != [] { SumAgrees(f, g, xs[..|xs| - 1]); }
  }

  lemma {:induction false} RoutedGoes<K, A>(route: K -> nat, key: A -> K, xs: seq<A>, d: nat)
    ensures forall k :: 0 <= k < |Routed(route, key, xs, d)| ==> route(key(Routed(route, key, xs, d)[k])) == d
  {
    if xs != [] { RoutedGoes(route, key, xs[..|xs| - 1], d); }
  }

  ghost function JoinedAt<K, L, R>(route: K -> nat, keys: Keys<K, L, R>, ls: seq<L>, rs: seq<R>, how: How): nat -> multiset<Row<L, R>> {
    (d: nat) => multiset(Joined(keys, Routed(route, keys.left, ls, d), Routed(route, keys.right, rs, d), how))
  }

  /** One dest's join is what the rows routed there contribute to the whole join. */
  lemma {:induction false} JoinAtDest<K, L, R>(route: K -> nat, keys: Keys<K, L, R>, ls: seq<L>, rs: seq<R>, how: How, d: nat)
    ensures JoinedAt(route, keys, ls, rs, how)(d)
         == SumAt(route, keys.left, LeftRows(keys, rs, how), ls)(d) + SumAt(route, keys.right, RightRows(keys, ls, how), rs)(d)
  {
    hide Routed, Matching, SumOf, Joined, Beside;
    var l, r := Routed(route, keys.left, ls, d), Routed(route, keys.right, rs, d);
    JoinedIsSum(keys, l, r, how);
    RoutedGoes(route, keys.left, ls, d);
    RoutedGoes(route, keys.right, rs, d);
    forall k | 0 <= k < |l| ensures LeftRows(keys, r, how)(l[k]) == LeftRows(keys, rs, how)(l[k]) {
      MatchingIsLocal(route, keys.right, rs, keys.left(l[k]));
    }
    SumAgrees(LeftRows(keys, r, how), LeftRows(keys, rs, how), l);
    forall k | 0 <= k < |r| ensures RightRows(keys, l, how)(r[k]) == RightRows(keys, ls, how)(r[k]) {
      MatchingIsLocal(route, keys.left, ls, keys.right(r[k]));
    }
    SumAgrees(RightRows(keys, l, how), RightRows(keys, ls, how), r);
  }

  lemma {:induction false} SumsAdd<T>(f: nat -> multiset<T>, g: nat -> multiset<T>, h: nat -> multiset<T>, parts: nat)
    requires forall d: nat :: d < parts ==> f(d) == g(d) + h(d)
    ensures OverDests(f, parts) == OverDests(g, parts) + OverDests(h, parts)
  {
    if parts > 0 { SumsAdd(f, g, h, parts - 1); }
  }

  /** Joining the gathered blocks dest by dest gives the rows of joining both whole sides, for every `how`,
      every routing of the keys, and any split of both sides into map tasks. */
  lemma {:induction false} DistributedJoin<K(!new), L, R>(route: K -> nat, keys: Keys<K, L, R>, lefts: seq<seq<L>>, rights: seq<seq<R>>,
                                                    how: How, parts: nat)
    requires forall k :: route(k) < parts
    ensures var g := (d: nat) => multiset(Joined(keys, Gathered(route, keys.left, lefts, d), Gathered(route, keys.right, rights, d), how));
      OverDests(g, parts) == multiset(Joined(keys, Concat(lefts), Concat(rights), how))
  {
    hide Routed, Matching, SumOf, Joined, LeftRows, RightRows, Gathered, Concat;
    var ls, rs := Concat(lefts), Concat(rights);
    var g := (d: nat) => multiset(Joined(keys, Gathered(route, keys.left, lefts, d), Gathered(route, keys.right, rights, d), how));
    var a := SumAt(route, keys.left, LeftRows(keys, rs, how), ls);
    var b := SumAt(route, keys.right, RightRows(keys, ls, how), rs);
    forall d: nat | d < parts ensures g(d) == a(d) + b(d) {
      GatheredIsRouted(route, keys.left, lefts, d);
      GatheredIsRouted(route, keys.right, rights, d);
      JoinAtDest(route, keys, ls, rs, how, d);
    }
    SumsAdd(g, a, b, parts);
    forall k | 0 <= k < |ls| ensures route(keys.left(ls[k])) < parts { }
    forall k | 0 <= k < |rs| ensures route(keys.right(rs[k])) < parts { }
    SumOverDests(route, keys.left, LeftRows(keys, rs, how), ls, parts);
    SumOverDests(route, keys.right, RightRows(keys, ls, how), rs, parts);
    JoinedIsSum(keys, ls, rs, how);
  }
}
