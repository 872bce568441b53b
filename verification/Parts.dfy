/** Entry ranges and part numbers: how a file's entries are cut into steps, how a range names its step,
    and how file and step number the parts written (`eager_ranges`, `step_of` and `file_bases` of
    python/graphed/write.py). */
module Parts {
  import opened Collections

  type Range = (nat, nat)

  /** Where step `s` of `steps` over `n` entries starts. */
  function Bound(s: nat, n: nat, steps: nat): nat
    requires steps > 0
  {
    s * n / steps
  }

  function StepRange(s: nat, n: nat, steps: nat): Range
    requires steps > 0
  {
    (Bound(s, n, steps), Bound(s + 1, n, steps))
  }

  // ---- even steps -------------------------------------------------------------------------------

  lemma DivAddMultiple(a: nat, b: nat, d: nat)
    requires d > 0
    ensures (a * d + b) / d == a + b / d
  {
    var q := b / d;
    var r := b % d;
    assert b == q * d + r;
    assert a * d + b == (a + q) * d + r;
    DivOf(a + q, r, d);
  }

  lemma DivOf(q: nat, r: nat, d: nat)
    requires r < d
    ensures (q * d + r) / d == q
  {
    var x := q * d + r;
    var p := x / d;
    DivBounds(x, d);
    if p < q { LessTimes(p, q, d); } else if q < p { LessTimes(q, p, d); }
  }

  lemma DivBounds(x: nat, d: nat)
    requires d > 0
    ensures x / d * d <= x < x / d * d + d
  {
  }

  lemma LessTimes(p: nat, q: nat, d: nat)
    requires p < q
    ensures p * d + d <= q * d
  {
    var k := q - p - 1;
    assert q * d == (p + 1 + k) * d == p * d + d + k * d;
  }

  /** Every step has `n / steps` entries, or one more. */
  lemma StepSize(s: nat, n: nat, steps: nat)
    requires steps > 0
    ensures n / steps <= Bound(s + 1, n, steps) - Bound(s, n, steps) <= n / steps + 1
  {
    var q, r := n / steps, n % steps;
    assert n == q * steps + r;
    assert s * n == (s * q) * steps + s * r by { Spread(s, q, r, steps, n); }
    assert (s + 1) * n == ((s + 1) * q) * steps + (s + 1) * r by { Spread(s + 1, q, r, steps, n); }
    DivAddMultiple(s * q, s * r, steps);
    DivAddMultiple((s + 1) * q, (s + 1) * r, steps);
    OneMore(s * r, r, steps);
    assert (s + 1) * r == s * r + r;
    assert (s + 1) * q == s * q + q;
  }

  lemma Spread(s: nat, q: nat, r: nat, steps: nat, n: nat)
    requires n == q * steps + r
    ensures s * n == (s * q) * steps + s * r
  {
    assert s * (q * steps + r) == s * (q * steps) + s * r;
    assert s * (q * steps) == (s * q) * steps;
  }

  lemma OneMore(x: nat, r: nat, d: nat)
    requires r < d
    ensures x / d <= (x + r) / d <= x / d + 1
  {
    var p, m := x / d, x % d;
    assert x == p * d + m;
    if m + r < d {
      DivOf(p, m + r, d);
    } else {
      assert x + r == (p + 1) * d + (m + r - d);
      DivOf(p + 1, m + r - d, d);
    }
  }

  lemma {:induction false} BoundsAscend(a: nat, b: nat, n: nat, steps: nat)
    requires steps > 0 && a <= b
    ensures Bound(a, n, steps) <= Bound(b, n, steps)
    decreases b - a
  {
    hide Bound;
    if a < b {
      BoundsAscend(a, b - 1, n, steps);
      StepSize(b - 1, n, steps);
    }
  }

  lemma BoundsSpan(n: nat, steps: nat)
    requires steps > 0
    ensures Bound(0, n, steps) == 0 && Bound(steps, n, steps) == n
  {
    DivOf(n, 0, steps);
    assert steps * n == n * steps + 0;
  }

  // ---- the ranges a file is read in -------------------------------------------------------------

  /** The steps that are not empty, ascending. */
  function Kept(n: nat, steps: nat, m: nat): (r: seq<nat>)
    requires m <= steps && steps > 0
  {
    if m == 0 then []
    else Kept(n, steps, m - 1) + if Bound(m - 1, n, steps) < Bound(m, n, steps) then [m - 1] else []
  }

  predicate NotEmpty(s: nat, n: nat, steps: nat)
    requires steps > 0
  {
    Bound(s, n, steps) < Bound(s + 1, n, steps)
  }

  lemma {:induction false} KeptAre(n: nat, steps: nat, m: nat)
    requires m <= steps && steps > 0
    ensures forall s: nat :: s in Kept(n, steps, m) <==> s < m && NotEmpty(s, n, steps)
  {
    hide Bound;
    if m > 0 { KeptAre(n, steps, m - 1); }
  }

  /** The steps `eager_ranges` reads: those not empty, or the first when all are. */
  function Steps(n: nat, steps: nat): (r: seq<nat>) {
    if steps == 0 then [] else if Kept(n, steps, steps) == [] then [0] else Kept(n, steps, steps)
  }

  function RangesOf(n: nat, steps: nat, ss: seq<nat>): (r: seq<Range>)
    requires steps > 0
    ensures |r| == |ss| && forall k :: 0 <= k < |r| ==> r[k] == StepRange(ss[k], n, steps)
  {
    seq(|ss|, k requires 0 <= k < |ss| => StepRange(ss[k], n, steps))
  }

  function EagerRanges(n: nat, steps: nat): (r: seq<Range>)
    ensures steps > 0 ==> r == RangesOf(n, steps, Steps(n, steps))
    ensures steps == 0 ==> r == []
  {
    if steps == 0 then [] else RangesOf(n, steps, Steps(n, steps))
  }

  lemma {:induction false} KeptAscend(n: nat, steps: nat, m: nat)
    requires m <= steps && steps > 0
    ensures Ascending(Kept(n, steps, m))
  {
    hide Bound;
    if m > 0 {
      KeptAscend(n, steps, m - 1);
      KeptAre(n, steps, m - 1);
      var before := Kept(n, steps, m - 1);
      forall k | 0 <= k < |before| ensures before[k] < m - 1 { assert before[k] in before; }
    }
  }

  /** Ranges that cover `[from, to)` one after the other. */
  predicate Tiles(rs: seq<Range>, from: nat, to: nat) {
    if rs == [] then from == to
    else rs[|rs| - 1].1 == to && rs[|rs| - 1].0 <= to && Tiles(rs[..|rs| - 1], from, rs[|rs| - 1].0)
  }

  lemma TilesMore(rs: seq<Range>, from: nat, mid: nat, to: nat)
    requires Tiles(rs, from, mid) && mid <= to
    ensures Tiles(rs + [(mid, to)], from, to)
  {
    assert (rs + [(mid, to)])[..|rs|] == rs;
  }

  lemma RangesMore(n: nat, steps: nat, ss: seq<nat>, s: nat)
    requires steps > 0
    ensures RangesOf(n, steps, ss + [s]) == RangesOf(n, steps, ss) + [StepRange(s, n, steps)]
  {
    hide Bound;
  }

  lemma {:induction false} KeptTile(n: nat, steps: nat, m: nat)
    requires m <= steps && steps > 0
    ensures Tiles(RangesOf(n, steps, Kept(n, steps, m)), 0, Bound(m, n, steps))
  {
    hide Bound, RangesOf, Tiles;
    if m > 0 {
      KeptTile(n, steps, m - 1);
      StepSize(m - 1, n, steps);
      var before := Kept(n, steps, m - 1);
      if Bound(m - 1, n, steps) < Bound(m, n, steps) {
        assert Kept(n, steps, m) == before + [m - 1];
        RangesMore(n, steps, before, m - 1);
        TilesMore(RangesOf(n, steps, before), 0, Bound(m - 1, n, steps), Bound(m, n, steps));
      } else {
        assert Kept(n, steps, m) == before;
      }
    } else {
      BoundsSpan(n, steps);
      NothingTiles(n, steps);
    }
  }

  lemma NothingTiles(n: nat, steps: nat)
    requires steps > 0
    ensures Tiles(RangesOf(n, steps, []), 0, 0)
  {
  }

  /** The ranges tile `[0, n)`. */
  lemma RangesTile(n: nat, steps: nat)
    requires steps > 0
    ensures Tiles(EagerRanges(n, steps), 0, n)
  {
    KeptTile(n, steps, steps);
    BoundsSpan(n, steps);
    KeptAre(n, steps, steps);
    if Kept(n, steps, steps) == [] {
      assert n == 0;
      StepSize(0, n, steps);
      var rs := EagerRanges(n, steps);
      assert rs[..0] == [];
    }
  }

  /** Steps whose range is not empty are told apart by it. */
  lemma RangeNamesStep(s: nat, t: nat, n: nat, steps: nat)
    requires steps > 0 && Bound(s, n, steps) < Bound(s + 1, n, steps) && StepRange(s, n, steps) == StepRange(t, n, steps)
    ensures s == t
  {
    if s < t { BoundsAscend(s + 1, t, n, steps); } else if t < s { BoundsAscend(t + 1, s, n, steps); }
  }

  /** `step_of`: the first step with that range; the error for a range of no step. */
  method StepOf(start: nat, stop: nat, n: nat, steps: nat) returns (r: Option<nat>)
    ensures r.Some? ==> r.value < steps && StepRange(r.value, n, steps) == (start, stop)
    ensures r.Some? ==> forall s :: 0 <= s < r.value ==> StepRange(s, n, steps) != (start, stop)
    ensures r.None? ==> forall s :: 0 <= s < steps ==> StepRange(s, n, steps) != (start, stop)
  {
    for s := 0 to steps
      invariant forall t :: 0 <= t < s ==> StepRange(t, n, steps) != (start, stop)
    {
      if s * n / steps == start && (s + 1) * n / steps == stop {
        return Some(s);
      }
    }
    return None;
  }

  /** A step starts at the whole part of its share of the entries. */
  lemma StepStart(s: nat, n: nat, steps: nat)
    requires steps > 0
    ensures StepRange(s, n, steps).0 * steps <= s * n < StepRange(s, n, steps).0 * steps + steps
    ensures StepRange(s, n, steps).1 == StepRange(s + 1, n, steps).0
  {
    DivBounds(s * n, steps);
  }

  /** A file is read in its steps' ranges that are not empty, in order; an empty file in one empty range. */
  lemma {:induction false} EagerRangesAre(n: nat, steps: nat)
    requires steps > 0
    ensures EagerRanges(n, steps) != []
    ensures n == 0 ==> EagerRanges(n, steps) == [(0, 0)]
    ensures n > 0 ==> forall r :: r in EagerRanges(n, steps) <==>
      r.0 < r.1 && exists s :: 0 <= s < steps && r == StepRange(s, n, steps)
  {
    hide Bound;
    KeptAre(n, steps, steps);
    BoundsSpan(n, steps);
    var ss := Steps(n, steps);
    var rs := EagerRanges(n, steps);
    if Kept(n, steps, steps) == [] {
      forall s | 0 <= s < steps ensures Bound(s + 1, n, steps) <= Bound(s, n, steps) { assert !NotEmpty(s, n, steps); }
      AllEmpty(n, steps, steps);
      BoundsAscend(0, 1, n, steps);
      BoundsAscend(1, steps, n, steps);
      assert rs == [StepRange(0, n, steps)];
    } else {
      KeptInside(n, steps, Kept(n, steps, steps)[0]);
      forall r ensures r in rs <==> r.0 < r.1 && exists s :: 0 <= s < steps && r == StepRange(s, n, steps) {
        if r in rs {
          var k := IndexOf(rs, r);
          assert ss[k] in Kept(n, steps, steps);
        }
        if s :| 0 <= s < steps && r == StepRange(s, n, steps) && r.0 < r.1 {
          assert NotEmpty(s, n, steps);
          assert rs[IndexOf(ss, s)] == r;
        }
      }
    }
  }

  /** Only a file with entries has a step that is not empty. */
  lemma KeptInside(n: nat, steps: nat, s: nat)
    requires steps > 0 && s in Kept(n, steps, steps)
    ensures n > 0
  {
    hide Bound;
    KeptAre(n, steps, steps);
    BoundsSpan(n, steps);
    BoundsAscend(0, s, n, steps);
    BoundsAscend(s + 1, steps, n, steps);
  }

  lemma {:induction false} AllEmpty(n: nat, steps: nat, m: nat)
    requires steps > 0 && m <= steps && forall s :: 0 <= s < steps ==> Bound(s + 1, n, steps) <= Bound(s, n, steps)
    ensures Bound(m, n, steps) == 0
  {
    hide Bound;
    BoundsSpan(n, steps);
    if m > 0 {
      AllEmpty(n, steps, m - 1);
      var s := m - 1;
      assert Bound(s + 1, n, steps) <= Bound(s, n, steps);
    }
  }

  /** A range of the file, looked up, gives the step it is the range of: no two parts of a file collide. */
  lemma RangesAreInverted(n: nat, steps: nat, k: nat, s: nat)
    requires steps > 0 && k < |EagerRanges(n, steps)|
    requires s < steps && StepRange(s, n, steps) == EagerRanges(n, steps)[k]
    requires forall t :: 0 <= t < s ==> StepRange(t, n, steps) != EagerRanges(n, steps)[k]
    ensures s == Steps(n, steps)[k]
  {
    hide Bound;
    KeptAre(n, steps, steps);
    var mine := Steps(n, steps)[k];
    if Kept(n, steps, steps) == [] {
      assert mine == 0;
    } else {
      assert mine in Kept(n, steps, steps);
      RangeNamesStep(mine, s, n, steps);
    }
  }

  /** No two ranges of a file are equal. */
  lemma RangesDistinct(n: nat, steps: nat, i: nat, j: nat)
    requires steps > 0 && i < j < |EagerRanges(n, steps)|
    ensures EagerRanges(n, steps)[i] != EagerRanges(n, steps)[j]
  {
    hide Bound;
    KeptAre(n, steps, steps);
    KeptAscend(n, steps, steps);
    var kept := Kept(n, steps, steps);
    assert kept[i] in kept && kept[i] < kept[j];
    if StepRange(kept[i], n, steps) == StepRange(kept[j], n, steps) { RangeNamesStep(kept[i], kept[j], n, steps); }
  }

  // ---- part numbers over files ------------------------------------------------------------------

  /** `file_bases`: the first part number of each file; a file listed twice is refused. */
  method FileBases<K(==)>(keys: seq<K>, steps: nat) returns (r: Option<map<K, nat>>)
    ensures r.Some? <==> Distinct(keys)
    ensures r.Some? ==> forall k :: 0 <= k < |keys| ==> keys[k] in r.value && r.value[keys[k]] == k * steps
  {
    var seen: set<K> := {};
    var bases: map<K, nat> := map[];
    assert keys[..0] == [];
    for i := 0 to |keys|
      invariant forall x :: x in seen <==> x in keys[..i]
      invariant Distinct(keys[..i])
      invariant forall k :: 0 <= k < i ==> keys[k] in bases && bases[keys[k]] == k * steps
    {
      TakeMore(keys, i);
      if keys[i] in seen {
        NotDistinct(keys, i);
        return None;
      }
      DistinctMore(keys[..i], keys[i]);
      seen := seen + {keys[i]};
      bases := bases[keys[i] := i * steps];
    }
    assert keys[..|keys|] == keys;
    return Some(bases);
  }

  lemma {:induction false} NotDistinct<K>(keys: seq<K>, i: nat)
    requires i < |keys| && keys[i] in keys[..i]
    ensures !Distinct(keys)
  {
    hide Distinct;
    if Distinct(keys) {
      DistinctPair(keys, IndexOf(keys[..i], keys[i]), i);
    }
  }

  /** File base plus step numbers no two parts alike. */
  lemma PartsAreDistinct(f: nat, s: nat, g: nat, t: nat, steps: nat)
    requires s < steps && t < steps && f * steps + s == g * steps + t
    ensures f == g && s == t
  {
    DivOf(f, s, steps);
    DivOf(g, t, steps);
  }
}
