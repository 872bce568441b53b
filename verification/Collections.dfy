/** Sequence vocabulary shared by the other modules. */
module Collections {

  datatype Option<+T> = None | Some(value: T)

  datatype Result<+T, +E> = Ok(value: T) | Err(error: E)
  {
    predicate IsFailure() { Err? }

    function PropagateFailure<U>(): Result<U, E>
      requires Err?
    {
      Err(error)
    }

    function Extract(): T
      requires Ok?
    {
      value
    }
  }

  /** No element twice. */
  ghost predicate Distinct<T>(s: seq<T>) {
    s == [] || (s[|s| - 1] !in s[..|s| - 1] && Distinct(s[..|s| - 1]))
  }

  lemma {:induction false} DistinctPair<T>(s: seq<T>, i: nat, j: nat)
    requires Distinct(s) && i < j < |s|
    ensures s[i] != s[j]
  {
    var t := s[..|s| - 1];
    if j < |t| { DistinctPair(t, i, j); } else { assert s[i] == t[i]; }
  }

  lemma {:induction false} DistinctFromPairs<T>(s: seq<T>)
    requires forall i, j :: 0 <= i < j < |s| ==> s[i] != s[j]
    ensures Distinct(s)
  {
    if s != [] { DistinctFromPairs(s[..|s| - 1]); }
  }

  lemma DistinctMore<T>(s: seq<T>, x: T)
    requires Distinct(s) && x !in s
    ensures Distinct(s + [x])
  {
    assert (s + [x])[..|s|] == s;
  }

  lemma {:induction false} DistinctPrefix<T>(s: seq<T>, m: nat)
    requires Distinct(s) && m <= |s|
    ensures Distinct(s[..m])
  {
    if m < |s| {
      DistinctPrefix(s[..|s| - 1], m);
      assert s[..|s| - 1][..m] == s[..m];
    } else {
      assert s[..m] == s;
    }
  }

  ghost predicate Ascending(s: seq<nat>) {
    forall i, j :: 0 <= i < j < |s| ==> s[i] < s[j]
  }

  lemma AscendingIsDistinct(s: seq<nat>)
    requires Ascending(s)
    ensures Distinct(s)
  {
    DistinctFromPairs(s);
  }

  /** Every index lies below `n`. */
  predicate Below(idx: seq<nat>, n: nat) {
    forall k :: 0 <= k < |idx| ==> idx[k] < n
  }

  lemma TakeMore<T>(s: seq<T>, i: nat)
    requires i < |s|
    ensures s[..i + 1] == s[..i] + [s[i]]
  {
  }

  predicate AllIn(xs: seq<nat>, s: seq<nat>) {
    forall k :: 0 <= k < |xs| ==> xs[k] in s
  }

  /** The elements of `vs` at the positions `idx`, in that order. */
  function Gather<T>(vs: seq<T>, idx: seq<nat>): (r: seq<T>)
    requires Below(idx, |vs|)
    ensures |r| == |idx|
    ensures forall k :: 0 <= k < |r| ==> r[k] == vs[idx[k]]
  {
    seq(|idx|, k requires 0 <= k < |idx| => vs[idx[k]])
  }

  lemma GatherGather<T>(vs: seq<T>, idx: seq<nat>, at: seq<nat>)
    requires Below(idx, |vs|) && Below(at, |idx|)
    ensures Below(Gather(idx, at), |vs|)
    ensures Gather(vs, Gather(idx, at)) == Gather(Gather(vs, idx), at)
  {
  }

  /** The first position of `x`. */
  function IndexOf<T(==)>(s: seq<T>, x: T): (k: nat)
    requires x in s
    ensures k < |s| && s[k] == x
  {
    var m := |s| - 1;
    if x in s[..m] then IndexOf(s[..m], x) else m
  }

  lemma {:induction false} IndexOfAt<T>(s: seq<T>, k: nat)
    requires Distinct(s) && k < |s|
    ensures s[k] in s && IndexOf(s, s[k]) == k
  {
    var m := |s| - 1;
    if k < m {
      assert s[..m][k] == s[k];
      IndexOfAt(s[..m], k);
    }
  }

  lemma {:induction false} IndexOfPrefix<T>(s: seq<T>, m: nat, x: T)
    requires m <= |s| && x in s[..m]
    ensures x in s && IndexOf(s, x) == IndexOf(s[..m], x)
  {
    var n := |s| - 1;
    if m <= n {
      assert s[..n][..m] == s[..m];
      IndexOfPrefix(s[..n], m, x);
    } else {
      assert s[..m] == s;
    }
  }

  /** `s` with `x` appended unless it is already there. */
  function Insert<T(==)>(s: seq<T>, x: T): (r: seq<T>)
    ensures x in r && s <= r
  {
    if x in s then s else s + [x]
  }

  function Map<S, T>(f: S -> T, s: seq<S>): (r: seq<T>)
    ensures |r| == |s|
    ensures forall k :: 0 <= k < |s| ==> r[k] == f(s[k])
  {
    seq(|s|, k requires 0 <= k < |s| => f(s[k]))
  }

  lemma {:induction false} DistinctBound(s: seq<nat>, n: nat)
    requires Distinct(s) && Below(s, n)
    ensures |s| <= n
  {
    if s == [] {
    } else if n - 1 in s {
      var k := IndexOf(s, n - 1);
      var t: seq<nat> := s[..k] + s[k + 1..];
      forall i, j | 0 <= i < j < |t| ensures t[i] != t[j] {
        DistinctPair(s, if i < k then i else i + 1, if j < k then j else j + 1);
      }
      forall i | 0 <= i < |t| ensures t[i] < n - 1 {
        if i < k { DistinctPair(s, i, k); } else { DistinctPair(s, k, i + 1); }
      }
      DistinctFromPairs(t);
      assert Below(t, n - 1);
      DistinctBound(t, n - 1);
    } else {
      assert forall i :: 0 <= i < |s| ==> s[i] in s;
      DistinctBound(s, n - 1);
    }
  }

  function Concat<T>(xss: seq<seq<T>>): seq<T> {
    if xss == [] then [] else Concat(xss[..|xss| - 1]) + xss[|xss| - 1]
  }

  /** Where part `j` starts in the concatenation. */
  function StartOf<T>(xss: seq<seq<T>>, j: nat): (n: nat)
    requires j <= |xss|
  {
    |Concat(xss[..j])|
  }

  lemma {:induction false} ConcatAt<T>(xss: seq<seq<T>>, j: nat, i: nat)
    requires j < |xss| && i < |xss[j]|
    ensures StartOf(xss, j) + i < |Concat(xss)| && Concat(xss)[StartOf(xss, j) + i] == xss[j][i]
  {
    var m := |xss| - 1;
    if j < m {
      assert xss[..m][..j] == xss[..j];
      ConcatAt(xss[..m], j, i);
    }
  }

  lemma StartNext<T>(xss: seq<seq<T>>, j: nat)
    requires j < |xss|
    ensures StartOf(xss, j + 1) == StartOf(xss, j) + |xss[j]|
  {
    assert xss[..j + 1][..j] == xss[..j];
  }

  function UpTo(m: nat): (r: seq<nat>)
    ensures |r| == m && forall i :: 0 <= i < m ==> r[i] == i
  {
    seq(m, i requires 0 <= i => i)
  }

  function SetOf(s: seq<nat>): (r: set<nat>)
    ensures forall i: nat :: i in r <==> i in s
  {
    set i | i in s
  }

  /** Every id below `n`. */
  ghost function IdsBelow(n: nat): (ids: set<nat>)
    ensures forall i: nat :: i in ids <==> i < n
  {
    assert forall i: nat :: i < n ==> i in UpTo(n) by {
      forall i: nat | i < n ensures i in UpTo(n) { assert UpTo(n)[i] == i; }
    }
    SetOf(UpTo(n))
  }

  /** A set of numbers below `n` has no more than `n`, and all of them has `n`. */
  lemma {:induction false} SetBelow(s: set<nat>, n: nat)
    requires forall i: nat :: i in s ==> i < n
    ensures |s| <= n
    ensures (forall i: nat :: i < n ==> i in s) ==> |s| == n
  {
    if n == 0 {
      assert s == {};
    } else {
      SetBelow(s - {n - 1}, n - 1);
    }
  }
}
