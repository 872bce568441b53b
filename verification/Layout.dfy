/** Concatenating columnar layouts by rebasing their indexes: the joined layout of any form denotes the
    rows of its parts, one part after the other (`_joined`, `_rebased` and `_content_starts` of
    python/graphed/awkward/shuffle.py). */
module Layout {
  import opened Collections

  /** The type a layout stores; parts of one dataset share it. */
  datatype Form =
    | LeafF
    | RecordF(fields: seq<Form>)
    | ListOffsetF(item: Form)
    | ListF(item: Form)
    | RegularF(size: nat, item: Form)
    | IndexedF(item: Form)
    | OptionF(item: Form)
    | UnmaskedF(item: Form)
    | UnionF(cases: seq<Form>)

  datatype Layout<V> =
    | Leaf(data: seq<V>)
    | Record(contents: seq<Layout<V>>, length: nat)
    | ListOffset(offsets: seq<nat>, content: Layout<V>)
    | ListArray(starts: seq<nat>, stops: seq<nat>, content: Layout<V>)
    | Regular(content: Layout<V>, length: nat)
    | Indexed(index: seq<nat>, content: Layout<V>)
    | Optional(holes: seq<int>, content: Layout<V>)
    | Unmasked(content: Layout<V>)
    | Union(tags: seq<nat>, index: seq<nat>, contents: seq<Layout<V>>)

  /** What a row is. */
  datatype Value<V> = Atom(value: V) | Fields(fields: seq<Value<V>>) | Items(items: seq<Value<V>>) | Missing | Case(tag: nat, of: Value<V>)

  function Len<V>(l: Layout<V>): nat {
    match l
    case Leaf(data) => |data|
    case Record(_, length) => length
    case ListOffset(offsets, _) => if offsets == [] then 0 else |offsets| - 1
    case ListArray(starts, _, _) => |starts|
    case Regular(_, length) => length
    case Indexed(index, _) => |index|
    case Optional(holes, _) => |holes|
    case Unmasked(content) => Len(content)
    case Union(tags, _, _) => |tags|
  }

  predicate Rising(xs: seq<nat>) {
    forall i, j :: 0 <= i <= j < |xs| ==> xs[i] <= xs[j]
  }

  /** Bounds of a list over `n` rows; those of an empty list may lie anywhere. */
  predicate Bounds(from: nat, to: nat, n: nat) {
    from <= to && (from == to || to <= n)
  }

  /** The layout stores the form, and its indexes name rows of its content. */
  predicate Fits<V>(form: Form, l: Layout<V>)
    decreases form
  {
    match form
    case LeafF => l.Leaf?
    case RecordF(fs) =>
      l.Record? && |l.contents| == |fs| && forall k :: 0 <= k < |fs| ==> Fits(fs[k], l.contents[k]) && l.length <= Len(l.contents[k])
    case ListOffsetF(f) =>
      l.ListOffset? && Fits(f, l.content) && l.offsets != [] && Rising(l.offsets) && l.offsets[|l.offsets| - 1] <= Len(l.content)
    case ListF(f) =>
      l.ListArray? && Fits(f, l.content) && |l.starts| <= |l.stops|
      && forall i :: 0 <= i < |l.starts| ==> Bounds(l.starts[i], l.stops[i], Len(l.content))
    case RegularF(size, f) => l.Regular? && Fits(f, l.content) && l.length * size <= Len(l.content)
    case IndexedF(f) => l.Indexed? && Fits(f, l.content) && Below(l.index, Len(l.content))
    case OptionF(f) => l.Optional? && Fits(f, l.content) && forall i :: 0 <= i < |l.holes| ==> l.holes[i] < Len(l.content)
    case UnmaskedF(f) => l.Unmasked? && Fits(f, l.content)
    case UnionF(cs) =>
      l.Union? && |l.contents| == |cs| && |l.tags| <= |l.index| && Below(l.tags, |cs|)
      && (forall k :: 0 <= k < |cs| ==> Fits(cs[k], l.contents[k]))
      && forall i :: 0 <= i < |l.tags| ==> l.index[i] < Len(l.contents[l.tags[i]])
  }

  /** Row `i`. */
  function Row<V>(form: Form, l: Layout<V>, i: nat): Value<V>
    requires Fits(form, l) && i < Len(l)
    decreases form, 1
  {
    match form
    case LeafF => Atom(l.data[i])
    case RecordF(fs) => Fields(seq(|fs|, k requires 0 <= k < |fs| => Row(fs[k], l.contents[k], i)))
    case ListOffsetF(f) => assert l.offsets[i] <= l.offsets[i + 1] <= l.offsets[|l.offsets| - 1]; Items(RowsIn(f, l.content, l.offsets[i], l.offsets[i + 1]))
    case ListF(f) => Items(RowsIn(f, l.content, l.starts[i], l.stops[i]))
    case RegularF(size, f) => RegularBound(i, l.length, size); Items(RowsIn(f, l.content, i * size, (i + 1) * size))
    case IndexedF(f) => Row(f, l.content, l.index[i])
    case OptionF(f) => if l.holes[i] < 0 then Missing else Row(f, l.content, l.holes[i])
    case UnmaskedF(f) => Row(f, l.content, i)
    case UnionF(cs) => Case(l.tags[i], Row(cs[l.tags[i]], l.contents[l.tags[i]], l.index[i]))
  }

  /** Rows `from` to `to`. */
  function RowsIn<V>(form: Form, l: Layout<V>, from: nat, to: nat): (r: seq<Value<V>>)
    requires Fits(form, l) && Bounds(from, to, Len(l))
    ensures |r| == to - from
    ensures forall k :: 0 <= k < |r| ==> r[k] == Row(form, l, from + k)
    decreases form, 2
  {
    seq(to - from, k requires 0 <= k < to - from => Row(form, l, from + k))
  }

  lemma Distribute(a: nat, b: nat, size: nat)
    ensures (a + b) * size == a * size + b * size && a * size >= 0 && b * size >= 0
  {
  }

  lemma RegularBound(i: nat, length: nat, size: nat)
    requires i < length
    ensures i * size <= (i + 1) * size <= length * size
  {
    Distribute(i, 1, size);
    Distribute(i + 1, length - i - 1, size);
  }

  lemma IndexedRowIs<V>(f: Form, l: Layout<V>, i: nat)
    requires Fits(IndexedF(f), l) && i < Len(l)
    ensures Row(IndexedF(f), l, i) == Row(f, l.content, l.index[i])
  {
  }

  lemma OptionRowIs<V>(f: Form, l: Layout<V>, i: nat)
    requires Fits(OptionF(f), l) && i < Len(l)
    ensures Row(OptionF(f), l, i) == if l.holes[i] < 0 then Missing else Row(f, l.content, l.holes[i])
  {
  }

  lemma UnmaskedRowIs<V>(f: Form, l: Layout<V>, i: nat)
    requires Fits(UnmaskedF(f), l) && i < Len(l)
    ensures Row(UnmaskedF(f), l, i) == Row(f, l.content, i)
  {
  }

  lemma CaseRowIs<V>(cs: seq<Form>, l: Layout<V>, i: nat)
    requires Fits(UnionF(cs), l) && i < Len(l)
    ensures Row(UnionF(cs), l, i) == Case(l.tags[i], Row(cs[l.tags[i]], l.contents[l.tags[i]], l.index[i]))
  {
  }

  lemma ListRowIs<V>(f: Form, l: Layout<V>, i: nat)
    requires Fits(ListF(f), l) && i < Len(l)
    ensures Row(ListF(f), l, i) == Items(RowsIn(f, l.content, l.starts[i], l.stops[i]))
  {
    hide RowsIn;
  }

  lemma OffsetRowIs<V>(f: Form, l: Layout<V>, i: nat)
    requires Fits(ListOffsetF(f), l) && i < Len(l)
    ensures l.offsets[i] <= l.offsets[i + 1] <= Len(l.content)
    ensures Row(ListOffsetF(f), l, i) == Items(RowsIn(f, l.content, l.offsets[i], l.offsets[i + 1]))
  {
    hide RowsIn;
    assert l.offsets[i] <= l.offsets[i + 1] <= l.offsets[|l.offsets| - 1];
  }

  lemma OffsetFits<V>(f: Form, l: Layout<V>)
    requires Fits(ListOffsetF(f), l)
    ensures l.ListOffset? && Fits(f, l.content) && l.offsets != [] && Len(l) == |l.offsets| - 1
    ensures Rising(l.offsets) && l.offsets[|l.offsets| - 1] <= Len(l.content)
  {
  }

  lemma ListFits<V>(f: Form, l: Layout<V>)
    requires Fits(ListF(f), l)
    ensures l.ListArray? && Fits(f, l.content) && |l.starts| <= |l.stops| && Len(l) == |l.starts|
    ensures forall i :: 0 <= i < |l.starts| ==> Bounds(l.starts[i], l.stops[i], Len(l.content))
  {
  }

  lemma OptionFits<V>(f: Form, l: Layout<V>)
    ensures Fits(OptionF(f), l) <==>
      l.Optional? && Fits(f, l.content) && forall i :: 0 <= i < |l.holes| ==> l.holes[i] < Len(l.content)
    ensures l.Optional? ==> Len(l) == |l.holes|
  {
  }

  lemma UnionFitsIf<V>(cs: seq<Form>, l: Layout<V>)
    requires l.Union? && |l.contents| == |cs| && |l.tags| <= |l.index| && Below(l.tags, |cs|)
    requires forall k :: 0 <= k < |cs| ==> Fits(cs[k], l.contents[k])
    requires forall i :: 0 <= i < |l.tags| ==> l.index[i] < Len(l.contents[l.tags[i]])
    ensures Fits(UnionF(cs), l)
  {
  }

  lemma UnionLen<V>(l: Layout<V>)
    ensures l.Union? ==> Len(l) == |l.tags|
  {
  }

  // ---- slices -----------------------------------------------------------------------------------

  function Slice<V>(form: Form, l: Layout<V>, a: nat, b: nat): Layout<V>
    requires Fits(form, l) && a <= b <= Len(l)
    decreases form
  {
    match form
    case LeafF => Leaf(l.data[a..b])
    case RecordF(fs) => Record(seq(|fs|, k requires 0 <= k < |fs| => Slice(fs[k], l.contents[k], a, b)), b - a)
    case ListOffsetF(f) => ListOffset(l.offsets[a..b + 1], l.content)
    case ListF(f) => ListArray(l.starts[a..b], l.stops[a..b], l.content)
    case RegularF(size, f) => Times(a, b, l.length, size); Regular(Slice(f, l.content, a * size, b * size), b - a)
    case IndexedF(f) => Indexed(l.index[a..b], l.content)
    case OptionF(f) => Optional(l.holes[a..b], l.content)
    case UnmaskedF(f) => Unmasked(Slice(f, l.content, a, b))
    case UnionF(cs) => Union(l.tags[a..b], l.index[a..b], l.contents)
  }

  lemma Times(a: nat, b: nat, length: nat, size: nat)
    requires a <= b <= length
    ensures a * size <= b * size <= length * size && (b - a) * size == b * size - a * size
  {
    Distribute(a, b - a, size);
    Distribute(b, length - b, size);
  }

  /** A slice's rows are the rows sliced. */
  lemma {:induction false} SliceFits<V>(form: Form, l: Layout<V>, a: nat, b: nat)
    requires Fits(form, l) && a <= b <= Len(l)
    ensures Fits(form, Slice(form, l, a, b)) && Len(Slice(form, l, a, b)) == b - a
    decreases form
  {
    match form
    case RecordF(fs) =>
      forall k | 0 <= k < |fs| ensures Fits(fs[k], Slice(fs[k], l.contents[k], a, b)) && Len(Slice(fs[k], l.contents[k], a, b)) == b - a {
        SliceFits(fs[k], l.contents[k], a, b);
      }
    case RegularF(size, f) => Times(a, b, l.length, size); SliceFits(f, l.content, a * size, b * size);
    case UnmaskedF(f) => SliceFits(f, l.content, a, b);
    case _ => FlatSliceFits(form, l, a, b);
  }

  /** The forms a slice leaves the contents of alone. */
  lemma FlatSliceFits<V>(form: Form, l: Layout<V>, a: nat, b: nat)
    requires Fits(form, l) && a <= b <= Len(l) && !form.RecordF? && !form.RegularF? && !form.UnmaskedF?
    ensures Fits(form, Slice(form, l, a, b)) && Len(Slice(form, l, a, b)) == b - a
  {
  }

  lemma {:induction false} SliceRows<V>(form: Form, l: Layout<V>, a: nat, b: nat, i: nat)
    requires Fits(form, l) && a <= b <= Len(l) && i < b - a
    ensures Fits(form, Slice(form, l, a, b)) && Len(Slice(form, l, a, b)) == b - a
    ensures Row(form, Slice(form, l, a, b), i) == Row(form, l, a + i)
    decreases form, 0
  {
    SliceFits(form, l, a, b);
    match form
    case RecordF(fs) =>
      var s := Slice(form, l, a, b);
      forall k | 0 <= k < |fs| ensures Row(fs[k], s.contents[k], i) == Row(fs[k], l.contents[k], a + i) {
        SliceRows(fs[k], l.contents[k], a, b, i);
      }
      RecordRowsAgree(fs, s, l, i, a + i);
    case RegularF(size, f) => RegularSliceRow(size, f, l, a, b, i);
    case UnmaskedF(f) => SliceRows(f, l.content, a, b, i);
    case _ => FlatSliceRows(form, l, a, b, i);
  }

  lemma FlatSliceRows<V>(form: Form, l: Layout<V>, a: nat, b: nat, i: nat)
    requires Fits(form, l) && a <= b <= Len(l) && i < b - a && !form.RecordF? && !form.RegularF? && !form.UnmaskedF?
    requires Fits(form, Slice(form, l, a, b)) && Len(Slice(form, l, a, b)) == b - a
    ensures Row(form, Slice(form, l, a, b), i) == Row(form, l, a + i)
  {
  }

  /** Records whose fields agree are equal rows. */
  lemma RecordRowsAgree<V>(fs: seq<Form>, l: Layout<V>, r: Layout<V>, i: nat, j: nat)
    requires Fits(RecordF(fs), l) && Fits(RecordF(fs), r) && i < Len(l) && j < Len(r)
    requires forall k :: 0 <= k < |fs| ==> Row(fs[k], l.contents[k], i) == Row(fs[k], r.contents[k], j)
    ensures Row(RecordF(fs), l, i) == Row(RecordF(fs), r, j)
  {
    assert seq(|fs|, k requires 0 <= k < |fs| => Row(fs[k], l.contents[k], i))
        == seq(|fs|, k requires 0 <= k < |fs| => Row(fs[k], r.contents[k], j));
  }

  lemma {:induction false} RowsInSlice<V>(f: Form, l: Layout<V>, a: nat, b: nat, x: nat, y: nat)
    requires Fits(f, l) && a <= b <= Len(l) && x <= y <= b - a
    ensures Fits(f, Slice(f, l, a, b)) && Len(Slice(f, l, a, b)) == b - a
    ensures RowsIn(f, Slice(f, l, a, b), x, y) == RowsIn(f, l, a + x, a + y)
    decreases f, 1
  {
    hide Fits, Slice, Row, Len;
    SliceFits(f, l, a, b);
    forall k | 0 <= k < y - x ensures RowsIn(f, Slice(f, l, a, b), x, y)[k] == RowsIn(f, l, a + x, a + y)[k] {
      SliceRows(f, l, a, b, x + k);
    }
  }

  lemma {:induction false} RegularSliceRow<V>(size: nat, f: Form, l: Layout<V>, a: nat, b: nat, i: nat)
    requires Fits(RegularF(size, f), l) && a <= b <= Len(l) && i < b - a
    ensures Fits(RegularF(size, f), Slice(RegularF(size, f), l, a, b)) && Len(Slice(RegularF(size, f), l, a, b)) == b - a
    ensures Row(RegularF(size, f), Slice(RegularF(size, f), l, a, b), i) == Row(RegularF(size, f), l, a + i)
    decreases f, 2
  {
    hide RowsIn, Row, Slice, Fits, Len;
    SliceFits(RegularF(size, f), l, a, b);
    RegularFits(size, f, l);
    Times(a, b, l.length, size);
    RegularSliceIs(size, f, l, a, b);
    RegularBound(i, b - a, size);
    RegularBound(a + i, l.length, size);
    Shifted(a, i, size);
    RowsInSlice(f, l.content, a * size, b * size, i * size, (i + 1) * size);
    RegularRowIs(size, f, l, a + i);
    RegularRowIs(size, f, Slice(RegularF(size, f), l, a, b), i);
  }

  lemma RegularFits<V>(size: nat, f: Form, l: Layout<V>)
    requires Fits(RegularF(size, f), l)
    ensures l.Regular? && Fits(f, l.content) && Len(l) == l.length && l.length * size <= Len(l.content)
  {
  }

  lemma RegularSliceIs<V>(size: nat, f: Form, l: Layout<V>, a: nat, b: nat)
    requires Fits(RegularF(size, f), l) && a <= b <= Len(l)
    ensures a * size <= b * size <= Len(l.content)
    ensures Slice(RegularF(size, f), l, a, b) == Regular(Slice(f, l.content, a * size, b * size), b - a)
  {
    Times(a, b, l.length, size);
  }

  lemma RegularRowIs<V>(size: nat, f: Form, l: Layout<V>, i: nat)
    requires Fits(RegularF(size, f), l) && i < Len(l)
    ensures i * size <= (i + 1) * size <= Len(l.content)
    ensures Row(RegularF(size, f), l, i) == Items(RowsIn(f, l.content, i * size, (i + 1) * size))
  {
    hide RowsIn;
    RegularBound(i, l.length, size);
  }

  lemma Shifted(a: nat, i: nat, size: nat)
    ensures (a + i) * size == a * size + i * size && (a + i + 1) * size == a * size + (i + 1) * size
  {
    Distribute(a, i, size);
    Distribute(a, i + 1, size);
  }

  // ---- positions of parts -----------------------------------------------------------------------

  function Lens<V>(parts: seq<Layout<V>>): (r: seq<nat>)
    ensures |r| == |parts|
  {
    seq(|parts|, j requires 0 <= j < |parts| => Len(parts[j]))
  }

  function Sum(ns: seq<nat>, j: nat): nat
    requires j <= |ns|
  {
    if j == 0 then 0 else Sum(ns, j - 1) + ns[j - 1]
  }

  /** `_content_starts`: where part `j` starts among the concatenated parts. */
  function Start<V>(parts: seq<Layout<V>>, j: nat): nat
    requires j <= |parts|
  {
    Sum(Lens(parts), j)
  }

  lemma {:induction false} SumsAgree<T>(xss: seq<seq<T>>, ns: seq<nat>, j: nat)
    requires j <= |xss| == |ns| && forall k :: 0 <= k < |ns| ==> |xss[k]| == ns[k]
    ensures StartOf(xss, j) == Sum(ns, j)
  {
    if j > 0 {
      SumsAgree(xss, ns, j - 1);
      StartNext(xss, j - 1);
    }
  }

  /** Element `i` of part `j`, found in the concatenation. */
  lemma ConcatBySum<T>(xss: seq<seq<T>>, ns: seq<nat>, j: nat, i: nat)
    requires j < |xss| == |ns| && i < |xss[j]| && forall k :: 0 <= k < |ns| ==> |xss[k]| == ns[k]
    ensures Sum(ns, j) + i < |Concat(xss)| && Concat(xss)[Sum(ns, j) + i] == xss[j][i]
  {
    SumsAgree(xss, ns, j);
    ConcatAt(xss, j, i);
  }

  lemma ConcatLength<T>(xss: seq<seq<T>>, ns: seq<nat>)
    requires |xss| == |ns| && forall k :: 0 <= k < |ns| ==> |xss[k]| == ns[k]
    ensures |Concat(xss)| == Sum(ns, |ns|)
  {
    SumsAgree(xss, ns, |xss|);
    assert xss[..|xss|] == xss;
  }

  /** Every position of the concatenation is some part's. */
  lemma {:induction false} Locate(ns: seq<nat>, n: nat, m: nat) returns (j: nat, i: nat)
    requires m <= |ns| && n < Sum(ns, m)
    ensures j < m && i < ns[j] && n == Sum(ns, j) + i
  {
    if n < Sum(ns, m - 1) { j, i := Locate(ns, n, m - 1); } else { j, i := m - 1, n - Sum(ns, m - 1); }
  }

  lemma {:induction false} SumRises(ns: seq<nat>, i: nat, j: nat)
    requires i <= j <= |ns|
    ensures Sum(ns, i) <= Sum(ns, j)
    decreases j
  {
    if i < j { SumRises(ns, i, j - 1); }
  }

  // ---- joining ----------------------------------------------------------------------------------

  predicate AllFit<V>(form: Form, parts: seq<Layout<V>>) {
    forall j :: 0 <= j < |parts| ==> Fits(form, parts[j])
  }

  /** The forms with one content. */
  predicate Nested(form: Form) {
    form.ListOffsetF? || form.ListF? || form.RegularF? || form.IndexedF? || form.OptionF? || form.UnmaskedF?
  }

  /** What of each part's content its rows use: a compacting join takes only that. */
  function ContentOf<V>(form: Form, p: Layout<V>): Layout<V>
    requires Nested(form) && Fits(form, p)
  {
    match form
    case ListOffsetF(f) => Slice(f, p.content, p.offsets[0], p.offsets[|p.offsets| - 1])
    case RegularF(size, f) => Slice(f, p.content, 0, p.length * size)
    case ListF(_) => p.content
    case IndexedF(_) => p.content
    case OptionF(_) => p.content
    case UnmaskedF(_) => p.content
  }

  function ContentsOf<V>(form: Form, parts: seq<Layout<V>>): (r: seq<Layout<V>>)
    requires Nested(form) && AllFit(form, parts)
    ensures |r| == |parts| && forall j :: 0 <= j < |r| ==> r[j] == ContentOf(form, parts[j])
  {
    seq(|parts|, j requires 0 <= j < |parts| => ContentOf(form, parts[j]))
  }

  /** Field `k` of each part, to the part's length. */
  function FieldParts<V>(fs: seq<Form>, parts: seq<Layout<V>>, k: nat): (r: seq<Layout<V>>)
    requires AllFit(RecordF(fs), parts) && k < |fs|
    ensures |r| == |parts| && forall j :: 0 <= j < |r| ==> r[j] == Slice(fs[k], parts[j].contents[k], 0, parts[j].length)
  {
    seq(|parts|, j requires 0 <= j < |parts| => Slice(fs[k], parts[j].contents[k], 0, parts[j].length))
  }

  function CaseParts<V>(cs: seq<Form>, parts: seq<Layout<V>>, k: nat): (r: seq<Layout<V>>)
    requires AllFit(UnionF(cs), parts) && k < |cs|
    ensures |r| == |parts| && forall j :: 0 <= j < |r| ==> r[j] == parts[j].contents[k]
  {
    seq(|parts|, j requires 0 <= j < |parts| => parts[j].contents[k])
  }

  function ShiftedBy(xs: seq<nat>, n: nat, amount: nat): (r: seq<nat>)
    requires n <= |xs|
    ensures |r| == n && forall i :: 0 <= i < n ==> r[i] == xs[i] + amount
  {
    seq(n, i requires 0 <= i < n => xs[i] + amount)
  }

  /** `_rebased`: each part's starts, or stops, into the joined content. */
  function ListStarts<V>(f: Form, parts: seq<Layout<V>>, contents: seq<Layout<V>>): (r: seq<seq<nat>>)
    requires AllFit(ListF(f), parts) && |contents| == |parts|
    ensures |r| == |parts|
    ensures forall j :: 0 <= j < |r| ==>
      (parts[j].ListArray? && |parts[j].starts| <= |parts[j].stops| && r[j] == ShiftedBy(parts[j].starts, Len(parts[j]), Start(contents, j)))
  {
    seq(|parts|, j requires 0 <= j < |parts| => assert Fits(ListF(f), parts[j]); ShiftedBy(parts[j].starts, Len(parts[j]), Start(contents, j)))
  }

  function ListStops<V>(f: Form, parts: seq<Layout<V>>, contents: seq<Layout<V>>): (r: seq<seq<nat>>)
    requires AllFit(ListF(f), parts) && |contents| == |parts|
    ensures |r| == |parts|
    ensures forall j :: 0 <= j < |r| ==>
      (parts[j].ListArray? && |parts[j].starts| <= |parts[j].stops| && r[j] == ShiftedBy(parts[j].stops, Len(parts[j]), Start(contents, j)))
  {
    seq(|parts|, j requires 0 <= j < |parts| => assert Fits(ListF(f), parts[j]); ShiftedBy(parts[j].stops, Len(parts[j]), Start(contents, j)))
  }

  function ShiftedHoles(xs: seq<int>, amount: nat): (r: seq<int>)
    ensures |r| == |xs| && forall i :: 0 <= i < |xs| ==> r[i] == if xs[i] < 0 then -1 else xs[i] + amount
  {
    seq(|xs|, i requires 0 <= i < |xs| => if xs[i] < 0 then -1 else xs[i] + amount)
  }

  /** List lengths. */
  function Counts(offsets: seq<nat>): (r: seq<nat>)
    requires offsets != [] && Rising(offsets)
    ensures |r| == |offsets| - 1 && forall i :: 0 <= i < |r| ==> r[i] == offsets[i + 1] - offsets[i]
  {
    seq(|offsets| - 1, i requires 0 <= i < |offsets| - 1 => assert offsets[i] <= offsets[i + 1]; offsets[i + 1] - offsets[i])
  }

  function AllCounts<V>(f: Form, parts: seq<Layout<V>>): (r: seq<seq<nat>>)
    requires AllFit(ListOffsetF(f), parts)
    ensures |r| == |parts| && forall j :: 0 <= j < |r| ==> r[j] == Counts(parts[j].offsets)
  {
    seq(|parts|, j requires 0 <= j < |parts| => Counts(parts[j].offsets))
  }

  function RunningSums(ns: seq<nat>): (r: seq<nat>)
    ensures |r| == |ns| + 1 && forall n :: 0 <= n < |r| ==> r[n] == Sum(ns, n)
  {
    seq(|ns| + 1, n requires 0 <= n < |ns| + 1 => Sum(ns, n))
  }

  function UnionIndex<V>(cs: seq<Form>, parts: seq<Layout<V>>, j: nat): (r: seq<nat>)
    requires AllFit(UnionF(cs), parts) && j < |parts|
    ensures |r| == Len(parts[j])
    ensures forall i :: 0 <= i < |r| ==> parts[j].tags[i] < |cs| && r[i] == parts[j].index[i] + Start(CaseParts(cs, parts, parts[j].tags[i]), j)
  {
    seq(|parts[j].tags|, i requires 0 <= i < |parts[j].tags| => parts[j].index[i] + Start(CaseParts(cs, parts, parts[j].tags[i]), j))
  }

  /** `_joined`: the parts' indexes rebased onto their joined contents. */
  function Joined<V>(form: Form, parts: seq<Layout<V>>): Layout<V>
    requires AllFit(form, parts)
    decreases form
  {
    var n := |parts|;
    match form
    case LeafF => Leaf(Concat(seq(n, j requires 0 <= j < n => parts[j].data)))
    case RecordF(fs) =>
      Record(seq(|fs|, k requires 0 <= k < |fs| => FieldsFit(fs, parts, k); Joined(fs[k], FieldParts(fs, parts, k))), Start(parts, n))
    case ListOffsetF(f) =>
      ContentsFit(form, parts);
      ListOffset(RunningSums(Concat<nat>(AllCounts(f, parts))), Joined(f, ContentsOf(form, parts)))
    case ListF(f) =>
      ContentsFit(form, parts);
      var contents := ContentsOf(form, parts);
      ListArray(Concat<nat>(ListStarts(f, parts, contents)), Concat<nat>(ListStops(f, parts, contents)), Joined(f, contents))
    case RegularF(size, f) =>
      ContentsFit(form, parts);
      Regular(Joined(f, ContentsOf(form, parts)), Start(parts, n))
    case IndexedF(f) =>
      ContentsFit(form, parts);
      var contents := ContentsOf(form, parts);
      Indexed(Concat<nat>(IndexParts(f, parts, contents)), Joined(f, contents))
    case OptionF(f) =>
      ContentsFit(form, parts);
      var contents := ContentsOf(form, parts);
      Optional(Concat<int>(HoleParts(f, parts, contents)), Joined(f, contents))
    case UnmaskedF(f) =>
      ContentsFit(form, parts);
      Unmasked(Joined(f, ContentsOf(form, parts)))
    case UnionF(cs) =>
      Union(Concat<nat>(seq(n, j requires 0 <= j < n => parts[j].tags)),
            Concat<nat>(seq(n, j requires 0 <= j < n => UnionIndex(cs, parts, j))),
            seq(|cs|, k requires 0 <= k < |cs| => CasesFit(cs, parts, k); Joined(cs[k], CaseParts(cs, parts, k))))
  }

  lemma {:induction false} ContentsFit<V>(form: Form, parts: seq<Layout<V>>)
    requires Nested(form) && AllFit(form, parts)
    ensures AllFit(form.item, ContentsOf(form, parts))
  {
    forall j | 0 <= j < |parts| ensures Fits(form.item, ContentOf(form, parts[j])) {
      var p := parts[j];
      assert Fits(form, p);
      match form
      case ListOffsetF(f) => SliceFits(f, p.content, p.offsets[0], p.offsets[|p.offsets| - 1]);
      case RegularF(size, f) => SliceFits(f, p.content, 0, p.length * size);
      case _ =>
    }
  }

  lemma {:induction false} FieldsFit<V>(fs: seq<Form>, parts: seq<Layout<V>>, k: nat)
    requires AllFit(RecordF(fs), parts) && k < |fs|
    ensures AllFit(fs[k], FieldParts(fs, parts, k)) && Lens(FieldParts(fs, parts, k)) == Lens(parts)
  {
    forall j | 0 <= j < |parts|
      ensures Fits(fs[k], FieldParts(fs, parts, k)[j]) && Len(FieldParts(fs, parts, k)[j]) == Len(parts[j])
    {
      assert Fits(RecordF(fs), parts[j]);
      SliceFits(fs[k], parts[j].contents[k], 0, parts[j].length);
    }
    assert Lens(FieldParts(fs, parts, k)) == Lens(parts);
  }

  lemma CasesFit<V>(cs: seq<Form>, parts: seq<Layout<V>>, k: nat)
    requires AllFit(UnionF(cs), parts) && k < |cs|
    ensures AllFit(cs[k], CaseParts(cs, parts, k))
  {
    forall j | 0 <= j < |parts| ensures Fits(cs[k], CaseParts(cs, parts, k)[j]) { assert Fits(UnionF(cs), parts[j]); }
  }

  // ---- the joined rows --------------------------------------------------------------------------

  /** From position `at` on, `whole` holds the rows of `l`. */
  ghost predicate HoldsFrom<V>(form: Form, whole: Layout<V>, l: Layout<V>, at: nat)
    requires Fits(form, whole) && Fits(form, l)
  {
    at + Len(l) <= Len(whole) && forall i :: 0 <= i < Len(l) ==> Row(form, whole, at + i) == Row(form, l, i)
  }

  /** Every part's rows, in part order. */
  ghost predicate HoldsAll<V>(form: Form, whole: Layout<V>, parts: seq<Layout<V>>)
    requires AllFit(form, parts)
  {
    && Fits(form, whole) && Len(whole) == Start(parts, |parts|)
    && forall j :: 0 <= j < |parts| ==> HoldsFrom(form, whole, parts[j], Start(parts, j))
  }

  lemma {:induction false} RowsMoved<V>(form: Form, whole: Layout<V>, l: Layout<V>, at: nat, from: nat, to: nat)
    requires Fits(form, whole) && Fits(form, l) && HoldsFrom(form, whole, l, at) && Bounds(from, to, Len(l))
    ensures Bounds(at + from, at + to, Len(whole))
    ensures RowsIn(form, whole, at + from, at + to) == RowsIn(form, l, from, to)
  {
    hide Fits, Row, Len;
    forall k | 0 <= k < to - from ensures RowsIn(form, whole, at + from, at + to)[k] == RowsIn(form, l, from, to)[k] {
      assert Row(form, whole, at + (from + k)) == Row(form, l, from + k);
    }
  }

  lemma PartEnds<V>(parts: seq<Layout<V>>, j: nat)
    requires j < |parts|
    ensures Start(parts, j) + Len(parts[j]) == Start(parts, j + 1) <= Start(parts, |parts|)
  {
    SumRises(Lens(parts), j + 1, |parts|);
  }

  /** The arrays `xss`, one per part and of its length, concatenated: what part `j` gave is at part `j`. */
  lemma PartAt<T, V>(parts: seq<Layout<V>>, xss: seq<seq<T>>, j: nat, i: nat)
    requires |xss| == |parts| && j < |parts| && i < Len(parts[j])
    requires forall k :: 0 <= k < |parts| ==> |xss[k]| == Len(parts[k])
    ensures |Concat(xss)| == Start(parts, |parts|) && Start(parts, j) + i < |Concat(xss)|
    ensures Concat(xss)[Start(parts, j) + i] == xss[j][i]
  {
    ConcatLength(xss, Lens(parts));
    ConcatBySum(xss, Lens(parts), j, i);
  }

  lemma PartsTotal<T, V>(parts: seq<Layout<V>>, xss: seq<seq<T>>)
    requires |xss| == |parts| && forall k :: 0 <= k < |parts| ==> |xss[k]| == Len(parts[k])
    ensures |Concat(xss)| == Start(parts, |parts|)
  {
    ConcatLength(xss, Lens(parts));
  }

  lemma {:induction false} LeafHolds<V>(parts: seq<Layout<V>>)
    requires AllFit(LeafF, parts)
    ensures HoldsAll(LeafF, Joined(LeafF, parts), parts)
  {
    var xss := seq(|parts|, j requires 0 <= j < |parts| => parts[j].data);
    PartsTotal<V, V>(parts, xss);
    forall j | 0 <= j < |parts| ensures HoldsFrom(LeafF, Joined(LeafF, parts), parts[j], Start(parts, j)) {
      PartEnds(parts, j);
      forall i | 0 <= i < Len(parts[j]) ensures Concat(xss)[Start(parts, j) + i] == parts[j].data[i] { PartAt(parts, xss, j, i); }
    }
  }

  lemma {:induction false} RecordHolds<V>(fs: seq<Form>, parts: seq<Layout<V>>)
    requires AllFit(RecordF(fs), parts)
    requires forall k :: 0 <= k < |fs| ==> AllFit(fs[k], FieldParts(fs, parts, k)) && HoldsAll(fs[k], Joined(fs[k], FieldParts(fs, parts, k)), FieldParts(fs, parts, k))
    ensures HoldsAll(RecordF(fs), Joined(RecordF(fs), parts), parts)
  {
    hide HoldsAll, HoldsFrom;
    var whole := Joined(RecordF(fs), parts);
    forall k | 0 <= k < |fs| ensures Fits(fs[k], whole.contents[k]) && Len(whole.contents[k]) == whole.length {
      FieldsFit(fs, parts, k);
      HoldsAllFacts(fs[k], Joined(fs[k], FieldParts(fs, parts, k)), FieldParts(fs, parts, k));
    }
    assert Fits(RecordF(fs), whole);
    forall j, i | 0 <= j < |parts| && 0 <= i < Len(parts[j])
      ensures RowHeld(RecordF(fs), whole, parts, j, i)
    {
      PartEnds(parts, j);
      RecordRow(fs, parts, whole, j, i);
    }
    HoldsEverywhere(RecordF(fs), whole, parts);
  }

  lemma {:induction false} RecordRow<V>(fs: seq<Form>, parts: seq<Layout<V>>, whole: Layout<V>, j: nat, i: nat)
    requires AllFit(RecordF(fs), parts) && Fits(RecordF(fs), whole) && j < |parts| && i < Len(parts[j])
    requires Fits(RecordF(fs), parts[j]) && Start(parts, j) + i < whole.length
    requires forall k :: 0 <= k < |fs| ==>
      AllFit(fs[k], FieldParts(fs, parts, k)) && HoldsAll(fs[k], whole.contents[k], FieldParts(fs, parts, k))
    ensures Row(RecordF(fs), whole, Start(parts, j) + i) == Row(RecordF(fs), parts[j], i)
  {
    hide HoldsAll, Start, Slice, Row;
    var at := Start(parts, j) + i;
    forall k | 0 <= k < |fs| ensures Row(fs[k], whole.contents[k], at) == Row(fs[k], parts[j].contents[k], i) {
      FieldRow(fs, parts, whole, j, i, k);
    }
    RecordRowsAgree(fs, whole, parts[j], at, i);
  }

  lemma {:induction false} FieldRow<V>(fs: seq<Form>, parts: seq<Layout<V>>, whole: Layout<V>, j: nat, i: nat, k: nat)
    requires AllFit(RecordF(fs), parts) && Fits(RecordF(fs), whole) && j < |parts| && i < Len(parts[j]) && k < |fs|
    requires Fits(RecordF(fs), parts[j]) && Start(parts, j) + i < whole.length
    requires AllFit(fs[k], FieldParts(fs, parts, k)) && HoldsAll(fs[k], whole.contents[k], FieldParts(fs, parts, k))
    ensures Row(fs[k], whole.contents[k], Start(parts, j) + i) == Row(fs[k], parts[j].contents[k], i)
  {
    hide HoldsAll, Slice, Row;
    FieldsFit(fs, parts, k);
    var field := FieldParts(fs, parts, k);
    HoldsAllAt(fs[k], whole.contents[k], field, j);
    SliceRows(fs[k], parts[j].contents[k], 0, parts[j].length, i);
    assert Row(fs[k], whole.contents[k], Start(field, j) + i) == Row(fs[k], field[j], i);
  }

  lemma HoldsAllFacts<V>(form: Form, whole: Layout<V>, parts: seq<Layout<V>>)
    requires AllFit(form, parts) && HoldsAll(form, whole, parts)
    ensures Fits(form, whole) && Len(whole) == Start(parts, |parts|)
  {
  }

  lemma HoldsAllAt<V>(form: Form, whole: Layout<V>, parts: seq<Layout<V>>, j: nat)
    requires AllFit(form, parts) && HoldsAll(form, whole, parts) && j < |parts|
    ensures Fits(form, whole) && Fits(form, parts[j]) && HoldsFrom(form, whole, parts[j], Start(parts, j))
    ensures Start(parts, j) + Len(parts[j]) <= Len(whole)
  {
  }

  lemma {:induction false} HoldsEverywhere<V>(form: Form, whole: Layout<V>, parts: seq<Layout<V>>)
    requires AllFit(form, parts) && Fits(form, whole) && Len(whole) == Start(parts, |parts|)
    requires forall j, i :: 0 <= j < |parts| && 0 <= i < Len(parts[j]) ==> RowHeld(form, whole, parts, j, i)
    ensures HoldsAll(form, whole, parts)
  {
    hide RowHeld, Start, HoldsFrom;
    forall j | 0 <= j < |parts| ensures HoldsFrom(form, whole, parts[j], Start(parts, j)) {
      HoldsPart(form, whole, parts, j);
    }
  }

  lemma {:induction false} HoldsPart<V>(form: Form, whole: Layout<V>, parts: seq<Layout<V>>, j: nat)
    requires AllFit(form, parts) && Fits(form, whole) && Len(whole) == Start(parts, |parts|) && j < |parts|
    requires forall i :: 0 <= i < Len(parts[j]) ==> RowHeld(form, whole, parts, j, i)
    ensures HoldsFrom(form, whole, parts[j], Start(parts, j))
  {
    hide Row, Start, Fits, Len;
    PartEnds(parts, j);
    forall i | 0 <= i < Len(parts[j]) ensures Row(form, whole, Start(parts, j) + i) == Row(form, parts[j], i) {
      assert RowHeld(form, whole, parts, j, i);
    }
  }

  ghost predicate RowHeld<V>(form: Form, whole: Layout<V>, parts: seq<Layout<V>>, j: nat, i: nat)
    requires AllFit(form, parts) && Fits(form, whole) && j < |parts| && i < Len(parts[j])
  {
    assert Fits(form, parts[j]);
    Start(parts, j) + i < Len(whole) && Row(form, whole, Start(parts, j) + i) == Row(form, parts[j], i)
  }

  /** Part `j`'s bounds, moved onto the joined content. */
  lemma {:induction false} ListHolds<V>(f: Form, parts: seq<Layout<V>>)
    requires AllFit(ListF(f), parts) && AllFit(f, ContentsOf(ListF(f), parts))
    requires HoldsAll(f, Joined(f, ContentsOf(ListF(f), parts)), ContentsOf(ListF(f), parts))
    ensures HoldsAll(ListF(f), Joined(ListF(f), parts), parts)
  {
    hide HoldsAll, HoldsFrom, Start, ListRowAt, Row;
    var form := ListF(f);
    var contents := ContentsOf(form, parts);
    var content := Joined(f, contents);
    var xss, yss := ListStarts(f, parts, contents), ListStops(f, parts, contents);
    var whole := ListArray(Concat<nat>(xss), Concat<nat>(yss), content);
    assert whole == Joined(form, parts);
    PartsTotal<nat, V>(parts, xss);
    PartsTotal<nat, V>(parts, yss);
    HoldsAllFacts(f, content, contents);
    forall j, i | 0 <= j < |parts| && 0 <= i < Len(parts[j]) ensures ListRowAt(f, parts, contents, whole, j, i) {
      ListRow(f, parts, contents, whole, j, i);
    }
    ListRowsHold(f, parts, contents, whole);
  }

  lemma {:induction false} ListRow<V>(f: Form, parts: seq<Layout<V>>, contents: seq<Layout<V>>, whole: Layout<V>, j: nat, i: nat)
    requires AllFit(ListF(f), parts) && contents == ContentsOf(ListF(f), parts) && AllFit(f, contents)
    requires j < |parts| && i < Len(parts[j]) && Fits(ListF(f), parts[j])
    requires whole.ListArray? && HoldsAll(f, whole.content, contents) && Fits(f, whole.content)
    requires whole.starts == Concat<nat>(ListStarts(f, parts, contents)) && whole.stops == Concat<nat>(ListStops(f, parts, contents))
    requires |whole.starts| == |whole.stops|
    ensures ListRowAt(f, parts, contents, whole, j, i)
  {
    hide HoldsAll, HoldsFrom, Start, Row, Joined, Fits, AllFit, Len, RowsIn;
    ListFits(f, parts[j]);
    PartAt<nat, V>(parts, ListStarts(f, parts, contents), j, i);
    PartAt<nat, V>(parts, ListStops(f, parts, contents), j, i);
    HoldsAllAt(f, whole.content, contents, j);
    RowsMoved(f, whole.content, contents[j], Start(contents, j), parts[j].starts[i], parts[j].stops[i]);
  }

  lemma {:induction false} ListRowsHold<V>(f: Form, parts: seq<Layout<V>>, contents: seq<Layout<V>>, whole: Layout<V>)
    requires AllFit(ListF(f), parts) && |contents| == |parts|
    requires whole.ListArray? && |whole.starts| == |whole.stops| == Start(parts, |parts|) && Fits(f, whole.content)
    requires forall j, i :: 0 <= j < |parts| && 0 <= i < Len(parts[j]) ==>
      Fits(ListF(f), parts[j]) && ListRowAt(f, parts, contents, whole, j, i)
    ensures HoldsAll(ListF(f), whole, parts)
  {
    hide HoldsAll, HoldsFrom, Start, Row, RowsIn;
    var form := ListF(f);
    forall m | 0 <= m < Len(whole) ensures Bounds(whole.starts[m], whole.stops[m], Len(whole.content)) {
      var j, i := LocatePart(parts, m);
      assert ListRowAt(f, parts, contents, whole, j, i);
    }
    assert Fits(form, whole);
    forall j, i | 0 <= j < |parts| && 0 <= i < Len(parts[j]) ensures RowHeld(form, whole, parts, j, i) {
      assert ListRowAt(f, parts, contents, whole, j, i);
      ListRowIs(f, whole, Start(parts, j) + i);
      ListRowIs(f, parts[j], i);
    }
    HoldsEverywhere(form, whole, parts);
  }

  ghost predicate ListRowAt<V>(f: Form, parts: seq<Layout<V>>, contents: seq<Layout<V>>, whole: Layout<V>, j: nat, i: nat)
    requires whole.ListArray? && |whole.starts| == |whole.stops| && Fits(f, whole.content) && j < |parts| && Fits(ListF(f), parts[j])
    requires |contents| == |parts| && i < Len(parts[j])
  {
    var m := Start(parts, j) + i;
    && m < |whole.starts|
    && whole.starts[m] == parts[j].starts[i] + Start(contents, j)
    && whole.stops[m] == parts[j].stops[i] + Start(contents, j)
    && Bounds(whole.starts[m], whole.stops[m], Len(whole.content))
    && RowsIn(f, whole.content, whole.starts[m], whole.stops[m]) == RowsIn(f, parts[j].content, parts[j].starts[i], parts[j].stops[i])
  }

  lemma LocatePart<V>(parts: seq<Layout<V>>, m: nat) returns (j: nat, i: nat)
    requires m < Start(parts, |parts|)
    ensures j < |parts| && i < Len(parts[j]) && m == Start(parts, j) + i
  {
    j, i := Locate(Lens(parts), m, |parts|);
  }

  function IndexParts<V>(f: Form, parts: seq<Layout<V>>, contents: seq<Layout<V>>): (r: seq<seq<nat>>)
    requires AllFit(IndexedF(f), parts) && |contents| == |parts|
    ensures |r| == |parts|
    ensures forall j :: 0 <= j < |r| ==> (parts[j].Indexed? && r[j] == ShiftedBy(parts[j].index, Len(parts[j]), Start(contents, j)))
  {
    seq(|parts|, j requires 0 <= j < |parts| => assert Fits(IndexedF(f), parts[j]); ShiftedBy(parts[j].index, Len(parts[j]), Start(contents, j)))
  }

  /** Row `a` of `l` is row `b` of `r`. */
  ghost predicate SameRow<V>(f: Form, l: Layout<V>, a: nat, r: Layout<V>, b: nat) {
    Fits(f, l) && Fits(f, r) && a < Len(l) && b < Len(r) && Row(f, l, a) == Row(f, r, b)
  }

  /** Both are holes, or name the same row. */
  ghost predicate SameHole<V>(f: Form, l: Layout<V>, a: int, r: Layout<V>, b: int) {
    if a < 0 then b < 0 else b >= 0 && SameRow(f, l, a, r, b)
  }

  /** The joined index of part `j`'s row `i`, and the row it names. */
  lemma {:induction false} IndexAt<V>(f: Form, parts: seq<Layout<V>>, contents: seq<Layout<V>>, content: Layout<V>, j: nat, i: nat)
    requires AllFit(IndexedF(f), parts) && contents == ContentsOf(IndexedF(f), parts) && AllFit(f, contents)
    requires HoldsAll(f, content, contents) && j < |parts| && i < Len(parts[j])
    ensures Fits(f, content) && Fits(IndexedF(f), parts[j])
    ensures var index := Concat<nat>(IndexParts(f, parts, contents));
      Start(parts, j) + i < |index| == Start(parts, |parts|)
      && SameRow(f, content, index[Start(parts, j) + i], parts[j].content, parts[j].index[i])
  {
    hide HoldsAll, Start, Row;
    assert Fits(IndexedF(f), parts[j]);
    PartAt<nat, V>(parts, IndexParts(f, parts, contents), j, i);
    HoldsAllAt(f, content, contents, j);
    assert Row(f, content, Start(contents, j) + parts[j].index[i]) == Row(f, contents[j], parts[j].index[i]);
  }

  lemma {:induction false} IndexedHolds<V>(f: Form, parts: seq<Layout<V>>)
    requires AllFit(IndexedF(f), parts) && AllFit(f, ContentsOf(IndexedF(f), parts))
    requires HoldsAll(f, Joined(f, ContentsOf(IndexedF(f), parts)), ContentsOf(IndexedF(f), parts))
    ensures HoldsAll(IndexedF(f), Joined(IndexedF(f), parts), parts)
  {
    hide HoldsAll, HoldsFrom, Start, Row;
    var form := IndexedF(f);
    var contents := ContentsOf(form, parts);
    var whole := Joined(form, parts);
    PartsTotal<nat, V>(parts, IndexParts(f, parts, contents));
    HoldsAllFacts(f, whole.content, contents);
    forall m | 0 <= m < Len(whole) ensures whole.index[m] < Len(whole.content) {
      var j, i := LocatePart(parts, m);
      IndexAt(f, parts, contents, whole.content, j, i);
    }
    assert Fits(form, whole);
    forall j, i | 0 <= j < |parts| && 0 <= i < Len(parts[j]) ensures RowHeld(form, whole, parts, j, i) {
      IndexAt(f, parts, contents, whole.content, j, i);
      IndexedRowIs(f, whole, Start(parts, j) + i);
      IndexedRowIs(f, parts[j], i);
    }
    HoldsEverywhere(form, whole, parts);
  }

  function HoleParts<V>(f: Form, parts: seq<Layout<V>>, contents: seq<Layout<V>>): (r: seq<seq<int>>)
    requires AllFit(OptionF(f), parts) && |contents| == |parts|
    ensures |r| == |parts|
    ensures forall j :: 0 <= j < |r| ==> (parts[j].Optional? && r[j] == ShiftedHoles(parts[j].holes, Start(contents, j)))
  {
    seq(|parts|, j requires 0 <= j < |parts| => assert Fits(OptionF(f), parts[j]); ShiftedHoles(parts[j].holes, Start(contents, j)))
  }

  /** The joined hole or index of part `j`'s row `i`, and the row it names. */
  lemma {:induction false} HoleAt<V>(f: Form, parts: seq<Layout<V>>, contents: seq<Layout<V>>, content: Layout<V>, j: nat, i: nat)
    requires AllFit(OptionF(f), parts) && contents == ContentsOf(OptionF(f), parts) && AllFit(f, contents)
    requires HoldsAll(f, content, contents) && j < |parts| && i < Len(parts[j])
    ensures Fits(f, content) && Fits(OptionF(f), parts[j])
    ensures var holes := Concat<int>(HoleParts(f, parts, contents));
      Start(parts, j) + i < |holes| == Start(parts, |parts|)
      && SameHole(f, content, holes[Start(parts, j) + i], parts[j].content, parts[j].holes[i])
  {
    hide HoldsAll, Start, Row;
    assert Fits(OptionF(f), parts[j]);
    PartAt(parts, HoleParts(f, parts, contents), j, i);
    HoldsAllAt(f, content, contents, j);
    if parts[j].holes[i] >= 0 {
      assert Row(f, content, Start(contents, j) + parts[j].holes[i]) == Row(f, contents[j], parts[j].holes[i]);
    }
  }

  lemma {:induction false} OptionHolds<V>(f: Form, parts: seq<Layout<V>>)
    requires AllFit(OptionF(f), parts) && AllFit(f, ContentsOf(OptionF(f), parts))
    requires HoldsAll(f, Joined(f, ContentsOf(OptionF(f), parts)), ContentsOf(OptionF(f), parts))
    ensures HoldsAll(OptionF(f), Joined(OptionF(f), parts), parts)
  {
    var form := OptionF(f);
    var contents := ContentsOf(form, parts);
    var whole := Joined(form, parts);
    hide HoldsAll, HoldsFrom, Start, Row, Joined, Fits, AllFit, Len, RowHeld, HoleParts;
    OptionWholeFits(f, parts, contents, whole);
    forall j, i | 0 <= j < |parts| && 0 <= i < Len(parts[j]) ensures RowHeld(form, whole, parts, j, i) {
      OptionRow(f, parts, contents, whole, j, i);
    }
    HoldsEverywhere(form, whole, parts);
  }

  lemma {:induction false} OptionWholeFits<V>(f: Form, parts: seq<Layout<V>>, contents: seq<Layout<V>>, whole: Layout<V>)
    requires AllFit(OptionF(f), parts) && contents == ContentsOf(OptionF(f), parts) && AllFit(f, contents)
    requires whole.Optional? && HoldsAll(f, whole.content, contents) && whole.holes == Concat<int>(HoleParts(f, parts, contents))
    ensures Fits(OptionF(f), whole) && Len(whole) == Start(parts, |parts|)
  {
    hide HoldsAll, HoldsFrom, Start, Row, Fits, AllFit, Len, HoleParts;
    OptionFits(f, whole);
    HoldsAllFacts(f, whole.content, contents);
    HolesTotal(f, parts, contents);
    forall m | 0 <= m < |whole.holes| ensures whole.holes[m] < Len(whole.content) {
      var j, i := LocatePart(parts, m);
      HoleAt(f, parts, contents, whole.content, j, i);
    }
  }

  lemma HolesTotal<V>(f: Form, parts: seq<Layout<V>>, contents: seq<Layout<V>>)
    requires AllFit(OptionF(f), parts) && |contents| == |parts|
    ensures |Concat<int>(HoleParts(f, parts, contents))| == Start(parts, |parts|)
  {
    hide Start, HoleParts, Fits;
    PartsTotal<int, V>(parts, HoleParts(f, parts, contents));
  }

  lemma {:induction false} OptionRow<V>(f: Form, parts: seq<Layout<V>>, contents: seq<Layout<V>>, whole: Layout<V>, j: nat, i: nat)
    requires AllFit(OptionF(f), parts) && contents == ContentsOf(OptionF(f), parts) && AllFit(f, contents)
    requires whole.Optional? && HoldsAll(f, whole.content, contents) && whole.holes == Concat<int>(HoleParts(f, parts, contents))
    requires Fits(OptionF(f), whole) && j < |parts| && i < Len(parts[j])
    ensures RowHeld(OptionF(f), whole, parts, j, i)
  {
    hide HoldsAll, HoldsFrom, Start, Row, Fits, AllFit, Len, HoleParts;
    HoleAt(f, parts, contents, whole.content, j, i);
    OptionFits(f, whole);
    OptionFits(f, parts[j]);
    OptionRowIs(f, whole, Start(parts, j) + i);
    OptionRowIs(f, parts[j], i);
  }

  lemma {:induction false} UnmaskedHolds<V>(f: Form, parts: seq<Layout<V>>)
    requires AllFit(UnmaskedF(f), parts) && AllFit(f, ContentsOf(UnmaskedF(f), parts))
    requires HoldsAll(f, Joined(f, ContentsOf(UnmaskedF(f), parts)), ContentsOf(UnmaskedF(f), parts))
    ensures HoldsAll(UnmaskedF(f), Joined(UnmaskedF(f), parts), parts)
  {
    hide HoldsAll, HoldsFrom, Row;
    var form := UnmaskedF(f);
    var contents := ContentsOf(form, parts);
    var whole := Joined(form, parts);
    HoldsAllFacts(f, whole.content, contents);
    UnmaskedLens(f, parts);
    assert Fits(form, whole);
    forall j, i | 0 <= j < |parts| && 0 <= i < Len(parts[j]) ensures RowHeld(form, whole, parts, j, i) {
      UnmaskedRow(f, parts, whole, j, i);
    }
    HoldsEverywhere(form, whole, parts);
  }

  lemma UnmaskedLens<V>(f: Form, parts: seq<Layout<V>>)
    requires AllFit(UnmaskedF(f), parts)
    ensures Lens(ContentsOf(UnmaskedF(f), parts)) == Lens(parts)
  {
    forall j | 0 <= j < |parts| ensures Len(ContentsOf(UnmaskedF(f), parts)[j]) == Len(parts[j]) { assert Fits(UnmaskedF(f), parts[j]); }
  }

  lemma {:induction false} UnmaskedRow<V>(f: Form, parts: seq<Layout<V>>, whole: Layout<V>, j: nat, i: nat)
    requires AllFit(UnmaskedF(f), parts) && AllFit(f, ContentsOf(UnmaskedF(f), parts)) && j < |parts| && i < Len(parts[j])
    requires Fits(UnmaskedF(f), whole) && HoldsAll(f, whole.content, ContentsOf(UnmaskedF(f), parts))
    ensures RowHeld(UnmaskedF(f), whole, parts, j, i)
  {
    hide HoldsAll, Row;
    var contents := ContentsOf(UnmaskedF(f), parts);
    assert Fits(UnmaskedF(f), parts[j]);
    UnmaskedLens(f, parts);
    HoldsAllAt(f, whole.content, contents, j);
    assert Row(f, whole.content, Start(contents, j) + i) == Row(f, contents[j], i);
    UnmaskedRowIs(f, whole, Start(parts, j) + i);
    UnmaskedRowIs(f, parts[j], i);
  }

  // ---- compacted lists --------------------------------------------------------------------------

  lemma {:induction false} SumSplit(a: seq<nat>, b: seq<nat>, i: nat)
    requires i <= |b|
    ensures Sum(a + b, |a| + i) == Sum(a, |a|) + Sum(b, i)
  {
    if i > 0 {
      SumSplit(a, b, i - 1);
    } else {
      SumTake(a, b, |a|);
    }
  }

  lemma {:induction false} SumTake(a: seq<nat>, b: seq<nat>, i: nat)
    requires i <= |a|
    ensures Sum(a + b, i) == Sum(a, i)
  {
    if i > 0 { SumTake(a, b, i - 1); }
  }

  function Totals(css: seq<seq<nat>>): (r: seq<nat>)
    ensures |r| == |css|
  {
    seq(|css|, j requires 0 <= j < |css| => Sum(css[j], |css[j]|))
  }

  lemma {:induction false} SumsSame(a: seq<nat>, b: seq<nat>, j: nat)
    requires j <= |a| && j <= |b| && forall k :: 0 <= k < j ==> a[k] == b[k]
    ensures Sum(a, j) == Sum(b, j)
  {
    if j > 0 { SumsSame(a, b, j - 1); }
  }

  /** The running sum inside part `j` is what the parts before it sum to, and the part's own. */
  lemma {:induction false} SumConcat(css: seq<seq<nat>>, j: nat, i: nat)
    requires j < |css| && i <= |css[j]|
    ensures StartOf(css, j) + i <= |Concat(css)|
    ensures Sum(Concat(css), StartOf(css, j) + i) == Sum(Totals(css), j) + Sum(css[j], i)
  {
    var m := |css| - 1;
    var before := css[..m];
    if j < m {
      SumConcat(before, j, i);
      assert before[..j] == css[..j];
      SumTake(Concat(before), css[m], StartOf(css, j) + i);
      SumsSame(Totals(css), Totals(before), j);
    } else {
      SumSplit(Concat(before), css[m], i);
      SumAll(before);
      SumsSame(Totals(css), Totals(before), m);
    }
  }

  lemma {:induction false} SumAll(css: seq<seq<nat>>)
    ensures Sum(Concat(css), |Concat(css)|) == Sum(Totals(css), |css|)
  {
    if css != [] {
      var m := |css| - 1;
      SumAll(css[..m]);
      SumSplit(Concat(css[..m]), css[m], |css[m]|);
      SumsSame(Totals(css), Totals(css[..m]), m);
    }
  }

  lemma {:induction false} CountsTelescope(offsets: seq<nat>, i: nat)
    requires offsets != [] && Rising(offsets) && i < |offsets|
    ensures Sum(Counts(offsets), i) == offsets[i] - offsets[0]
  {
    if i > 0 { CountsTelescope(offsets, i - 1); }
  }

  /** The joined offsets of part `j`'s row `i`: where its rows moved to. */
  lemma {:induction false} OffsetAt<V>(f: Form, parts: seq<Layout<V>>, j: nat, i: nat)
    requires AllFit(ListOffsetF(f), parts) && j < |parts| && i <= Len(parts[j])
    ensures var offsets := RunningSums(Concat<nat>(AllCounts(f, parts))); var contents := ContentsOf(ListOffsetF(f), parts);
      && Fits(ListOffsetF(f), parts[j])
      && Start(parts, j) + i < |offsets|
      && offsets[Start(parts, j) + i] == Start(contents, j) + (parts[j].offsets[i] - parts[j].offsets[0])
      && |offsets| == Start(parts, |parts|) + 1
  {
    hide Slice, Counts, Totals, Sum, StartOf;
    var css := AllCounts(f, parts);
    var contents := ContentsOf(ListOffsetF(f), parts);
    assert Fits(ListOffsetF(f), parts[j]);
    CountLengths(f, parts);
    SumConcat(css, j, i);
    SumsAgree(css, Lens(parts), j);
    ConcatLength(css, Lens(parts));
    CountsTelescope(parts[j].offsets, i);
    SumsSame(Totals(css), Lens(contents), j);
  }

  lemma {:induction false} CountLengths<V>(f: Form, parts: seq<Layout<V>>)
    requires AllFit(ListOffsetF(f), parts)
    ensures var css := AllCounts(f, parts); var contents := ContentsOf(ListOffsetF(f), parts);
      && (forall k :: 0 <= k < |parts| ==> |css[k]| == Len(parts[k]))
      && Totals(css) == Lens(contents)
  {
    var css := AllCounts(f, parts);
    var contents := ContentsOf(ListOffsetF(f), parts);
    forall k | 0 <= k < |parts| ensures |css[k]| == Len(parts[k]) && Sum(css[k], |css[k]|) == Len(contents[k]) {
      assert Fits(ListOffsetF(f), parts[k]);
      var o := parts[k].offsets;
      CountsTelescope(o, |o| - 1);
      SliceFits(f, parts[k].content, o[0], o[|o| - 1]);
    }
    assert Totals(css) == Lens(contents);
  }

  lemma {:induction false} ListOffsetHolds<V>(f: Form, parts: seq<Layout<V>>)
    requires AllFit(ListOffsetF(f), parts) && AllFit(f, ContentsOf(ListOffsetF(f), parts))
    requires HoldsAll(f, Joined(f, ContentsOf(ListOffsetF(f), parts)), ContentsOf(ListOffsetF(f), parts))
    ensures HoldsAll(ListOffsetF(f), Joined(ListOffsetF(f), parts), parts)
  {
    hide HoldsAll, HoldsFrom, Start, RowHeld, AllCounts, RunningSums;
    var form := ListOffsetF(f);
    var contents := ContentsOf(form, parts);
    var content := Joined(f, contents);
    var offsets := RunningSums(Concat<nat>(AllCounts(f, parts)));
    var whole := ListOffset(offsets, content);
    assert whole == Joined(form, parts);
    HoldsAllFacts(f, content, contents);
    OffsetsFit(f, parts);
    assert Fits(form, whole);
    forall j, i | 0 <= j < |parts| && 0 <= i < Len(parts[j]) ensures RowHeld(form, whole, parts, j, i) {
      OffsetRow(f, parts, content, whole, j, i);
    }
    HoldsEverywhere(form, whole, parts);
  }

  lemma {:induction false} OffsetsFit<V>(f: Form, parts: seq<Layout<V>>)
    requires AllFit(ListOffsetF(f), parts)
    ensures var offsets := RunningSums(Concat<nat>(AllCounts(f, parts)));
      && Rising(offsets) && |offsets| == Start(parts, |parts|) + 1
      && offsets[|offsets| - 1] == Start(ContentsOf(ListOffsetF(f), parts), |parts|)
  {
    var css := AllCounts(f, parts);
    var offsets := RunningSums(Concat(css));
    CountLengths(f, parts);
    ConcatLength(css, Lens(parts));
    SumAll(css);
    forall a, b | 0 <= a <= b < |offsets| ensures offsets[a] <= offsets[b] { SumRises(Concat(css), a, b); }
  }

  lemma {:induction false} OffsetRow<V>(f: Form, parts: seq<Layout<V>>, content: Layout<V>, whole: Layout<V>, j: nat, i: nat)
    requires AllFit(ListOffsetF(f), parts) && AllFit(f, ContentsOf(ListOffsetF(f), parts)) && j < |parts| && i < Len(parts[j])
    requires HoldsAll(f, content, ContentsOf(ListOffsetF(f), parts))
    requires whole == ListOffset(RunningSums(Concat<nat>(AllCounts(f, parts))), content) && Fits(ListOffsetF(f), whole)
    ensures RowHeld(ListOffsetF(f), whole, parts, j, i)
  {
    hide Rising, Sum, Concat, Counts, HoldsAll, Start, AllCounts, RunningSums, RowsIn, Row, ContentsOf, Fits, AllFit, Len;
    OffsetsOf(f, parts, whole.offsets, j, i);
    OffsetFits(f, whole);
    MovedItems(f, parts, content, j, i);
    OffsetRowIs(f, whole, Start(parts, j) + i);
    OffsetRowIs(f, parts[j], i);
  }

  /** The joined offsets of part `j`'s row `i`. */
  lemma {:induction false} OffsetsOf<V>(f: Form, parts: seq<Layout<V>>, offsets: seq<nat>, j: nat, i: nat)
    requires AllFit(ListOffsetF(f), parts) && j < |parts| && i < Len(parts[j])
    requires offsets == RunningSums(Concat<nat>(AllCounts(f, parts)))
    ensures Fits(ListOffsetF(f), parts[j]) && parts[j].ListOffset? && i + 1 < |parts[j].offsets|
    ensures var m := Start(parts, j) + i; var at := Start(ContentsOf(ListOffsetF(f), parts), j); var o := parts[j].offsets;
      m + 1 < |offsets| && offsets[m] == at + (o[i] - o[0]) && offsets[m + 1] == at + (o[i + 1] - o[0])
  {
    hide Rising, Sum, Concat, Counts, Start, AllCounts, RunningSums, ContentsOf, Fits, AllFit, Len;
    OffsetAt(f, parts, j, i);
    OffsetAt(f, parts, j, i + 1);
    OffsetFits(f, parts[j]);
  }

  /** Row `i` of part `j`, in the part's content and in the joined one. */
  lemma {:induction false} MovedItems<V>(f: Form, parts: seq<Layout<V>>, content: Layout<V>, j: nat, i: nat)
    requires AllFit(ListOffsetF(f), parts) && AllFit(f, ContentsOf(ListOffsetF(f), parts)) && j < |parts| && i < Len(parts[j])
    requires HoldsAll(f, content, ContentsOf(ListOffsetF(f), parts))
    ensures Fits(ListOffsetF(f), parts[j]) && Fits(f, content)
    ensures var o := parts[j].offsets; var at := Start(ContentsOf(ListOffsetF(f), parts), j);
      && o[0] <= o[i] <= o[i + 1] <= o[|o| - 1] <= Len(parts[j].content) && at + (o[i + 1] - o[0]) <= Len(content)
      && RowsIn(f, content, at + (o[i] - o[0]), at + (o[i + 1] - o[0])) == RowsIn(f, parts[j].content, o[i], o[i + 1])
  {
    hide HoldsAll, Start, Slice, HoldsFrom, Row, RowsIn, Fits, Len;
    var contents := ContentsOf(ListOffsetF(f), parts);
    assert Fits(ListOffsetF(f), parts[j]);
    OffsetFits(f, parts[j]);
    HoldsAllAt(f, content, contents, j);
    var o := parts[j].offsets;
    var last := o[|o| - 1];
    SliceFits(f, parts[j].content, o[0], last);
    assert o[0] <= o[i] <= o[i + 1] <= last;
    RowsMoved(f, content, contents[j], Start(contents, j), o[i] - o[0], o[i + 1] - o[0]);
    RowsInSlice(f, parts[j].content, o[0], last, o[i] - o[0], o[i + 1] - o[0]);
  }

  // ---- regular lists and unions -----------------------------------------------------------------

  lemma {:induction false} SumTimes(ns: seq<nat>, ms: seq<nat>, size: nat, j: nat)
    requires |ns| == |ms| && j <= |ns| && forall k :: 0 <= k < |ns| ==> ms[k] == ns[k] * size
    ensures Sum(ms, j) == Sum(ns, j) * size
  {
    if j > 0 {
      SumTimes(ns, ms, size, j - 1);
      assert (Sum(ns, j - 1) + ns[j - 1]) * size == Sum(ns, j - 1) * size + ns[j - 1] * size;
    }
  }

  lemma {:induction false} RegularStarts<V>(size: nat, f: Form, parts: seq<Layout<V>>, j: nat)
    requires AllFit(RegularF(size, f), parts) && j <= |parts|
    ensures Start(ContentsOf(RegularF(size, f), parts), j) == Start(parts, j) * size
  {
    var contents := ContentsOf(RegularF(size, f), parts);
    forall k | 0 <= k < |parts| ensures Len(contents[k]) == Len(parts[k]) * size {
      assert Fits(RegularF(size, f), parts[k]);
      SliceFits(f, parts[k].content, 0, parts[k].length * size);
    }
    SumTimes(Lens(parts), Lens(contents), size, j);
  }

  lemma {:induction false} RegularHolds<V>(size: nat, f: Form, parts: seq<Layout<V>>)
    requires AllFit(RegularF(size, f), parts) && AllFit(f, ContentsOf(RegularF(size, f), parts))
    requires HoldsAll(f, Joined(f, ContentsOf(RegularF(size, f), parts)), ContentsOf(RegularF(size, f), parts))
    ensures HoldsAll(RegularF(size, f), Joined(RegularF(size, f), parts), parts)
  {
    hide HoldsAll, HoldsFrom, Start, RowHeld;
    var form := RegularF(size, f);
    var contents := ContentsOf(form, parts);
    var content := Joined(f, contents);
    var whole := Regular(content, Start(parts, |parts|));
    assert whole == Joined(form, parts);
    HoldsAllFacts(f, content, contents);
    RegularStarts(size, f, parts, |parts|);
    assert Fits(form, whole);
    forall j, i | 0 <= j < |parts| && 0 <= i < Len(parts[j]) ensures RowHeld(form, whole, parts, j, i) {
      RegularRow(size, f, parts, content, whole, j, i);
    }
    HoldsEverywhere(form, whole, parts);
  }

  lemma {:induction false} RegularRow<V>(size: nat, f: Form, parts: seq<Layout<V>>, content: Layout<V>, whole: Layout<V>, j: nat, i: nat)
    requires AllFit(RegularF(size, f), parts) && AllFit(f, ContentsOf(RegularF(size, f), parts)) && j < |parts| && i < Len(parts[j])
    requires HoldsAll(f, content, ContentsOf(RegularF(size, f), parts))
    requires whole == Regular(content, Start(parts, |parts|)) && Fits(RegularF(size, f), whole)
    ensures RowHeld(RegularF(size, f), whole, parts, j, i)
  {
    hide HoldsAll, HoldsFrom, Start, Slice, RowsIn, Row, Fits, Len, ContentsOf;
    RegularPlace(size, f, parts, j, i);
    MovedRegular(size, f, parts, content, j, i * size, (i + 1) * size);
    PartEnds(parts, j);
    RegularFits(size, f, whole);
    RegularRowIs(size, f, parts[j], i);
    RegularRowIs(size, f, whole, Start(parts, j) + i);
  }

  /** Where part `j`'s row `i` lies in the joined content. */
  lemma {:induction false} RegularPlace<V>(size: nat, f: Form, parts: seq<Layout<V>>, j: nat, i: nat)
    requires AllFit(RegularF(size, f), parts) && j < |parts| && i < Len(parts[j])
    ensures Fits(RegularF(size, f), parts[j]) && parts[j].Regular? && i * size <= (i + 1) * size <= parts[j].length * size
    ensures var m := Start(parts, j) + i; var at := Start(ContentsOf(RegularF(size, f), parts), j);
      m * size == at + i * size && (m + 1) * size == at + (i + 1) * size
  {
    hide Start, ContentsOf, Fits, Len;
    RegularFits(size, f, parts[j]);
    RegularStarts(size, f, parts, j);
    RegularBound(i, parts[j].length, size);
    Shifted(Start(parts, j), i, size);
  }

  /** A run of part `j`'s content, where the joined content holds it. */
  lemma {:induction false} MovedRegular<V>(size: nat, f: Form, parts: seq<Layout<V>>, content: Layout<V>, j: nat, from: nat, to: nat)
    requires AllFit(RegularF(size, f), parts) && AllFit(f, ContentsOf(RegularF(size, f), parts)) && j < |parts|
    requires HoldsAll(f, content, ContentsOf(RegularF(size, f), parts))
    requires Fits(RegularF(size, f), parts[j]) && from <= to <= parts[j].length * size
    ensures Fits(f, content)
    ensures var at := Start(ContentsOf(RegularF(size, f), parts), j);
      at + to <= Len(content) && to <= Len(parts[j].content)
      && RowsIn(f, content, at + from, at + to) == RowsIn(f, parts[j].content, from, to)
  {
    hide HoldsAll, Start, Slice, HoldsFrom, Row;
    var contents := ContentsOf(RegularF(size, f), parts);
    var used := parts[j].length * size;
    HoldsAllAt(f, content, contents, j);
    SliceFits(f, parts[j].content, 0, used);
    RowsMoved(f, content, contents[j], Start(contents, j), from, to);
    RowsInSlice(f, parts[j].content, 0, used, from, to);
  }

  lemma {:induction false} UnionHolds<V>(cs: seq<Form>, parts: seq<Layout<V>>)
    requires AllFit(UnionF(cs), parts)
    requires forall k :: 0 <= k < |cs| ==> AllFit(cs[k], CaseParts(cs, parts, k)) && HoldsAll(cs[k], Joined(cs[k], CaseParts(cs, parts, k)), CaseParts(cs, parts, k))
    ensures HoldsAll(UnionF(cs), Joined(UnionF(cs), parts), parts)
  {
    hide HoldsAll, HoldsFrom, Start, RowHeld, Row;
    var form := UnionF(cs);
    var n := |parts|;
    var tss := seq(n, j requires 0 <= j < n => parts[j].tags);
    var xss := seq(n, j requires 0 <= j < n => UnionIndex(cs, parts, j));
    var whole := Joined(form, parts);
    UnionFits(cs, parts, whole, tss, xss);
    forall j, i | 0 <= j < |parts| && 0 <= i < Len(parts[j]) ensures RowHeld(form, whole, parts, j, i) {
      CaseAt(cs, parts, whole, tss, xss, j, i);
      CaseRow(cs, parts, whole, j, i);
    }
    HoldsEverywhere(form, whole, parts);
  }

  /** The tags and rebased indexes of the parts, concatenated, over contents that hold every part's. */
  ghost predicate UnionJoins<V>(cs: seq<Form>, parts: seq<Layout<V>>, whole: Layout<V>, tss: seq<seq<nat>>, xss: seq<seq<nat>>)
    requires AllFit(UnionF(cs), parts)
  {
    && tss == seq(|parts|, j requires 0 <= j < |parts| => parts[j].tags)
    && xss == seq(|parts|, j requires 0 <= j < |parts| => UnionIndex(cs, parts, j))
    && whole.Union? && whole.tags == Concat<nat>(tss) && whole.index == Concat<nat>(xss) && |whole.contents| == |cs|
    && forall k :: 0 <= k < |cs| ==> AllFit(cs[k], CaseParts(cs, parts, k)) && HoldsAll(cs[k], whole.contents[k], CaseParts(cs, parts, k))
  }

  lemma {:induction false} UnionShape<V>(cs: seq<Form>, parts: seq<Layout<V>>, whole: Layout<V>, tss: seq<seq<nat>>, xss: seq<seq<nat>>)
    requires AllFit(UnionF(cs), parts)
    requires UnionJoins(cs, parts, whole, tss, xss)
    ensures whole.Union? && |whole.contents| == |cs| && |whole.tags| == |whole.index| == Start(parts, |parts|)
    ensures forall k :: 0 <= k < |cs| ==> Fits(cs[k], whole.contents[k])
  {
    hide HoldsAll, HoldsFrom, Start, Row;
    PartsTotal<nat, V>(parts, tss);
    PartsTotal<nat, V>(parts, xss);
    forall k | 0 <= k < |cs| ensures Fits(cs[k], whole.contents[k]) {
      HoldsAllFacts(cs[k], whole.contents[k], CaseParts(cs, parts, k));
    }
  }

  lemma {:induction false} UnionFits<V>(cs: seq<Form>, parts: seq<Layout<V>>, whole: Layout<V>, tss: seq<seq<nat>>, xss: seq<seq<nat>>)
    requires AllFit(UnionF(cs), parts)
    requires UnionJoins(cs, parts, whole, tss, xss)
    ensures Fits(UnionF(cs), whole) && Len(whole) == Start(parts, |parts|)
  {
    hide UnionJoins, Start, Fits, AllFit, Len;
    UnionShape(cs, parts, whole, tss, xss);
    UnionLen(whole);
    forall m | 0 <= m < |whole.tags| ensures whole.tags[m] < |cs| && whole.index[m] < Len(whole.contents[whole.tags[m]]) {
      var j, i := LocatePart(parts, m);
      CaseAt(cs, parts, whole, tss, xss, j, i);
    }
    UnionFitsIf(cs, whole);
  }

  lemma {:induction false} CaseAt<V>(cs: seq<Form>, parts: seq<Layout<V>>, whole: Layout<V>, tss: seq<seq<nat>>, xss: seq<seq<nat>>, j: nat, i: nat)
    requires AllFit(UnionF(cs), parts) && j < |parts| && i < Len(parts[j])
    requires UnionJoins(cs, parts, whole, tss, xss)
    ensures var m := Start(parts, j) + i; var t := parts[j].tags[i];
      && m < |whole.tags| && m < |whole.index| && t < |cs|
      && whole.tags[m] == t && whole.index[m] == parts[j].index[i] + Start(CaseParts(cs, parts, t), j)
      && whole.index[m] < Len(whole.contents[t])
  {
    hide HoldsAll, Start;
    assert Fits(UnionF(cs), parts[j]);
    PartAt<nat, V>(parts, tss, j, i);
    PartAt<nat, V>(parts, xss, j, i);
    var t := parts[j].tags[i];
    HoldsAllAt(cs[t], whole.contents[t], CaseParts(cs, parts, t), j);
  }

  lemma {:induction false} CaseRow<V>(cs: seq<Form>, parts: seq<Layout<V>>, whole: Layout<V>, j: nat, i: nat)
    requires AllFit(UnionF(cs), parts) && Fits(UnionF(cs), whole) && j < |parts| && i < Len(parts[j]) && Fits(UnionF(cs), parts[j])
    requires var m := Start(parts, j) + i; var t := parts[j].tags[i];
      && m < Len(whole) && whole.tags[m] == t && whole.index[m] == parts[j].index[i] + Start(CaseParts(cs, parts, t), j)
      && AllFit(cs[t], CaseParts(cs, parts, t)) && HoldsAll(cs[t], whole.contents[t], CaseParts(cs, parts, t))
    ensures RowHeld(UnionF(cs), whole, parts, j, i)
  {
    hide HoldsAll, Start, Row;
    var t := parts[j].tags[i];
    var mine := CaseParts(cs, parts, t);
    HoldsAllAt(cs[t], whole.contents[t], mine, j);
    assert Row(cs[t], whole.contents[t], Start(mine, j) + parts[j].index[i]) == Row(cs[t], mine[j], parts[j].index[i]);
    CaseRowIs(cs, whole, Start(parts, j) + i);
    CaseRowIs(cs, parts[j], i);
  }

  // ---- the main result --------------------------------------------------------------------------

  /** The joined layout stores the same form, and denotes the parts' rows one after the other. */
  lemma {:induction false} JoinedHolds<V>(form: Form, parts: seq<Layout<V>>)
    requires AllFit(form, parts)
    ensures HoldsAll(form, Joined(form, parts), parts)
    decreases form
  {
    hide HoldsAll, Joined, AllFit;
    match form
    case LeafF => LeafHolds(parts);
    case RecordF(fs) =>
      forall k | 0 <= k < |fs| ensures AllFit(fs[k], FieldParts(fs, parts, k)) && HoldsAll(fs[k], Joined(fs[k], FieldParts(fs, parts, k)), FieldParts(fs, parts, k)) {
        FieldsFit(fs, parts, k);
        JoinedHolds(fs[k], FieldParts(fs, parts, k));
      }
      RecordHolds(fs, parts);
    case UnionF(cs) =>
      forall k | 0 <= k < |cs| ensures AllFit(cs[k], CaseParts(cs, parts, k)) && HoldsAll(cs[k], Joined(cs[k], CaseParts(cs, parts, k)), CaseParts(cs, parts, k)) {
        CasesFit(cs, parts, k);
        JoinedHolds(cs[k], CaseParts(cs, parts, k));
      }
      UnionHolds(cs, parts);
    case ListOffsetF(f) => ContentsFit(form, parts); JoinedHolds(f, ContentsOf(form, parts)); ListOffsetHolds(f, parts);
    case ListF(f) => ContentsFit(form, parts); JoinedHolds(f, ContentsOf(form, parts)); ListHolds(f, parts);
    case RegularF(size, f) => ContentsFit(form, parts); JoinedHolds(f, ContentsOf(form, parts)); RegularHolds(size, f, parts);
    case IndexedF(f) => ContentsFit(form, parts); JoinedHolds(f, ContentsOf(form, parts)); IndexedHolds(f, parts);
    case OptionF(f) => ContentsFit(form, parts); JoinedHolds(f, ContentsOf(form, parts)); OptionHolds(f, parts);
    case UnmaskedF(f) => ContentsFit(form, parts); JoinedHolds(f, ContentsOf(form, parts)); UnmaskedHolds(f, parts);
  }

  function AllRows<V>(form: Form, l: Layout<V>): (r: seq<Value<V>>)
    requires Fits(form, l)
    ensures |r| == Len(l)
  {
    RowsIn(form, l, 0, Len(l))
  }

  /** The rows of the join are the concatenation of the parts' rows. */
  lemma {:induction false} JoinConcatenatesRows<V>(form: Form, parts: seq<Layout<V>>)
    requires AllFit(form, parts)
    ensures Fits(form, Joined(form, parts))
    ensures AllRows(form, Joined(form, parts))
         == Concat(seq(|parts|, j requires 0 <= j < |parts| => assert Fits(form, parts[j]); AllRows(form, parts[j])))
  {
    hide Joined, Row, Fits, HoldsFrom, Start, HoldsAll, RowsIn;
    JoinedHolds(form, parts);
    var whole := Joined(form, parts);
    HoldsAllFacts(form, whole, parts);
    var rows := seq(|parts|, j requires 0 <= j < |parts| => assert Fits(form, parts[j]); AllRows(form, parts[j]));
    PartsTotal(parts, rows);
    forall m | 0 <= m < Len(whole) ensures AllRows(form, whole)[m] == Concat(rows)[m] {
      var j, i := LocatePart(parts, m);
      PartAt(parts, rows, j, i);
      HoldsAllAt(form, whole, parts, j);
      RowFromPart(form, whole, parts[j], Start(parts, j), i);
    }
  }

  lemma RowFromPart<V>(form: Form, whole: Layout<V>, l: Layout<V>, at: nat, i: nat)
    requires Fits(form, whole) && Fits(form, l) && HoldsFrom(form, whole, l, at) && i < Len(l)
    ensures AllRows(form, whole)[at + i] == AllRows(form, l)[i]
  {
    hide Row, Fits;
  }
}
