/** Strided tensor layouts: which ones are accepted, and why accepted ones never overlap. */
module TensorLayouts {
  import opened Accesses
  import opened Shapes

  const ISIZE_MAX: nat := 0x7FFF_FFFF_FFFF_FFFF

  datatype DType = U8 | I32 | U32 | I64 | F16 | BF16 | F32 {
    function Bytes(): nat {
      match this
      case U8 => 1
      case F16 | BF16 => 2
      case I32 | U32 | F32 => 4
      case I64 => 8
    }
  }

  datatype TensorDesc = TensorDesc(dtype: DType, shape: seq<nat>, strides: seq<nat>, elements: nat, bytes: nat)

  datatype Axis = Axis(dimension: nat, stride: nat) {
    predicate Long() {
      dimension > 1
    }

    /** How far the axis reaches past its first element. */
    function Reach(): nat {
      if Long() then (dimension - 1) * stride else 0
    }
  }

  // ---------- sizes and offsets, independent of any order ----------

  function Zip(shape: seq<nat>, strides: seq<nat>): (axes: seq<Axis>)
    requires |shape| == |strides|
  {
    if shape == [] then [] else [Axis(shape[0], strides[0])] + Zip(shape[1..], strides[1..])
  }

  function Elements(axes: seq<Axis>): nat {
    if axes == [] then 1 else axes[0].dimension * Elements(axes[1..])
  }

  /** Offset of the last element. */
  function Reach(axes: seq<Axis>): nat {
    if axes == [] then 0 else axes[0].Reach() + Reach(axes[1..])
  }

  /** Reach of the axes whose stride is smaller than `s`. */
  function Below(axes: seq<Axis>, s: nat): nat {
    if axes == [] then 0
    else (if axes[0].stride < s then axes[0].Reach() else 0) + Below(axes[1..], s)
  }

  /** Number of long axes with this stride. */
  function AtStride(axes: seq<Axis>, s: nat): nat {
    if axes == [] then 0
    else (if axes[0].Long() && axes[0].stride == s then 1 else 0) + AtStride(axes[1..], s)
  }

  /** The axis steps over everything the finer axes reach, and no other long axis shares its stride. */
  ghost predicate StepsOver(axes: seq<Axis>, a: Axis) {
    Below(axes, a.stride) < a.stride && AtStride(axes, a.stride) == 1
  }

  ghost predicate Separated(axes: seq<Axis>) {
    forall a :: a in axes && a.Long() ==> StepsOver(axes, a)
  }

  ghost predicate Index(axes: seq<Axis>, x: seq<nat>) {
    |x| == |axes| && forall i :: 0 <= i < |x| ==> x[i] < axes[i].dimension
  }

  function Offset(axes: seq<Axis>, x: seq<nat>): nat
    requires |x| == |axes|
  {
    if axes == [] then 0 else x[0] * axes[0].stride + Offset(axes[1..], x[1..])
  }

  function Last(axes: seq<Axis>): (x: seq<nat>)
    ensures |x| == |axes|
  {
    seq(|axes|, i requires 0 <= i < |axes| => if axes[i].Long() then axes[i].dimension - 1 else 0)
  }

  lemma {:induction false} OffsetBound(axes: seq<Axis>, x: seq<nat>)
    requires Index(axes, x)
    ensures Offset(axes, x) <= Reach(axes)
  {
    if axes != [] {
      OffsetBound(axes[1..], x[1..]);
      MulMono(x[0], axes[0].dimension - 1, axes[0].stride);
    }
  }

  /** The last element sits exactly at the end of the extent. */
  lemma {:induction false} LastIsReached(axes: seq<Axis>)
    requires forall i :: 0 <= i < |axes| ==> axes[i].dimension > 0
    ensures Index(axes, Last(axes)) && Offset(axes, Last(axes)) == Reach(axes)
  {
    if axes != [] {
      LastIsReached(axes[1..]);
      assert Last(axes)[1..] == Last(axes[1..]);
    }
  }

  // ---------- distinct indices, distinct offsets ----------

  lemma {:induction false} OffsetUpdate(axes: seq<Axis>, x: seq<nat>, j: nat, v: nat)
    requires |x| == |axes| && j < |x|
    ensures Offset(axes, x[j := v]) - Offset(axes, x) == (v as int - x[j]) * axes[j].stride
  {
    if j == 0 {
      assert x[0 := v][1..] == x[1..];
      MulSub(v, x[0], axes[0].stride);
    } else {
      OffsetUpdate(axes[1..], x[1..], j - 1, v);
      assert x[j := v][1..] == x[1..][j - 1 := v];
    }
  }

  lemma {:induction false} MulSub(p: int, q: int, s: int)
    ensures (p - q) * s == p * s - q * s
  {
  }

  /** Two coordinates on one axis are at most its reach apart. */
  lemma {:induction false} AxisDifference(a: Axis, p: int, q: int)
    requires 0 <= p < a.dimension && 0 <= q < a.dimension
    ensures -(a.Reach() as int) <= p * a.stride - q * a.stride <= a.Reach()
  {
    MulMono(p - q, a.dimension - 1, a.stride);
    MulMono(q - p, a.dimension - 1, a.stride);
    MulSub(p, q, a.stride);
    MulSub(q, p, a.stride);
  }

  /** Indices that differ only on finer axes stay within what those axes reach. */
  lemma {:induction false} FineDifference(axes: seq<Axis>, x: seq<nat>, y: seq<nat>, s: nat)
    requires Index(axes, x) && Index(axes, y)
    requires forall i :: 0 <= i < |axes| && x[i] != y[i] ==> axes[i].stride < s
    ensures -(Below(axes, s) as int) <= Offset(axes, x) - Offset(axes, y) <= Below(axes, s)
  {
    if axes != [] {
      FineDifference(axes[1..], x[1..], y[1..], s);
      AxisDifference(axes[0], x[0], y[0]);
    }
  }

  /** Among the axes where two indices differ, one has the largest stride. */
  lemma {:induction false} CoarsestDifference(axes: seq<Axis>, x: seq<nat>, y: seq<nat>, n: nat) returns (j: nat)
    requires |x| == |y| == |axes| && n <= |axes| && x[..n] != y[..n]
    ensures j < n && x[j] != y[j]
    ensures forall i :: 0 <= i < n && x[i] != y[i] ==> axes[i].stride <= axes[j].stride
  {
    var m := n - 1;
    assert x[..n] == x[..m] + [x[m]] && y[..n] == y[..m] + [y[m]];
    if x[..m] == y[..m] {
      assert forall i :: 0 <= i < m ==> x[i] == x[..m][i] == y[i];
      j := m;
    } else {
      j := CoarsestDifference(axes, x, y, m);
      if x[m] != y[m] && axes[m].stride > axes[j].stride {
        j := m;
      }
    }
  }

  lemma {:induction false} StrideCounts(axes: seq<Axis>, j: nat)
    requires j < |axes| && axes[j].Long()
    ensures AtStride(axes, axes[j].stride) >= 1
  {
    if j > 0 {
      StrideCounts(axes[1..], j - 1);
    }
  }

  lemma {:induction false} SharedStrideCounts(axes: seq<Axis>, i: nat, j: nat)
    requires i < j < |axes| && axes[i].stride == axes[j].stride && axes[i].Long() && axes[j].Long()
    ensures AtStride(axes, axes[i].stride) >= 2
  {
    if i == 0 {
      StrideCounts(axes[1..], j - 1);
    } else {
      SharedStrideCounts(axes[1..], i - 1, j - 1);
    }
  }

  lemma {:induction false} LongStridesDiffer(axes: seq<Axis>, i: nat, j: nat)
    requires Separated(axes) && i < |axes| && j < |axes| && i != j && axes[i].Long() && axes[j].Long()
    ensures axes[i].stride != axes[j].stride
  {
    if axes[i].stride == axes[j].stride {
      assert StepsOver(axes, axes[i]);
      if i < j {
        SharedStrideCounts(axes, i, j);
      } else {
        SharedStrideCounts(axes, j, i);
      }
    }
  }

  lemma {:induction false} NonzeroStep(d: int, s: int)
    requires d != 0 && s >= 0
    ensures d * s >= s || d * s <= -s
  {
    if d > 0 {
      MulMono(1, d, s);
    } else {
      MulMono(d, -1, s);
    }
  }

  /** After agreeing on the coarsest differing axis, two indices are less than one of its steps apart. */
  lemma {:induction false} RestIsFine(axes: seq<Axis>, z: seq<nat>, y: seq<nat>, j: nat)
    requires Separated(axes) && Index(axes, z) && Index(axes, y) && j < |axes| && axes[j].Long() && z[j] == y[j]
    requires forall i :: 0 <= i < |axes| && z[i] != y[i] ==> axes[i].stride <= axes[j].stride
    ensures -(axes[j].stride as int) < Offset(axes, z) - Offset(axes, y) < axes[j].stride
  {
    forall i | 0 <= i < |axes| && z[i] != y[i] ensures axes[i].stride < axes[j].stride {
      LongStridesDiffer(axes, i, j);
    }
    FineDifference(axes, z, y, axes[j].stride);
    assert StepsOver(axes, axes[j]);
  }

  /** A separated layout maps distinct multi-indices to distinct offsets. */
  lemma {:induction false} OffsetsAreDistinct(axes: seq<Axis>, x: seq<nat>, y: seq<nat>)
    requires Separated(axes) && Index(axes, x) && Index(axes, y) && x != y
    ensures Offset(axes, x) != Offset(axes, y)
  {
    assert x[..|axes|] == x && y[..|axes|] == y;
    var j := CoarsestDifference(axes, x, y, |axes|);
    RestIsFine(axes, x[j := y[j]], y, j);
    OffsetUpdate(axes, x, j, y[j]);
    NonzeroStep(y[j] as int - x[j], axes[j].stride);
  }

  // ---------- the order of the axes does not matter ----------

  lemma {:induction false} RemoveReach(axes: seq<Axis>, j: nat, s: nat)
    requires j < |axes|
    ensures var rest := axes[..j] + axes[j + 1..];
            && Reach(axes) == axes[j].Reach() + Reach(rest)
            && Below(axes, s) == (if axes[j].stride < s then axes[j].Reach() else 0) + Below(rest, s)
            && AtStride(axes, s) == (if axes[j].Long() && axes[j].stride == s then 1 else 0) + AtStride(rest, s)
  {
    var rest := axes[..j] + axes[j + 1..];
    if j == 0 {
      assert rest == axes[1..];
    } else {
      RemoveReach(axes[1..], j - 1, s);
      assert rest[0] == axes[0] && rest[1..] == axes[1..][..j - 1] + axes[1..][j..];
    }
  }

  lemma {:induction false} RemoveElements(axes: seq<Axis>, j: nat)
    requires j < |axes|
    ensures Elements(axes) == axes[j].dimension * Elements(axes[..j] + axes[j + 1..])
  {
    var rest := axes[..j] + axes[j + 1..];
    if j == 0 {
      assert rest == axes[1..];
    } else {
      RemoveElements(axes[1..], j - 1);
      assert rest[0] == axes[0] && rest[1..] == axes[1..][..j - 1] + axes[1..][j..];
      var a, b, e := axes[0].dimension, axes[j].dimension, Elements(rest[1..]);
      assert a * (b * e) == b * (a * e);
    }
  }

  lemma {:induction false} RemoveFirst(p: seq<Axis>, q: seq<Axis>, j: nat)
    requires multiset(p) == multiset(q) && p != [] && j < |q| && q[j] == p[0]
    ensures multiset(p[1..]) == multiset(q[..j] + q[j + 1..])
  {
    assert p == [p[0]] + p[1..];
    assert q == q[..j] + [q[j]] + q[j + 1..];
    assert multiset(q) == multiset(q[..j]) + multiset([q[j]]) + multiset(q[j + 1..]);
    assert multiset(q[..j] + q[j + 1..]) == multiset(q[..j]) + multiset(q[j + 1..]);
    assert multiset(p[1..]) == multiset(p) - multiset([p[0]]);
  }

  /** Every measure of a layout is a measure of its bag of axes. */
  lemma {:induction false} PermutedMeasures(p: seq<Axis>, q: seq<Axis>, s: nat)
    requires multiset(p) == multiset(q)
    ensures Elements(p) == Elements(q) && Reach(p) == Reach(q)
    ensures Below(p, s) == Below(q, s) && AtStride(p, s) == AtStride(q, s)
    decreases |p|
  {
    if p == [] {
      assert |multiset(q)| == 0;
    } else {
      assert p[0] in multiset(q);
      var j :| 0 <= j < |q| && q[j] == p[0];
      var rest := q[..j] + q[j + 1..];
      RemoveFirst(p, q, j);
      PermutedMeasures(p[1..], rest, s);
      RemoveReach(q, j, s);
      RemoveElements(q, j);
    }
  }

  lemma {:induction false} PermutedSeparated(p: seq<Axis>, q: seq<Axis>)
    requires multiset(p) == multiset(q) && Separated(p)
    ensures Separated(q)
  {
    forall a | a in q && a.Long() ensures StepsOver(q, a) {
      assert a in multiset(p);
      assert StepsOver(p, a);
      PermutedMeasures(p, q, a.stride);
    }
  }

  // ---------- short axes do not matter ----------

  function LongAxes(axes: seq<Axis>): (long: seq<Axis>)
    ensures forall a :: a in long <==> a in axes && a.Long()
  {
    if axes == [] then []
    else if axes[0].Long() then [axes[0]] + LongAxes(axes[1..])
    else LongAxes(axes[1..])
  }

  lemma {:induction false} LongMeasures(axes: seq<Axis>, s: nat)
    ensures Reach(LongAxes(axes)) == Reach(axes)
    ensures Below(LongAxes(axes), s) == Below(axes, s)
    ensures AtStride(LongAxes(axes), s) == AtStride(axes, s)
  {
    if axes != [] {
      LongMeasures(axes[1..], s);
      if axes[0].Long() {
        assert LongAxes(axes)[1..] == LongAxes(axes[1..]);
      }
    }
  }

  lemma {:induction false} LongSeparated(axes: seq<Axis>)
    ensures Separated(LongAxes(axes)) <==> Separated(axes)
  {
    forall a | a in axes && a.Long() ensures StepsOver(LongAxes(axes), a) <==> StepsOver(axes, a) {
      LongMeasures(axes, a.stride);
    }
  }

  // ---------- the sorted check ----------

  ghost predicate SortedByStride(axes: seq<Axis>) {
    forall i, j :: 0 <= i < j < |axes| ==> axes[i].stride <= axes[j].stride
  }

  function Insert(a: Axis, axes: seq<Axis>): (r: seq<Axis>)
    ensures multiset(r) == multiset(axes) + multiset{a}
  {
    if axes == [] || a.stride <= axes[0].stride then [a] + axes
    else
      assert axes == [axes[0]] + axes[1..];
      [axes[0]] + Insert(a, axes[1..])
  }

  lemma {:induction false} InsertKeepsBound(a: Axis, axes: seq<Axis>, low: nat)
    requires low <= a.stride && forall i :: 0 <= i < |axes| ==> low <= axes[i].stride
    ensures forall i :: 0 <= i < |Insert(a, axes)| ==> low <= Insert(a, axes)[i].stride
  {
    if axes != [] && a.stride > axes[0].stride {
      InsertKeepsBound(a, axes[1..], low);
    }
  }

  lemma {:induction false} InsertKeepsSorted(a: Axis, axes: seq<Axis>)
    requires SortedByStride(axes)
    ensures SortedByStride(Insert(a, axes))
  {
    if axes != [] && a.stride > axes[0].stride {
      InsertKeepsSorted(a, axes[1..]);
      InsertKeepsBound(a, axes[1..], axes[0].stride);
    }
  }

  function SortByStride(axes: seq<Axis>): (r: seq<Axis>)
    ensures SortedByStride(r) && multiset(r) == multiset(axes)
  {
    if axes == [] then []
    else
      var tail := SortByStride(axes[1..]);
      InsertKeepsSorted(axes[0], tail);
      assert axes == [axes[0]] + axes[1..];
      Insert(axes[0], tail)
  }

  /** Each axis of the sorted list starts past everything before it. */
  ghost predicate Chained(axes: seq<Axis>, n: nat)
    requires n <= |axes|
  {
    forall k :: 0 <= k < n ==> Reach(axes[..k]) < axes[k].stride
  }

  lemma {:induction false} ReachAppend(p: seq<Axis>, q: seq<Axis>)
    ensures Reach(p + q) == Reach(p) + Reach(q)
  {
    if p == [] {
      assert p + q == q;
    } else {
      ReachAppend(p[1..], q);
      assert (p + q)[1..] == p[1..] + q;
    }
  }

  lemma {:induction false} ReachPrefix(axes: seq<Axis>, k: nat)
    requires k < |axes|
    ensures Reach(axes[..k + 1]) == Reach(axes[..k]) + axes[k].Reach()
  {
    assert axes[..k + 1] == axes[..k] + [axes[k]];
    ReachAppend(axes[..k], [axes[k]]);
  }

  lemma {:induction false} ReachMonotone(axes: seq<Axis>, k: nat)
    requires k <= |axes|
    ensures Reach(axes[..k]) <= Reach(axes)
  {
    assert axes == axes[..k] + axes[k..];
    ReachAppend(axes[..k], axes[k..]);
  }

  // ---------- the sorted check decides separation ----------

  ghost predicate AllLong(axes: seq<Axis>) {
    forall i :: 0 <= i < |axes| ==> axes[i].Long()
  }

  ghost predicate Increasing(axes: seq<Axis>) {
    forall i, j :: 0 <= i < j < |axes| ==> axes[i].stride < axes[j].stride
  }

  /** A bound that splits a list in two measures exactly its first part. */
  lemma {:induction false} BelowSplits(axes: seq<Axis>, k: nat, s: nat)
    requires k <= |axes|
    requires forall i :: 0 <= i < k ==> axes[i].stride < s
    requires forall i :: k <= i < |axes| ==> axes[i].stride >= s
    ensures Below(axes, s) == Reach(axes[..k])
  {
    if axes != [] {
      BelowSplits(axes[1..], if k == 0 then 0 else k - 1, s);
      if k > 0 {
        assert axes[..k][1..] == axes[1..][..k - 1];
      }
    }
  }

  lemma {:induction false} NoneAtStride(axes: seq<Axis>, s: nat)
    requires forall i :: 0 <= i < |axes| && axes[i].Long() ==> axes[i].stride != s
    ensures AtStride(axes, s) == 0
  {
    if axes != [] {
      NoneAtStride(axes[1..], s);
    }
  }

  lemma {:induction false} OneAtStride(axes: seq<Axis>, k: nat)
    requires Increasing(axes) && AllLong(axes) && k < |axes|
    ensures AtStride(axes, axes[k].stride) == 1
  {
    if k == 0 {
      NoneAtStride(axes[1..], axes[0].stride);
    } else {
      OneAtStride(axes[1..], k - 1);
    }
  }

  lemma {:induction false} IncreasingSteps(axes: seq<Axis>, k: nat)
    requires Increasing(axes) && AllLong(axes) && k < |axes|
    ensures StepsOver(axes, axes[k]) <==> Reach(axes[..k]) < axes[k].stride
  {
    BelowSplits(axes, k, axes[k].stride);
    OneAtStride(axes, k);
  }

  lemma {:induction false} ChainedIsIncreasing(axes: seq<Axis>)
    requires AllLong(axes) && Chained(axes, |axes|)
    ensures Increasing(axes)
  {
    forall i, j | 0 <= i < j < |axes| ensures axes[i].stride < axes[j].stride {
      ReachMonotone(axes[..j], i + 1);
      assert axes[..j][..i + 1] == axes[..i + 1];
      ReachPrefix(axes, i);
      MulMono(1, axes[i].dimension - 1, axes[i].stride);
    }
  }

  lemma {:induction false} SeparatedIsIncreasing(axes: seq<Axis>)
    requires AllLong(axes) && SortedByStride(axes) && Separated(axes)
    ensures Increasing(axes)
  {
    forall i, j | 0 <= i < j < |axes| ensures axes[i].stride < axes[j].stride {
      LongStridesDiffer(axes, i, j);
    }
  }

  /** On sorted axes the running check accepts exactly the separated layouts. */
  lemma {:induction false} ChainedIffSeparated(axes: seq<Axis>)
    requires AllLong(axes) && SortedByStride(axes)
    ensures Chained(axes, |axes|) <==> Separated(axes)
  {
    if Chained(axes, |axes|) {
      ChainedIsIncreasing(axes);
      forall a | a in axes && a.Long() ensures StepsOver(axes, a) {
        var k :| 0 <= k < |axes| && axes[k] == a;
        IncreasingSteps(axes, k);
      }
    } else if Separated(axes) {
      SeparatedIsIncreasing(axes);
      forall k | 0 <= k < |axes| ensures Reach(axes[..k]) < axes[k].stride {
        assert StepsOver(axes, axes[k]);
        IncreasingSteps(axes, k);
      }
    }
  }

  /** Sorting the long axes loses nothing. */
  lemma {:induction false} SortedDecides(axes: seq<Axis>, sorted: seq<Axis>)
    requires sorted == SortByStride(LongAxes(axes))
    ensures AllLong(sorted) && Reach(sorted) == Reach(axes)
    ensures Chained(sorted, |sorted|) <==> Separated(axes)
  {
    var long := LongAxes(axes);
    forall i | 0 <= i < |sorted| ensures sorted[i].Long() {
      assert sorted[i] in multiset(long);
    }
    LongMeasures(axes, 0);
    PermutedMeasures(sorted, long, 0);
    ChainedIffSeparated(sorted);
    LongSeparated(axes);
    if Separated(sorted) {
      PermutedSeparated(sorted, long);
    }
    if Separated(long) {
      PermutedSeparated(long, sorted);
    }
  }

  // ---------- the extent always holds the elements ----------

  lemma {:induction false} LongElements(axes: seq<Axis>)
    requires forall i :: 0 <= i < |axes| ==> axes[i].dimension > 0
    ensures Elements(LongAxes(axes)) == Elements(axes)
  {
    if axes != [] {
      LongElements(axes[1..]);
      if axes[0].Long() {
        assert LongAxes(axes)[1..] == LongAxes(axes[1..]);
      }
    }
  }

  lemma {:induction false} ElementsPrefix(axes: seq<Axis>, k: nat)
    requires k < |axes|
    ensures Elements(axes[..k + 1]) == axes[k].dimension * Elements(axes[..k])
  {
    RemoveElements(axes[..k + 1], k);
    assert axes[..k + 1][..k] + axes[..k + 1][k + 1..] == axes[..k];
  }

  lemma {:induction false} OneMoreAxis(elements: nat, reach: nat, a: Axis)
    requires elements <= reach + 1 <= a.stride && a.Long()
    ensures a.dimension * elements <= reach + a.Reach() + 1
  {
    MulMono(elements, a.stride, a.dimension - 1);
    MulSub(a.dimension, 1, elements);
  }

  lemma {:induction false} ChainedElements(axes: seq<Axis>, k: nat)
    requires AllLong(axes) && Chained(axes, |axes|) && k <= |axes|
    ensures Elements(axes[..k]) <= Reach(axes[..k]) + 1
  {
    if k > 0 {
      ChainedElements(axes, k - 1);
      ReachPrefix(axes, k - 1);
      ElementsPrefix(axes, k - 1);
      OneMoreAxis(Elements(axes[..k - 1]), Reach(axes[..k - 1]), axes[k - 1]);
    }
  }

  /** A separated layout has room for all its elements, so their count can never be what overflows. */
  lemma {:induction false} ElementsFitExtent(axes: seq<Axis>)
    requires Separated(axes) && forall i :: 0 <= i < |axes| ==> axes[i].dimension > 0
    ensures Elements(axes) <= Reach(axes) + 1
  {
    var long := LongAxes(axes);
    var sorted := SortByStride(long);
    SortedDecides(axes, sorted);
    ChainedElements(sorted, |sorted|);
    assert sorted[..|sorted|] == sorted;
    PermutedMeasures(sorted, long, 0);
    LongElements(axes);
  }

  // ---------- accepted layouts ----------

  function ByteExtent(dtype: DType, axes: seq<Axis>): nat {
    (Reach(axes) + 1) * dtype.Bytes()
  }

  ghost predicate Addressable(dtype: DType, axes: seq<Axis>) {
    Separated(axes) && ByteExtent(dtype, axes) <= ISIZE_MAX
  }

  ghost predicate Accepts(dtype: DType, shape: seq<nat>, strides: seq<nat>) {
    |shape| == |strides| && 0 !in strides && (0 in shape || Addressable(dtype, Zip(shape, strides)))
  }

  ghost function Described(dtype: DType, shape: seq<nat>, strides: seq<nat>): TensorDesc
    requires |shape| == |strides|
  {
    TensorDesc(dtype, shape, strides, Product(shape),
               if 0 in shape then 0 else ByteExtent(dtype, Zip(shape, strides)))
  }

  lemma {:induction false} ZipAt(shape: seq<nat>, strides: seq<nat>)
    requires |shape| == |strides|
    ensures |Zip(shape, strides)| == |shape| && Elements(Zip(shape, strides)) == Product(shape)
    ensures forall i :: 0 <= i < |shape| ==> Zip(shape, strides)[i] == Axis(shape[i], strides[i])
  {
    if shape != [] {
      ZipAt(shape[1..], strides[1..]);
    }
  }

  /** The loop over the sorted axes; `None` when two elements could share a place or the extent overflows. */
  method Extent(sorted: seq<Axis>) returns (r: Option<nat>)
    requires AllLong(sorted)
    ensures r.Some? <==> Chained(sorted, |sorted|) && Reach(sorted) + 1 <= USIZE_MAX
    ensures r.Some? ==> r.value == Reach(sorted) + 1
  {
    var extent := 1;
    for k := 0 to |sorted|
      invariant extent == Reach(sorted[..k]) + 1 <= USIZE_MAX && Chained(sorted, k)
    {
      ReachPrefix(sorted, k);
      ReachMonotone(sorted, k + 1);
      var a := sorted[k];
      if a.stride < extent {
        return None;
      }
      if (a.dimension - 1) * a.stride > USIZE_MAX {
        return None;
      }
      if (a.dimension - 1) * a.stride + extent > USIZE_MAX {
        return None;
      }
      extent := (a.dimension - 1) * a.stride + extent;
    }
    assert sorted[..|sorted|] == sorted;
    return Some(extent);
  }

  /** Element count and extent of a layout without empty dimensions. */
  method Sizes(shape: seq<nat>, strides: seq<nat>) returns (r: Option<(nat, nat)>)
    requires |shape| == |strides| && 0 !in shape
    ensures r.Some? <==> Separated(Zip(shape, strides)) && Reach(Zip(shape, strides)) + 1 <= USIZE_MAX
    ensures r.Some? ==> r.value == (Product(shape), Reach(Zip(shape, strides)) + 1)
  {
    var axes := Zip(shape, strides);
    ZipAt(shape, strides);
    LeadingFitsIff(shape);
    if Separated(axes) {
      ElementsFitExtent(axes);
    }
    var count := CheckedProduct(shape);
    if count.None? {
      return None;
    }
    var sorted := SortByStride(LongAxes(axes));
    SortedDecides(axes, sorted);
    var extent := Extent(sorted);
    if extent.None? {
      return None;
    }
    return Some((count.value, extent.value));
  }

  /** A layout is accepted exactly when its elements cannot overlap and its bytes can be addressed. */
  method Strided(dtype: DType, shape: seq<nat>, strides: seq<nat>) returns (r: Result<TensorDesc>)
    ensures r.Ok? <==> Accepts(dtype, shape, strides)
    ensures r.Ok? ==> r.value == Described(dtype, shape, strides)
  {
    if |shape| != |strides| || 0 in strides {
      return Err(Message);
    }
    var elements, extent := 0, 0;
    if 0 in shape {
      ProductIsZero(shape);
    } else {
      var sizes := Sizes(shape, strides);
      if sizes.None? {
        MulMono(1, dtype.Bytes(), Reach(Zip(shape, strides)) + 1);
        return Err(Message);
      }
      elements, extent := sizes.value.0, sizes.value.1;
    }
    var bytes := extent * dtype.Bytes();
    if bytes > USIZE_MAX || bytes > ISIZE_MAX {
      return Err(Message);
    }
    return Ok(TensorDesc(dtype, shape, strides, elements, bytes));
  }

  /** In an accepted layout distinct indices address distinct elements, all inside the extent, which is tight. */
  lemma {:induction false} AcceptedNeverOverlaps(dtype: DType, shape: seq<nat>, strides: seq<nat>, x: seq<nat>, y: seq<nat>)
    requires Accepts(dtype, shape, strides)
    requires Index(Zip(shape, strides), x) && Index(Zip(shape, strides), y)
    ensures var axes, size := Zip(shape, strides), dtype.Bytes();
            && (x != y ==> Offset(axes, x) != Offset(axes, y))
            && (Offset(axes, x) + 1) * size <= Described(dtype, shape, strides).bytes
            && Index(axes, Last(axes))
            && (Offset(axes, Last(axes)) + 1) * size == Described(dtype, shape, strides).bytes
  {
    var axes := Zip(shape, strides);
    ZipAt(shape, strides);
    forall i | 0 <= i < |shape| ensures axes[i].dimension > 0 && shape[i] > 0 {
      assert x[i] < axes[i].dimension;
    }
    OffsetBound(axes, x);
    MulMono(Offset(axes, x) + 1, Reach(axes) + 1, dtype.Bytes());
    LastIsReached(axes);
    if x != y {
      OffsetsAreDistinct(axes, x, y);
    }
  }

  lemma {:induction false} PermutedAddressable(dtype: DType, p: seq<Axis>, q: seq<Axis>)
    requires multiset(p) == multiset(q)
    ensures ByteExtent(dtype, p) == ByteExtent(dtype, q) && Elements(p) == Elements(q)
    ensures Addressable(dtype, p) <==> Addressable(dtype, q)
  {
    PermutedMeasures(p, q, 0);
    if Separated(p) {
      PermutedSeparated(p, q);
    }
    if Separated(q) {
      PermutedSeparated(q, p);
    }
  }

  /** Acceptance, element count and byte extent ignore the order in which the axes are given. */
  lemma {:induction false} AxisOrderIsIrrelevant(dtype: DType, shape: seq<nat>, strides: seq<nat>,
                                                 shape': seq<nat>, strides': seq<nat>)
    requires |shape| == |strides| && |shape'| == |strides'|
    requires multiset(Zip(shape, strides)) == multiset(Zip(shape', strides'))
    ensures Accepts(dtype, shape, strides) <==> Accepts(dtype, shape', strides')
    ensures Described(dtype, shape, strides).elements == Described(dtype, shape', strides').elements
    ensures Described(dtype, shape, strides).bytes == Described(dtype, shape', strides').bytes
  {
    PermutedAddressable(dtype, Zip(shape, strides), Zip(shape', strides'));
    SameZeros(shape, strides, shape', strides');
    SameZeros(shape', strides', shape, strides);
    ZipAt(shape, strides);
    ZipAt(shape', strides');
  }

  lemma {:induction false} SameZeros(shape: seq<nat>, strides: seq<nat>, shape': seq<nat>, strides': seq<nat>)
    requires |shape| == |strides| && |shape'| == |strides'|
    requires multiset(Zip(shape, strides)) == multiset(Zip(shape', strides'))
    ensures (0 in strides ==> 0 in strides') && (0 in shape ==> 0 in shape')
  {
    ZipAt(shape, strides);
    ZipAt(shape', strides');
    if 0 in strides {
      var i :| 0 <= i < |strides| && strides[i] == 0;
      assert Zip(shape, strides)[i] in multiset(Zip(shape', strides'));
    }
    if 0 in shape {
      var i :| 0 <= i < |shape| && shape[i] == 0;
      assert Zip(shape, strides)[i] in multiset(Zip(shape', strides'));
    }
  }

  // ---------- contiguous layouts ----------

  /** Every long axis has its row-major stride; strides of one-element axes are free. */
  ghost predicate Contiguous(shape: seq<nat>, strides: seq<nat>) {
    && |shape| == |strides|
    && (shape == []
        || ((shape[0] > 1 ==> strides[0] == Product(shape[1..])) && Contiguous(shape[1..], strides[1..])))
  }

  lemma {:induction false} ContiguousExtent(shape: seq<nat>, strides: seq<nat>)
    requires Contiguous(shape, strides) && Positive(shape)
    ensures Reach(Zip(shape, strides)) + 1 == Product(shape)
  {
    if shape != [] {
      ContiguousExtent(shape[1..], strides[1..]);
      MulSub(shape[0], 1, Product(shape[1..]));
    }
  }

  lemma {:induction false} BelowReach(axes: seq<Axis>, s: nat)
    ensures Below(axes, s) <= Reach(axes)
  {
    if axes != [] {
      BelowReach(axes[1..], s);
    }
  }

  lemma {:induction false} ContiguousSteps(shape: seq<nat>, strides: seq<nat>, a: Axis)
    requires Contiguous(shape, strides) && Positive(shape) && a in Zip(shape, strides) && a.Long()
    ensures 0 < a.stride < Product(shape)
  {
    var p := Product(shape[1..]);
    ProductIsPositive(shape[1..]);
    if a == Zip(shape, strides)[0] {
      MulMono(2, shape[0], p);
    } else {
      ContiguousSteps(shape[1..], strides[1..], a);
      MulMono(1, shape[0], p);
    }
  }

  lemma {:induction false} ContiguousIsSeparated(shape: seq<nat>, strides: seq<nat>)
    requires Contiguous(shape, strides) && Positive(shape)
    ensures Separated(Zip(shape, strides))
  {
    if shape != [] {
      var axes, tail := Zip(shape, strides), Zip(shape[1..], strides[1..]);
      ContiguousIsSeparated(shape[1..], strides[1..]);
      forall a | a in axes && a.Long() ensures StepsOver(axes, a) {
        if a in tail {
          assert StepsOver(tail, a);
          ContiguousSteps(shape[1..], strides[1..], a);
        } else {
          ContiguousHead(shape, strides);
        }
      }
    }
  }

  lemma {:induction false} ContiguousHead(shape: seq<nat>, strides: seq<nat>)
    requires Contiguous(shape, strides) && Positive(shape) && shape != [] && shape[0] > 1
    ensures StepsOver(Zip(shape, strides), Axis(shape[0], strides[0]))
  {
    var tail := Zip(shape[1..], strides[1..]);
    ContiguousExtent(shape[1..], strides[1..]);
    BelowReach(tail, strides[0]);
    forall i | 0 <= i < |tail| && tail[i].Long() ensures tail[i].stride != strides[0] {
      ContiguousSteps(shape[1..], strides[1..], tail[i]);
    }
    NoneAtStride(tail, strides[0]);
  }

  lemma {:induction false} ContiguousSuffix(shape: seq<nat>, strides: seq<nat>, k: nat)
    requires k <= |shape| && Contiguous(shape, strides)
    ensures Contiguous(shape[k..], strides[k..])
  {
    if k > 0 {
      ContiguousSuffix(shape[1..], strides[1..], k - 1);
      assert shape[1..][k - 1..] == shape[k..] && strides[1..][k - 1..] == strides[k..];
    }
  }

  lemma {:induction false} RowMajorIsContiguous(shape: seq<nat>, strides: seq<nat>)
    requires RowMajor(shape, strides)
    ensures Contiguous(shape, strides)
  {
    if shape != [] {
      RowMajorIsContiguous(shape[1..], strides[1..]);
    }
  }

  lemma {:induction false} RowMajorIsPositive(shape: seq<nat>, strides: seq<nat>)
    requires RowMajor(shape, strides) && Positive(shape)
    ensures 0 !in strides
  {
    if shape != [] {
      RowMajorIsPositive(shape[1..], strides[1..]);
      ProductIsPositive(shape[1..]);
      assert strides == [strides[0]] + strides[1..];
    }
  }

  /** Contiguous storage holds its elements and nothing else. */
  lemma {:induction false} ContiguousBytes(dtype: DType, shape: seq<nat>, strides: seq<nat>)
    requires |shape| == |strides| && (0 in shape || Contiguous(shape, strides))
    ensures Described(dtype, shape, strides).bytes == Described(dtype, shape, strides).elements * dtype.Bytes()
    ensures Accepts(dtype, shape, strides) <==> 0 !in strides && Product(shape) * dtype.Bytes() <= ISIZE_MAX
  {
    ProductIsZero(shape);
    if 0 !in shape {
      ContiguousExtent(shape, strides);
      ContiguousIsSeparated(shape, strides);
    }
  }

  /** The row-major layout of a shape is accepted exactly when its bytes can be addressed, and it is contiguous. */
  method New(dtype: DType, shape: seq<nat>) returns (r: Result<TensorDesc>)
    ensures r.Ok? <==> Product(shape) * dtype.Bytes() <= ISIZE_MAX
    ensures r.Ok? ==> r.value.dtype == dtype && r.value.shape == shape && r.value.elements == Product(shape)
    ensures r.Ok? ==> r.value.bytes == Product(shape) * dtype.Bytes()
    ensures r.Ok? ==> Accepts(dtype, shape, r.value.strides) && (0 in shape || Contiguous(shape, r.value.strides))
  {
    ProductIsZero(shape);
    if 0 in shape {
      var ones: seq<nat> := seq(|shape|, _ => 1);
      ContiguousBytes(dtype, shape, ones);
      r := Strided(dtype, shape, ones);
    } else {
      var strides := Strides(shape);
      TrailingFitsIff(shape);
      if strides.Err? {
        MulMono(1, dtype.Bytes(), Product(shape));
        return Err(Message);
      }
      RowMajorIsContiguous(shape, strides.value);
      RowMajorIsPositive(shape, strides.value);
      ContiguousBytes(dtype, shape, strides.value);
      r := Strided(dtype, shape, strides.value);
    }
  }

  method IsContiguous(desc: TensorDesc) returns (b: bool)
    requires |desc.shape| == |desc.strides| && desc.elements == Product(desc.shape)
    ensures b <==> 0 in desc.shape || (Contiguous(desc.shape, desc.strides) && Product(desc.shape) <= USIZE_MAX)
  {
    ProductIsZero(desc.shape);
    if desc.elements == 0 {
      return true;
    }
    TrailingFitsIff(desc.shape);
    var stride := 1;
    for k := |desc.shape| downto 0
      invariant stride == Product(desc.shape[k..]) && TrailingFits(desc.shape[k..])
      invariant Contiguous(desc.shape[k..], desc.strides[k..])
    {
      assert desc.shape[k..][1..] == desc.shape[k + 1..] && desc.strides[k..][1..] == desc.strides[k + 1..];
      if desc.shape[k] > 1 && desc.strides[k] != stride {
        if Contiguous(desc.shape, desc.strides) {
          ContiguousSuffix(desc.shape, desc.strides, k);
        }
        return false;
      }
      if stride * desc.shape[k] > USIZE_MAX {
        if TrailingFits(desc.shape) {
          TrailingSuffix(desc.shape, k);
        }
        return false;
      }
      stride := stride * desc.shape[k];
    }
    assert desc.shape[0..] == desc.shape && desc.strides[0..] == desc.strides;
    return true;
  }

  /** For an accepted layout the contiguity test never trips over an overflow. */
  lemma {:induction false} AcceptedCountFits(dtype: DType, shape: seq<nat>, strides: seq<nat>)
    requires Accepts(dtype, shape, strides)
    ensures Product(shape) <= ISIZE_MAX && Described(dtype, shape, strides).bytes <= ISIZE_MAX
    ensures Described(dtype, shape, strides).elements * dtype.Bytes() <= Described(dtype, shape, strides).bytes
  {
    ProductIsZero(shape);
    if 0 !in shape {
      var axes := Zip(shape, strides);
      ZipAt(shape, strides);
      ElementsFitExtent(axes);
      MulMono(Product(shape), Reach(axes) + 1, dtype.Bytes());
    }
  }

  /**
   * Separation is not necessary for distinct offsets: two interleaved axes can miss each other.
   * Such a layout has no overlap and is still refused.
   */
  lemma {:induction false} InterleavedIsRefused(dtype: DType)
    ensures var shape, strides := [3, 2], [2, 3];
            && !Accepts(dtype, shape, strides)
            && forall x, y :: Index(Zip(shape, strides), x) && Index(Zip(shape, strides), y) && x != y ==>
                 Offset(Zip(shape, strides), x) != Offset(Zip(shape, strides), y)
  {
    var shape: seq<nat>, strides: seq<nat> := [3, 2], [2, 3];
    var axes := Zip(shape, strides);
    ZipAt(shape, strides);
    assert axes == [Axis(3, 2), Axis(2, 3)];
    assert Below(axes, 3) == 4 by {
      assert axes[0].Reach() == 4;
      assert axes[1..] == [Axis(2, 3)] && axes[1..][1..] == [];
      assert Below(axes[1..], 3) == 0;
    }
    assert !StepsOver(axes, Axis(2, 3));
    forall x, y | Index(axes, x) && Index(axes, y) && x != y ensures Offset(axes, x) != Offset(axes, y) {
      PairOffset(axes, x);
      PairOffset(axes, y);
      assert x == [x[0], x[1]] && y == [y[0], y[1]];
    }
  }

  lemma {:induction false} PairOffset(axes: seq<Axis>, x: seq<nat>)
    requires |axes| == |x| == 2
    ensures Offset(axes, x) == x[0] * axes[0].stride + x[1] * axes[1].stride
  {
    assert axes[1..][1..] == [] && x[1..][1..] == [];
    assert Offset(axes[1..], x[1..]) == x[1] * axes[1].stride + 0;
  }
}
