/** Right-aligned multidirectional broadcasting of shapes, and the element each output index reads. */
module Broadcasting {
  import opened Accesses
  import opened Shapes

  // ---------- broadcast shapes ----------

  function Max(a: nat, b: nat): nat {
    if a < b then b else a
  }

  /** Dimension at a one-based position counted from the right; absent dimensions are one. */
  function Dim(shape: seq<nat>, fromRight: nat): nat {
    if 0 < fromRight <= |shape| then shape[|shape| - fromRight] else 1
  }

  predicate Joins(a: nat, b: nat) {
    a == b || a == 1 || b == 1
  }

  predicate Compatible(left: seq<nat>, right: seq<nat>) {
    forall f: nat :: f <= Max(|left|, |right|) ==> Joins(Dim(left, f), Dim(right, f))
  }

  function Joined(left: seq<nat>, right: seq<nat>, rank: nat): seq<nat> {
    if rank == 0 then []
    else [Max(Dim(left, rank), Dim(right, rank))] + Joined(left, right, rank - 1)
  }

  lemma {:induction false} JoinedDims(left: seq<nat>, right: seq<nat>, rank: nat)
    ensures |Joined(left, right, rank)| == rank
    ensures forall f: nat :: 0 < f <= rank ==> Dim(Joined(left, right, rank), f) == Max(Dim(left, f), Dim(right, f))
  {
    if rank > 0 {
      JoinedDims(left, right, rank - 1);
      var tail := Joined(left, right, rank - 1);
      forall f: nat | 0 < f < rank ensures Dim(Joined(left, right, rank), f) == Dim(tail, f) {
      }
    }
  }

  function Broadcast(left: seq<nat>, right: seq<nat>): (r: Result<seq<nat>>) {
    if Compatible(left, right) then Ok(Joined(left, right, Max(|left|, |right|))) else Err(Message)
  }

  /** Dimension by dimension, the output is the larger of the two; the same error otherwise. */
  lemma {:induction false} BroadcastDims(left: seq<nat>, right: seq<nat>)
    ensures Broadcast(left, right).Ok? <==> forall f: nat :: Joins(Dim(left, f), Dim(right, f))
    ensures Broadcast(left, right).Err? ==> Broadcast(left, right) == Err(Message)
    ensures Broadcast(left, right).Ok? ==>
              && |Broadcast(left, right).value| == Max(|left|, |right|)
              && forall f: nat :: Dim(Broadcast(left, right).value, f) == Max(Dim(left, f), Dim(right, f))
  {
    var rank := Max(|left|, |right|);
    JoinedDims(left, right, rank);
    forall f: nat ensures f > rank ==> Dim(left, f) == Dim(right, f) == 1 {
    }
  }

  lemma {:induction false} SameDims(p: seq<nat>, q: seq<nat>)
    requires |p| == |q| && forall f: nat :: Dim(p, f) == Dim(q, f)
    ensures p == q
  {
    forall i | 0 <= i < |p| ensures p[i] == q[i] {
      assert Dim(p, |p| - i) == Dim(q, |p| - i);
    }
  }

  lemma {:induction false} BroadcastCommutes(left: seq<nat>, right: seq<nat>)
    ensures Broadcast(left, right) == Broadcast(right, left)
  {
    BroadcastDims(left, right);
    BroadcastDims(right, left);
    if Broadcast(left, right).Ok? {
      assert Broadcast(right, left).Ok?;
      SameDims(Broadcast(left, right).value, Broadcast(right, left).value);
    }
  }

  function LeftFirst(a: seq<nat>, b: seq<nat>, c: seq<nat>): Result<seq<nat>> {
    var ab := Broadcast(a, b);
    if ab.Ok? then Broadcast(ab.value, c) else ab
  }

  function RightFirst(a: seq<nat>, b: seq<nat>, c: seq<nat>): Result<seq<nat>> {
    var bc := Broadcast(b, c);
    if bc.Ok? then Broadcast(a, bc.value) else bc
  }

  /** Grouping matters for one dimension when a one absorbs a zero before a longer dimension arrives. */
  predicate Absorbs(a: nat, b: nat, c: nat) {
    (a > 1 && ((b, c) == (0, 1) || (b, c) == (1, 0))) || (c > 1 && ((a, b) == (0, 1) || (a, b) == (1, 0)))
  }

  ghost predicate NeverAbsorbs(a: seq<nat>, b: seq<nat>, c: seq<nat>) {
    forall f: nat :: !Absorbs(Dim(a, f), Dim(b, f), Dim(c, f))
  }

  ghost predicate AllJoin(a: seq<nat>, b: seq<nat>, c: seq<nat>) {
    forall f: nat :: Joins(Dim(a, f), Dim(b, f)) && Joins(Max(Dim(a, f), Dim(b, f)), Dim(c, f))
  }

  lemma {:induction false} LeftFirstDims(a: seq<nat>, b: seq<nat>, c: seq<nat>)
    ensures LeftFirst(a, b, c).Ok? <==> AllJoin(a, b, c)
    ensures LeftFirst(a, b, c).Err? ==> LeftFirst(a, b, c) == Err(Message)
    ensures LeftFirst(a, b, c).Ok? ==>
              && |LeftFirst(a, b, c).value| == Max(Max(|a|, |b|), |c|)
              && forall f: nat :: Dim(LeftFirst(a, b, c).value, f) == Max(Max(Dim(a, f), Dim(b, f)), Dim(c, f))
  {
    BroadcastDims(a, b);
    if Broadcast(a, b).Ok? {
      BroadcastDims(Broadcast(a, b).value, c);
    }
  }

  lemma {:induction false} Mirrored(a: seq<nat>, b: seq<nat>, c: seq<nat>)
    ensures RightFirst(a, b, c) == LeftFirst(c, b, a)
  {
    BroadcastCommutes(b, c);
    if Broadcast(b, c).Ok? {
      BroadcastCommutes(a, Broadcast(b, c).value);
    }
  }

  /**
   * Broadcasting is associative wherever it succeeds at all, unless some dimension absorbs a zero;
   * then exactly one of the two groupings fails.
   */
  lemma {:induction false} BroadcastAssociates(a: seq<nat>, b: seq<nat>, c: seq<nat>)
    ensures NeverAbsorbs(a, b, c) ==> LeftFirst(a, b, c) == RightFirst(a, b, c)
    ensures LeftFirst(a, b, c).Ok? || RightFirst(a, b, c).Ok? ==>
              (LeftFirst(a, b, c) == RightFirst(a, b, c) <==> NeverAbsorbs(a, b, c))
  {
    Mirrored(a, b, c);
    LeftFirstDims(a, b, c);
    LeftFirstDims(c, b, a);
    if NeverAbsorbs(a, b, c) {
      forall f: nat ensures Joins(Dim(a, f), Dim(b, f)) && Joins(Max(Dim(a, f), Dim(b, f)), Dim(c, f)) <==>
                            Joins(Dim(c, f), Dim(b, f)) && Joins(Max(Dim(c, f), Dim(b, f)), Dim(a, f)) {
        assert !Absorbs(Dim(a, f), Dim(b, f), Dim(c, f));
      }
      if AllJoin(a, b, c) {
        assert AllJoin(c, b, a);
        SameDims(LeftFirst(a, b, c).value, LeftFirst(c, b, a).value);
      } else {
        assert !AllJoin(c, b, a);
      }
    } else {
      AbsorbingBreaks(a, b, c);
    }
  }

  lemma {:induction false} AbsorbingBreaks(a: seq<nat>, b: seq<nat>, c: seq<nat>)
    requires !NeverAbsorbs(a, b, c)
    ensures !AllJoin(a, b, c) || !AllJoin(c, b, a)
  {
    var f: nat :| Absorbs(Dim(a, f), Dim(b, f), Dim(c, f));
    assert AllJoin(a, b, c) ==> Joins(Dim(a, f), Dim(b, f)) && Joins(Max(Dim(a, f), Dim(b, f)), Dim(c, f));
    assert AllJoin(c, b, a) ==> Joins(Dim(c, f), Dim(b, f)) && Joins(Max(Dim(c, f), Dim(b, f)), Dim(a, f));
  }

  /** With no empty dimensions the two groupings always agree. */
  lemma {:induction false} PositiveShapesAssociate(a: seq<nat>, b: seq<nat>, c: seq<nat>)
    requires Positive(a) && Positive(b) && Positive(c)
    ensures LeftFirst(a, b, c) == RightFirst(a, b, c)
  {
    BroadcastAssociates(a, b, c);
  }

  // ---------- inputs that fit an output ----------

  /** Every input dimension is one or the output's own. */
  ghost predicate Fits(input: seq<nat>, output: seq<nat>) {
    |input| <= |output| && forall f: nat :: 0 < f <= |input| ==> Dim(input, f) == 1 || Dim(input, f) == Dim(output, f)
  }

  /** A broadcast shape accepts an operand exactly when no zero of the operand met a one. */
  lemma {:induction false} OperandFits(left: seq<nat>, right: seq<nat>)
    requires Broadcast(left, right).Ok?
    ensures Fits(left, Broadcast(left, right).value) <==>
            forall f: nat :: !(Dim(left, f) == 0 && Dim(right, f) == 1)
  {
    BroadcastDims(left, right);
    var out := Broadcast(left, right).value;
    forall f: nat ensures 0 < f <= |left| && Dim(left, f) != 1 && Dim(left, f) != Dim(out, f) <==>
                          Dim(left, f) == 0 && Dim(right, f) == 1 {
      assert Joins(Dim(left, f), Dim(right, f));
      assert Dim(out, f) == Max(Dim(left, f), Dim(right, f));
    }
    if forall f: nat :: !(Dim(left, f) == 0 && Dim(right, f) == 1) {
      assert Fits(left, out);
    }
  }

  /** The broadcast shape is the least one both operands fit: it fits every shape they both fit. */
  lemma {:induction false} BroadcastIsLeast(left: seq<nat>, right: seq<nat>, common: seq<nat>)
    requires Positive(left) && Positive(right) && Fits(left, common) && Fits(right, common)
    ensures Broadcast(left, right).Ok? && Fits(Broadcast(left, right).value, common)
    ensures Fits(left, Broadcast(left, right).value) && Fits(right, Broadcast(left, right).value)
  {
    forall f: nat ensures Joins(Dim(left, f), Dim(right, f)) && Dim(left, f) > 0 && Dim(right, f) > 0 {
    }
    BroadcastDims(left, right);
    BroadcastCommutes(left, right);
    OperandFits(left, right);
    OperandFits(right, left);
  }

  /** An empty operand against a single element yields a shape the operand does not fit. */
  lemma {:induction false} ZeroMeetsOne()
    ensures Broadcast([0], [1]) == Ok([1]) && !Fits([0], [1])
  {
    BroadcastDims([0], [1]);
    assert Dim([0], 1) == 0 && Dim([1], 1) == 1;
    assert forall f: nat :: Joins(Dim([0], f), Dim([1], f));
    SameDims(Broadcast([0], [1]).value, [1]);
  }

  // ---------- flat indices and coordinates ----------

  ghost predicate Coordinates(shape: seq<nat>, x: seq<nat>) {
    |x| == |shape| && (shape == [] || (x[0] < shape[0] && Coordinates(shape[1..], x[1..])))
  }

  function Flatten(shape: seq<nat>, x: seq<nat>): nat
    requires |x| == |shape|
  {
    if shape == [] then 0 else x[0] * Product(shape[1..]) + Flatten(shape[1..], x[1..])
  }

  function Unflatten(shape: seq<nat>, index: nat): (x: seq<nat>)
    requires Positive(shape)
    ensures |x| == |shape|
  {
    if shape == [] then []
    else
      ProductIsPositive(shape[1..]);
      [index / Product(shape[1..])] + Unflatten(shape[1..], index % Product(shape[1..]))
  }

  lemma {:induction false} DivBound(i: nat, d: nat, p: nat)
    requires p > 0 && i < d * p
    ensures i / p < d && i == (i / p) * p + i % p && i % p < p
  {
    if i / p >= d {
      MulMono(d, i / p, p);
    }
  }

  lemma {:induction false} DivUnique(q: nat, p: nat, r: nat)
    requires r < p
    ensures (q * p + r) / p == q && (q * p + r) % p == r
  {
    var i := q * p + r;
    assert i == (i / p) * p + i % p;
    if i / p > q {
      MulMono(q + 1, i / p, p);
    } else if i / p < q {
      MulMono(i / p + 1, q, p);
    }
  }

  lemma {:induction false} FlattenBound(shape: seq<nat>, x: seq<nat>)
    requires Coordinates(shape, x)
    ensures Flatten(shape, x) < Product(shape)
  {
    if shape != [] {
      var p := Product(shape[1..]);
      FlattenBound(shape[1..], x[1..]);
      MulMono(x[0] + 1, shape[0], p);
      assert (x[0] + 1) * p == x[0] * p + p;
    }
  }

  /** Flat indices below the element count and coordinates inside the shape are in bijection. */
  lemma {:induction false} FlattenUnflatten(shape: seq<nat>, index: nat)
    requires Positive(shape) && index < Product(shape)
    ensures Coordinates(shape, Unflatten(shape, index)) && Flatten(shape, Unflatten(shape, index)) == index
  {
    if shape != [] {
      ProductIsPositive(shape[1..]);
      DivBound(index, shape[0], Product(shape[1..]));
      FlattenUnflatten(shape[1..], index % Product(shape[1..]));
    }
  }

  lemma {:induction false} UnflattenFlatten(shape: seq<nat>, x: seq<nat>)
    requires Positive(shape) && Coordinates(shape, x)
    ensures Unflatten(shape, Flatten(shape, x)) == x
  {
    if shape != [] {
      FlattenBound(shape[1..], x[1..]);
      DivUnique(x[0], Product(shape[1..]), Flatten(shape[1..], x[1..]));
      UnflattenFlatten(shape[1..], x[1..]);
      assert x == [x[0]] + x[1..];
    }
  }

  // ---------- reading one coordinate with a division and a remainder ----------

  lemma {:induction false} ProductSplit(shape: seq<nat>, k: nat)
    requires k <= |shape|
    ensures Product(shape) == Product(shape[..k]) * Product(shape[k..])
  {
    if k == 0 {
      assert shape[0..] == shape;
    } else {
      ProductSplit(shape[1..], k - 1);
      assert shape[..k][1..] == shape[1..][..k - 1] && shape[1..][k - 1..] == shape[k..];
      MulAssociates(shape[0], Product(shape[1..][..k - 1]), Product(shape[k..]));
    }
  }

  function Digit(index: nat, q: nat, d: nat): nat
    requires q > 0 && d > 0
  {
    index / q % d
  }

  /** Whole multiples of `d * q` do not disturb the digit read by dividing by `q` and reducing by `d`. */
  lemma {:induction false} DigitShift(m: nat, d: nat, q: nat, r: nat)
    requires d > 0 && q > 0
    ensures Digit(m * d * q + r, q, d) == Digit(r, q, d)
  {
    DivShift(m * d, q, r);
    DivShift(m, d, r / q);
  }

  lemma {:induction false} DivShift(m: nat, q: nat, r: nat)
    requires q > 0
    ensures (m * q + r) / q == m + r / q && (m * q + r) % q == r % q
  {
    var h := r / q;
    assert r == h * q + r % q;
    assert m * q + h * q == (m + h) * q;
    DivUnique(m + h, q, r % q);
  }

  lemma {:induction false} MulAssociates(a: nat, b: nat, c: nat)
    ensures a * (b * c) == a * b * c
  {
  }

  lemma {:induction false} DigitOfRest(head: nat, rest: nat, b: nat, d: nat, q: nat)
    requires d > 0 && q > 0
    ensures Digit(head * (b * (d * q)) + rest, q, d) == Digit(rest, q, d)
  {
    MulAssociates(head, b, d * q);
    MulAssociates(head * b, d, q);
    DigitShift(head * b, d, q, rest);
  }

  lemma {:induction false} LeadingDigit(index: nat, d: nat, p: nat)
    requires p > 0 && d > 0 && index < d * p
    ensures Digit(index, p, d) == index / p
  {
    DivBound(index, d, p);
  }

  lemma {:induction false} TailDigit(tail: seq<nat>, head: nat, rest: nat, k: nat, q: nat)
    requires k < |tail| && tail[k] > 0 && q > 0 && q == Product(tail[k + 1..])
    ensures Digit(head * Product(tail) + rest, q, tail[k]) == Digit(rest, q, tail[k])
  {
    ProductSplit(tail, k);
    assert tail[k..][1..] == tail[k + 1..];
    DigitOfRest(head, rest, Product(tail[..k]), tail[k], q);
  }

  /** The division and remainder of the code read coordinate `k` of a flat index. */
  lemma {:induction false} CoordinateAt(shape: seq<nat>, x: seq<nat>, k: nat, q: nat)
    requires Positive(shape) && Coordinates(shape, x) && k < |shape| && q == Product(shape[k + 1..]) && q > 0
    ensures Digit(Flatten(shape, x), q, shape[k]) == x[k]
  {
    var tail := shape[1..];
    FlattenBound(tail, x[1..]);
    if k == 0 {
      FlattenBound(shape, x);
      LeadingDigit(Flatten(shape, x), shape[0], q);
      DivUnique(x[0], q, Flatten(tail, x[1..]));
    } else {
      assert tail[k..] == shape[k + 1..];
      CoordinateAt(tail, x[1..], k - 1, q);
      TailDigit(tail, x[0], Flatten(tail, x[1..]), k - 1, q);
    }
  }

  // ---------- the element an output index reads ----------

  /** Drop the leading axes the input lacks and stay at zero along its one-element axes. */
  function Project(input: seq<nat>, x: seq<nat>): (y: seq<nat>)
    requires |x| == |input|
    ensures |y| == |input|
  {
    if input == [] then [] else [if input[0] == 1 then 0 else x[0]] + Project(input[1..], x[1..])
  }

  function SourceIndex(output: seq<nat>, input: seq<nat>, index: nat): nat
    requires Positive(output) && |input| <= |output|
  {
    Flatten(input, Project(input, Unflatten(output, index)[|output| - |input|..]))
  }

  /** `Fits` for two shapes of equal rank. */
  ghost predicate Matches(input: seq<nat>, shape: seq<nat>) {
    |input| == |shape| && forall i :: 0 <= i < |input| ==> input[i] == 1 || input[i] == shape[i]
  }

  lemma {:induction false} FitsIffMatches(input: seq<nat>, output: seq<nat>)
    requires |input| <= |output|
    ensures Fits(input, output) <==> Matches(input, output[|output| - |input|..])
  {
    var n, offset := |input|, |output| - |input|;
    assert forall f: nat :: 0 < f <= n ==> Dim(input, f) == input[n - f] && Dim(output, f) == output[offset..][n - f];
    if Fits(input, output) {
      forall i | 0 <= i < n ensures input[i] == 1 || input[i] == output[offset..][i] {
        assert Dim(input, n - i) == 1 || Dim(input, n - i) == Dim(output, n - i);
      }
    }
  }

  lemma {:induction false} ProjectInside(input: seq<nat>, shape: seq<nat>, x: seq<nat>)
    requires Matches(input, shape) && Coordinates(shape, x)
    ensures Coordinates(input, Project(input, x))
  {
    if input != [] {
      ProjectInside(input[1..], shape[1..], x[1..]);
    }
  }

  lemma {:induction false} ProjectAt(input: seq<nat>, x: seq<nat>, k: nat)
    requires |x| == |input| && k < |input|
    ensures Project(input, x)[k] == if input[k] == 1 then 0 else x[k]
  {
    if k > 0 {
      ProjectAt(input[1..], x[1..], k - 1);
    }
  }

  lemma {:induction false} MatchingProduct(input: seq<nat>, shape: seq<nat>)
    requires Matches(input, shape) && Positive(shape)
    ensures Positive(input) && Product(input) <= Product(shape)
  {
    if input != [] {
      MatchingProduct(input[1..], shape[1..]);
      MulMono(Product(input[1..]), Product(shape[1..]), input[0]);
      MulMono(input[0], shape[0], Product(shape[1..]));
    }
  }

  lemma {:induction false} CoordinatesSuffix(shape: seq<nat>, x: seq<nat>, k: nat)
    requires Coordinates(shape, x) && k <= |shape|
    ensures Coordinates(shape[k..], x[k..])
  {
    if k > 0 {
      CoordinatesSuffix(shape[1..], x[1..], k - 1);
      assert shape[1..][k - 1..] == shape[k..] && x[1..][k - 1..] == x[k..];
    }
  }

  lemma {:induction false} RowMajorAt(shape: seq<nat>, strides: seq<nat>, k: nat)
    requires RowMajor(shape, strides) && k < |shape|
    ensures strides[k] == Product(shape[k + 1..])
  {
    if k > 0 {
      RowMajorAt(shape[1..], strides[1..], k - 1);
      assert shape[1..][k..] == shape[k + 1..];
    }
  }

  /** A fitting input never has more elements than the output. */
  lemma {:induction false} FittingProduct(output: seq<nat>, input: seq<nat>)
    requires Positive(output) && Fits(input, output)
    ensures Positive(input) && Product(input) <= Product(output)
  {
    var offset := |output| - |input|;
    FitsIffMatches(input, output);
    MatchingProduct(input, output[offset..]);
    ProductSplit(output, offset);
    ProductIsPositive(output[..offset]);
    MulMono(1, Product(output[..offset]), Product(output[offset..]));
  }

  lemma {:induction false} ProjectionInside(output: seq<nat>, input: seq<nat>, x: seq<nat>)
    requires Coordinates(output, x) && Fits(input, output)
    ensures Flatten(input, Project(input, x[|output| - |input|..])) < Product(input)
  {
    var offset := |output| - |input|;
    CoordinatesSuffix(output, x, offset);
    FitsIffMatches(input, output);
    ProjectInside(input, output[offset..], x[offset..]);
    FlattenBound(input, Project(input, x[offset..]));
  }

  /** Every output index reads an element the input has. */
  lemma {:induction false} SourceInside(output: seq<nat>, input: seq<nat>, index: nat)
    requires Positive(output) && Fits(input, output) && index < Product(output)
    ensures SourceIndex(output, input, index) < Product(input)
  {
    FlattenUnflatten(output, index);
    ProjectionInside(output, input, Unflatten(output, index));
  }

  ghost predicate Readable(index: nat, output: seq<nat>, input: seq<nat>) {
    Positive(output) && Product(output) <= USIZE_MAX && index < Product(output) && Fits(input, output)
  }

  /** The digit loop reads coordinate `k` of the output index. */
  lemma {:induction false} OutputCoordinate(output: seq<nat>, strides: seq<nat>, index: nat, k: nat)
    requires Positive(output) && index < Product(output) && RowMajor(output, strides) && k < |output|
    ensures strides[k] > 0 && Digit(index, strides[k], output[k]) == Unflatten(output, index)[k]
  {
    RowMajorAt(output, strides, k);
    ProductIsPositive(output[k + 1..]);
    FlattenUnflatten(output, index);
    CoordinateAt(output, Unflatten(output, index), k, strides[k]);
  }

  /**
   * Succeeds exactly when the index lies in a representable output the input fits,
   * and then names the element found by unflattening, projecting and flattening.
   */
  method BroadcastIndex(index: nat, output: seq<nat>, input: seq<nat>) returns (r: Result<nat>)
    ensures r.Ok? <==> Readable(index, output, input)
    ensures r.Ok? ==> r.value == SourceIndex(output, input, index) < Product(input)
  {
    if |input| > |output| {
      return Err(Message);
    }
    ProductIsZero(output);
    if 0 !in output {
      LeadingFitsIff(output);
      TrailingFitsIff(output);
    }
    var count := CheckedProduct(output);
    if count.None? || index >= count.value {
      return Err(Message);
    }
    var outputStrides := Strides(output);
    assert outputStrides.Ok?;
    var inputStrides := Strides(input);
    if Fits(input, output) {
      FittingProduct(output, input);
      TrailingFitsIff(input);
      SourceInside(output, input, index);
    }
    if inputStrides.Err? {
      return Err(Message);
    }
    ghost var x := Unflatten(output, index);
    OutputDigits(index, output, outputStrides.value);
    ghost var rest := RemaindersExist(input, inputStrides.value, Project(input, x[|output| - |input|..]));
    r := SumCoordinates(index, output, outputStrides.value, input, inputStrides.value, x, rest);
  }

  /** What the loop still has to add before each axis. */
  ghost predicate Remainders(shape: seq<nat>, strides: seq<nat>, y: seq<nat>, rest: seq<nat>)
    requires |y| == |shape| == |strides|
  {
    && |rest| == |shape| + 1 && rest[|shape|] == 0
    && forall k {:trigger y[k]} :: 0 <= k < |shape| ==> rest[k] == y[k] * strides[k] + rest[k + 1]
  }

  lemma {:induction false} RemaindersExist(shape: seq<nat>, strides: seq<nat>, y: seq<nat>) returns (rest: seq<nat>)
    requires |y| == |shape| && RowMajor(shape, strides)
    ensures Remainders(shape, strides, y, rest) && rest[0] == Flatten(shape, y)
  {
    if shape == [] {
      rest := [0];
    } else {
      var tail := RemaindersExist(shape[1..], strides[1..], y[1..]);
      rest := [Flatten(shape, y)] + tail;
    }
  }

  /** Each axis of the output reads its digit of the index. */
  ghost predicate Digits(index: nat, output: seq<nat>, strides: seq<nat>, x: seq<nat>) {
    && |output| == |strides| == |x|
    && forall k :: 0 <= k < |output| ==>
                     strides[k] > 0 && output[k] > 0 && Digit(index, strides[k], output[k]) == x[k]
  }

  lemma {:induction false} OutputDigits(index: nat, output: seq<nat>, strides: seq<nat>)
    requires Positive(output) && index < Product(output) && RowMajor(output, strides)
    ensures Digits(index, output, strides, Unflatten(output, index))
  {
    forall k | 0 <= k < |output|
      ensures strides[k] > 0 && Digit(index, strides[k], output[k]) == Unflatten(output, index)[k]
    {
      OutputCoordinate(output, strides, index, k);
    }
  }

  method CheckedMulAdd(a: nat, b: nat, c: nat) returns (r: Option<nat>)
    ensures r == if a * b + c <= USIZE_MAX then Some(a * b + c) else None
  {
    if a * b > USIZE_MAX || a * b + c > USIZE_MAX {
      return None;
    }
    return Some(a * b + c);
  }

  /** The loop of `BroadcastIndex`: one digit per input axis, with checked arithmetic. */
  method SumCoordinates(index: nat, output: seq<nat>, outputStrides: seq<nat>, input: seq<nat>, inputStrides: seq<nat>,
                        ghost x: seq<nat>, ghost rest: seq<nat>)
      returns (r: Result<nat>)
    requires |input| <= |output| && |inputStrides| == |input| && Digits(index, output, outputStrides, x)
    requires Remainders(input, inputStrides, Project(input, x[|output| - |input|..]), rest)
    requires Fits(input, output) ==> rest[0] <= USIZE_MAX
    ensures r.Ok? <==> Fits(input, output)
    ensures r.Ok? ==> r.value == rest[0]
  {
    var offset := |output| - |input|;
    FitsIffMatches(input, output);
    var result := 0;
    for k := 0 to |input|
      invariant result + rest[k] == rest[0]
      invariant forall i :: 0 <= i < k ==> input[i] == 1 || input[i] == output[offset + i]
    {
      ProjectAt(input, x[offset..], k);
      if input[k] != 1 && input[k] != output[offset + k] {
        assert output[offset..][k] == output[offset + k];
        return Err(Message);
      }
      var coordinate := Digit(index, outputStrides[offset + k], output[offset + k]);
      if input[k] != 1 {
        var sum := CheckedMulAdd(coordinate, inputStrides[k], result);
        if sum.None? {
          return Err(Message);
        }
        result := sum.value;
      }
    }
    return Ok(result);
  }

  // ---------- whole broadcasts ----------

  /** After a broadcast of positive shapes every output index reads one element of each operand. */
  lemma {:induction false} BroadcastIsReadable(left: seq<nat>, right: seq<nat>, index: nat)
    requires Positive(left) && Positive(right) && Broadcast(left, right).Ok?
    requires Product(Broadcast(left, right).value) <= USIZE_MAX && index < Product(Broadcast(left, right).value)
    ensures Readable(index, Broadcast(left, right).value, left)
    ensures Readable(index, Broadcast(left, right).value, right)
  {
    var out := Broadcast(left, right).value;
    BroadcastDims(left, right);
    BroadcastCommutes(left, right);
    OperandFits(left, right);
    OperandFits(right, left);
    forall i | 0 <= i < |out| ensures out[i] > 0 {
      assert Dim(out, |out| - i) == Max(Dim(left, |out| - i), Dim(right, |out| - i));
    }
  }

  function Embed(output: seq<nat>, input: seq<nat>, y: seq<nat>): (x: seq<nat>)
    requires |y| == |input| <= |output|
    ensures |x| == |output|
  {
    if |input| < |output| then [0] + Embed(output[1..], input, y) else y
  }

  lemma {:induction false} EmbedInside(output: seq<nat>, input: seq<nat>, y: seq<nat>)
    requires Positive(output) && |input| <= |output| && Matches(input, output[|output| - |input|..])
    requires Coordinates(input, y)
    ensures Coordinates(output, Embed(output, input, y))
    ensures Embed(output, input, y)[|output| - |input|..] == y
  {
    if |input| < |output| {
      assert output[1..][|output| - 1 - |input|..] == output[|output| - |input|..];
      EmbedInside(output[1..], input, y);
    } else {
      assert output[0..] == output;
      MatchingCoordinates(input, output, y);
    }
  }

  lemma {:induction false} MatchingCoordinates(input: seq<nat>, shape: seq<nat>, y: seq<nat>)
    requires Matches(input, shape) && Positive(shape) && Coordinates(input, y)
    ensures Coordinates(shape, y) && Project(input, y) == y
  {
    if input != [] {
      MatchingCoordinates(input[1..], shape[1..], y[1..]);
      assert y == [y[0]] + y[1..];
    }
  }

  /** Every element of a fitting input is read by some output index. */
  lemma {:induction false} EveryElementIsRead(output: seq<nat>, input: seq<nat>, element: nat) returns (index: nat)
    requires Positive(output) && Fits(input, output) && element < Product(input)
    ensures index < Product(output) && SourceIndex(output, input, index) == element
  {
    var offset := |output| - |input|;
    FitsIffMatches(input, output);
    MatchingProduct(input, output[offset..]);
    var y := Unflatten(input, element);
    FlattenUnflatten(input, element);
    EmbedInside(output, input, y);
    MatchingCoordinates(input, output[offset..], y);
    var x := Embed(output, input, y);
    index := Flatten(output, x);
    FlattenBound(output, x);
    UnflattenFlatten(output, x);
  }

  /** Broadcasting through an intermediate shape reads the same element as broadcasting at once. */
  lemma {:induction false} ReadsCompose(output: seq<nat>, middle: seq<nat>, input: seq<nat>, index: nat)
    requires Positive(output) && Fits(middle, output) && Fits(input, middle) && index < Product(output)
    ensures Positive(middle) && Fits(input, output) && SourceIndex(output, middle, index) < Product(middle)
    ensures SourceIndex(middle, input, SourceIndex(output, middle, index)) == SourceIndex(output, input, index)
  {
    FittingProduct(output, middle);
    SourceInside(output, middle, index);
    var x := Unflatten(output, index);
    var o, m := |output| - |middle|, |middle| - |input|;
    FlattenUnflatten(output, index);
    CoordinatesSuffix(output, x, o);
    FitsIffMatches(middle, output);
    FitsIffMatches(input, middle);
    ProjectInside(middle, output[o..], x[o..]);
    UnflattenFlatten(middle, Project(middle, x[o..]));
    ProjectTwice(middle, input, x[o..]);
    assert x[o..][m..] == x[o + m..];
    FitsTransitive(output, middle, input);
  }

  lemma {:induction false} FitsTransitive(output: seq<nat>, middle: seq<nat>, input: seq<nat>)
    requires Fits(middle, output) && Fits(input, middle)
    ensures Fits(input, output)
  {
  }

  lemma {:induction false} ProjectTwice(middle: seq<nat>, input: seq<nat>, x: seq<nat>)
    requires |x| == |middle| && |input| <= |middle| && Matches(input, middle[|middle| - |input|..])
    ensures Project(input, Project(middle, x)[|middle| - |input|..]) == Project(input, x[|middle| - |input|..])
  {
    var m := |middle| - |input|;
    var p, q := Project(input, Project(middle, x)[m..]), Project(input, x[m..]);
    forall k | 0 <= k < |input| ensures p[k] == q[k] {
      ProjectAt(input, Project(middle, x)[m..], k);
      ProjectAt(input, x[m..], k);
      ProjectAt(middle, x, m + k);
      assert middle[m..][k] == middle[m + k];
    }
  }
}
