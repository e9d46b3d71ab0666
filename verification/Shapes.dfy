/** Element counts and row-major strides of a shape. */
module Shapes {
  import opened Accesses

  function Product(shape: seq<nat>): nat {
    if shape == [] then 1 else shape[0] * Product(shape[1..])
  }

  ghost predicate Positive(shape: seq<nat>) {
    forall i :: 0 <= i < |shape| ==> shape[i] > 0
  }

  lemma {:induction false} MulMono(x: int, y: int, s: nat)
    requires x <= y
    ensures x * s <= y * s
  {
  }

  lemma {:induction false} ProductIsZero(shape: seq<nat>)
    ensures Product(shape) == 0 <==> 0 in shape
  {
    if shape != [] {
      ProductIsZero(shape[1..]);
      if shape[0] > 0 && Product(shape[1..]) > 0 {
        MulMono(1, shape[0], Product(shape[1..]));
      }
    }
  }

  lemma {:induction false} ProductIsPositive(shape: seq<nat>)
    requires Positive(shape)
    ensures Product(shape) > 0
  {
    ProductIsZero(shape);
  }

  /** Leading products never exceed the whole one. */
  lemma {:induction false} PrefixProduct(shape: seq<nat>, k: nat)
    requires Positive(shape) && k <= |shape|
    ensures Product(shape[..k]) <= Product(shape)
  {
    if k > 0 {
      PrefixProduct(shape[1..], k - 1);
      assert shape[..k][1..] == shape[1..][..k - 1];
      MulMono(Product(shape[1..][..k - 1]), Product(shape[1..]), shape[0]);
    } else {
      ProductIsPositive(shape);
    }
  }

  lemma {:induction false} ProductAppend(shape: seq<nat>, d: nat)
    ensures Product(shape + [d]) == Product(shape) * d
  {
    if shape == [] {
      assert [d][1..] == [];
    } else {
      ProductAppend(shape[1..], d);
      assert (shape + [d])[1..] == shape[1..] + [d];
      var a, b := shape[0], Product(shape[1..]);
      assert a * (b * d) == (a * b) * d;
    }
  }

  /** Checked multiplication over the shape, in order; it stops at the first product that does not fit. */
  method CheckedProduct(shape: seq<nat>) returns (r: Option<nat>)
    ensures r.Some? <==> forall k :: 0 <= k <= |shape| ==> Product(shape[..k]) <= USIZE_MAX
    ensures r.Some? ==> r.value == Product(shape)
  {
    var count := 1;
    for k := 0 to |shape|
      invariant count == Product(shape[..k])
      invariant forall j :: 0 <= j <= k ==> Product(shape[..j]) <= USIZE_MAX
    {
      assert shape[..k + 1] == shape[..k] + [shape[k]];
      ProductAppend(shape[..k], shape[k]);
      if count * shape[k] > USIZE_MAX {
        return None;
      }
      count := count * shape[k];
    }
    assert shape[..|shape|] == shape;
    return Some(count);
  }

  /** Each stride is the number of elements one step along its axis skips. */
  ghost predicate RowMajor(shape: seq<nat>, strides: seq<nat>) {
    && |strides| == |shape|
    && (shape == [] || (strides[0] == Product(shape[1..]) && RowMajor(shape[1..], strides[1..])))
  }

  /** No product of trailing dimensions overflows. */
  ghost predicate TrailingFits(shape: seq<nat>) {
    shape == [] || (TrailingFits(shape[1..]) && Product(shape) <= USIZE_MAX)
  }

  /** Row-major strides, unless a trailing product overflows. */
  method Strides(shape: seq<nat>) returns (r: Result<seq<nat>>)
    ensures r.Ok? <==> TrailingFits(shape)
    ensures r.Ok? ==> RowMajor(shape, r.value)
  {
    var stride := 1;
    var output: seq<nat> := seq(|shape|, _ => 0);
    for k := |shape| downto 0
      invariant |output| == |shape| && stride == Product(shape[k..])
      invariant TrailingFits(shape[k..]) && RowMajor(shape[k..], output[k..])
    {
      ghost var before := output;
      output := output[k := stride];
      assert shape[k..][1..] == shape[k + 1..] && output[k..][1..] == before[k + 1..];
      if stride * shape[k] > USIZE_MAX {
        if TrailingFits(shape) {
          TrailingSuffix(shape, k);
        }
        return Err(Message);
      }
      stride := stride * shape[k];
    }
    assert shape[0..] == shape && output[0..] == output;
    return Ok(output);
  }

  lemma {:induction false} TrailingSuffix(shape: seq<nat>, k: nat)
    requires k <= |shape| && TrailingFits(shape)
    ensures TrailingFits(shape[k..])
  {
    if k > 0 {
      TrailingSuffix(shape[1..], k - 1);
      assert shape[1..][k - 1..] == shape[k..];
    }
  }

  /** Without empty dimensions both overflow tests only look at the whole product. */
  lemma {:induction false} TrailingFitsIff(shape: seq<nat>)
    requires Positive(shape)
    ensures TrailingFits(shape) <==> Product(shape) <= USIZE_MAX
  {
    if shape != [] {
      TrailingFitsIff(shape[1..]);
      MulMono(1, shape[0], Product(shape[1..]));
    }
  }

  lemma {:induction false} LeadingFitsIff(shape: seq<nat>)
    requires Positive(shape)
    ensures (forall k :: 0 <= k <= |shape| ==> Product(shape[..k]) <= USIZE_MAX) <==> Product(shape) <= USIZE_MAX
  {
    assert shape[..|shape|] == shape;
    forall k | 0 <= k <= |shape| ensures Product(shape[..k]) <= Product(shape) {
      PrefixProduct(shape, k);
    }
  }
}
