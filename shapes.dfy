/**
 * Tensor shapes: the number of entries of a tensor with given dimension
 * sizes, and the facts about integer products and quotients they rely on.
 */
module Shapes {

  /** Number of entries of a tensor with these dimension sizes. */
  function Size(dims: seq<nat>): nat
  {
    if dims == [] then 1 else Size(dims[..|dims| - 1]) * dims[|dims| - 1]
  }

  /** A tensor has no entries exactly when one of its dimensions is zero. */
  lemma {:induction false} SizePositive(dims: seq<nat>)
    ensures Size(dims) == 0 <==> exists i :: 0 <= i < |dims| && dims[i] == 0
    decreases |dims|
  {
    if dims != [] {
      var init := dims[..|dims| - 1];
      SizePositive(init);
      if Size(init) != 0 && dims[|dims| - 1] != 0 {
        assert Size(dims) == Size(init) * dims[|dims| - 1];
        assert forall i :: 0 <= i < |dims| - 1 ==> dims[i] == init[i];
      } else if Size(init) == 0 {
        var i :| 0 <= i < |init| && init[i] == 0;
        assert dims[i] == 0;
      }
    }
  }

  /** The size is also the leading dimension times the size of the rest. */
  lemma {:induction false} SizeCons(dims: seq<nat>)
    requires |dims| >= 1
    ensures Size(dims) == dims[0] * Size(dims[1..])
    decreases |dims|
  {
    var n := |dims| - 1;
    if n == 0 {
      assert dims[1..] == [];
    } else {
      var init := dims[..n];
      SizeCons(init);
      assert init[1..] == dims[1..][..n - 1];
      assert dims[1..][n - 1] == dims[n];
      assert Size(dims[1..]) == Size(init[1..]) * dims[n];
      assert Size(dims) == (dims[0] * Size(init[1..])) * dims[n];
      assert (dims[0] * Size(init[1..])) * dims[n] == dims[0] * (Size(init[1..]) * dims[n]);
    }
  }

  /** Scaling preserves order. */
  lemma MulMonotonic(a: nat, b: nat, h: nat)
    requires a <= b
    ensures a * h <= b * h
  {
    assert b * h == a * h + (b - a) * h;
  }

  /** Floor division and remainder are the unique quotient and remainder. */
  lemma DivModUnique(n: nat, w: nat, q: nat, r: nat)
    requires w >= 1 && r < w && n == q * w + r
    ensures n / w == q && n % w == r
  {
    var q' := n / w;
    assert n == q' * w + n % w;
    if q' < q {
      MulMonotonic(q' + 1, q, w);
    } else if q < q' {
      MulMonotonic(q + 1, q', w);
    }
  }
}
