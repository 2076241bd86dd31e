/** Reshaping, permuting, stacking and concatenating factored tensors. */
module LoraShapes {
  import opened Text
  import opened Tensors
  import opened Lora

  // ---- Reshape

  function Zeros(n: nat): (r: seq<nat>)
    ensures |r| == n
  {
    seq(n, i => 0)
  }

  lemma {:induction false} ProdOnes(n: nat)
    ensures Prod(Ones(n)) == 1
  {
    if n > 0 {
      assert Ones(n)[..n - 1] == Ones(n - 1);
      ProdOnes(n - 1);
    }
  }

  lemma UnitFactors(p: nat, n: nat)
    requires p * n == 1
    ensures p == 1 && n == 1
  {
    if p > 0 && n > 0 {
      MulMonotone(1, p, n);
      MulMonotone(1, n, p);
    }
  }

  lemma {:induction false} OnlyOnes(s: seq<nat>)
    requires Prod(s) == 1
    ensures forall i :: 0 <= i < |s| ==> s[i] == 1
  {
    if s != [] {
      var p, n := Prod(s[..|s| - 1]), s[|s| - 1];
      UnitFactors(p, n);
      OnlyOnes(s[..|s| - 1]);
    }
  }

  lemma {:induction false} FlatZeros(s: seq<nat>)
    ensures Flat(s, Zeros(|s|)) == 0
  {
    if s != [] {
      assert Zeros(|s|)[..|s| - 1] == Zeros(|s| - 1);
      FlatZeros(s[..|s| - 1]);
    }
  }

  lemma {:induction false} UnflatZero(s: seq<nat>)
    ensures Unflat(s, 0) == Zeros(|s|)
  {
    if s != [] {
      UnflatZero(s[..|s| - 1]);
      assert Zeros(|s|) == Zeros(|s| - 1) + [0];
    }
  }

  lemma CancelRight(x: nat, y: nat, z: nat)
    requires x * z == y * z && z > 0
    ensures x == y
  {
    assert (x - y) * z == x * z - y * z;
    SmallMultiple(x - y, z);
  }

  /** The parts of the shapes that a successful reshape ties together. */
  lemma {:induction false} ReshapeParts(l: Lora, shape: seq<nat>)
    requires l.Valid() && l.Rank() > 0 && |shape| >= 2 && shape[|shape| - 1] == l.Shape()[l.Dims() - 1]
    requires ReshapeTo(l.a, Ones(|shape| - 2) + [l.Rank(), shape[|shape| - 1]]).Some?
    requires ReshapeTo(l.b, shape[..|shape| - 1] + [l.Rank()]).Some?
    ensures Prod(shape[..|shape| - 1]) == Prod(l.b.shape[..l.Dims() - 1])
    ensures Prod(shape) == Prod(l.Shape())
    ensures shape[|shape| - 1] > 0 ==> LeadingOnes(l)
  {
    hide Prod;
    var n, r := shape[|shape| - 1], l.Rank();
    var rows, rows' := l.b.shape[..l.Dims() - 1], shape[..|shape| - 1];
    var lead := l.a.shape[..l.Dims() - 2];
    assert l.b.shape == rows + [r] && shape == rows' + [n];
    ProdLast(rows, r);
    ProdLast(rows', r);
    CancelRight(Prod(rows), Prod(rows'), r);
    ProdLast(rows, n);
    ProdLast(rows', n);
    if n > 0 {
      assert l.a.shape == (lead + [r]) + [n];
      assert Ones(|shape| - 2) + [r, n] == (Ones(|shape| - 2) + [r]) + [n];
      ProdLast(lead + [r], n);
      ProdLast(lead, r);
      ProdLast(Ones(|shape| - 2) + [r], n);
      ProdLast(Ones(|shape| - 2), r);
      ProdOnes(|shape| - 2);
      CancelRight(Prod(lead) * r, 1 * r, n);
      CancelRight(Prod(lead), 1, r);
      OnlyOnes(lead);
      assert forall i :: 0 <= i < l.Dims() - 2 ==> l.a.shape[i] == lead[i];
    }
  }

  lemma BroadcastOnes(shape: seq<nat>, ix: seq<nat>)
    requires |ix| <= |shape| && forall i :: 0 <= i < |ix| ==> shape[i] == 1
    ensures Broadcast(shape, ix) == Zeros(|ix|)
  {
  }

  lemma TwoMore(s: seq<nat>, p: nat, q: nat)
    ensures s + [p, q] == (s + [p]) + [q]
  {
  }

  /** Reading the reshaped A, whose leading axes are all 1, at a broadcast index: first the position... */
  lemma {:induction false} FlatA(m: nat, r: nat, n: nat, k: nat, j: nat)
    ensures Flat(Ones(m) + [r, n], Zeros(m) + [k, j]) == k * n + j
  {
    hide Flat;
    hide Ones;
    hide Zeros;
    TwoMore(Ones(m), r, n);
    TwoMore(Zeros(m), k, j);
    FlatLast(Ones(m) + [r], Zeros(m) + [k], n, j);
    FlatLast(Ones(m), Zeros(m), r, k);
    FlatZeros(Ones(m));
    assert Flat(Ones(m) + [r], Zeros(m) + [k]) == k;
  }

  /** ... and then the index of A at that position. */
  lemma {:induction false} UnflatA(lead: seq<nat>, r: nat, n: nat, k: nat, j: nat)
    requires k < r && j < n
    ensures Unflat(lead + [r, n], k * n + j) == Zeros(|lead|) + [k, j]
  {
    hide Unflat;
    hide Zeros;
    TwoMore(lead, r, n);
    TwoMore(Zeros(|lead|), k, j);
    UnflatLast(lead + [r], k, n, j);
    UnflatLast(lead, 0, r, k);
    UnflatZero(lead);
    assert Unflat(lead + [r], k) == Zeros(|lead|) + [k];
  }

  /** Reading a tensor reshaped in front of its last axis. */
  lemma {:induction false} ReshapedRows(rows: seq<nat>, rows': seq<nat>, r: nat, x: seq<nat>, k: nat)
    requires k < r && |x| == |rows'|
    ensures Unflat(rows + [r], Flat(rows' + [r], x + [k])) == Unflat(rows, Flat(rows', x)) + [k]
  {
    FlatLast(rows', x, r, k);
    UnflatLast(rows, Flat(rows', x), r, k);
  }

  lemma ReshapedElement(l: Lora, m: Lora, shape: seq<nat>, x: seq<nat>, j: nat)
    requires Fits(l) && LeadingOnes(l) && |shape| >= 2 && |x| == |shape| - 1
    requires j < shape[|shape| - 1] == l.Shape()[l.Dims() - 1]
    requires ReshapeTo(l.a, Ones(|shape| - 2) + [l.Rank(), shape[|shape| - 1]]) == Some(m.a)
    requires ReshapeTo(l.b, shape[..|shape| - 1] + [l.Rank()]) == Some(m.b)
    ensures m.Valid() && m.Dims() == |shape|
    ensures var at := Unflat(l.b.shape[..l.Dims() - 1], Flat(shape[..|shape| - 1], x)) + [j];
            DenseAt(m, x + [j]) == DenseAt(l, at)
  {
    hide Flat;
    hide Unflat;
    hide Prod;
    hide Broadcast;
    var at := Unflat(l.b.shape[..l.Dims() - 1], Flat(shape[..|shape| - 1], x)) + [j];
    var ix := x + [j];
    forall k | 0 <= k < l.Rank()
      ensures m.b.at(IndexB(m, ix, k)) == l.b.at(IndexB(l, at, k)) &&
          m.a.at(IndexA(m, ix, k)) == l.a.at(IndexA(l, at, k))
    {
      ReshapedFactors(l, m, shape, x, j, k);
    }
    hide ReshapeTo;
    DenseAgrees(m, ix, l, at);
  }

  /** The index of the product that an index of its reshape stands for. */
  lemma {:induction false} ReshapedIndex(l: Lora, shape: seq<nat>, x: seq<nat>, j: nat)
    requires l.Valid() && |shape| >= 2 && |x| == |shape| - 1 && j < shape[|shape| - 1] == l.Shape()[l.Dims() - 1]
    ensures Unflat(l.Shape(), Flat(shape, x + [j])) ==
        Unflat(l.b.shape[..l.Dims() - 1], Flat(shape[..|shape| - 1], x)) + [j]
  {
    hide Flat;
    hide Unflat;
    var rows, rows', n := l.b.shape[..l.Dims() - 1], shape[..|shape| - 1], shape[|shape| - 1];
    assert l.Shape() == rows + [n] && shape == rows' + [n];
    ReshapedRows(rows, rows', n, x, j);
  }

  lemma {:induction false} ReshapedFactors(l: Lora, m: Lora, shape: seq<nat>, x: seq<nat>, j: nat, k: nat)
    requires Fits(l) && LeadingOnes(l) && |shape| >= 2 && |x| == |shape| - 1
    requires j < shape[|shape| - 1] == l.Shape()[l.Dims() - 1]
    requires ReshapeTo(l.a, Ones(|shape| - 2) + [l.Rank(), shape[|shape| - 1]]) == Some(m.a)
    requires ReshapeTo(l.b, shape[..|shape| - 1] + [l.Rank()]) == Some(m.b)
    requires k < l.Rank()
    ensures m.Valid() && m.Dims() == |shape|
    ensures var at := Unflat(l.b.shape[..l.Dims() - 1], Flat(shape[..|shape| - 1], x)) + [j];
            m.b.at(IndexB(m, x + [j], k)) == l.b.at(IndexB(l, at, k)) &&
                m.a.at(IndexA(m, x + [j], k)) == l.a.at(IndexA(l, at, k))
  {
    hide Flat;
    hide Unflat;
    hide Prod;
    var d, s := l.Dims(), |shape|;
    var n, r := shape[s - 1], l.Rank();
    var rows, rows', lead := l.b.shape[..d - 1], shape[..s - 1], l.a.shape[..d - 2];
    var at := Unflat(rows, Flat(rows', x)) + [j];
    var ix := x + [j];
    assert l.b.shape == rows + [r] && l.a.shape == lead + [r, n];
    ReshapedRows(rows, rows', r, x, k);
    assert IndexB(m, ix, k) == x + [k] && IndexB(l, at, k) == Unflat(rows, Flat(rows', x)) + [k];
    FlatA(s - 2, r, n, k, j);
    UnflatA(lead, r, n, k, j);
    BroadcastOnes(m.a.shape, ix[..s - 2]);
    BroadcastOnes(l.a.shape, at[..d - 2]);
    assert IndexA(m, ix, k) == Zeros(s - 2) + [k, j] && IndexA(l, at, k) == Zeros(d - 2) + [k, j];
  }

  /** The dense counterpart of reshaping. */
  function DenseReshape(t: Tensor, dims: seq<int>): Option<Tensor> {
    var shape := ExpandDims(dims, Prod(t.shape));
    if shape.None? then None else ReshapeTo(t, shape.value)
  }

  lemma RankedReshapeCommutes(l: Lora, dims: seq<int>)
    requires Fits(l) && l.Rank() > 0 && Reshape(l, dims).Some?
    ensures DenseReshape(Dense(l), dims).Some? && Fits(Reshape(l, dims).value)
    ensures Same(Dense(Reshape(l, dims).value), DenseReshape(Dense(l), dims).value)
    ensures Reshape(l, dims).value.Rank() == l.Rank()
  {
    hide Flat;
    hide Unflat;
    hide DenseAt;
    var shape := ExpandDims(dims, Prod(l.Shape())).value;
    var m := Reshape(l, dims).value;
    ReshapeParts(l, shape);
    var dense := ReshapeTo(Dense(l), shape).value;
    assert m.Shape() == shape;
    forall ix | InShape(shape, ix)
      ensures Dense(m).at(ix) == dense.at(ix)
    {
      var x, j := ix[..|ix| - 1], ix[|ix| - 1];
      assert ix == x + [j];
      assert j < shape[|shape| - 1];
      ReshapedElement(l, m, shape, x, j);
      ReshapedIndex(l, shape, x, j);
    }
  }

  lemma NoRankNoSum(l: Lora, ix: seq<nat>)
    requires l.Valid() && l.Rank() == 0
    ensures Dense(l).at(ix) == 0.0
  {
  }

  lemma UnrankedReshape(l: Lora, dims: seq<int>)
    requires Fits(l) && l.Rank() == 0 && Reshape(l, dims).Some?
    ensures Fits(Reshape(l, dims).value) && Reshape(l, dims).value.Rank() == 0
    ensures DenseReshape(Dense(l), dims).Some? <==>
            Prod(ExpandDims(dims, Prod(l.Shape())).value) == Prod(l.Shape())
    ensures DenseReshape(Dense(l), dims).Some? ==>
            Same(Dense(Reshape(l, dims).value), DenseReshape(Dense(l), dims).value)
  {
    hide ExpandDims;
    hide Prod;
    hide DenseAt;
    var m := Reshape(l, dims).value;
    if DenseReshape(Dense(l), dims).Some? {
      var dense := DenseReshape(Dense(l), dims).value;
      assert m.Shape() == dense.shape;
      forall ix | InShape(m.Shape(), ix)
        ensures Dense(m).at(ix) == dense.at(ix)
      {
        NoRankNoSum(m, ix);
        NoRankNoSum(l, Unflat(Dense(l).shape, Flat(dense.shape, ix)));
      }
    }
  }

  /** Whenever a reshape succeeds, it reshapes the product; the leading axes of A need no extra condition,
      since the reshape of A itself fails unless they are all 1. Only of rank zero, where nothing is left to count, a
      reshape also succeeds that has not the number of elements of the product. */
  lemma ReshapeCommutes(l: Lora, dims: seq<int>)
    requires Fits(l) && Reshape(l, dims).Some?
    ensures Fits(Reshape(l, dims).value) && Reshape(l, dims).value.Rank() == l.Rank()
    ensures DenseReshape(Dense(l), dims).Some? <==>
            l.Rank() > 0 || Prod(ExpandDims(dims, Prod(l.Shape())).value) == Prod(l.Shape())
    ensures DenseReshape(Dense(l), dims).Some? ==>
            Same(Dense(Reshape(l, dims).value), DenseReshape(Dense(l), dims).value)
  {
    hide Same;
    hide DenseReshape;
    hide Reshape;
    if l.Rank() > 0 {
      RankedReshapeCommutes(l, dims);
    } else {
      UnrankedReshape(l, dims);
    }
  }

  // ---- Permute

  /** The dense counterpart of permuting. */
  function DensePermute(t: Tensor, dims: seq<int>): Option<Tensor> {
    var axes := Axes(dims, |t.shape|);
    if axes.None? then None else PermuteBy(t, axes.value)
  }

  lemma LastAxisStays(perm: seq<nat>, ix: seq<nat>, k: nat)
    requires IsPermutation(perm) && |ix| == |perm| > 0 && perm[|perm| - 1] == |perm| - 1
    ensures PermIndex(perm, ix[..|ix| - 1] + [k]) == PermIndex(perm, ix)[..|ix| - 1] + [k]
    ensures PermIndex(perm, ix)[|ix| - 1] == ix[|ix| - 1]
  {
    var n := |perm|;
    forall q | 0 <= q < n - 1
      ensures Position(perm, q) < n - 1
    {
    }
  }

  lemma PermuteLastFixed(l: Lora, axes: seq<nat>)
    requires Fits(l) && LeadingOnes(l) && |axes| == l.Dims() && IsPermutation(axes) &&
        axes[l.Dims() - 1] == l.Dims() - 1
    ensures var m := Lora(l.a, PermuteBy(l.b, axes).value);
            Fits(m) && Same(Dense(m), PermuteBy(Dense(l), axes).value)
  {
    var n := l.Dims();
    var m := Lora(l.a, PermuteBy(l.b, axes).value);
    assert m.b.shape[n - 1] == l.b.shape[n - 1];
    assert PermShape(axes, l.Shape()) == m.Shape() by {
      forall p | 0 <= p < n - 1
        ensures axes[p] < n - 1
      {
      }
    }
    forall ix | InShape(m.Shape(), ix)
      ensures DenseAt(m, ix) == DenseAt(l, PermIndex(axes, ix))
    {
      var at := PermIndex(axes, ix);
      forall k | 0 <= k < l.Rank()
        ensures m.b.at(IndexB(m, ix, k)) == l.b.at(IndexB(l, at, k)) && IndexA(m, ix, k) == IndexA(l, at, k)
      {
        LastAxisStays(axes, ix, k);
        BroadcastOnes(l.a.shape, ix[..n - 2]);
        BroadcastOnes(l.a.shape, at[..n - 2]);
      }
      DenseAgrees(m, ix, l, at);
    }
  }

  lemma SwapIndex(i: nat, j: nat)
    ensures IsPermutation([1, 0]) && PermIndex([1, 0], [i, j]) == [j, i]
  {
    assert [1, 0][0] == 1 && [1, 0][1] == 0;
    assert 0 in [1, 0] && 1 in [1, 0];
    assert Position([1, 0], 0) == 1 && Position([1, 0], 1) == 0;
  }

  /** A matrix product is transposed by transposing its factors and exchanging them. */
  lemma TransposeMatrix(l: Lora)
    requires Fits(l) && l.Dims() == 2
    ensures IsPermutation([1, 0])
    ensures var m := Lora(PermuteBy(l.b, [1, 0]).value, PermuteBy(l.a, [1, 0]).value);
            Fits(m) && m.Rank() == l.Rank() && Same(Dense(m), PermuteBy(Dense(l), [1, 0]).value)
  {
    SwapIndex(0, 0);
    var m := Lora(PermuteBy(l.b, [1, 0]).value, PermuteBy(l.a, [1, 0]).value);
    assert m.b.shape == [l.a.shape[1], l.a.shape[0]] && m.a.shape == [l.b.shape[1], l.b.shape[0]];
    assert PermShape([1, 0], l.Shape()) == m.Shape();
    forall ix | InShape(m.Shape(), ix)
      ensures DenseAt(m, ix) == DenseAt(l, PermIndex([1, 0], ix))
    {
      var i, j := ix[0], ix[1];
      assert ix == [i, j];
      SwapIndex(i, j);
      SumsAgree(l.Rank(), (k: nat) => m.b.at(IndexB(m, ix, k)) * m.a.at(IndexA(m, ix, k)),
                (k: nat) => l.b.at(IndexB(l, [j, i], k)) * l.a.at(IndexA(l, [j, i], k))) by {
        forall k | 0 <= k < l.Rank()
          ensures m.b.at(IndexB(m, ix, k)) == l.a.at(IndexA(l, [j, i], k)) &&
              m.a.at(IndexA(m, ix, k)) == l.b.at(IndexB(l, [j, i], k))
        {
          SwapIndex(i, k);
          SwapIndex(k, j);
          assert IndexB(m, ix, k) == [i, k] && IndexA(m, ix, k) == [k, j];
          assert IndexB(l, [j, i], k) == [j, k] && IndexA(l, [j, i], k) == [k, i];
        }
      }
    }
  }

  lemma PermuteCommutes(l: Lora, dims: seq<int>)
    requires Fits(l) && Permute(l, dims).Some?
    ensures DensePermute(Dense(l), dims).Some? && Fits(Permute(l, dims).value)
    ensures Same(Dense(Permute(l, dims).value), DensePermute(Dense(l), dims).value)
    ensures Permute(l, dims).value.Rank() == l.Rank()
  {
    hide Same;
    hide Dense;
    hide IsPermutation;
    hide PermShape;
    hide PermIndex;
    var axes := Axes(dims, l.Dims()).value;
    assert Dense(l).shape == l.Shape() by { DenseShape(l); }
    if axes[l.Dims() - 1] == l.Dims() - 1 {
      PermuteLastFixed(l, axes);
    } else {
      TransposeMatrix(l);
    }
  }

  function DenseTranspose(t: Tensor, dim0: int, dim1: int): Option<Tensor> {
    var dims := Swapped(dim0, dim1, |t.shape|);
    if dims.None? then None else DensePermute(t, dims.value)
  }

  lemma DenseShape(l: Lora)
    requires l.Valid()
    ensures Dense(l).shape == l.Shape()
  {
  }
}
