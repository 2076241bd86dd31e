/** What the modelled PyTorch operations do, element by element. */
module TensorLaws {
  import opened Text
  import opened Tensors
  import opened Lora
  import opened LoraPicks
  import opened LoraShapes

  /** An axis counted from the front or from the end. */
  predicate IsAxis(d: int, n: nat) {
    0 <= d + n && d < n
  }

  function AxisOf(d: int, n: nat): (r: nat)
    requires IsAxis(d, n)
    ensures r < n
  {
    if d < 0 then n + d else d
  }

  /** The entries at two positions exchanged. */
  function Exchanged(s: seq<nat>, p: nat, q: nat): (r: seq<nat>)
    requires p < |s| && q < |s|
    ensures |r| == |s|
  {
    s[p := s[q]][q := s[p]]
  }

  // ---- Permuting

  /** Axis p of the result is axis perm[p], in shape and in every index. */
  lemma PermutedAt(t: Tensor, perm: seq<nat>, ix: seq<nat>, jx: seq<nat>)
    requires PermuteBy(t, perm).Some? && |ix| == |perm| == |jx|
    requires forall p :: 0 <= p < |perm| ==> jx[perm[p]] == ix[p]
    ensures var r := PermuteBy(t, perm).value;
            && |r.shape| == |perm| && (forall p :: 0 <= p < |perm| ==> r.shape[p] == t.shape[perm[p]])
            && r.at(ix) == t.at(jx)
  {
    assert PermIndex(perm, ix) == jx by {
      forall q | 0 <= q < |perm|
        ensures PermIndex(perm, ix)[q] == jx[q]
      {
        var p := Position(perm, q);
        assert perm[p] == q;
      }
    }
  }

  function Entries(s: seq<nat>): (r: set<nat>)
    ensures forall x :: x in r <==> x in s
  {
    if s == [] then {} else Entries(s[..|s| - 1]) + {s[|s| - 1]}
  }

  lemma {:induction false} DistinctAreAsMany(s: seq<nat>)
    requires AreDistinct(s)
    ensures |Entries(s)| == |s|
  {
    if s != [] {
      var front := s[..|s| - 1];
      DistinctAreAsMany(front);
      assert s[|s| - 1] !in front;
    }
  }

  function Below(n: nat): (r: set<nat>)
    ensures |r| == n && forall x :: x in r <==> 0 <= x < n
  {
    if n == 0 then {} else Below(n - 1) + {n - 1}
  }

  predicate AreDistinct(s: seq<nat>) {
    forall p, q :: 0 <= p < q < |s| ==> s[p] != s[q]
  }

  predicate AreBelow(s: seq<nat>, n: nat) {
    forall p :: 0 <= p < |s| ==> s[p] < n
  }

  lemma DistinctHitAll(perm: seq<nat>, q: nat)
    requires AreDistinct(perm) && AreBelow(perm, |perm|) && q < |perm|
    ensures q in perm
  {
    var hit, all := Entries(perm), Below(|perm|);
    DistinctAreAsMany(perm);
    assert hit <= all by { EntriesAreBelow(perm); }
    assert |all - hit| == |all| - |hit|;
    assert q in all && q !in all - hit;
  }

  lemma EntriesAreBelow(perm: seq<nat>)
    requires AreBelow(perm, |perm|)
    ensures Entries(perm) <= Below(|perm|)
  {
  }

  /** Any order of the axes permutes: distinct positions in range are all positions. */
  lemma PermutesExactly(perm: seq<nat>)
    ensures IsPermutation(perm) <==> AreBelow(perm, |perm|) && AreDistinct(perm)
  {
    if AreBelow(perm, |perm|) && AreDistinct(perm) {
      forall q | 0 <= q < |perm|
        ensures q in perm
      {
        DistinctHitAll(perm, q);
      }
    }
  }

  // ---- Exchanging two axes

  /** The dense transpose exists exactly for two axes of the tensor, counted from either end; it has the shape with the
      two lengths exchanged, and its element at an index is that at the index with the two positions exchanged. */
  lemma TransposedAt(t: Tensor, dim0: int, dim1: int)
    ensures DenseTranspose(t, dim0, dim1).Some? <==> IsAxis(dim0, |t.shape|) && IsAxis(dim1, |t.shape|)
    ensures DenseTranspose(t, dim0, dim1).Some? ==>
              var r, p, q := DenseTranspose(t, dim0, dim1).value, AxisOf(dim0, |t.shape|), AxisOf(dim1, |t.shape|);
              r.shape == Exchanged(t.shape, p, q)
    ensures DenseTranspose(t, dim0, dim1).Some? ==>
              var r, p, q := DenseTranspose(t, dim0, dim1).value, AxisOf(dim0, |t.shape|), AxisOf(dim1, |t.shape|);
              forall ix :: InShape(r.shape, ix) ==> r.at(ix) == t.at(Exchanged(ix, p, q))
  {
    var n := |t.shape|;
    if IsAxis(dim0, n) && IsAxis(dim1, n) {
      var p, q := AxisOf(dim0, n), AxisOf(dim1, n);
      var perm := ExchangeOf(n, p, q);
      ExchangeIsPermutation(n, p, q);
      SwappedIs(dim0, dim1, n);
      assert DenseTranspose(t, dim0, dim1) == PermuteBy(t, perm);
      var r := PermuteBy(t, perm).value;
      forall ix | InShape(r.shape, ix)
        ensures r.at(ix) == t.at(Exchanged(ix, p, q))
      {
        PermutedAt(t, perm, ix, Exchanged(ix, p, q));
      }
      assert r.shape == Exchanged(t.shape, p, q);
    }
  }

  /** The axes of a tensor with two of them exchanged. */
  function ExchangeOf(n: nat, p: nat, q: nat): (r: seq<nat>)
    requires p < n && q < n
    ensures |r| == n && forall i :: 0 <= i < n ==> r[i] == if i == p then q else if i == q then p else i
  {
    seq(n, i => if i == p then q else if i == q then p else i)
  }

  lemma ExchangeIsPermutation(n: nat, p: nat, q: nat)
    requires p < n && q < n
    ensures IsPermutation(ExchangeOf(n, p, q))
  {
    var r := ExchangeOf(n, p, q);
    forall i | 0 <= i < n
      ensures i in r
    {
      assert r[if i == p then q else if i == q then p else i] == i;
    }
  }

  lemma SwappedIs(dim0: int, dim1: int, n: nat)
    requires IsAxis(dim0, n) && IsAxis(dim1, n)
    ensures Swapped(dim0, dim1, n).Some? && Axes(Swapped(dim0, dim1, n).value, n) ==
            Some(ExchangeOf(n, AxisOf(dim0, n), AxisOf(dim1, n)))
  {
    var dims, perm := Swapped(dim0, dim1, n).value, ExchangeOf(n, AxisOf(dim0, n), AxisOf(dim1, n));
    assert forall i :: 0 <= i < n ==> dims[i] == perm[i];
    assert Axes(dims, n).value == perm;
  }

  /** Exchanging two axes of a factored tensor: it succeeds exactly for the two axes of a matrix, or for axes other than
      the last one where A has nothing to exchange; and then its product is that with the two axes exchanged. */
  lemma TransposeIsElementwise(l: Lora, dim0: int, dim1: int)
    requires Fits(l)
    ensures var n := l.Dims();
            Transpose(l, dim0, dim1).Some? <==>
              && IsAxis(dim0, n) && IsAxis(dim1, n)
              && var p, q := AxisOf(dim0, n), AxisOf(dim1, n);
                 if p == q || (p != n - 1 && q != n - 1) then LeadingOnes(l) else n == 2
    ensures Transpose(l, dim0, dim1).Some? ==>
              var m, p, q := Transpose(l, dim0, dim1).value, AxisOf(dim0, l.Dims()), AxisOf(dim1, l.Dims());
              && Fits(m) && m.Shape() == Exchanged(l.Shape(), p, q)
              && forall ix :: InShape(m.Shape(), ix) ==> Dense(m).at(ix) == Dense(l).at(Exchanged(ix, p, q))
  {
    var n := l.Dims();
    TransposedAt(Dense(l), dim0, dim1);
    if IsAxis(dim0, n) && IsAxis(dim1, n) {
      SwappedIs(dim0, dim1, n);
      TransposeSucceeds(l, dim0, dim1);
      if Transpose(l, dim0, dim1).Some? {
        PermuteCommutes(l, Swapped(dim0, dim1, n).value);
      }
    }
  }

  lemma TransposeSucceeds(l: Lora, dim0: int, dim1: int)
    requires Fits(l) && IsAxis(dim0, l.Dims()) && IsAxis(dim1, l.Dims())
    ensures var n := l.Dims(); var p, q := AxisOf(dim0, n), AxisOf(dim1, n);
            Transpose(l, dim0, dim1).Some? <==>
            if p == q || (p != n - 1 && q != n - 1) then LeadingOnes(l) else n == 2
  {
    var n := l.Dims();
    var p, q := AxisOf(dim0, n), AxisOf(dim1, n);
    var perm := ExchangeOf(n, p, q);
    SwappedIs(dim0, dim1, n);
    ExchangeIsPermutation(n, p, q);
    if perm[n - 1] != n - 1 && n == 2 {
      assert perm == [1, 0];
    }
  }

  // ---- Indexing

  /** How many axes of the result lie in front of axis i. */
  function KeptBefore(sels: seq<Sel>, i: nat): nat
    requires i <= |sels|
  {
    if i == 0 then 0 else KeptBefore(sels, i - 1) + if sels[i - 1].Many? then 1 else 0
  }

  lemma {:induction false} KeptBeforeShifts(sels: seq<Sel>, i: nat)
    requires i < |sels|
    ensures KeptBefore(sels, i + 1) == (if sels[0].Many? then 1 else 0) + KeptBefore(sels[1..], i)
  {
    if i > 0 {
      KeptBeforeShifts(sels, i - 1);
      assert sels[1..][i - 1] == sels[i];
    }
  }

  lemma {:induction false} KeptAreAxes(sels: seq<Sel>)
    ensures |PickShape(sels)| == KeptBefore(sels, |sels|)
  {
    if sels != [] {
      KeptAreAxes(sels[1..]);
      KeptBeforeShifts(sels, |sels| - 1);
    }
  }

  /** Axis i of the picked tensor: a fixed position, or the start plus as many steps as the index says; and an axis of
      the result has as many positions as its progression. */
  lemma {:induction false} PickedAxis(sels: seq<Sel>, ix: seq<nat>, i: nat)
    requires |ix| == |PickShape(sels)| && i < |sels|
    ensures sels[i].One? ==> PickIndex(sels, ix)[i] == sels[i].i
    ensures sels[i].Many? ==>
              var k := KeptBefore(sels, i);
              k < |ix| && PickShape(sels)[k] == sels[i].count &&
                  PickIndex(sels, ix)[i] == sels[i].start + ix[k] * sels[i].step
  {
    var rest := RestOfIndex(sels[0], ix);
    if i > 0 {
      KeptBeforeShifts(sels, i - 1);
      PickedAxis(sels[1..], rest, i - 1);
      assert sels[1..][i - 1] == sels[i];
    }
  }

  /** A bound of a slice, as Python takes it: missing, counted from the end, or cut to the axis. */
  predicate IsBound(b: Option<int>, default: nat, n: nat, r: nat) {
    && (b.None? ==> r == default)
    && (b.Some? && b.value >= n ==> r == n)
    && (b.Some? && 0 <= b.value < n ==> r == b.value)
    && (b.Some? && b.value < 0 <= b.value + n ==> r == b.value + n)
    && (b.Some? && b.value + n < 0 ==> r == 0)
  }

  /** A position: in range from either end, and then that one. */
  lemma ResolvedPosition(j: int, n: nat)
    ensures Resolve(At(j), n) == if IsAxis(j, n) then Some(One(AxisOf(j, n))) else None
  {
  }

  /** A slice: from its first bound on, every step-th position in front of its second bound. */
  lemma {:induction false} ResolvedSlice(start: Option<int>, stop: Option<int>, step: nat, n: nat, lo: nat, hi: nat)
    requires IsBound(start, 0, n, lo) && IsBound(stop, n, n, hi)
    ensures var r := Resolve(Slice(start, stop, step), n);
            if step == 0 then r.None?
            else
              && r.Some? && r.value.Many? && (r.value.count > 0 ==> r.value.start == lo) && r.value.step == step
              && (forall x: nat :: x < r.value.count <==> lo + x * step < hi)
  {
    if step > 0 {
      assert Bound(start, 0, n) == lo && Bound(stop, n, n) == hi;
      var count := if hi <= lo then 0 else (hi - lo + step - 1) / step;
      forall x: nat
        ensures x < count <==> lo + x * step < hi
      {
        if hi > lo {
          CountOfSteps(hi - lo, step, x);
        } else {
          MulMonotone(0, x, step);
        }
      }
    }
  }

  lemma {:induction false} CountOfSteps(length: nat, step: nat, x: nat)
    requires length > 0 && step > 0
    ensures x < (length + step - 1) / step <==> x * step < length
  {
    var y := length + step - 1;
    var count := y / step;
    assert y == count * step + y % step;
    if x < count {
      MulMonotone(x + 1, count, step);
      assert (x + 1) * step == x * step + step;
    } else {
      MulMonotone(count, x, step);
    }
  }

  // ---- Row-major order

  /** The order in which the last axis moves first. */
  predicate InFront(ix: seq<nat>, jx: seq<nat>)
    requires |ix| == |jx|
  {
    ix != [] && (ix[0] < jx[0] || (ix[0] == jx[0] && InFront(ix[1..], jx[1..])))
  }

  lemma {:induction false} InFrontAtTheEnd(ix: seq<nat>, jx: seq<nat>)
    requires |ix| == |jx| > 0
    ensures var n := |ix| - 1;
            InFront(ix, jx) <==> InFront(ix[..n], jx[..n]) || (ix[..n] == jx[..n] && ix[n] < jx[n])
  {
    var n := |ix| - 1;
    if n > 0 {
      InFrontAtTheEnd(ix[1..], jx[1..]);
      assert ix[1..][..n - 1] == ix[..n][1..] && jx[1..][..n - 1] == jx[..n][1..];
      assert ix[..n] == [ix[0]] + ix[..n][1..] && jx[..n] == [jx[0]] + jx[..n][1..];
    } else {
      assert ix[..0] == [] && jx[..0] == [];
    }
  }

  /** The flat positions of a tensor follow that order, and are those in front of the number of its elements. */
  lemma {:induction false} FlatIsRowMajor(shape: seq<nat>, ix: seq<nat>, jx: seq<nat>)
    requires InShape(shape, ix) && InShape(shape, jx) && InFront(ix, jx)
    ensures Flat(shape, ix) < Flat(shape, jx) < Prod(shape)
  {
    FlatInRange(shape, jx);
    var n := |shape| - 1;
    InFrontAtTheEnd(ix, jx);
    var s, m := shape[..n], shape[n];
    if InFront(ix[..n], jx[..n]) {
      FlatIsRowMajor(s, ix[..n], jx[..n]);
      RowInFront(Flat(s, ix[..n]), Flat(s, jx[..n]), m, ix[n], jx[n]);
    }
  }

  lemma RowInFront(f: nat, g: nat, m: nat, i: nat, j: nat)
    requires f < g && i < m
    ensures f * m + i < g * m + j
  {
    MulMonotone(f + 1, g, m);
    assert (f + 1) * m == f * m + m;
  }

  lemma {:induction false} UnflatIsThere(shape: seq<nat>, f: nat)
    requires f < Prod(shape)
    ensures InShape(shape, Unflat(shape, f)) && Flat(shape, Unflat(shape, f)) == f
  {
    UnflatInShape(shape, f);
    if shape != [] {
      var n, s := shape[|shape| - 1], shape[..|shape| - 1];
      QuotientInRange(f, n, Prod(s));
      UnflatIsThere(s, f / n);
      var u := Unflat(s, f / n);
      assert (u + [f % n])[..|u|] == u;
      assert f == (f / n) * n + f % n;
    }
  }

  /** A reshape keeps the number of elements and the flat position of every element. */
  lemma ReshapedAt(t: Tensor, shape: seq<nat>, ix: seq<nat>) returns (jx: seq<nat>)
    requires ReshapeTo(t, shape).Some? && InShape(shape, ix)
    ensures Prod(shape) == Prod(t.shape) && ReshapeTo(t, shape).value.shape == shape
    ensures InShape(t.shape, jx) && Flat(t.shape, jx) == Flat(shape, ix) && ReshapeTo(t, shape).value.at(ix) == t.at(jx)
  {
    FlatInRange(shape, ix);
    UnflatIsThere(t.shape, Flat(shape, ix));
    jx := Unflat(t.shape, Flat(shape, ix));
  }

  lemma {:induction false} ProdWithOne(shape: seq<nat>, i: nat, n: nat)
    requires i < |shape| && shape[i] == 1
    ensures Prod(shape[i := n]) == Prod(shape) * n
  {
    var last := |shape| - 1;
    var with := shape[i := n];
    if i < last {
      ProdWithOne(shape[..last], i, n);
      assert with[..last] == shape[..last][i := n] && with[last] == shape[last];
      FactorsInAnyOrder(Prod(shape[..last]), n, shape[last]);
    } else {
      assert with[..last] == shape[..last];
    }
  }

  lemma FactorsInAnyOrder(p: nat, n: nat, m: nat)
    ensures (p * n) * m == (p * m) * n
  {
  }

  /** Lengths that are given are kept, and a single -1 becomes the length that the number of elements needs. */
  lemma ExpandedDims(dims: seq<int>, elements: nat, i: nat)
    requires ExpandDims(dims, elements).Some?
    ensures var r := ExpandDims(dims, elements).value;
            && |r| == |dims|
            && (forall k :: 0 <= k < |dims| && dims[k] >= 0 ==> r[k] == dims[k])
            && (i < |dims| && dims[i] == -1 && (forall k :: 0 <= k < |dims| && k != i ==> dims[k] >= 0) ==>
                Prod(r) == elements)
  {
    var r := ExpandDims(dims, elements).value;
    if i < |dims| && dims[i] == -1 && (forall k :: 0 <= k < |dims| && k != i ==> dims[k] >= 0) {
      var known := seq(|dims|, k requires 0 <= k < |dims| => if dims[k] < 0 then 1 else dims[k]);
      assert r == known[i := elements / Prod(known)];
      ProdWithOne(known, i, elements / Prod(known));
    }
  }

  // ---- Joining

  lemma StackedAt(ts: seq<Tensor>, i: nat, ix: seq<nat>)
    requires Stack(ts).Some? && i < |ts|
    ensures Stack(ts).value.shape == [|ts|] + ts[i].shape && Stack(ts).value.at([i] + ix) == ts[i].at(ix)
  {
    assert ([i] + ix)[1..] == ix;
  }

  function LengthsBefore(dims: seq<nat>, i: nat): nat
    requires i <= |dims|
  {
    if i == 0 then 0 else LengthsBefore(dims, i - 1) + dims[i - 1]
  }

  lemma {:induction false} LengthsShift(dims: seq<nat>, i: nat)
    requires i < |dims|
    ensures LengthsBefore(dims, i + 1) == dims[0] + LengthsBefore(dims[1..], i)
  {
    if i > 0 {
      LengthsShift(dims, i - 1);
      assert dims[1..][i - 1] == dims[i];
    }
  }

  lemma {:induction false} LocatedPart(dims: seq<nat>, i: nat, y: nat)
    requires i < |dims| && y < dims[i]
    ensures LengthsBefore(dims, i) + y < Total(dims) && Locate(dims, LengthsBefore(dims, i) + y) == (i, y)
  {
    if i > 0 {
      LengthsShift(dims, i - 1);
      assert dims[1..][i - 1] == dims[i];
      LocatedPart(dims[1..], i - 1, y);
    }
  }

  /** Concatenated along the first axis, an operand stands behind all positions of the earlier ones. */
  lemma ConcatenatedAt(ts: seq<Tensor>, i: nat, y: nat, ix: seq<nat>)
    requires Cat(ts).Some? && i < |ts|
    ensures Joinable(ts) && Cat(ts).value.shape[0] == LengthsBefore(FirstDims(ts), |ts|)
    ensures Cat(ts).value.shape[1..] == ts[i].shape[1..]
    ensures y < ts[i].shape[0] ==>
              Cat(ts).value.at([LengthsBefore(FirstDims(ts), i) + y] + ix) == ts[i].at([y] + ix)
  {
    hide CatAt;
    var dims := FirstDims(ts);
    TotalIsAll(dims);
    if y < ts[i].shape[0] {
      PartIsAt(ts, i, y, ix);
    }
  }

  lemma PartIsAt(ts: seq<Tensor>, i: nat, y: nat, ix: seq<nat>)
    requires Joinable(ts) && i < |ts| && y < ts[i].shape[0]
    ensures CatAt(ts, [LengthsBefore(FirstDims(ts), i) + y] + ix) == ts[i].at([y] + ix)
  {
    hide Locate;
    hide LengthsBefore;
    hide Total;
    var dims := FirstDims(ts);
    LocatedPart(dims, i, y);
    var jx := [LengthsBefore(dims, i) + y] + ix;
    assert jx[1..] == ix && jx[0] == LengthsBefore(dims, i) + y;
  }

  lemma {:induction false} TotalIsAll(dims: seq<nat>)
    ensures Total(dims) == LengthsBefore(dims, |dims|)
  {
    if dims != [] {
      TotalIsAll(dims[1..]);
      LengthsShift(dims, |dims| - 1);
    }
  }

  // ---- The product of the factors

  lemma {:induction false} SumOfOne(n: nat, k: nat, f: nat -> real)
    requires k < n && forall i :: 0 <= i < n && i != k ==> f(i) == 0.0
    ensures Sum(n, f) == f(k)
  {
    if k == n - 1 {
      SumOfNone(n - 1, f);
    } else {
      SumOfOne(n - 1, k, f);
    }
  }

  lemma {:induction false} SumOfNone(n: nat, f: nat -> real)
    requires forall i :: 0 <= i < n ==> f(i) == 0.0
    ensures Sum(n, f) == 0.0
  {
    if n > 0 {
      SumOfNone(n - 1, f);
    }
  }

  lemma {:induction false} SumOfBoth(n: nat, f: nat -> real, g: nat -> real, h: nat -> real)
    requires forall i :: 0 <= i < n ==> h(i) == f(i) + g(i)
    ensures Sum(n, h) == Sum(n, f) + Sum(n, g)
  {
    if n > 0 {
      SumOfBoth(n - 1, f, g, h);
    }
  }

  /** With a unit matrix for A the product is B... */
  lemma UnitA(l: Lora, ix: seq<nat>)
    requires Fits(l) && InShape(l.b.shape, ix) && l.a.shape[l.Dims() - 1] == l.Rank()
    requires forall jx :: |jx| == l.Dims() ==>
      l.a.at(jx) == if jx[l.Dims() - 2] == jx[l.Dims() - 1] then 1.0 else 0.0
    ensures Dense(l).shape == l.b.shape && Dense(l).at(ix) == l.b.at(ix)
  {
    var n := l.Dims();
    var f := (k: nat) => l.b.at(IndexB(l, ix, k)) * l.a.at(IndexA(l, ix, k));
    forall k | 0 <= k < l.Rank()
      ensures f(k) == if k == ix[n - 1] then l.b.at(ix) else 0.0
    {
      var jx := IndexA(l, ix, k);
      assert |jx| == n && jx[n - 2] == k && jx[n - 1] == ix[n - 1];
      assert l.a.at(jx) == if k == ix[n - 1] then 1.0 else 0.0;
      if k == ix[n - 1] {
        assert IndexB(l, ix, k) == ix;
      }
    }
    SumOfOne(l.Rank(), ix[n - 1], f);
    assert l.Shape() == l.b.shape;
  }

  /** ... and with a unit matrix for B it is A. */
  lemma UnitB(l: Lora, ix: seq<nat>)
    requires Fits(l) && InShape(l.a.shape, ix) && l.b.shape[..l.Dims() - 1] == l.a.shape[..l.Dims() - 1]
    requires forall jx :: |jx| == l.Dims() ==>
      l.b.at(jx) == if jx[l.Dims() - 2] == jx[l.Dims() - 1] then 1.0 else 0.0
    ensures Dense(l).shape == l.a.shape && Dense(l).at(ix) == l.a.at(ix)
  {
    var n := l.Dims();
    var f := (k: nat) => l.b.at(IndexB(l, ix, k)) * l.a.at(IndexA(l, ix, k));
    assert ix[n - 2] < l.a.shape[n - 2] == l.Rank();
    forall k | 0 <= k < l.Rank()
      ensures f(k) == if k == ix[n - 2] then l.a.at(ix) else 0.0
    {
      var jx := IndexB(l, ix, k);
      assert |jx| == n && jx[n - 2] == ix[n - 2] && jx[n - 1] == k;
      assert l.b.at(jx) == if k == ix[n - 2] then 1.0 else 0.0;
      assert Broadcast(l.a.shape, ix[..n - 2]) == ix[..n - 2];
      if k == ix[n - 2] {
        assert IndexA(l, ix, k) == ix;
      }
    }
    SumOfOne(l.Rank(), ix[n - 2], f);
    assert l.Shape() == l.a.shape;
  }
}
