/** Tensors by index, over the reals, and the PyTorch operations that the LoRA converter applies to them. */
module Tensors {
  import opened Text

  datatype Tensor = Tensor(shape: seq<nat>, at: seq<nat> -> real)

  predicate InShape(shape: seq<nat>, ix: seq<nat>) {
    |ix| == |shape| && forall i :: 0 <= i < |shape| ==> ix[i] < shape[i]
  }

  /** Equal shapes and equal elements. */
  ghost predicate Same(a: Tensor, b: Tensor) {
    a.shape == b.shape && forall ix :: InShape(a.shape, ix) ==> a.at(ix) == b.at(ix)
  }

  // ---- Indexing

  /** An item of an index: a position, or a slice with a positive step. */
  datatype Item = At(j: int) | Slice(start: Option<int>, stop: Option<int>, step: nat)

  const FULL := Slice(None, None, 1)

  /** The positions of an axis that an item picks: one, which drops the axis, or a progression. */
  datatype Sel = One(i: nat) | Many(start: nat, count: nat, step: nat)

  function StepTo(start: nat, step: nat, x: nat): nat {
    start + x * step
  }

  ghost predicate SelWithin(sel: Sel, n: nat) {
    match sel
    case One(j) => j < n
    case Many(start, count, step) => forall x: nat :: x < count ==> StepTo(start, step, x) < n
  }

  /** A slice bound as Python resolves it against an axis of length n. */
  function Bound(b: Option<int>, default: nat, n: nat): (r: nat)
    requires default <= n
    ensures r <= n
  {
    if b.None? then default
    else if b.value + n < 0 then 0
    else if b.value < 0 then b.value + n
    else if b.value <= n then b.value else n
  }

  function Resolve(item: Item, n: nat): (r: Option<Sel>)
    ensures r.Some? ==> SelWithin(r.value, n)
  {
    match item
    case At(j) => if 0 <= j + n && j < n then Some(One(if j < 0 then j + n else j)) else None
    case Slice(start, stop, step) =>
      if step == 0 then None
      else
        var lo, hi := Bound(start, 0, n), Bound(stop, n, n);
        if hi <= lo then Some(Many(lo, 0, step))
        else
          var count := (hi - lo + step - 1) / step;
          ProgressionFits(lo, hi, step);
          Some(Many(lo, count, step))
  }

  lemma {:induction false} ProgressionFits(lo: nat, hi: nat, step: nat)
    requires lo < hi && step > 0
    ensures forall x: nat :: x < (hi - lo + step - 1) / step ==> StepTo(lo, step, x) < hi
  {
    var count := (hi - lo + step - 1) / step;
    forall x: nat | x < count
      ensures StepTo(lo, step, x) < hi
    {
      assert x + 1 <= count;
      assert (x + 1) * step <= count * step by { MulMonotone(x + 1, count, step); }
      assert count * step <= hi - lo + step - 1;
      assert (x + 1) * step == x * step + step;
    }
  }

  lemma MulMonotone(x: int, y: int, z: nat)
    requires x <= y
    ensures x * z <= y * z
  {
  }

  function ResolveAll(items: seq<Item>, shape: seq<nat>): (r: Option<seq<Sel>>)
    requires |items| == |shape|
    ensures r.Some? ==> |r.value| == |items|
    ensures r.Some? ==> forall i :: 0 <= i < |items| ==> Resolve(items[i], shape[i]) == Some(r.value[i])
  {
    if items == [] then Some([])
    else
      var first, rest := Resolve(items[0], shape[0]), ResolveAll(items[1..], shape[1..]);
      if first.None? || rest.None? then None else Some([first.value] + rest.value)
  }

  function PickShape(sels: seq<Sel>): seq<nat> {
    if sels == [] then []
    else (if sels[0].One? then [] else [sels[0].count]) + PickShape(sels[1..])
  }

  /** The position on the first axis, and what is left of the index for the other axes. */
  function FirstPosition(sel: Sel, ix: seq<nat>): nat {
    match sel
    case One(i) => i
    case Many(start, _, step) => if ix == [] then start else StepTo(start, step, ix[0])
  }

  function RestOfIndex(sel: Sel, ix: seq<nat>): seq<nat> {
    if sel.One? || ix == [] then ix else ix[1..]
  }

  /** The index that an index of the result stands for. */
  function PickIndex(sels: seq<Sel>, ix: seq<nat>): (r: seq<nat>)
    ensures |r| == |sels|
  {
    if sels == [] then []
    else [FirstPosition(sels[0], ix)] + PickIndex(sels[1..], RestOfIndex(sels[0], ix))
  }

  function Pick(t: Tensor, sels: seq<Sel>): Tensor {
    Tensor(PickShape(sels), ix => t.at(PickIndex(sels, ix)))
  }

  /** Missing items are full slices. */
  function Padded(items: seq<Item>, n: nat): (r: seq<Item>)
    requires |items| <= n
    ensures |r| == n
  {
    items + seq(n - |items|, i => FULL)
  }

  function GetItem(t: Tensor, items: seq<Item>): Option<Tensor> {
    if |items| > |t.shape| then None
    else
      var sels := ResolveAll(Padded(items, |t.shape|), t.shape);
      if sels.None? then None else Some(Pick(t, sels.value))
  }

  ghost predicate Within(sels: seq<Sel>, shape: seq<nat>) {
    |sels| == |shape| && forall i :: 0 <= i < |sels| ==> SelWithin(sels[i], shape[i])
  }

  lemma {:induction false} PickIndexInShape(sels: seq<Sel>, shape: seq<nat>, ix: seq<nat>)
    requires Within(sels, shape) && InShape(PickShape(sels), ix)
    ensures InShape(shape, PickIndex(sels, ix))
  {
    if sels != [] {
      var rest := if sels[0].One? then ix else ix[1..];
      assert SelWithin(sels[0], shape[0]);
      forall i | 0 <= i < |sels[1..]|
        ensures SelWithin(sels[1..][i], shape[1..][i])
      {
        assert SelWithin(sels[i + 1], shape[i + 1]);
      }
      assert Within(sels[1..], shape[1..]);
      if sels[0].Many? {
        assert PickShape(sels) == [sels[0].count] + PickShape(sels[1..]);
        assert ix[0] < sels[0].count;
        forall i | 0 <= i < |rest|
          ensures rest[i] < PickShape(sels[1..])[i]
        {
          assert ix[i + 1] < PickShape(sels)[i + 1];
        }
      }
      PickIndexInShape(sels[1..], shape[1..], rest);
    }
  }

  lemma {:induction false} PickIndexAppends(s1: seq<Sel>, s2: seq<Sel>, x1: seq<nat>, x2: seq<nat>)
    requires |x1| == |PickShape(s1)|
    ensures PickIndex(s1 + s2, x1 + x2) == PickIndex(s1, x1) + PickIndex(s2, x2)
  {
    if s1 == [] {
      assert s1 + s2 == s2 && x1 + x2 == x2;
    } else {
      var rest := RestOfIndex(s1[0], x1);
      assert (s1 + s2)[0] == s1[0] && (s1 + s2)[1..] == s1[1..] + s2;
      assert FirstPosition(s1[0], x1 + x2) == FirstPosition(s1[0], x1) && RestOfIndex(s1[0], x1 + x2) == rest + x2 by {
        if s1[0].Many? {
          assert (x1 + x2)[0] == x1[0] && (x1 + x2)[1..] == x1[1..] + x2;
        }
      }
      PickIndexAppends(s1[1..], s2, rest, x2);
    }
  }

  lemma {:induction false} PickShapeAppends(s1: seq<Sel>, s2: seq<Sel>)
    ensures PickShape(s1 + s2) == PickShape(s1) + PickShape(s2)
  {
    if s1 == [] {
      assert s1 + s2 == s2;
    } else {
      assert (s1 + s2)[1..] == s1[1..] + s2;
      PickShapeAppends(s1[1..], s2);
    }
  }

  // ---- Row-major order and reshaping

  function Prod(shape: seq<nat>): nat {
    if shape == [] then 1 else Prod(shape[..|shape| - 1]) * shape[|shape| - 1]
  }

  function Flat(shape: seq<nat>, ix: seq<nat>): nat
    requires |ix| == |shape|
  {
    if shape == [] then 0
    else Flat(shape[..|shape| - 1], ix[..|ix| - 1]) * shape[|shape| - 1] + ix[|ix| - 1]
  }

  function Unflat(shape: seq<nat>, f: nat): (r: seq<nat>)
    ensures |r| == |shape|
  {
    if shape == [] then []
    else
      var n := shape[|shape| - 1];
      if n == 0 then Unflat(shape[..|shape| - 1], 0) + [0]
      else Unflat(shape[..|shape| - 1], f / n) + [f % n]
  }

  function ReshapeTo(t: Tensor, shape: seq<nat>): Option<Tensor> {
    if Prod(shape) != Prod(t.shape) then None
    else Some(Tensor(shape, ix => if |ix| == |shape| then t.at(Unflat(t.shape, Flat(shape, ix))) else 0.0))
  }

  lemma {:induction false} FlatInRange(shape: seq<nat>, ix: seq<nat>)
    requires InShape(shape, ix)
    ensures Flat(shape, ix) < Prod(shape)
  {
    if shape != [] {
      var n, s := shape[|shape| - 1], shape[..|shape| - 1];
      FlatInRange(s, ix[..|ix| - 1]);
      var f := Flat(s, ix[..|ix| - 1]);
      assert f + 1 <= Prod(s);
      assert (f + 1) * n <= Prod(s) * n by { MulMonotone(f + 1, Prod(s), n); }
      assert (f + 1) * n == f * n + n;
    }
  }

  lemma SmallMultiple(d: int, n: int)
    requires -n < d * n < n
    ensures d == 0
  {
    var size: nat := n;
    if d > 0 {
      MulMonotone(1, d, size);
    } else if d < 0 {
      MulMonotone(1, -d, size);
    }
  }

  /** Quotient and remainder are determined by what they promise. */
  lemma {:induction false} QuotientIs(x: int, n: nat, q: int, r: nat)
    requires r < n && x == q * n + r
    ensures x / n == q && x % n == r
  {
    var d := x / n - q;
    assert x == (x / n) * n + x % n;
    assert d * n == (x / n) * n - q * n;
    SmallMultiple(d, n);
  }

  /** Splitting off the last axis. */
  lemma {:induction false} UnflatLast(s: seq<nat>, f: nat, n: nat, k: nat)
    requires k < n
    ensures Unflat(s + [n], f * n + k) == Unflat(s, f) + [k]
  {
    QuotientIs(f * n + k, n, f, k);
    assert (s + [n])[..|s|] == s;
  }

  lemma FlatLast(s: seq<nat>, ix: seq<nat>, n: nat, k: nat)
    requires |ix| == |s|
    ensures Flat(s + [n], ix + [k]) == Flat(s, ix) * n + k
  {
    assert (s + [n])[..|s|] == s && (ix + [k])[..|ix|] == ix;
  }

  lemma ProdLast(s: seq<nat>, n: nat)
    ensures Prod(s + [n]) == Prod(s) * n
  {
    assert (s + [n])[..|s|] == s;
  }

  lemma CancelLess(x: int, y: int, z: nat)
    requires x * z < y * z
    ensures x < y
  {
    if y <= x {
      MulMonotone(0, x - y, z);
    }
  }

  lemma QuotientInRange(f: nat, n: nat, p: nat)
    requires f < p * n
    ensures n > 0 && f / n < p && f % n < n
  {
    assert f == (f / n) * n + f % n;
    CancelLess(f / n, p, n);
  }

  lemma {:induction false} UnflatInShape(shape: seq<nat>, f: nat)
    requires f < Prod(shape)
    ensures InShape(shape, Unflat(shape, f))
  {
    if shape != [] {
      var n, s := shape[|shape| - 1], shape[..|shape| - 1];
      QuotientInRange(f, n, Prod(s));
      UnflatInShape(s, f / n);
    }
  }

  // ---- Permuting axes

  predicate IsPermutation(perm: seq<nat>) {
    && (forall q :: 0 <= q < |perm| ==> q in perm)
    && (forall p :: 0 <= p < |perm| ==> perm[p] < |perm|)
    && (forall p, q :: 0 <= p < q < |perm| ==> perm[p] != perm[q])
  }

  function Position(perm: seq<nat>, q: nat): (p: nat)
    requires q in perm
    ensures p < |perm| && perm[p] == q
  {
    if perm[|perm| - 1] == q then |perm| - 1
    else
      assert q in perm[..|perm| - 1];
      Position(perm[..|perm| - 1], q)
  }

  function PermIndex(perm: seq<nat>, ix: seq<nat>): (r: seq<nat>)
    requires IsPermutation(perm) && |ix| == |perm|
    ensures |r| == |perm|
  {
    seq(|perm|, q requires 0 <= q < |perm| => ix[Position(perm, q)])
  }

  function PermShape(perm: seq<nat>, shape: seq<nat>): (r: seq<nat>)
    requires IsPermutation(perm) && |shape| == |perm|
    ensures |r| == |perm|
  {
    seq(|perm|, p requires 0 <= p < |perm| => shape[perm[p]])
  }

  function PermuteBy(t: Tensor, perm: seq<nat>): Option<Tensor> {
    if |perm| == |t.shape| && IsPermutation(perm) then
      Some(Tensor(PermShape(perm, t.shape), ix => if |ix| == |perm| then t.at(PermIndex(perm, ix)) else 0.0))
    else None
  }

  lemma PermIndexInShape(perm: seq<nat>, shape: seq<nat>, ix: seq<nat>)
    requires IsPermutation(perm) && |shape| == |perm| && InShape(PermShape(perm, shape), ix)
    ensures InShape(shape, PermIndex(perm, ix))
  {
    forall q | 0 <= q < |perm|
      ensures PermIndex(perm, ix)[q] < shape[q]
    {
      var p := Position(perm, q);
      assert ix[p] < PermShape(perm, shape)[p];
    }
  }

  // ---- Stacking and concatenating along the first axis

  predicate SameShapes(ts: seq<Tensor>) {
    forall i :: 0 <= i < |ts| ==> ts[i].shape == ts[0].shape
  }

  function Stack(ts: seq<Tensor>): Option<Tensor> {
    if ts == [] || !SameShapes(ts) then None
    else Some(Tensor([|ts|] + ts[0].shape, ix => if ix != [] && ix[0] < |ts| then ts[ix[0]].at(ix[1..]) else 0.0))
  }

  predicate Joinable(ts: seq<Tensor>) {
    && (forall i :: 0 <= i < |ts| ==> ts[i].shape != [])
    && (forall i :: 0 <= i < |ts| ==> ts[i].shape[1..] == ts[0].shape[1..])
  }

  function Total(dims: seq<nat>): nat {
    if dims == [] then 0 else dims[0] + Total(dims[1..])
  }

  /** The part that a position along the joined axis falls into, and the position inside it. */
  function Locate(dims: seq<nat>, x: nat): (r: (nat, nat))
    requires x < Total(dims)
    ensures r.0 < |dims| && r.1 < dims[r.0]
  {
    if x < dims[0] then (0, x)
    else
      var rest := Locate(dims[1..], x - dims[0]);
      (rest.0 + 1, rest.1)
  }

  function FirstDims(ts: seq<Tensor>): (r: seq<nat>)
    requires forall i :: 0 <= i < |ts| ==> ts[i].shape != []
    ensures |r| == |ts|
  {
    seq(|ts|, i requires 0 <= i < |ts| => ts[i].shape[0])
  }

  function CatAt(ts: seq<Tensor>, ix: seq<nat>): real
    requires Joinable(ts)
  {
    var dims := FirstDims(ts);
    if ix == [] || ix[0] >= Total(dims) then 0.0
    else
      var part := Locate(dims, ix[0]);
      ts[part.0].at([part.1] + ix[1..])
  }

  function Cat(ts: seq<Tensor>): Option<Tensor> {
    if ts == [] || !Joinable(ts) then None
    else Some(Tensor([Total(FirstDims(ts))] + ts[0].shape[1..], ix => CatAt(ts, ix)))
  }
}
