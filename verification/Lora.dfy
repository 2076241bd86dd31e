/** The factored tensors of the LoRA converter: every supported operation on the pair (A, B) means the
    same operation on the product B * A. */
module Lora {
  import opened Text
  import opened Tensors

  datatype Lora = Lora(a: Tensor, b: Tensor) {
    /** What the constructor asserts. */
    predicate Valid() {
      |a.shape| == |b.shape| && |b.shape| >= 2 && a.shape[|a.shape| - 2] == b.shape[|b.shape| - 1]
    }

    function Dims(): nat {
      |b.shape|
    }

    function Rank(): nat
      requires Valid()
    {
      b.shape[|b.shape| - 1]
    }

    function Shape(): (r: seq<nat>)
      requires Valid()
      ensures |r| == Dims()
    {
      b.shape[..Dims() - 1] + [a.shape[Dims() - 1]]
    }
  }

  function New(a: Tensor, b: Tensor): (r: Option<Lora>)
    ensures r.Some? ==> r.value.Valid() && r.value == Lora(a, b)
  {
    if Lora(a, b).Valid() then Some(Lora(a, b)) else None
  }

  /** The leading axes of A are those of B, or are broadcast. Only then is the product defined. */
  predicate Fits(l: Lora) {
    l.Valid() && forall i :: 0 <= i < l.Dims() - 2 ==> l.a.shape[i] == l.b.shape[i] || l.a.shape[i] == 1
  }

  function Sum(n: nat, f: nat -> real): real {
    if n == 0 then 0.0 else Sum(n - 1, f) + f(n - 1)
  }

  lemma {:induction false} SumsAgree(n: nat, f: nat -> real, g: nat -> real)
    requires forall k :: 0 <= k < n ==> f(k) == g(k)
    ensures Sum(n, f) == Sum(n, g)
  {
    if n > 0 {
      SumsAgree(n - 1, f, g);
    }
  }

  /** An index into the leading axes, moved to 0 where A is broadcast. */
  function Broadcast(shape: seq<nat>, ix: seq<nat>): (r: seq<nat>)
    requires |ix| <= |shape|
    ensures |r| == |ix|
  {
    seq(|ix|, i requires 0 <= i < |ix| => if shape[i] == 1 then 0 else ix[i])
  }

  function IndexA(l: Lora, ix: seq<nat>, k: nat): seq<nat>
    requires l.Valid() && |ix| == l.Dims()
  {
    Broadcast(l.a.shape, ix[..l.Dims() - 2]) + [k, ix[l.Dims() - 1]]
  }

  function IndexB(l: Lora, ix: seq<nat>, k: nat): seq<nat>
    requires l.Valid() && |ix| == l.Dims()
  {
    ix[..l.Dims() - 1] + [k]
  }

  function DenseAt(l: Lora, ix: seq<nat>): real
    requires l.Valid() && |ix| == l.Dims()
  {
    Sum(l.Rank(), (k: nat) => l.b.at(IndexB(l, ix, k)) * l.a.at(IndexA(l, ix, k)))
  }

  /** The batched matrix product B * A. */
  function Dense(l: Lora): Tensor
    requires l.Valid()
  {
    Tensor(l.Shape(), ix => if |ix| == l.Dims() then DenseAt(l, ix) else 0.0)
  }

  /** Products agree where their factors do. */
  lemma DenseAgrees(l: Lora, ix: seq<nat>, m: Lora, jx: seq<nat>)
    requires l.Valid() && m.Valid() && |ix| == l.Dims() && |jx| == m.Dims() && l.Rank() == m.Rank()
    requires forall k :: 0 <= k < l.Rank() ==>
      l.b.at(IndexB(l, ix, k)) == m.b.at(IndexB(m, jx, k)) && l.a.at(IndexA(l, ix, k)) == m.a.at(IndexA(m, jx, k))
    ensures DenseAt(l, ix) == DenseAt(m, jx)
  {
    SumsAgree(l.Rank(), (k: nat) => l.b.at(IndexB(l, ix, k)) * l.a.at(IndexA(l, ix, k)),
              (k: nat) => m.b.at(IndexB(m, jx, k)) * m.a.at(IndexA(m, jx, k)));
  }

  // ---- The operations of LoraTorchTensor

  /** `l[j]`. */
  function GetInt(l: Lora, j: int): Option<Lora>
    requires l.Valid()
  {
    if l.Dims() <= 2 then None
    else
      var a, b := GetItem(l.a, [At(j)]), GetItem(l.b, [At(j)]);
      if a.None? || b.None? then None else New(a.value, b.value)
  }

  /** `l[start:stop:step]`. */
  function GetSlice(l: Lora, s: Item): Option<Lora>
    requires l.Valid() && s.Slice?
  {
    var b := GetItem(l.b, [s]);
    if b.None? then None
    else if l.Dims() > 2 then
      var a := GetItem(l.a, [s]);
      if a.None? then None else New(a.value, b.value)
    else New(l.a, b.value)
  }

  /** The index used on A: positions are taken modulo the axis, leading slices and the row are full. */
  function ItemsForA(l: Lora, items: seq<Item>): (r: seq<Item>)
    requires l.Valid() && |items| == l.Dims()
    requires forall i :: 0 <= i < l.Dims() - 2 && items[i].At? ==> l.a.shape[i] > 0
    ensures |r| == |items|
  {
    seq(l.Dims() - 2, i requires 0 <= i < l.Dims() - 2 => if items[i].At? then At(items[i].j % l.a.shape[i]) else FULL)
    + [FULL, items[l.Dims() - 1]]
  }

  /** `l[i, j, ...]`, with slices on the last two axes. */
  function GetTuple(l: Lora, items0: seq<Item>): Option<Lora>
    requires l.Valid()
  {
    if items0 == [] || |items0| > l.Dims() then None
    else
      var items := Padded(items0, l.Dims());
      if items[l.Dims() - 2].At? || items[l.Dims() - 1].At? then None
      else if exists i :: 0 <= i < l.Dims() - 2 && items[i].At? && l.a.shape[i] == 0 then None
      else
        var a, b := GetItem(l.a, ItemsForA(l, items)), GetItem(l.b, items[..l.Dims() - 1]);
        if a.None? || b.None? then None else New(a.value, b.value)
  }

  /** Every -1 is replaced by what is missing to reach the number of elements. */
  function ExpandDims(dims: seq<int>, elements: nat): Option<seq<nat>> {
    if exists i :: 0 <= i < |dims| && dims[i] < -1 then None
    else
      var known := seq(|dims|, i requires 0 <= i < |dims| => if dims[i] < 0 then 1 else dims[i]);
      if -1 !in dims then Some(known)
      else if Prod(known) == 0 || elements % Prod(known) != 0 then None
      else
        var missing := elements / Prod(known);
        Some(seq(|dims|, i requires 0 <= i < |dims| => if dims[i] < 0 then missing else dims[i]))
  }

  function Ones(n: nat): (r: seq<nat>)
    ensures |r| == n
  {
    seq(n, i => 1)
  }

  function Reshape(l: Lora, dims: seq<int>): Option<Lora>
    requires l.Valid()
  {
    var shape := ExpandDims(dims, Prod(l.Shape()));
    if |dims| < 2 || shape.None? then None
    else
      var last := l.Shape()[l.Dims() - 1];
      if |shape.value| < 2 || shape.value[|shape.value| - 1] != last then None
      else
        var a := ReshapeTo(l.a, Ones(|shape.value| - 2) + [l.Rank(), last]);
        var b := ReshapeTo(l.b, shape.value[..|shape.value| - 1] + [l.Rank()]);
        if a.None? || b.None? then None else New(a.value, b.value)
  }

  /** Axes may be counted from the end. */
  function Axes(dims: seq<int>, n: nat): Option<seq<nat>> {
    if |dims| != n || exists p :: 0 <= p < n && !(0 <= dims[p] + n && dims[p] < n) then None
    else Some(seq(n, p requires 0 <= p < n => if dims[p] < 0 then dims[p] + n else dims[p]))
  }

  predicate LeadingOnes(l: Lora)
    requires l.Valid()
  {
    forall i :: 0 <= i < l.Dims() - 2 ==> l.a.shape[i] == 1
  }

  function Permute(l: Lora, dims: seq<int>): Option<Lora>
    requires l.Valid()
  {
    var axes := Axes(dims, l.Dims());
    if axes.None? then None
    else if axes.value[l.Dims() - 1] == l.Dims() - 1 then
      var b := PermuteBy(l.b, axes.value);
      if !LeadingOnes(l) || b.None? then None else New(l.a, b.value)
    else if l.Dims() == 2 && axes.value == [1, 0] then
      var a, b := PermuteBy(l.b, axes.value), PermuteBy(l.a, axes.value);
      if a.None? || b.None? then None else New(a.value, b.value)
    else None
  }

  function Swapped(dim0: int, dim1: int, n: nat): Option<seq<int>> {
    if !(0 <= dim0 + n && dim0 < n && 0 <= dim1 + n && dim1 < n) then None
    else
      var p, q := if dim0 < 0 then dim0 + n else dim0, if dim1 < 0 then dim1 + n else dim1;
      Some(seq(n, i => if i == p then q else if i == q then p else i))
  }

  function Transpose(l: Lora, dim0: int, dim1: int): Option<Lora>
    requires l.Valid()
  {
    var dims := Swapped(dim0, dim1, l.Dims());
    if dims.None? then None else Permute(l, dims.value)
  }

  function FactorsA(ls: seq<Lora>): (r: seq<Tensor>)
    ensures |r| == |ls|
  {
    seq(|ls|, i requires 0 <= i < |ls| => ls[i].a)
  }

  function FactorsB(ls: seq<Lora>): (r: seq<Tensor>)
    ensures |r| == |ls|
  {
    seq(|ls|, i requires 0 <= i < |ls| => ls[i].b)
  }

  /** `torch.stack` along axis 0. */
  function StackAll(ls: seq<Lora>): Option<Lora> {
    var a, b := Stack(FactorsA(ls)), Stack(FactorsB(ls));
    if a.None? || b.None? then None else New(a.value, b.value)
  }

  ghost predicate SharedA(ls: seq<Lora>) {
    forall i :: 0 <= i < |ls| ==> Same(ls[i].a, ls[0].a)
  }

  /** `torch.cat` along axis 0. */
  ghost function CatAll(ls: seq<Lora>): Option<Lora>
    requires forall i :: 0 <= i < |ls| ==> ls[i].Valid()
  {
    var b := Cat(FactorsB(ls));
    if b.None? then None
    else if ls[0].Dims() > 2 then
      var a := Cat(FactorsA(ls));
      if a.None? then None else New(a.value, b.value)
    else if SharedA(ls) then New(ls[0].a, b.value)
    else None
  }

  // ---- Picking

  /** Along a leading axis, A is picked where the product needs it, given its own broadcasting. */
  ghost predicate Aligned(lengthA: nat, sel: Sel, selA: Sel) {
    match sel
    case One(i) => selA == One(if lengthA == 1 then 0 else i)
    case Many(start, count, step) =>
      && selA.Many? && (selA.count == count || selA.count == 1)
      && forall x: nat :: x < count ==>
        (if lengthA == 1 then 0 else StepTo(start, step, x)) ==
            StepTo(selA.start, selA.step, if selA.count == 1 then 0 else x)
  }

  ghost predicate AllAligned(shapeA: seq<nat>, sels: seq<Sel>, selsA: seq<Sel>) {
    |sels| == |selsA| && |sels| <= |shapeA| && forall i :: 0 <= i < |sels| ==> Aligned(shapeA[i], sels[i], selsA[i])
  }

  lemma {:induction false} AlignedShapes(shapeA: seq<nat>, sels: seq<Sel>, selsA: seq<Sel>)
    requires AllAligned(shapeA, sels, selsA)
    ensures |PickShape(selsA)| == |PickShape(sels)|
    ensures forall i :: 0 <= i < |PickShape(sels)| ==>
        PickShape(selsA)[i] == PickShape(sels)[i] || PickShape(selsA)[i] == 1
  {
    if sels != [] {
      assert Aligned(shapeA[0], sels[0], selsA[0]);
      assert AllAligned(shapeA[1..], sels[1..], selsA[1..]);
      AlignedShapes(shapeA[1..], sels[1..], selsA[1..]);
    }
  }

  lemma RestInShape(sels: seq<Sel>, ix: seq<nat>)
    requires sels != [] && InShape(PickShape(sels), ix)
    ensures InShape(PickShape(sels[1..]), RestOfIndex(sels[0], ix))
    ensures sels[0].Many? ==> ix != [] && ix[0] < sels[0].count
  {
    if sels[0].Many? {
      assert PickShape(sels) == [sels[0].count] + PickShape(sels[1..]);
      forall i | 0 <= i < |ix[1..]|
        ensures ix[1..][i] < PickShape(sels[1..])[i]
      {
        assert ix[i + 1] < PickShape(sels)[i + 1];
      }
    }
  }

  lemma AlignedStep(lengthA: nat, sel: Sel, selA: Sel, x: nat)
    requires Aligned(lengthA, sel, selA) && sel.Many? && x < sel.count
    ensures selA.Many?
    ensures StepTo(selA.start, selA.step, if selA.count == 1 then 0 else x) == if lengthA == 1 then 0
        else StepTo(sel.start, sel.step, x)
  {
    assert StepTo(sel.start, sel.step, x) >= 0;
  }

  lemma {:induction false} AlignedFirst(shapeA: seq<nat>, sels: seq<Sel>, selsA: seq<Sel>, ix: seq<nat>)
    requires AllAligned(shapeA, sels, selsA) && sels != [] && InShape(PickShape(sels), ix)
    requires |PickShape(selsA)| == |ix| && |PickShape(selsA[1..])| == |RestOfIndex(sels[0], ix)|
    ensures var bx := Broadcast(PickShape(selsA), ix);
            && FirstPosition(selsA[0], bx) == (if shapeA[0] == 1 then 0 else FirstPosition(sels[0], ix))
            && RestOfIndex(selsA[0], bx) == Broadcast(PickShape(selsA[1..]), RestOfIndex(sels[0], ix))
  {
    hide InShape;
    hide StepTo;
    var bx := Broadcast(PickShape(selsA), ix);
    assert Aligned(shapeA[0], sels[0], selsA[0]);
    RestInShape(sels, ix);
    if sels[0].Many? {
      AlignedStep(shapeA[0], sels[0], selsA[0], ix[0]);
      assert PickShape(selsA) == [selsA[0].count] + PickShape(selsA[1..]);
      assert bx[0] == if selsA[0].count == 1 then 0 else ix[0];
    } else {
      assert selsA[0] == One(if shapeA[0] == 1 then 0 else sels[0].i);
      assert PickShape(selsA) == PickShape(selsA[1..]);
    }
  }

  /** Broadcasting and then picking from A is picking and then broadcasting. */
  lemma {:induction false} AlignedIndices(shapeA: seq<nat>, sels: seq<Sel>, selsA: seq<Sel>, ix: seq<nat>)
    requires AllAligned(shapeA, sels, selsA) && InShape(PickShape(sels), ix)
    ensures |PickShape(selsA)| == |ix|
    ensures PickIndex(selsA, Broadcast(PickShape(selsA), ix)) == Broadcast(shapeA, PickIndex(sels, ix))
  {
    hide PickShape;
    hide InShape;
    hide FirstPosition;
    hide RestOfIndex;
    hide Aligned;
    assert |PickShape(sels)| == |ix| by { PickLength(sels, ix); }
    AlignedShapes(shapeA, sels, selsA);
    if sels != [] {
      var rest := RestOfIndex(sels[0], ix);
      RestInShape(sels, ix);
      assert AllAligned(shapeA[1..], sels[1..], selsA[1..]);
      AlignedIndices(shapeA[1..], sels[1..], selsA[1..], rest);
      AlignedFirst(shapeA, sels, selsA, ix);
      BroadcastSplits(shapeA, FirstPosition(sels[0], ix), PickIndex(sels[1..], rest));
    }
  }

  lemma PickLength(sels: seq<Sel>, ix: seq<nat>)
    requires InShape(PickShape(sels), ix)
    ensures |PickShape(sels)| == |ix|
  {
  }

  lemma BroadcastSplits(shape: seq<nat>, first: nat, rest: seq<nat>)
    requires |rest| + 1 <= |shape|
    ensures Broadcast(shape, [first] + rest) == [if shape[0] == 1 then 0 else first] + Broadcast(shape[1..], rest)
  {
  }

  function FullSel(n: nat): Sel {
    Many(0, n, 1)
  }

  lemma FullResolves(n: nat)
    ensures Resolve(FULL, n) == Some(FullSel(n))
  {
  }

  /** Two trailing selections that keep their axes. */
  lemma {:induction false} PickPair(lead: seq<Sel>, p: Sel, q: Sel, x: seq<nat>, i: nat, j: nat)
    requires p.Many? && q.Many? && |x| == |PickShape(lead)|
    ensures PickIndex(lead + [p, q], x + [i, j]) ==
        PickIndex(lead, x) + [StepTo(p.start, p.step, i), StepTo(q.start, q.step, j)]
    ensures PickShape(lead + [p, q]) == PickShape(lead) + [p.count, q.count]
  {
    PickIndexAppends(lead, [p, q], x, [i, j]);
    PickShapeAppends(lead, [p, q]);
    assert [p, q][1..] == [q] && [i, j][1..] == [j] && [q][1..] == [] && [j][1..] == [];
    assert PickIndex([q], [j]) == [StepTo(q.start, q.step, j)];
    assert PickShape([q]) == [q.count];
  }

  function PickedA(l: Lora, leadA: seq<Sel>, col: Sel): Tensor
    requires l.Valid()
  {
    Pick(l.a, leadA + [FullSel(l.Rank()), col])
  }

  function PickedB(l: Lora, lead: seq<Sel>, row: Sel): Tensor
    requires l.Valid()
  {
    Pick(l.b, lead + [row, FullSel(l.Rank())])
  }

  lemma PickedFits(l: Lora, lead: seq<Sel>, row: Sel, col: Sel, leadA: seq<Sel>)
    requires Fits(l) && |lead| == l.Dims() - 2 && row.Many? && col.Many?
    requires AllAligned(l.a.shape, lead, leadA)
    ensures var m := Lora(PickedA(l, leadA, col), PickedB(l, lead, row));
            && Fits(m) && m.Rank() == l.Rank() && m.Dims() == |PickShape(lead)| + 2
            && m.Shape() == PickShape(lead + [row, col]) == PickShape(lead) + [row.count, col.count]
            && m.a.shape[..m.Dims() - 2] == PickShape(leadA)
  {
    hide PickIndex;
    hide AllAligned;
    hide DenseAt;
    AlignedShapes(l.a.shape, lead, leadA);
    var full := FullSel(l.Rank());
    var zeros := seq(|PickShape(lead)|, i => 0);
    PickPair(lead, row, full, zeros, 0, 0);
    PickPair(lead, row, col, zeros, 0, 0);
    PickPair(leadA, full, col, zeros, 0, 0);
  }

  lemma PickedElements(l: Lora, lead: seq<Sel>, row: Sel, col: Sel, leadA: seq<Sel>, x: seq<nat>, i: nat, j: nat)
    requires Fits(l) && |lead| == l.Dims() - 2 && row.Many? && col.Many?
    requires AllAligned(l.a.shape, lead, leadA) && InShape(PickShape(lead), x)
    ensures var m := Lora(PickedA(l, leadA, col), PickedB(l, lead, row));
            && m.Valid() && m.Dims() == |x| + 2
            && |PickIndex(lead + [row, col], x + [i, j])| == l.Dims()
            && DenseAt(m, x + [i, j]) == DenseAt(l, PickIndex(lead + [row, col], x + [i, j]))
  {
    hide PickIndex;
    hide PickShape;
    hide Aligned;
    hide DenseAt;
    hide StepTo;
    PickedFits(l, lead, row, col, leadA);
    PickLength(lead, x);
    AlignedIndices(l.a.shape, lead, leadA, x);
    var m := Lora(PickedA(l, leadA, col), PickedB(l, lead, row));
    var full := FullSel(l.Rank());
    var ix := x + [i, j];
    PickPair(lead, row, col, x, i, j);
    var at := PickIndex(lead + [row, col], ix);
    var bx := Broadcast(m.a.shape, x);
    assert bx == Broadcast(PickShape(leadA), x);
    assert at[..l.Dims() - 2] == PickIndex(lead, x) &&
        at[..l.Dims() - 1] == PickIndex(lead, x) + [StepTo(row.start, row.step, i)];
    forall k | 0 <= k < l.Rank()
      ensures m.b.at(IndexB(m, ix, k)) == l.b.at(IndexB(l, at, k)) &&
          m.a.at(IndexA(m, ix, k)) == l.a.at(IndexA(l, at, k))
    {
      StepOne(k);
      PickPair(lead, row, full, x, i, k);
      assert IndexB(m, ix, k) == x + [i, k];
      assert IndexB(l, at, k) == PickIndex(lead, x) + [StepTo(row.start, row.step, i), k];
      PickPair(leadA, full, col, bx, k, j);
      assert IndexA(m, ix, k) == bx + [k, j];
    }
    DenseAgrees(m, ix, l, at);
  }

  lemma StepOne(k: nat)
    ensures StepTo(0, 1, k) == k
  {
  }

  /** Picking from both factors is picking from the product. */
  lemma PickCommutes(l: Lora, lead: seq<Sel>, row: Sel, col: Sel, leadA: seq<Sel>)
    requires Fits(l) && |lead| == l.Dims() - 2 && row.Many? && col.Many?
    requires AllAligned(l.a.shape, lead, leadA)
    ensures var m := Lora(PickedA(l, leadA, col), PickedB(l, lead, row));
            Fits(m) && Same(Dense(m), Pick(Dense(l), lead + [row, col]))
  {
    hide PickShape;
    hide PickIndex;
    hide DenseAt;
    hide Aligned;
    PickedFits(l, lead, row, col, leadA);
    var m := Lora(PickedA(l, leadA, col), PickedB(l, lead, row));
    forall ix | InShape(m.Shape(), ix)
      ensures Dense(m).at(ix) == Pick(Dense(l), lead + [row, col]).at(ix)
    {
      var x, i, j := ix[..m.Dims() - 2], ix[m.Dims() - 2], ix[m.Dims() - 1];
      assert ix == x + [i, j];
      assert InShape(PickShape(lead), x) by {
        forall p | 0 <= p < |PickShape(lead)|
          ensures x[p] < PickShape(lead)[p]
        {
          assert ix[p] < m.Shape()[p];
        }
      }
      PickedElements(l, lead, row, col, leadA, x, i, j);
    }
  }
}
