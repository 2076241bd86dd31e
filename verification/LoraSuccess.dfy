/** When the operations on factored tensors succeed. */
module LoraSuccess {
  import opened Text
  import opened Tensors
  import opened Lora
  import opened LoraPicks
  import LoraShapes
  import opened TensorLaws

  lemma ResolvesAll(items: seq<Item>, shape: seq<nat>)
    requires |items| == |shape|
    ensures ResolveAll(items, shape).Some? <==> forall i :: 0 <= i < |items| ==> Resolve(items[i], shape[i]).Some?
  {
    hide Resolve;
    if items != [] {
      ResolvesAll(items[1..], shape[1..]);
      if forall i :: 0 <= i < |items| ==> Resolve(items[i], shape[i]).Some? {
        forall i | 0 <= i < |items[1..]|
          ensures Resolve(items[1..][i], shape[1..][i]).Some?
        {
          assert Resolve(items[i + 1], shape[i + 1]).Some?;
        }
      }
      if ResolveAll(items, shape).Some? {
        forall i | 0 <= i < |items|
          ensures Resolve(items[i], shape[i]).Some?
        {
          if i > 0 {
            assert Resolve(items[1..][i - 1], shape[1..][i - 1]).Some?;
          }
        }
      }
    }
  }

  /** An item can be taken of an axis of length n: a position in range from either end, or a slice with a step. */
  predicate CanTake(item: Item, n: nat) {
    if item.At? then IsAxis(item.j, n) else item.step > 0
  }

  lemma Takes(item: Item, n: nat)
    ensures Resolve(item, n).Some? <==> CanTake(item, n)
  {
  }

  lemma GetsItems(t: Tensor, items: seq<Item>)
    ensures GetItem(t, items).Some? <==>
            |items| <= |t.shape| && forall i :: 0 <= i < |items| ==> CanTake(items[i], t.shape[i])
  {
    if |items| <= |t.shape| {
      var padded := Padded(items, |t.shape|);
      ResolvesAll(padded, t.shape);
      forall i | 0 <= i < |padded|
        ensures Resolve(padded[i], t.shape[i]).Some? <==> i < |items| ==> CanTake(items[i], t.shape[i])
      {
        Takes(padded[i], t.shape[i]);
      }
      hide Resolve;
      if forall i :: 0 <= i < |items| ==> CanTake(items[i], t.shape[i]) {
        assert forall i :: 0 <= i < |padded| ==> Resolve(padded[i], t.shape[i]).Some?;
      }
      if GetItem(t, items).Some? {
        forall i | 0 <= i < |items|
          ensures CanTake(items[i], t.shape[i])
        {
          assert Resolve(padded[i], t.shape[i]).Some?;
        }
      }
    }
  }

  /** A position succeeds on three axes or more, where both factors have it. */
  lemma GetsInt(l: Lora, j: int)
    requires l.Valid()
    ensures GetInt(l, j).Some? <==> l.Dims() > 2 && IsAxis(j, l.a.shape[0]) && IsAxis(j, l.b.shape[0])
  {
    GetsItems(l.a, [At(j)]);
    GetsItems(l.b, [At(j)]);
    if GetInt(l, j).None? && l.Dims() > 2 && IsAxis(j, l.a.shape[0]) && IsAxis(j, l.b.shape[0]) {
      PickedIsValid(l, [At(j)]);
    }
  }

  /** Items in front of the last two axes leave a pair of factors. */
  lemma PickedIsValid(l: Lora, items: seq<Item>)
    requires l.Valid() && |items| <= l.Dims() - 2 && GetItem(l.a, items).Some? && GetItem(l.b, items).Some?
    ensures Lora(GetItem(l.a, items).value, GetItem(l.b, items).value).Valid()
  {
    hide Resolve;
    hide GetItem;
    hide PickShape;
    var n := l.Dims();
    var sa := SelsOf(l.a, items);
    var sb := SelsOf(l.b, items);
    forall i | n - 2 <= i < n
      ensures sa[i] == FullSel(l.a.shape[i]) && sb[i] == FullSel(l.b.shape[i])
    {
      FullResolves(l.a.shape[i]);
      FullResolves(l.b.shape[i]);
      assert Padded(items, n)[i] == FULL;
    }
    SameKinds(items, sa, sb, l.a.shape, l.b.shape);
    PicksAreValid(l, sa, sb);
  }

  lemma PicksAreValid(l: Lora, sa: seq<Sel>, sb: seq<Sel>)
    requires l.Valid() && |sa| == |sb| == l.Dims() && forall i :: 0 <= i < |sa| ==> (sa[i].One? <==> sb[i].One?)
    requires sa[l.Dims() - 2] == FullSel(l.a.shape[l.Dims() - 2]) && sa[l.Dims() - 1].Many?
    requires sb[l.Dims() - 1] == FullSel(l.b.shape[l.Dims() - 1]) && sb[l.Dims() - 2].Many?
    ensures Lora(Pick(l.a, sa), Pick(l.b, sb)).Valid()
  {
    EndsOfShape(sa, l.Dims());
    EndsOfShape(sb, l.Dims());
    SameCount(sa, sb);
    hide PickShape;
  }

  lemma SameKinds(items: seq<Item>, sa: seq<Sel>, sb: seq<Sel>, shapeA: seq<nat>, shapeB: seq<nat>)
    requires |items| <= |sa| == |sb| == |shapeA| == |shapeB|
    requires forall i :: 0 <= i < |sa| ==> Resolve(Padded(items, |sa|)[i], shapeA[i]) == Some(sa[i])
    requires forall i :: 0 <= i < |sb| ==> Resolve(Padded(items, |sb|)[i], shapeB[i]) == Some(sb[i])
    ensures forall i :: 0 <= i < |sa| ==> (sa[i].One? <==> sb[i].One?)
  {
    forall i | 0 <= i < |sa|
      ensures sa[i].One? <==> sb[i].One?
    {
      assert Resolve(Padded(items, |sa|)[i], shapeA[i]) == Some(sa[i]);
      assert Resolve(Padded(items, |sb|)[i], shapeB[i]) == Some(sb[i]);
    }
  }

  lemma {:induction false} SameCount(sa: seq<Sel>, sb: seq<Sel>)
    requires |sa| == |sb| && forall i :: 0 <= i < |sa| ==> (sa[i].One? <==> sb[i].One?)
    ensures |PickShape(sa)| == |PickShape(sb)|
  {
    if sa != [] {
      assert sa[0].One? <==> sb[0].One?;
      SameCount(sa[1..], sb[1..]);
    }
  }

  lemma EndsOfShape(sels: seq<Sel>, n: nat)
    requires |sels| == n >= 2 && sels[n - 2].Many? && sels[n - 1].Many?
    ensures var shape := PickShape(sels);
            |shape| >= 2 && shape[|shape| - 2] == sels[n - 2].count && shape[|shape| - 1] == sels[n - 1].count
  {
    var lead := sels[..n - 2];
    assert sels == lead + [sels[n - 2], sels[n - 1]];
    PickPair(lead, sels[n - 2], sels[n - 1], seq(|PickShape(lead)|, i => 0), 0, 0);
  }

  /** A bare slice succeeds for every step that is not zero. */
  lemma GetsSlice(l: Lora, s: Item)
    requires l.Valid() && s.Slice?
    ensures GetSlice(l, s).Some? <==> s.step > 0
  {
    GetsItems(l.a, [s]);
    GetsItems(l.b, [s]);
    if s.step > 0 {
      if l.Dims() > 2 {
        PickedIsValid(l, [s]);
      } else {
        SlicedRowsAreValid(l, s);
      }
    }
  }

  lemma SlicedRowsAreValid(l: Lora, s: Item)
    requires l.Valid() && l.Dims() == 2 && s.Slice? && GetItem(l.b, [s]).Some?
    ensures Lora(l.a, GetItem(l.b, [s]).value).Valid()
  {
    var sb := SelsOf(l.b, [s]);
    assert Padded([s], 2)[0] == s && Padded([s], 2)[1] == FULL;
    FullResolves(l.b.shape[1]);
    SliceCount(l.b.shape[0], s);
    EndsOfShape(sb, 2);
    assert sb == [] + [sb[0], sb[1]];
    PickPair([], sb[0], sb[1], [], 0, 0);
  }

  /** A tuple succeeds when the last two axes are sliced, every item can be taken of its axis, and no position is
      taken of an axis of A that has none. */
  lemma GetsTuple(l: Lora, items: seq<Item>)
    requires l.Valid()
    ensures GetTuple(l, items).Some? <==>
            && 0 < |items| <= l.Dims()
            && (var p := Padded(items, l.Dims());
                && p[l.Dims() - 2].Slice? && p[l.Dims() - 1].Slice?
                && (forall i :: 0 <= i < l.Dims() - 2 && p[i].At? ==> l.a.shape[i] > 0)
                && (forall i :: 0 <= i < l.Dims() - 1 ==> CanTake(p[i], l.b.shape[i]))
                && CanTake(p[l.Dims() - 1], l.a.shape[l.Dims() - 1]))
  {
    hide GetItem;
    hide CanTake;
    hide ItemsForA;
    if 0 < |items| <= l.Dims() {
      var n := l.Dims();
      var p := Padded(items, n);
      if p[n - 2].Slice? && p[n - 1].Slice? && forall i :: 0 <= i < n - 2 && p[i].At? ==> l.a.shape[i] > 0 {
        GetsItems(l.a, ItemsForA(l, p));
        GetsItems(l.b, p[..n - 1]);
        ItemsForATake(l, p);
        if GetItem(l.a, ItemsForA(l, p)).Some? && GetItem(l.b, p[..n - 1]).Some? {
          TuplePickIsValid(l, p);
        }
      }
    }
  }

  lemma ItemsForATake(l: Lora, p: seq<Item>)
    requires l.Valid() && |p| == l.Dims() && forall i :: 0 <= i < l.Dims() - 2 && p[i].At? ==> l.a.shape[i] > 0
    ensures (forall i :: 0 <= i < l.Dims() ==> CanTake(ItemsForA(l, p)[i], l.a.shape[i])) <==>
            CanTake(p[l.Dims() - 1], l.a.shape[l.Dims() - 1])
    ensures (forall i :: 0 <= i < l.Dims() - 1 ==> CanTake(p[..l.Dims() - 1][i], l.b.shape[i])) <==>
            (forall i :: 0 <= i < l.Dims() - 1 ==> CanTake(p[i], l.b.shape[i]))
  {
    var n := l.Dims();
    assert ItemsForA(l, p)[n - 1] == p[n - 1];
    forall i | 0 <= i < n - 1
      ensures CanTake(ItemsForA(l, p)[i], l.a.shape[i])
    {
    }
  }

  lemma TuplePickIsValid(l: Lora, p: seq<Item>)
    requires l.Valid() && |p| == l.Dims() && p[l.Dims() - 2].Slice? && p[l.Dims() - 1].Slice?
    requires forall i :: 0 <= i < l.Dims() - 2 && p[i].At? ==> l.a.shape[i] > 0
    requires GetItem(l.a, ItemsForA(l, p)).Some? && GetItem(l.b, p[..l.Dims() - 1]).Some?
    ensures Lora(GetItem(l.a, ItemsForA(l, p)).value, GetItem(l.b, p[..l.Dims() - 1]).value).Valid()
  {
    hide Resolve;
    hide GetItem;
    hide PickShape;
    var n := l.Dims();
    var itemsA, itemsB := ItemsForA(l, p), p[..n - 1];
    var sa := SelsOf(l.a, itemsA);
    var sb := SelsOf(l.b, itemsB);
    assert Padded(itemsA, n) == itemsA && Padded(itemsB, n) == itemsB + [FULL];
    FullResolves(l.a.shape[n - 2]);
    FullResolves(l.b.shape[n - 1]);
    forall i | 0 <= i < n
      ensures sa[i].One? <==> sb[i].One?
    {
      KindOf(itemsA[i], l.a.shape[i]);
      KindOf(Padded(itemsB, n)[i], l.b.shape[i]);
    }
    KindOf(p[n - 1], l.a.shape[n - 1]);
    KindOf(p[n - 2], l.b.shape[n - 2]);
    PicksAreValid(l, sa, sb);
  }

  lemma KindOf(item: Item, n: nat)
    ensures Resolve(item, n).Some? ==> (Resolve(item, n).value.One? <==> item.At?)
  {
  }

  /** A reshape succeeds when it names two axes or more, keeps the last one, and each factor has the right number of
      elements for its part. */
  lemma Reshapes(l: Lora, dims: seq<int>)
    requires l.Valid()
    ensures Reshape(l, dims).Some? <==>
            && |dims| >= 2 && ExpandDims(dims, Prod(l.Shape())).Some?
            && var shape, n := ExpandDims(dims, Prod(l.Shape())).value, l.Shape()[l.Dims() - 1];
               && shape[|shape| - 1] == n
               && Prod(l.a.shape) == l.Rank() * n && Prod(l.b.shape) == Prod(shape[..|shape| - 1]) * l.Rank()
  {
    var expanded := ExpandDims(dims, Prod(l.Shape()));
    if |dims| >= 2 && expanded.Some? {
      var shape, n := expanded.value, l.Shape()[l.Dims() - 1];
      ProdLast(shape[..|shape| - 1], l.Rank());
      assert Ones(|shape| - 2) + [l.Rank(), n] == (Ones(|shape| - 2) + [l.Rank()]) + [n];
      ProdLast(Ones(|shape| - 2) + [l.Rank()], n);
      ProdLast(Ones(|shape| - 2), l.Rank());
      LoraShapes.ProdOnes(|shape| - 2);
    }
  }

  /** The axes that a permutation names, counted from the front. */
  function AxesFromFront(dims: seq<int>, n: nat): (r: seq<nat>)
    requires forall i :: 0 <= i < |dims| ==> IsAxis(dims[i], n)
    ensures |r| == |dims|
  {
    seq(|dims|, i requires 0 <= i < |dims| => AxisOf(dims[i], n))
  }

  /** A permutation succeeds when it names every axis once, leaves the last one alone and A has nothing to permute; and
      for the transposition of a matrix. */
  lemma Permutes(l: Lora, dims: seq<int>)
    requires l.Valid()
    ensures Permute(l, dims).Some? <==>
            && |dims| == l.Dims() && (forall i :: 0 <= i < |dims| ==> IsAxis(dims[i], l.Dims()))
            && var axes := AxesFromFront(dims, l.Dims());
               AreDistinct(axes) && if axes[l.Dims() - 1] == l.Dims() - 1 then LeadingOnes(l) else l.Dims() == 2
  {
    var n := l.Dims();
    if |dims| == n && forall i :: 0 <= i < |dims| ==> IsAxis(dims[i], n) {
      var axes := AxesFromFront(dims, n);
      assert Axes(dims, n).value == axes;
      PermutesExactly(axes);
      hide IsPermutation;
      hide AreDistinct;
      if n == 2 && axes[1] != 1 {
        MatrixOrder(axes);
      }
    }
  }

  lemma MatrixOrder(axes: seq<nat>)
    requires |axes| == 2 && AreBelow(axes, 2) && axes[1] != 1
    ensures IsPermutation(axes) <==> axes == [1, 0]
    ensures AreDistinct(axes) <==> axes == [1, 0]
  {
    PermutesExactly(axes);
  }

  /** Tensors can be stacked if there is one, and all have the factors' shapes of the first. */
  lemma Stacks(ls: seq<Lora>)
    requires forall i :: 0 <= i < |ls| ==> ls[i].Valid()
    ensures StackAll(ls).Some? <==>
            ls != [] && forall i :: 0 <= i < |ls| ==> ls[i].a.shape == ls[0].a.shape && ls[i].b.shape == ls[0].b.shape
  {
    if ls != [] {
      assert forall i :: 0 <= i < |ls| ==>
          FactorsA(ls)[i].shape == ls[i].a.shape && FactorsB(ls)[i].shape == ls[i].b.shape;
    }
    if ls != [] && forall i :: 0 <= i < |ls| ==> ls[i].a.shape == ls[0].a.shape && ls[i].b.shape == ls[0].b.shape {
      assert SameShapes(FactorsA(ls)) && SameShapes(FactorsB(ls));
    }
    if StackAll(ls).Some? {
      forall i | 0 <= i < |ls|
        ensures ls[i].a.shape == ls[0].a.shape && ls[i].b.shape == ls[0].b.shape
      {
        assert FactorsA(ls)[i].shape == FactorsA(ls)[0].shape && FactorsB(ls)[i].shape == FactorsB(ls)[0].shape;
      }
    }
  }

  /** Tensors can be concatenated if there is one, and the shapes agree behind the first axis, of B and on three axes or
      more of A; matrices need one and the same A. */
  lemma Concatenates(ls: seq<Lora>)
    requires forall i :: 0 <= i < |ls| ==> ls[i].Valid()
    ensures CatAll(ls).Some? <==>
            && ls != [] && (forall i :: 0 <= i < |ls| ==> ls[i].b.shape[1..] == ls[0].b.shape[1..])
            && (if ls[0].Dims() > 2 then forall i :: 0 <= i < |ls| ==> ls[i].a.shape[1..] == ls[0].a.shape[1..]
                else SharedA(ls))
  {
    hide Total;
    hide SharedA;
    hide CatAt;
    if ls != [] {
      JoinableFactors(ls);
    }
    hide Joinable;
  }

  lemma JoinableFactors(ls: seq<Lora>)
    requires ls != [] && forall i :: 0 <= i < |ls| ==> |ls[i].a.shape| >= 2 && |ls[i].b.shape| >= 2
    ensures Joinable(FactorsA(ls)) <==> forall i :: 0 <= i < |ls| ==> ls[i].a.shape[1..] == ls[0].a.shape[1..]
    ensures Joinable(FactorsB(ls)) <==> forall i :: 0 <= i < |ls| ==> ls[i].b.shape[1..] == ls[0].b.shape[1..]
  {
    assert forall i :: 0 <= i < |ls| ==>
        FactorsA(ls)[i].shape == ls[i].a.shape && FactorsB(ls)[i].shape == ls[i].b.shape;
  }
}
