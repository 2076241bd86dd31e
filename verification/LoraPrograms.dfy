/** Every composition of the supported operations: computing with the factors means computing with the product. */
module LoraPrograms {
  import opened Text
  import opened Tensors
  import opened Lora
  import opened LoraPicks
  import opened LoraShapes
  import opened LoraJoins

  /** What a model conversion may do to factored tensors. */
  datatype Program =
    | Leaf(l: Lora)
    | Position(p: Program, j: int)
    | Sliced(p: Program, s: Item)
    | Indexed(p: Program, items: seq<Item>)
    | Reshaped(p: Program, dims: seq<int>)
    | Permuted(p: Program, dims: seq<int>)
    | Transposed(p: Program, dim0: int, dim1: int)
    | Stacked(ps: seq<Program>)
    | Joined(ps: seq<Program>)

  /** On the factors, as LoraTorchTensor does it. */
  ghost function Run(p: Program): (r: Option<Lora>)
    ensures r.Some? ==> r.value.Valid()
    decreases p, 1
  {
    match p
    case Leaf(l) => if l.Valid() then Some(l) else None
    case Stacked(ps) => var ls := RunAll(ps); if ls.None? then None else StackAll(ls.value)
    case Joined(ps) => var ls := RunAll(ps); if ls.None? then None else CatAll(ls.value)
    case Position(q, j) => var l := Run(q); if l.None? then None else GetInt(l.value, j)
    case Sliced(q, s) => var l := Run(q); if l.None? || !s.Slice? then None else GetSlice(l.value, s)
    case Indexed(q, items) => var l := Run(q); if l.None? then None else GetTuple(l.value, items)
    case Reshaped(q, dims) => var l := Run(q); if l.None? then None else Reshape(l.value, dims)
    case Permuted(q, dims) => var l := Run(q); if l.None? then None else Permute(l.value, dims)
    case Transposed(q, d0, d1) => var l := Run(q); if l.None? then None else Transpose(l.value, d0, d1)
  }

  ghost function RunAll(ps: seq<Program>): (r: Option<seq<Lora>>)
    ensures r.Some? ==> |r.value| == |ps| && forall i :: 0 <= i < |ps| ==>
        Run(ps[i]) == Some(r.value[i]) && r.value[i].Valid()
    decreases ps, 0
  {
    if ps == [] then Some([])
    else
      var first, rest := Run(ps[0]), RunAll(ps[1..]);
      if first.None? || rest.None? then None else Some([first.value] + rest.value)
  }

  /** On the products, as PyTorch does it. */
  ghost function RunDense(p: Program): Option<Tensor>
    decreases p, 1
  {
    match p
    case Leaf(l) => if l.Valid() then Some(Dense(l)) else None
    case Stacked(ps) => var ts := RunAllDense(ps); if ts.None? then None else Stack(ts.value)
    case Joined(ps) => var ts := RunAllDense(ps); if ts.None? then None else Cat(ts.value)
    case Position(q, j) => var t := RunDense(q); if t.None? then None else GetItem(t.value, [At(j)])
    case Sliced(q, s) => var t := RunDense(q); if t.None? then None else GetItem(t.value, [s])
    case Indexed(q, items) => var t := RunDense(q); if t.None? then None else GetItem(t.value, items)
    case Reshaped(q, dims) => var t := RunDense(q); if t.None? then None else DenseReshape(t.value, dims)
    case Permuted(q, dims) => var t := RunDense(q); if t.None? then None else DensePermute(t.value, dims)
    case Transposed(q, d0, d1) => var t := RunDense(q); if t.None? then None else DenseTranspose(t.value, d0, d1)
  }

  ghost function RunAllDense(ps: seq<Program>): (r: Option<seq<Tensor>>)
    ensures r.Some? ==> |r.value| == |ps| && forall i :: 0 <= i < |ps| ==> RunDense(ps[i]) == Some(r.value[i])
    decreases ps, 0
  {
    if ps == [] then Some([])
    else
      var first, rest := RunDense(ps[0]), RunAllDense(ps[1..]);
      if first.None? || rest.None? then None else Some([first.value] + rest.value)
  }

  /** The conditions, each one on the operands of a single step, under which a step stands for a product. */
  ghost predicate StepIsSound(p: Program) {
    match p
    case Leaf(l) => Fits(l)
    case Sliced(q, s) => Run(q).Some? && s.Slice? && Run(q).value.Dims() > 2 ==>
      SliceFits(Run(q).value.a.shape[0], Run(q).value.b.shape[0], s)
    case Indexed(q, items) => Run(q).Some? && |items| <= Run(q).value.Dims() ==> TupleFits(Run(q).value, items)
    case Reshaped(q, dims) => Run(q).Some? && Run(q).value.Rank() == 0 && Reshape(Run(q).value, dims).Some? ==>
      Prod(ExpandDims(dims, Prod(Run(q).value.Shape())).value) == Prod(Run(q).value.Shape())
    case Joined(ps) => RunAll(ps).Some? && ps != [] && RunAll(ps).value[0].Dims() > 2 &&
                       CatAll(RunAll(ps).value).Some? ==>
      Fits(CatAll(RunAll(ps).value).value) && OwnIsPicked(RunAll(ps).value)
    case _ => true
  }

  ghost predicate IsSound(p: Program)
    decreases p, 1
  {
    && StepIsSound(p)
    && match p
       case Leaf(_) => true
       case Stacked(ps) => AllSound(ps)
       case Joined(ps) => AllSound(ps)
       case Position(q, _) => IsSound(q)
       case Sliced(q, _) => IsSound(q)
       case Indexed(q, _) => IsSound(q)
       case Reshaped(q, _) => IsSound(q)
       case Permuted(q, _) => IsSound(q)
       case Transposed(q, _, _) => IsSound(q)
  }

  ghost predicate AllSound(ps: seq<Program>)
    decreases ps, 0
  {
    ps == [] || (IsSound(ps[0]) && AllSound(ps[1..]))
  }

  // ---- The operations respect equality of tensors

  lemma GetItemSame(t: Tensor, u: Tensor, items: seq<Item>)
    requires Same(t, u) && GetItem(t, items).Some?
    ensures GetItem(u, items).Some? && Same(GetItem(t, items).value, GetItem(u, items).value)
  {
    hide Resolve;
    hide PickIndex;
    var sels := SelsOf(t, items);
    GetItemIs(u, items, sels);
    assert Within(sels, t.shape) by {
      forall i | 0 <= i < |sels|
        ensures SelWithin(sels[i], t.shape[i])
      {
        assert Resolve(Padded(items, |t.shape|)[i], t.shape[i]) == Some(sels[i]);
      }
    }
    forall ix | InShape(PickShape(sels), ix)
      ensures t.at(PickIndex(sels, ix)) == u.at(PickIndex(sels, ix))
    {
      PickIndexInShape(sels, t.shape, ix);
    }
  }

  lemma ReshapeSame(t: Tensor, u: Tensor, dims: seq<int>)
    requires Same(t, u) && DenseReshape(t, dims).Some?
    ensures DenseReshape(u, dims).Some? && Same(DenseReshape(t, dims).value, DenseReshape(u, dims).value)
  {
    hide ExpandDims;
    hide Flat;
    hide Unflat;
    hide Prod;
    var shape := ExpandDims(dims, Prod(t.shape)).value;
    forall ix | InShape(shape, ix)
      ensures DenseReshape(t, dims).value.at(ix) == DenseReshape(u, dims).value.at(ix)
    {
      FlatInRange(shape, ix);
      UnflatInShape(t.shape, Flat(shape, ix));
    }
  }

  lemma PermuteSame(t: Tensor, u: Tensor, dims: seq<int>)
    requires Same(t, u) && DensePermute(t, dims).Some?
    ensures DensePermute(u, dims).Some? && Same(DensePermute(t, dims).value, DensePermute(u, dims).value)
  {
    hide IsPermutation;
    hide PermIndex;
    var axes := Axes(dims, |t.shape|).value;
    forall ix | InShape(PermShape(axes, t.shape), ix)
      ensures DensePermute(t, dims).value.at(ix) == DensePermute(u, dims).value.at(ix)
    {
      PermIndexInShape(axes, t.shape, ix);
    }
  }

  ghost predicate AllSame(ts: seq<Tensor>, us: seq<Tensor>) {
    |ts| == |us| && forall i :: 0 <= i < |ts| ==> Same(ts[i], us[i])
  }

  lemma StackSame(ts: seq<Tensor>, us: seq<Tensor>)
    requires AllSame(ts, us) && Stack(ts).Some?
    ensures Stack(us).Some? && Same(Stack(ts).value, Stack(us).value)
  {
    assert Same(ts[0], us[0]);
    forall i | 0 <= i < |us|
      ensures us[i].shape == us[0].shape
    {
      assert Same(ts[i], us[i]) && ts[i].shape == ts[0].shape;
    }
    forall ix | InShape(Stack(ts).value.shape, ix)
      ensures Stack(ts).value.at(ix) == Stack(us).value.at(ix)
    {
      var x := ix[0];
      assert Same(ts[x], us[x]);
      assert InShape(ts[x].shape, ix[1..]) by {
        assert ts[x].shape == ts[0].shape;
        assert forall i :: 0 <= i < |ix[1..]| ==> ix[1..][i] == ix[i + 1] < Stack(ts).value.shape[i + 1];
      }
    }
  }

  lemma CatSame(ts: seq<Tensor>, us: seq<Tensor>)
    requires AllSame(ts, us) && Cat(ts).Some?
    ensures Cat(us).Some? && Same(Cat(ts).value, Cat(us).value)
  {
    assert Same(ts[0], us[0]);
    forall i | 0 <= i < |us|
      ensures us[i].shape == ts[i].shape
    {
      assert Same(ts[i], us[i]);
    }
    assert FirstDims(us) == FirstDims(ts);
    forall ix | InShape(Cat(ts).value.shape, ix)
      ensures CatAt(ts, ix) == CatAt(us, ix)
    {
      var part := Locate(FirstDims(ts), ix[0]);
      assert Same(ts[part.0], us[part.0]);
      assert InShape(ts[part.0].shape, [part.1] + ix[1..]) by {
        assert ts[part.0].shape == [ts[part.0].shape[0]] + ts[0].shape[1..];
        assert forall i :: 0 <= i < |ix[1..]| ==> ix[1..][i] == ix[i + 1] < Cat(ts).value.shape[i + 1];
      }
    }
  }

  lemma SameTransitively(t: Tensor, u: Tensor, v: Tensor)
    requires Same(t, u) && Same(u, v)
    ensures Same(t, v)
  {
  }

  /** The factored result stands for the dense one. */
  ghost predicate Agrees(p: Program) {
    Run(p).Some? ==> Fits(Run(p).value) && RunDense(p).Some? && Same(Dense(Run(p).value), RunDense(p).value)
  }

  lemma PositionAgrees(q: Program, j: int)
    requires Agrees(q)
    ensures Agrees(Position(q, j))
  {
    hide Same;
    hide Fits;
    hide GetInt;
    hide GetItem;
    if Run(Position(q, j)).Some? {
      var l, t := Run(q).value, RunDense(q).value;
      GetIntCommutes(l, j);
      GetItemSame(Dense(l), t, [At(j)]);
      SameTransitively(Dense(GetInt(l, j).value), GetItem(Dense(l), [At(j)]).value, GetItem(t, [At(j)]).value);
    }
  }

  lemma {:induction false} SlicedAgrees(q: Program, s: Item)
    requires Agrees(q) && StepIsSound(Sliced(q, s))
    ensures Agrees(Sliced(q, s))
  {
    hide Same;
    hide Fits;
    hide GetSlice;
    hide GetItem;
    hide SliceFits;
    if Run(Sliced(q, s)).Some? {
      var l, t := Run(q).value, RunDense(q).value;
      if l.Dims() > 2 {
        GetSliceCommutes(l, s);
      } else {
        GetRowsCommutes(l, s);
      }
      GetItemSame(Dense(l), t, [s]);
      SameTransitively(Dense(GetSlice(l, s).value), GetItem(Dense(l), [s]).value, GetItem(t, [s]).value);
    }
  }

  lemma {:induction false} IndexedAgrees(q: Program, items: seq<Item>)
    requires Agrees(q) && StepIsSound(Indexed(q, items))
    ensures Agrees(Indexed(q, items))
  {
    hide Same;
    hide Fits;
    hide GetItem;
    hide TupleFits;
    if Run(Indexed(q, items)).Some? {
      var l, t := Run(q).value, RunDense(q).value;
      GetTupleCommutes(l, items);
      GetItemSame(Dense(l), t, items);
      SameTransitively(Dense(GetTuple(l, items).value), GetItem(Dense(l), items).value, GetItem(t, items).value);
    }
  }

  lemma {:induction false} ReshapedAgrees(q: Program, dims: seq<int>)
    requires Agrees(q) && StepIsSound(Reshaped(q, dims))
    ensures Agrees(Reshaped(q, dims))
  {
    hide Same;
    hide Fits;
    hide Reshape;
    hide DenseReshape;
    if Run(Reshaped(q, dims)).Some? {
      var l, t := Run(q).value, RunDense(q).value;
      ReshapeCommutes(l, dims);
      ReshapeSame(Dense(l), t, dims);
      SameTransitively(Dense(Reshape(l, dims).value), DenseReshape(Dense(l), dims).value, DenseReshape(t, dims).value);
    }
  }

  lemma {:induction false} PermutedAgrees(q: Program, dims: seq<int>)
    requires Agrees(q)
    ensures Agrees(Permuted(q, dims))
  {
    hide Same;
    hide Fits;
    hide Permute;
    hide DensePermute;
    if Run(Permuted(q, dims)).Some? {
      var l, t := Run(q).value, RunDense(q).value;
      PermuteCommutes(l, dims);
      PermuteSame(Dense(l), t, dims);
      SameTransitively(Dense(Permute(l, dims).value), DensePermute(Dense(l), dims).value, DensePermute(t, dims).value);
    }
  }

  lemma TransposedAgrees(q: Program, d0: int, d1: int)
    requires Agrees(q)
    ensures Agrees(Transposed(q, d0, d1))
  {
    hide Same;
    hide Fits;
    hide Permute;
    hide DensePermute;
    hide Swapped;
    if Run(Transposed(q, d0, d1)).Some? {
      var l, t := Run(q).value, RunDense(q).value;
      SameDims(l, t);
      var dims := Swapped(d0, d1, l.Dims()).value;
      PermuteCommutes(l, dims);
      PermuteSame(Dense(l), t, dims);
      SameTransitively(Dense(Permute(l, dims).value), DensePermute(Dense(l), dims).value, DensePermute(t, dims).value);
    }
  }

  lemma SameDims(l: Lora, t: Tensor)
    requires l.Valid() && Same(Dense(l), t)
    ensures |t.shape| == l.Dims()
  {
  }

  /** Operands that agree one by one. */
  lemma {:induction false} OperandsAgree(ps: seq<Program>)
    requires forall i :: 0 <= i < |ps| ==> Agrees(ps[i])
    requires RunAll(ps).Some?
    ensures AllFit(RunAll(ps).value) && RunAllDense(ps).Some?
    ensures AllSame(Products(RunAll(ps).value), RunAllDense(ps).value)
  {
    hide Same;
    hide Fits;
    var ls := RunAll(ps).value;
    forall i | 0 <= i < |ps|
      ensures Fits(ls[i]) && RunDense(ps[i]).Some?
    {
      assert Agrees(ps[i]);
    }
    AllDenseRun(ps);
    var ts := RunAllDense(ps).value;
    forall i | 0 <= i < |ps|
      ensures Same(Products(ls)[i], ts[i])
    {
      assert Agrees(ps[i]);
    }
  }

  lemma {:induction false} AllDenseRun(ps: seq<Program>)
    requires forall i :: 0 <= i < |ps| ==> RunDense(ps[i]).Some?
    ensures RunAllDense(ps).Some?
  {
    if ps != [] {
      AllDenseRun(ps[1..]);
    }
  }

  lemma {:induction false} StackedAgrees(ps: seq<Program>)
    requires forall i :: 0 <= i < |ps| ==> Agrees(ps[i])
    ensures Agrees(Stacked(ps))
  {
    hide Same;
    hide Fits;
    hide StackAll;
    hide Stack;
    if Run(Stacked(ps)).Some? {
      OperandsAgree(ps);
      var ls, ts := RunAll(ps).value, RunAllDense(ps).value;
      StackCommutes(ls);
      StackSame(Products(ls), ts);
      SameTransitively(Dense(StackAll(ls).value), Stack(Products(ls)).value, Stack(ts).value);
    }
  }

  lemma {:induction false} JoinedAgrees(ps: seq<Program>)
    requires forall i :: 0 <= i < |ps| ==> Agrees(ps[i])
    requires StepIsSound(Joined(ps))
    ensures Agrees(Joined(ps))
  {
    hide Same;
    hide Fits;
    hide Cat;
    if Run(Joined(ps)).Some? {
      OperandsAgree(ps);
      var ls, ts := RunAll(ps).value, RunAllDense(ps).value;
      assert ls != [] by { NothingToJoin(FactorsB(ls)); }
      if ls[0].Dims() > 2 {
        CatCommutes(ls);
      } else {
        CatRowsCommutes(ls);
      }
      CatSame(Products(ls), ts);
      SameTransitively(Dense(CatAll(ls).value), Cat(Products(ls)).value, Cat(ts).value);
    }
  }

  lemma NothingToJoin(ts: seq<Tensor>)
    ensures Cat(ts).Some? ==> ts != []
  {
  }

  /** Main theorem. Every composition of operations whose steps are sound gives, whenever it succeeds on the
      factors, a pair of factors that fit, and their product is what the same composition gives on the
      products of the operands. */
  lemma {:induction false} ProgramsCommuteWithTheProduct(p: Program)
    requires IsSound(p)
    ensures Agrees(p)
    decreases p, 1
  {
    hide Agrees;
    hide StepIsSound;
    match p
    case Leaf(l) => LeafAgrees(l);
    case Stacked(ps) =>
      AllCommute(ps);
      StackedAgrees(ps);
    case Joined(ps) =>
      AllCommute(ps);
      JoinedAgrees(ps);
    case Position(q, j) =>
      ProgramsCommuteWithTheProduct(q);
      PositionAgrees(q, j);
    case Sliced(q, s) =>
      ProgramsCommuteWithTheProduct(q);
      SlicedAgrees(q, s);
    case Indexed(q, items) =>
      ProgramsCommuteWithTheProduct(q);
      IndexedAgrees(q, items);
    case Reshaped(q, dims) =>
      ProgramsCommuteWithTheProduct(q);
      ReshapedAgrees(q, dims);
    case Permuted(q, dims) =>
      ProgramsCommuteWithTheProduct(q);
      PermutedAgrees(q, dims);
    case Transposed(q, d0, d1) =>
      ProgramsCommuteWithTheProduct(q);
      TransposedAgrees(q, d0, d1);
  }

  lemma LeafAgrees(l: Lora)
    requires StepIsSound(Leaf(l))
    ensures Agrees(Leaf(l))
  {
  }

  lemma {:induction false} AllCommute(ps: seq<Program>)
    requires AllSound(ps)
    ensures forall i :: 0 <= i < |ps| ==> Agrees(ps[i])
    decreases ps, 0
  {
    hide Agrees;
    if ps != [] {
      ProgramsCommuteWithTheProduct(ps[0]);
      AllCommute(ps[1..]);
      forall i | 0 <= i < |ps|
        ensures Agrees(ps[i])
      {
        if i > 0 {
          assert ps[i] == ps[1..][i - 1];
        }
      }
    }
  }
}
