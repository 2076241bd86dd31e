/** Stacking and concatenating factored tensors along the first axis. */
module LoraJoins {
  import opened Text
  import opened Tensors
  import opened Lora

  ghost predicate AllFit(ls: seq<Lora>) {
    forall i :: 0 <= i < |ls| ==> Fits(ls[i])
  }

  function Products(ls: seq<Lora>): (r: seq<Tensor>)
    requires forall i :: 0 <= i < |ls| ==> ls[i].Valid()
    ensures |r| == |ls|
  {
    seq(|ls|, i requires 0 <= i < |ls| => Dense(ls[i]))
  }

  lemma ProductShapes(ls: seq<Lora>)
    requires AllFit(ls)
    ensures forall i :: 0 <= i < |ls| ==> Products(ls)[i].shape == ls[i].Shape()
  {
  }

  // ---- Stack

  lemma StackedShapes(ls: seq<Lora>)
    requires AllFit(ls) && ls != [] && SameShapes(FactorsA(ls)) && SameShapes(FactorsB(ls))
    ensures forall i :: 0 <= i < |ls| ==> ls[i].a.shape == ls[0].a.shape && ls[i].b.shape == ls[0].b.shape
    ensures SameShapes(Products(ls))
  {
    ProductShapes(ls);
    forall i | 0 <= i < |ls|
      ensures ls[i].a.shape == ls[0].a.shape && ls[i].b.shape == ls[0].b.shape
    {
      assert FactorsA(ls)[i].shape == FactorsA(ls)[0].shape;
      assert FactorsB(ls)[i].shape == FactorsB(ls)[0].shape;
    }
  }

  /** An index behind a new first axis. */
  lemma BehindFirst(x: nat, y: seq<nat>, k: nat)
    requires |y| >= 2
    ensures ([x] + y)[..|y|] == [x] + y[..|y| - 1]
    ensures ([x] + y)[..|y| - 1] == [x] + y[..|y| - 2]
    ensures [x] + y[..|y| - 1] + [k] == [x] + (y[..|y| - 1] + [k])
  {
  }

  lemma StackedElement(ls: seq<Lora>, m: Lora, x: nat, y: seq<nat>)
    requires AllFit(ls) && ls != [] && x < |ls|
    requires Stack(FactorsA(ls)) == Some(m.a) && Stack(FactorsB(ls)) == Some(m.b)
    requires |y| == ls[0].Dims()
    ensures m.Valid() && ls[x].Dims() == |y| && m.Dims() == |y| + 1 && DenseAt(m, [x] + y) == DenseAt(ls[x], y)
  {
    StackedShapes(ls);
    var l, ix := ls[x], [x] + y;
    assert l.a.shape == ls[0].a.shape && l.b.shape == ls[0].b.shape;
    forall k | 0 <= k < l.Rank()
      ensures m.b.at(IndexB(m, ix, k)) == l.b.at(IndexB(l, y, k)) && m.a.at(IndexA(m, ix, k)) == l.a.at(IndexA(l, y, k))
    {
      BehindFirst(x, y, k);
      var jb, ja := IndexB(m, ix, k), IndexA(m, ix, k);
      assert jb == [x] + IndexB(l, y, k);
      assert Broadcast(m.a.shape, [x] + y[..|y| - 2]) == [x] + Broadcast(l.a.shape, y[..|y| - 2]);
      assert ja == [x] + IndexA(l, y, k);
      assert jb[1..] == IndexB(l, y, k) && ja[1..] == IndexA(l, y, k);
      assert FactorsA(ls)[x] == l.a && FactorsB(ls)[x] == l.b;
    }
    DenseAgrees(m, ix, l, y);
  }

  lemma {:induction false} StackCommutes(ls: seq<Lora>)
    requires AllFit(ls) && StackAll(ls).Some?
    ensures Stack(Products(ls)).Some? && Fits(StackAll(ls).value)
    ensures Same(Dense(StackAll(ls).value), Stack(Products(ls)).value)
    ensures StackAll(ls).value.Rank() == ls[0].Rank()
  {
    hide DenseAt;
    StackedShapes(ls);
    ProductShapes(ls);
    var m := StackAll(ls).value;
    var dense := Stack(Products(ls)).value;
    assert m.Shape() == [|ls|] + ls[0].Shape();
    forall ix | InShape(m.Shape(), ix)
      ensures Dense(m).at(ix) == dense.at(ix)
    {
      var x, y := ix[0], ix[1..];
      assert ix == [x] + y;
      assert x < |ls|;
      StackedElement(ls, m, x, y);
      assert Products(ls)[x] == Dense(ls[x]);
    }
  }

  // ---- Cat

  lemma {:induction false} SameTotals(p: seq<nat>, q: seq<nat>)
    requires |p| == |q| && forall i :: 0 <= i < |p| ==> p[i] <= q[i]
    ensures Total(p) <= Total(q)
    ensures Total(p) == Total(q) <==> p == q
  {
    if p != [] {
      SameTotals(p[1..], q[1..]);
      assert p == [p[0]] + p[1..] && q == [q[0]] + q[1..];
    }
  }

  lemma {:induction false} TotalAtLeast(p: seq<nat>)
    requires forall i :: 0 <= i < |p| ==> p[i] >= 1
    ensures Total(p) >= |p|
  {
    if p != [] {
      TotalAtLeast(p[1..]);
    }
  }

  predicate SameFirstAxis(ls: seq<Lora>) {
    forall i :: 0 <= i < |ls| ==> ls[i].a.shape != [] && ls[i].b.shape != [] && ls[i].a.shape[0] == ls[i].b.shape[0]
  }

  lemma JoinedShapes(ls: seq<Lora>)
    requires AllFit(ls) && ls != [] && Joinable(FactorsB(ls)) && Joinable(FactorsA(ls))
    ensures forall i :: 0 <= i < |ls| ==>
      ls[i].Dims() == ls[0].Dims() && ls[i].a.shape[1..] == ls[0].a.shape[1..] &&
          ls[i].b.shape[1..] == ls[0].b.shape[1..]
    ensures ls[0].Dims() > 2 ==> Joinable(Products(ls)) && FirstDims(Products(ls)) == FirstDims(FactorsB(ls))
  {
    ProductShapes(ls);
    forall i | 0 <= i < |ls|
      ensures ls[i].Dims() == ls[0].Dims() && ls[i].a.shape[1..] == ls[0].a.shape[1..] &&
          ls[i].b.shape[1..] == ls[0].b.shape[1..]
      ensures ls[0].Dims() > 2 ==> ls[i].Shape()[1..] == ls[0].Shape()[1..]
    {
      assert FactorsA(ls)[i].shape[1..] == FactorsA(ls)[0].shape[1..];
      assert FactorsB(ls)[i].shape[1..] == FactorsB(ls)[0].shape[1..];
      assert |ls[i].b.shape[1..]| == |ls[0].b.shape[1..]|;
      var d := ls[0].Dims();
      if d > 2 {
        assert ls[i].Shape()[1..] == ls[i].b.shape[1..][..d - 2] + [ls[i].a.shape[1..][d - 2]];
        assert ls[0].Shape()[1..] == ls[0].b.shape[1..][..d - 2] + [ls[0].a.shape[1..][d - 2]];
      }
    }
    if ls[0].Dims() > 2 {
      assert forall i :: 0 <= i < |ls| ==> Products(ls)[i].shape[0] == FactorsB(ls)[i].shape[0];
    }
  }

  /** Every position along the joined axis falls into the same operand, and the same position of it, on both factors,
      given the broadcasting of the operand's A and that of the joined A. */
  predicate PicksOwn(da: seq<nat>, db: seq<nat>) {
    |da| == |db| && forall x: nat :: x < Total(db) ==> PicksOwnAt(da, db, x)
  }

  predicate PicksOwnAt(da: seq<nat>, db: seq<nat>, x: nat)
    requires |da| == |db| && x < Total(db)
  {
    var part, xa := Locate(db, x), if Total(da) == 1 then 0 else x;
    xa < Total(da) && Locate(da, xa) == (part.0, if da[part.0] == 1 then 0 else part.1)
  }

  predicate OwnIsPicked(ls: seq<Lora>)
    requires Joinable(FactorsA(ls)) && Joinable(FactorsB(ls))
  {
    PicksOwn(FirstDims(FactorsA(ls)), FirstDims(FactorsB(ls)))
  }

  lemma {:induction false} JoinedElement(ls: seq<Lora>, m: Lora, x: nat, y: seq<nat>)
    requires AllFit(ls) && ls != [] && ls[0].Dims() > 2
    requires Joinable(FactorsA(ls)) && Joinable(FactorsB(ls)) && OwnIsPicked(ls)
    requires Cat(FactorsA(ls)) == Some(m.a) && Cat(FactorsB(ls)) == Some(m.b)
    requires |y| == ls[0].Dims() - 1 && x < Total(FirstDims(FactorsB(ls)))
    ensures m.Valid() && m.Dims() == |y| + 1
    ensures var part := Locate(FirstDims(FactorsB(ls)), x);
            ls[part.0].Dims() == |y| + 1 && DenseAt(m, [x] + y) == DenseAt(ls[part.0], [part.1] + y)
  {
    hide CatAt;
    hide Locate;
    hide OwnIsPicked;
    hide Total;
    JoinedShapes(ls);
    var part := Locate(FirstDims(FactorsB(ls)), x);
    var l, ix, at := ls[part.0], [x] + y, [part.1] + y;
    assert m.a.shape[1..] == l.a.shape[1..] && m.b.shape[1..] == l.b.shape[1..];
    assert forall i :: 0 < i < m.Dims() ==>
        m.a.shape[i] == m.a.shape[1..][i - 1] == l.a.shape[1..][i - 1] == l.a.shape[i];
    assert m.b.shape[|y|] == m.b.shape[1..][|y| - 1] == l.b.shape[1..][|y| - 1] == l.b.shape[|y|];
    forall k | 0 <= k < l.Rank()
      ensures m.b.at(IndexB(m, ix, k)) == l.b.at(IndexB(l, at, k)) &&
          m.a.at(IndexA(m, ix, k)) == l.a.at(IndexA(l, at, k))
    {
      JoinedB(ls, m, x, y, k);
      JoinedA(ls, m, x, y, k);
    }
    DenseAgrees(m, ix, l, at);
  }

  lemma JoinedB(ls: seq<Lora>, m: Lora, x: nat, y: seq<nat>, k: nat)
    requires AllFit(ls) && ls != [] && Joinable(FactorsB(ls)) && |y| >= 1
    requires m.Valid() && m.Dims() == |y| + 1 && Cat(FactorsB(ls)) == Some(m.b)
    requires x < Total(FirstDims(FactorsB(ls)))
    ensures var part := Locate(FirstDims(FactorsB(ls)), x);
            ls[part.0].Dims() == |y| + 1 ==>
                m.b.at(IndexB(m, [x] + y, k)) == ls[part.0].b.at(IndexB(ls[part.0], [part.1] + y, k))
  {
    var part := Locate(FirstDims(FactorsB(ls)), x);
    if ls[part.0].Dims() == |y| + 1 {
      var jb := IndexB(m, [x] + y, k);
      assert ([x] + y)[..|y|] == [x] + y[..|y| - 1] && ([part.1] + y)[..|y|] == [part.1] + y[..|y| - 1];
      assert jb == [x] + (y[..|y| - 1] + [k]);
      assert jb[1..] == y[..|y| - 1] + [k];
      assert IndexB(ls[part.0], [part.1] + y, k) == [part.1] + jb[1..];
    }
  }

  /** The part of A that a position along the joined axis falls into, given the broadcasting on both sides. */
  lemma JoinedFirst(ls: seq<Lora>, x: nat, rest: seq<nat>)
    requires AllFit(ls) && ls != [] && ls[0].Dims() > 2 && Joinable(FactorsA(ls)) && Joinable(FactorsB(ls))
    requires OwnIsPicked(ls)
    requires x < Total(FirstDims(FactorsB(ls)))
    ensures var part := Locate(FirstDims(FactorsB(ls)), x);
            ls[part.0].Dims() == ls[0].Dims() &&
            CatAt(FactorsA(ls), [if Total(FirstDims(FactorsA(ls))) == 1 then 0 else x] + rest)
              == ls[part.0].a.at([if ls[part.0].a.shape[0] == 1 then 0 else part.1] + rest)
  {
    hide Total;
    hide Locate;
    JoinedShapes(ls);
    var da, dims := FirstDims(FactorsA(ls)), FirstDims(FactorsB(ls));
    var part := Locate(dims, x);
    var l := ls[part.0];
    assert FactorsA(ls)[part.0] == l.a && da[part.0] == l.a.shape[0] && dims[part.0] == l.b.shape[0];
    var xa := if Total(da) == 1 then 0 else x;
    assert ([xa] + rest)[0] == xa && ([xa] + rest)[1..] == rest;
    assert PicksOwnAt(da, dims, x);
  }

  /** Where a position falls among the parts of A, when it falls into a known one among those of B. */
  lemma PartOfA(da: seq<nat>, dims: seq<nat>, x: nat)
    requires da == dims || (|da| == |dims| == 1 && da[0] == 1)
    requires x < Total(dims)
    ensures var part := Locate(dims, x);
            var xa := if Total(da) == 1 then 0 else x;
            xa < Total(da) && Locate(da, xa) == (part.0, if da[part.0] == 1 then 0 else part.1)
  {
    if da != dims {
      OneTotal(da);
      OneTotal(dims);
    }
  }

  lemma JoinedA(ls: seq<Lora>, m: Lora, x: nat, y: seq<nat>, k: nat)
    requires AllFit(ls) && ls != [] && ls[0].Dims() > 2 && Joinable(FactorsA(ls)) && Joinable(FactorsB(ls))
    requires OwnIsPicked(ls)
    requires m.Valid() && m.Dims() == |y| + 1 == ls[0].Dims() && Cat(FactorsA(ls)) == Some(m.a)
    requires x < Total(FirstDims(FactorsB(ls)))
    ensures var part := Locate(FirstDims(FactorsB(ls)), x);
            ls[part.0].Dims() == |y| + 1 &&
                m.a.at(IndexA(m, [x] + y, k)) == ls[part.0].a.at(IndexA(ls[part.0], [part.1] + y, k))
  {
    hide CatAt;
    hide Locate;
    hide Joinable;
    JoinedShapes(ls);
    var part := Locate(FirstDims(FactorsB(ls)), x);
    var l := ls[part.0];
    var rest := Broadcast(m.a.shape[1..], y[..|y| - 2]) + [k, y[|y| - 1]];
    JoinedFirst(ls, x, rest);
    assert m.a.shape[1..] == l.a.shape[1..];
    SplitFirst(m, x, y, k);
    SplitFirst(l, part.1, y, k);
  }

  lemma SplitFirst(l: Lora, x: nat, y: seq<nat>, k: nat)
    requires l.Valid() && l.Dims() == |y| + 1 > 2
    ensures IndexA(l, [x] + y, k) ==
        [if l.a.shape[0] == 1 then 0 else x] + (Broadcast(l.a.shape[1..], y[..|y| - 2]) + [k, y[|y| - 1]])
  {
    assert ([x] + y)[..|y| - 1] == [x] + y[..|y| - 2];
    BroadcastFirst(l.a.shape, x, y[..|y| - 2]);
  }

  lemma BroadcastFirst(shape: seq<nat>, x: nat, rest: seq<nat>)
    requires |rest| + 1 <= |shape|
    ensures Broadcast(shape, [x] + rest) == [if shape[0] == 1 then 0 else x] + Broadcast(shape[1..], rest)
  {
  }

  lemma OneTotal(dims: seq<nat>)
    requires |dims| == 1
    ensures Total(dims) == dims[0]
    ensures forall x :: 0 <= x < dims[0] ==> Locate(dims, x) == (0, x)
  {
    assert dims[1..] == [];
  }

  lemma JoinedShapeOf(l: Lora, m: Lora, total: nat)
    requires l.Valid() && m.Valid() && l.Dims() > 2
    requires m.b.shape == [total] + l.b.shape[1..] && m.a.shape[1..] == l.a.shape[1..]
    ensures m.Shape() == [total] + l.Shape()[1..]
  {
    var d := l.Dims();
    assert m.b.shape[..d - 1] == [total] + l.b.shape[1..][..d - 2];
    assert m.a.shape[d - 1] == m.a.shape[1..][d - 2];
    assert l.Shape()[1..] == l.b.shape[1..][..d - 2] + [l.a.shape[1..][d - 2]];
  }

  /** The products can be joined wherever their factors can. */
  lemma CatKeepsProducts(ls: seq<Lora>)
    requires AllFit(ls) && ls != [] && ls[0].Dims() > 2 && CatAll(ls).Some? && OwnIsPicked(ls)
    ensures Cat(Products(ls)).Some? && Same(Dense(CatAll(ls).value), Cat(Products(ls)).value)
  {
    hide DenseAt;
    JoinedShapes(ls);
    ProductShapes(ls);
    var m := CatAll(ls).value;
    var dims := FirstDims(FactorsB(ls));
    var dense := Cat(Products(ls)).value;
    JoinedShapeOf(ls[0], m, Total(dims));
    hide CatAt;
    hide OwnIsPicked;
    forall ix | InShape(m.Shape(), ix)
      ensures Dense(m).at(ix) == dense.at(ix)
    {
      var x, y := ix[0], ix[1..];
      assert ix == [x] + y;
      assert x < Total(dims);
      JoinedElement(ls, m, x, y);
      var part := Locate(dims, x);
      assert Products(ls)[part.0] == Dense(ls[part.0]);
    }
  }

  lemma JoinedFits(ls: seq<Lora>, m: Lora)
    requires AllFit(ls) && ls != [] && ls[0].Dims() > 2 && m.Valid()
    requires Cat(FactorsA(ls)) == Some(m.a) && Cat(FactorsB(ls)) == Some(m.b)
    ensures var da, db := FirstDims(FactorsA(ls)), FirstDims(FactorsB(ls));
            Fits(m) <==> Total(da) == Total(db) || Total(da) == 1
  {
    assert Fits(ls[0]);
    forall i | 0 < i < m.Dims() - 2
      ensures m.a.shape[i] == m.b.shape[i] || m.a.shape[i] == 1
    {
      assert m.a.shape[i] == ls[0].a.shape[1..][i - 1] && m.b.shape[i] == ls[0].b.shape[1..][i - 1];
    }
    assert m.a.shape[0] == Total(FirstDims(FactorsA(ls))) && m.b.shape[0] == Total(FirstDims(FactorsB(ls)));
    if Fits(m) {
      assert m.a.shape[0] == m.b.shape[0] || m.a.shape[0] == 1;
    }
  }

  lemma JoinedFirstAxes(ls: seq<Lora>)
    requires AllFit(ls) && ls != [] && CatAll(ls).Some? && ls[0].Dims() > 2
    requires forall i :: 0 <= i < |ls| ==> ls[i].b.shape[0] >= 1
    ensures var da, db := FirstDims(FactorsA(ls)), FirstDims(FactorsB(ls));
            Total(da) == Total(db) || Total(da) == 1 ==> SameFirstAxis(ls) || |ls| == 1
  {
    var da, db := FirstDims(FactorsA(ls)), FirstDims(FactorsB(ls));
    JoinedShapes(ls);
    forall i | 0 <= i < |ls|
      ensures 1 <= da[i] <= db[i]
    {
      assert Fits(ls[i]);
    }
    SameTotals(da, db);
    TotalAtLeast(da);
    if da == db {
      forall i | 0 <= i < |ls|
        ensures ls[i].a.shape[0] == ls[i].b.shape[0]
      {
        assert da[i] == db[i];
      }
    }
  }

  lemma FirstAxesOf(ls: seq<Lora>)
    requires AllFit(ls) && ls != [] && ls[0].Dims() > 2 && Joinable(FactorsA(ls)) && Joinable(FactorsB(ls))
    requires SameFirstAxis(ls) || |ls| == 1
    ensures OwnIsPicked(ls)
    ensures var da, db := FirstDims(FactorsA(ls)), FirstDims(FactorsB(ls)); Total(da) == Total(db) || Total(da) == 1
  {
    var da, db := FirstDims(FactorsA(ls)), FirstDims(FactorsB(ls));
    if SameFirstAxis(ls) {
      assert da == db;
    } else {
      OneTotal(da);
      OneTotal(db);
      assert Fits(ls[0]);
    }
    forall x: nat | x < Total(db)
      ensures PicksOwnAt(da, db, x)
    {
      PartOfA(da, db, x);
    }
  }

  /** Concatenation on three axes or more. It has the shapes of a product exactly if the first axes of all A are
      together as long as those of all B, or have length one. It is the concatenation of the products if every position
      picks its own operand on both factors: so if no first axis of A is broadcast, or there is one tensor only; of
      tensors that are not empty along the first axis, the shapes are those of a product only then. */
  lemma CatCommutes(ls: seq<Lora>)
    requires AllFit(ls) && ls != [] && CatAll(ls).Some? && ls[0].Dims() > 2
    ensures Joinable(FactorsA(ls)) && Joinable(FactorsB(ls))
    ensures var da, db := FirstDims(FactorsA(ls)), FirstDims(FactorsB(ls));
            Fits(CatAll(ls).value) <==> Total(da) == Total(db) || Total(da) == 1
    ensures OwnIsPicked(ls) ==>
            Cat(Products(ls)).Some? && Same(Dense(CatAll(ls).value), Cat(Products(ls)).value)
    ensures SameFirstAxis(ls) || |ls| == 1 ==> Fits(CatAll(ls).value) && OwnIsPicked(ls)
    ensures (forall i :: 0 <= i < |ls| ==> ls[i].b.shape[0] >= 1) && Fits(CatAll(ls).value) ==>
        SameFirstAxis(ls) || |ls| == 1
  {
    hide Same;
    hide Total;
    hide SameFirstAxis;
    JoinedFits(ls, CatAll(ls).value);
    if SameFirstAxis(ls) || |ls| == 1 {
      FirstAxesOf(ls);
    }
    if OwnIsPicked(ls) {
      CatKeepsProducts(ls);
    }
    if forall i :: 0 <= i < |ls| ==> ls[i].b.shape[0] >= 1 {
      JoinedFirstAxes(ls);
    }
  }

  // ---- Cat of matrices

  lemma MatrixShapes(ls: seq<Lora>)
    requires AllFit(ls) && ls != [] && ls[0].Dims() == 2 && Joinable(FactorsB(ls)) && SharedA(ls)
    ensures forall i :: 0 <= i < |ls| ==>
        ls[i].Dims() == 2 && ls[i].b.shape[1] == ls[0].b.shape[1] && ls[i].a.shape == ls[0].a.shape
    ensures Joinable(Products(ls)) && FirstDims(Products(ls)) == FirstDims(FactorsB(ls))
    ensures ls[0].Shape()[1..] == [ls[0].a.shape[1]]
  {
    ProductShapes(ls);
    forall i | 0 <= i < |ls|
      ensures ls[i].Dims() == 2 && ls[i].b.shape[1] == ls[0].b.shape[1] && ls[i].a.shape == ls[0].a.shape
      ensures ls[i].Shape()[1..] == [ls[0].a.shape[1]] && Products(ls)[i].shape[0] == ls[i].b.shape[0]
    {
      assert FactorsB(ls)[i].shape[1..] == FactorsB(ls)[0].shape[1..];
      assert Same(ls[i].a, ls[0].a);
      assert ls[i].b.shape[1..][0] == ls[0].b.shape[1..][0];
    }
  }

  lemma MatrixElement(ls: seq<Lora>, m: Lora, x: nat, j: nat)
    requires AllFit(ls) && ls != [] && ls[0].Dims() == 2 && SharedA(ls)
    requires m.a == ls[0].a && Cat(FactorsB(ls)) == Some(m.b)
    requires x < Total(FirstDims(FactorsB(ls))) && j < ls[0].a.shape[1]
    ensures m.Valid() && m.Dims() == 2
    ensures var part := Locate(FirstDims(FactorsB(ls)), x);
            ls[part.0].Dims() == 2 && DenseAt(m, [x, j]) == DenseAt(ls[part.0], [part.1, j])
  {
    MatrixShapes(ls);
    var part := Locate(FirstDims(FactorsB(ls)), x);
    var l := ls[part.0];
    forall k | 0 <= k < l.Rank()
      ensures m.b.at(IndexB(m, [x, j], k)) == l.b.at(IndexB(l, [part.1, j], k))
      ensures m.a.at(IndexA(m, [x, j], k)) == l.a.at(IndexA(l, [part.1, j], k))
    {
      assert IndexB(m, [x, j], k) == [x, k] && IndexB(l, [part.1, j], k) == [part.1, k];
      assert [x, k][1..] == [k] && [part.1] + [k] == [part.1, k];
      assert IndexA(m, [x, j], k) == [k, j] == IndexA(l, [part.1, j], k);
      assert Same(l.a, ls[0].a);
      assert InShape(l.a.shape, [k, j]);
    }
    DenseAgrees(m, [x, j], l, [part.1, j]);
  }

  /** Matrices with one and the same A are concatenated by concatenating the rows of B. */
  lemma CatRowsCommutes(ls: seq<Lora>)
    requires AllFit(ls) && ls != [] && ls[0].Dims() == 2 && CatAll(ls).Some?
    ensures Fits(CatAll(ls).value) && Cat(Products(ls)).Some?
    ensures Same(Dense(CatAll(ls).value), Cat(Products(ls)).value)
  {
    hide DenseAt;
    hide SharedA;
    MatrixShapes(ls);
    ProductShapes(ls);
    var m := CatAll(ls).value;
    var dims := FirstDims(FactorsB(ls));
    var dense := Cat(Products(ls)).value;
    assert m.Shape() == [Total(dims), ls[0].a.shape[1]] == dense.shape;
    forall ix | InShape(m.Shape(), ix)
      ensures Dense(m).at(ix) == dense.at(ix)
    {
      var x, j := ix[0], ix[1];
      assert ix == [x, j] && ix[1..] == [j];
      MatrixElement(ls, m, x, j);
      var part := Locate(dims, x);
      assert Products(ls)[part.0] == Dense(ls[part.0]);
      assert [part.1] + [j] == [part.1, j];
    }
  }
}
