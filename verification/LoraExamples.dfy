/** Factored tensors at which an operation of the LoRA converter does not stand for that operation on the product. */
module LoraExamples {
  import opened Text
  import opened Tensors
  import opened Lora
  import opened LoraPicks
  import opened LoraJoins

  function Filled(shape: seq<nat>, x: real): Tensor {
    Tensor(shape, ix => x)
  }

  /** Factors of rank one, with one row and column in each of the leading positions. */
  function Thin(lengthA: nat, a: real, lengthB: nat): Lora {
    Lora(Filled([lengthA, 1, 1], a), Filled([lengthB, 1, 1], 1.0))
  }

  lemma ThinFits(lengthA: nat, a: real, lengthB: nat)
    requires lengthA == lengthB || lengthA == 1
    ensures Fits(Thin(lengthA, a, lengthB)) && Thin(lengthA, a, lengthB).Dims() == 3
  {
  }

  /** With one A for both of two positions, the slice [1:] leaves an A of no position. */
  lemma SliceExample() returns (l: Lora, s: Item)
    ensures Fits(l) && s == Slice(Some(1), None, 1)
    ensures GetSlice(l, s).Some? && !Fits(GetSlice(l, s).value)
  {
    l, s := Thin(1, 1.0, 2), Slice(Some(1), None, 1);
    ThinFits(1, 1.0, 2);
    assert Resolve(s, 1) == Some(Many(1, 0, 1)) && Resolve(s, 2) == Some(Many(1, 1, 1));
    FullResolves(1);
    hide Resolve;
    hide Pick;
    hide Dense;
    hide Same;
    hide ResolveAll;
    GetItemIs(l.a, [s], [Many(1, 0, 1), FullSel(1), FullSel(1)]);
    GetItemIs(l.b, [s], [Many(1, 1, 1), FullSel(1), FullSel(1)]);
    PickedShapes(l, [Many(1, 0, 1), FullSel(1), FullSel(1)], [Many(1, 1, 1), FullSel(1), FullSel(1)]);
    PickShapes([Many(1, 0, 1), FullSel(1), FullSel(1)]);
    PickShapes([Many(1, 1, 1), FullSel(1), FullSel(1)]);
    assert GetSlice(l, s).Some?;
    GetSliceCommutes(l, s);
  }

  lemma PickedShapes(l: Lora, sa: seq<Sel>, sb: seq<Sel>)
    ensures Pick(l.a, sa).shape == PickShape(sa) && Pick(l.b, sb).shape == PickShape(sb)
  {
  }

  lemma PickShapes(sels: seq<Sel>)
    requires |sels| == 3 && sels[0].Many? && sels[1].Many? && sels[2].Many?
    ensures PickShape(sels) == [sels[0].count, sels[1].count, sels[2].count]
  {
    assert sels[1..][1..] == [sels[2]] && [sels[2]][1..] == [];
    assert PickShape([sels[2]]) == [sels[2].count];
    assert PickShape(sels[1..]) == [sels[1].count, sels[2].count];
  }

  /** With an A for each of two positions, the tuple index [:1, :, :] leaves both of them and one B. */
  lemma TupleExample() returns (l: Lora, items: seq<Item>)
    ensures Fits(l) && items == [Slice(None, Some(1), 1), FULL, FULL]
    ensures GetTuple(l, items).Some? && !Fits(GetTuple(l, items).value)
  {
    l, items := Thin(2, 1.0, 2), [Slice(None, Some(1), 1), FULL, FULL];
    ThinFits(2, 1.0, 2);
    assert Resolve(items[0], 2) == Some(Many(0, 1, 1));
    FullResolves(1);
    FullResolves(2);
    hide Resolve;
    hide Dense;
    hide Same;
    hide ResolveAll;
    assert Padded(items, 3) == items;
    assert ItemsForA(l, items) == [FULL, FULL, FULL];
    assert items[..2] == [items[0], FULL];
    GetItemIs(l.a, [FULL, FULL, FULL], [FullSel(2), FullSel(1), FullSel(1)]);
    GetItemIs(l.b, [items[0], FULL], [Many(0, 1, 1), FullSel(1), FullSel(1)]);
    PickShapes([FullSel(2), FullSel(1), FullSel(1)]);
    PickShapes([Many(0, 1, 1), FullSel(1), FullSel(1)]);
    assert GetTuple(l, items).Some?;
    assert !TupleFits(l, items) by {
      assert Padded(items, l.Dims())[0].Slice? && l.a.shape[0] == 2;
      assert Resolve(Padded(items, l.Dims())[0], l.b.shape[0]) == Some(Many(0, 1, 1));
    }
    GetTupleCommutes(l, items);
  }

  lemma CatOfThin(p: Lora, q: Lora, lengthA: nat, a: real, lengthB: nat, lengthC: nat, c: real, lengthD: nat)
    requires p == Thin(lengthA, a, lengthB) && q == Thin(lengthC, c, lengthD)
    ensures var ls := [p, q];
            && Joinable(FactorsA(ls)) && Joinable(FactorsB(ls))
            && FirstDims(FactorsA(ls)) == [lengthA, lengthC] && FirstDims(FactorsB(ls)) == [lengthB, lengthD]
            && CatAll(ls).Some?
            && CatAll(ls).value.a.shape == [lengthA + lengthC, 1, 1] &&
                CatAll(ls).value.b.shape == [lengthB + lengthD, 1, 1]
  {
    var ls := [p, q];
    assert FactorsA(ls) == [p.a, q.a] && FactorsB(ls) == [p.b, q.b];
    assert [lengthA, 1, 1][1..] == [1, 1] && [lengthC, 1, 1][1..] == [1, 1];
    assert [lengthB, 1, 1][1..] == [1, 1] && [lengthD, 1, 1][1..] == [1, 1];
    TwoTotal(lengthA, lengthC);
    TwoTotal(lengthB, lengthD);
  }

  lemma TwoTotal(m: nat, n: nat)
    ensures Total([m, n]) == m + n
  {
    assert [m, n][1..] == [n] && [n][1..] == [];
    assert Total([n]) == n;
  }

  /** Two tensors with one A for two positions each: the joined A has two positions for four. */
  lemma CatExample() returns (ls: seq<Lora>)
    ensures AllFit(ls) && CatAll(ls).Some? && !Fits(CatAll(ls).value)
  {
    var l := Thin(1, 1.0, 2);
    ls := [l, l];
    ThinFits(1, 1.0, 2);
    CatOfThin(l, l, 1, 1.0, 2, 1, 1.0, 2);
    var m := CatAll(ls).value;
    assert m.a.shape[0] == 2 && m.b.shape[0] == 4;
  }

  /** A tensor without a position, but with an A, in front of another one: the joined tensor has the shapes of a
      product, and takes the A of the first for the second. */
  lemma CatOfEmptyExample() returns (ls: seq<Lora>)
    ensures AllFit(ls) && CatAll(ls).Some? && Fits(CatAll(ls).value)
    ensures Cat(Products(ls)).Some? && !Same(Dense(CatAll(ls).value), Cat(Products(ls)).value)
  {
    var p, q := Thin(1, 1.0, 0), Thin(1, 2.0, 2);
    ls := [p, q];
    ThinFits(1, 1.0, 0);
    ThinFits(1, 2.0, 2);
    CatOfThin(p, q, 1, 1.0, 0, 1, 2.0, 2);
    var m := CatAll(ls).value;
    assert m.a.shape[0] == 2 && m.b.shape[0] == 2;
    JoinedShapes(ls);
    var dense := Cat(Products(ls)).value;
    var ix := [0, 0, 0];
    assert InShape(m.Shape(), ix);
    JoinedValue(p, q, m);
    ProductValue(p, q);
  }

  lemma JoinedValue(p: Lora, q: Lora, m: Lora)
    requires p == Thin(1, 1.0, 0) && q == Thin(1, 2.0, 2)
    requires CatAll([p, q]) == Some(m) && m.a.shape == [2, 1, 1] && m.b.shape == [2, 1, 1] && m.Valid()
    ensures Dense(m).at([0, 0, 0]) == 1.0
  {
    CatOfThin(p, q, 1, 1.0, 0, 1, 2.0, 2);
    var ix := [0, 0, 0];
    assert IndexA(m, ix, 0) == [0, 0, 0] && IndexB(m, ix, 0) == [0, 0, 0];
    var da, db := [1, 1], [0, 2];
    assert Locate(da, 0) == (0, 0);
    assert db[1..] == [2] && Locate(db, 0) == (1, 0) by { TwoTotal(0, 2); }
    assert FactorsA([p, q])[0] == p.a && FactorsB([p, q])[1] == q.b;
    assert m.a.at([0, 0, 0]) == 1.0;
    assert m.b.at([0, 0, 0]) == 1.0;
    OneTerm((k: nat) => m.b.at(IndexB(m, ix, k)) * m.a.at(IndexA(m, ix, k)));
  }

  lemma OneTerm(f: nat -> real)
    ensures Sum(1, f) == f(0)
  {
    assert Sum(0, f) == 0.0;
  }

  lemma ProductValue(p: Lora, q: Lora)
    requires p == Thin(1, 1.0, 0) && q == Thin(1, 2.0, 2)
    ensures p.Valid() && q.Valid() && Cat(Products([p, q])).Some? && Cat(Products([p, q])).value.at([0, 0, 0]) == 2.0
  {
    assert p.Shape() == [0, 1, 1] && q.Shape() == [2, 1, 1];
    ThinValue(q, 2.0, 2);
    var ls := [p, q];
    assert Products(ls) == [Dense(p), Dense(q)];
    assert Dense(p).shape == [0, 1, 1] && Dense(q).shape == [2, 1, 1];
    hide Dense;
    SecondOfTwo(Dense(p), Dense(q), 2);
  }

  lemma SecondOfTwo(t: Tensor, u: Tensor, n: nat)
    requires t.shape == [0, 1, 1] && u.shape == [n, 1, 1] && n > 0
    ensures Cat([t, u]).Some? && Cat([t, u]).value.at([0, 0, 0]) == u.at([0, 0, 0])
  {
    assert t.shape[1..] == [1, 1] && u.shape[1..] == [1, 1];
    var dims := FirstDims([t, u]);
    assert dims == [0, n] && dims[1..] == [n];
    TwoTotal(0, n);
    assert Locate(dims, 0) == (1, 0);
    assert [0] + [0, 0, 0][1..] == [0, 0, 0];
  }

  lemma ThinValue(q: Lora, a: real, length: nat)
    requires q == Thin(1, a, length)
    ensures q.Valid() && Dense(q).at([0, 0, 0]) == a
  {
    var at := [0, 0, 0];
    assert q.b.at(IndexB(q, at, 0)) * q.a.at(IndexA(q, at, 0)) == a;
    OneTerm((k: nat) => q.b.at(IndexB(q, at, k)) * q.a.at(IndexA(q, at, k)));
  }

  // ---- Where an operand does not pick its own A, some tensors of these shapes tell

  /** A tensor that tells by its elements which operand it is, and the position along the first axis. */
  function Telling(shape: seq<nat>, operand: nat, base: nat): Tensor {
    Tensor(shape, ix => if ix == [] then 0.0 else (operand * base + ix[0]) as real)
  }

  /** Tensors of the given shapes whose A tells operand and position, and whose B is one throughout. */
  function TellingOnes(ls: seq<Lora>, base: nat): (ms: seq<Lora>)
    ensures |ms| == |ls|
  {
    seq(|ls|, i requires 0 <= i < |ls| => Lora(Telling(ls[i].a.shape, i, base), Filled(ls[i].b.shape, 1.0)))
  }

  predicate SameShapesAs(ms: seq<Lora>, ls: seq<Lora>) {
    |ms| == |ls| && forall i :: 0 <= i < |ls| ==> ms[i].a.shape == ls[i].a.shape && ms[i].b.shape == ls[i].b.shape
  }

  lemma ShapesDecide(ms: seq<Lora>, ls: seq<Lora>)
    requires AllFit(ls) && ls != [] && ls[0].Dims() > 2 && CatAll(ls).Some? && SameShapesAs(ms, ls)
    ensures AllFit(ms) && CatAll(ms).Some? && ms[0].Dims() == ls[0].Dims()
    ensures Joinable(FactorsA(ms)) && Joinable(FactorsB(ms)) && Joinable(FactorsA(ls)) && Joinable(FactorsB(ls))
    ensures FirstDims(FactorsA(ms)) == FirstDims(FactorsA(ls)) && FirstDims(FactorsB(ms)) == FirstDims(FactorsB(ls))
    ensures CatAll(ms).value.a.shape == CatAll(ls).value.a.shape && CatAll(ms).value.b.shape == CatAll(ls).value.b.shape
  {
    hide Total;
    hide Locate;
    forall i | 0 <= i < |ms|
      ensures Fits(ms[i])
    {
      assert Fits(ls[i]);
    }
    forall i | 0 <= i < |ms|
      ensures FactorsA(ms)[i].shape == FactorsA(ls)[i].shape && FactorsB(ms)[i].shape == FactorsB(ls)[i].shape
    {
    }
  }

  lemma {:induction false} SumOfSame(n: nat, f: nat -> real, c: real)
    requires forall k :: 0 <= k < n ==> f(k) == c
    ensures Sum(n, f) == n as real * c
  {
    if n > 0 {
      SumOfSame(n - 1, f, c);
    }
  }

  /** An element of a product whose B is one throughout, and whose A is the same all along the sum. */
  lemma ProductOfSame(l: Lora, ix: seq<nat>, c: real)
    requires l.Valid() && |ix| == l.Dims()
    requires forall k :: 0 <= k < l.Rank() ==> l.b.at(IndexB(l, ix, k)) == 1.0 && l.a.at(IndexA(l, ix, k)) == c
    ensures DenseAt(l, ix) == l.Rank() as real * c
  {
    SumOfSame(l.Rank(), (k: nat) => l.b.at(IndexB(l, ix, k)) * l.a.at(IndexA(l, ix, k)), c);
  }

  lemma CodesDiffer(i: nat, j: nat, p: nat, q: nat, base: nat)
    requires j < base && q < base && i * base + j == p * base + q
    ensures i == p && j == q
  {
    assert (i - p) * base == q - j;
    SmallMultiple(i - p, base);
  }

  /** What such a product tells. */
  function Told(rank: nat, operand: nat, position: nat, base: nat): real {
    rank as real * (operand * base + position) as real
  }

  lemma TellingOperand(ls: seq<Lora>, base: nat, i: nat, j: nat, y: seq<nat>)
    requires AllFit(ls) && i < |ls| && ls[i].Dims() == |y| + 1 > 2
    ensures var l := TellingOnes(ls, base)[i];
            && l.Valid() && l.Dims() == |y| + 1
            && DenseAt(l, [j] + y) == Told(ls[i].Rank(), i, if ls[i].a.shape[0] == 1 then 0 else j, base)
  {
    assert Fits(ls[i]);
    var l := TellingOnes(ls, base)[i];
    forall k | 0 <= k < l.Rank()
      ensures l.b.at(IndexB(l, [j] + y, k)) == 1.0
      ensures l.a.at(IndexA(l, [j] + y, k)) == (i * base + if ls[i].a.shape[0] == 1 then 0 else j) as real
    {
      SplitFirst(l, j, y, k);
    }
    ProductOfSame(l, [j] + y, (i * base + if ls[i].a.shape[0] == 1 then 0 else j) as real);
  }

  /** The operand, and the position of it, whose A a position of the joined tensor picks. */
  function PickedPart(da: seq<nat>, x: nat): (nat, nat)
    requires x < Total(da) || Total(da) == 1
  {
    Locate(da, if Total(da) == 1 then 0 else x)
  }

  lemma JoinedAt(ms: seq<Lora>, m: Lora)
    requires AllFit(ms) && ms != [] && ms[0].Dims() > 2 && CatAll(ms) == Some(m)
    ensures Joinable(FactorsA(ms)) && Joinable(FactorsB(ms)) && m.Valid() && m.Dims() == ms[0].Dims()
    ensures m.a.shape[0] == Total(FirstDims(FactorsA(ms)))
    ensures forall ix :: m.a.at(ix) == CatAt(FactorsA(ms), ix) && m.b.at(ix) == CatAt(FactorsB(ms), ix)
  {
    hide CatAt;
    hide Total;
    assert |FactorsB(ms)[0].shape[1..]| + 1 == ms[0].Dims();
  }

  lemma TellingElement(ls: seq<Lora>, ms: seq<Lora>, m: Lora, base: nat, x: nat, y: seq<nat>, k: nat)
    requires ms == TellingOnes(ls, base) && Joinable(FactorsA(ms)) && Joinable(FactorsB(ms)) && |y| >= 2
    requires m.Valid() && m.Dims() == |y| + 1 && m.a.shape[0] == Total(FirstDims(FactorsA(ms)))
    requires forall ix :: m.a.at(ix) == CatAt(FactorsA(ms), ix) && m.b.at(ix) == CatAt(FactorsB(ms), ix)
    requires x < Total(FirstDims(FactorsB(ms))) && (x < Total(FirstDims(FactorsA(ms))) || m.a.shape[0] == 1)
    ensures m.b.at(IndexB(m, [x] + y, k)) == 1.0
    ensures var part := PickedPart(FirstDims(FactorsA(ms)), x);
            m.a.at(IndexA(m, [x] + y, k)) == (part.0 * base + part.1) as real
  {
    hide CatAt;
    hide Total;
    hide Locate;
    hide Joinable;
    hide TellingOnes;
    var rest := Broadcast(m.a.shape[1..], y[..|y| - 2]) + [k, y[|y| - 1]];
    SplitFirst(m, x, y, k);
    TellingAt(ls, base, if m.a.shape[0] == 1 then 0 else x, rest);
    OnesAt(ls, base, x, IndexB(m, [x] + y, k));
  }

  lemma TellingJoined(ls: seq<Lora>, ms: seq<Lora>, m: Lora, base: nat, x: nat, y: seq<nat>)
    requires ms == TellingOnes(ls, base) && AllFit(ms) && ms != [] && CatAll(ms) == Some(m)
    requires ms[0].Dims() == |y| + 1 > 2
    requires Joinable(FactorsA(ms)) && Joinable(FactorsB(ms))
    requires var da, db := FirstDims(FactorsA(ms)), FirstDims(FactorsB(ms));
             x < Total(db) && (x < Total(da) || Total(da) == 1)
    ensures m.Dims() == |y| + 1
    ensures var part := PickedPart(FirstDims(FactorsA(ms)), x);
            DenseAt(m, [x] + y) == Told(m.Rank(), part.0, part.1, base)
  {
    hide TellingOnes;
    hide CatAll;
    hide PickedPart;
    hide Joinable;
    hide Total;
    hide DenseAt;
    JoinedAt(ms, m);
    var part := PickedPart(FirstDims(FactorsA(ms)), x);
    forall k | 0 <= k < m.Rank()
      ensures m.b.at(IndexB(m, [x] + y, k)) == 1.0
      ensures m.a.at(IndexA(m, [x] + y, k)) == (part.0 * base + part.1) as real
    {
      TellingElement(ls, ms, m, base, x, y, k);
    }
    ProductOfSame(m, [x] + y, (part.0 * base + part.1) as real);
  }

  lemma TellingAt(ls: seq<Lora>, base: nat, xa: nat, rest: seq<nat>)
    requires Joinable(FactorsA(TellingOnes(ls, base))) && xa < Total(FirstDims(FactorsA(TellingOnes(ls, base))))
    ensures var fa := FactorsA(TellingOnes(ls, base)); var part := Locate(FirstDims(fa), xa);
            CatAt(fa, [xa] + rest) == (part.0 * base + part.1) as real
  {
    assert ([xa] + rest)[0] == xa;
  }

  lemma OnesAt(ls: seq<Lora>, base: nat, x: nat, ix: seq<nat>)
    requires Joinable(FactorsB(TellingOnes(ls, base))) && x < Total(FirstDims(FactorsB(TellingOnes(ls, base))))
    requires ix != [] && ix[0] == x
    ensures CatAt(FactorsB(TellingOnes(ls, base)), ix) == 1.0
  {
  }

  lemma {:induction false} PartOfTotal(dims: seq<nat>, i: nat)
    requires i < |dims|
    ensures dims[i] <= Total(dims)
  {
    if i > 0 {
      PartOfTotal(dims[1..], i - 1);
    }
  }

  /** The two sides at a position that does not pick its own. */
  lemma TellsApart(da: seq<nat>, db: seq<nat>, x: nat, rank: nat, base: nat)
    requires |da| == |db| && x < Total(db) && (x < Total(da) || Total(da) == 1) && !PicksOwnAt(da, db, x)
    requires rank > 0 && base > Total(da) && base > Total(db)
    ensures var part, own := PickedPart(da, x), Locate(db, x);
            Told(rank, part.0, part.1, base) != Told(rank, own.0, if da[own.0] == 1 then 0 else own.1, base)
  {
    hide Told;
    hide Total;
    hide Locate;
    var part, own := PickedPart(da, x), Locate(db, x);
    PartOfTotal(da, part.0);
    PartOfTotal(db, own.0);
    ToldApart(rank, part.0, part.1, own.0, if da[own.0] == 1 then 0 else own.1, base);
  }

  lemma ToldApart(rank: nat, i: nat, j: nat, p: nat, q: nat, base: nat)
    requires rank > 0 && j < base && q < base && (i, j) != (p, q)
    ensures Told(rank, i, j, base) != Told(rank, p, q, base)
  {
    if i * base + j == p * base + q {
      CodesDiffer(i, j, p, q, base);
    }
    CancelReal(rank as real, (i * base + j) as real, (p * base + q) as real);
  }

  lemma CancelReal(r: real, a: real, b: real)
    requires r > 0.0 && a != b
    ensures r * a != r * b
  {
    assert r * (a - b) == r * a - r * b;
    if a > b {
      assert r * (a - b) > 0.0;
    } else {
      assert r * (b - a) > 0.0;
    }
  }

  lemma JoinedProductAt(ms: seq<Lora>, x: nat, y: seq<nat>)
    requires AllFit(ms) && ms != [] && ms[0].Dims() > 2 && CatAll(ms).Some?
    requires Joinable(FactorsA(ms)) && Joinable(FactorsB(ms)) && x < Total(FirstDims(FactorsB(ms)))
    ensures var own := Locate(FirstDims(FactorsB(ms)), x);
            Cat(Products(ms)).Some? && Cat(Products(ms)).value.at([x] + y) == Dense(ms[own.0]).at([own.1] + y)
  {
    hide Total;
    hide Locate;
    hide Dense;
    JoinedShapes(ms);
    assert ([x] + y)[0] == x && ([x] + y)[1..] == y;
  }

  lemma JoinedIndex(m: Lora, l: Lora, total: nat, x: nat, y: seq<nat>)
    requires m.Valid() && l.Valid() && l.Dims() == |y| + 1 > 2 && x < total
    requires m.Shape() == [total] + l.Shape()[1..]
    requires (forall i :: 1 <= i < l.Dims() ==> l.Shape()[i] > 0) && forall i :: 0 <= i < |y| ==> y[i] == 0
    ensures InShape(m.Shape(), [x] + y)
  {
    forall i | 0 <= i < |m.Shape()|
      ensures ([x] + y)[i] < m.Shape()[i]
    {
      assert i > 0 ==> m.Shape()[i] == l.Shape()[i];
    }
  }

  /** The converse of what concatenation promises, for shapes: if a position does not pick its own operand, tensors of
      these very shapes are joined to factors that stand for another product than the joined one, unless nothing can be
      told because the rank is zero or another axis is empty. */
  lemma OwnMustBePicked(ls: seq<Lora>) returns (ms: seq<Lora>)
    requires AllFit(ls) && ls != [] && ls[0].Dims() > 2 && CatAll(ls).Some? && Fits(CatAll(ls).value)
    requires Joinable(FactorsA(ls)) && Joinable(FactorsB(ls)) && !OwnIsPicked(ls)
    requires ls[0].Rank() > 0 && forall i :: 1 <= i < ls[0].Dims() ==> ls[0].Shape()[i] > 0
    ensures SameShapesAs(ms, ls) && AllFit(ms) && CatAll(ms).Some? && Fits(CatAll(ms).value)
    ensures Cat(Products(ms)).Some? && !Same(Dense(CatAll(ms).value), Cat(Products(ms)).value)
  {
    hide Locate;
    hide PicksOwnAt;
    hide Same;
    hide Products;
    JoinedFits(ls, CatAll(ls).value);
    hide CatAt;
    var da, db := FirstDims(FactorsA(ls)), FirstDims(FactorsB(ls));
    var x: nat :| x < Total(db) && !PicksOwnAt(da, db, x);
    var base := Total(da) + Total(db) + 1;
    ms := TellingOnes(ls, base);
    ShapesDecide(ms, ls);
    OtherProduct(ls, ms, base, x);
  }

  lemma OtherProduct(ls: seq<Lora>, ms: seq<Lora>, base: nat, x: nat)
    requires AllFit(ls) && ls != [] && ls[0].Dims() > 2 && ms == TellingOnes(ls, base) && SameShapesAs(ms, ls)
    requires AllFit(ms) && CatAll(ms).Some? && ms[0].Dims() == ls[0].Dims()
    requires Joinable(FactorsA(ms)) && Joinable(FactorsB(ms))
    requires var da, db := FirstDims(FactorsA(ms)), FirstDims(FactorsB(ms));
             && x < Total(db) && (x < Total(da) || Total(da) == 1) && !PicksOwnAt(da, db, x)
             && base > Total(da) && base > Total(db)
    requires ls[0].Rank() > 0 && forall i :: 1 <= i < ls[0].Dims() ==> ls[0].Shape()[i] > 0
    ensures Cat(Products(ms)).Some? && !Same(Dense(CatAll(ms).value), Cat(Products(ms)).value)
  {
    hide Total;
    hide Locate;
    hide TellingOnes;
    hide DenseAt;
    hide PicksOwnAt;
    hide CatAll;
    hide Cat;
    ShapesOf(ms, ls, 0);
    hide SameShapesAs;
    var db, m := FirstDims(FactorsB(ms)), CatAll(ms).value;
    var y := seq(ls[0].Dims() - 1, i => 0);
    var own := Locate(db, x);
    OtherElement(ls, ms, m, base, x, y);
    JoinedProductAt(ms, x, y);
    JoinedIndexFits(ls, ms, x, y);
    DenseIs(m, [x] + y);
    DenseIs(ms[own.0], [own.1] + y);
    hide Dense;
    assert Dense(m).at([x] + y) != Cat(Products(ms)).value.at([x] + y);
  }

  lemma DenseIs(l: Lora, ix: seq<nat>)
    requires l.Valid() && |ix| == l.Dims()
    ensures Dense(l).at(ix) == DenseAt(l, ix) && Dense(l).shape == l.Shape()
  {
  }

  lemma JoinedIndexFits(ls: seq<Lora>, ms: seq<Lora>, x: nat, y: seq<nat>)
    requires AllFit(ls) && ls != [] && ls[0].Dims() == |y| + 1 > 2 && SameShapesAs(ms, ls)
    requires AllFit(ms) && CatAll(ms).Some? && ms[0].Dims() == ls[0].Dims()
    requires Joinable(FactorsA(ms)) && Joinable(FactorsB(ms)) && x < Total(FirstDims(FactorsB(ms)))
    requires (forall i :: 1 <= i < ls[0].Dims() ==> ls[0].Shape()[i] > 0) && forall i :: 0 <= i < |y| ==> y[i] == 0
    ensures InShape(CatAll(ms).value.Shape(), [x] + y)
  {
    hide Total;
    hide CatAt;
    var m, total := CatAll(ms).value, Total(FirstDims(FactorsB(ms)));
    JoinedShapeOf(ms[0], m, total);
    assert ms[0].Shape() == ls[0].Shape();
    JoinedIndex(m, ms[0], total, x, y);
  }

  lemma OtherElement(ls: seq<Lora>, ms: seq<Lora>, m: Lora, base: nat, x: nat, y: seq<nat>)
    requires AllFit(ls) && ls != [] && ms == TellingOnes(ls, base) && SameShapesAs(ms, ls)
    requires AllFit(ms) && CatAll(ms) == Some(m) && ms[0].Dims() == |y| + 1 > 2
    requires Joinable(FactorsA(ms)) && Joinable(FactorsB(ms)) && ms[0].Rank() > 0
    requires var da, db := FirstDims(FactorsA(ms)), FirstDims(FactorsB(ms));
             && x < Total(db) && (x < Total(da) || Total(da) == 1) && !PicksOwnAt(da, db, x)
             && base > Total(da) && base > Total(db)
    ensures var own := Locate(FirstDims(FactorsB(ms)), x);
            && m.Valid() && ms[own.0].Valid() && m.Dims() == |y| + 1 == ms[own.0].Dims()
            && DenseAt(m, [x] + y) != DenseAt(ms[own.0], [own.1] + y)
  {
    hide Total;
    hide Locate;
    hide TellingOnes;
    hide DenseAt;
    hide PicksOwnAt;
    hide PickedPart;
    hide Told;
    var da, db := FirstDims(FactorsA(ms)), FirstDims(FactorsB(ms));
    var own := Locate(db, x);
    SameRanks(ms, m);
    ShapesOf(ms, ls, own.0);
    hide SameShapesAs;
    hide CatAll;
    hide Fits;
    TellingJoined(ls, ms, m, base, x, y);
    TellingOperand(ls, base, own.0, own.1, y);
    assert da[own.0] == ls[own.0].a.shape[0];
    TellsApart(da, db, x, m.Rank(), base);
  }

  lemma ShapesOf(ms: seq<Lora>, ls: seq<Lora>, i: nat)
    requires AllFit(ls) && AllFit(ms) && SameShapesAs(ms, ls) && i < |ls|
    ensures ls[i].Valid() && ms[i].Valid() && ms[i].Dims() == ls[i].Dims() && ms[i].Rank() == ls[i].Rank()
    ensures ms[i].a.shape == ls[i].a.shape
  {
    assert Fits(ls[i]) && Fits(ms[i]);
  }

  lemma SameRanks(ms: seq<Lora>, m: Lora)
    requires AllFit(ms) && ms != [] && ms[0].Dims() > 2 && CatAll(ms) == Some(m)
    ensures m.Valid()
    ensures forall i :: 0 <= i < |ms| ==>
      ms[i].Valid() && ms[i].Rank() == m.Rank() == ms[0].Rank() && ms[i].Dims() == ms[0].Dims()
  {
    hide Total;
    hide CatAt;
    JoinedShapes(ms);
    var d := ms[0].Dims();
    forall i | 0 <= i < |ms|
      ensures ms[i].b.shape[d - 1] == m.b.shape[d - 1] == ms[0].b.shape[d - 1]
    {
      assert ms[i].b.shape[1..][d - 2] == ms[i].b.shape[d - 1] && m.b.shape[1..][d - 2] == m.b.shape[d - 1];
    }
  }
}
