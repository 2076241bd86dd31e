/** Indexing a factored tensor is indexing its product. */
module LoraPicks {
  import opened Text
  import opened Tensors
  import opened Lora

  lemma {:induction false} ResolveAllIs(items: seq<Item>, shape: seq<nat>, sels: seq<Sel>)
    requires |items| == |shape| == |sels|
    requires forall i :: 0 <= i < |items| ==> Resolve(items[i], shape[i]) == Some(sels[i])
    ensures ResolveAll(items, shape) == Some(sels)
  {
    hide Resolve;
    if items != [] {
      ResolveAllIs(items[1..], shape[1..], sels[1..]);
      assert Resolve(items[0], shape[0]) == Some(sels[0]);
      assert sels == [sels[0]] + sels[1..];
    }
  }

  lemma FullAligned(lengthA: nat, length: nat)
    requires lengthA == length || lengthA == 1
    ensures Aligned(lengthA, FullSel(length), FullSel(lengthA))
  {
    forall x: nat | x < length
      ensures StepTo(0, 1, x) == x
    {
    }
  }

  lemma IntAligned(lengthA: nat, length: nat, j: int)
    requires lengthA == length || lengthA == 1
    requires Resolve(At(j), lengthA).Some? && Resolve(At(j), length).Some?
    ensures Aligned(lengthA, Resolve(At(j), length).value, Resolve(At(j), lengthA).value)
  {
  }

  /** The same slice on both axes: A is picked rightly exactly when its axis keeps what is needed. */
  predicate SliceFits(lengthA: nat, length: nat, s: Item)
    requires s.Slice?
  {
    lengthA == length ||
    (Resolve(s, lengthA).Some? && Resolve(s, length).Some? &&
     (Resolve(s, lengthA).value.count == 1 || Resolve(s, length).value.count == 0))
  }

  lemma ProgressionCount(sel: Sel, length: nat)
    requires sel.Many? && sel.step >= 1 && SelWithin(sel, length)
    ensures sel.count <= length
  {
    if sel.count > 0 {
      var n := sel.count;
      assert StepTo(sel.start, sel.step, n - 1) < length;
      MulMonotone(1, sel.step, n - 1);
    }
  }

  lemma {:induction false} SliceCount(length: nat, s: Item)
    requires s.Slice? && Resolve(s, length).Some?
    ensures Resolve(s, length).value.Many? && Resolve(s, length).value.count <= length
    ensures Resolve(s, length).value.step >= 1 && SelWithin(Resolve(s, length).value, length)
  {
    hide SelWithin;
    ProgressionCount(Resolve(s, length).value, length);
  }

  lemma SliceAligned(lengthA: nat, length: nat, s: Item)
    requires s.Slice? && (lengthA == length || lengthA == 1)
    requires Resolve(s, lengthA).Some? && Resolve(s, length).Some?
    ensures SliceFits(lengthA, length, s) <==> Aligned(lengthA, Resolve(s, length).value, Resolve(s, lengthA).value)
    ensures SliceFits(lengthA, length, s) <==>
            (Resolve(s, lengthA).value.count == Resolve(s, length).value.count || Resolve(s, lengthA).value.count == 1)
  {
    var sel, selA := Resolve(s, length).value, Resolve(s, lengthA).value;
    SliceCount(length, s);
    SliceCount(lengthA, s);
    assert SelWithin(sel, length) && SelWithin(selA, lengthA);
    if SliceFits(lengthA, length, s) {
      forall x: nat | x < sel.count
        ensures (if lengthA == 1 then 0 else StepTo(sel.start, sel.step, x)) ==
            StepTo(selA.start, selA.step, if selA.count == 1 then 0 else x)
      {
        var y := if selA.count == 1 then 0 else x;
        assert StepTo(selA.start, selA.step, y) < lengthA;
        assert sel.count == 1 ==> x == 0;
      }
    }
  }

  /** A leading slice in a tuple is not applied to A: that is right when A is broadcast or the slice is full. */
  lemma TupleSliceAligned(lengthA: nat, length: nat, sel: Sel)
    requires lengthA == length || lengthA == 1
    requires sel.Many? && sel.step >= 1 && sel.count <= length && SelWithin(sel, length)
    ensures Aligned(lengthA, sel, FullSel(lengthA)) <==> (lengthA == 1 || sel.count == length)
  {
    hide StepTo;
    hide SelWithin;
    if lengthA == 1 {
      StepOne(0);
    } else if sel.count == length {
      forall x: nat | x < sel.count
        ensures StepTo(sel.start, sel.step, x) == StepTo(0, 1, x)
      {
        FullProgression(sel, length, x);
      }
    }
  }

  /** As many positions as there are leave no choice. */
  lemma FullProgression(sel: Sel, length: nat, x: nat)
    requires sel.Many? && SelWithin(sel, length) && sel.count == length && sel.step >= 1 && x < length
    ensures StepTo(sel.start, sel.step, x) == x == StepTo(0, 1, x)
  {
    var last := length - 1;
    assert StepTo(sel.start, sel.step, last) < length;
    MulMonotone(1, sel.step, last);
    assert sel.start == 0;
    if last > 0 && sel.step > 1 {
      MulMonotone(2, sel.step, last);
    }
    assert x * sel.step == x;
  }

  lemma TupleIntAligned(lengthA: nat, length: nat, j: int)
    requires lengthA > 0 && (lengthA == length || lengthA == 1)
    requires Resolve(At(j), length).Some?
    ensures Resolve(At(j % lengthA), lengthA).Some?
    ensures Aligned(lengthA, Resolve(At(j), length).value, Resolve(At(j % lengthA), lengthA).value)
  {
    if lengthA == length && j < 0 {
      QuotientIs(j, length, -1, j + length);
    } else if lengthA == length {
      QuotientIs(j, length, 0, j);
    }
  }

  /** The selections of a padded index, axis by axis. */
  lemma GetItemIs(t: Tensor, items: seq<Item>, sels: seq<Sel>)
    requires |items| <= |t.shape| == |sels|
    requires forall i :: 0 <= i < |sels| ==> Resolve(Padded(items, |t.shape|)[i], t.shape[i]) == Some(sels[i])
    ensures GetItem(t, items) == Some(Pick(t, sels))
  {
    hide Resolve;
    ResolveAllIs(Padded(items, |t.shape|), t.shape, sels);
  }

  /** The selections that made an index succeed. */
  lemma SelsOf(t: Tensor, items: seq<Item>) returns (sels: seq<Sel>)
    requires GetItem(t, items).Some?
    ensures |items| <= |t.shape| == |sels|
    ensures forall i :: 0 <= i < |sels| ==> Resolve(Padded(items, |t.shape|)[i], t.shape[i]) == Some(sels[i])
    ensures GetItem(t, items) == Some(Pick(t, sels))
  {
    hide Resolve;
    sels := ResolveAll(Padded(items, |t.shape|), t.shape).value;
  }

  ghost predicate SelAxesFit(sels: seq<Sel>, selsA: seq<Sel>) {
    |sels| == |selsA| && forall i :: 0 <= i < |sels| ==> (sels[i].One? <==> selsA[i].One?)
  }

  predicate OneOrSame(x: nat, y: nat) {
    x == y || x == 1
  }

  predicate AllOneOrSame(p: seq<nat>, q: seq<nat>) {
    |p| == |q| && forall i :: 0 <= i < |p| ==> OneOrSame(p[i], q[i])
  }

  predicate KeptFits(sel: Sel, selA: Sel)
    requires sel.One? <==> selA.One?
  {
    sel.Many? ==> OneOrSame(selA.count, sel.count)
  }

  ghost predicate AllKeptFit(sels: seq<Sel>, selsA: seq<Sel>)
    requires SelAxesFit(sels, selsA)
  {
    forall i :: 0 <= i < |sels| ==> KeptFits(sels[i], selsA[i])
  }

  lemma OneMoreAxis(x: nat, p: seq<nat>, y: nat, q: seq<nat>)
    requires |p| == |q|
    ensures AllOneOrSame([x] + p, [y] + q) <==> OneOrSame(x, y) && AllOneOrSame(p, q)
  {
    hide OneOrSame;
    var p1, q1 := [x] + p, [y] + q;
    assert p1[0] == x && q1[0] == y;
    assert forall i :: 0 <= i < |p| ==> p1[i + 1] == p[i] && q1[i + 1] == q[i];
    if AllOneOrSame(p1, q1) {
      forall i | 0 <= i < |p|
        ensures OneOrSame(p[i], q[i])
      {
        assert OneOrSame(p1[i + 1], q1[i + 1]);
      }
      assert OneOrSame(p1[0], q1[0]);
    }
  }

  /** Read back from the shapes: every kept leading axis of A is equal or broadcast. */
  lemma {:induction false} ShapesTellCounts(sels: seq<Sel>, selsA: seq<Sel>)
    requires SelAxesFit(sels, selsA)
    ensures |PickShape(sels)| == |PickShape(selsA)|
    ensures AllOneOrSame(PickShape(selsA), PickShape(sels)) <==> AllKeptFit(sels, selsA)
  {
    hide AllOneOrSame;
    hide KeptFits;
    if sels == [] {
      assert AllOneOrSame([], []) by { NoAxes(); }
    } else {
      var s1, a1 := sels[1..], selsA[1..];
      ShapesTellCounts(s1, a1);
      AllKeptSplits(sels, selsA);
      assert sels[0].One? <==> selsA[0].One?;
      if sels[0].Many? {
        OneMoreAxis(selsA[0].count, PickShape(a1), sels[0].count, PickShape(s1));
        KeptMany(sels[0], selsA[0]);
      } else {
        assert PickShape(sels) == PickShape(s1) && PickShape(selsA) == PickShape(a1);
        KeptMany(sels[0], selsA[0]);
      }
    }
  }

  lemma NoAxes()
    ensures AllOneOrSame([], [])
  {
  }

  lemma KeptMany(sel: Sel, selA: Sel)
    requires sel.One? <==> selA.One?
    ensures KeptFits(sel, selA) <==> (sel.Many? ==> OneOrSame(selA.count, sel.count))
  {
  }

  lemma AllKeptSplits(sels: seq<Sel>, selsA: seq<Sel>)
    requires SelAxesFit(sels, selsA) && sels != []
    ensures SelAxesFit(sels[1..], selsA[1..])
    ensures AllKeptFit(sels, selsA) <==> KeptFits(sels[0], selsA[0]) && AllKeptFit(sels[1..], selsA[1..])
  {
    hide KeptFits;
    var s1, a1 := sels[1..], selsA[1..];
    assert forall i :: 0 <= i < |s1| ==> s1[i] == sels[i + 1] && a1[i] == selsA[i + 1];
    if AllKeptFit(s1, a1) && KeptFits(sels[0], selsA[0]) {
      forall i | 0 <= i < |sels|
        ensures KeptFits(sels[i], selsA[i])
      {
        if i > 0 {
          assert KeptFits(s1[i - 1], a1[i - 1]);
        }
      }
    }
  }

  /** Any picking of the two factors whose last two axes are handled as in PickCommutes. */
  lemma PickedPairFits(l: Lora, lead: seq<Sel>, row: Sel, col: Sel, leadA: seq<Sel>)
    requires l.Valid() && |lead| == l.Dims() - 2 && row.Many? && col.Many? && SelAxesFit(lead, leadA)
    ensures var m := Lora(PickedA(l, leadA, col), PickedB(l, lead, row));
            && m.Valid()
            && (Fits(m) <==> AllKeptFit(lead, leadA))
  {
    ShapesTellCounts(lead, leadA);
    var full := FullSel(l.Rank());
    var zeros := seq(|PickShape(lead)|, i => 0);
    PickPair(lead, row, full, zeros, 0, 0);
    PickPair(leadA, full, col, zeros, 0, 0);
    var m := Lora(PickedA(l, leadA, col), PickedB(l, lead, row));
    assert m.a.shape[..m.Dims() - 2] == PickShape(leadA) && m.b.shape[..m.Dims() - 2] == PickShape(lead);
    assert forall p :: 0 <= p < |PickShape(lead)| ==>
        m.a.shape[p] == PickShape(leadA)[p] && m.b.shape[p] == PickShape(lead)[p];
  }

  /** One item and then full slices: the selections, and the product's. */
  lemma OneItem(l: Lora, item: Item, sa: seq<Sel>, sb: seq<Sel>)
    requires Fits(l) && l.Dims() > 2 && |sa| == |sb| == l.Dims()
    requires forall i :: 0 <= i < |sa| ==> Resolve(Padded([item], l.Dims())[i], l.a.shape[i]) == Some(sa[i])
    requires forall i :: 0 <= i < |sb| ==> Resolve(Padded([item], l.Dims())[i], l.b.shape[i]) == Some(sb[i])
    ensures var n := l.Dims();
            var row, col, full := FullSel(l.b.shape[n - 2]), FullSel(l.a.shape[n - 1]), FullSel(l.Rank());
            && sb == sb[..n - 2] + [row, full] && sa == sa[..n - 2] + [full, col]
            && (forall i :: 0 < i < n - 2 ==> sb[i] == FullSel(l.b.shape[i]) && sa[i] == FullSel(l.a.shape[i]))
            && GetItem(Dense(l), [item]) == Some(Pick(Dense(l), sb[..n - 2] + [row, col]))
            && Resolve(item, l.b.shape[0]) == Some(sb[0]) && Resolve(item, l.a.shape[0]) == Some(sa[0])
  {
    hide Resolve;
    hide GetItem;
    hide Pick;
    assert Dense(l).shape == l.Shape();
    hide Dense;
    var n := l.Dims();
    var row, col, full := FullSel(l.b.shape[n - 2]), FullSel(l.a.shape[n - 1]), FullSel(l.Rank());
    assert Padded([item], n)[0] == item;
    forall i | 0 < i < n
      ensures sb[i] == FullSel(l.b.shape[i]) && sa[i] == FullSel(l.a.shape[i])
    {
      FullResolves(l.b.shape[i]);
      FullResolves(l.a.shape[i]);
      assert Padded([item], n)[i] == FULL;
    }
    var sels := sb[..n - 2] + [row, col];
    forall i | 0 <= i < n
      ensures Resolve(Padded([item], n)[i], l.Shape()[i]) == Some(sels[i])
    {
      FullResolves(l.Shape()[i]);
    }
    GetItemIs(Dense(l), [item], sels);
  }

  /** The leading axes behind the first one are full on both factors. */
  lemma FirstDecides(l: Lora, lead: seq<Sel>, leadA: seq<Sel>)
    requires Fits(l) && |lead| == |leadA| == l.Dims() - 2 > 0
    requires Aligned(l.a.shape[0], lead[0], leadA[0])
    requires forall i :: 0 < i < |lead| ==> lead[i] == FullSel(l.b.shape[i]) && leadA[i] == FullSel(l.a.shape[i])
    ensures AllAligned(l.a.shape, lead, leadA)
  {
    hide Aligned;
    forall i | 0 <= i < |lead|
      ensures Aligned(l.a.shape[i], lead[i], leadA[i])
    {
      if i > 0 {
        FullAligned(l.a.shape[i], l.b.shape[i]);
      }
    }
  }

  /** `l[j]` on three axes or more: whenever it succeeds, it is the same position of the product. */
  lemma GetIntCommutes(l: Lora, j: int)
    requires Fits(l) && GetInt(l, j).Some?
    ensures GetItem(Dense(l), [At(j)]).Some? && Fits(GetInt(l, j).value)
    ensures Same(Dense(GetInt(l, j).value), GetItem(Dense(l), [At(j)]).value)
  {
    hide Resolve;
    hide Aligned;
    hide GetItem;
    hide Same;
    hide Padded;
    hide AllAligned;
    hide Dense;
    hide DenseAt;
    hide Pick;
    hide PickIndex;
    hide SelWithin;
    var n := l.Dims();
    var sa := SelsOf(l.a, [At(j)]);
    var sb := SelsOf(l.b, [At(j)]);
    OneItem(l, At(j), sa, sb);
    IntAligned(l.a.shape[0], l.b.shape[0], j);
    FirstDecides(l, sb[..n - 2], sa[..n - 2]);
    PickCommutes(l, sb[..n - 2], FullSel(l.b.shape[n - 2]), FullSel(l.a.shape[n - 1]), sa[..n - 2]);
  }

  /** A bare slice on three axes or more cuts both factors. The result stands for a product exactly when
      the first axis of A is not broadcast, or its single entry survives the slice, or nothing is kept;
      and then it is the slice of the product. */
  lemma {:induction false} GetSliceCommutes(l: Lora, s: Item)
    requires Fits(l) && s.Slice? && l.Dims() > 2 && GetSlice(l, s).Some?
    ensures GetItem(Dense(l), [s]).Some?
    ensures Fits(GetSlice(l, s).value) <==> SliceFits(l.a.shape[0], l.b.shape[0], s)
    ensures SliceFits(l.a.shape[0], l.b.shape[0], s) ==> Same(Dense(GetSlice(l, s).value), GetItem(Dense(l), [s]).value)
  {
    hide Resolve;
    hide Aligned;
    hide GetItem;
    hide Same;
    hide Padded;
    hide PickedA;
    hide PickedB;
    var n := l.Dims();
    var sa := SelsOf(l.a, [s]);
    var sb := SelsOf(l.b, [s]);
    var lead, leadA := sb[..n - 2], sa[..n - 2];
    var row, col := FullSel(l.b.shape[n - 2]), FullSel(l.a.shape[n - 1]);
    OneItem(l, s, sa, sb);
    SliceAligned(l.a.shape[0], l.b.shape[0], s);
    SliceCount(l.a.shape[0], s);
    SliceCount(l.b.shape[0], s);
    assert Lora(PickedA(l, leadA, col), PickedB(l, lead, row)) ==
        GetSlice(l, s).value by { PickedAre(l, lead, row, col, leadA); }
    PickedPairFits(l, lead, row, col, leadA);
    assert AllKeptFit(lead, leadA) <==> KeptFits(lead[0], leadA[0]) by {
      forall i | 0 < i < n - 2
        ensures KeptFits(lead[i], leadA[i])
      {
      }
    }
    if SliceFits(l.a.shape[0], l.b.shape[0], s) {
      FirstDecides(l, lead, leadA);
      PickCommutes(l, lead, row, col, leadA);
    }
  }

  lemma PickedAre(l: Lora, lead: seq<Sel>, row: Sel, col: Sel, leadA: seq<Sel>)
    requires l.Valid()
    ensures PickedA(l, leadA, col) == Pick(l.a, leadA + [FullSel(l.Rank()), col])
    ensures PickedB(l, lead, row) == Pick(l.b, lead + [row, FullSel(l.Rank())])
  {
  }

  /** A product does not change when A is replaced by an equal tensor. */
  lemma SameFactors(l: Lora, m: Lora)
    requires l.Valid() && m.Valid() && l.b == m.b && Same(l.a, m.a) && Fits(l)
    ensures Same(Dense(l), Dense(m)) && Fits(m)
  {
    forall ix | InShape(l.Shape(), ix)
      ensures DenseAt(l, ix) == DenseAt(m, ix)
    {
      forall k | 0 <= k < l.Rank()
        ensures l.a.at(IndexA(l, ix, k)) == m.a.at(IndexA(m, ix, k))
      {
        IndexAInShape(l, ix, k);
      }
      DenseAgrees(l, ix, m, ix);
    }
  }

  lemma IndexAInShape(l: Lora, ix: seq<nat>, k: nat)
    requires Fits(l) && InShape(l.Shape(), ix) && k < l.Rank()
    ensures InShape(l.a.shape, IndexA(l, ix, k)) && InShape(l.b.shape, IndexB(l, ix, k))
  {
    forall i | 0 <= i < l.Dims()
      ensures IndexA(l, ix, k)[i] < l.a.shape[i] && IndexB(l, ix, k)[i] < l.b.shape[i]
    {
      assert ix[i] < l.Shape()[i];
    }
  }

  lemma FullPickIsSame(t: Tensor)
    requires |t.shape| == 2
    ensures Same(Pick(t, [FullSel(t.shape[0]), FullSel(t.shape[1])]), t)
  {
    var p, q := FullSel(t.shape[0]), FullSel(t.shape[1]);
    assert [] + [p, q] == [p, q];
    forall ix | |ix| == 2
      ensures PickIndex([p, q], ix) == ix
    {
      assert ix == [] + [ix[0], ix[1]];
      PickPair([], p, q, [], ix[0], ix[1]);
      StepOne(ix[0]);
      StepOne(ix[1]);
    }
    PickPair([], p, q, [], 0, 0);
    assert PickShape([p, q]) == t.shape;
  }

  /** A bare slice of a matrix cuts the rows of B only. */
  lemma GetRowsCommutes(l: Lora, s: Item)
    requires Fits(l) && s.Slice? && l.Dims() == 2 && GetSlice(l, s).Some?
    ensures GetItem(Dense(l), [s]).Some? && Fits(GetSlice(l, s).value)
    ensures Same(Dense(GetSlice(l, s).value), GetItem(Dense(l), [s]).value)
  {
    hide Resolve;
    var sb := SelsOf(l.b, [s]);
    var row, col, full := sb[0], FullSel(l.a.shape[1]), FullSel(l.Rank());
    assert Padded([s], 2)[0] == s && Padded([s], 2)[1] == FULL;
    SliceCount(l.b.shape[0], s);
    FullResolves(l.b.shape[1]);
    FullResolves(l.a.shape[1]);
    assert sb == [] + [row, full];
    PickCommutes(l, [], row, col, []);
    var m := Lora(PickedA(l, [], col), PickedB(l, [], row));
    assert [] + [full, col] == [FullSel(l.a.shape[0]), FullSel(l.a.shape[1])];
    FullPickIsSame(l.a);
    SameFactors(m, GetSlice(l, s).value);
    GetItemIs(Dense(l), [s], [] + [row, col]);
  }

  /** Leading slices in a tuple are right exactly on broadcast axes of A and where they keep everything. */
  predicate TupleFits(l: Lora, items: seq<Item>)
    requires l.Valid() && |items| <= l.Dims()
  {
    forall i :: 0 <= i < l.Dims() - 2 && Padded(items, l.Dims())[i].Slice? ==>
      l.a.shape[i] == 1 ||
      (Resolve(Padded(items, l.Dims())[i], l.b.shape[i]).Some? &&
       Resolve(Padded(items, l.Dims())[i], l.b.shape[i]).value.Many? &&
       Resolve(Padded(items, l.Dims())[i], l.b.shape[i]).value.count == l.b.shape[i])
  }

  /** The selections that a successful tuple index makes on the factors, and on the product. */
  lemma TupleSels(l: Lora, items: seq<Item>) returns (sa: seq<Sel>, sb: seq<Sel>)
    requires l.Valid() && GetTuple(l, items).Some?
    ensures |items| <= l.Dims() == |sa| == |sb|
    ensures var n, padded := l.Dims(), Padded(items, l.Dims());
            && !padded[n - 2].At? && !padded[n - 1].At?
            && (forall i :: 0 <= i < n - 2 && padded[i].At? ==> l.a.shape[i] > 0)
            && (forall i :: 0 <= i < n ==> Resolve(ItemsForA(l, padded)[i], l.a.shape[i]) == Some(sa[i]))
            && (forall i :: 0 <= i < n - 1 ==> Resolve(padded[i], l.b.shape[i]) == Some(sb[i]))
            && sb[n - 1] == FullSel(l.Rank())
            && GetTuple(l, items) == Some(Lora(Pick(l.a, sa), Pick(l.b, sb)))
  {
    hide Resolve;
    hide Pick;
    hide ResolveAll;
    var n := l.Dims();
    var padded := Padded(items, n);
    var itemsA, itemsB := ItemsForA(l, padded), padded[..n - 1];
    sa := SelsOf(l.a, itemsA);
    sb := SelsOf(l.b, itemsB);
    assert Padded(itemsA, n) == itemsA && Padded(itemsB, n) == itemsB + [FULL];
    FullResolves(l.Rank());
  }

  /** The selections, axis by axis: leading ones, the row of B and the column of A. */
  lemma TupleParts(l: Lora, items: seq<Item>) returns (lead: seq<Sel>, leadA: seq<Sel>, row: Sel, col: Sel)
    requires Fits(l) && GetTuple(l, items).Some?
    ensures |items| <= l.Dims() == |lead| + 2 == |leadA| + 2 && row.Many? && col.Many?
    ensures GetTuple(l, items) == Some(Lora(PickedA(l, leadA, col), PickedB(l, lead, row)))
    ensures GetItem(Dense(l), items) == Some(Pick(Dense(l), lead + [row, col]))
    ensures var padded := Padded(items, l.Dims());
            && (forall i :: 0 <= i < |lead| && padded[i].At? ==> l.a.shape[i] > 0)
            && (forall i :: 0 <= i < |lead| ==> Resolve(padded[i], l.b.shape[i]) == Some(lead[i]))
            && (forall i :: 0 <= i < |lead| ==>
                  Resolve(if padded[i].At? then At(padded[i].j % l.a.shape[i]) else FULL, l.a.shape[i]) ==
                      Some(leadA[i]))
  {
    hide Resolve;
    hide Pick;
    hide GetTuple;
    hide GetItem;
    var n := l.Dims();
    var sa, sb := TupleSels(l, items);
    var padded := Padded(items, n);
    lead, leadA, row, col := sb[..n - 2], sa[..n - 2], sb[n - 2], sa[n - 1];
    FullResolves(l.Rank());
    SliceCount(l.b.shape[n - 2], padded[n - 2]);
    SliceCount(l.a.shape[n - 1], padded[n - 1]);
    assert sb == lead + [row, FullSel(l.Rank())] && sa == leadA + [FullSel(l.Rank()), col];
    PickedAre(l, lead, row, col, leadA);
    var sels := lead + [row, col];
    assert forall i :: 0 <= i < n ==> Resolve(padded[i], l.Shape()[i]) == Some(sels[i]);
    GetItemIs(Dense(l), items, sels);
  }

  lemma {:induction false} GetTupleCommutes(l: Lora, items: seq<Item>)
    requires Fits(l) && GetTuple(l, items).Some?
    ensures GetItem(Dense(l), items).Some?
    ensures Fits(GetTuple(l, items).value) <==> TupleFits(l, items)
    ensures TupleFits(l, items) ==> Same(Dense(GetTuple(l, items).value), GetItem(Dense(l), items).value)
  {
    hide Resolve;
    hide Aligned;
    hide Same;
    hide Pick;
    hide GetTuple;
    hide GetItem;
    hide PickedA;
    hide PickedB;
    var lead, leadA, row, col := TupleParts(l, items);
    LeadAxes(l, Padded(items, l.Dims()), lead, leadA);
    PickedPairFits(l, lead, row, col, leadA);
    if TupleFits(l, items) {
      PickCommutes(l, lead, row, col, leadA);
    }
  }

  lemma {:induction false} LeadAxes(l: Lora, padded: seq<Item>, lead: seq<Sel>, leadA: seq<Sel>)
    requires Fits(l) && |padded| == l.Dims() && |lead| == |leadA| == l.Dims() - 2
    requires forall i :: 0 <= i < |lead| && padded[i].At? ==> l.a.shape[i] > 0
    requires forall i :: 0 <= i < |lead| ==> Resolve(padded[i], l.b.shape[i]) == Some(lead[i])
    requires forall i :: 0 <= i < |lead| ==>
      Resolve(if padded[i].At? then At(padded[i].j % l.a.shape[i]) else FULL, l.a.shape[i]) == Some(leadA[i])
    ensures SelAxesFit(lead, leadA)
    ensures Padded(padded, l.Dims()) == padded
    ensures TupleFits(l, padded) <==> AllAligned(l.a.shape, lead, leadA)
    ensures AllKeptFit(lead, leadA) <==> AllAligned(l.a.shape, lead, leadA)
  {
    hide Resolve;
    hide Aligned;
    forall i | 0 <= i < |lead|
      ensures lead[i].One? <==> leadA[i].One?
      ensures padded[i].At? ==> lead[i].One? && Aligned(l.a.shape[i], lead[i], leadA[i])
      ensures padded[i].Slice? ==> lead[i].Many? && leadA[i] == FullSel(l.a.shape[i])
      ensures padded[i].Slice? ==>
          (Aligned(l.a.shape[i], lead[i], leadA[i]) <==> l.a.shape[i] == 1 || lead[i].count == l.b.shape[i])
      ensures KeptFits(lead[i], leadA[i]) <==> Aligned(l.a.shape[i], lead[i], leadA[i])
    {
      LeadAxis(l, padded, i, lead[i], leadA[i]);
    }
  }

  lemma {:induction false} LeadAxis(l: Lora, padded: seq<Item>, i: nat, sel: Sel, selA: Sel)
    requires Fits(l) && |padded| == l.Dims() && i < l.Dims() - 2
    requires padded[i].At? ==> l.a.shape[i] > 0
    requires Resolve(padded[i], l.b.shape[i]) == Some(sel)
    requires Resolve(if padded[i].At? then At(padded[i].j % l.a.shape[i]) else FULL, l.a.shape[i]) == Some(selA)
    ensures sel.One? <==> selA.One?
    ensures padded[i].At? ==> sel.One? && Aligned(l.a.shape[i], sel, selA)
    ensures padded[i].Slice? ==> sel.Many? && selA == FullSel(l.a.shape[i])
    ensures padded[i].Slice? ==> (Aligned(l.a.shape[i], sel, selA) <==> l.a.shape[i] == 1 || sel.count == l.b.shape[i])
  {
    if padded[i].At? {
      TupleIntAligned(l.a.shape[i], l.b.shape[i], padded[i].j);
    } else {
      hide Resolve;
      FullResolves(l.a.shape[i]);
      SliceCount(l.b.shape[i], padded[i]);
      TupleSliceAligned(l.a.shape[i], l.b.shape[i], sel);
    }
  }
}
