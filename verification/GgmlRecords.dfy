/** The tensor records of a legacy GGML file: reading one, the loop over them, and what it does when sizes wrap. */
module GgmlRecords {

  import opened Text

  type Byte = x: int | 0 <= x < 256

  /** What is in memory at once; offsets into it, and what lies a header behind them, fit 64 bits. */
  type Data = s: seq<Byte> | |s| < 0x4000_0000_0000_0000 witness []

  /** A load can succeed or raise an exception, or the loop over the records comes back to an offset and never ends. */
  datatype Outcome<+T> = Loaded(value: T) | Failed | Endless

  /** Block size and bytes per block of every tensor type. */
  type QuantSizes = map<nat, (nat, nat)>

  predicate IsQuantTable(quants: QuantSizes) {
    forall t :: t in quants ==> quants[t].0 > 0
  }

  datatype TensorInfo = TensorInfo(name: seq<Byte>, dims: seq<nat>, dtype: nat, start: int, length: int)

  // ---- Numbers

  const TWO_TO_THE_63: int := 0x8000_0000_0000_0000
  const TWO_TO_THE_64: int := 0x1_0000_0000_0000_0000

  /** What NumPy keeps of a sum or a product of 64-bit integers. */
  function Wrap64(x: int): (r: int)
    ensures -TWO_TO_THE_63 <= r < TWO_TO_THE_63
    ensures -TWO_TO_THE_63 <= x < TWO_TO_THE_63 ==> r == x
  {
    (x + TWO_TO_THE_63) % TWO_TO_THE_64 - TWO_TO_THE_63
  }

  lemma ModIsPeriodic(x: int, k: int)
    ensures (x + k * TWO_TO_THE_64) % TWO_TO_THE_64 == x % TWO_TO_THE_64
  {
    var m := TWO_TO_THE_64;
    var q := x / m;
    var y := x + k * m;
    assert x == q * m + x % m;
    assert y == (q + k) * m + x % m;
    QuotientIsUnique(y, m, q + k, x % m);
  }

  lemma QuotientIsUnique(y: int, m: nat, q: int, r: nat)
    requires r < m && y == q * m + r
    ensures y / m == q && y % m == r
  {
    var d := y / m - q;
    assert y == (y / m) * m + y % m;
    assert d * m == (y / m) * m - q * m == r - y % m;
    if d != 0 {
      MultipleIsFar(d, m);
    }
  }

  lemma MultipleIsFar(d: int, m: nat)
    requires d != 0
    ensures d * m >= m || d * m <= -(m as int)
  {
    if d > 0 {
      NotBelow(d - 1, m);
    } else {
      NotBelow(-d - 1, m);
    }
  }

  lemma NotBelow(x: nat, y: nat)
    ensures x * y >= 0
  {
  }

  lemma WrapIsPeriodic(x: int, k: int)
    ensures Wrap64(x + k * TWO_TO_THE_64) == Wrap64(x)
  {
    ModIsPeriodic(x + TWO_TO_THE_63, k);
  }

  /** How far a wrapped number is from the true one. */
  lemma WrapDiffers(x: int) returns (k: int)
    ensures Wrap64(x) == x + k * TWO_TO_THE_64
  {
    var y := x + TWO_TO_THE_63;
    k := -(y / TWO_TO_THE_64);
    assert y == (y / TWO_TO_THE_64) * TWO_TO_THE_64 + y % TWO_TO_THE_64;
  }

  /** Wrapping a factor first makes no difference. */
  lemma WrapOfProduct(p: int, q: int)
    ensures Wrap64(Wrap64(p) * q) == Wrap64(p * q)
  {
    var k := WrapDiffers(p);
    assert (p + k * TWO_TO_THE_64) * q == p * q + (k * q) * TWO_TO_THE_64;
    WrapIsPeriodic(p * q, k * q);
  }

  /** A difference that wraps is taken back by the sum. */
  lemma WrapOfDifference(o: int, n: int)
    ensures Wrap64(o + Wrap64(n - o)) == Wrap64(n)
  {
    var k := WrapDiffers(n - o);
    WrapIsPeriodic(n, k);
  }

  function Product(dims: seq<nat>): nat {
    if dims == [] then 1 else Product(dims[..|dims| - 1]) * dims[|dims| - 1]
  }

  function ByteCount(dims: seq<nat>, quant: (nat, nat)): int
    requires quant.0 > 0
  {
    Wrap64(Wrap64(Product(dims)) * quant.1) / quant.0
  }

  /** The byte count is negative exactly if the true number of bytes, modulo 2^64, has the sign bit of a 64-bit
      integer; and it is exact whenever that number fits 63 bits. */
  lemma ByteCountIsNaturalExactly(dims: seq<nat>, quant: (nat, nat))
    requires quant.0 > 0
    ensures ByteCount(dims, quant) >= 0 <==> (Product(dims) * quant.1) % TWO_TO_THE_64 < TWO_TO_THE_63
    ensures Product(dims) * quant.1 < TWO_TO_THE_63 ==> ByteCount(dims, quant) == Product(dims) * quant.1 / quant.0
  {
    hide Product;
    var x := Product(dims) * quant.1;
    WrapOfProduct(Product(dims), quant.1);
    SignOfQuotient(Wrap64(x), quant.0);
    SignOfWrapped(x);
  }

  lemma SignOfQuotient(x: int, d: nat)
    requires d > 0
    ensures x / d >= 0 <==> x >= 0
  {
  }

  lemma SignOfWrapped(x: int)
    ensures Wrap64(x) >= 0 <==> x % TWO_TO_THE_64 < TWO_TO_THE_63
  {
    var m, r := TWO_TO_THE_64, x % TWO_TO_THE_64;
    assert x == (x / m) * m + r;
    if r < TWO_TO_THE_63 {
      QuotientIsUnique(x + TWO_TO_THE_63, m, x / m, r + TWO_TO_THE_63);
    } else {
      assert x + TWO_TO_THE_63 == (x / m + 1) * m + (r - TWO_TO_THE_63);
      QuotientIsUnique(x + TWO_TO_THE_63, m, x / m + 1, r - TWO_TO_THE_63);
    }
  }

  /** The bytes between the offset and the next multiple of 32; offsets may be negative. */
  function Pad(o: int): (r: nat)
    ensures r < 32 && (o + r) % 32 == 0
  {
    (o + 31) / 32 * 32 - o
  }

  function DataStart(behind: int, usePadding: bool): (r: int)
    ensures behind <= r < behind + 32 && (usePadding ==> r % 32 == 0)
  {
    behind + if usePadding then Pad(behind) else 0
  }

  // ---- Reading

  function Clip(i: int, n: nat): (r: nat)
    ensures r <= n
    ensures 0 <= i <= n ==> r == i
  {
    if i < 0 then (if i + n < 0 then 0 else i + n)
    else if i > n then n
    else i
  }

  /** A slice as Python takes it: a negative bound counts from the end, and bounds are clipped. */
  function Sliced(data: seq<Byte>, lo: int, hi: int): (r: seq<Byte>)
    ensures 0 <= lo <= hi <= |data| ==> r == data[lo..hi]
  {
    var l, h := Clip(lo, |data|), Clip(hi, |data|);
    if l <= h then data[l..h] else []
  }

  function Word(b0: int, b1: int, b2: int, b3: int): int {
    b0 + 256 * b1 + 65536 * b2 + 16777216 * b3
  }

  predicate AreWords(v: seq<nat>) {
    forall i :: 0 <= i < |v| ==> v[i] < 0x1_0000_0000
  }

  function WordsOf(s: seq<Byte>): (r: seq<nat>)
    requires |s| % 4 == 0
    ensures 4 * |r| == |s| && AreWords(r)
  {
    if s == [] then []
    else
      var n := |s| - 4;
      WordsOf(s[..n]) + [Word(s[n], s[n + 1], s[n + 2], s[n + 3])]
  }

  /** `struct.unpack` of n little-endian words: it raises an exception unless the slice has all their bytes. */
  function ReadU32s(data: seq<Byte>, o: int, n: nat): (r: Option<seq<nat>>)
    ensures r.Some? ==> |r.value| == n && AreWords(r.value)
    ensures r.Some? && o >= 0 ==> o + 4 * n <= |data| || n == 0
  {
    var s := Sliced(data, o, o + 4 * n);
    if |s| != 4 * n then None else Some(WordsOf(s))
  }

  /** The record at an offset, and the offset at which the loop goes on. Only what is unpacked has to be there: a
      name or data that reach beyond the end are not noticed, nor is a size that has wrapped. */
  function LoadTensor(data: seq<Byte>, offset: int, usePadding: bool,
      quants: QuantSizes): (r: Option<(TensorInfo, int)>)
    requires IsQuantTable(quants)
    ensures r.Some? ==>
      && r.value.1 == Wrap64(r.value.0.start + r.value.0.length)
      && offset + 12 <= r.value.0.start < offset + 4200
      && (usePadding ==> r.value.0.start % 32 == 0)
      && r.value.0.dtype in quants && r.value.0.length == ByteCount(r.value.0.dims, quants[r.value.0.dtype])
  {
    hide ReadU32s;
    hide AreWords;
    hide Sliced;
    hide Wrap64;
    hide ByteCount;
    hide DataStart;
    var header := ReadU32s(data, offset, 3);
    if header.None? then None
    else
      var nDims, nameLen, dtype := header.value[0], header.value[1], header.value[2];
      if nDims > 4 || nameLen >= 4096 || dtype !in quants then None
      else
        var dims := ReadU32s(data, offset + 12, nDims);
        if dims.None? then None
        else
          var nameAt := offset + 12 + 4 * nDims;
          var behind := nameAt + nameLen;
          var start := DataStart(behind, usePadding);
          var length := ByteCount(dims.value, quants[dtype]);
          Some((TensorInfo(Sliced(data, nameAt, behind), dims.value, dtype, start, length), Wrap64(start + length)))
  }

  /** When a record moves the loop on by at least its header: exactly if its size does not take back more than what
      stands between header and data, and data and size together fit 63 bits. */
  lemma AdvancesExactly(data: Data, offset: nat, usePadding: bool, quants: QuantSizes)
    requires IsQuantTable(quants) && offset < |data| && LoadTensor(data, offset, usePadding, quants).Some?
    ensures var (info, next) := LoadTensor(data, offset, usePadding, quants).value;
            next >= offset + 12 <==> -(info.start - offset - 12) <= info.length < TWO_TO_THE_63 - info.start
  {
    var (info, next) := LoadTensor(data, offset, usePadding, quants).value;
    var s := info.start + info.length;
    LengthFits(info.dims, quants[info.dtype]);
    if s >= TWO_TO_THE_63 {
      WrapIsPeriodic(s, -1);
    }
  }

  lemma LengthFits(dims: seq<nat>, quant: (nat, nat))
    requires quant.0 > 0
    ensures -TWO_TO_THE_63 <= ByteCount(dims, quant) < TWO_TO_THE_63
  {
    var x := Wrap64(Wrap64(Product(dims)) * quant.1);
    QuotientIsSmaller(x, quant.0);
  }

  lemma QuotientIsSmaller(x: int, d: nat)
    requires d > 0
    ensures x >= 0 ==> 0 <= x / d <= x
    ensures x < 0 ==> x <= x / d < 0
  {
    var q := x / d;
    assert x == q * d + x % d;
    if x >= 0 {
      SignOfQuotient(x, d);
      NotBelow(q, d - 1);
      assert q * (d - 1) == q * d - q;
    } else {
      SignOfQuotient(x, d);
      NotBelow(-q - 1, d - 1);
      assert (-q - 1) * (d - 1) == -(q * d) + q - d + 1;
    }
  }

  // ---- The loop over the records

  predicate IsOffset(o: int) {
    -TWO_TO_THE_63 <= o < TWO_TO_THE_63
  }

  /** Offsets in front of the end of the data. */
  predicate AreOffsets(seen: set<int>, end: nat) {
    forall x :: x in seen ==> -TWO_TO_THE_63 <= x < end
  }

  lemma {:induction false} OffsetsAreFew(seen: set<int>, lo: int, end: int)
    requires lo <= end && forall x :: x in seen ==> lo <= x < end
    ensures |seen| <= end - lo
    decreases end - lo
  {
    if lo == end {
      assert seen == {};
    } else {
      var rest := seen - {end - 1};
      OffsetsAreFew(rest, lo, end - 1);
      assert seen == if end - 1 in seen then rest + {end - 1} else rest;
    }
  }

  /** The loop: to the end of the data, or to an exception, or back to an offset it has seen, from where it can only
      repeat itself. */
  function LoadTensors(data: Data, offset: int, usePadding: bool, quants: QuantSizes,
      seen: set<int>): (r: Outcome<(seq<TensorInfo>, int)>)
    requires IsQuantTable(quants) && IsOffset(offset) && AreOffsets(seen, |data|)
    ensures r.Loaded? ==> |data| <= r.value.1 && IsOffset(r.value.1)
    decreases TWO_TO_THE_63 + |data| - |seen|
  {
    if offset >= |data| then Loaded(([], offset))
    else if offset in seen then Endless
    else
      var first := LoadTensor(data, offset, usePadding, quants);
      if first.None? then Failed
      else
        OffsetsAreFew(seen + {offset}, -TWO_TO_THE_63, |data|);
        match LoadTensors(data, first.value.1, usePadding, quants, seen + {offset})
        case Loaded((rest, end)) => Loaded(([first.value.0] + rest, end))
        case other => other
  }

  /** The offset that the loop stands at after n records, as long as it goes on. */
  function After(data: Data, offset: int, usePadding: bool, quants: QuantSizes, n: nat): (r: Option<int>)
    requires IsQuantTable(quants) && IsOffset(offset)
    ensures r.Some? ==> IsOffset(r.value) && r.value < |data|
    decreases n
  {
    hide LoadTensor;
    if offset >= |data| then None
    else if n == 0 then Some(offset)
    else
      var first := LoadTensor(data, offset, usePadding, quants);
      if first.None? then None else After(data, first.value.1, usePadding, quants, n - 1)
  }

  /** The loop has come from every offset it has seen to the next one or to where it stands now. */
  ghost predicate LeadsTo(data: Data, usePadding: bool, quants: QuantSizes, seen: set<int>, offset: int)
    requires IsQuantTable(quants)
  {
    forall x :: x in seen ==>
      var r := LoadTensor(data, x, usePadding, quants);
      x < |data| && IsOffset(x) && r.Some? && (r.value.1 in seen || r.value.1 == offset)
  }

  lemma {:induction false} RepeatsForever(data: Data, x: int, usePadding: bool, quants: QuantSizes, seen: set<int>,
      n: nat)
    requires IsQuantTable(quants) && x in seen && forall y :: y in seen ==> LeadsTo(data, usePadding, quants, seen, y)
    requires IsOffset(x)
    ensures After(data, x, usePadding, quants, n).Some?
    decreases n
  {
    hide LoadTensor;
    assert LeadsTo(data, usePadding, quants, seen, x);
    if n > 0 {
      var next := LoadTensor(data, x, usePadding, quants).value.1;
      RepeatsForever(data, next, usePadding, quants, seen, n - 1);
    }
  }

  lemma {:induction false} EndlessGoesOn(data: Data, offset: int, usePadding: bool, quants: QuantSizes, seen: set<int>,
      n: nat)
    requires IsQuantTable(quants) && IsOffset(offset) && AreOffsets(seen, |data|)
    requires LeadsTo(data, usePadding, quants, seen, offset)
    requires LoadTensors(data, offset, usePadding, quants, seen) == Endless
    ensures After(data, offset, usePadding, quants, n).Some?
    decreases TWO_TO_THE_63 + |data| - |seen|
  {
    hide LoadTensor;
    if offset in seen {
      RepeatsForever(data, offset, usePadding, quants, seen, n);
    } else {
      OffsetsAreFew(seen + {offset}, -TWO_TO_THE_63, |data|);
      var next := LoadTensor(data, offset, usePadding, quants).value.1;
      if n > 0 {
        EndlessGoesOn(data, next, usePadding, quants, seen + {offset}, n - 1);
      }
    }
  }

  lemma {:induction false} OtherwiseItEnds(data: Data, offset: int, usePadding: bool, quants: QuantSizes,
      seen: set<int>) returns (n: nat)
    requires IsQuantTable(quants) && IsOffset(offset) && AreOffsets(seen, |data|)
    requires LoadTensors(data, offset, usePadding, quants, seen) != Endless
    ensures After(data, offset, usePadding, quants, n).None?
    decreases TWO_TO_THE_63 + |data| - |seen|
  {
    hide LoadTensor;
    if offset >= |data| {
      n := 0;
    } else {
      var first := LoadTensor(data, offset, usePadding, quants);
      if first.None? {
        n := 1;
      } else {
        OffsetsAreFew(seen + {offset}, -TWO_TO_THE_63, |data|);
        var k := OtherwiseItEnds(data, first.value.1, usePadding, quants, seen + {offset});
        n := k + 1;
      }
    }
  }

  /** The outcome `Endless` means what it says: the program's loop still goes on after any number of records. */
  lemma EndlessExactly(data: Data, offset: int, usePadding: bool, quants: QuantSizes)
    requires IsQuantTable(quants) && IsOffset(offset)
    ensures LoadTensors(data, offset, usePadding, quants, {}) == Endless
       <==> forall n :: After(data, offset, usePadding, quants, n).Some?
  {
    if LoadTensors(data, offset, usePadding, quants, {}) == Endless {
      forall n: nat
        ensures After(data, offset, usePadding, quants, n).Some?
      {
        EndlessGoesOn(data, offset, usePadding, quants, {}, n);
      }
    } else {
      var n := OtherwiseItEnds(data, offset, usePadding, quants, {});
    }
  }

  /** A record that the loop meets and that does not move it on by its own header. */
  ghost predicate StandsStill(data: Data, offset: int, usePadding: bool, quants: QuantSizes, n: nat)
    requires IsQuantTable(quants) && IsOffset(offset)
  {
    var at := After(data, offset, usePadding, quants, n);
    at.Some? && LoadTensor(data, at.value, usePadding, quants).Some?
      && LoadTensor(data, at.value, usePadding, quants).value.1 < at.value + 12
  }

  lemma {:induction false} AdvancingMovesOn(data: Data, offset: int, usePadding: bool, quants: QuantSizes, n: nat)
    requires IsQuantTable(quants) && IsOffset(offset)
    requires forall k: nat :: k < n ==> !StandsStill(data, offset, usePadding, quants, k)
    requires After(data, offset, usePadding, quants, n).Some?
    ensures offset + 12 * n <= After(data, offset, usePadding, quants, n).value
    decreases n
  {
    hide LoadTensor;
    if n > 0 {
      var next := LoadTensor(data, offset, usePadding, quants).value.1;
      assert !StandsStill(data, offset, usePadding, quants, 0);
      forall k: nat | k < n - 1
        ensures !StandsStill(data, next, usePadding, quants, k)
      {
        assert !StandsStill(data, offset, usePadding, quants, k + 1);
      }
      AdvancingMovesOn(data, next, usePadding, quants, n - 1);
    }
  }

  /** If every record that is met advances by at least twelve bytes, the loop ends. */
  lemma EndlessNeedsAStandstill(data: Data, offset: int, usePadding: bool, quants: QuantSizes)
    requires IsQuantTable(quants) && IsOffset(offset)
    requires LoadTensors(data, offset, usePadding, quants, {}) == Endless
    ensures exists n: nat :: StandsStill(data, offset, usePadding, quants, n)
  {
    if forall n: nat :: !StandsStill(data, offset, usePadding, quants, n) {
      var n := if offset < |data| then |data| - offset else 0;
      EndlessGoesOn(data, offset, usePadding, quants, {}, n);
      AdvancingMovesOn(data, offset, usePadding, quants, n);
    }
  }

  /** The data ranges come one after the other with room for a record header between them, within the offsets that
      the loop started and ended at, and start at multiples of 32 when padded. */
  predicate AreTiled(infos: seq<TensorInfo>, from: int, end: int, usePadding: bool) {
    && (forall i :: 0 <= i < |infos| ==>
          from + 12 <= infos[i].start <= infos[i].start + infos[i].length <= end)
    && (forall i :: 0 <= i < |infos| && usePadding ==> infos[i].start % 32 == 0)
    && (forall i, j :: 0 <= i < j < |infos| ==> infos[i].start + infos[i].length + 12 <= infos[j].start)
  }

  predicate SizesFit(infos: seq<TensorInfo>) {
    forall i :: 0 <= i < |infos| ==> 0 <= infos[i].length < TWO_TO_THE_63 - infos[i].start
  }

  /** In every file that loads, the ranges tile it exactly if no size has wrapped to a negative number or beyond the
      end of the offsets. */
  lemma LoadedTensorsAreTiledExactly(data: Data, offset: nat, usePadding: bool, quants: QuantSizes)
    requires IsQuantTable(quants) && IsOffset(offset)
    requires LoadTensors(data, offset, usePadding, quants, {}).Loaded?
    ensures var (infos, end) := LoadTensors(data, offset, usePadding, quants, {}).value;
            AreTiled(infos, offset, end, usePadding) <==> SizesFit(infos)
  {
    hide LoadTensor;
    if SizesFit(LoadTensors(data, offset, usePadding, quants, {}).value.0) {
      FittingSizesTile(data, offset, usePadding, quants, {});
    }
  }

  lemma {:induction false} FittingSizesTile(data: Data, offset: int, usePadding: bool, quants: QuantSizes,
      seen: set<int>)
    requires IsQuantTable(quants) && IsOffset(offset) && AreOffsets(seen, |data|)
    requires LoadTensors(data, offset, usePadding, quants, seen).Loaded?
    requires SizesFit(LoadTensors(data, offset, usePadding, quants, seen).value.0)
    ensures var (infos, end) := LoadTensors(data, offset, usePadding, quants, seen).value;
            AreTiled(infos, offset, end, usePadding) && offset <= end && 12 * |infos| <= end - offset
    decreases TWO_TO_THE_63 + |data| - |seen|
  {
    hide LoadTensor;
    hide AreTiled;
    if offset >= |data| {
      NothingIsTiled(offset, usePadding);
    } else {
      var (info, next) := LoadTensor(data, offset, usePadding, quants).value;
      OffsetsAreFew(seen + {offset}, -TWO_TO_THE_63, |data|);
      var (infos, end) := LoadTensors(data, offset, usePadding, quants, seen).value;
      var rest := LoadTensors(data, next, usePadding, quants, seen + {offset}).value.0;
      assert infos == [info] + rest && infos[0] == info;
      assert forall i :: 0 <= i < |rest| ==> rest[i] == infos[i + 1];
      FittingSizesTile(data, next, usePadding, quants, seen + {offset});
      OneMoreIsTiled(info, rest, offset, end, usePadding);
    }
  }

  lemma NothingIsTiled(offset: int, usePadding: bool)
    ensures AreTiled([], offset, offset, usePadding)
  {
  }

  lemma OneMoreIsTiled(info: TensorInfo, rest: seq<TensorInfo>, offset: int, end: int, usePadding: bool)
    requires offset + 12 <= info.start && info.length >= 0 && (usePadding ==> info.start % 32 == 0)
    requires AreTiled(rest, info.start + info.length, end, usePadding) && info.start + info.length <= end
    ensures AreTiled([info] + rest, offset, end, usePadding)
  {
  }

  // ---- Writing, to say what a well-formed file is

  datatype Record = Record(name: seq<Byte>, dims: seq<nat>, dtype: nat, contents: seq<Byte>)

  predicate IsWellFormed(r: Record, quants: QuantSizes)
    requires IsQuantTable(quants)
  {
    && |r.dims| <= 4 && AreWords(r.dims)
    && |r.name| < 4096
    && r.dtype < 0x1_0000_0000 && r.dtype in quants
    && Product(r.dims) * quants[r.dtype].1 < TWO_TO_THE_63
    && |r.contents| == Product(r.dims) * quants[r.dtype].1 / quants[r.dtype].0
  }

  predicate AllWellFormed(rs: seq<Record>, quants: QuantSizes)
    requires IsQuantTable(quants)
  {
    forall i :: 0 <= i < |rs| ==> IsWellFormed(rs[i], quants)
  }

  function U32(v: nat): (r: seq<Byte>)
    requires v < 0x1_0000_0000
    ensures |r| == 4
  {
    [v % 256, v / 256 % 256, v / 65536 % 256, v / 16777216]
  }

  function WriteU32s(v: seq<nat>): (r: seq<Byte>)
    requires AreWords(v)
    ensures |r| == 4 * |v|
  {
    if v == [] then [] else WriteU32s(v[..|v| - 1]) + U32(v[|v| - 1])
  }

  function Filler(n: nat): (r: seq<Byte>)
    ensures |r| == n
  {
    seq(n, _ => 0)
  }

  function Counts(r: Record): (c: seq<nat>)
    ensures |c| == 3
  {
    [|r.dims|, |r.name|, r.dtype]
  }

  function Header(r: Record, quants: QuantSizes): (h: seq<Byte>)
    requires IsQuantTable(quants) && IsWellFormed(r, quants)
    ensures |h| == 12 + 4 * |r.dims| + |r.name|
  {
    WriteU32s(Counts(r)) + WriteU32s(r.dims) + r.name
  }

  function StartOf(r: Record, offset: nat, usePadding: bool): (start: nat)
    ensures start >= offset + 12 + 4 * |r.dims| + |r.name|
  {
    DataStart(offset + 12 + 4 * |r.dims| + |r.name|, usePadding)
  }

  function WriteRecord(r: Record, offset: nat, usePadding: bool, quants: QuantSizes): (w: seq<Byte>)
    requires IsQuantTable(quants) && IsWellFormed(r, quants)
    ensures |w| == StartOf(r, offset, usePadding) - offset + |r.contents|
  {
    var h := Header(r, quants);
    h + Filler(StartOf(r, offset, usePadding) - offset - |h|) + r.contents
  }

  function WriteRecords(rs: seq<Record>, offset: nat, usePadding: bool, quants: QuantSizes): seq<Byte>
    requires IsQuantTable(quants) && AllWellFormed(rs, quants)
  {
    if rs == [] then []
    else
      var w := WriteRecord(rs[0], offset, usePadding, quants);
      w + WriteRecords(rs[1..], offset + |w|, usePadding, quants)
  }

  // ---- What is written is read back

  predicate IsAt(data: seq<Byte>, o: nat, s: seq<Byte>) {
    o + |s| <= |data| && data[o..o + |s|] == s
  }

  lemma PartsAreAt(data: seq<Byte>, o: nat, s: seq<Byte>, t: seq<Byte>)
    requires IsAt(data, o, s + t)
    ensures IsAt(data, o, s) && IsAt(data, o + |s|, t)
  {
    assert data[o..o + |s|] == (s + t)[..|s|];
    assert data[o + |s|..o + |s| + |t|] == (s + t)[|s|..];
  }

  lemma {:induction false} WordsComeBack(v: seq<nat>)
    requires AreWords(v)
    ensures WordsOf(WriteU32s(v)) == v
  {
    if v != [] {
      var n, rest, last := |v| - 1, v[..|v| - 1], v[|v| - 1];
      WordsComeBack(rest);
      var s := WriteU32s(v);
      assert s[..4 * n] == WriteU32s(rest) && s[4 * n..] == U32(last);
      assert s[4 * n] == s[4 * n..][0] && s[4 * n + 1] == s[4 * n..][1];
      assert s[4 * n + 2] == s[4 * n..][2] && s[4 * n + 3] == s[4 * n..][3];
      BytesMakeTheWord(last);
      assert v == rest + [last];
    }
  }

  lemma BytesMakeTheWord(v: nat)
    requires v < 0x1_0000_0000
    ensures Word(v % 256, v / 256 % 256, v / 65536 % 256, v / 16777216) == v
  {
    assert v / 256 / 256 == v / 65536 && v / 65536 / 256 == v / 16777216;
  }

  lemma SliceIsAt(data: seq<Byte>, o: nat, s: seq<Byte>)
    requires IsAt(data, o, s)
    ensures Sliced(data, o, o + |s|) == s
  {
  }

  lemma SliceGivesWords(data: seq<Byte>, o: nat, n: nat, s: seq<Byte>)
    requires |s| == 4 * n && Sliced(data, o, o + |s|) == s
    ensures ReadU32s(data, o, n) == Some(WordsOf(s))
  {
    hide WordsOf;
    hide Sliced;
  }

  lemma U32sAreRead(data: seq<Byte>, o: nat, v: seq<nat>)
    requires AreWords(v) && IsAt(data, o, WriteU32s(v))
    ensures ReadU32s(data, o, |v|) == Some(v)
  {
    hide *;
    var s, n := WriteU32s(v), |v|;
    WordsComeBack(v);
    SliceIsAt(data, o, s);
    assert |s| == 4 * n;
    SliceGivesWords(data, o, n, s);
  }

  function InfoOf(r: Record, offset: nat, usePadding: bool): TensorInfo {
    TensorInfo(r.name, r.dims, r.dtype, StartOf(r, offset, usePadding), |r.contents|)
  }

  lemma HeaderIsRead(data: seq<Byte>, o: nat, r: Record, quants: QuantSizes)
    requires IsQuantTable(quants) && IsWellFormed(r, quants) && IsAt(data, o, Header(r, quants))
    ensures ReadU32s(data, o, 3) == Some(Counts(r))
    ensures ReadU32s(data, o + 12, |r.dims|) == Some(r.dims)
    ensures IsAt(data, o + 12 + 4 * |r.dims|, r.name)
  {
    hide ReadU32s;
    hide WriteU32s;
    hide IsAt;
    hide Product;
    PartsAreAt(data, o, WriteU32s(Counts(r)) + WriteU32s(r.dims), r.name);
    PartsAreAt(data, o, WriteU32s(Counts(r)), WriteU32s(r.dims));
    U32sAreRead(data, o, Counts(r));
    U32sAreRead(data, o + 12, r.dims);
  }

  lemma RecordIsLoaded(data: Data, o: nat, r: Record, usePadding: bool, quants: QuantSizes)
    requires IsQuantTable(quants) && IsWellFormed(r, quants) && IsAt(data, o, WriteRecord(r, o, usePadding, quants))
    ensures LoadTensor(data, o, usePadding, quants)
         == Some((InfoOf(r, o, usePadding), o + |WriteRecord(r, o, usePadding, quants)|))
    ensures IsAt(data, StartOf(r, o, usePadding), r.contents)
  {
    hide *;
    WriteRecordParts(r, o, usePadding, quants);
    var h := Header(r, quants);
    var filler := Filler(StartOf(r, o, usePadding) - o - |h|);
    PartsAreAt(data, o, h + filler, r.contents);
    PartsAreAt(data, o, h, filler);
    HeaderIsRead(data, o, r, quants);
    SliceIsAt(data, o + 12 + 4 * |r.dims|, r.name);
    EndsInside(data, o, WriteRecord(r, o, usePadding, quants));
    PartsAreLoaded(data, o, r, usePadding, quants);
  }

  lemma EndsInside(data: Data, o: nat, s: seq<Byte>)
    requires IsAt(data, o, s)
    ensures o + |s| < TWO_TO_THE_63
  {
  }

  lemma WriteRecordParts(r: Record, o: nat, usePadding: bool, quants: QuantSizes)
    requires IsQuantTable(quants) && IsWellFormed(r, quants)
    ensures var filled := StartOf(r, o, usePadding) - o - |Header(r, quants)|;
            filled >= 0 && WriteRecord(r, o, usePadding, quants) == Header(r, quants) + Filler(filled) + r.contents
  {
    hide DataStart;
  }

  lemma PartsAreLoaded(data: Data, o: nat, r: Record, usePadding: bool, quants: QuantSizes)
    requires IsQuantTable(quants) && IsWellFormed(r, quants)
    requires ReadU32s(data, o, 3) == Some(Counts(r)) && ReadU32s(data, o + 12, |r.dims|) == Some(r.dims)
    requires var nameAt := o + 12 + 4 * |r.dims|; Sliced(data, nameAt, nameAt + |r.name|) == r.name
    requires StartOf(r, o, usePadding) + |r.contents| < TWO_TO_THE_63
    ensures LoadTensor(data, o, usePadding, quants)
         == Some((InfoOf(r, o, usePadding), StartOf(r, o, usePadding) + |r.contents|))
  {
    hide ReadU32s;
    hide Sliced;
    hide DataStart;
    hide ByteCount;
    hide Wrap64;
    ByteCountIsNaturalExactly(r.dims, quants[r.dtype]);
    hide Product;
  }

  function InfosOf(rs: seq<Record>, offset: nat, usePadding: bool, quants: QuantSizes): (infos: seq<TensorInfo>)
    requires IsQuantTable(quants) && AllWellFormed(rs, quants)
    ensures |infos| == |rs|
  {
    if rs == [] then []
    else
      [InfoOf(rs[0], offset, usePadding)]
        + InfosOf(rs[1..], offset + |WriteRecord(rs[0], offset, usePadding, quants)|, usePadding, quants)
  }

  predicate Describes(info: TensorInfo, r: Record) {
    info.name == r.name && info.dims == r.dims && info.dtype == r.dtype && info.length == |r.contents|
  }

  predicate DescribeAll(infos: seq<TensorInfo>, rs: seq<Record>) {
    |infos| == |rs| && forall i :: 0 <= i < |rs| ==> Describes(infos[i], rs[i])
  }

  lemma {:induction false} InfosDescribe(rs: seq<Record>, offset: nat, usePadding: bool, quants: QuantSizes)
    requires IsQuantTable(quants) && AllWellFormed(rs, quants)
    ensures DescribeAll(InfosOf(rs, offset, usePadding, quants), rs)
    decreases |rs|
  {
    if rs != [] {
      hide WriteRecord;
      InfosDescribe(rs[1..], offset + |WriteRecord(rs[0], offset, usePadding, quants)|, usePadding, quants);
    }
  }

  ghost predicate ContentsAreAt(data: seq<Byte>, infos: seq<TensorInfo>, rs: seq<Record>) {
    |infos| == |rs| && forall i :: 0 <= i < |rs| ==> infos[i].start >= 0 && IsAt(data, infos[i].start, rs[i].contents)
  }

  lemma LoadTensorsStep(data: Data, o: nat, usePadding: bool, quants: QuantSizes, seen: set<int>, info: TensorInfo,
      next: nat, rest: seq<TensorInfo>, end: nat)
    requires IsQuantTable(quants) && o < next <= |data| && AreOffsets(seen, o) && AreOffsets(seen + {o}, next)
    requires LoadTensor(data, o, usePadding, quants) == Some((info, next))
    requires LoadTensors(data, next, usePadding, quants, seen + {o}) == Loaded((rest, end))
    ensures LoadTensors(data, o, usePadding, quants, seen) == Loaded(([info] + rest, end))
  {
    hide LoadTensor;
  }

  /** Behind anything: a sequence of well-formed records that ends the data is read back, record by record, each
      with its name, shape and type, and reading stops at the end. */
  lemma {:induction false} RecordsAreLoaded(data: Data, o: nat, rs: seq<Record>, usePadding: bool, quants: QuantSizes,
      seen: set<int>)
    requires IsQuantTable(quants) && AllWellFormed(rs, quants)
    requires IsAt(data, o, WriteRecords(rs, o, usePadding, quants))
    requires |data| == o + |WriteRecords(rs, o, usePadding, quants)|
    requires AreOffsets(seen, o)
    ensures LoadTensors(data, o, usePadding, quants, seen) == Loaded((InfosOf(rs, o, usePadding, quants), |data|))
    ensures DescribeAll(InfosOf(rs, o, usePadding, quants), rs)
    decreases |rs|
  {
    InfosDescribe(rs, o, usePadding, quants);
    if rs != [] {
      hide *;
      var next := FirstRecordIsLoaded(data, o, rs, usePadding, quants);
      var later := seen + {o};
      SeenBefore(seen, o, next, later);
      RecordsAreLoaded(data, next, rs[1..], usePadding, quants, later);
      LoadTensorsStep(data, o, usePadding, quants, seen, InfoOf(rs[0], o, usePadding), next,
        InfosOf(rs[1..], next, usePadding, quants), |data|);
    }
  }

  lemma FirstRecordIsLoaded(data: Data, o: nat, rs: seq<Record>, usePadding: bool, quants: QuantSizes)
      returns (next: nat)
    requires IsQuantTable(quants) && AllWellFormed(rs, quants) && rs != []
    requires IsAt(data, o, WriteRecords(rs, o, usePadding, quants))
    requires |data| == o + |WriteRecords(rs, o, usePadding, quants)|
    ensures IsWellFormed(rs[0], quants) && AllWellFormed(rs[1..], quants) && o < next <= |data| < TWO_TO_THE_63
    ensures LoadTensor(data, o, usePadding, quants) == Some((InfoOf(rs[0], o, usePadding), next))
    ensures IsAt(data, next, WriteRecords(rs[1..], next, usePadding, quants))
    ensures |data| == next + |WriteRecords(rs[1..], next, usePadding, quants)|
    ensures InfosOf(rs, o, usePadding, quants) ==
        [InfoOf(rs[0], o, usePadding)] + InfosOf(rs[1..], next, usePadding, quants)
    ensures IsAt(data, StartOf(rs[0], o, usePadding), rs[0].contents)
    ensures InfoOf(rs[0], o, usePadding).start == StartOf(rs[0], o, usePadding)
  {
    hide *;
    OneMoreRecord(rs, o, usePadding, quants);
    var w := WriteRecord(rs[0], o, usePadding, quants);
    next := o + |w|;
    var more := WriteRecords(rs[1..], next, usePadding, quants);
    PartsAreAt(data, o, w, more);
    RecordIsLoaded(data, o, rs[0], usePadding, quants);
    EndsInside(data, o, w + more);
  }

  /** Each range holds the record's own bytes. */
  lemma {:induction false} RangesHoldContents(data: Data, o: nat, rs: seq<Record>, usePadding: bool, quants: QuantSizes)
    requires IsQuantTable(quants) && AllWellFormed(rs, quants)
    requires IsAt(data, o, WriteRecords(rs, o, usePadding, quants))
    requires |data| == o + |WriteRecords(rs, o, usePadding, quants)|
    ensures ContentsAreAt(data, InfosOf(rs, o, usePadding, quants), rs)
    decreases |rs|
  {
    if rs != [] {
      hide IsAt;
      hide LoadTensor;
      hide WriteRecord;
      hide WriteRecords;
      hide AllWellFormed;
      hide IsWellFormed;
      hide InfosOf;
      hide ContentsAreAt;
      var next := FirstRecordIsLoaded(data, o, rs, usePadding, quants);
      RangesHoldContents(data, next, rs[1..], usePadding, quants);
      OneMoreContents(data, InfoOf(rs[0], o, usePadding), InfosOf(rs[1..], next, usePadding, quants), rs);
    }
  }

  lemma OneMoreRecord(rs: seq<Record>, o: nat, usePadding: bool, quants: QuantSizes)
    requires IsQuantTable(quants) && AllWellFormed(rs, quants) && rs != []
    ensures IsWellFormed(rs[0], quants) && AllWellFormed(rs[1..], quants)
    ensures var w := WriteRecord(rs[0], o, usePadding, quants);
            && |w| >= 12
            && WriteRecords(rs, o, usePadding, quants) == w + WriteRecords(rs[1..], o + |w|, usePadding, quants)
            && InfosOf(rs, o, usePadding, quants) ==
                [InfoOf(rs[0], o, usePadding)] + InfosOf(rs[1..], o + |w|, usePadding, quants)
    ensures InfoOf(rs[0], o, usePadding).start == StartOf(rs[0], o, usePadding)
  {
    hide IsWellFormed;
    hide WriteRecord;
    assert IsWellFormed(rs[0], quants);
    forall i | 0 <= i < |rs[1..]|
      ensures IsWellFormed(rs[1..][i], quants)
    {
      assert IsWellFormed(rs[i + 1], quants);
    }
  }

  lemma SeenBefore(seen: set<int>, o: nat, next: nat, later: set<int>)
    requires AreOffsets(seen, o) && o < next < TWO_TO_THE_63 && later == seen + {o}
    ensures AreOffsets(later, next) && IsOffset(next) && IsOffset(o)
  {
  }

  lemma OneMoreContents(data: seq<Byte>, info: TensorInfo, rest: seq<TensorInfo>, rs: seq<Record>)
    requires rs != [] && info.start >= 0 && IsAt(data, info.start, rs[0].contents) && ContentsAreAt(data, rest, rs[1..])
    ensures ContentsAreAt(data, [info] + rest, rs)
  {
    hide IsAt;
  }

  // ---- Sizes that wrap

  /** A shape whose number of elements is 2^64 - 64. */
  const WRAPPING: seq<nat> := [64, 536870911, 536870913]

  lemma WrappingCount(quant: (nat, nat))
    requires quant == (1, 1)
    ensures Product(WRAPPING) == TWO_TO_THE_64 - 64 && ByteCount(WRAPPING, quant) == -64
  {
    var one, two := WRAPPING[..1], WRAPPING[..2];
    assert one[..0] == [] && two[..1] == one && WRAPPING[..2] == two;
    assert Product(one) == 64;
    assert Product(two) == 64 * 536870911;
    assert Product(WRAPPING) == 64 * 536870911 * 536870913;
    WrapIsPeriodic(-64, 1);
  }

  /** The header of an unpadded record of that shape, of a type with one byte per element. */
  function WrappingRecord(name: seq<Byte>, dtype: nat): seq<Byte>
    requires |name| < 4096 && dtype < 0x1_0000_0000
  {
    WriteU32s([3, |name|, dtype]) + WriteU32s(WRAPPING) + name
  }

  lemma WrappingRecordIsRead(data: Data, o: nat, name: seq<Byte>, dtype: nat, quants: QuantSizes)
    requires IsQuantTable(quants) && dtype in quants && quants[dtype] == (1, 1)
    requires |name| < 4096 && dtype < 0x1_0000_0000 && IsAt(data, o, WrappingRecord(name, dtype))
    ensures o < |data|
    ensures LoadTensor(data, o, false, quants) ==
        Some((TensorInfo(name, WRAPPING, dtype, o + 24 + |name|, -64), o + |name| - 40))
  {
    hide ByteCount;
    hide Product;
    hide ReadU32s;
    hide WriteU32s;
    hide Sliced;
    hide IsAt;
    var counts := [3, |name|, dtype];
    EndsInside(data, o, WrappingRecord(name, dtype));
    PartsAreAt(data, o, WriteU32s(counts) + WriteU32s(WRAPPING), name);
    PartsAreAt(data, o, WriteU32s(counts), WriteU32s(WRAPPING));
    U32sAreRead(data, o, counts);
    U32sAreRead(data, o + 12, WRAPPING);
    SliceIsAt(data, o + 24, name);
    WrappingCount(quants[dtype]);
  }

  lemma IsAtItself(data: seq<Byte>)
    ensures IsAt(data, 0, data)
  {
    assert data[0..|data|] == data;
  }

  /** With a name of 40 bytes such a record takes no bytes at all: wherever it stands, the loop stands still there for
      ever. */
  lemma StandstillExample(data: Data, o: nat, name: seq<Byte>, dtype: nat, quants: QuantSizes)
    requires IsQuantTable(quants) && dtype in quants && quants[dtype] == (1, 1)
    requires |name| == 40 && dtype < 0x1_0000_0000 && IsAt(data, o, WrappingRecord(name, dtype))
    ensures IsOffset(o) && LoadTensors(data, o, false, quants, {}) == Endless
  {
    WrappingRecordIsRead(data, o, name, dtype, quants);
    hide LoadTensor;
    hide IsAt;
    assert LoadTensors(data, o, false, quants, {o}) == Endless;
  }

  /** Without a name, at the beginning of the data, it leads 40 bytes in front of them, where a slice comes out empty
      and unpacking fails. */
  lemma BackwardsExample(data: Data, dtype: nat, quants: QuantSizes)
    requires IsQuantTable(quants) && dtype in quants && quants[dtype] == (1, 1)
    requires dtype < 0x1_0000_0000 && IsAt(data, 0, WrappingRecord([], dtype))
    ensures LoadTensor(data, 0, false, quants).Some? && LoadTensor(data, 0, false, quants).value.1 == -40
    ensures |data| < 28 ==> LoadTensors(data, 0, false, quants, {}) == Failed
  {
    WrappingRecordIsRead(data, 0, [], dtype, quants);
    hide LoadTensor;
    hide IsAt;
    if |data| < 28 {
      NothingInFront(data, quants);
      assert LoadTensors(data, -40, false, quants, {0}) == Failed;
    }
  }

  lemma NothingInFront(data: Data, quants: QuantSizes)
    requires IsQuantTable(quants) && |data| < 28
    ensures LoadTensor(data, -40, false, quants).None?
  {
    assert Sliced(data, -40, -28) == [];
  }
}
