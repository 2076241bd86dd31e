/** Reading a legacy GGML file: header, hyperparameters, vocabulary and tensor records, one behind the other. */
module GgmlLoader {

  import opened Text
  import opened GgmlRecords

  // ---- Header, hyperparameters and vocabulary

  datatype Format = Ggml | Ggmf | Ggjt

  const MAGIC_GGML: seq<Byte> := [108, 109, 103, 103]
  const MAGIC_GGMF: seq<Byte> := [102, 109, 103, 103]
  const MAGIC_GGJT: seq<Byte> := [116, 106, 103, 103]

  function Magic(f: Format): (m: seq<Byte>)
    ensures |m| == 4
  {
    match f
    case Ggml => MAGIC_GGML
    case Ggmf => MAGIC_GGMF
    case Ggjt => MAGIC_GGJT
  }

  predicate IsVersionOf(f: Format, version: nat) {
    match f
    case Ggml => version == 1
    case Ggmf => version == 1
    case Ggjt => 1 <= version <= 3
  }

  function ReadU32(data: seq<Byte>, o: nat): (r: Option<nat>)
    ensures r.Some? ==> r.value < 0x1_0000_0000 && o + 4 <= |data|
  {
    var words := ReadU32s(data, o, 1);
    if words.None? then None else Some(words.value[0])
  }

  lemma U32IsRead(data: seq<Byte>, o: nat, v: nat)
    requires v < 0x1_0000_0000 && IsAt(data, o, U32(v))
    ensures ReadU32(data, o) == Some(v)
  {
    hide U32;
    assert [v][..0] == [] && WriteU32s([v]) == U32(v);
    U32sAreRead(data, o, [v]);
  }

  /** Format, version and the size of the header. A file that is GGUF already has another magic still. */
  function LoadHeader(data: seq<Byte>, o: nat): Option<(Format, nat, nat)> {
    var magic, version := Sliced(data, o, o + 4), ReadU32(data, o + 4);
    if magic == MAGIC_GGML then Some((Ggml, 1, 4))
    else if version.None? then None
    else if magic == MAGIC_GGMF && IsVersionOf(Ggmf, version.value) then Some((Ggmf, version.value, 8))
    else if magic == MAGIC_GGJT && IsVersionOf(Ggjt, version.value) then Some((Ggjt, version.value, 8))
    else None
  }

  predicate IsFileType(ftype: nat) {
    ftype <= 4 || 7 <= ftype <= 18
  }

  /** Files from before the quantizations changed can only be converted if they do not use the changed ones. */
  predicate IsConvertible(f: Format, version: nat, ftype: nat) {
    if f != Ggjt || version < 2 then ftype == 0 || ftype == 1
    else if version == 2 then ftype !in {2, 3, 4, 7}
    else true
  }

  /** A vocabulary item; its score is kept as the four bytes of the float, if there is one. */
  datatype Item = Item(text: seq<Byte>, score: Option<nat>)

  function LoadItem(data: seq<Byte>, o: nat, scores: bool): (r: Option<(Item, nat)>)
    ensures r.Some? ==> o + 4 <= r.value.1 <= |data| + 4100
  {
    var length := ReadU32(data, o);
    if length.None? || length.value >= 4096 then None
    else
      var text := Sliced(data, o + 4, o + 4 + length.value);
      var behind := o + 4 + length.value;
      if !scores then Some((Item(text, None), behind))
      else
        var score := ReadU32(data, behind);
        if score.None? then None else Some((Item(text, score), behind + 4))
  }

  function LoadItems(data: seq<Byte>, o: nat, n: nat, scores: bool): (r: Option<(seq<Item>, nat)>)
    ensures r.Some? && o <= |data| ==> r.value.1 <= |data| + 4100
    decreases n
  {
    if n == 0 then Some(([], o))
    else
      var first := LoadItem(data, o, scores);
      if first.None? then None
      else
        var rest := LoadItems(data, first.value.1, n - 1, scores);
        if rest.None? then None else Some(([first.value.0] + rest.value.0, rest.value.1))
  }

  predicate IsWellFormedItem(i: Item, scores: bool) {
    |i.text| < 4096 && i.score.Some? == scores && (scores ==> i.score.value < 0x1_0000_0000)
  }

  function WriteItem(i: Item, scores: bool): seq<Byte>
    requires IsWellFormedItem(i, scores)
  {
    U32(|i.text|) + i.text + if scores then U32(i.score.value) else []
  }

  function WriteItems(items: seq<Item>, scores: bool): seq<Byte>
    requires forall i :: 0 <= i < |items| ==> IsWellFormedItem(items[i], scores)
  {
    if items == [] then [] else WriteItem(items[0], scores) + WriteItems(items[1..], scores)
  }

  lemma ItemIsLoaded(data: seq<Byte>, o: nat, i: Item, scores: bool)
    requires IsWellFormedItem(i, scores) && IsAt(data, o, WriteItem(i, scores))
    ensures LoadItem(data, o, scores) == Some((i, o + |WriteItem(i, scores)|))
  {
    hide U32;
    hide ReadU32;
    hide IsAt;
    hide Sliced;
    var a, b, c := U32(|i.text|), i.text, if scores then U32(i.score.value) else [];
    PartsAreAt(data, o, a + b, c);
    PartsAreAt(data, o, a, b);
    U32IsRead(data, o, |i.text|);
    SliceIsAt(data, o + 4, i.text);
    if scores {
      U32IsRead(data, o + 4 + |i.text|, i.score.value);
    }
  }

  lemma {:induction false} ItemsAreLoaded(data: seq<Byte>, o: nat, items: seq<Item>, scores: bool)
    requires forall i :: 0 <= i < |items| ==> IsWellFormedItem(items[i], scores)
    requires IsAt(data, o, WriteItems(items, scores))
    ensures LoadItems(data, o, |items|, scores) == Some((items, o + |WriteItems(items, scores)|))
    decreases |items|
  {
    hide *;
    if items == [] {
      LoadNoItems(data, o, scores);
      WriteNoItems(scores);
    } else {
      var first, rest := items[0], items[1..];
      assert IsWellFormedItem(first, scores) && forall i :: 0 <= i < |rest| ==> rest[i] == items[i + 1];
      WriteItemsStep(items, scores);
      var w, more := WriteItem(first, scores), WriteItems(rest, scores);
      PartsAreAt(data, o, w, more);
      ItemIsLoaded(data, o, first, scores);
      ItemsAreLoaded(data, o + |w|, rest, scores);
      LoadItemsAre(data, o, |items|, scores, first, o + |w|, rest, o + |w| + |more|);
      assert [first] + rest == items;
    }
  }

  lemma WriteNoItems(scores: bool)
    ensures WriteItems([], scores) == []
  {
  }

  lemma WriteItemsStep(items: seq<Item>, scores: bool)
    requires items != [] && forall i :: 0 <= i < |items| ==> IsWellFormedItem(items[i], scores)
    ensures WriteItems(items, scores) == WriteItem(items[0], scores) + WriteItems(items[1..], scores)
  {
  }

  function ItemsBehind(items: seq<Item>, r: Option<(seq<Item>, nat)>): Option<(seq<Item>, nat)> {
    if r.None? then None else Some((items + r.value.0, r.value.1))
  }

  lemma LoadNoItems(data: seq<Byte>, o: nat, scores: bool)
    ensures LoadItems(data, o, 0, scores) == Some(([], o))
  {
  }

  lemma LoadItemsAre(data: seq<Byte>, o: nat, n: nat, scores: bool, first: Item, next: nat, rest: seq<Item>, end: nat)
    requires n > 0 && LoadItem(data, o, scores) == Some((first, next))
    requires LoadItems(data, next, n - 1, scores) == Some((rest, end))
    ensures LoadItems(data, o, n, scores) == Some(([first] + rest, end))
  {
  }

  lemma {:induction false} LoadItemsStep(before: seq<Item>, data: seq<Byte>, o: nat, n: nat, scores: bool)
    requires n > 0
    ensures var first := LoadItem(data, o, scores);
            ItemsBehind(before, LoadItems(data, o, n, scores)) ==
              if first.None? then None
                  else ItemsBehind(before + [first.value.0], LoadItems(data, first.value.1, n - 1, scores))
    ensures ItemsBehind([], LoadItems(data, o, n, scores)) == LoadItems(data, o, n, scores)
  {
    hide LoadItem;
    var first, all := LoadItem(data, o, scores), LoadItems(data, o, n, scores);
    assert all.Some? ==> [] + all.value.0 == all.value.0;
    if first.Some? {
      var rest := LoadItems(data, first.value.1, n - 1, scores);
      assert rest.Some? ==> before + ([first.value.0] + rest.value.0) == (before + [first.value.0]) + rest.value.0;
    }
  }

  // ---- The whole file

  /** Where each name was seen last. */
  function NameMap(infos: seq<TensorInfo>): (r: map<seq<Byte>, nat>) {
    if infos == [] then map[]
    else NameMap(infos[..|infos| - 1])[infos[|infos| - 1].name := |infos| - 1]
  }

  lemma {:induction false} NameMapFindsTheLast(infos: seq<TensorInfo>, name: seq<Byte>)
    ensures name in NameMap(infos) <==> exists i :: 0 <= i < |infos| && infos[i].name == name
    ensures name in NameMap(infos) ==>
      var k := NameMap(infos)[name];
      k < |infos| && infos[k].name == name && forall j :: k < j < |infos| ==> infos[j].name != name
  {
    if infos != [] {
      var rest := infos[..|infos| - 1];
      NameMapFindsTheLast(rest, name);
      assert infos == rest + [infos[|infos| - 1]];
      if name in NameMap(rest) {
        assert infos[NameMap(rest)[name]].name == name;
      }
    }
  }

  /** `layers.0.feed_forward.w1.weight` */
  const FEED_FORWARD: seq<Byte> := [108, 97, 121, 101, 114, 115, 46, 48, 46, 102, 101, 101, 100, 95, 102, 111, 114, 119,
                                    97, 114, 100, 46, 119, 49, 46, 119, 101, 105, 103, 104, 116]

  /** The second dimension of the feed-forward tensor, if there is such a tensor with two dimensions. */
  function FeedForwardSize(infos: seq<TensorInfo>): Option<nat> {
    if FEED_FORWARD !in NameMap(infos) then None
    else
      NameMapFindsTheLast(infos, FEED_FORWARD);
      var dims := infos[NameMap(infos)[FEED_FORWARD]].dims;
      if |dims| < 2 then None else Some(dims[1])
  }

  datatype Model = Model(format: Format, version: nat, parameters: seq<nat>, items: seq<Item>,
      tensors: seq<TensorInfo>, nFf: nat)

  function LoadModel(data: Data, quants: QuantSizes): Outcome<(Model, int)>
    requires IsQuantTable(quants)
  {
    var header := LoadHeader(data, 0);
    if header.None? then Failed
    else
      var (format, version, size) := header.value;
      var parameters := ReadU32s(data, size, 7);
      if parameters.None? || !IsFileType(parameters.value[6]) ||
          !IsConvertible(format, version, parameters.value[6]) then Failed
      else
        var items := LoadItems(data, size + 28, parameters.value[0], format != Ggml);
        if items.None? then Failed
        else
          match LoadTensors(data, items.value.1, format == Ggjt, quants, {})
          case Failed => Failed
          case Endless => Endless
          case Loaded((infos, end)) =>
            var nFf := FeedForwardSize(infos);
            if nFf.None? then Failed
            else Loaded((Model(format, version, parameters.value, items.value.0, infos, nFf.value), end))
  }

  datatype File = File(format: Format, version: nat, parameters: seq<nat>, items: seq<Item>, records: seq<Record>)

  predicate IsWellFormedFile(f: File, quants: QuantSizes)
    requires IsQuantTable(quants)
  {
    && IsVersionOf(f.format, f.version)
    && |f.parameters| == 7 && AreWords(f.parameters)
    && f.parameters[0] == |f.items|
    && IsFileType(f.parameters[6]) && IsConvertible(f.format, f.version, f.parameters[6])
    && (forall i :: 0 <= i < |f.items| ==> IsWellFormedItem(f.items[i], f.format != Ggml))
    && AllWellFormed(f.records, quants)
  }

  function WriteHeader(f: Format, version: nat): seq<Byte>
    requires IsVersionOf(f, version)
  {
    Magic(f) + if f == Ggml then [] else U32(version)
  }

  function RecordsStart(f: File, quants: QuantSizes): nat
    requires IsQuantTable(quants) && IsWellFormedFile(f, quants)
  {
    |WriteHeader(f.format, f.version)| + 28 + |WriteItems(f.items, f.format != Ggml)|
  }

  function WriteFile(f: File, quants: QuantSizes): seq<Byte>
    requires IsQuantTable(quants) && IsWellFormedFile(f, quants)
  {
    WriteHeader(f.format, f.version) + WriteU32s(f.parameters) + WriteItems(f.items, f.format != Ggml)
      + WriteRecords(f.records, RecordsStart(f, quants), f.format == Ggjt, quants)
  }

  lemma HeaderIsLoaded(data: seq<Byte>, f: Format, version: nat)
    requires IsVersionOf(f, version) && IsAt(data, 0, WriteHeader(f, version))
    ensures LoadHeader(data, 0) == Some((f, version, |WriteHeader(f, version)|))
  {
    hide U32;
    hide ReadU32;
    hide IsAt;
    hide Sliced;
    PartsAreAt(data, 0, Magic(f), if f == Ggml then [] else U32(version));
    SliceIsAt(data, 0, Magic(f));
    MagicsDiffer();
    if f != Ggml {
      U32IsRead(data, 4, version);
    }
  }

  lemma MagicsDiffer()
    ensures MAGIC_GGML != MAGIC_GGMF && MAGIC_GGML != MAGIC_GGJT && MAGIC_GGMF != MAGIC_GGJT
  {
    assert MAGIC_GGML[0] != MAGIC_GGMF[0] && MAGIC_GGML[0] != MAGIC_GGJT[0] && MAGIC_GGMF[0] != MAGIC_GGJT[0];
  }

  /** The part of a file in front of its tensor records. */
  function WriteHead(f: File, quants: QuantSizes): seq<Byte>
    requires IsQuantTable(quants) && IsWellFormedFile(f, quants)
  {
    WriteHeader(f.format, f.version) + WriteU32s(f.parameters) + WriteItems(f.items, f.format != Ggml)
  }

  /** What a load comes to that has read the head of the file, by how the loop over the records ends. */
  function LoadedBehindHead(f: File, records: Outcome<(seq<TensorInfo>, int)>): Outcome<(Model, int)> {
    match records
    case Failed => Failed
    case Endless => Endless
    case Loaded((infos, end)) =>
      if FeedForwardSize(infos).None? then Failed
      else Loaded((Model(f.format, f.version, f.parameters, f.items, infos, FeedForwardSize(infos).value), end))
  }

  lemma {:induction false} HeadIsLoaded(f: File, data: Data, quants: QuantSizes)
    requires IsQuantTable(quants) && IsWellFormedFile(f, quants) && IsAt(data, 0, WriteHead(f, quants))
    ensures RecordsStart(f, quants) == |WriteHead(f, quants)| <= |data|
    ensures LoadModel(data, quants) ==
            LoadedBehindHead(f, LoadTensors(data, RecordsStart(f, quants), f.format == Ggjt, quants, {}))
  {
    hide IsAt;
    hide LoadHeader;
    hide WriteHeader;
    hide LoadTensors;
    hide LoadItems;
    hide ReadU32s;
    hide WriteU32s;
    hide WriteItems;
    hide FeedForwardSize;
    var a, b, c := WriteHeader(f.format, f.version), WriteU32s(f.parameters), WriteItems(f.items, f.format != Ggml);
    EndsInside(data, 0, WriteHead(f, quants));
    PartsAreAt(data, 0, a + b, c);
    PartsAreAt(data, 0, a, b);
    HeaderIsLoaded(data, f.format, f.version);
    U32sAreRead(data, |a|, f.parameters);
    ItemsAreLoaded(data, |a| + 28, f.items, f.format != Ggml);
  }

  /** Every well-formed file is read back: format, version, hyperparameters, vocabulary and tensors, each with its name,
      shape, type and bytes, ending at the last byte; it is turned down exactly if it lacks the feed-forward tensor. */
  lemma {:induction false} WrittenFileIsLoaded(f: File, quants: QuantSizes)
    requires IsQuantTable(quants) && IsWellFormedFile(f, quants) && |WriteFile(f, quants)| < 0x4000_0000_0000_0000
    ensures var data, infos := WriteFile(f, quants),
        InfosOf(f.records, RecordsStart(f, quants), f.format == Ggjt, quants);
            && DescribeAll(infos, f.records) && ContentsAreAt(data, infos, f.records)
            && LoadModel(data, quants) ==
                 if FeedForwardSize(infos).None? then Failed
                 else Loaded((Model(f.format, f.version, f.parameters, f.items, infos, FeedForwardSize(infos).value),
                     |data|))
  {
    hide IsAt;
    hide LoadTensors;
    hide LoadModel;
    hide WriteRecords;
    hide FeedForwardSize;
    hide InfosOf;
    var data := WriteFile(f, quants);
    var records := WriteRecords(f.records, RecordsStart(f, quants), f.format == Ggjt, quants);
    assert data == WriteHead(f, quants) + records;
    IsAtItself(data);
    PartsAreAt(data, 0, WriteHead(f, quants), records);
    HeadIsLoaded(f, data, quants);
    RecordsAreLoaded(data, RecordsStart(f, quants), f.records, f.format == Ggjt, quants, {});
    RangesHoldContents(data, RecordsStart(f, quants), f.records, f.format == Ggjt, quants);
  }

  /** A whole file that the program reads for ever: the head of any file without padding, and a record of -64 bytes
      with a name of 40. */
  lemma EndlessFileExample(f: File, name: seq<Byte>, dtype: nat, quants: QuantSizes)
    requires IsQuantTable(quants) && IsWellFormedFile(f, quants) && f.format != Ggjt
    requires dtype in quants && quants[dtype] == (1, 1) && |name| == 40 && dtype < 0x1_0000_0000
    requires |WriteHead(f, quants) + WrappingRecord(name, dtype)| < 0x4000_0000_0000_0000
    ensures LoadModel(WriteHead(f, quants) + WrappingRecord(name, dtype), quants) == Endless
  {
    hide IsAt;
    hide LoadTensors;
    hide LoadModel;
    hide WriteHead;
    hide WrappingRecord;
    hide IsWellFormedFile;
    hide RecordsStart;
    var head, record := WriteHead(f, quants), WrappingRecord(name, dtype);
    var data := head + record;
    IsAtItself(data);
    PartsAreAt(data, 0, head, record);
    HeadIsLoaded(f, data, quants);
    StandstillExample(data, |head|, name, dtype, quants);
  }

  // ---- The loader

  class Tensor {
    const usePadding: bool
    var name: seq<Byte>
    var dims: seq<nat>
    var dtype: nat
    var startOffset: int
    var lenBytes: int

    constructor (usePadding: bool)
      ensures this.usePadding == usePadding
    {
      this.usePadding := usePadding;
      name, dims, dtype, startOffset, lenBytes := [], [], 0, 0, 0;
    }

    ghost function Info(): TensorInfo
      reads this
    {
      TensorInfo(name, dims, dtype, startOffset, lenBytes)
    }

    /** The number of bytes taken, which may be negative and has wrapped like the offset. */
    method Load(data: Data, origOffset: int, quants: QuantSizes) returns (r: Option<int>)
      requires IsQuantTable(quants)
      modifies this
      ensures match LoadTensor(data, origOffset, usePadding, quants)
              case None => r == None
              case Some((info, next)) => r == Some(Wrap64(next - origOffset)) && Info() == info
    {
      hide ReadU32s;
      hide Sliced;
      hide ByteCount;
      hide DataStart;
      hide Wrap64;
      var offset := origOffset;
      var counts := ReadU32s(data, offset, 3);
      if counts.None? {
        return None;
      }
      var nDims, nameLen, code := counts.value[0], counts.value[1], counts.value[2];
      if nDims > 4 || nameLen >= 4096 || code !in quants {
        return None;
      }
      offset := offset + 12;
      dtype := code;
      var shape := ReadU32s(data, offset, nDims);
      if shape.None? {
        return None;
      }
      dims := shape.value;
      offset := offset + 4 * nDims;
      name := Sliced(data, offset, offset + nameLen);
      offset := offset + nameLen;
      offset := DataStart(offset, usePadding);
      var nBytes := ByteCount(dims, quants[dtype]);
      startOffset := offset;
      lenBytes := nBytes;
      offset := Wrap64(offset + nBytes);
      return Some(Wrap64(offset - origOffset));
    }
  }

  function Behind(infos: seq<TensorInfo>, r: Outcome<(seq<TensorInfo>, int)>): Outcome<(seq<TensorInfo>, int)> {
    match r
    case Loaded((rest, end)) => Loaded((infos + rest, end))
    case _ => r
  }

  lemma BehindOneMore(infos: seq<TensorInfo>, data: Data, o: int, usePadding: bool, quants: QuantSizes, seen: set<int>)
    requires IsQuantTable(quants) && IsOffset(o) && o < |data| && AreOffsets(seen, |data|) && o !in seen
    ensures |seen + {o}| <= TWO_TO_THE_63 + |data| && AreOffsets(seen + {o}, |data|)
    ensures var first := LoadTensor(data, o, usePadding, quants);
            Behind(infos, LoadTensors(data, o, usePadding, quants, seen)) ==
              if first.None? then Failed
              else Behind(infos + [first.value.0], LoadTensors(data, first.value.1, usePadding, quants, seen + {o}))
  {
    hide LoadTensor;
    OffsetsAreFew(seen + {o}, -TWO_TO_THE_63, |data|);
    var first := LoadTensor(data, o, usePadding, quants);
    if first.Some? {
      var rest := LoadTensors(data, first.value.1, usePadding, quants, seen + {o});
      assert rest.Loaded? ==> infos + ([first.value.0] + rest.value.0) == (infos + [first.value.0]) + rest.value.0;
    }
  }

  lemma BehindTheRest(infos: seq<TensorInfo>, data: Data, o: int, usePadding: bool, quants: QuantSizes, seen: set<int>)
    requires IsQuantTable(quants) && IsOffset(o) && AreOffsets(seen, |data|)
    ensures infos == [] ==>
      Behind(infos, LoadTensors(data, o, usePadding, quants, seen)) == LoadTensors(data, o, usePadding, quants, seen)
    ensures o >= |data| ==> Behind(infos, LoadTensors(data, o, usePadding, quants, seen)) == Loaded((infos, o))
    ensures o < |data| && o in seen ==> Behind(infos, LoadTensors(data, o, usePadding, quants, seen)) == Endless
  {
    hide LoadTensor;
    var r := LoadTensors(data, o, usePadding, quants, seen);
    assert r.Loaded? && infos == [] ==> infos + r.value.0 == r.value.0;
    assert infos + [] == infos;
  }

  /** The loop over the tensor records. The program keeps no record of the offsets it has seen: where this method
      finds one again and returns, the program goes on for ever. */
  method LoadTensorRecords(data: Data, origOffset: int, usePadding: bool, quants: QuantSizes)
    returns (r: Outcome<int>, tensors: seq<Tensor>, tensorMap: map<seq<Byte>, nat>)
    requires IsQuantTable(quants) && IsOffset(origOffset)
    ensures match LoadTensors(data, origOffset, usePadding, quants, {})
            case Failed => r == Failed
            case Endless => r == Endless
            case Loaded((infos, end)) =>
              && r == Loaded(end) && tensorMap == NameMap(infos)
              && |tensors| == |infos| && forall i :: 0 <= i < |tensors| ==> tensors[i].Info() == infos[i]
  {
    hide LoadTensors;
    hide LoadTensor;
    hide Wrap64;
    hide AreOffsets;
    hide NameMap;
    hide Behind;
    NoNames();
    tensors, tensorMap := [], map[];
    ghost var infos: seq<TensorInfo> := [];
    var seen: set<int> := {};
    var offset := origOffset;
    assert AreOffsets(seen, |data|) by { NoOffsets(|data|); }
    BehindTheRest(infos, data, offset, usePadding, quants, seen);
    while offset < |data|
      invariant IsOffset(offset) && AreOffsets(seen, |data|)
      invariant |tensors| == |infos| && forall i :: 0 <= i < |tensors| ==>
          fresh(tensors[i]) && tensors[i].Info() == infos[i]
      invariant tensorMap == NameMap(infos)
      invariant Behind(infos, LoadTensors(data, offset, usePadding, quants, seen))
             == LoadTensors(data, origOffset, usePadding, quants, {})
      decreases TWO_TO_THE_63 + |data| - |seen|
    {
      BehindTheRest(infos, data, offset, usePadding, quants, seen);
      if offset in seen {
        return Endless, [], map[];
      }
      BehindOneMore(infos, data, offset, usePadding, quants, seen);
      var tensor, next := LoadNext(data, offset, usePadding, quants);
      if next.None? {
        return Failed, [], map[];
      }
      ghost var info := LoadTensor(data, offset, usePadding, quants).value.0;
      NameMapStep(infos, info);
      seen := seen + {offset};
      offset := next.value;
      tensorMap := tensorMap[tensor.name := |tensors|];
      tensors := tensors + [tensor];
      infos := infos + [info];
    }
    BehindTheRest(infos, data, offset, usePadding, quants, seen);
    r := Loaded(offset);
  }

  /** One turn of the loop: a new tensor, and the offset behind it. */
  method LoadNext(data: Data, offset: int, usePadding: bool, quants: QuantSizes)
    returns (tensor: Tensor, next: Option<int>)
    requires IsQuantTable(quants) && IsOffset(offset)
    ensures fresh(tensor)
    ensures match LoadTensor(data, offset, usePadding, quants)
            case None => next == None
            case Some((info, end)) => next == Some(end) && tensor.Info() == info && IsOffset(end)
  {
    hide LoadTensor;
    hide Wrap64;
    tensor := new Tensor(usePadding);
    var taken := tensor.Load(data, offset, quants);
    if taken.None? {
      return tensor, None;
    }
    ghost var info := LoadTensor(data, offset, usePadding, quants).value.0;
    WrapOfDifference(offset, LoadTensor(data, offset, usePadding, quants).value.1);
    WrapTwice(info.start + info.length);
    next := Some(Wrap64(offset + taken.value));
  }

  lemma NoNames()
    ensures NameMap([]) == map[]
  {
  }

  lemma NameMapStep(infos: seq<TensorInfo>, info: TensorInfo)
    ensures NameMap(infos + [info]) == NameMap(infos)[info.name := |infos|]
  {
    assert (infos + [info])[..|infos|] == infos;
  }

  lemma NoOffsets(end: nat)
    ensures AreOffsets({}, end)
  {
  }

  lemma WrapTwice(x: int)
    ensures Wrap64(Wrap64(x)) == Wrap64(x)
  {
  }

  /** The loop over the vocabulary. */
  method LoadVocab(data: seq<Byte>, origOffset: nat, n: nat, scores: bool) returns (r: Option<(seq<Item>, nat)>)
    ensures r == LoadItems(data, origOffset, n, scores)
  {
    hide LoadItem;
    hide LoadItems;
    var items: seq<Item> := [];
    var offset := origOffset;
    if n > 0 {
      LoadItemsStep(items, data, offset, n, scores);
    } else {
      LoadNoItems(data, offset, scores);
      assert items + items == items;
    }
    for i := 0 to n
      invariant ItemsBehind(items, LoadItems(data, offset, n - i, scores)) == LoadItems(data, origOffset, n, scores)
    {
      LoadItemsStep(items, data, offset, n - i, scores);
      var item := LoadItem(data, offset, scores);
      if item.None? {
        return None;
      }
      items := items + [item.value.0];
      offset := item.value.1;
    }
    LoadNoItems(data, offset, scores);
    assert items + [] == items;
    return Some((items, offset));
  }

  /** The model object: the format is set as soon as the header is read, the rest once all of it could be read. */
  class GgmlModel {
    var format: Format
    var version: nat
    var parameters: seq<nat>
    var items: seq<Item>
    var tensors: seq<Tensor>
    var tensorMap: map<seq<Byte>, nat>
    var nFf: nat

    constructor ()
      ensures tensors == [] && tensorMap == map[]
    {
      format, version, parameters, items, tensors, tensorMap, nFf := Ggml, 0, [], [], [], map[], 0;
    }

    method Load(data: Data, quants: QuantSizes) returns (r: Outcome<int>)
      requires IsQuantTable(quants)
      modifies this
      ensures match LoadModel(data, quants)
              case Failed => r == Failed
              case Endless => r == Endless
              case Loaded((m, end)) =>
                && r == Loaded(end)
                && format == m.format && version == m.version && parameters == m.parameters && items == m.items &&
                    nFf == m.nFf
                && tensorMap == NameMap(m.tensors)
                && |tensors| == |m.tensors| && forall i :: 0 <= i < |tensors| ==> tensors[i].Info() == m.tensors[i]
    {
      hide LoadHeader;
      hide LoadItems;
      hide LoadTensors;
      hide ReadU32s;
      hide NameMap;
      hide FeedForwardSize;
      var header := LoadHeader(data, 0);
      if header.None? {
        return Failed;
      }
      format, version := header.value.0, header.value.1;
      var offset := header.value.2;
      var numbers := ReadU32s(data, offset, 7);
      if numbers.None? || !IsFileType(numbers.value[6]) {
        return Failed;
      }
      offset := offset + 28;
      if !IsConvertible(format, version, numbers.value[6]) {
        return Failed;
      }
      var vocab := LoadVocab(data, offset, numbers.value[0], format != Ggml);
      if vocab.None? {
        return Failed;
      }
      var end, loaded, names := LoadTensorRecords(data, vocab.value.1, format == Ggjt, quants);
      if !end.Loaded? {
        return end;
      }
      parameters, items, tensors, tensorMap := numbers.value, vocab.value.0, loaded, names;
      ghost var infos := LoadTensors(data, vocab.value.1, format == Ggjt, quants, {}).value.0;
      var size := FeedForwardLength(infos);
      if size.None? {
        return Failed;
      }
      nFf := size.value;
      return end;
    }

    /** The second dimension of the feed-forward tensor, if there is such a tensor and it has two. */
    method FeedForwardLength(ghost infos: seq<TensorInfo>) returns (size: Option<nat>)
      requires tensorMap == NameMap(infos) && |tensors| == |infos|
      requires forall i :: 0 <= i < |tensors| ==> tensors[i].Info() == infos[i]
      ensures size == FeedForwardSize(infos)
    {
      hide NameMap;
      NameMapFindsTheLast(infos, FEED_FORWARD);
      if FEED_FORWARD !in tensorMap {
        return None;
      }
      var feedForward := tensors[tensorMap[FEED_FORWARD]];
      assert feedForward.Info() == infos[tensorMap[FEED_FORWARD]];
      if |feedForward.dims| < 2 {
        return None;
      }
      return Some(feedForward.dims[1]);
    }
  }
}
