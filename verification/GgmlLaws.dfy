/** Which bytes of a legacy GGML file are read as what, and when they are turned down. */
module GgmlLaws {
  import opened Text
  import opened GgmlRecords
  import opened GgmlLoader

  // ---- Numbers and slices

  /** The number that four bytes stand for, the lowest byte first. */
  function NumberAt(data: seq<Byte>, o: nat): nat
    requires o + 4 <= |data|
  {
    data[o] as int + 0x100 * data[o + 1] as int + 0x1_0000 * data[o + 2] as int + 0x100_0000 * data[o + 3] as int
  }

  lemma {:induction false} WordsAreNumbers(s: seq<Byte>, i: nat)
    requires |s| % 4 == 0 && 4 * i + 4 <= |s|
    ensures WordsOf(s)[i] == NumberAt(s, 4 * i)
  {
    var n := |s| - 4;
    WordsStep(s);
    hide WordsOf;
    hide NumberAt;
    if 4 * i < n {
      WordsAreNumbers(s[..n], i);
      NumberInPrefix(s, n, 4 * i);
    }
  }

  lemma WordsStep(s: seq<Byte>)
    requires |s| % 4 == 0 && s != []
    ensures var n := |s| - 4;
            n >= 0 && n % 4 == 0 && WordsOf(s) == WordsOf(s[..n]) + [NumberAt(s, n)] && 4 * |WordsOf(s[..n])| == n
  {
  }

  lemma NumberInPrefix(s: seq<Byte>, n: nat, o: nat)
    requires o + 4 <= n <= |s|
    ensures NumberAt(s[..n], o) == NumberAt(s, o)
  {
  }

  /** Numbers are read exactly if all their bytes are there. */
  lemma NumbersAreRead(data: seq<Byte>, o: nat, n: nat)
    ensures var r := ReadU32s(data, o, n);
            && (r.Some? <==> n == 0 || o + 4 * n <= |data|)
            && (r.Some? ==> |r.value| == n && forall i :: 0 <= i < n ==> r.value[i] == NumberAt(data, o + 4 * i))
  {
    SliceIs(data, o, o + 4 * n);
    hide Sliced;
    hide WordsOf;
    hide NumberAt;
    if o + 4 * n <= |data| {
      forall i | 0 <= i < n
        ensures WordsOf(data[o..o + 4 * n])[i] == NumberAt(data, o + 4 * i)
      {
        NumberOfSlice(data, o, n, i);
      }
    }
  }

  lemma NumberOfSlice(data: seq<Byte>, o: nat, n: nat, i: nat)
    requires o + 4 * n <= |data| && i < n
    ensures WordsOf(data[o..o + 4 * n])[i] == NumberAt(data, o + 4 * i)
  {
    var s := data[o..o + 4 * n];
    WordsAreNumbers(s, i);
    hide WordsOf;
    assert s[4 * i] == data[o + 4 * i] && s[4 * i + 1] == data[o + 4 * i + 1];
    assert s[4 * i + 2] == data[o + 4 * i + 2] && s[4 * i + 3] == data[o + 4 * i + 3];
  }

  /** A slice ends with the data. */
  lemma SliceIs(data: seq<Byte>, lo: nat, hi: nat)
    requires lo <= hi
    ensures Sliced(data, lo, hi) ==
            if hi <= |data| then data[lo..hi] else if lo <= |data| then data[lo..] else []
  {
  }

  /** Bounds in front of the data count from its end. */
  lemma SliceFromTheEnd(data: seq<Byte>, lo: int, hi: int)
    requires -|data| <= lo <= hi < 0
    ensures Sliced(data, lo, hi) == data[|data| + lo..|data| + hi]
  {
  }

  // ---- A tensor record

  /** The record at o is complete as far as it is unpacked, and within the limits. */
  predicate IsReadable(data: seq<Byte>, o: nat, quants: QuantSizes) {
    && o + 12 <= |data|
    && NumberAt(data, o) <= 4 && NumberAt(data, o + 4) <= 4095 && NumberAt(data, o + 8) in quants
    && o + 12 + 4 * NumberAt(data, o) <= |data|
  }

  /** The record says so: its number of dimensions, the length of its name and its type, then the dimensions, then the
      name, and behind it, or at the next multiple of 32, the data. */
  predicate Tells(data: seq<Byte>, o: nat, usePadding: bool, info: TensorInfo)
    requires o + 12 <= |data|
  {
    var n, nameLen := NumberAt(data, o), NumberAt(data, o + 4);
    var nameAt := o + 12 + 4 * n;
    && info.dtype == NumberAt(data, o + 8)
    && |info.dims| == n && nameAt <= |data| &&
        (forall i :: 0 <= i < n ==> info.dims[i] == NumberAt(data, o + 12 + 4 * i))
    && info.name == (if nameAt + nameLen <= |data| then data[nameAt..nameAt + nameLen] else data[nameAt..])
    && (if usePadding then nameAt + nameLen <= info.start < nameAt + nameLen + 32 && info.start % 32 == 0
        else info.start == nameAt + nameLen)
  }

  /** A record is loaded exactly if it is readable, and then it is what its bytes tell. */
  lemma RecordIsReadExactly(data: seq<Byte>, o: nat, usePadding: bool, quants: QuantSizes)
    requires IsQuantTable(quants)
    ensures LoadTensor(data, o, usePadding, quants).Some? <==> IsReadable(data, o, quants)
    ensures IsReadable(data, o, quants) ==> Tells(data, o, usePadding, LoadTensor(data, o, usePadding, quants).value.0)
  {
    hide LoadTensor;
    hide ReadU32s;
    hide Sliced;
    hide NumberAt;
    hide DataStart;
    hide Tells;
    HeadIsRead(data, o);
    if o + 12 <= |data| {
      var n, nameLen, dtype := NumberAt(data, o), NumberAt(data, o + 4), NumberAt(data, o + 8);
      NumbersAreRead(data, o + 12, n);
      PartsAreTaken(data, o, usePadding, quants, n, nameLen, dtype);
      if IsReadable(data, o, quants) {
        TellsIfRead(data, o, usePadding, LoadTensor(data, o, usePadding, quants).value.0);
      }
    } else {
      NoHead(data, o, usePadding, quants);
    }
  }

  lemma TellsIfRead(data: seq<Byte>, o: nat, usePadding: bool, info: TensorInfo)
    requires o + 12 <= |data| && info.dtype == NumberAt(data, o + 8)
    requires var n, nameLen := NumberAt(data, o), NumberAt(data, o + 4);
             var nameAt := o + 12 + 4 * n;
             && nameAt <= |data| && ReadU32s(data, o + 12, n) == Some(info.dims)
             && info.name == Sliced(data, nameAt, nameAt + nameLen)
             && info.start == DataStart(nameAt + nameLen, usePadding)
    ensures Tells(data, o, usePadding, info)
  {
    hide ReadU32s;
    hide Sliced;
    hide NumberAt;
    hide DataStart;
    var n, nameLen := NumberAt(data, o), NumberAt(data, o + 4);
    NumbersAreRead(data, o + 12, n);
    SliceIs(data, o + 12 + 4 * n, o + 12 + 4 * n + nameLen);
    StartIs(o + 12 + 4 * n + nameLen, usePadding);
  }

  lemma HeadIsRead(data: seq<Byte>, o: nat)
    ensures ReadU32s(data, o, 3) ==
            if o + 12 <= |data| then Some([NumberAt(data, o), NumberAt(data, o + 4), NumberAt(data, o + 8)]) else None
  {
    NumbersAreRead(data, o, 3);
    hide ReadU32s;
    if o + 12 <= |data| {
      var r := ReadU32s(data, o, 3).value;
      assert r[0] == NumberAt(data, o + 4 * 0) && r[1] == NumberAt(data, o + 4 * 1) &&
          r[2] == NumberAt(data, o + 4 * 2);
      assert r == [r[0], r[1], r[2]];
    }
  }

  lemma NoHead(data: seq<Byte>, o: nat, usePadding: bool, quants: QuantSizes)
    requires IsQuantTable(quants) && ReadU32s(data, o, 3).None?
    ensures LoadTensor(data, o, usePadding, quants).None?
  {
    hide ReadU32s;
  }

  lemma StartIs(behind: nat, usePadding: bool)
    ensures !usePadding ==> DataStart(behind, usePadding) == behind
  {
  }

  lemma PartsAreTaken(data: seq<Byte>, o: nat, usePadding: bool, quants: QuantSizes, n: nat, nameLen: nat, dtype: nat)
    requires IsQuantTable(quants) && ReadU32s(data, o, 3) == Some([n, nameLen, dtype])
    ensures var dims, nameAt := ReadU32s(data, o + 12, n), o + 12 + 4 * n;
            var r := LoadTensor(data, o, usePadding, quants);
            && (r.Some? <==> n <= 4 && nameLen <= 4095 && dtype in quants && dims.Some?)
            && (r.Some? ==>
                  && r.value.0.dtype == dtype && r.value.0.dims == dims.value
                  && r.value.0.name == Sliced(data, nameAt, nameAt + nameLen)
                  && r.value.0.start == DataStart(nameAt + nameLen, usePadding))
  {
    hide ReadU32s;
    hide Sliced;
    hide DataStart;
    hide ByteCount;
    hide Wrap64;
  }

  // ---- Header, types and vocabulary

  /** The bytes of some characters. */
  predicate Spells(s: seq<Byte>, text: string) {
    |s| == |text| && forall i :: 0 <= i < |s| ==> s[i] == text[i] as int
  }

  /** The magic text, and the versions that there are of a format. */
  predicate IsHeader(data: seq<Byte>, f: Format, version: nat, size: nat) {
    && |data| >= 4
    && match f
       case Ggml => Spells(data[..4], "lmgg") && version == 1 && size == 4
       case Ggmf => Spells(data[..4], "fmgg") && |data| >= 8 && version == 1 == NumberAt(data, 4) && size == 8
       case Ggjt =>
         Spells(data[..4], "tjgg") && |data| >= 8 && 1 <= version <= 3 && version == NumberAt(data, 4) && size == 8
  }

  lemma HeaderIsReadExactly(data: seq<Byte>, f: Format, version: nat, size: nat)
    ensures LoadHeader(data, 0) == Some((f, version, size)) <==> IsHeader(data, f, version, size)
  {
    hide Sliced;
    hide ReadU32;
    hide NumberAt;
    SliceIs(data, 0, 4);
    OneIsRead(data, 4);
    if |data| >= 4 {
      var m := data[..4];
      assert Spells(m, "lmgg") <==> m == MAGIC_GGML;
      assert Spells(m, "fmgg") <==> m == MAGIC_GGMF;
      assert Spells(m, "tjgg") <==> m == MAGIC_GGJT;
      MagicsDiffer();
    }
  }

  /** The types of file that are converted: 32 and 16 bit floats always, the others only since their quantization has
      not changed any more. */
  lemma ConvertibleExactly(f: Format, version: nat, ftype: nat)
    requires IsVersionOf(f, version)
    ensures IsFileType(ftype) && IsConvertible(f, version, ftype) <==>
            || ftype in {0, 1}
            || (f == Ggjt && version >= 2 && ftype in {8, 9, 10, 11, 12, 13, 14, 15, 16, 17, 18})
            || (f == Ggjt && version == 3 && ftype in {2, 3, 4, 7})
  {
  }

  /** A vocabulary item is loaded exactly if its length is there and below 4096, and so is its score, if it has one. */
  lemma ItemIsReadExactly(data: seq<Byte>, o: nat, scores: bool)
    ensures LoadItem(data, o, scores).Some? <==>
            && o + 4 <= |data| && NumberAt(data, o) <= 4095
            && (scores ==> o + 4 + NumberAt(data, o) + 4 <= |data|)
    ensures LoadItem(data, o, scores).Some? ==>
            var (item, behind) := LoadItem(data, o, scores).value;
            var end := o + 4 + NumberAt(data, o);
            && item.text == (if end <= |data| then data[o + 4..end] else data[o + 4..])
            && (if scores then item.score == Some(NumberAt(data, end)) && behind == end + 4
                else item.score == None && behind == end)
  {
    hide ReadU32;
    hide Sliced;
    hide NumberAt;
    OneIsRead(data, o);
    if o + 4 <= |data| {
      var length := NumberAt(data, o);
      SliceIs(data, o + 4, o + 4 + length);
      OneIsRead(data, o + 4 + length);
      PartsOfItem(data, o, scores, length);
    }
  }

  lemma PartsOfItem(data: seq<Byte>, o: nat, scores: bool, length: nat)
    requires ReadU32(data, o) == Some(length)
    ensures var end := o + 4 + length;
            var r, score := LoadItem(data, o, scores), ReadU32(data, end);
            r == if length > 4095 || (scores && score.None?) then None
                 else Some((Item(Sliced(data, o + 4, end), if scores then score else None), if scores then end + 4
                     else end))
  {
    hide ReadU32;
    hide Sliced;
  }

  lemma OneIsRead(data: seq<Byte>, o: nat)
    ensures ReadU32(data, o) == if o + 4 <= |data| then Some(NumberAt(data, o)) else None
  {
    NumbersAreRead(data, o, 1);
    hide ReadU32s;
    if o + 4 <= |data| {
      assert ReadU32s(data, o, 1).value[0] == NumberAt(data, o + 4 * 0);
    }
  }

  /** The feed-forward size is the second dimension of the last tensor with that name. */
  lemma FeedForwardIsFound(infos: seq<TensorInfo>, size: nat)
    ensures FeedForwardSize(infos) == Some(size) <==>
            exists k :: 0 <= k < |infos| && IsFeedForward(infos[k], size) &&
              forall j :: k < j < |infos| ==> !Spells(infos[j].name, "layers.0.feed_forward.w1.weight")
  {
    NameIsSpelled();
    NameMapFindsTheLast(infos, FEED_FORWARD);
    hide NameMap;
    hide Spells;
    forall j | 0 <= j < |infos|
      ensures Spells(infos[j].name, "layers.0.feed_forward.w1.weight") <==> infos[j].name == FEED_FORWARD
    {
      SpelledAlike(infos[j].name, FEED_FORWARD, "layers.0.feed_forward.w1.weight");
    }
    if FEED_FORWARD in NameMap(infos) {
      var k := NameMap(infos)[FEED_FORWARD];
      assert infos[k].name == FEED_FORWARD;
    }
  }

  predicate IsFeedForward(info: TensorInfo, size: nat) {
    Spells(info.name, "layers.0.feed_forward.w1.weight") && |info.dims| >= 2 && info.dims[1] == size
  }

  lemma NameIsSpelled()
    ensures Spells(FEED_FORWARD, "layers.0.feed_forward.w1.weight")
  {
  }

  lemma SpelledAlike(s: seq<Byte>, t: seq<Byte>, text: string)
    requires Spells(t, text)
    ensures Spells(s, text) <==> s == t
  {
  }
}
