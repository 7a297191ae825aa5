/** What becomes of a file that is well written but of whatever version and file type, and of a header that is not
    within bounds.
 */
module GgmlOutcomes {
  import opened Bytes
  import opened GgmlFile
  import opened GgmlRoundTrip
  import opened GgmlScan
  import opened Wrappers

  /** All but the version and the file type is in order. */
  predicate Written(f: File) {
    && (f.format == Ggml ==> f.version == 1) && f.version < LIMIT32
    && Words32(HyperWords(f.hyper))
    && f.hyper.nVocab == |f.items|
    && (forall i :: 0 <= i < |f.items| ==> ItemOk(f.items[i], f.format != Ggml))
    && (forall i :: 0 <= i < |f.weights| ==> WeightsOk(f.weights[i]))
    && |Write(f)| < INT64_LIMIT
  }

  predicate VersionKnown(f: File) {
    (f.format == Ggmf ==> f.version == 1) && (f.format == Ggjt ==> f.version in {1, 2, 3})
  }

  predicate FileTypeKnown(f: File) {
    f.hyper.fileType in {0, 1, 2, 3, 4, 7, 8, 9, 10, 11, 12, 13, 14, 15, 16, 17, 18}
  }

  /** Before the second version of the last format only unquantized files, in the second none of four types that
      changed in the third.
   */
  predicate Convertible(f: File) {
    if f.format == Ggjt && f.version == 3 then true
    else if f.format == Ggjt && f.version == 2 then f.hyper.fileType !in {2, 3, 4, 7}
    else f.hyper.fileType in {0, 1}
  }

  predicate IsFeedForward(w: Weights) {
    w.name == Ascii("layers.0.feed_forward.w1.weight")
  }

  /** The last tensor of the name that gives the feed-forward width has two dimensions. */
  ghost predicate FeedForwardThere(f: File) {
    exists k: nat :: k < |f.weights| && IsFeedForward(f.weights[k]) && |f.weights[k].dims| >= 2
                     && forall i :: k < i < |f.weights| ==> !IsFeedForward(f.weights[i])
  }

  /** The outcome of loading such a file: the first of these that is wrong is the error, and none means success. */
  lemma LoadOutcome(f: File, passes: nat)
    requires Written(f) && passes >= |f.weights|
    ensures var r := Read(Write(f), 0, passes);
      if !VersionKnown(f) then r == Err(BadVersion)
      else if !FileTypeKnown(f) then r == Err(BadFileType)
      else if !Convertible(f) then r == Err(NotEligible)
      else if !FeedForwardThere(f) then r == Err(NoFeedForward)
      else r.Ok? && r.value.2 == |Write(f)|
  {
    hide Read, ReadBody, WriteHeader, AllBytes32, WriteItems, WriteTensors, ItemOk, WeightsOk, Holds, Words32, HasFeedForward,
         WritePrefix, Write;
    FileIs(f);
    PartsHeld(f);
    if !VersionKnown(f) {
      VersionRefused(Write(f), f);
      HeaderStops(Write(f), passes);
    } else if !FileTypeKnown(f) {
      HeaderRead(Write(f), f);
      TypeRefused(Write(f), |WriteHeader(f)|, f.hyper);
      TypeStops(Write(f), f, passes);
    } else if !Convertible(f) {
      HeaderRead(Write(f), f);
      HyperRead(Write(f), |WriteHeader(f)|, f.hyper);
      TypeStops(Write(f), f, passes);
    } else if FeedForwardThere(f) {
      var k := FeedForwardAt(f);
      LoadInvertsWrite(f, k, passes);
    } else {
      NothingFound(f, passes);
    }
  }

  lemma FeedForwardAt(f: File) returns (k: nat)
    requires FeedForwardThere(f)
    ensures HasFeedForward(f.weights, k)
  {
    hide Ascii;
    k :| k < |f.weights| && IsFeedForward(f.weights[k]) && |f.weights[k].dims| >= 2
      && forall i :: k < i < |f.weights| ==> !IsFeedForward(f.weights[i]);
  }

  lemma FileIs(f: File)
    ensures VersionKnown(f) && Written(f) ==> VersionOk(f.format, f.version)
    ensures KnownFileType(f.hyper.fileType) <==> FileTypeKnown(f)
    ensures VersionKnown(f) && Written(f) ==> (Eligible(f.format, f.version, f.hyper.fileType) <==> Convertible(f))
    ensures Written(f) && VersionKnown(f) && FileTypeKnown(f) && Convertible(f) ==> FileOk(f)
  {
    hide Write, Words32, ItemOk, WeightsOk;
  }

  lemma PartsHeld(f: File)
    ensures var data, h, y := Write(f), WriteHeader(f), AllBytes32(HyperWords(f.hyper));
      && Holds(data, 0, h) && Holds(data, |h|, y)
  {
    hide WriteHeader, AllBytes32, WriteItems, WriteTensors, Holds;
    var data, scores, padded := Write(f), f.format != Ggml, f.format == Ggjt;
    var h, y, v := WriteHeader(f), AllBytes32(HyperWords(f.hyper)), WriteItems(f.items, scores);
    var w := WriteTensors(f.weights, |WritePrefix(f)|, padded);
    assert Holds(data, 0, h + y + v + w) by { GgmlRoundTrip.HoldsAll(data); }
    HoldsSplit(data, 0, h + y + v, w);
    HoldsSplit(data, 0, h + y, v);
    HoldsSplit(data, 0, h, y);
  }

  lemma VersionRefused(data: seq<Byte>, f: File)
    requires Holds(data, 0, WriteHeader(f)) && f.version < LIMIT32 && !VersionKnown(f)
    ensures ReadHeader(data, 0) == Err(BadVersion)
  {
    hide U32s, Slice, Ascii, Holds, Bytes32;
    Magics();
    match f.format
    case Ggml =>
    case Ggmf =>
      HoldsSplit(data, 0, Ascii("fmgg"), Bytes32(f.version));
      SliceHeld(data, 0, Ascii("fmgg"));
      OneWord(data, 4, f.version);
    case Ggjt =>
      HoldsSplit(data, 0, Ascii("tjgg"), Bytes32(f.version));
      SliceHeld(data, 0, Ascii("tjgg"));
      OneWord(data, 4, f.version);
  }

  lemma TypeRefused(data: seq<Byte>, o: nat, h: Hyper)
    requires Holds(data, o, AllBytes32(HyperWords(h))) && Words32(HyperWords(h)) && !KnownFileType(h.fileType)
    ensures ReadHyper(data, o) == Err(BadFileType)
  {
    hide U32s, AllBytes32;
    WordsRead(data, o, HyperWords(h));
  }

  lemma HeaderStops(data: seq<Byte>, passes: nat)
    requires ReadHeader(data, 0) == Err(BadVersion)
    ensures Read(data, 0, passes) == Err(BadVersion)
  {
    hide ReadHeader, ReadHyper, ReadBody, FeedForward;
  }

  lemma TypeStops(data: seq<Byte>, f: File, passes: nat)
    requires ReadHeader(data, 0) == Ok(Header(f.format, f.version, |WriteHeader(f)|))
    ensures ReadHyper(data, |WriteHeader(f)|) == Err(BadFileType) ==> Read(data, 0, passes) == Err(BadFileType)
    ensures ReadHyper(data, |WriteHeader(f)|) == Ok(f.hyper) && !Eligible(f.format, f.version, f.hyper.fileType) ==>
              Read(data, 0, passes) == Err(NotEligible)
  {
    hide ReadHeader, ReadHyper, ReadBody, FeedForward, WriteHeader, Eligible;
  }

  lemma NothingFound(f: File, passes: nat)
    requires FileOk(f) && !FeedForwardThere(f) && passes >= |f.weights|
    ensures Read(Write(f), 0, passes) == Err(NoFeedForward)
  {
    hide ReadHeader, ReadHyper, ReadItems, ReadTensors, WriteHeader, AllBytes32, WriteItems, WriteTensors, Listed,
         ItemOk, WeightsOk, Eligible, Holds, Words32, FeedForward, FeedForwardThere;
    var data, scores, padded := Write(f), f.format != Ggml, f.format == Ggjt;
    var h, y, v := WriteHeader(f), AllBytes32(HyperWords(f.hyper)), WriteItems(f.items, scores);
    var w := WriteTensors(f.weights, |WritePrefix(f)|, padded);
    assert Holds(data, 0, h + y + v + w) by { GgmlRoundTrip.HoldsAll(data); }
    HoldsSplit(data, 0, h + y + v, w);
    HoldsSplit(data, 0, h + y, v);
    HoldsSplit(data, 0, h, y);
    HeaderRead(data, f);
    HyperRead(data, |h|, f.hyper);
    ItemsRead(data, |h| + |y|, f.items, scores);
    TensorsRead(data, |h| + |y| + |v|, f.weights, padded, passes);
    NoFeedForwardFound(f, |WritePrefix(f)|, padded);
  }

  lemma NoFeedForwardFound(f: File, o: nat, padded: bool)
    requires !FeedForwardThere(f)
    ensures FeedForward(Listed(f.weights, o, padded)) == Err(NoFeedForward)
  {
    hide Listed, LastNamed, Ascii, HasFeedForward, FeedForwardThere;
    FoundThere(f.weights, o, padded);
    if k: nat :| HasFeedForward(f.weights, k) {
      ThereIs(f, k);
    }
  }

  lemma ThereIs(f: File, k: nat)
    requires HasFeedForward(f.weights, k)
    ensures FeedForwardThere(f)
  {
    hide Ascii;
    forall i | k < i < |f.weights| ensures !IsFeedForward(f.weights[i]) {
    }
    assert IsFeedForward(f.weights[k]);
  }

  lemma FoundThere(ws: seq<Weights>, o: nat, padded: bool)
    ensures FeedForward(Listed(ws, o, padded)).Ok? ==> exists k: nat :: HasFeedForward(ws, k)
  {
    hide LastNamed, Listed, Ascii;
    ListedNames(ws, o, padded);
    var ts := Listed(ws, o, padded);
    var i := LastNamed(ts, FEED_FORWARD);
    if i.Some? && |ts[i.value].dims| >= 2 {
      forall j | i.value < j < |ws| ensures ws[j].name != FEED_FORWARD {
        assert ts[j].name == ws[j].name;
      }
      assert HasFeedForward(ws, i.value);
    }
  }

  /** A tensor header out of bounds is refused by what is wrong first: the dimensions, the name, the type. */
  lemma HeadRefused(data: seq<Byte>, o: nat, padded: bool, nDims: nat, nameLen: nat, dtype: nat)
    requires Holds(data, o, AllBytes32([nDims, nameLen, dtype])) && Words32([nDims, nameLen, dtype])
    ensures nDims > 4 ==> ReadTensor(data, o, padded) == Err(BadDimensions)
    ensures nDims <= 4 && nameLen >= 4096 ==> ReadTensor(data, o, padded) == Err(AbsurdName)
    ensures nDims <= 4 && nameLen < 4096 && QuantSize(dtype).None? ==> ReadTensor(data, o, padded) == Err(UnknownType)
  {
    hide U32s, AllBytes32, Holds, QuantSize, PlaceTensor;
    WordsRead(data, o, [nDims, nameLen, dtype]);
  }

  /** A vocabulary entry of 4096 bytes or more is refused. */
  lemma ItemRefused(data: seq<Byte>, o: nat, len: nat, scores: bool)
    requires Holds(data, o, Bytes32(len)) && len < LIMIT32
    ensures ReadItem(data, o, scores) == Err(AbsurdItem) <==> len >= 4096
  {
    hide U32s, Bytes32, Holds, Slice;
    OneWord(data, o, len);
    WordErrors(data, o + 4 + len);
  }

  lemma WordErrors(data: seq<Byte>, o: int)
    ensures U32s(data, o, 1).Err? ==> U32s(data, o, 1) == Err(ShortRead)
  {
  }

  /** A number is cut off exactly when the data ends before its four bytes do. */
  lemma WordCutOff(data: seq<Byte>, o: nat)
    ensures U32s(data, o, 1).Err? <==> o + 4 > |data|
    ensures U32s(data, o, 1).Err? ==> U32s(data, o, 1) == Err(ShortRead)
  {
  }

  /** A negative bound counts from the end of the data, and nothing before its beginning is read. */
  lemma SliceFromEnd(data: seq<Byte>, from: int, to: int)
    requires from < 0
    ensures from + |data| >= 0 && from < to < 0 ==> Slice(data, from, to) == data[from + |data|..to + |data|]
    ensures from + |data| < 0 && 0 <= to <= |data| ==> Slice(data, from, to) == data[..to]
    ensures from + |data| >= 0 && 0 <= to < from + |data| ==> Slice(data, from, to) == []
  {
  }

  /** A block of so many elements at so many bits each, and some bytes of scales. */
  predicate Packs(dtype: nat, elements: nat, bits: nat, scales: nat) {
    QuantSize(dtype) == Some((elements, elements * bits / 8 + scales))
  }

  /** The types a legacy file may hold: two plain ones, the first quantized ones in blocks of 32, and those in blocks
      of 256.
   */
  lemma BlockSizes()
    ensures Packs(0, 1, 32, 0) && Packs(1, 1, 16, 0)
    ensures Packs(2, 32, 4, 2) && Packs(3, 32, 4, 4) && Packs(6, 32, 5, 2) && Packs(7, 32, 5, 4) && Packs(8, 32, 8, 2) && Packs(9, 32, 8, 8)
    ensures Packs(10, 256, 2, 20) && Packs(11, 256, 3, 14) && Packs(12, 256, 4, 16) && Packs(13, 256, 5, 16)
    ensures Packs(14, 256, 6, 18) && Packs(15, 256, 8, 36)
  {
  }

  /** The types that came later, which only a damaged header names: in blocks of 256 at one to four bits. */
  lemma LaterBlockSizes()
    ensures Packs(16, 256, 2, 2) && Packs(17, 256, 2, 10) && Packs(18, 256, 3, 2) && Packs(19, 256, 1, 18) && Packs(20, 32, 4, 2)
    ensures Packs(21, 256, 3, 14) && Packs(22, 256, 2, 18) && Packs(23, 256, 4, 8) && Packs(29, 256, 1, 24)
  {
  }

  /** Plain numbers. */
  lemma PlainSizes()
    ensures Packs(24, 1, 8, 0) && Packs(25, 1, 16, 0) && Packs(26, 1, 32, 0) && Packs(27, 1, 64, 0) && Packs(28, 1, 64, 0)
    ensures Packs(30, 1, 16, 0)
  {
  }

  /** Ternary elements, and blocks of other sizes. */
  lemma OtherBlockSizes()
    ensures Packs(34, 256, 1, 22) && Packs(35, 256, 2, 2) && Packs(39, 32, 4, 1) && Packs(40, 64, 4, 4)
    ensures Packs(41, 128, 1, 2) && Packs(42, 64, 2, 2)
  {
  }

  /** No other number is a type. */
  lemma TypesKnown(dtype: nat)
    ensures QuantSize(dtype).None? <==> dtype > 42 || dtype in {4, 5, 31, 32, 33, 36, 37, 38}
  {
  }

  /** The number of elements is the product of the dimensions but for a multiple of 2^64, as a signed number. */
  lemma {:induction false} ElementsWrap(dims: seq<nat>) returns (k: int)
    ensures Elements(dims) == GgmlRoundTrip.Product(dims) + k * (2 * INT64_LIMIT) && -INT64_LIMIT <= Elements(dims) < INT64_LIMIT
    decreases dims
  {
    if dims == [] {
      k := 0;
    } else {
      var n := |dims| - 1;
      var j := ElementsWrap(dims[..n]);
      var x := Elements(dims[..n]) * dims[n];
      Scaled(GgmlRoundTrip.Product(dims[..n]), j, 2 * INT64_LIMIT, dims[n]);
      k := j * dims[n] - (x + INT64_LIMIT) / (2 * INT64_LIMIT);
      Scaled(x, 0 - (x + INT64_LIMIT) / (2 * INT64_LIMIT), 2 * INT64_LIMIT, 1);
    }
  }

  lemma Scaled(x: int, k: int, m: int, y: int)
    ensures (x + k * m) * y == x * y + k * y * m
  {
  }

  /** The number of bytes is that of the whole blocks in what the product of elements and block size wraps to. */
  lemma BytesWrap(dims: seq<nat>, quant: (nat, nat)) returns (k: int)
    requires quant.0 > 0
    ensures var all := Elements(dims) * quant.1 + k * (2 * INT64_LIMIT);
      -INT64_LIMIT <= all < INT64_LIMIT && ByteCount(dims, quant) * quant.0 <= all < (ByteCount(dims, quant) + 1) * quant.0
  {
    var x := Elements(dims) * quant.1;
    k := 0 - (x + INT64_LIMIT) / (2 * INT64_LIMIT);
    var all := Wrap64(x);
    assert all == x + k * (2 * INT64_LIMIT);
    assert all == all / quant.0 * quant.0 + all % quant.0;
    assert (all / quant.0 + 1) * quant.0 == all / quant.0 * quant.0 + quant.0;
  }
}
