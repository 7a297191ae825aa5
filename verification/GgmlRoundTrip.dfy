/** A writer for legacy model files, and the scanner as its inverse. */
module GgmlRoundTrip {
  import opened Bytes
  import opened GgmlFile
  import opened Wrappers

  // ---------- the writer ----------

  datatype Weights = Weights(name: seq<Byte>, dims: seq<nat>, dtype: nat, payload: seq<Byte>)

  datatype File = File(format: Format, version: nat, hyper: Hyper, items: seq<Item>, weights: seq<Weights>)

  const LIMIT32 := 0x1_0000_0000

  function Bytes32(v: nat): (r: seq<Byte>)
    ensures |r| == 4
  {
    [v % 0x100, v / 0x100 % 0x100, v / 0x100 / 0x100 % 0x100, v / 0x100 / 0x100 / 0x100 % 0x100]
  }

  function AllBytes32(vs: seq<nat>): (r: seq<Byte>)
    ensures |r| == 4 * |vs|
  {
    if vs == [] then [] else Bytes32(vs[0]) + AllBytes32(vs[1..])
  }

  function ZeroBytes(n: nat): (r: seq<Byte>)
    ensures |r| == n
  {
    seq(n, i => 0)
  }

  function WriteHeader(f: File): seq<Byte> {
    match f.format
    case Ggml => Ascii("lmgg")
    case Ggmf => Ascii("fmgg") + Bytes32(f.version)
    case Ggjt => Ascii("tjgg") + Bytes32(f.version)
  }

  function HyperWords(h: Hyper): seq<nat> {
    [h.nVocab, h.nEmbd, h.nMult, h.nHead, h.nLayer, h.nRot, h.fileType]
  }

  function WriteItem(item: Item, scores: bool): seq<Byte> {
    Bytes32(|item.text|) + item.text + if scores then Bytes32(item.score) else []
  }

  function WriteItems(items: seq<Item>, scores: bool): seq<Byte> {
    if items == [] then [] else WriteItem(items[0], scores) + WriteItems(items[1..], scores)
  }

  /** The part of a tensor before its data, when it begins at offset `o`. */
  function WriteTensorHead(w: Weights, o: nat, padded: bool): seq<Byte> {
    var words := AllBytes32([|w.dims|, |w.name|, w.dtype] + w.dims);
    var end := o + |words| + |w.name|;
    words + w.name + ZeroBytes(if padded then Padding(end) else 0)
  }

  function WriteTensor(w: Weights, o: nat, padded: bool): seq<Byte> {
    WriteTensorHead(w, o, padded) + w.payload
  }

  function WriteTensors(ws: seq<Weights>, o: nat, padded: bool): seq<Byte>
    decreases ws
  {
    if ws == [] then []
    else
      var first := WriteTensor(ws[0], o, padded);
      first + WriteTensors(ws[1..], o + |first|, padded)
  }

  function WritePrefix(f: File): seq<Byte> {
    WriteHeader(f) + AllBytes32(HyperWords(f.hyper)) + WriteItems(f.items, f.format != Ggml)
  }

  function Write(f: File): seq<Byte> {
    WritePrefix(f) + WriteTensors(f.weights, |WritePrefix(f)|, f.format == Ggjt)
  }

  // ---------- admissible files ----------

  predicate Words32(vs: seq<nat>) {
    forall i :: 0 <= i < |vs| ==> vs[i] < LIMIT32
  }

  predicate ItemOk(item: Item, scores: bool) {
    |item.text| < MAX_TEXT && item.score < LIMIT32 && (!scores ==> item.score == 0)
  }

  function Product(dims: seq<nat>): nat {
    if dims == [] then 1 else Product(dims[..|dims| - 1]) * dims[|dims| - 1]
  }

  /** A known type, and as much data as the dimensions call for. */
  predicate WeightsOk(w: Weights) {
    && |w.dims| <= 4 && Words32(w.dims) && |w.name| < MAX_TEXT
    && QuantSize(w.dtype).Some?
    && |w.payload| == Product(w.dims) * QuantSize(w.dtype).value.1 / QuantSize(w.dtype).value.0
    && forall k :: 0 <= k <= |w.dims| ==> Product(w.dims[..k]) * QuantSize(w.dtype).value.1 < INT64_LIMIT
  }

  function Listed(ws: seq<Weights>, o: nat, padded: bool): (r: seq<TensorInfo>)
    ensures |r| == |ws|
    decreases ws
  {
    if ws == [] then []
    else
      var w := ws[0];
      [TensorInfo(w.name, w.dims, w.dtype, o + |WriteTensorHead(w, o, padded)|, |w.payload|)]
      + Listed(ws[1..], o + |WriteTensor(w, o, padded)|, padded)
  }

  predicate VersionOk(format: Format, version: nat) {
    if format == Ggjt then 1 <= version <= 3 else version == 1
  }

  /** The position of the last tensor of a name. */
  predicate HasFeedForward(ws: seq<Weights>, k: nat) {
    k < |ws| && ws[k].name == FEED_FORWARD && |ws[k].dims| >= 2
    && forall i :: k < i < |ws| ==> ws[i].name != FEED_FORWARD
  }

  predicate FileOk(f: File) {
    && VersionOk(f.format, f.version)
    && Words32(HyperWords(f.hyper)) && KnownFileType(f.hyper.fileType)
    && Eligible(f.format, f.version, f.hyper.fileType)
    && f.hyper.nVocab == |f.items|
    && (forall i :: 0 <= i < |f.items| ==> ItemOk(f.items[i], f.format != Ggml))
    && (forall i :: 0 <= i < |f.weights| ==> WeightsOk(f.weights[i]))
    && |Write(f)| < INT64_LIMIT
  }

  // ---------- reading what was written ----------

  /** The data holds `w` at offset `o`. */
  predicate Holds(data: seq<Byte>, o: nat, w: seq<Byte>) {
    o + |w| <= |data| && data[o..o + |w|] == w
  }

  lemma HoldsSplit(data: seq<Byte>, o: nat, a: seq<Byte>, b: seq<Byte>)
    requires Holds(data, o, a + b)
    ensures Holds(data, o, a) && Holds(data, o + |a|, b)
  {
    var w := data[o..o + |a + b|];
    assert data[o..o + |a|] == w[..|a|] == a;
    assert data[o + |a|..o + |a| + |b|] == w[|a|..] == b;
  }

  lemma SliceHeld(data: seq<Byte>, o: nat, w: seq<Byte>)
    requires Holds(data, o, w)
    ensures Slice(data, o, o + |w|) == w
  {
  }

  lemma WordRead(v: nat)
    requires v < LIMIT32
    ensures U32(Bytes32(v)) == v
  {
  }

  lemma {:induction false} WordsUnpacked(vs: seq<nat>)
    requires Words32(vs)
    ensures Unpack(AllBytes32(vs), |vs|) == Ok(vs)
    decreases vs
  {
    hide Bytes32, U32;
    if vs != [] {
      WordRead(vs[0]);
      WordsUnpacked(vs[1..]);
      var s := AllBytes32(vs);
      assert s[..4] == Bytes32(vs[0]) && s[4..] == AllBytes32(vs[1..]);
      assert vs == [vs[0]] + vs[1..];
    }
  }

  lemma SliceUnpacked(data: seq<Byte>, o: int, n: nat, w: seq<Byte>)
    requires |w| == 4 * n && Slice(data, o, o + |w|) == w
    ensures U32s(data, o, n) == Unpack(w, n)
  {
    hide Slice, Unpack;
  }

  lemma WordsRead(data: seq<Byte>, o: nat, vs: seq<nat>)
    requires Holds(data, o, AllBytes32(vs)) && Words32(vs)
    ensures U32s(data, o, |vs|) == Ok(vs)
  {
    hide Unpack, U32s, AllBytes32, Holds, Slice, Words32;
    var w := AllBytes32(vs);
    SliceHeld(data, o, w);
    WordsUnpacked(vs);
    SliceUnpacked(data, o, |vs|, w);
  }

  lemma OneWord(data: seq<Byte>, o: nat, v: nat)
    requires Holds(data, o, Bytes32(v)) && v < LIMIT32
    ensures U32s(data, o, 1) == Ok([v])
  {
    hide Bytes32, U32s;
    assert AllBytes32([v]) == Bytes32(v) by {
      assert [v][1..] == [];
      assert Bytes32(v) + [] == Bytes32(v);
    }
    WordsRead(data, o, [v]);
  }

  lemma ItemRead(data: seq<Byte>, o: nat, item: Item, scores: bool)
    requires Holds(data, o, WriteItem(item, scores)) && ItemOk(item, scores)
    ensures ReadItem(data, o, scores) == Ok((item, o + |WriteItem(item, scores)|))
  {
    hide Bytes32, U32s, Slice, Holds;
    var tail := if scores then Bytes32(item.score) else [];
    HoldsSplit(data, o, Bytes32(|item.text|) + item.text, tail);
    HoldsSplit(data, o, Bytes32(|item.text|), item.text);
    OneWord(data, o, |item.text|);
    SliceHeld(data, o + 4, item.text);
    if scores {
      OneWord(data, o + 4 + |item.text|, item.score);
    }
  }

  lemma {:induction false} ItemsRead(data: seq<Byte>, o: nat, items: seq<Item>, scores: bool)
    requires Holds(data, o, WriteItems(items, scores))
    requires forall i :: 0 <= i < |items| ==> ItemOk(items[i], scores)
    ensures ReadItems(data, o, |items|, scores) == Ok((items, o + |WriteItems(items, scores)|))
    decreases items
  {
    hide ReadItem, WriteItem, ItemOk, Holds;
    if items != [] {
      HoldsSplit(data, o, WriteItem(items[0], scores), WriteItems(items[1..], scores));
      ItemRead(data, o, items[0], scores);
      ItemsRead(data, o + |WriteItem(items[0], scores)|, items[1..], scores);
      assert items == [items[0]] + items[1..];
    }
  }

  /** Without overflow the wrapped product is the product. */
  lemma {:induction false} ElementsExact(dims: seq<nat>, size: nat)
    requires size > 0 && forall k :: 0 <= k <= |dims| ==> Product(dims[..k]) * size < INT64_LIMIT
    ensures Elements(dims) == Product(dims) && Product(dims) * size < INT64_LIMIT
    decreases dims
  {
    assert dims[..|dims|] == dims;
    if dims != [] {
      var t := dims[..|dims| - 1];
      assert forall k :: 0 <= k <= |t| ==> t[..k] == dims[..k];
      ElementsExact(t, size);
      Smaller(Product(dims), size);
    }
  }

  lemma Smaller(p: nat, size: nat)
    requires size > 0 && p * size < INT64_LIMIT
    ensures p < INT64_LIMIT
  {
    assert p * size >= p by {
      assert p * size == p + p * (size - 1);
    }
  }

  lemma CountExact(w: Weights)
    requires WeightsOk(w)
    ensures ByteCount(w.dims, QuantSize(w.dtype).value) == |w.payload|
  {
    hide QuantSize, Product, Elements;
    var quant := QuantSize(w.dtype).value;
    BlockBytes(w.dtype);
    ElementsExact(w.dims, quant.1);
  }

  lemma BlockBytes(dtype: nat)
    requires QuantSize(dtype).Some?
    ensures QuantSize(dtype).value.1 > 0
  {
  }

  lemma HeadSize(w: Weights, o: nat, padded: bool)
    ensures |WriteTensorHead(w, o, padded)| ==
              12 + 4 * |w.dims| + |w.name| + if padded then Padding(o + 12 + 4 * |w.dims| + |w.name|) else 0
  {
    hide Padding, AllBytes32;
  }

  lemma TensorRead(data: seq<Byte>, o: nat, w: Weights, padded: bool)
    requires Holds(data, o, WriteTensor(w, o, padded)) && WeightsOk(w) && |data| < INT64_LIMIT
    ensures ReadTensor(data, o, padded) ==
      Ok((TensorInfo(w.name, w.dims, w.dtype, o + |WriteTensorHead(w, o, padded)|, |w.payload|), o + |WriteTensor(w, o, padded)|))
  {
    hide U32s, Slice, Padding, QuantSize, ByteCount, AllBytes32, Product;
    HeadSize(w, o, padded);
    CountExact(w);
    HeadRead(data, o, w, padded);
  }

  /** The words and the name at the beginning of a tensor. */
  lemma HeadRead(data: seq<Byte>, o: nat, w: Weights, padded: bool)
    requires Holds(data, o, WriteTensor(w, o, padded)) && WeightsOk(w)
    ensures U32s(data, o, 3) == Ok([|w.dims|, |w.name|, w.dtype])
    ensures U32s(data, o + 12, |w.dims|) == Ok(w.dims)
    ensures var o1 := o + 12 + 4 * |w.dims|; Slice(data, o1, o1 + |w.name|) == w.name
  {
    hide U32s, Slice, Padding, QuantSize, AllBytes32, Holds, Product;
    var first: seq<nat> := [|w.dims|, |w.name|, w.dtype];
    var words := AllBytes32(first + w.dims);
    var pad := ZeroBytes(if padded then Padding(o + |words| + |w.name|) else 0);
    HoldsSplit(data, o, words + w.name + pad, w.payload);
    HoldsSplit(data, o, words + w.name, pad);
    HoldsSplit(data, o, words, w.name);
    BytesConcat(first, w.dims);
    HoldsSplit(data, o, AllBytes32(first), AllBytes32(w.dims));
    KnownTypes(w.dtype);
    WordsRead(data, o, first);
    WordsRead(data, o + 12, w.dims);
    SliceHeld(data, o + 12 + 4 * |w.dims|, w.name);
  }

  lemma KnownTypes(dtype: nat)
    requires QuantSize(dtype).Some?
    ensures dtype <= 42
  {
  }

  lemma {:induction false} BytesConcat(a: seq<nat>, b: seq<nat>)
    ensures AllBytes32(a + b) == AllBytes32(a) + AllBytes32(b)
    decreases a
  {
    hide Bytes32;
    if a == [] {
      assert a + b == b;
    } else {
      assert (a + b)[1..] == a[1..] + b;
      BytesConcat(a[1..], b);
    }
  }

  /** The tensors fill the data to its end, and all are listed. */
  lemma {:induction false} TensorsRead(data: seq<Byte>, o: nat, ws: seq<Weights>, padded: bool, passes: nat)
    requires Holds(data, o, WriteTensors(ws, o, padded)) && o + |WriteTensors(ws, o, padded)| == |data| < INT64_LIMIT
    requires forall i :: 0 <= i < |ws| ==> WeightsOk(ws[i])
    requires passes >= |ws|
    ensures ReadTensors(data, o, padded, passes) == Ok((Listed(ws, o, padded), |data|))
    decreases ws
  {
    hide ReadTensor, WriteTensor, WriteTensorHead, WeightsOk, Holds;
    if ws != [] {
      var first := WriteTensor(ws[0], o, padded);
      HoldsSplit(data, o, first, WriteTensors(ws[1..], o + |first|, padded));
      TensorRead(data, o, ws[0], padded);
      TensorsRead(data, o + |first|, ws[1..], padded, passes - 1);
      NotEmpty(ws[0], o, padded);
    }
  }

  lemma NotEmpty(w: Weights, o: nat, padded: bool)
    ensures |WriteTensor(w, o, padded)| >= 12
  {
    HeadSize(w, o, padded);
  }

  // ---------- the whole file ----------

  lemma Magics()
    ensures |Ascii("GGUF")| == |Ascii("lmgg")| == |Ascii("fmgg")| == |Ascii("tjgg")| == 4
    ensures Ascii("GGUF")[0] == 71 && Ascii("lmgg")[0] == 108 && Ascii("fmgg")[0] == 102 && Ascii("tjgg")[0] == 116
  {
  }

  lemma HeaderRead(data: seq<Byte>, f: File)
    requires Holds(data, 0, WriteHeader(f)) && VersionOk(f.format, f.version)
    ensures ReadHeader(data, 0) == Ok(Header(f.format, f.version, |WriteHeader(f)|))
  {
    hide U32s, Slice, Ascii, Holds, Bytes32;
    Magics();
    match f.format
    case Ggml => SliceHeld(data, 0, Ascii("lmgg"));
    case Ggmf =>
      HoldsSplit(data, 0, Ascii("fmgg"), Bytes32(f.version));
      SliceHeld(data, 0, Ascii("fmgg"));
      OneWord(data, 4, f.version);
    case Ggjt =>
      HoldsSplit(data, 0, Ascii("tjgg"), Bytes32(f.version));
      SliceHeld(data, 0, Ascii("tjgg"));
      OneWord(data, 4, f.version);
  }

  lemma HyperRead(data: seq<Byte>, o: nat, h: Hyper)
    requires Holds(data, o, AllBytes32(HyperWords(h))) && Words32(HyperWords(h)) && KnownFileType(h.fileType)
    ensures ReadHyper(data, o) == Ok(h)
  {
    hide U32s, AllBytes32;
    WordsRead(data, o, HyperWords(h));
  }

  lemma {:induction false} ListedNames(ws: seq<Weights>, o: nat, padded: bool)
    ensures forall i :: 0 <= i < |ws| ==> Listed(ws, o, padded)[i].name == ws[i].name && Listed(ws, o, padded)[i].dims == ws[i].dims
    decreases ws
  {
    hide WriteTensor, WriteTensorHead;
    if ws != [] {
      ListedNames(ws[1..], o + |WriteTensor(ws[0], o, padded)|, padded);
    }
  }

  /** Loading a written file gives back everything that was written, and stops at its end. */
  lemma LoadInvertsWrite(f: File, k: nat, passes: nat)
    requires FileOk(f) && HasFeedForward(f.weights, k) && passes >= |f.weights|
    ensures var tensors := Listed(f.weights, |WritePrefix(f)|, f.format == Ggjt);
      Read(Write(f), 0, passes) == Ok((Contents(f.format, f.version, f.hyper, f.items, tensors), f.weights[k].dims[1], |Write(f)|))
  {
    hide ReadHeader, ReadHyper, ReadItems, ReadTensors, WriteHeader, AllBytes32, WriteItems, WriteTensors, Listed, LastNamed,
         ItemOk, WeightsOk, Eligible, Holds, Words32;
    var data, scores, padded := Write(f), f.format != Ggml, f.format == Ggjt;
    var h, y, v := WriteHeader(f), AllBytes32(HyperWords(f.hyper)), WriteItems(f.items, scores);
    var w := WriteTensors(f.weights, |WritePrefix(f)|, padded);
    assert Holds(data, 0, h + y + v + w) by { HoldsAll(data); }
    HoldsSplit(data, 0, h + y + v, w);
    HoldsSplit(data, 0, h + y, v);
    HoldsSplit(data, 0, h, y);
    HeaderRead(data, f);
    HyperRead(data, |h|, f.hyper);
    ItemsRead(data, |h| + |y|, f.items, scores);
    TensorsRead(data, |h| + |y| + |v|, f.weights, padded, passes);
    FeedForwardFound(f.weights, |WritePrefix(f)|, padded, k);
  }

  lemma HoldsAll(data: seq<Byte>)
    ensures Holds(data, 0, data)
  {
  }

  lemma FeedForwardFound(ws: seq<Weights>, o: nat, padded: bool, k: nat)
    requires HasFeedForward(ws, k)
    ensures FeedForward(Listed(ws, o, padded)) == Ok(ws[k].dims[1])
  {
    hide LastNamed, Listed, Ascii;
    ListedNames(ws, o, padded);
    var ts := Listed(ws, o, padded);
    assert ts[k].name == FEED_FORWARD;
    assert LastNamed(ts, FEED_FORWARD) == Some(k);
  }

  lemma HeadAligned(w: Weights, o: nat, padded: bool)
    ensures |WriteTensorHead(w, o, padded)| >= 12
    ensures padded ==> (o + |WriteTensorHead(w, o, padded)|) % 32 == 0
  {
    hide WriteTensorHead;
    HeadSize(w, o, padded);
  }

  /** The range holds the data of its tensor and begins behind a header, aligned where the format pads. */
  predicate RangeOk(data: seq<Byte>, o: nat, t: TensorInfo, w: Weights, padded: bool) {
    && o + 12 <= t.start && t.len >= 0 && t.start + t.len <= |data|
    && data[t.start..t.start + t.len] == w.payload
    && (padded ==> t.start % 32 == 0)
  }

  /** Every range is in order, and each lies behind the one before with room for a header. */
  predicate RangesOk(data: seq<Byte>, o: nat, ts: seq<TensorInfo>, ws: seq<Weights>, padded: bool) {
    && |ts| == |ws|
    && (forall i :: 0 <= i < |ts| ==> RangeOk(data, o, ts[i], ws[i], padded))
    && forall i, j :: 0 <= i < j < |ts| ==> ts[i].start + ts[i].len + 12 <= ts[j].start
  }

  lemma RangesStep(data: seq<Byte>, o: nat, t: TensorInfo, w: Weights, ts: seq<TensorInfo>, ws: seq<Weights>, padded: bool)
    requires RangeOk(data, o, t, w, padded) && RangesOk(data, t.start + t.len, ts, ws, padded)
    ensures RangesOk(data, o, [t] + ts, [w] + ws, padded)
  {
    var all, alls := [t] + ts, [w] + ws;
    forall i | 0 <= i < |all| ensures RangeOk(data, o, all[i], alls[i], padded) {
      assert i > 0 ==> all[i] == ts[i - 1] && alls[i] == ws[i - 1] && RangeOk(data, t.start + t.len, ts[i - 1], ws[i - 1], padded);
    }
    forall i, j | 0 <= i < j < |all| ensures all[i].start + all[i].len + 12 <= all[j].start {
      assert RangeOk(data, t.start + t.len, ts[j - 1], ws[j - 1], padded);
      assert i > 0 ==> ts[i - 1].start + ts[i - 1].len + 12 <= ts[j - 1].start;
    }
  }

  /** The listed ranges are disjoint and in order, and hold the tensors' data. */
  lemma {:induction false} RangesExact(data: seq<Byte>, o: nat, ws: seq<Weights>, padded: bool)
    requires Holds(data, o, WriteTensors(ws, o, padded))
    ensures RangesOk(data, o, Listed(ws, o, padded), ws, padded)
    decreases ws
  {
    hide WriteTensorHead, Holds, RangesOk;
    if ws == [] {
      NoRanges(data, o, padded);
    } else {
      var w := ws[0];
      var head, first := WriteTensorHead(w, o, padded), WriteTensor(w, o, padded);
      HoldsSplit(data, o, first, WriteTensors(ws[1..], o + |first|, padded));
      HoldsSplit(data, o, head, w.payload);
      FirstRange(data, o, w, padded);
      RangesExact(data, o + |first|, ws[1..], padded);
      RangesStep(data, o, Listed(ws, o, padded)[0], w, Listed(ws[1..], o + |first|, padded), ws[1..], padded);
      assert [w] + ws[1..] == ws;
    }
  }

  lemma NoRanges(data: seq<Byte>, o: nat, padded: bool)
    ensures RangesOk(data, o, [], [], padded)
  {
  }

  lemma FirstRange(data: seq<Byte>, o: nat, w: Weights, padded: bool)
    requires Holds(data, o + |WriteTensorHead(w, o, padded)|, w.payload)
    ensures var head := |WriteTensorHead(w, o, padded)|;
      RangeOk(data, o, TensorInfo(w.name, w.dims, w.dtype, o + head, |w.payload|), w, padded)
  {
    hide WriteTensorHead;
    HeadAligned(w, o, padded);
  }

  /** In a written file every listed range holds its tensor's data, behind the vocabulary and in order. */
  lemma WrittenRanges(f: File)
    ensures RangesOk(Write(f), |WritePrefix(f)|, Listed(f.weights, |WritePrefix(f)|, f.format == Ggjt), f.weights, f.format == Ggjt)
  {
    hide WritePrefix, WriteTensors, RangesOk, Listed;
    var p := WritePrefix(f);
    HoldsAll(Write(f));
    HoldsSplit(Write(f), 0, p, WriteTensors(f.weights, |p|, f.format == Ggjt));
    RangesExact(Write(f), |p|, f.weights, f.format == Ggjt);
  }
}
