/** The scanner for legacy GGML, GGMF and GGJT model files. */
module GgmlFile {
  import opened Bytes
  import opened Wrappers

  datatype Error =
    | ShortRead
    | AlreadyGguf
    | BadMagic
    | BadVersion
    | BadFileType
    | NotEligible
    | AbsurdItem
    | BadDimensions
    | AbsurdName
    | UnknownType
    | Unfinished
    | NoFeedForward

  datatype Format = Ggml | Ggmf | Ggjt

  datatype Hyper = Hyper(nVocab: nat, nEmbd: nat, nMult: nat, nHead: nat, nLayer: nat, nRot: nat, fileType: nat)

  /** A vocabulary entry; the score is its 32-bit pattern, zero where the format has none. */
  datatype Item = Item(text: seq<Byte>, score: nat)

  /** A tensor's byte count comes from wrapping arithmetic and may be negative, and so may its start. */
  datatype TensorInfo = TensorInfo(name: seq<Byte>, dims: seq<nat>, dtype: nat, start: int, len: int)

  datatype Header = Header(format: Format, version: nat, size: nat)

  datatype Contents = Contents(format: Format, version: nat, hyper: Hyper, items: seq<Item>, tensors: seq<TensorInfo>)

  // ---------- reading numbers and slices ----------

  /** A slice bound: counted from the end when negative, and kept inside the data. */
  function Bound(i: int, n: nat): (r: nat)
    ensures r <= n
    ensures 0 <= i <= n ==> r == i
  {
    var w := if i < 0 then i + n else i;
    if w < 0 then 0 else if w > n then n else w
  }

  /** `data[from:to]` */
  function Slice(data: seq<Byte>, from: int, to: int): (r: seq<Byte>)
    ensures 0 <= from <= to <= |data| ==> r == data[from..to]
    ensures 0 <= from <= to && |r| == to - from > 0 ==> to <= |data|
  {
    var lo, hi := Bound(from, |data|), Bound(to, |data|);
    if lo <= hi then data[lo..hi] else []
  }

  /** Little-endian 32-bit number. */
  function U32(s: seq<Byte>): nat
    requires |s| == 4
  {
    var a: int, b: int, c: int, d: int := s[0], s[1], s[2], s[3];
    a + 0x100 * b + 0x1_0000 * c + 0x100_0000 * d
  }

  /** `n` of them from exactly as many bytes. */
  function Unpack(s: seq<Byte>, n: nat): (r: Result<seq<nat>, Error>)
    ensures r.Ok? <==> |s| == 4 * n
    ensures r.Ok? ==> |r.value| == n
    decreases n
  {
    if |s| != 4 * n then Err(ShortRead)
    else if n == 0 then Ok([])
    else Ok([U32(s[..4])] + Unpack(s[4..], n - 1).value)
  }

  function U32s(data: seq<Byte>, o: int, n: nat): (r: Result<seq<nat>, Error>)
    ensures r.Ok? ==> |r.value| == n
  {
    Unpack(Slice(data, o, o + 4 * n), n)
  }

  // ---------- header and hyperparameters ----------

  function Ascii(s: string): seq<Byte> {
    seq(|s|, i requires 0 <= i < |s| => s[i] as int % 256)
  }

  function ReadHeader(data: seq<Byte>, o: nat): Result<Header, Error> {
    var magic := Slice(data, o, o + 4);
    if magic == Ascii("GGUF") then Err(AlreadyGguf)
    else if magic == Ascii("lmgg") then Ok(Header(Ggml, 1, 4))
    else
      var version :- U32s(data, o + 4, 1);
      if magic == Ascii("fmgg") then
        if version[0] != 1 then Err(BadVersion) else Ok(Header(Ggmf, version[0], 8))
      else if magic == Ascii("tjgg") then
        if version[0] < 1 || version[0] > 3 then Err(BadVersion) else Ok(Header(Ggjt, version[0], 8))
      else Err(BadMagic)
  }

  predicate KnownFileType(t: nat) {
    t <= 4 || 7 <= t <= 18
  }

  function ReadHyper(data: seq<Byte>, o: nat): Result<Hyper, Error> {
    var v :- U32s(data, o, 7);
    if !KnownFileType(v[6]) then Err(BadFileType) else Ok(Hyper(v[0], v[1], v[2], v[3], v[4], v[5], v[6]))
  }

  /** Which file types a format still means the same by. */
  predicate Eligible(format: Format, version: nat, fileType: nat) {
    if format != Ggjt || version < 2 then fileType == 0 || fileType == 1
    else version == 2 ==> fileType !in {2, 3, 4, 7}
  }

  // ---------- vocabulary ----------

  const MAX_TEXT := 4096

  function ReadItem(data: seq<Byte>, o: nat, scores: bool): (r: Result<(Item, nat), Error>)
    ensures r.Ok? ==> r.value.1 >= o + 4
  {
    var len :- U32s(data, o, 1);
    if len[0] >= MAX_TEXT then Err(AbsurdItem)
    else
      var text := Slice(data, o + 4, o + 4 + len[0]);
      if scores then
        var score :- U32s(data, o + 4 + len[0], 1);
        Ok((Item(text, score[0]), o + 4 + len[0] + 4))
      else Ok((Item(text, 0), o + 4 + len[0]))
  }

  function ReadItems(data: seq<Byte>, o: nat, n: nat, scores: bool): Result<(seq<Item>, nat), Error>
    decreases n
  {
    if n == 0 then Ok(([], o))
    else
      var (item, o1) :- ReadItem(data, o, scores);
      var (items, o2) :- ReadItems(data, o1, n - 1, scores);
      Ok(([item] + items, o2))
  }

  // ---------- tensors ----------

  /** Elements to a block and bytes to a block. */
  function QuantSize(dtype: nat): (r: Option<(nat, nat)>)
    ensures r.Some? ==> r.value.0 > 0
  {
    match dtype
    case 0 => Some((1, 4))
    case 1 => Some((1, 2))
    case 2 => Some((32, 18))
    case 3 => Some((32, 20))
    case 6 => Some((32, 22))
    case 7 => Some((32, 24))
    case 8 => Some((32, 34))
    case 9 => Some((32, 40))
    case 10 => Some((256, 84))
    case 11 => Some((256, 110))
    case 12 => Some((256, 144))
    case 13 => Some((256, 176))
    case 14 => Some((256, 210))
    case 15 => Some((256, 292))
    case 16 => Some((256, 66))
    case 17 => Some((256, 74))
    case 18 => Some((256, 98))
    case 19 => Some((256, 50))
    case 20 => Some((32, 18))
    case 21 => Some((256, 110))
    case 22 => Some((256, 82))
    case 23 => Some((256, 136))
    case 24 => Some((1, 1))
    case 25 => Some((1, 2))
    case 26 => Some((1, 4))
    case 27 => Some((1, 8))
    case 28 => Some((1, 8))
    case 29 => Some((256, 56))
    case 30 => Some((1, 2))
    case 34 => Some((256, 54))
    case 35 => Some((256, 66))
    case 39 => Some((32, 17))
    case 40 => Some((64, 36))
    case 41 => Some((128, 18))
    case 42 => Some((64, 18))
    case _ => None
  }

  const INT64_LIMIT := 0x8000_0000_0000_0000

  /** The value a 64-bit signed integer keeps. */
  function Wrap64(x: int): (r: int)
    ensures -INT64_LIMIT <= r < INT64_LIMIT
    ensures -INT64_LIMIT <= x < INT64_LIMIT ==> r == x
  {
    (x + INT64_LIMIT) % (2 * INT64_LIMIT) - INT64_LIMIT
  }

  function Elements(dims: seq<nat>): int {
    if dims == [] then 1 else Wrap64(Elements(dims[..|dims| - 1]) * dims[|dims| - 1])
  }

  /** The number of bytes of a tensor, in wrapping arithmetic. */
  function ByteCount(dims: seq<nat>, quant: (nat, nat)): int
    requires quant.0 > 0
  {
    Wrap64(Elements(dims) * quant.1) / quant.0
  }

  function Padding(o: int): (r: nat)
    ensures r < 32 && (o + r) % 32 == 0
  {
    (o + 31) / 32 * 32 - o
  }

  predicate Aligned(o: int) {
    o % 32 == 0
  }

  /** The first offset behind a header that ends at `end`. */
  function DataStart(end: int, padded: bool): (r: int)
    ensures end <= r < end + 32 && (padded ==> Aligned(r))
  {
    end + if padded then Padding(end) else 0
  }

  /** What a header says: dimensions, type and its sizes, and the length of the name, all within bounds. */
  function ReadHead(data: seq<Byte>, o: int): (r: Result<(seq<nat>, nat, (nat, nat), nat), Error>)
    ensures r.Ok? ==> r.value.2.0 > 0
  {
    hide U32s, QuantSize;
    var v :- U32s(data, o, 3);
    var (nDims, nameLen, dtype) := (v[0], v[1], v[2]);
    if nDims > 4 then Err(BadDimensions)
    else if nameLen >= MAX_TEXT then Err(AbsurdName)
    else
      var quant := QuantSize(dtype);
      if quant.None? then Err(UnknownType)
      else
        var dims :- U32s(data, o + 12, nDims);
        Ok((dims, dtype, quant.value, nameLen))
  }

  /** Behind the header, on the alignment, and the next offset behind the data. */
  predicate Placed(found: (TensorInfo, int), o: int, padded: bool) {
    && found.0.start >= o + 12 && (padded ==> Aligned(found.0.start))
    && found.1 == Wrap64(found.0.start + found.0.len)
  }

  /** The tensor such a header announces, and the offset behind its data. */
  function PlaceTensor(data: seq<Byte>, o: int, padded: bool, head: (seq<nat>, nat, (nat, nat), nat)): (r: (TensorInfo, int))
    requires head.2.0 > 0
    ensures Placed(r, o, padded)
  {
    hide ByteCount, Slice, Wrap64, DataStart, Aligned;
    var (dims, dtype, quant, nameLen) := head;
    var at := o + 12 + 4 * |dims|;
    var name := Slice(data, at, at + nameLen);
    var start := DataStart(at + nameLen, padded);
    var bytes := ByteCount(dims, quant);
    (TensorInfo(name, dims, dtype, start, bytes), Wrap64(start + bytes))
  }

  /** One tensor header, and the offset behind its data, which is only passed over. */
  function ReadTensor(data: seq<Byte>, o: int, padded: bool): (r: Result<(TensorInfo, int), Error>)
    ensures r.Ok? ==> Placed(r.value, o, padded)
  {
    hide ReadHead, PlaceTensor, Placed;
    var head :- ReadHead(data, o);
    Ok(PlaceTensor(data, o, padded, head))
  }

  /** The loop over the tensors, cut off after a number of passes. */
  function ReadTensors(data: seq<Byte>, o: int, padded: bool, passes: nat): Result<(seq<TensorInfo>, int), Error>
    decreases passes
  {
    if o >= |data| then Ok(([], o))
    else if passes == 0 then Err(Unfinished)
    else
      var (t, o1) :- ReadTensor(data, o, padded);
      var (ts, o2) :- ReadTensors(data, o1, padded, passes - 1);
      Ok(([t] + ts, o2))
  }

  // ---------- the whole file ----------

  const FEED_FORWARD := Ascii("layers.0.feed_forward.w1.weight")

  /** The last tensor with a name. */
  function LastNamed(ts: seq<TensorInfo>, name: seq<Byte>): (r: Option<nat>)
    ensures r.Some? ==> r.value < |ts| && ts[r.value].name == name && forall i :: r.value < i < |ts| ==> ts[i].name != name
    ensures r.None? ==> forall i :: 0 <= i < |ts| ==> ts[i].name != name
  {
    if ts == [] then None
    else if ts[|ts| - 1].name == name then Some(|ts| - 1)
    else LastNamed(ts[..|ts| - 1], name)
  }

  function FeedForward(ts: seq<TensorInfo>): Result<nat, Error> {
    var i := LastNamed(ts, FEED_FORWARD);
    if i.None? || |ts[i.value].dims| < 2 then Err(NoFeedForward) else Ok(ts[i.value].dims[1])
  }

  function ReadBody(data: seq<Byte>, o: nat, format: Format, hyper: Hyper, passes: nat)
    : Result<(seq<Item>, seq<TensorInfo>, int), Error>
  {
    var (items, o1) :- ReadItems(data, o, hyper.nVocab, format != Ggml);
    var (tensors, o2) :- ReadTensors(data, o1, format == Ggjt, passes);
    Ok((items, tensors, o2))
  }

  /** The contents, the feed-forward width, and the offset reached. */
  function Read(data: seq<Byte>, o: nat, passes: nat): Result<(Contents, nat, int), Error> {
    var header :- ReadHeader(data, o);
    var hyper :- ReadHyper(data, o + header.size);
    if !Eligible(header.format, header.version, hyper.fileType) then Err(NotEligible)
    else
      var (items, tensors, end) :- ReadBody(data, o + header.size + 28, header.format, hyper, passes);
      var nFf :- FeedForward(tensors);
      Ok((Contents(header.format, header.version, hyper, items, tensors), nFf, end))
  }

  /** A list read so far, followed by what is read next. */
  function After<T, O>(done: seq<T>, r: Result<(seq<T>, O), Error>): Result<(seq<T>, O), Error> {
    if r.Err? then r else Ok((done + r.value.0, r.value.1))
  }

  lemma AfterNone<T, O>(r: Result<(seq<T>, O), Error>)
    ensures After([], r) == r
  {
    if r.Ok? {
      assert [] + r.value.0 == r.value.0;
    }
  }

  lemma ItemsStep(done: seq<Item>, data: seq<Byte>, o: nat, n: nat, scores: bool)
    ensures n == 0 ==> After(done, ReadItems(data, o, n, scores)) == Ok((done, o))
    ensures n > 0 ==> var item := ReadItem(data, o, scores);
              After(done, ReadItems(data, o, n, scores)) ==
              if item.Err? then Err(item.error)
              else After(done + [item.value.0], ReadItems(data, item.value.1, n - 1, scores))
  {
    hide ReadItem;
    assert done + [] == done;
    if n > 0 {
      var item := ReadItem(data, o, scores);
      if item.Ok? {
        var rest := ReadItems(data, item.value.1, n - 1, scores);
        if rest.Ok? {
          assert done + ([item.value.0] + rest.value.0) == done + [item.value.0] + rest.value.0;
        }
      }
    }
  }

  lemma TensorsStep(done: seq<TensorInfo>, data: seq<Byte>, o: int, padded: bool, passes: nat)
    ensures o >= |data| ==> After(done, ReadTensors(data, o, padded, passes)) == Ok((done, o))
    ensures o < |data| && passes == 0 ==> After(done, ReadTensors(data, o, padded, passes)) == Err(Unfinished)
    ensures o < |data| && passes > 0 ==> var t := ReadTensor(data, o, padded);
              After(done, ReadTensors(data, o, padded, passes)) ==
              if t.Err? then Err(t.error) else After(done + [t.value.0], ReadTensors(data, t.value.1, padded, passes - 1))
  {
    hide ReadTensor;
    assert done + [] == done;
    if o < |data| && passes > 0 {
      var t := ReadTensor(data, o, padded);
      if t.Ok? {
        var rest := ReadTensors(data, t.value.1, padded, passes - 1);
        if rest.Ok? {
          assert done + ([t.value.0] + rest.value.0) == done + [t.value.0] + rest.value.0;
        }
      }
    }
  }

  // ---------- the loader objects ----------

  /** The vocabulary being loaded. */
  class Vocab {
    var items: seq<Item>
    const loadScores: bool

    constructor (loadScores: bool)
      ensures items == [] && this.loadScores == loadScores
    {
      items := [];
      this.loadScores := loadScores;
    }

    /** Appends `n` entries and gives the number of bytes passed. */
    method Load(data: seq<Byte>, offset: nat, n: nat) returns (r: Result<nat, Error>)
      modifies this
      ensures var spec := After(old(items), ReadItems(data, offset, n, loadScores));
        if spec.Ok? then r.Ok? && (items, offset + r.value) == spec.value else r == Err(spec.error)
    {
      hide ReadItems, After;
      var o := offset;
      for i := 0 to n
        invariant o >= offset
        invariant After(items, ReadItems(data, o, n - i, loadScores)) == After(old(items), ReadItems(data, offset, n, loadScores))
      {
        ghost var next := ReadItem(data, o, loadScores);
        ItemsStep(items, data, o, n - i, loadScores);
        var len :- U32s(data, o, 1);
        if len[0] >= MAX_TEXT {
          return Err(AbsurdItem);
        }
        o := o + 4;
        var text := Slice(data, o, o + len[0]);
        o := o + len[0];
        var score := 0;
        if loadScores {
          var s :- U32s(data, o, 1);
          score := s[0];
          o := o + 4;
        }
        assert next == Ok((Item(text, score), o));
        items := items + [Item(text, score)];
      }
      ItemsStep(items, data, o, 0, loadScores);
      r := Ok(o - offset);
    }
  }

  class Model {
    var fileFormat: Format
    var formatVersion: nat
    var hyper: Option<Hyper>
    var nFf: nat
    var items: seq<Item>
    var tensors: seq<TensorInfo>
    var tensorMap: map<seq<Byte>, nat>

    constructor ()
      ensures tensors == [] && tensorMap == map[] && hyper == None
    {
      fileFormat, formatVersion, hyper, nFf, items, tensors, tensorMap := Ggml, 0, None, 0, [], [], map[];
    }

    method ValidateHeader(data: seq<Byte>, offset: nat) returns (r: Result<nat, Error>)
      modifies this`fileFormat, this`formatVersion
      ensures var spec := ReadHeader(data, offset);
        if spec.Ok? then r == Ok(spec.value.size) && fileFormat == spec.value.format && formatVersion == spec.value.version
        else r == Err(spec.error)
    {
      var magic := Slice(data, offset, offset + 4);
      if magic == Ascii("GGUF") {
        return Err(AlreadyGguf);
      }
      if magic == Ascii("lmgg") {
        fileFormat, formatVersion := Ggml, 1;
        return Ok(4);
      }
      var version :- U32s(data, offset + 4, 1);
      if magic == Ascii("fmgg") {
        if version[0] != 1 {
          return Err(BadVersion);
        }
        fileFormat, formatVersion := Ggmf, version[0];
        return Ok(8);
      }
      if magic == Ascii("tjgg") {
        if version[0] < 1 || version[0] > 3 {
          return Err(BadVersion);
        }
        fileFormat, formatVersion := Ggjt, version[0];
        return Ok(8);
      }
      r := Err(BadMagic);
    }

    /** Each name leads to the last tensor that has it. */
    ghost predicate MapsNames(tensorMap: map<seq<Byte>, nat>, ts: seq<TensorInfo>) {
      forall name :: LastNamed(ts, name) == if name in tensorMap then Some(tensorMap[name]) else None
    }

    /** The loop over the tensors, given up after `passes` passes. */
    method LoadTensors(data: seq<Byte>, offset: int, padded: bool, passes: nat)
      returns (r: Result<int, Error>, ts: seq<TensorInfo>, names: map<seq<Byte>, nat>)
      ensures var spec := ReadTensors(data, offset, padded, passes);
        if spec.Ok? then r == Ok(spec.value.1) && ts == spec.value.0 && MapsNames(names, ts) else r == Err(spec.error)
    {
      hide ReadTensors, After, ReadTensor, LastNamed;
      ts, names := [], map[];
      var o, left := offset, passes;
      AfterNone(ReadTensors(data, offset, padded, passes));
      NoNames();
      while o < |data|
        invariant MapsNames(names, ts)
        invariant After(ts, ReadTensors(data, o, padded, left)) == ReadTensors(data, offset, padded, passes)
        decreases left
      {
        TensorsStep(ts, data, o, padded, left);
        if left == 0 {
          return Err(Unfinished), ts, names;
        }
        var next := ReadTensor(data, o, padded);
        if next.Err? {
          return Err(next.error), ts, names;
        }
        var t := next.value.0;
        o := next.value.1;
        left := left - 1;
        NameAdded(names, ts, t);
        names := names[t.name := |ts|];
        ts := ts + [t];
      }
      TensorsStep(ts, data, o, padded, left);
      r := Ok(o);
    }

    lemma NoNames()
      ensures MapsNames(map[], [])
    {
    }

    lemma NameAdded(names: map<seq<Byte>, nat>, ts: seq<TensorInfo>, t: TensorInfo)
      requires MapsNames(names, ts)
      ensures MapsNames(names[t.name := |ts|], ts + [t])
    {
      assert (ts + [t])[..|ts|] == ts;
    }

    /** The vocabulary and the tensors behind it. */
    method LoadBody(data: seq<Byte>, offset: nat, hp: Hyper, passes: nat)
      returns (r: Result<int, Error>, items: seq<Item>, ts: seq<TensorInfo>, names: map<seq<Byte>, nat>)
      ensures var spec := ReadBody(data, offset, fileFormat, hp, passes);
        if spec.Ok? then r == Ok(spec.value.2) && items == spec.value.0 && ts == spec.value.1 && MapsNames(names, ts)
        else r == Err(spec.error)
    {
      hide ReadItems, ReadTensors, LastNamed, After;
      items, ts, names := [], [], map[];
      var vocab := new Vocab(fileFormat != Ggml);
      AfterNone(ReadItems(data, offset, hp.nVocab, fileFormat != Ggml));
      var passed := vocab.Load(data, offset, hp.nVocab);
      if passed.Err? {
        return Err(passed.error), items, ts, names;
      }
      items := vocab.items;
      r, ts, names := LoadTensors(data, offset + passed.value, fileFormat == Ggjt, passes);
    }

    /** The feed-forward width, from the second dimension of the tensor of that name. */
    method SetFeedForward() returns (r: Result<nat, Error>)
      requires MapsNames(tensorMap, tensors)
      modifies this`nFf
      ensures r == FeedForward(tensors) && nFf == if r.Ok? then r.value else old(nFf)
      ensures r.Err? ==> r.error == NoFeedForward
    {
      hide LastNamed;
      if FEED_FORWARD !in tensorMap {
        return Err(NoFeedForward);
      }
      var dims := tensors[tensorMap[FEED_FORWARD]].dims;
      if |dims| < 2 {
        return Err(NoFeedForward);
      }
      nFf := dims[1];
      r := Ok(nFf);
    }

    /** Loads a file with at most `passes` tensors; the original has no such bound. */
    method Load(data: seq<Byte>, offset: nat, passes: nat) returns (r: Result<int, Error>)
      modifies this
      ensures var spec := Read(data, offset, passes);
        if spec.Ok? then
          && r == Ok(spec.value.2) && hyper.Some? && nFf == spec.value.1 && MapsNames(tensorMap, tensors)
          && Contents(fileFormat, formatVersion, hyper.value, items, tensors) == spec.value.0
        else r == Err(spec.error)
      ensures r.Err? && r.error != NoFeedForward ==>
        hyper == old(hyper) && items == old(items) && tensors == old(tensors) && tensorMap == old(tensorMap)
    {
      hide ReadBody, ReadHeader, ReadHyper, Eligible, LastNamed, FeedForward, MapsNames;
      var size :- ValidateHeader(data, offset);
      var o := offset + size;
      var hp :- ReadHyper(data, o);
      o := o + 28;
      if !Eligible(fileFormat, formatVersion, hp.fileType) {
        return Err(NotEligible);
      }
      var end, loaded, ts, names := LoadBody(data, o, hp, passes);
      if end.Err? {
        return Err(end.error);
      }
      hyper, items, tensors, tensorMap := Some(hp), loaded, ts, names;
      var width :- SetFeedForward();
      r := Ok(end.value);
    }
  }
}
