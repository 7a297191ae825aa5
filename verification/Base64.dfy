/** Base64 as of sections 4 and 5 of RFC 4648, with a decoder that may overwrite its own input.

    Characters and bytes are both numbers below 256. The parts that the original joins with `|` are joined with
    `Or`; they share no bit, so the join is their sum.
 */
module Base64 {
  import opened BitStream
  import opened Bytes
  import opened Wrappers

  datatype Alphabet = Auto | Standard | UrlSafe
  datatype Behavior = Moderate | Loose

  const PAD: Byte := 61

  /** The letter for six bits: `A` to `Z`, `a` to `z`, `0` to `9`, and two that depend on the alphabet. */
  function Letter(url: bool, v: nat): Byte
    requires v < 64
  {
    if v < 26 then 'A' as int + v
    else if v < 52 then 'a' as int + v - 26
    else if v < 62 then '0' as int + v - 52
    else if v == 62 then (if url then '-' as int else '+' as int)
    else if url then '_' as int
    else '/' as int
  }

  /** The six bits a letter stands for, and the alphabet settled on once a letter tells the two apart. */
  function Value(alphabet: Alphabet, c: Byte): (r: (Alphabet, Option<nat>))
    ensures r.1.Some? ==> r.1.value < 64
  {
    if 'A' as int <= c <= 'Z' as int then (alphabet, Some(c - 'A' as int))
    else if 'a' as int <= c <= 'z' as int then (alphabet, Some(c - 'a' as int + 26))
    else if '0' as int <= c <= '9' as int then (alphabet, Some(c - '0' as int + 52))
    else if alphabet == Standard then
      if c == '+' as int then (Standard, Some(62))
      else if c == '/' as int then (Standard, Some(63))
      else (Standard, None)
    else if alphabet == UrlSafe then
      if c == '-' as int then (UrlSafe, Some(62))
      else if c == '_' as int then (UrlSafe, Some(63))
      else (UrlSafe, None)
    else if c == '+' as int then (Standard, Some(62))
    else if c == '/' as int then (Standard, Some(63))
    else if c == '-' as int then (UrlSafe, Some(62))
    else if c == '_' as int then (UrlSafe, Some(63))
    else (Auto, None)
  }

  function RequiredEncodeSize(size: nat): nat {
    (size / 3 + if size % 3 != 0 then 1 else 0) * 4
  }

  function MaxDecodeSize(size: nat): nat {
    (size / 4 + if size % 4 != 0 then 1 else 0) * 3
  }

  // ---------- encoding ----------

  lemma SecondSum(a: Byte, b: Byte)
    ensures Or(a % 4 * 16, b / 16 % 16) == a % 4 * 16 + b / 16 < 64
  {
    hide Or, Pow2;
    Powers();
    OrShifted(a % 4, b / 16 % 16, 4);
  }

  lemma ThirdSum(b: Byte, c: Byte)
    ensures Or(b % 16 * 4, c / 64 % 4) == b % 16 * 4 + c / 64 < 64
  {
    hide Or, Pow2;
    Powers();
    OrShifted(b % 16, c / 64 % 4, 2);
  }

  /** The four six-bit groups of three bytes. */
  function First(a: Byte): (v: nat)
    ensures v < 64
    ensures v == a / 4
  {
    a / 4 % 64
  }

  function Second(a: Byte, b: Byte): (v: nat)
    ensures v < 64
    ensures v == a % 4 * 16 + b / 16
  {
    hide Or, Pow2;
    SecondSum(a, b);
    Or(a % 4 * 16, b / 16 % 16)
  }

  function Third(b: Byte, c: Byte): (v: nat)
    ensures v < 64
    ensures v == b % 16 * 4 + c / 64
  {
    hide Or, Pow2;
    ThirdSum(b, c);
    Or(b % 16 * 4, c / 64 % 4)
  }

  function Fourth(c: Byte): (v: nat)
    ensures v < 64
  {
    c % 64
  }

  function Encode(x: seq<Byte>, url: bool): seq<Byte> {
    if x == [] then []
    else if |x| == 1 then
      [Letter(url, First(x[0])), Letter(url, Second(x[0], 0)), PAD, PAD]
    else if |x| == 2 then
      [Letter(url, First(x[0])), Letter(url, Second(x[0], x[1])), Letter(url, Third(x[1], 0)), PAD]
    else
      [Letter(url, First(x[0])), Letter(url, Second(x[0], x[1])), Letter(url, Third(x[1], x[2])), Letter(url, Fourth(x[2]))]
      + Encode(x[3..], url)
  }

  lemma EncodeStep(x: seq<Byte>, url: bool)
    ensures |x| == 1 ==> Encode(x, url) == [Letter(url, First(x[0])), Letter(url, Second(x[0], 0)), PAD, PAD]
    ensures |x| == 2 ==>
              Encode(x, url) == [Letter(url, First(x[0])), Letter(url, Second(x[0], x[1])), Letter(url, Third(x[1], 0)), PAD]
    ensures |x| >= 3 ==>
              Encode(x, url) == [Letter(url, First(x[0])), Letter(url, Second(x[0], x[1])),
                                 Letter(url, Third(x[1], x[2])), Letter(url, Fourth(x[2]))] + Encode(x[3..], url)
    ensures x == [] ==> Encode(x, url) == []
  {
    hide Letter;
  }

  lemma FourMore(out: seq<Byte>, a: Byte, b: Byte, c: Byte, d: Byte, rest: seq<Byte>)
    ensures out + [a] + [b] + [c] + [d] == out + [a, b, c, d]
    ensures out + [a] + [b] + [c] + [d] + rest == out + ([a, b, c, d] + rest)
  {
  }

  /** The encoding loop. */
  method EncodeBytes(x: seq<Byte>, alphabet: Alphabet) returns (out: seq<Byte>)
    ensures out == Encode(x, alphabet == UrlSafe)
  {
    hide *;
    var url := alphabet == UrlSafe;
    out := [];
    var i: nat := 0;
    while i != |x|
      invariant i <= |x| && out + Encode(x[i..], url) == Encode(x, url)
      decreases |x| - i
    {
      ghost var before, rest := out, x[i..];
      EncodeStep(rest, url);
      assert |rest| == |x| - i;
      var i0 := x[i];
      i := i + 1;
      out := out + [Letter(url, First(i0))];
      if i == |x| {
        out := out + [Letter(url, Second(i0, 0))];
        out := out + [PAD];
        out := out + [PAD];
        FourMore(before, Letter(url, First(i0)), Letter(url, Second(i0, 0)), PAD, PAD, []);
        return;
      }
      var i1 := x[i];
      i := i + 1;
      out := out + [Letter(url, Second(i0, i1))];
      if i == |x| {
        out := out + [Letter(url, Third(i1, 0))];
        out := out + [PAD];
        FourMore(before, Letter(url, First(i0)), Letter(url, Second(i0, i1)), Letter(url, Third(i1, 0)), PAD, []);
        return;
      }
      var i2 := x[i];
      i := i + 1;
      out := out + [Letter(url, Third(i1, i2))];
      out := out + [Letter(url, Fourth(i2))];
      assert rest[3..] == x[i..];
      FourMore(before, Letter(url, First(i0)), Letter(url, Second(i0, i1)), Letter(url, Third(i1, i2)), Letter(url, Fourth(i2)),
        Encode(x[i..], url));
    }
    EncodeStep([], url);
  }

  // ---------- decoding ----------

  /** What has been written when the decoder stops, and whether it stopped without an error. */
  datatype Decoded = Decoded(out: seq<Byte>, ok: bool)

  datatype Scan = Scan(out: seq<Byte>, rest: seq<Byte>, ok: bool)

  /** Shifting left drops the high bits. */
  lemma ShiftedOut(last: nat)
    ensures last * 64 % 256 == last % 4 * 64 && last * 16 % 256 == last % 16 * 16 && last * 4 % 256 == last % 64 * 4
  {
    LowByte(last / 4, last % 4 * 64);
    LowByte(last / 16, last % 16 * 16);
    LowByte(last / 64, last % 64 * 4);
  }

  lemma LowByte(q: nat, low: nat)
    requires low < 256
    ensures (256 * q + low) % 256 == low
  {
  }

  /** What is left of `last` above `part`'s high bits, in numbers. */
  lemma CompletedSum(last: nat, bits: nat, part: nat)
    requires last < 64 && part < 64 && (bits == 2 || bits == 4 || bits == 6)
    ensures var hi := part / Pow2(bits - 2);
      && hi < Pow2(8 - bits) && Or(last * Pow2(8 - bits), hi) % 256 == last % Pow2(bits) * Pow2(8 - bits) + hi
  {
    hide Pow2, Or;
    Powers();
    var hi := part / Pow2(bits - 2);
    OrShifted(last, hi, 8 - bits);
    ShiftedOut(last);
    LowBits(last * Pow2(8 - bits), hi);
  }

  lemma LowBits(x: nat, y: nat)
    requires x % 256 + y < 256
    ensures (x + y) % 256 == x % 256 + y
  {
    LowByte(x / 256, x % 256 + y);
  }

  /** The byte completed by `part` when the low `bits` bits of `last` are pending: those bits of `last` and
      the high bits of `part`.
   */
  function Completed(last: nat, bits: nat, part: nat): (v: Byte)
    requires last < 64 && part < 64 && (bits == 2 || bits == 4 || bits == 6)
    ensures v == last % Pow2(bits) * Pow2(8 - bits) + part / Pow2(bits - 2)
  {
    hide Or, Pow2;
    CompletedSum(last, bits, part);
    Or(last * Pow2(8 - bits), part / Pow2(bits - 2)) % 256
  }

  predicate Pending(last: nat, bits: nat) {
    last < 64 && (bits == 0 || bits == 2 || bits == 4 || bits == 6)
  }

  /** The letters up to the first padding character, the end, or an error. */
  function Scanned(s: seq<Byte>, alphabet: Alphabet, last: nat, bits: nat): Scan
    requires Pending(last, bits)
    decreases s
  {
    if s == [] then Scan([], [], true)
    else if s[0] == PAD then Scan([], s[1..], true)
    else
      var (alphabet', value) := Value(alphabet, s[0]);
      if value.None? then Scan([], s[1..], false)
      else if bits + 6 >= 8 then
        var r := Scanned(s[1..], alphabet', value.value, bits - 2);
        r.(out := [Completed(last, bits, value.value)] + r.out)
      else Scanned(s[1..], alphabet', value.value, bits + 6)
  }

  predicate AllPad(s: seq<Byte>) {
    forall i :: 0 <= i < |s| ==> s[i] == PAD
  }

  function Decode(s: seq<Byte>, alphabet: Alphabet, behavior: Behavior): Decoded {
    var r := Scanned(s, alphabet, 0, 0);
    Decoded(r.out, r.ok && (behavior == Loose || AllPad(r.rest)))
  }

  function Glued(done: seq<Byte>, r: Scan): Scan {
    r.(out := done + r.out)
  }

  /** The scan of a suffix after what came before it, one character on. */
  lemma ScanStep(done: seq<Byte>, s: seq<Byte>, i: nat, alphabet: Alphabet, last: nat, bits: nat)
    requires Pending(last, bits) && i < |s|
    ensures var r := Glued(done, Scanned(s[i..], alphabet, last, bits)); var (alphabet', value) := Value(alphabet, s[i]);
      && (s[i] == PAD ==> r == Scan(done, s[i + 1..], true))
      && (s[i] != PAD && value.None? ==> r == Scan(done, s[i + 1..], false))
      && (s[i] != PAD && value.Some? && bits >= 2 ==>
            r == Glued(done + [Completed(last, bits, value.value)], Scanned(s[i + 1..], alphabet', value.value, bits - 2)))
      && (s[i] != PAD && value.Some? && bits < 2 ==> r == Glued(done, Scanned(s[i + 1..], alphabet', value.value, bits + 6)))
  {
    hide Value, Completed;
    var t := s[i..];
    assert t[0] == s[i] && t[1..] == s[i + 1..];
    var (alphabet', value) := Value(alphabet, s[i]);
    if s[i] != PAD && value.Some? && bits >= 2 {
      var b, r := Completed(last, bits, value.value), Scanned(s[i + 1..], alphabet', value.value, bits - 2);
      assert done + ([b] + r.out) == (done + [b]) + r.out;
    }
  }

  lemma ScanEnd(done: seq<Byte>, alphabet: Alphabet, last: nat, bits: nat)
    requires Pending(last, bits)
    ensures Glued(done, Scanned([], alphabet, last, bits)) == Scan(done, [], true)
  {
  }

  lemma GluedNone(r: Scan)
    ensures Glued([], r) == r
  {
  }

  lemma DecodeIs(s: seq<Byte>, alphabet: Alphabet, behavior: Behavior, out: seq<Byte>, rest: seq<Byte>, ok: bool)
    ensures Scanned(s, alphabet, 0, 0) == Scan(out, rest, ok) ==>
              Decode(s, alphabet, behavior) == Decoded(out, ok && (behavior == Loose || AllPad(rest)))
  {
    hide Scanned;
  }

  lemma SizeBound(len: nat, bits: nat, i: nat, size: nat)
    requires 8 * len + bits == 6 * i && bits >= 2 && i < size
    ensures len < MaxDecodeSize(size) && len < i
  {
  }

  /** What is left in the input when the scan has stopped is looked at only by the strict behaviour. */
  method CheckPadding(src: array<Byte>, from: nat, size: nat, behavior: Behavior) returns (ok: bool)
    requires from <= size <= src.Length
    ensures ok <==> behavior == Loose || AllPad(src[from..size])
  {
    if behavior != Loose {
      var i := from;
      while i != size
        invariant from <= i <= size && AllPad(src[from..i])
      {
        var c := src[i];
        assert src[from..size][i - from] == c;
        i := i + 1;
        if c != PAD {
          return false;
        }
      }
    }
    ok := true;
  }

  method Put(dst: array<Byte>, len: nat, b: Byte)
    requires len < dst.Length
    modifies dst
    ensures dst[..len + 1] == old(dst[..len]) + [b] && forall k :: len < k < dst.Length ==> dst[k] == old(dst[k])
  {
    dst[len] := b;
  }

  /** The decoding loop, from the first `size` bytes of `src` into `dst`, which may be the same array. */
  method DecodeArray(src: array<Byte>, size: nat, dst: array<Byte>, alphabet: Alphabet, behavior: Behavior)
    returns (len: nat, ok: bool)
    requires size <= src.Length && (src == dst || MaxDecodeSize(size) <= dst.Length)
    modifies dst
    ensures len <= dst.Length && Decoded(dst[..len], ok) == Decode(old(src[..size]), alphabet, behavior)
    ensures forall k :: len <= k < dst.Length ==> dst[k] == old(dst[k])
  {
    hide Value, Completed, Scanned, MaxDecodeSize, Decode, AllPad, Glued;
    ghost var s := src[..size];
    var alpha := alphabet;
    var last: nat, bits: nat, i: nat := 0, 0, 0;
    len := 0;
    GluedNone(Scanned(s, alphabet, 0, 0));
    assert s[0..] == s && dst[..0] == [];
    while i != size
      invariant Pending(last, bits) && i <= size && 8 * len + bits == 6 * i
      invariant len <= i && len <= dst.Length
      invariant forall k :: i <= k < size ==> src[k] == s[k]
      invariant forall k :: len <= k < dst.Length ==> dst[k] == old(dst[k])
      invariant Glued(dst[..len], Scanned(s[i..], alpha, last, bits)) == Scanned(s, alphabet, 0, 0)
      decreases size - i
    {
      var c := src[i];
      ghost var done := dst[..len];
      ScanStep(done, s, i, alpha, last, bits);
      DecodeIs(s, alphabet, behavior, done, s[i + 1..], c == PAD);
      i := i + 1;
      if c == PAD {
        assert src[i..size] == s[i..];
        ok := CheckPadding(src, i, size, behavior);
        return;
      }
      var (alpha', value) := Value(alpha, c);
      alpha := alpha';
      if value.None? {
        ok := false;
        return;
      }
      if bits + 6 >= 8 {
        SizeBound(len, bits, i - 1, size);
        Put(dst, len, Completed(last, bits, value.value));
        len := len + 1;
        bits := bits - 2;
      } else {
        bits := bits + 6;
      }
      last := value.value;
    }
    assert s[i..] == [];
    ScanEnd(dst[..len], alpha, last, bits);
    DecodeIs(s, alphabet, behavior, dst[..len], [], true);
    assert src[i..size] == [];
    ok := CheckPadding(src, i, size, behavior);
  }
}
