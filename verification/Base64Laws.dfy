/** What base64 text means, which text is accepted, and that decoding inverts encoding. */
module Base64Laws {
  import opened Base64
  import opened BitStream
  import opened Bytes

  // ---------- letters ----------

  predicate InAlphabet(url: bool, c: Byte) {
    || 'A' as int <= c <= 'Z' as int || 'a' as int <= c <= 'z' as int || '0' as int <= c <= '9' as int
    || (if url then c == '-' as int || c == '_' as int else c == '+' as int || c == '/' as int)
  }

  predicate AllIn(url: bool, s: seq<Byte>) {
    forall i :: 0 <= i < |s| ==> InAlphabet(url, s[i])
  }

  /** The text is in the alphabet asked for; under auto-detection, in either, but not in a mixture. */
  predicate OneAlphabet(alphabet: Alphabet, s: seq<Byte>) {
    (alphabet != UrlSafe && AllIn(false, s)) || (alphabet != Standard && AllIn(true, s))
  }

  /** The six bits of a letter of either alphabet. */
  function Sextet(c: Byte): nat {
    if Value(Standard, c).1.Some? then Value(Standard, c).1.value
    else if Value(UrlSafe, c).1.Some? then Value(UrlSafe, c).1.value
    else 0
  }

  function Sextets(s: seq<Byte>): (r: seq<nat>)
    ensures |r| == |s| && forall i :: 0 <= i < |r| ==> r[i] == Sextet(s[i])
  {
    seq(|s|, i requires 0 <= i < |s| => Sextet(s[i]))
  }

  lemma LetterValue(url: bool, v: nat)
    requires v < 64
    ensures Letter(url, v) != PAD && InAlphabet(url, Letter(url, v)) && Sextet(Letter(url, v)) == v
  {
  }

  /** The text before the first padding character. */
  function Body(s: seq<Byte>): (n: nat)
    ensures n <= |s| && PAD !in s[..n] && (n < |s| ==> s[n] == PAD)
  {
    if s == [] || s[0] == PAD then 0
    else
      var n := 1 + Body(s[1..]);
      assert s[..n] == [s[0]] + s[1..][..n - 1];
      n
  }

  lemma BodyUnique(s: seq<Byte>, n: nat)
    requires n <= |s| && PAD !in s[..n] && (n < |s| ==> s[n] == PAD)
    ensures Body(s) == n
  {
  }

  // ---------- acceptance ----------

  lemma ValueAccepts(alphabet: Alphabet, c: Byte, t: seq<Byte>)
    ensures var (alphabet', value) := Value(alphabet, c);
      && (value.Some? ==> value.value == Sextet(c))
      && (value.Some? && OneAlphabet(alphabet', t) <==> OneAlphabet(alphabet, [c] + t))
  {
    AllInStep(false, c, t);
    AllInStep(true, c, t);
  }

  lemma AllInStep(url: bool, c: Byte, t: seq<Byte>)
    ensures AllIn(url, [c] + t) <==> InAlphabet(url, c) && AllIn(url, t)
  {
    if AllIn(url, [c] + t) {
      assert InAlphabet(url, ([c] + t)[0]);
      forall i | 0 <= i < |t| ensures InAlphabet(url, t[i]) {
        assert InAlphabet(url, ([c] + t)[i + 1]);
      }
    }
  }

  lemma {:induction false} ScanAccepts(s: seq<Byte>, alphabet: Alphabet, last: nat, bits: nat)
    requires Pending(last, bits)
    ensures var r := Scanned(s, alphabet, last, bits);
      && (r.ok <==> OneAlphabet(alphabet, s[..Body(s)]))
      && (r.ok ==> r.rest == if Body(s) == |s| then [] else s[Body(s) + 1..])
    decreases s
  {
    hide Value, OneAlphabet, Completed;
    if s == [] || s[0] == PAD {
      NoLetters(alphabet);
      assert s[..Body(s)] == [];
    } else {
      var (alphabet', value) := Value(alphabet, s[0]);
      var t := s[1..][..Body(s[1..])];
      assert s[..Body(s)] == [s[0]] + t;
      ValueAccepts(alphabet, s[0], t);
      if value.Some? {
        ScanAccepts(s[1..], alphabet', value.value, if bits + 6 >= 8 then bits - 2 else bits + 6);
      }
    }
  }

  lemma NoLetters(alphabet: Alphabet)
    ensures OneAlphabet(alphabet, [])
  {
  }

  /** Text is accepted exactly when its body is in one alphabet and, under the strict behaviour, nothing but
      padding follows.
   */
  lemma DecodeAccepts(s: seq<Byte>, alphabet: Alphabet, behavior: Behavior)
    ensures Decode(s, alphabet, behavior).ok
       <==> OneAlphabet(alphabet, s[..Body(s)]) && (behavior == Loose || AllPad(s[Body(s)..]))
  {
    hide OneAlphabet, Scanned;
    ScanAccepts(s, alphabet, 0, 0);
    var n := Body(s);
    if n < |s| {
      assert s[n..] == [PAD] + s[n + 1..];
    }
  }

  // ---------- meaning ----------

  /** The bits still pending after the last letter. */
  function Leftover(last: nat, bits: nat): (r: seq<bool>)
    ensures |r| == bits
  {
    Bits(last % Pow2(bits), bits)
  }

  lemma CompletedParts(last: nat, bits: nat, part: nat) returns (top: nat, hi: nat, lo: nat)
    requires last < 64 && part < 64 && (bits == 2 || bits == 4 || bits == 6)
    ensures Completed(last, bits, part) == top * Pow2(8 - bits) + hi && Leftover(last, bits) == Bits(top, bits)
    ensures part == hi * Pow2(bits - 2) + lo && lo < Pow2(bits - 2) && hi < Pow2(8 - bits)
    ensures Leftover(part, bits - 2) == Bits(lo, bits - 2)
  {
    hide Pow2, Completed, Bits;
    Powers();
    top, hi, lo := last % Pow2(bits), part / Pow2(bits - 2), part % Pow2(bits - 2);
  }

  lemma CompletedBits(last: nat, bits: nat, part: nat)
    requires last < 64 && part < 64 && (bits == 2 || bits == 4 || bits == 6)
    ensures Leftover(last, bits) + Bits(part, 6) == Bits(Completed(last, bits, part), 8) + Leftover(part, bits - 2)
  {
    hide Bits, Pow2, Completed, Leftover;
    var top, hi, lo := CompletedParts(last, bits, part);
    PartJoins(top, hi, lo, bits, part);
  }

  /** The high bits of a part complete a byte, its low bits are left over. */
  lemma PartJoins(top: nat, hi: nat, lo: nat, bits: nat, part: nat)
    requires 2 <= bits <= 8 && hi < Pow2(8 - bits) && lo < Pow2(bits - 2) && part == hi * Pow2(bits - 2) + lo
    ensures Bits(top, bits) + Bits(part, 6) == Bits(top * Pow2(8 - bits) + hi, 8) + Bits(lo, bits - 2)
  {
    hide Bits, Pow2;
    BitsJoined(hi, lo, 8 - bits, bits - 2);
    BitsJoined(top, hi, bits, 8 - bits);
    var l := Bits(top, bits);
    assert l + (Bits(hi, 8 - bits) + Bits(lo, bits - 2)) == (l + Bits(hi, 8 - bits)) + Bits(lo, bits - 2);
  }

  /** The bits of the letters are the bits of the bytes, and less than one more byte. */
  lemma {:induction false} ScanBits(s: seq<Byte>, alphabet: Alphabet, last: nat, bits: nat)
    requires Pending(last, bits) && Scanned(s, alphabet, last, bits).ok
    ensures exists left: seq<bool> {:trigger |left|} :: |left| < 8
              && Leftover(last, bits) + Stream(Sextets(s[..Body(s)]), 6) == Stream(Scanned(s, alphabet, last, bits).out, 8) + left
    decreases s
  {
    hide Value, Completed, Sextet, Leftover, Bits;
    if s == [] || s[0] == PAD {
      assert s[..Body(s)] == [] && Sextets([]) == [] && Stream([], 6) == [] && Stream([], 8) == [];
      var left := Leftover(last, bits);
      assert left + [] == [] + left;
    } else {
      var (alphabet', value) := Value(alphabet, s[0]);
      var part := value.value;
      ValueAccepts(alphabet, s[0], []);
      var t := s[1..][..Body(s[1..])];
      assert s[..Body(s)] == [s[0]] + t && Sextets([s[0]] + t) == [part] + Sextets(t);
      StreamConcat([part], Sextets(t), 6);
      StreamOne(part, 6);
      if bits + 6 >= 8 {
        ScanBits(s[1..], alphabet', part, bits - 2);
        var r := Scanned(s[1..], alphabet', part, bits - 2);
        var left: seq<bool> :| |left| < 8 && Leftover(part, bits - 2) + Stream(Sextets(t), 6) == Stream(r.out, 8) + left;
        CompletedBits(last, bits, part);
        var b := Completed(last, bits, part);
        StreamConcat([b], r.out, 8);
        StreamOne(b, 8);
        Regroup(Leftover(last, bits), Bits(part, 6), Stream(Sextets(t), 6), Bits(b, 8), Leftover(part, bits - 2), Stream(r.out, 8), left);
      } else {
        ScanBits(s[1..], alphabet', part, 6);
        FirstPending(last, part);
        assert [] + (Bits(part, 6) + Stream(Sextets(t), 6)) == Leftover(part, 6) + Stream(Sextets(t), 6);
      }
    }
  }

  lemma Regroup(a: seq<bool>, b: seq<bool>, c: seq<bool>, d: seq<bool>, e: seq<bool>, f: seq<bool>, g: seq<bool>)
    requires a + b == d + e && e + c == f + g
    ensures a + (b + c) == (d + f) + g
  {
    assert a + (b + c) == (a + b) + c == (d + e) + c == d + (e + c) == d + (f + g) == (d + f) + g;
  }

  lemma FirstPending(last: nat, part: nat)
    requires part < 64
    ensures Leftover(last, 0) == [] && Leftover(part, 6) == Bits(part, 6)
  {
    hide Bits, Pow2;
    Powers();
  }

  /** Read as six-bit groups, accepted text is the decoded bytes followed by fewer than eight bits. */
  lemma DecodeMeans(s: seq<Byte>, alphabet: Alphabet, behavior: Behavior)
    requires Decode(s, alphabet, behavior).ok
    ensures exists left: seq<bool> {:trigger |left|} :: |left| < 8
              && Stream(Sextets(s[..Body(s)]), 6) == Stream(Decode(s, alphabet, behavior).out, 8) + left
  {
    hide Stream, Sextets;
    ScanBits(s, alphabet, 0, 0);
    assert Leftover(0, 0) + Stream(Sextets(s[..Body(s)]), 6) == Stream(Sextets(s[..Body(s)]), 6);
  }

  lemma {:induction false} ScanSize(s: seq<Byte>, alphabet: Alphabet, last: nat, bits: nat)
    requires Pending(last, bits)
    ensures 8 * |Scanned(s, alphabet, last, bits).out| <= bits + 6 * |s|
    decreases s
  {
    hide Value, Completed;
    if s != [] && s[0] != PAD {
      var (alphabet', value) := Value(alphabet, s[0]);
      if value.Some? {
        ScanSize(s[1..], alphabet', value.value, if bits + 6 >= 8 then bits - 2 else bits + 6);
      }
    }
  }

  /** No text, accepted or not, yields more than the announced number of bytes. */
  lemma DecodeSize(s: seq<Byte>, alphabet: Alphabet, behavior: Behavior)
    ensures |Decode(s, alphabet, behavior).out| <= MaxDecodeSize(|s|)
  {
    hide Scanned;
    ScanSize(s, alphabet, 0, 0);
  }

  // ---------- encoding ----------

  function Zeros(n: nat): (r: seq<bool>)
    ensures |r| == n
  {
    seq(n, i => false)
  }

  function Pads(n: nat): (r: seq<Byte>)
    ensures |r| == n && forall i :: 0 <= i < n ==> r[i] == PAD
  {
    seq(n, i => PAD)
  }

  function Letters(url: bool, vs: seq<nat>): (r: seq<Byte>)
    requires Words(vs, 6)
    ensures |r| == |vs|
  {
    Powers();
    seq(|vs|, i requires 0 <= i < |vs| => Letter(url, vs[i]))
  }

  /** The six-bit groups that make up a byte string, the last filled up with zero bits. */
  function Groups(x: seq<Byte>): (r: seq<nat>) {
    if x == [] then []
    else if |x| == 1 then [First(x[0]), Second(x[0], 0)]
    else if |x| == 2 then [First(x[0]), Second(x[0], x[1]), Third(x[1], 0)]
    else [First(x[0]), Second(x[0], x[1]), Third(x[1], x[2]), Fourth(x[2])] + Groups(x[3..])
  }

  lemma {:induction false} GroupsAreWords(x: seq<Byte>)
    ensures Words(Groups(x), 6)
    decreases x
  {
    hide Pow2;
    Powers();
    if |x| >= 3 {
      GroupsAreWords(x[3..]);
    }
  }

  function PadCount(n: nat): nat {
    if n % 3 == 0 then 0 else 3 - n % 3
  }

  lemma WordsStep(a: seq<nat>, b: seq<nat>)
    requires Words(a + b, 6)
    ensures Words(a, 6) && Words(b, 6)
  {
    hide Pow2;
    forall i | 0 <= i < |a| ensures a[i] < Pow2(6) {
      assert (a + b)[i] == a[i];
    }
    forall i | 0 <= i < |b| ensures b[i] < Pow2(6) {
      assert (a + b)[|a| + i] == b[i];
    }
  }

  lemma LettersConcat(url: bool, a: seq<nat>, b: seq<nat>)
    requires Words(a + b, 6) && Words(a, 6) && Words(b, 6)
    ensures Letters(url, a + b) == Letters(url, a) + Letters(url, b)
  {
    hide Letter, Pow2;
  }

  /** Encoded text is the letters of the groups, filled up with padding to a multiple of four. */
  lemma {:induction false} EncodeLetters(x: seq<Byte>, url: bool)
    ensures Words(Groups(x), 6)
    ensures Encode(x, url) == Letters(url, Groups(x)) + Pads(PadCount(|x|))
    decreases x
  {
    hide Letter, Pow2, Encode, PadCount, Letters, Pads;
    GroupsAreWords(x);
    EncodeStep(x, url);
    PadCounts(|x|);
    if |x| >= 3 {
      EncodeLetters(x[3..], url);
      var g := [First(x[0]), Second(x[0], x[1]), Third(x[1], x[2]), Fourth(x[2])];
      WordsStep(g, Groups(x[3..]));
      LettersConcat(url, g, Groups(x[3..]));
      FourLetters(url, g);
      assert (Letters(url, g) + Letters(url, Groups(x[3..]))) + Pads(PadCount(|x|))
          == Letters(url, g) + (Letters(url, Groups(x[3..])) + Pads(PadCount(|x|)));
    } else {
      ShortLetters(x, url);
    }
  }

  lemma FourLetters(url: bool, g: seq<nat>)
    requires |g| == 4 && Words(g, 6)
    ensures g[0] < 64 && g[1] < 64 && g[2] < 64 && g[3] < 64
    ensures Letters(url, g) == [Letter(url, g[0]), Letter(url, g[1]), Letter(url, g[2]), Letter(url, g[3])]
  {
    hide Letter, Pow2;
    Powers();
  }

  lemma ShortLetters(x: seq<Byte>, url: bool)
    requires |x| < 3 && Words(Groups(x), 6)
    ensures Encode(x, url) == Letters(url, Groups(x)) + Pads(PadCount(|x|))
  {
    hide Letter, Pow2, Encode, PadCount;
    EncodeStep(x, url);
    PadCounts(|x|);
  }

  lemma PadCounts(n: nat)
    ensures PadCount(0) == 0 && PadCount(1) == 2 && PadCount(2) == 1
    ensures n >= 3 ==> PadCount(n) == PadCount(n - 3)
  {
  }

  lemma {:induction false} EncodeSize(x: seq<Byte>, url: bool)
    ensures |Encode(x, url)| == RequiredEncodeSize(|x|)
    decreases x
  {
    hide Letter, Encode, RequiredEncodeSize;
    EncodeStep(x, url);
    SizeStep(|x|);
    if |x| >= 3 {
      EncodeSize(x[3..], url);
    }
  }

  lemma SizeStep(n: nat)
    ensures n >= 3 ==> RequiredEncodeSize(n) == 4 + RequiredEncodeSize(n - 3)
    ensures RequiredEncodeSize(0) == 0 && RequiredEncodeSize(1) == 4 && RequiredEncodeSize(2) == 4
  {
    if n >= 3 {
      assert n == 3 + (n - 3) && n / 3 == (n - 3) / 3 + 1 && n % 3 == (n - 3) % 3;
    }
  }

  // ---------- the groups are the bits of the bytes ----------

  lemma ByteSplit(a: Byte)
    ensures a == a / 4 * 4 + a % 4 && a / 4 < 64 && a % 4 < 4
    ensures a == a / 16 * 16 + a % 16 && a / 16 < 16 && a % 16 < 16
    ensures a == a / 64 * 64 + a % 64 && a / 64 < 4 && a % 64 < 64
  {
  }

  lemma ThreeBytes(a: Byte, b: Byte, c: Byte)
    ensures Stream([First(a), Second(a, b), Third(b, c), Fourth(c)], 6) == Stream([a, b, c], 8)
  {
    hide Bits, Pow2, Stream, First, Second, Third;
    ByteSplit(a);
    ByteSplit(b);
    ByteSplit(c);
    ThreeSplit(a / 4, a % 4, b / 16, b % 16, c / 64, c % 64);
  }

  lemma ThreeSplit(a: nat, a': nat, b: nat, b': nat, c: nat, c': nat)
    requires a < 64 && a' < 4 && b < 16 && b' < 16 && c < 4 && c' < 64
    ensures Stream([a, a' * 16 + b, b' * 4 + c, c'], 6) == Stream([a * 4 + a', b * 16 + b', c * 64 + c'], 8)
  {
    hide Bits, Pow2, Stream;
    Powers();
    BitsJoined(a, a', 6, 2);
    BitsJoined(a', b, 2, 4);
    BitsJoined(b, b', 4, 4);
    BitsJoined(b', c, 4, 2);
    BitsJoined(c, c', 2, 6);
    StreamFour(a, a' * 16 + b, b' * 4 + c, c', 6);
    StreamThree(a * 4 + a', b * 16 + b', c * 64 + c', 8);
    var u, v, w, x, y, z := Bits(a, 6), Bits(a', 2), Bits(b, 4), Bits(b', 4), Bits(c, 2), Bits(c', 6);
    assert u + (v + w) + (x + y) + z == (u + v) + (w + x) + (y + z);
  }

  lemma StreamThree(a: nat, b: nat, c: nat, w: nat)
    ensures Stream([a, b, c], w) == Bits(a, w) + Bits(b, w) + Bits(c, w)
  {
    hide Bits, Stream;
    StreamTwo(a, b, w);
    StreamOne(c, w);
    StreamConcat([a, b], [c], w);
    assert [a, b] + [c] == [a, b, c];
  }

  lemma StreamTwo(a: nat, b: nat, w: nat)
    ensures Stream([a, b], w) == Bits(a, w) + Bits(b, w)
  {
    hide Bits, Stream;
    StreamOne(a, w);
    StreamOne(b, w);
    StreamConcat([a], [b], w);
    assert [a] + [b] == [a, b];
  }

  lemma StreamFour(a: nat, b: nat, c: nat, d: nat, w: nat)
    ensures Stream([a, b, c, d], w) == Bits(a, w) + Bits(b, w) + Bits(c, w) + Bits(d, w)
  {
    hide Bits, Stream;
    StreamThree(a, b, c, w);
    StreamOne(d, w);
    StreamConcat([a, b, c], [d], w);
    assert [a, b, c] + [d] == [a, b, c, d];
  }

  lemma ZeroBits(n: nat)
    ensures n == 2 || n == 4 ==> Bits(0, n) == Zeros(n)
  {
    assert Bits(0, 1) == [false] && Bits(0, 2) == [false, false] && Bits(0, 3) == [false, false, false];
  }

  lemma TwoBytes(a: Byte, b: Byte)
    ensures Stream([First(a), Second(a, b), Third(b, 0)], 6) == Stream([a, b], 8) + Zeros(2)
  {
    hide Bits, Pow2, Stream, First, Second, Third;
    ByteSplit(a);
    ByteSplit(b);
    TwoSplit(a / 4, a % 4, b / 16, b % 16);
  }

  lemma TwoSplit(a: nat, a': nat, b: nat, b': nat)
    requires a < 64 && a' < 4 && b < 16 && b' < 16
    ensures Stream([a, a' * 16 + b, b' * 4], 6) == Stream([a * 4 + a', b * 16 + b'], 8) + Zeros(2)
  {
    hide Bits, Pow2, Stream;
    Powers();
    ZeroBits(2);
    BitsJoined(a, a', 6, 2);
    BitsJoined(a', b, 2, 4);
    BitsJoined(b, b', 4, 4);
    BitsJoined(b', 0, 4, 2);
    StreamThree(a, a' * 16 + b, b' * 4, 6);
    StreamTwo(a * 4 + a', b * 16 + b', 8);
    var u, v, w, x := Bits(a, 6), Bits(a', 2), Bits(b, 4), Bits(b', 4);
    assert u + (v + w) + (x + Zeros(2)) == (u + v) + (w + x) + Zeros(2);
  }

  lemma OneByte(a: Byte)
    ensures Stream([First(a), Second(a, 0)], 6) == Stream([a], 8) + Zeros(4)
  {
    hide Bits, Pow2, Stream, First, Second;
    ByteSplit(a);
    OneSplit(a / 4, a % 4);
  }

  lemma OneSplit(a: nat, a': nat)
    requires a < 64 && a' < 4
    ensures Stream([a, a' * 16], 6) == Stream([a * 4 + a'], 8) + Zeros(4)
  {
    hide Bits, Pow2, Stream;
    Powers();
    ZeroBits(4);
    BitsJoined(a, a', 6, 2);
    BitsJoined(a', 0, 2, 4);
    StreamTwo(a, a' * 16, 6);
    StreamOne(a * 4 + a', 8);
    assert Bits(a, 6) + (Bits(a', 2) + Zeros(4)) == (Bits(a, 6) + Bits(a', 2)) + Zeros(4);
  }

  /** The encoded groups are the bits of the bytes, followed by no more than four zero bits. */
  lemma {:induction false} GroupsMean(x: seq<Byte>)
    ensures Stream(Groups(x), 6) == Stream(x, 8) + Zeros(2 * PadCount(|x|))
    decreases x
  {
    hide Stream, PadCount, Bits;
    PadCounts(|x|);
    if x == [] {
      assert Stream([], 6) == [] && Stream([], 8) == [] by { EmptyStream(); }
    } else if |x| == 1 {
      assert x == [x[0]];
      OneByte(x[0]);
    } else if |x| == 2 {
      assert x == [x[0], x[1]];
      TwoBytes(x[0], x[1]);
    } else {
      GroupsMean(x[3..]);
      ThreeBytes(x[0], x[1], x[2]);
      var g := [First(x[0]), Second(x[0], x[1]), Third(x[1], x[2]), Fourth(x[2])];
      StreamConcat(g, Groups(x[3..]), 6);
      var head: seq<nat> := [x[0], x[1], x[2]];
      assert x == head + x[3..];
      StreamConcat(head, x[3..], 8);
    }
  }

  lemma EmptyStream()
    ensures Stream([], 6) == [] && Stream([], 8) == []
  {
  }

  // ---------- round trip ----------

  lemma LettersRead(url: bool, vs: seq<nat>)
    requires Words(vs, 6)
    ensures PAD !in Letters(url, vs) && AllIn(url, Letters(url, vs)) && Sextets(Letters(url, vs)) == vs
  {
    hide Letter, InAlphabet, Sextet, Pow2;
    Powers();
    forall i | 0 <= i < |vs|
      ensures Letters(url, vs)[i] != PAD && InAlphabet(url, Letters(url, vs)[i]) && Sextet(Letters(url, vs)[i]) == vs[i]
    {
      LetterValue(url, vs[i]);
    }
  }

  lemma EncodedBody(x: seq<Byte>, url: bool)
    ensures var s := Encode(x, url); var n := Body(s);
      && AllIn(url, s[..n]) && AllPad(s[n..]) && Sextets(s[..n]) == Groups(x)
  {
    hide Letter, Letters, InAlphabet, Sextet, Sextets, Groups, Pow2;
    EncodeLetters(x, url);
    LettersRead(url, Groups(x));
    var s, l := Encode(x, url), Letters(url, Groups(x));
    assert s[..|l|] == l && s[|l|..] == Pads(PadCount(|x|));
    BodyUnique(s, |l|);
  }

  /** Decoding gives back what was encoded, in the alphabet it was encoded with or under auto-detection. */
  lemma RoundTrip(x: seq<Byte>, url: bool, alphabet: Alphabet, behavior: Behavior)
    requires alphabet == Auto || alphabet == if url then UrlSafe else Standard
    ensures Decode(Encode(x, url), alphabet, behavior) == Decoded(x, true)
  {
    hide Stream, Encode, Decode, Groups, AllIn, Sextets, AllPad;
    var s := Encode(x, url);
    EncodedBody(x, url);
    DecodeAccepts(s, alphabet, behavior);
    var r := Decode(s, alphabet, behavior);
    DecodeMeans(s, alphabet, behavior);
    var left: seq<bool> :| |left| < 8 && Stream(Sextets(s[..Body(s)]), 6) == Stream(r.out, 8) + left;
    GroupsMean(x);
    BytesAreWords(x);
    BytesAreWords(r.out);
    StreamInjective(r.out, left, x, Zeros(2 * PadCount(|x|)), 8);
  }

  lemma BytesAreWords(x: seq<Byte>)
    ensures Words(x, 8)
  {
    hide Pow2;
    Powers();
  }

  // ---------- the alphabets ----------

  /** Capital letters stand for the first 26 values, small ones for the next, digits for ten more, and two marks for
      the last two: `+` and `/`, or `-` and `_` in the other alphabet.
   */
  lemma LettersAre(url: bool, k: nat)
    ensures k < 26 ==> Letter(url, k) == 'A' as int + k && Letter(url, 26 + k) == 'a' as int + k
    ensures k < 10 ==> Letter(url, 52 + k) == '0' as int + k
    ensures Letter(false, 62) == '+' as int && Letter(false, 63) == '/' as int
    ensures Letter(true, 62) == '-' as int && Letter(true, 63) == '_' as int
    ensures k < 64 ==> Sextet(Letter(url, k)) == k
  {
    if k < 64 {
      LetterValue(url, k);
    }
  }

  /** Padding is a mark of its own, of which there may be any number, and nothing else may follow it. */
  lemma PaddingIs(s: seq<Byte>, alphabet: Alphabet)
    ensures Decode(s, alphabet, Moderate).ok <==>
              Decode(s, alphabet, Loose).ok && forall i :: Body(s) <= i < |s| ==> s[i] == '=' as int
    ensures forall url, v :: 0 <= v < 64 ==> Letter(url, v) != '=' as int
  {
    hide Decode, OneAlphabet, AllPad, Letter;
    DecodeAccepts(s, alphabet, Moderate);
    DecodeAccepts(s, alphabet, Loose);
    PadsFrom(s, Body(s));
    forall url, v | 0 <= v < 64 ensures Letter(url, v) != '=' as int {
      LetterValue(url, v);
    }
  }

  lemma PadsFrom(s: seq<Byte>, n: nat)
    requires n <= |s|
    ensures AllPad(s[n..]) <==> forall i :: n <= i < |s| ==> s[i] == '=' as int
  {
    assert forall i :: n <= i < |s| ==> s[n..][i - n] == s[i];
  }

  /** A text that is refused is decoded as far as its letters are of one alphabet. */
  lemma DecodeStops(s: seq<Byte>, alphabet: Alphabet, behavior: Behavior, n: nat)
    requires n <= Body(s) && OneAlphabet(alphabet, s[..n]) && (n < Body(s) ==> !OneAlphabet(alphabet, s[..n + 1]))
    ensures Decode(s, alphabet, behavior).out == Decode(s[..n], alphabet, behavior).out
  {
    hide Scanned, OneAlphabet;
    ScanStops(s, alphabet, 0, 0, n);
  }

  lemma {:induction false} ScanStops(s: seq<Byte>, alphabet: Alphabet, last: nat, bits: nat, n: nat)
    requires Pending(last, bits) && n <= Body(s)
    requires OneAlphabet(alphabet, s[..n]) && (n < Body(s) ==> !OneAlphabet(alphabet, s[..n + 1]))
    ensures Scanned(s, alphabet, last, bits).out == Scanned(s[..n], alphabet, last, bits).out
    decreases s
  {
    hide OneAlphabet, Completed, Value, Body;
    FirstStops(s, alphabet, n);
    assert s[..0] == [];
    if n > 0 {
      var t, value := s[1..], Value(alphabet, s[0]);
      assert s[..n][1..] == t[..n - 1] && s[..n][0] == s[0];
      if bits >= 2 {
        ScanStops(t, value.0, value.1.value, bits - 2, n - 1);
      } else {
        ScanStops(t, value.0, value.1.value, bits + 6, n - 1);
      }
    }
  }

  /** The scan ends at the first character if there is no letter to take, and else goes on with one letter fewer. */
  lemma FirstStops(s: seq<Byte>, alphabet: Alphabet, n: nat)
    requires n <= Body(s) && OneAlphabet(alphabet, s[..n]) && (n < Body(s) ==> !OneAlphabet(alphabet, s[..n + 1]))
    ensures n == 0 && s != [] ==> s[0] == PAD || Value(alphabet, s[0]).1.None?
    ensures n > 0 ==>
              var t, value := s[1..], Value(alphabet, s[0]);
              && s[0] != PAD && value.1.Some? && n - 1 <= Body(t) && OneAlphabet(value.0, t[..n - 1])
              && (n - 1 < Body(t) ==> !OneAlphabet(value.0, t[..n]))
  {
    hide OneAlphabet, Value;
    if s != [] && s[0] != PAD {
      if n == 0 {
        ValueAccepts(alphabet, s[0], []);
        NoLetters(Value(alphabet, s[0]).0);
        assert s[..1] == [s[0]] + [] && s[..0] == [];
      } else {
        var t := s[1..];
        ValueAccepts(alphabet, s[0], t[..n - 1]);
        assert s[..n] == [s[0]] + t[..n - 1];
        if n < Body(s) {
          ValueAccepts(alphabet, s[0], t[..n]);
          assert s[..n + 1] == [s[0]] + t[..n];
        }
      }
    }
  }
}
