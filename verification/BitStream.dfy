/** Numbers as fixed-width bit strings, most significant bit first. */
module BitStream {

  function Pow2(n: nat): (r: nat)
    ensures r > 0
  {
    if n == 0 then 1 else 2 * Pow2(n - 1)
  }

  lemma Powers()
    ensures Pow2(0) == 1 && Pow2(1) == 2 && Pow2(2) == 4 && Pow2(3) == 8 && Pow2(4) == 16 && Pow2(6) == 64 && Pow2(8) == 256
  {
    assert Pow2(4) == 2 * Pow2(3) && Pow2(6) == 2 * (2 * Pow2(4)) && Pow2(8) == 2 * (2 * Pow2(6));
  }

  /** The number with each bit that either has. */
  function Or(a: nat, b: nat): nat
    decreases a + b
  {
    if a == 0 && b == 0 then 0
    else 2 * Or(a / 2, b / 2) + if a % 2 == 1 || b % 2 == 1 then 1 else 0
  }

  /** A shifted number and one below the shift share no bit: joining them is adding them. */
  lemma {:induction false} OrShifted(hi: nat, lo: nat, m: nat)
    requires lo < Pow2(m)
    ensures Or(hi * Pow2(m), lo) == hi * Pow2(m) + lo
    decreases m, hi
  {
    hide Or, Pow2;
    if m > 0 {
      HalfPow2(m);
      OrShifted(hi, lo / 2, m - 1);
      Halved(hi, 0, Pow2(m - 1));
      Halved(hi, lo, Pow2(m - 1));
      OrStep(hi * Pow2(m), lo);
    } else {
      Powers();
      OrZero(hi);
      assert hi * 1 == hi && lo == 0;
    }
  }

  lemma OrStep(a: nat, b: nat)
    ensures Or(a, b) == 2 * Or(a / 2, b / 2) + if a % 2 == 1 || b % 2 == 1 then 1 else 0
  {
    if a == 0 && b == 0 {
      assert Or(0, 0) == 0;
    }
  }

  lemma {:induction false} OrZero(a: nat)
    ensures Or(a, 0) == a
  {
    if a > 0 {
      OrZero(a / 2);
    }
  }

  /** The lowest `w` bits of a number. */
  function Bits(v: nat, w: nat): (r: seq<bool>)
    ensures |r| == w
  {
    if w == 0 then [] else Bits(v / 2, w - 1) + [v % 2 == 1]
  }

  /** The words of a stream, `w` bits each, one after the other. */
  function Stream(vs: seq<nat>, w: nat): seq<bool> {
    if vs == [] then [] else Bits(vs[0], w) + Stream(vs[1..], w)
  }

  lemma HalfPow2(n: nat)
    requires n > 0
    ensures Pow2(n) == 2 * Pow2(n - 1) && Pow2(n) / 2 == Pow2(n - 1)
  {
  }

  lemma Halved(hi: nat, lo: nat, p: nat)
    ensures (hi * (2 * p) + lo) / 2 == hi * p + lo / 2 && (hi * (2 * p) + lo) % 2 == lo % 2
  {
    assert hi * (2 * p) == 2 * (hi * p);
  }

  /** A number put together from a high and a low part has the bits of both. */
  lemma {:induction false} BitsJoined(hi: nat, lo: nat, n: nat, m: nat)
    requires lo < Pow2(m)
    ensures Bits(hi * Pow2(m) + lo, n + m) == Bits(hi, n) + Bits(lo, m)
    decreases m
  {
    hide Bits;
    if m > 0 {
      HalfPow2(m);
      BitsJoined(hi, lo / 2, n, m - 1);
      Halved(hi, lo, Pow2(m - 1));
      LastBit(hi * Pow2(m) + lo, n + m);
      LastBit(lo, m);
    } else {
      NoBits(lo);
      assert hi * 1 + lo == hi;
    }
  }

  lemma LastBit(v: nat, w: nat)
    requires w > 0
    ensures Bits(v, w) == Bits(v / 2, w - 1) + [v % 2 == 1]
  {
  }

  lemma NoBits(v: nat)
    ensures Bits(v, 0) == []
  {
  }

  lemma {:induction false} BitsInjective(a: nat, b: nat, w: nat)
    requires a < Pow2(w) && b < Pow2(w) && Bits(a, w) == Bits(b, w)
    ensures a == b
  {
    if w > 0 {
      var x, y := Bits(a, w), Bits(b, w);
      assert x[w - 1] == y[w - 1] && x[..w - 1] == Bits(a / 2, w - 1) && y[..w - 1] == Bits(b / 2, w - 1);
      BitsInjective(a / 2, b / 2, w - 1);
    }
  }

  lemma {:induction false} StreamConcat(a: seq<nat>, b: seq<nat>, w: nat)
    ensures Stream(a + b, w) == Stream(a, w) + Stream(b, w)
  {
    if a == [] {
      assert a + b == b;
    } else {
      assert (a + b)[1..] == a[1..] + b;
      StreamConcat(a[1..], b, w);
    }
  }

  lemma StreamOne(v: nat, w: nat)
    ensures Stream([v], w) == Bits(v, w)
  {
    assert [v][1..] == [];
  }

  predicate Words(vs: seq<nat>, w: nat) {
    forall i :: 0 <= i < |vs| ==> vs[i] < Pow2(w)
  }

  /** Streams of words that agree as far as the shorter leftover goes hold the same words. */
  lemma {:induction false} StreamInjective(a: seq<nat>, x: seq<bool>, b: seq<nat>, y: seq<bool>, w: nat)
    requires Words(a, w) && Words(b, w) && |x| < w && |y| < w
    requires Stream(a, w) + x == Stream(b, w) + y
    ensures a == b && x == y
    decreases a
  {
    hide Bits, Pow2, Stream;
    if a == [] || b == [] {
      NoWords(w);
      assert [] + x == x && [] + y == y;
      if a != [] {
        FirstWord(a, x, w);
      } else if b != [] {
        FirstWord(b, y, w);
      }
    } else {
      FirstWord(a, x, w);
      FirstWord(b, y, w);
      BitsInjective(a[0], b[0], w);
      StreamInjective(a[1..], x, b[1..], y, w);
      assert a == [a[0]] + a[1..] && b == [b[0]] + b[1..];
    }
  }

  lemma FirstWord(a: seq<nat>, x: seq<bool>, w: nat)
    requires a != []
    ensures var s := Stream(a, w) + x; |s| >= w && s[..w] == Bits(a[0], w) && s[w..] == Stream(a[1..], w) + x
  {
    hide Bits;
    CutAfter(Bits(a[0], w), Stream(a[1..], w), x);
  }

  lemma CutAfter(p: seq<bool>, q: seq<bool>, x: seq<bool>)
    ensures (p + q + x)[..|p|] == p && (p + q + x)[|p|..] == q + x
  {
  }

  lemma NoWords(w: nat)
    ensures Stream([], w) == []
  {
  }
}
