/** Bytes and the network-order integers of the byte buffer. */
module Bytes {

  type Byte = b: int | 0 <= b < 256

  function Pow256(w: nat): (p: int)
    ensures p >= 1
  {
    if w == 0 then 1 else 256 * Pow256(w - 1)
  }

  /** The `w` bytes of `x`, most significant first. */
  function ToBigEndian(x: int, w: nat): (s: seq<Byte>)
    requires 0 <= x < Pow256(w)
    ensures |s| == w
  {
    if w == 0 then [] else ToBigEndian(x / 256, w - 1) + [x % 256]
  }

  function FromBigEndian(s: seq<Byte>): (x: int)
    ensures 0 <= x < Pow256(|s|)
  {
    if s == [] then 0 else 256 * FromBigEndian(s[..|s| - 1]) + s[|s| - 1]
  }

  lemma {:induction false} FromTo(x: int, w: nat)
    requires 0 <= x < Pow256(w)
    ensures FromBigEndian(ToBigEndian(x, w)) == x
  {
    if w > 0 {
      FromTo(x / 256, w - 1);
      assert ToBigEndian(x, w)[..w - 1] == ToBigEndian(x / 256, w - 1);
    }
  }

  lemma {:induction false} ToFrom(s: seq<Byte>)
    ensures ToBigEndian(FromBigEndian(s), |s|) == s
  {
    if s != [] {
      var front, last := s[..|s| - 1], s[|s| - 1];
      ToFrom(front);
      var high := FromBigEndian(front);
      assert (256 * high + last) / 256 == high && (256 * high + last) % 256 == last;
      assert s == front + [last];
    }
  }

  /** The signed integers of `w` bytes. */
  predicate Fits(x: int, w: nat) {
    w > 0 && -(Pow256(w) / 2) <= x < Pow256(w) / 2
  }

  /** A signed integer in network order, in two's complement. */
  function EncodeInt(x: int, w: nat): (s: seq<Byte>)
    requires Fits(x, w)
    ensures |s| == w
  {
    ToBigEndian(if x < 0 then x + Pow256(w) else x, w)
  }

  function DecodeInt(s: seq<Byte>): (x: int)
    requires s != []
    ensures Fits(x, |s|)
  {
    var u := FromBigEndian(s);
    EvenPower(|s|);
    if u >= Pow256(|s|) / 2 then u - Pow256(|s|) else u
  }

  lemma EvenPower(w: nat)
    requires w > 0
    ensures Pow256(w) == 2 * (Pow256(w) / 2)
  {
  }

  /** Integers of every width survive the trip through the wire format, both ways. */
  lemma IntRoundTrip(x: int, w: nat)
    requires Fits(x, w)
    ensures DecodeInt(EncodeInt(x, w)) == x
  {
    EvenPower(w);
    FromTo(if x < 0 then x + Pow256(w) else x, w);
  }

  lemma IntBytesRoundTrip(s: seq<Byte>)
    requires s != []
    ensures EncodeInt(DecodeInt(s), |s|) == s
  {
    EvenPower(|s|);
    ToFrom(s);
  }

  lemma DivDiv(x: int, a: int, b: int)
    requires a > 0 && b > 0
    ensures a * b > 0 && x / a / b == x / (a * b)
  {
    var q, r := x / a / b, x / a % b;
    assert x == (q * b + r) * a + x % a == q * (a * b) + (r * a + x % a);
    assert r * a + x % a < a * b by {
      assert r * a <= (b - 1) * a == a * b - a;
    }
    Quotient(x, a * b, q, r * a + x % a);
  }

  lemma Multiple(e: int, d: int)
    requires d > 0
    ensures (e >= 1 ==> e * d >= d) && (e <= -1 ==> e * d <= -d)
  {
    assert e * d == d + (e - 1) * d == -d + (e + 1) * d;
  }

  lemma Quotient(x: int, d: int, q: int, r: int)
    requires 0 <= r < d && x == q * d + r
    ensures x / d == q
  {
    var e := x / d - q;
    Multiple(e, d);
    assert (x / d) * d + x % d == x;
    assert e * d == (x / d) * d - q * d;
    assert -d < e * d < d;
  }

  /** The most significant byte comes first: byte `k` is the digit of weight 256 to the `w - 1 - k`. */
  lemma {:induction false} DigitAt(x: int, w: nat, k: nat)
    requires 0 <= x < Pow256(w) && k < w
    ensures ToBigEndian(x, w)[k] == x / Pow256(w - 1 - k) % 256
  {
    if k < w - 1 {
      DigitAt(x / 256, w - 1, k);
      DivDiv(x, 256, Pow256(w - 2 - k));
    }
  }

  lemma {:induction false} PowersMultiply(a: nat, b: nat)
    ensures Pow256(a + b) == Pow256(a) * Pow256(b)
  {
    if a > 0 {
      PowersMultiply(a - 1, b);
      assert Pow256(a + b) == 256 * Pow256(a - 1 + b);
    }
  }

  /** So the wire holds the digits of every number the type has; division rounds down, which makes the
      digits of a negative number those of its two's complement. */
  lemma IntDigitAt(x: int, w: nat, k: nat)
    requires Fits(x, w) && k < w
    ensures EncodeInt(x, w)[k] == x / Pow256(w - 1 - k) % 256
  {
    var j := w - 1 - k;
    EvenPower(w);
    DigitAt(if x < 0 then x + Pow256(w) else x, w, k);
    if x < 0 {
      PowersMultiply(k + 1, j);
      Shifted(x, Pow256(j), Pow256(k));
    }
  }

  lemma Shifted(x: int, d: int, n: int)
    requires d > 0
    ensures (x + 256 * n * d) / d % 256 == x / d % 256
  {
    assert x + 256 * n * d == (x / d + 256 * n) * d + x % d;
    Quotient(x + 256 * n * d, d, x / d + 256 * n, x % d);
    assert (x / d + 256 * n) % 256 == x / d % 256;
  }
}
