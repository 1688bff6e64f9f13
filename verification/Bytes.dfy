/** Octets and the network byte order of signed integers (net/include/xendian.h). */
module Bytes {

  type Byte = x: int | 0 <= x < 256

  type Bytes = seq<Byte>

  /** The number of values of an integer that is `width` octets wide. */
  function Range(width: nat): (p: nat)
    ensures p > 0 && (width > 0 ==> p % 2 == 0)
  {
    if width == 0 then 1 else 256 * Range(width - 1)
  }

  predicate Fits(v: int, width: nat) {
    0 <= 2 * v + Range(width) < 2 * Range(width)
  }

  /** Two's complement octets of `v`, most significant octet first. */
  function Encode(v: int, width: nat): (b: Bytes)
    ensures |b| == width
    decreases width
  {
    if width == 0 then [] else Encode(v / 256, width - 1) + [v % 256]
  }

  function Unsigned(b: Bytes): nat {
    if b == [] then 0 else 256 * Unsigned(b[..|b| - 1]) + b[|b| - 1]
  }

  function Decode(b: Bytes): int {
    var u := Unsigned(b);
    if 2 * u >= Range(|b|) then u - Range(|b|) else u
  }

  lemma DivMod(v: int, p: int)
    requires p > 0
    ensures v == p * (v / p) + v % p && 0 <= v % p < p
  {
  }

  lemma MulAway(p: int, d: int)
    requires p > 0
    ensures d >= 1 ==> p * d >= p
    ensures d <= -1 ==> p * d <= -p
  {
  }

  lemma UniqueDivMod(q: int, r: int, p: int, v: int)
    requires p > 0 && v == p * q + r && 0 <= r < p
    ensures v / p == q && v % p == r
  {
    DivMod(v, p);
    var d := v / p - q;
    assert p * d == p * (v / p) - p * q;
    MulAway(p, d);
  }

  lemma DivDiv(v: int, p: int)
    requires p > 0
    ensures v / (256 * p) == v / 256 / p
    ensures v % (256 * p) == 256 * (v / 256 % p) + v % 256
  {
    DivMod(v / 256, p);
    DivMod(v, 256);
    var q := v / 256 / p;
    assert (256 * p) * q == 256 * (p * q);
    UniqueDivMod(q, 256 * (v / 256 % p) + v % 256, 256 * p, v);
  }

  lemma {:induction false} UnsignedEncode(v: int, width: nat)
    ensures Unsigned(Encode(v, width)) == v % Range(width)
    decreases width
  {
    if width == 0 {
    } else {
      UnsignedEncode(v / 256, width - 1);
      assert (Encode(v / 256, width - 1) + [v % 256])[..width - 1] == Encode(v / 256, width - 1);
      DivDiv(v, Range(width - 1));
    }
  }

  /** Reading back an integer that fits gives the integer that was written. */
  lemma DecodeEncode(v: int, width: nat)
    requires Fits(v, width)
    ensures Decode(Encode(v, width)) == v
  {
    UnsignedEncode(v, width);
    var p := Range(width);
    if v >= 0 {
      UniqueDivMod(0, v, p, v);
    } else {
      UniqueDivMod(-1, v + p, p, v);
    }
  }

  lemma {:induction false} UnsignedBound(b: Bytes)
    ensures Unsigned(b) < Range(|b|)
  {
    if b == [] {
    } else {
      UnsignedBound(b[..|b| - 1]);
    }
  }

  lemma {:induction false} EncodeUnsigned(b: Bytes, v: int, k: int)
    requires v == Unsigned(b) + k * Range(|b|)
    ensures Encode(v, |b|) == b
  {
    if b == [] {
    } else {
      var init, last := b[..|b| - 1], b[|b| - 1];
      var q := Unsigned(init) + k * Range(|b| - 1);
      assert v == 256 * q + last by {
        assert k * (256 * Range(|b| - 1)) == 256 * (k * Range(|b| - 1));
      }
      UniqueDivMod(q, last, 256, v);
      EncodeUnsigned(init, q, k);
      assert b == init + [last];
    }
  }

  /** Every octet string is the encoding of exactly the integer it decodes to. */
  lemma EncodeDecode(b: Bytes)
    ensures Fits(Decode(b), |b|) && Encode(Decode(b), |b|) == b
  {
    UnsignedBound(b);
    var v := Decode(b);
    assert Fits(v, |b|);
    if 2 * Unsigned(b) >= Range(|b|) {
      EncodeUnsigned(b, v, -1);
    } else {
      EncodeUnsigned(b, v, 0);
    }
  }

  /** Appendix B of RFC 791: octet i carries the i-th most significant eight bits. */
  lemma {:induction false} NetworkOrder(v: int, width: nat, i: nat)
    requires i < width
    ensures Encode(v, width)[i] == v / Range(width - 1 - i) % 256
    decreases width
  {
    if i == width - 1 {
    } else {
      NetworkOrder(v / 256, width - 1, i);
      DivDiv(v, Range(width - 2 - i));
      assert Range(width - 1 - i) == 256 * Range(width - 2 - i);
    }
  }
}
