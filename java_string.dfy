/**
 * `String.hashCode` as the Java platform defines it: the polynomial
 * s[0]*31^(n-1) + ... + s[n-1] over the string's UTF-16 code units, in
 * 32-bit two's-complement arithmetic.
 */
module JavaString {

  const TWO_POW_32: int := 0x1_0000_0000
  const TWO_POW_31: int := 0x8000_0000

  /** The UTF-16 code units of one character: one unit, or a surrogate pair. */
  function CharUnits(c: char): (units: seq<int>)
    ensures 1 <= |units| <= 2
    ensures forall i :: 0 <= i < |units| ==> 0 <= units[i] < 0x1_0000
    ensures |units| == 1 <==> (c as int) < 0x1_0000
    ensures |units| == 1 ==> units[0] == c as int
    ensures |units| == 2 ==> 0x1_0000 + (units[0] - 0xD800) * 0x400 + (units[1] - 0xDC00) == c as int
  {
    var v := c as int;
    if v < 0x1_0000 then [v]
    else [0xD800 + (v - 0x1_0000) / 0x400, 0xDC00 + (v - 0x1_0000) % 0x400]
  }

  /** The UTF-16 encoding of a string, the `char[]` a Java `String` holds. */
  function Utf16(s: string): (units: seq<int>)
    ensures |units| >= |s|
    ensures forall i :: 0 <= i < |units| ==> 0 <= units[i] < 0x1_0000
  {
    if s == [] then [] else Utf16(s[..|s| - 1]) + CharUnits(s[|s| - 1])
  }

  /** The hash loop `h = 31 * h + unit`, wrapping at every step (as an unsigned 32-bit value). */
  function WrappedHash(units: seq<int>): (h: int)
    ensures 0 <= h < TWO_POW_32
  {
    if units == [] then 0 else (31 * WrappedHash(units[..|units| - 1]) + units[|units| - 1]) % TWO_POW_32
  }

  /** The same polynomial over unbounded integers. */
  function Polynomial(units: seq<int>): int
  {
    if units == [] then 0 else 31 * Polynomial(units[..|units| - 1]) + units[|units| - 1]
  }

  /** Reinterprets an unsigned 32-bit value as a Java `int`. */
  function ToInt32(u: int): (r: int)
    requires 0 <= u < TWO_POW_32
    ensures -TWO_POW_31 <= r < TWO_POW_31
    ensures r % TWO_POW_32 == u
  {
    if u < TWO_POW_31 then u else u - TWO_POW_32
  }

  /** `String.hashCode()`. */
  function HashCode(s: string): (h: int)
    ensures -TWO_POW_31 <= h < TWO_POW_31
  {
    ToInt32(WrappedHash(Utf16(s)))
  }

  lemma ModMultiple(x: int, q: int)
    ensures (x + q * TWO_POW_32) % TWO_POW_32 == x % TWO_POW_32
  {
  }

  /** Wrapping at every step gives the unbounded polynomial reduced once, modulo 2^32. */
  lemma {:induction false} WrappedHashIsPolynomialMod(units: seq<int>)
    ensures WrappedHash(units) == Polynomial(units) % TWO_POW_32
  {
    if units != [] {
      var init := units[..|units| - 1];
      var last := units[|units| - 1];
      WrappedHashIsPolynomialMod(init);
      var p := Polynomial(init);
      var q := p / TWO_POW_32;
      assert p == q * TWO_POW_32 + WrappedHash(init);
      assert 31 * p + last == 31 * WrappedHash(init) + last + (31 * q) * TWO_POW_32;
      ModMultiple(31 * WrappedHash(init) + last, 31 * q);
    }
  }

  /** On text made of characters of the Basic Multilingual Plane, the code units are the characters. */
  lemma {:induction false} Utf16OfBasicPlane(s: string)
    requires forall i :: 0 <= i < |s| ==> (s[i] as int) < 0x1_0000
    ensures |Utf16(s)| == |s|
    ensures forall i :: 0 <= i < |s| ==> Utf16(s)[i] == s[i] as int
  {
    if s != [] {
      Utf16OfBasicPlane(s[..|s| - 1]);
    }
  }
}
