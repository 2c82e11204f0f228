/** The `float` payload of a `json` value. Only its IEEE 754 single-precision bit pattern
    and the comparison `==` on it are modelled; the numeric conversions and arithmetic the
    C++ takes from the C library are parameters gathered in `FloatLib`. */
module Floats {
  import opened Text

  /** A binary32 value, by its bit pattern. */
  datatype Float = Float(bits: bv32)

  predicate IsNaN(x: Float) {
    (x.bits >> 23) & 0xFF == 0xFF && x.bits & 0x7F_FFFF != 0
  }

  /** `+0.0` or `-0.0`. */
  predicate IsZero(x: Float) {
    x.bits & 0x7FFF_FFFF == 0
  }

  /** `==` on two `float`s: a NaN equals nothing, the two zeros are equal, and otherwise
      equal values are equal bit patterns. */
  function FloatEq(x: Float, y: Float): (r: bool)
    ensures r ==> !IsNaN(x) && !IsNaN(y)
    ensures IsZero(x) && IsZero(y) ==> r
    ensures x == y && !IsNaN(x) ==> r
    ensures r ==> x == y || (IsZero(x) && IsZero(y))
  {
    !IsNaN(x) && !IsNaN(y) && (x.bits == y.bits || (IsZero(x) && IsZero(y)))
  }

  lemma FloatEqSymmetric(x: Float, y: Float)
    ensures FloatEq(x, y) == FloatEq(y, x)
  {
  }

  /** What the C++ obtains from its C library and floating-point unit:
      - `atof`: `std::atof` on a number token, then narrowed to `float` (`parse`);
      - `show`: the text `stream << f_val` writes (`stringify`);
      - `add`: `float` addition (`+=` on a float receiver);
      - `ofInt`: the conversion of an `int` operand to `float`;
      - `toInt`: the truncating conversion back to `int` (`+=` on an int receiver). */
  datatype FloatLib = FloatLib(
    atof: string -> Float,
    show: Float -> string,
    add: (Float, Float) -> Float,
    ofInt: Int32 -> Float,
    toInt: Float -> Int32)
}
