/** float64 as far as the codec looks at it. The text of finite numbers is a library matter
    (strconv.FormatFloat and strconv.ParseFloat) and is a parameter of the codec. */
module Floats {
  import opened Wire

  /** The bit patterns of finite 64-bit floats: the exponent bits are not all ones. */
  type FiniteBits = b: int |
    0 <= b < 0x1_0000_0000_0000_0000 && b % 0x8000_0000_0000_0000 < 0x7FF0_0000_0000_0000

  /** All NaNs are one value here: the codec writes and reads them all as "nan". */
  datatype Float = NaN | PosInf | NegInf | Finite(bits: FiniteBits)

  /** FormatFloat(f, 'g', -1, 64) on finite floats, and ParseFloat(s, 64). */
  datatype FloatText = FloatText(format: FiniteBits -> bytes, parse: bytes -> Option<Float>)

  const NAN: bytes := [110, 97, 110]
  const INF: bytes := [105, 110, 102]
  const NEG_INF: bytes := [45, 105, 110, 102]

  /** What the round trip needs of the library: a formatted finite float parses back to itself,
      and its text has no newline and is not one of the three special words. */
  ghost predicate Faithful(ft: FloatText) {
    forall b: FiniteBits ::
      var text := ft.format(b);
      ft.parse(text) == Some(Finite(b)) && LF !in text && text != NAN && text != INF && text != NEG_INF
  }

  function FormatDouble(ft: FloatText, f: Float): bytes {
    match f
    case NaN => NAN
    case PosInf => INF
    case NegInf => NEG_INF
    case Finite(b) => ft.format(b)
  }

  function ParseDouble(ft: FloatText, s: bytes): Option<Float> {
    if s == INF then Some(PosInf)
    else if s == NEG_INF then Some(NegInf)
    else if s == NAN then Some(NaN)
    else ft.parse(s)
  }

  lemma FormatDoubleParses(ft: FloatText, f: Float)
    requires Faithful(ft)
    ensures ParseDouble(ft, FormatDouble(ft, f)) == Some(f)
    ensures LF !in FormatDouble(ft, f)
  {
    match f
    case Finite(b) => var text := ft.format(b);
    case _ =>
  }
}
