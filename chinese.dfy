/** `chinese2int`: picks the enumeration or the traditional reading of a Chinese numeral
    from its first two glyphs. */
module ChineseParse {
  import opened Glyphs
  import opened ChineseEnumeration
  import opened ChineseTraditional
  import TraditionalFacts

  /** chinese2int on the glyph values `vs`: one glyph is its own value; a first glyph worth
      more than 十 is a format error; two leading digits try the enumeration reading first
      and fall back to the traditional one on a format error only (`except ValueError`
      lets `OverflowError` through); anything else is read traditionally. */
  function Chinese(vs: seq<nat>): Result<nat>
    requires |vs| >= 1
  {
    if |vs| == 1 then Ok(vs[0])
    else if vs[0] > 10 then Err(InvalidFormat)
    else if vs[0] <= 9 && vs[1] <= 9 then
      match Enumeration(vs)
      case Err(InvalidFormat) => Traditional(vs)
      case other => other
    else Traditional(vs)
  }

  /** chinese2int. */
  method ChineseToInt(s: string) returns (r: Result<nat>)
    requires IsNumeral(s) && |s| >= 1
    ensures r == Chinese(Values(s))
  {
    if |s| >= 2 {
      var a, b := Value(s[0]), Value(s[1]);
      if a > 10 {
        return Err(InvalidFormat);
      }
      if (if a >= b then a else b) <= 9 {
        r := ParseEnumeration(s);
        if r == Err(InvalidFormat) {
          r := ParseTraditional(Values(s));
        }
      } else {
        r := ParseTraditional(Values(s));
      }
    } else {
      r := Ok(Value(s[0]));
    }
  }

  /** A single glyph is read as its table value: 十 is 10, 亿 is 10^8. */
  lemma SingleGlyph(c: char)
    requires IsGlyph(c)
    ensures Chinese(Values([c])) == Ok(Value(c))
  {
  }

  /** Every value chinese2int returns is below 10^12 (一万亿). */
  lemma ChineseBelowLimit(vs: seq<nat>)
    requires |vs| >= 1 && AreGlyphValues(vs)
    ensures Chinese(vs).Ok? ==> Chinese(vs).value < LIMIT
  {
    if |vs| >= 2 && vs[0] <= 10 {
      TraditionalFacts.TraditionalBelowLimit(vs);
      if Enumeration(vs).Ok? {
        EnumerationBelowLimit(vs);
      }
    }
  }

  /** Digit strings of two to twelve glyphs are read as enumerations: 一二三 is 123. */
  lemma DigitStringsAreEnumerations(vs: seq<nat>)
    requires 2 <= |vs| <= 12 && DigitsFrom(vs, 0)
    ensures Chinese(vs) == Ok(EnumValue(vs))
  {
    EnumerationAccepted(vs);
  }

  /** A digit string longer than twelve glyphs with a non-zero glyph above the twelve
      lowest places stays out of range: the traditional reading is not tried. */
  lemma LongDigitStringOverflows(vs: seq<nat>, k: nat)
    requires |vs| >= 13 && DigitsFrom(vs, 0) && k < |vs| - 12 && vs[k] != 0
    ensures Chinese(vs) == Err(OutOfRange)
  {
    EnumerationOverflow(vs);
  }

  /** A numeral of two glyphs or more that starts with 百, 千, 万 or 亿 is a format error. */
  lemma LeadingMagnitudeRejected(vs: seq<nat>)
    requires |vs| >= 2 && IsGlyphValue(vs[0]) && vs[0] >= 100
    ensures Chinese(vs) == Err(InvalidFormat)
  {
  }

  /** A numeral that starts with two digits and is not an enumeration is read
      traditionally. */
  lemma TraditionalFallback(vs: seq<nat>)
    requires |vs| >= 2 && vs[0] <= 9 && vs[1] <= 9 && Enumeration(vs) == Err(InvalidFormat)
    ensures Chinese(vs) == Traditional(vs)
  {
  }

  /** 零零零三百六十一 starts with two digits, fails as an enumeration and is read
      traditionally. */
  lemma ZeroPaddedReading()
    ensures Chinese([0, 0, 0, 3, 100, 6, 10, 1]) == Ok(361)
  {
    var vs := [0, 0, 0, 3, 100, 6, 10, 1];
    EnumerationFormatError(vs, 4);
    TraditionalFallback(vs);
    TraditionalFacts.ZeroPadded();
  }

  /** 一二三 is an enumeration. */
  lemma EnumerationReading()
    ensures Chinese([1, 2, 3]) == Ok(123)
  {
    EnumerationAccepted([1, 2, 3]);
    assert [1, 2, 3][..2] == [1, 2] && [1, 2][..1] == [1] && [1][..0] == [];
  }
}
