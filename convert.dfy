/** `Cn2Int.convert`: routes a numeral string to one of the parsers by the code point of
    its first character. */
module Convert {
  import opened Glyphs
  import opened Roman
  import opened ChineseFormat
  import opened FormatValues
  import opened ChineseParse
  import opened RoundTrip

  /** The three parsers `convert` can hand a string to. */
  datatype Route = ArabicRoute | RomanRoute | ChineseRoute

  /** Code points up to 57 ('9') go to arab2int, up to 88 ('X') to roman2int, all others
      to chinese2int. */
  function RouteOf(c: char): Route {
    if c as int <= 57 then ArabicRoute else if c as int <= 88 then RomanRoute else ChineseRoute
  }

  /** The strings `convert` can look up without a KeyError: a Roman string of known
      letters, or a Chinese numeral of known glyphs. */
  predicate Convertible(s: string) {
    |s| >= 1
    && (RouteOf(s[0]) == RomanRoute ==> IsRomanInputWord(s))
    && (RouteOf(s[0]) == ChineseRoute ==> IsNumeral(s))
  }

  /** convert. `None` stands for the arab2int route, which is not part of this model. */
  function Convert(s: string): (r: Option<Result<int>>)
    requires Convertible(s)
    ensures r.None? <==> RouteOf(s[0]) == ArabicRoute
  {
    match RouteOf(s[0])
    case ArabicRoute => None
    case RomanRoute => Some(RomanNumeral(s))
    case ChineseRoute =>
      match Chinese(Values(s))
      case Ok(n) => Some(Ok(n))
      case Err(f) => Some(Err(f))
  }

  /** Every Roman letter, in either case, that roman2int knows sits above '9'; only the
      upper-case ones sit at or below 'X'. */
  lemma RomanLettersRoute(c: char)
    requires IsRomanInput(c)
    ensures RouteOf(c) == (if IsRomanLetter(c) then RomanRoute else ChineseRoute)
  {
  }

  /** Every glyph of `Table.chinese2int` sits above 'X'. */
  lemma GlyphsRoute(c: char)
    requires IsGlyph(c)
    ensures RouteOf(c) == ChineseRoute
  {
  }

  /** A string that starts with a lower-case Roman letter is sent to chinese2int, which
      does not know that letter: convert cannot read it. */
  lemma LowerCaseRomanNotConvertible(s: string)
    requires |s| >= 1 && IsRomanInput(s[0]) && !IsRomanLetter(s[0])
    ensures !Convertible(s)
  {
    RomanLettersRoute(s[0]);
    assert !IsGlyph(s[0]);
  }

  /** convert(int2roman(n)) == n on [1, 4000). */
  lemma ConvertRoman(n: nat)
    requires 1 <= n < 4000
    ensures Convertible(RomanOf(n)) && Convert(RomanOf(n)) == Some(Ok(n))
  {
    RomanRoundTrip(n);
    RomanLettersRoute(RomanOf(n)[0]);
  }

  /** convert(int2chinese(n)) == n on [0, 10^12), in the traditional form with any case and
      any use_liang, and in the enumeration form with any case. */
  lemma ConvertChinese(n: nat, lower: bool, enumeration: bool, useLiang: bool)
    requires n < LIMIT
    ensures var s := Render(n, lower, enumeration, useLiang, false, false);
      Convertible(s) && Convert(s) == Some(Ok(n))
  {
    var s := Render(n, lower, enumeration, useLiang, false, false);
    if enumeration {
      EnumerationRoundTrip(n, lower);
      assert s == Render(n, lower, true, false, false, false);
    } else {
      DefaultRoundTrip(n, lower, useLiang);
    }
    GlyphsRoute(s[0]);
  }
}
