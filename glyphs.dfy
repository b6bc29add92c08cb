/** The constant glyph tables of cn2int (class `Table`) and the failure
    datatypes shared by the converters. */
module Glyphs {

  /** The two exceptions the converters raise: `ValueError` and `OverflowError`. */
  datatype Failure = InvalidFormat | OutOfRange

  datatype Result<T> = Ok(value: T) | Err(failure: Failure)

  /** `None` is the converters' "outside the supported range" answer. */
  datatype Option<T> = None | Some(value: T)

  const WAN: nat := 10000
  const YI: nat := 100000000
  /** The exclusive ceiling of the Chinese converters, the source's `1e12`. */
  const LIMIT: nat := 1000000000000

  /** Membership in the key set of `Table.chinese2int`. */
  predicate IsGlyph(c: char) {
    match c
    case '〇' | '一' | '二' | '三' | '四' | '五' | '六' | '七' | '八' | '九' => true
    case '十' | '百' | '千' | '万' | '亿' => true
    case '零' | '壹' | '贰' | '叁' | '肆' | '伍' | '陆' | '柒' | '捌' | '玖' => true
    case '拾' | '佰' | '仟' | '萬' | '億' | '两' => true
    case _ => false
  }

  /** A string the Chinese parsers may look up glyph by glyph. */
  predicate IsNumeral(s: string) {
    forall i :: 0 <= i < |s| ==> IsGlyph(s[i])
  }

  /** `Table.chinese2int`: every glyph is a digit (0-9) or a magnitude. */
  function Value(c: char): (v: nat)
    requires IsGlyph(c)
    ensures v <= 9 || v == 10 || v == 100 || v == 1000 || v == WAN || v == YI
    ensures v == 0 <==> c == '〇' || c == '零'
  {
    match c
    case '〇' => 0
    case '一' => 1
    case '二' => 2
    case '三' => 3
    case '四' => 4
    case '五' => 5
    case '六' => 6
    case '七' => 7
    case '八' => 8
    case '九' => 9
    case '十' => 10
    case '百' => 100
    case '千' => 1000
    case '万' => WAN
    case '亿' => YI
    case '零' => 0
    case '壹' => 1
    case '贰' => 2
    case '叁' => 3
    case '肆' => 4
    case '伍' => 5
    case '陆' => 6
    case '柒' => 7
    case '捌' => 8
    case '玖' => 9
    case '拾' => 10
    case '佰' => 100
    case '仟' => 1000
    case '萬' => WAN
    case '億' => YI
    case '两' => 2
  }

  /** The glyph values of a numeral, in order. */
  function Values(s: string): (vs: seq<nat>)
    requires IsNumeral(s)
    ensures |vs| == |s|
    ensures forall i :: 0 <= i < |s| ==> vs[i] == Value(s[i])
  {
    seq(|s|, i requires 0 <= i < |s| => Value(s[i]))
  }

  /** The values a glyph can have. */
  predicate IsGlyphValue(v: nat) {
    v <= 9 || v == 10 || v == 100 || v == 1000 || v == WAN || v == YI
  }

  predicate AreGlyphValues(vs: seq<nat>) {
    forall i :: 0 <= i < |vs| ==> IsGlyphValue(vs[i])
  }

  lemma ValuesAreGlyphValues(s: string)
    requires IsNumeral(s)
    ensures AreGlyphValues(Values(s))
  {
  }

  /** 万 and 亿. */
  predicate IsDelimiter(v: nat) {
    v == WAN || v == YI
  }

  /** 十, 百 and 千. */
  predicate IsUnit(v: nat) {
    v == 10 || v == 100 || v == 1000
  }

  predicate IsDigit(v: nat) {
    1 <= v <= 9
  }

  lemma ValuesConcat(x: string, y: string)
    requires IsNumeral(x) && IsNumeral(y)
    ensures IsNumeral(x + y) && Values(x + y) == Values(x) + Values(y)
  {
    assert IsNumeral(x + y) by {
      forall i | 0 <= i < |x + y| ensures IsGlyph((x + y)[i]) {
        if i < |x| { assert (x + y)[i] == x[i]; } else { assert (x + y)[i] == y[i - |x|]; }
      }
    }
  }

  /** `str.lstrip`: drop the longest prefix of glyphs taken from `cs`. */
  function LStrip(s: string, cs: set<char>): (r: string)
    ensures |r| <= |s| && r == s[|s| - |r|..]
    ensures r == [] || r[0] !in cs
    ensures forall i :: 0 <= i < |s| - |r| ==> s[i] in cs
  {
    if s != [] && s[0] in cs then LStrip(s[1..], cs) else s
  }

  /** `str.rstrip`: drop the longest suffix of glyphs taken from `cs`. */
  function RStrip(s: string, cs: set<char>): (r: string)
    ensures |r| <= |s| && r == s[..|r|]
    ensures r == [] || r[|r| - 1] !in cs
    ensures forall i :: |r| <= i < |s| ==> s[i] in cs
  {
    if s != [] && s[|s| - 1] in cs then RStrip(s[..|s| - 1], cs) else s
  }

  // Rendering tables used by int2chinese.
  const Lower: string := "零一二三四五六七八九"
  const LowerEnumeration: string := "〇一二三四五六七八九"
  const LowerUnit: seq<string> := ["", "十", "百", "千"]
  const LowerDelimiter: seq<string> := ["", "万", "亿"]
  const UpperEnumeration: string := "零壹贰叁肆伍陆柒捌玖"
  const Upper: string := "零壹贰叁肆伍陆柒捌玖"
  const UpperUnit: seq<string> := ["", "拾", "佰", "仟"]
  const UpperDelimiter: seq<string> := ["", "萬", "億"]

  function Pow10(k: nat): (r: nat)
    ensures r >= 1
  {
    if k == 0 then 1 else 10 * Pow10(k - 1)
  }

  /** 10^4 is one 万. */
  lemma Pow10Four()
    ensures Pow10(4) == WAN
  {
    assert Pow10(2) == 100;
  }

  /** Every rendering table renders digit `d` as a glyph worth `d`. */
  lemma DigitGlyphs(d: nat)
    requires d <= 9
    ensures IsGlyph(Lower[d]) && Value(Lower[d]) == d
    ensures IsGlyph(Upper[d]) && Value(Upper[d]) == d
    ensures IsGlyph(LowerEnumeration[d]) && Value(LowerEnumeration[d]) == d
    ensures IsGlyph(UpperEnumeration[d]) && Value(UpperEnumeration[d]) == d
  {
    if d == 0 {} else if d == 1 {} else if d == 2 {} else if d == 3 {} else if d == 4 {}
    else if d == 5 {} else if d == 6 {} else if d == 7 {} else if d == 8 {} else {}
  }

  /** The unit glyph of place `i` (1..3) is one glyph worth 10^i, in both cases. */
  lemma UnitGlyphs(i: nat)
    requires 1 <= i <= 3
    ensures |LowerUnit[i]| == 1 && IsGlyph(LowerUnit[i][0]) && Value(LowerUnit[i][0]) == Pow10(i)
    ensures |UpperUnit[i]| == 1 && IsGlyph(UpperUnit[i][0]) && Value(UpperUnit[i][0]) == Pow10(i)
  {
    if i == 1 {} else if i == 2 {} else {}
  }

  /** The delimiter glyph of group `i` (1..2) is one glyph worth 10^(4i). */
  lemma DelimiterGlyphs(i: nat)
    requires 1 <= i <= 2
    ensures |LowerDelimiter[i]| == 1 && IsGlyph(LowerDelimiter[i][0])
    ensures |UpperDelimiter[i]| == 1 && IsGlyph(UpperDelimiter[i][0])
    ensures Value(LowerDelimiter[i][0]) == Value(UpperDelimiter[i][0]) == if i == 1 then WAN else YI
  {
  }
}
