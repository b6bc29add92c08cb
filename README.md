# cn2int in Dafny

A model of `cn2int.py`: the class `Cn2Int`, which converts between integers and
numeral strings, and the constant tables of class `Table` it reads. Four parts are
modelled.

- **Chinese numerals to integers.** `chinese2int` picks a reading from the first two
  glyphs. `chinese2int_enumeration` reads digit-by-digit numerals (一二三).
  `chinese2int_traditional` reads place-value numerals (三百二十一, 六万万, 一百二)
  right to left.
- **Integers to Chinese numerals.** `int2chinese` splits a number below 10^12 into
  groups of four digits. It writes each group with `smallint2chinese`, bridges gaps
  with `int2chinese_fill_zero`, and applies the style switches `lower`,
  `enumeration`, `use_liang`, `use_simple_ten` and `use_simple_zero_tail`.
- **Roman numerals.** `int2roman` is driven by a table. `roman2int` reads the letters
  subtractively and then checks the result by re-encoding it.
- **`convert`.** It sends a string to one of the parsers by the code point of its
  first character.

The code is modelled in its own form:

- The loops (`chinese2int_traditional`, `chinese2int_enumeration`, `int2chinese`,
  `smallint2chinese`, `int2roman`, `roman2int`) are methods with `while` or `for`
  loops and invariants.
- Each method is proved equal to a recursive specification function. The properties
  are then proved about that function.
- The conditional-only helpers (`convert`, `chinese2int`, `int2chinese_fill_zero`,
  `int2chinese_simple_ten`, `int2chinese_simple_zero_tail`, `Table`) are functions.
- The class has no state, so there is no Dafny class.
- `ValueError` becomes `Err(InvalidFormat)`, `OverflowError` becomes `Err(OutOfRange)`,
  and Python's `None` becomes `None` of an `Option`.

The Chinese parsers look up every glyph in `Table.chinese2int` before using it, so
their grammar is stated over glyph values (`Values(s)`). 两 and 二 are both worth 2,
and the lower- and upper-case tables agree glyph by glyph. So the round trips are
proved once on values and hold for both cases and for `use_liang`.

Files:

- `glyphs.dfy`: tables, glyph values, `str.lstrip`/`str.rstrip`.
- `roman.dfy`: Roman numerals.
- `enumeration.dfy`, `traditional.dfy`: the two Chinese parsers.
- `traditional_facts.dfy`: what the traditional parser accepts and rejects.
- `chinese.dfy`: the dispatcher.
- `format.dfy`: `int2chinese` and its helpers.
- `format_values.dfy`: the values and the shape of what the formatter writes.
- `format_facts.dfy`: the style switches.
- `roundtrip.dfy`: the Chinese round trips.
- `convert.dfy`: `convert`.

Where the docstrings and the code disagree, the model follows the code:

- The class docstring (cn2int.py:79-81) says that failures return -1 or -2. The code
  raises `ValueError` and `OverflowError`.
- The `roman2int` docstring says that case is ignored (cn2int.py:134). The check at
  line 159 compares the original string with the upper-case output of `int2roman`, so
  any lower-case letter is rejected (`Roman.LowerCaseRejected`).
- test.py:106 expects 五十三万千六百零一 to be rejected. The code reads it as 530601
  (`TraditionalFacts.ReadsBareThousand`).

## Model

| member | source | states |
|---|---|---|
| Glyphs.Value | cn2int.py:35-67 | every glyph is worth a digit 0-9, 10, 100, 1000, 万 or 亿, and exactly 〇 and 零 are worth 0 |
| Glyphs.DigitGlyphs | cn2int.py:25-31 | all four digit tables write digit d as one glyph worth d |
| Glyphs.UnitGlyphs | cn2int.py:27-32 | the unit of place i (1..3) is one glyph worth 10^i, in both cases |
| Glyphs.DelimiterGlyphs | cn2int.py:28-33 | the delimiter of group 1 is one glyph worth 万, of group 2 one worth 亿, in both cases |
| Glyphs.LStrip | cn2int.py:347 | `str.lstrip`: the result is a suffix of the input, every glyph removed is in the set, and the first glyph left is not |
| Glyphs.RStrip | cn2int.py:352 | `str.rstrip`: the result is a prefix of the input, every glyph removed is in the set, and the last glyph left is not |
| Roman.IntToRoman | cn2int.py:224-235 | `None` exactly when n <= 0 or n >= 4000; otherwise the thousands, hundreds, tens and units table entries, in that order |
| Roman.PlacesAll | cn2int.py:230-234 | the loop that prepends one table entry per decimal place yields the canonical numeral |
| Roman.EntryFacts | cn2int.py:18-23 | each entry of row i is worth d·10^i read subtractively, starts with a letter below 10^(i+1) and ends with one of at least 10^i |
| Roman.SumOfRomanOf | cn2int.py:150-157 | the subtractive reading of the canonical numeral of n is n |
| Roman.RomanToInt | cn2int.py:146-162 | the loop computes the subtractive reading of the upper-cased string; an accepted result lies in [1, 4000) and re-encodes to exactly the input |
| Roman.RomanAcceptsExactlyCanonical | cn2int.py:159-162 | roman2int returns v if and only if v is in [1, 4000) and the string is the canonical numeral of v |
| Roman.RomanRoundTrip | cn2int.py:130-162 | roman2int(int2roman(n)) == n for every n in [1, 4000) |
| Roman.LowerCaseRejected | cn2int.py:147-160 | a string with a lower-case letter anywhere is rejected |
| Convert.Convert | cn2int.py:94-109 | the Arabic route is taken exactly when the first code point is at most 57 |
| Convert.RomanLettersRoute | cn2int.py:97-101 | an upper-case Roman letter takes the Roman route; a lower-case one falls through to chinese2int |
| Convert.GlyphsRoute | cn2int.py:102-108 | every Chinese glyph takes the Chinese route |
| Convert.LowerCaseRomanNotConvertible | cn2int.py:100-108 | a string that starts with a lower-case Roman letter reaches chinese2int, which cannot look it up |
| Convert.ConvertRoman | cn2int.py:86-109 | convert(int2roman(n)) == n for every n in [1, 4000) |
| Convert.ConvertChinese | cn2int.py:86-109 | convert(int2chinese(n)) == n for every n below 10^12, traditional in either case and with or without 两, or enumerated in either case |
| ChineseEnumeration.ParseEnumeration | cn2int.py:357-379 | the right-to-left loop returns exactly the enumeration reading of the glyph values, its format error and its overflow |
| ChineseEnumeration.ZeroPrefix | cn2int.py:374 | stripping 零 and 〇 from the unread prefix leaves nothing exactly when every glyph there is worth 0 |
| ChineseEnumeration.EnumerationFormatError | cn2int.py:368-369 | a glyph worth more than 9 among the twelve lowest positions is a format error |
| ChineseEnumeration.EnumerationOverflow | cn2int.py:373-375 | with twelve digits at the low end, a non-zero glyph above them is out of range |
| ChineseEnumeration.EnumerationAccepted | cn2int.py:363-379 | digits with only zeros above the twelve lowest positions are read as their decimal value |
| ChineseEnumeration.EnumerationBelowLimit | cn2int.py:373-375 | every accepted enumeration is below 10^12 |
| ChineseEnumeration.EnumValueCons | cn2int.py:371 | a digit d in front of k more digits adds d·10^k |
| ChineseTraditional.Turn | cn2int.py:417-467 | one pass of the loop body computes exactly the step function: digit, unit and delimiter rules and their errors |
| ChineseTraditional.ParseTraditional | cn2int.py:381-475 | the method, with its elided-unit prologue, loop and closing 十 correction, computes exactly the traditional reading |
| ChineseTraditional.DelimiterTimesIsProduct | cn2int.py:439 | the flushed group value is the group times the delimiter |
| TraditionalFacts.TraditionalBelowLimit | cn2int.py:438-456 | every value chinese2int_traditional returns is below 10^12 |
| TraditionalFacts.ScanSettled | cn2int.py:416-467 | the loop keeps the group below its current unit and the total below the current delimiter |
| TraditionalFacts.ScanZeros | cn2int.py:420-421 | a run of 零 leaves every part of the state alone except the last glyph seen |
| TraditionalFacts.RepeatedDigit | cn2int.py:423-435 | two digits with nothing but 零 between them are rejected |
| TraditionalFacts.RepeatedUnit | cn2int.py:457-466 | two of 十百千 with nothing but 零 between them are rejected |
| TraditionalFacts.UnitOrder | cn2int.py:458-461 | within a group, a unit no larger than a unit to its right is rejected |
| TraditionalFacts.ScanRaisesUnit | cn2int.py:458-463 | without a delimiter the current unit never decreases |
| TraditionalFacts.YiLeads | cn2int.py:448-454 | a 万 or 亿 to the left of a 亿 is rejected |
| TraditionalFacts.ScanKeepsYi | cn2int.py:448-456 | once a 亿 is read the delimiter stays 亿 |
| TraditionalFacts.MyriadMyriadIsYi | cn2int.py:443-446 | 万万 reads as 亿 when the numeral does not start with 万, no 万 follows the pair, and more than a single digit follows it |
| TraditionalFacts.ScanAppend | cn2int.py:416-418 | the loop reads a tail that does not start with 万 as it would alone, then goes on |
| TraditionalFacts.ReadsThreeHundredTwentyOne | cn2int.py:416-474 | 三百二十一 is 321 |
| TraditionalFacts.ReadsElidedTen | cn2int.py:405-413 | 一百二 is 120 |
| TraditionalFacts.ReadsElidedThousand | cn2int.py:405-413 | 一万二 is 12000 |
| TraditionalFacts.ReadsElidedTenMillion | cn2int.py:405-413 | 一亿二 is 120000000 |
| TraditionalFacts.ReadsHundredMyriad | cn2int.py:409-410 | 一百万 is 1000000: a final magnitude is no elision |
| TraditionalFacts.ReadsYiZeroNineThousand | cn2int.py:438-450 | 一亿零九千 is 100009000 |
| TraditionalFacts.ReadsLeadingTen | cn2int.py:469-472 | 十五万 is 150000 |
| TraditionalFacts.ReadsMyriadMyriad | cn2int.py:443-446 | 六万万 is 600000000 |
| TraditionalFacts.ReadsBareThousand | cn2int.py:457-463 | 五十三万千六百零一 is 530601 |
| TraditionalFacts.ReadsYiMyriad | cn2int.py:438-456 | 一亿万七十二 is 100000072: an empty group between two delimiters is accepted |
| TraditionalFacts.RejectsRisingUnit | cn2int.py:457-461 | 五百六千 is a format error |
| TraditionalFacts.RejectsRepeatedDigit | cn2int.py:433-435 | 三百二二 is a format error |
| TraditionalFacts.RejectsRepeatedUnit | cn2int.py:464-466 | 三千百 is a format error |
| TraditionalFacts.RejectsMyriadYi | cn2int.py:451-454 | 三万亿 is out of range |
| TraditionalFacts.ZeroPadded | cn2int.py:416-421 | 零零零三百六十一 is 361 |
| TraditionalFacts.FourMyriadFiveThousandMyriad | cn2int.py:449-456 | 四万五千万 is 450000000: a second 万 under a 万 turns into 亿 |
| TraditionalFacts.MyriadMyriadElided | cn2int.py:405-413 | 六万万五 is 600005000: the elided unit comes from the last 万 alone |
| TraditionalFacts.YiElided | cn2int.py:405-413 | 六亿五 is 650000000 |
| TraditionalFacts.BareTen | cn2int.py:469-472 | 十五 is 15 |
| TraditionalFacts.ZeroBareTen | cn2int.py:469-472 | 零十五 is 5: the correction needs the 十 to be read last |
| TraditionalFacts.MyriadBareTen | cn2int.py:469-472 | 三万十五 is 30005 |
| ChineseParse.ChineseToInt | cn2int.py:164-195 | chinese2int computes exactly the dispatch: single glyph, leading magnitude, enumeration first, fallback on a format error only |
| ChineseParse.SingleGlyph | cn2int.py:193-194 | a single glyph is read as its table value |
| ChineseParse.ChineseBelowLimit | cn2int.py:171-172 | every value chinese2int returns is below 10^12 |
| ChineseParse.LeadingMagnitudeRejected | cn2int.py:180-183 | two glyphs or more starting with 百, 千, 万 or 亿 are a format error |
| ChineseParse.DigitStringsAreEnumerations | cn2int.py:184-186 | two to twelve digits are read as an enumeration |
| ChineseParse.LongDigitStringOverflows | cn2int.py:184-190 | a longer digit string with a non-zero glyph above the twelve lowest positions stays out of range: the traditional reading is not tried |
| ChineseParse.TraditionalFallback | cn2int.py:187-190 | two leading digits that fail as an enumeration with a format error are read traditionally |
| ChineseParse.ZeroPaddedReading | cn2int.py:188-190 | 零零零三百六十一 is 361 through the fallback |
| ChineseParse.EnumerationReading | cn2int.py:184-186 | 一二三 is 123 |
| ChineseFormat.SmallIntToChinese | cn2int.py:317-334 | the group loop writes exactly the group specification, 零 handling and 两 rule included |
| ChineseFormat.EnumerateDigits | cn2int.py:274-285 | the enumeration loop writes exactly one table glyph per digit, 〇 or 零 for 0 |
| ChineseFormat.WriteGroups | cn2int.py:287-308 | the group loop writes exactly the traditional form and leaves the top group in `p` |
| ChineseFormat.IntToChinese | cn2int.py:267-314 | `None` exactly when n < 0 or n >= 10^12; otherwise the rendering with all five style switches |
| FormatValues.TraditionalAgrees | cn2int.py:296-308 | the traditional form in either case, with or without 两, consists of glyphs whose values are the same value sequence |
| FormatValues.TraditionalShape | cn2int.py:299-343 | a positive number's traditional form starts with a non-zero digit, ends in no 零, never has 零零, and never ends in a digit right after 百, 千, 万 or 亿 |
| FormatValues.GroupStepShape | cn2int.py:336-343 | one group with its delimiter and bridging 零 keeps that shape |
| FormatValues.SmallShape | cn2int.py:317-334 | a group from 1 to 9999 starts with a non-zero digit, has no 零零 and no trailing 零 |
| FormatFacts.LiangOnlyReplacesTwo | cn2int.py:329-332 | with use_liang the output has the same length as without, and differs only where 二 (贰) became 两 |
| FormatFacts.LiangTwoThousand | cn2int.py:329-330 | 2222 becomes 两千两百二十二 |
| FormatFacts.LiangWholeGroup | cn2int.py:329-330 | 20000 becomes 两万 and 2 stays 二 |
| FormatFacts.TeenLeads | cn2int.py:310-311 | a number whose top group is 10-19 is written starting with glyphs worth 1 and 10 |
| FormatFacts.SimpleTenDropsLeadingOne | cn2int.py:345-348 | with a top group from 10 to 19, use_simple_ten drops exactly the leading 一 (壹) and the rest starts with 十 (拾) |
| FormatFacts.SimpleTenFifteen | cn2int.py:345-348 | 15 becomes 十五 |
| FormatFacts.SimpleTenFifteenMyriad | cn2int.py:345-348 | 150000 becomes 十五万 |
| FormatFacts.SimpleTenKeepsOneHundred | cn2int.py:345-348 | 110 stays 一百一十 |
| FormatFacts.NineThousand | cn2int.py:322-327 | 9000 as a group is 九千, with no 零 |
| FormatFacts.BridgeInsideGroup | cn2int.py:325-327 | 1010 becomes 一千零一十 |
| FormatFacts.BridgeEmptyGroup | cn2int.py:336-343 | 100009000 becomes 一亿零九千 |
| FormatFacts.BridgeShortGroup | cn2int.py:336-343 | 100000009 becomes 一亿零九 |
| FormatFacts.SmallDigit | cn2int.py:317-334 | a one-digit group is that digit's glyph unless 两 applies |
| FormatFacts.StripOneUnit | cn2int.py:352 | rstrip removes one trailing unit after a glyph that is not a unit |
| FormatFacts.ZeroTailDrops | cn2int.py:350-352 | 16000 with use_simple_zero_tail becomes 一万六 |
| FormatFacts.ZeroTailKeeps | cn2int.py:350-352 | 1060 with use_simple_zero_tail stays 一千零六十 |
| FormatFacts.ZeroTailAfterLiang | cn2int.py:350-355 | a unit after a trailing 两 is dropped; the 两 becomes 二 in lower case, and the whole result becomes 贰 in upper case |
| FormatFacts.ZeroTailLiangLower | cn2int.py:353-354 | 12000 with use_liang and use_simple_zero_tail becomes 一万二 |
| FormatFacts.ZeroTailLiangUpper | cn2int.py:353-354 | the same in upper case becomes 贰 |
| RoundTrip.SmallRead | cn2int.py:317-334 | the traditional parser reads a written group back as its value |
| RoundTrip.GroupsReadFrom | cn2int.py:299-308 | the parser reads the written groups back, each worth its group times its delimiter |
| RoundTrip.TraditionalRoundTrip | cn2int.py:168-169 | chinese2int reads the values of the traditional form of every n below 10^12 back as n |
| RoundTrip.DefaultRoundTrip | cn2int.py:168-169 | chinese2int(int2chinese(n)) == n for every n below 10^12, in either case and with or without use_liang |
| RoundTrip.EnumFromValues | cn2int.py:282-285 | the enumeration loop writes one glyph per decimal digit, each worth that digit |
| RoundTrip.DigitsRead | cn2int.py:357-379 | the decimal digits of n read as an enumeration give back n |
| RoundTrip.EnumerationRoundTrip | cn2int.py:168-169 | chinese2int(int2chinese(n, enumeration=True)) == n for every n below 10^12, in either case |

## Left out

- `arab2int` and `int2arab` are not part of this model. They wrap Python's
  `str.isdigit`, `int` and `str`. `Convert.Convert` returns `None` on the Arabic route.
- example.py (float parsing, sign handling, regular expressions) and performance.py
  (timing) are not part of this model.
- A character missing from `Table.chinese2int` or `Table.roman2int` makes Python
  raise `KeyError`. The model makes membership a precondition (`IsNumeral`,
  `IsRomanInputWord`, `Convertible`), as the docstring of `convert` asks its callers to
  ensure (cn2int.py:90-92). For the same reason the empty string is excluded: `s[0]` fails in `convert`.
- The float literal `1e12` in `int2chinese` is taken as the integer 10^12.
- `chinese2int_traditional` assigns `a` before every use. The model has no separate
  `a`, and the state keeps only what later turns read.
- `smallint2chinese` never reads its `previous` argument, so the model drops it.
- ChineseTraditional.ParseTraditional: takes the glyph values of the string rather
  than the string; `ChineseParse.ChineseToInt` does the lookups.
- Python's negative indices are modelled, not required away: `s[length - 1]` at
  length 0 reads the last glyph (`Before`), and `s[length - 2]` with one glyph reads
  that glyph (`Penultimate`). The empty string is a `KeyError` and is excluded.
- RoundTrip.DefaultRoundTrip: covers `use_liang` and both cases, but not
  `use_simple_ten` or `use_simple_zero_tail`. The `chinese2int` docstring (cn2int.py:168-169)
  promises that every form is read back. In upper case with `use_liang` and `use_simple_zero_tail`
  that promise is false (`FormatFacts.ZeroTailLiangUpper`: 12000 becomes 贰). The
  shortened forms are covered only by examples.
- FormatFacts.LiangOnlyReplacesTwo: says which glyph 两 may replace, not which
  positions get it. The rule is stated in `ChineseFormat.DigitGlyph` and shown by
  `LiangTwoThousand` and `LiangWholeGroup`.
- TraditionalFacts.YiLeads: states that the numeral is rejected, not which error is
  raised. A format error to the right of the 亿 is reported first.
- TraditionalFacts.MyriadMyriadIsYi: excludes a single digit right after 万万. There
  the elided unit is 千, so 六万万五 is 600005000 while 六亿五 is 650000000
  (`MyriadMyriadElided`, `YiElided`). It also excludes a numeral that starts with 万,
  because the check at cn2int.py:444 then reads the last glyph through Python's `s[-1]`.
  It excludes a 万 right after the pair too, because pairs form from the right.
