/** `int2chinese` and its helpers: an integer below 10^12 written as a Chinese numeral,
    digit by digit (enumeration) or with units and delimiters (traditional). */
module ChineseFormat {
  import opened Glyphs

  // ---------------------------------------------------------------------------
  // The tables int2chinese picks with `lower`.

  function DigitTable(lower: bool): string {
    if lower then Lower else Upper
  }

  function EnumerationTable(lower: bool): string {
    if lower then LowerEnumeration else UpperEnumeration
  }

  function UnitTable(lower: bool): seq<string> {
    if lower then LowerUnit else UpperUnit
  }

  function DelimiterTable(lower: bool): seq<string> {
    if lower then LowerDelimiter else UpperDelimiter
  }

  /** The largest value whose groups still have a delimiter once `i` groups are written:
      a number below 10^12 has at most three groups of four digits. */
  function GroupCeiling(i: nat): nat {
    if i == 0 then LIMIT else if i == 1 then YI else if i == 2 then WAN else 1
  }

  /** The group written last: the most significant group of four digits (0 for 0). */
  function TopGroup(n: nat): nat {
    if n < WAN then n else TopGroup(n / WAN)
  }

  // ---------------------------------------------------------------------------
  // smallint2chinese: one group of four digits.

  /** The glyph of a non-zero digit `p` at place `i` of the group `number`: with use_liang,
      两 stands for a 2 in the hundreds or thousands place, and for a whole group of 2
      that carries a delimiter. */
  function DigitGlyph(p: nat, i: nat, number: nat, delimiter: string, table: string,
                      useLiang: bool): string
    requires p < |table|
  {
    if useLiang && ((p == 2 && i > 1) || (number == 2 && delimiter != "")) then "两" else [table[p]]
  }

  /** The smallint2chinese loop from place `i` on, with the remaining digits `n` and the
      glyphs `acc` already written for the lower places. A zero place writes one 零 in
      front of non-empty output that does not already start with 零. */
  function SmallFrom(number: nat, n: nat, i: nat, delimiter: string, table: string,
                     tableUnit: seq<string>, useLiang: bool, acc: string): string
    requires |table| == 10 && |tableUnit| == 4 && i <= 4 && n < Pow10(4 - i)
    decreases n
  {
    if n == 0 then acc
    else
      var p := n % 10;
      var next := if p == 0 then (if acc != "" && acc[0] != '零' then "零" + acc else acc)
                  else DigitGlyph(p, i, number, delimiter, table, useLiang) + tableUnit[i] + acc;
      SmallFrom(number, n / 10, i + 1, delimiter, table, tableUnit, useLiang, next)
  }

  /** What smallint2chinese writes for the group `number`. */
  function Small(number: nat, delimiter: string, table: string, tableUnit: seq<string>,
                 useLiang: bool): string
    requires number < WAN && |table| == 10 && |tableUnit| == 4
  {
    SmallFrom(number, number, 0, delimiter, table, tableUnit, useLiang, "")
  }

  /** smallint2chinese. The source's `previous` argument is never read and is left out. */
  method SmallIntToChinese(number: nat, delimiter: string, table: string,
                           tableUnit: seq<string>, useLiang: bool) returns (s: string)
    requires number < WAN && |table| == 10 && |tableUnit| == 4
    ensures s == Small(number, delimiter, table, tableUnit, useLiang)
  {
    var n: nat := number;
    s := "";
    var i: nat := 0;
    while n > 0
      invariant i <= 4 && n < Pow10(4 - i)
      invariant SmallFrom(number, n, i, delimiter, table, tableUnit, useLiang, s)
                == Small(number, delimiter, table, tableUnit, useLiang)
    {
      var p := n % 10;
      n := n / 10;
      if p == 0 {
        if s != "" && s[0] != '零' {
          s := "零" + s;
        }
      } else {
        if useLiang && ((p == 2 && i > 1) || (number == 2 && delimiter != "")) {
          s := "两" + tableUnit[i] + s;
        } else {
          s := [table[p]] + tableUnit[i] + s;
        }
      }
      i := i + 1;
    }
  }

  // ---------------------------------------------------------------------------
  // The three finishing helpers.

  /** int2chinese_fill_zero: with more groups still to come (`n != 0`), a group below 1000
      or an empty group gets a bridging 零 in front of what has been written. */
  function FillZero(s: string, p: nat, n: nat): string {
    if n != 0 then
      var bridged := if p < 1000 && p != 0 then "零" + s else s;
      if bridged != "" && bridged[0] != '零' && p == 0 then "零" + bridged else bridged
    else s
  }

  /** int2chinese_simple_ten: when the top group is in [10, 20), leading 一 and 壹 are dropped. */
  function SimpleTen(s: string, p: nat): string {
    if p < 20 && p >= 10 then LStrip(s, {'一', '壹'}) else s
  }

  /** The unit glyphs use_simple_zero_tail may drop. */
  const UnitChars: set<char> := {'十', '百', '千', '拾', '佰', '仟'}

  /** int2chinese_simple_zero_tail: trailing units are dropped when there are at least three
      glyphs and the third from the end is not 零; then a trailing 两 becomes 二. Python's
      conditional expression on that line takes the whole concatenation as its first
      branch, so in upper case the whole result is 贰. */
  function SimpleZeroTail(s: string, lower: bool): string {
    var t := if |s| >= 3 && s[|s| - 3] != '零' then RStrip(s, UnitChars) else s;
    if |t| >= 1 && t[|t| - 1] == '两' then (if lower then t[..|t| - 1] + "二" else "贰") else t
  }

  // ---------------------------------------------------------------------------
  // int2chinese.

  /** The enumeration loop: the remaining digits `n` in front of `acc`. */
  function EnumFrom(n: nat, table: string, acc: string): string
    requires |table| == 10
    decreases n
  {
    if n == 0 then acc else EnumFrom(n / 10, table, [table[n % 10]] + acc)
  }

  /** The enumeration form: one glyph per decimal digit, a single 〇 (零 in upper case) for 0. */
  function Enumerated(number: nat, lower: bool): string {
    var table := EnumerationTable(lower);
    EnumFrom(number, table, if number == 0 then [table[0]] else "")
  }

  /** The traditional loop from group `i` on, with the remaining groups `n` in front of `acc`.
      An empty group gets no delimiter. */
  function GroupsFrom(n: nat, i: nat, lower: bool, useLiang: bool, acc: string): string
    requires i <= 3 && n < GroupCeiling(i)
    decreases n
  {
    if n == 0 then acc
    else
      var p := n % WAN;
      var delimiter := if p == 0 then DelimiterTable(lower)[0] else DelimiterTable(lower)[i];
      var small := Small(p, delimiter, DigitTable(lower), UnitTable(lower), useLiang);
      GroupsFrom(n / WAN, i + 1, lower, useLiang, FillZero(small + delimiter + acc, p, n / WAN))
  }

  /** The traditional form before the style switches: 零 for 0. */
  function Grouped(number: nat, lower: bool, useLiang: bool): string
    requires number < LIMIT
  {
    GroupsFrom(number, 0, lower, useLiang, if number == 0 then [DigitTable(lower)[0]] else "")
  }

  /** What int2chinese returns for a number in range. */
  function Render(number: nat, lower: bool, enumeration: bool, useLiang: bool,
                  useSimpleTen: bool, useSimpleZeroTail: bool): string
    requires number < LIMIT
  {
    if enumeration then Enumerated(number, lower)
    else
      var s := Grouped(number, lower, useLiang);
      var s1 := if useSimpleTen then SimpleTen(s, TopGroup(number)) else s;
      if useSimpleZeroTail then SimpleZeroTail(s1, lower) else s1
  }

  /** The enumeration branch of int2chinese: one table glyph per digit, last digit first. */
  method EnumerateDigits(number: nat, lower: bool) returns (s: string)
    ensures s == Enumerated(number, lower)
  {
    var table := if lower then LowerEnumeration else UpperEnumeration;
    var n: nat := number;
    s := "";
    if n == 0 {
      s := [table[0]];
    }
    while n > 0
      invariant EnumFrom(n, table, s) == Enumerated(number, lower)
    {
      var p := n % 10;
      n := n / 10;
      s := [table[p]] + s;
    }
  }

  /** Taking one group off `n` leaves fewer groups than delimiters, and the same top group. */
  lemma NextGroup(n: nat, i: nat)
    requires i <= 3 && 0 < n < GroupCeiling(i)
    ensures i < 3 && n / WAN < GroupCeiling(i + 1)
    ensures TopGroup(n) == if n / WAN == 0 then n % WAN else TopGroup(n / WAN)
  {
  }

  /** The traditional branch of int2chinese up to the style switches: the groups of four
      digits, lowest first, each with its delimiter; `p` is the group written last. */
  method WriteGroups(number: nat, lower: bool, useLiang: bool) returns (s: string, p: nat)
    requires number < LIMIT
    ensures s == Grouped(number, lower, useLiang) && p == TopGroup(number)
  {
    var table, tableDelimiter, tableUnit;
    if lower {
      table, tableDelimiter, tableUnit := Lower, LowerDelimiter, LowerUnit;
    } else {
      table, tableDelimiter, tableUnit := Upper, UpperDelimiter, UpperUnit;
    }
    var n: nat := number;
    var i: nat := 0;
    s, p := "", 0;
    if n == 0 {
      s := [table[0]];
    }
    while n > 0
      invariant table == DigitTable(lower) && tableUnit == UnitTable(lower)
      invariant tableDelimiter == DelimiterTable(lower)
      invariant i <= 3 && n < GroupCeiling(i)
      invariant GroupsFrom(n, i, lower, useLiang, s) == Grouped(number, lower, useLiang)
      invariant n == 0 ==> p == TopGroup(number)
      invariant n > 0 ==> TopGroup(n) == TopGroup(number)
    {
      NextGroup(n, i);
      p := n % WAN;
      n := n / WAN;
      var delimiter := if p == 0 then tableDelimiter[0] else tableDelimiter[i];
      var small := SmallIntToChinese(p, delimiter, table, tableUnit, useLiang);
      s := FillZero(small + delimiter + s, p, n);
      i := i + 1;
    }
  }

  /** int2chinese: None exactly outside [0, 10^12), where the source returns None. */
  method IntToChinese(number: int, lower: bool, enumeration: bool, useLiang: bool,
                      useSimpleTen: bool, useSimpleZeroTail: bool) returns (r: Option<string>)
    ensures r.None? <==> number < 0 || number >= LIMIT
    ensures r.Some? ==> r.value == Render(number, lower, enumeration, useLiang, useSimpleTen,
                                          useSimpleZeroTail)
  {
    if number < 0 || number >= LIMIT {
      return None;
    }
    var s;
    if enumeration {
      s := EnumerateDigits(number, lower);
    } else {
      var p;
      s, p := WriteGroups(number, lower, useLiang);
      if useSimpleTen {
        s := SimpleTen(s, p);
      }
      if useSimpleZeroTail {
        s := SimpleZeroTail(s, lower);
      }
    }
    return Some(s);
  }
}
