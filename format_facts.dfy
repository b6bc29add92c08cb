/** What the style switches of int2chinese do: use_liang only turns some 二 (贰) into 两,
    use_simple_ten drops exactly the leading 一 (壹), and worked examples of each switch. */
module FormatFacts {
  import opened Glyphs
  import opened ChineseFormat
  import opened FormatValues

  // ---------------------------------------------------------------------------
  // use_liang.

  /** `a` is `b` with some of its glyphs `two` written 两 instead. */
  predicate LiangTwin(a: string, b: string, two: char) {
    |a| == |b| && forall j :: 0 <= j < |a| ==> a[j] == b[j] || (a[j] == '两' && b[j] == two)
  }

  lemma TwinConcat(a1: string, b1: string, a2: string, b2: string, two: char)
    requires LiangTwin(a1, b1, two) && LiangTwin(a2, b2, two)
    ensures LiangTwin(a1 + a2, b1 + b2, two)
  {
    forall j | 0 <= j < |a1 + a2|
      ensures (a1 + a2)[j] == (b1 + b2)[j] || ((a1 + a2)[j] == '两' && (b1 + b2)[j] == two)
    {
      if j < |a1| {
        assert (a1 + a2)[j] == a1[j] && (b1 + b2)[j] == b1[j];
      } else {
        assert (a1 + a2)[j] == a2[j - |a1|] && (b1 + b2)[j] == b2[j - |a1|];
      }
    }
  }

  /** Twins start with 零 together, so the 零 tests of the writer treat them alike. */
  lemma TwinHeads(a: string, b: string, two: char)
    requires LiangTwin(a, b, two) && two != '零'
    ensures (a != "" && a[0] != '零') == (b != "" && b[0] != '零')
  {
    if a != "" {
      assert a[0] == b[0] || (a[0] == '两' && b[0] == two);
    }
  }

  lemma DigitTwin(p: nat, i: nat, number: nat, delimiter: string, table: string)
    requires |table| == 10 && 1 <= p <= 9 && (number == 2 ==> p == 2)
    ensures LiangTwin(DigitGlyph(p, i, number, delimiter, table, true),
                      DigitGlyph(p, i, number, delimiter, table, false), table[2])
  {
  }

  lemma {:induction false} SmallTwin(number: nat, n: nat, i: nat, delimiter: string, table: string,
                                     tableUnit: seq<string>, a: string, b: string)
    requires |table| == 10 && |tableUnit| == 4 && i <= 4 && n < Pow10(4 - i) && table[2] != '零'
    requires number == 2 ==> n == 0 || n == 2
    requires LiangTwin(a, b, table[2])
    ensures LiangTwin(SmallFrom(number, n, i, delimiter, table, tableUnit, true, a),
                      SmallFrom(number, n, i, delimiter, table, tableUnit, false, b), table[2])
    decreases n
  {
    if n > 0 {
      var p := n % 10;
      var nextA, nextB;
      if p == 0 {
        TwinHeads(a, b, table[2]);
        nextA := if a != "" && a[0] != '零' then "零" + a else a;
        nextB := if b != "" && b[0] != '零' then "零" + b else b;
        assert LiangTwin("零", "零", table[2]);
        TwinConcat("零", "零", a, b, table[2]);
      } else {
        var da := DigitGlyph(p, i, number, delimiter, table, true);
        var db := DigitGlyph(p, i, number, delimiter, table, false);
        DigitTwin(p, i, number, delimiter, table);
        assert LiangTwin(tableUnit[i], tableUnit[i], table[2]);
        TwinConcat(da, db, tableUnit[i], tableUnit[i], table[2]);
        TwinConcat(da + tableUnit[i], db + tableUnit[i], a, b, table[2]);
        nextA, nextB := da + tableUnit[i] + a, db + tableUnit[i] + b;
      }
      SmallTwin(number, n / 10, i + 1, delimiter, table, tableUnit, nextA, nextB);
    }
  }

  lemma FillZeroTwin(a: string, b: string, p: nat, n: nat, two: char)
    requires LiangTwin(a, b, two) && two != '零'
    ensures LiangTwin(FillZero(a, p, n), FillZero(b, p, n), two)
  {
    assert LiangTwin("零", "零", two);
    if n != 0 {
      var ba := if p < 1000 && p != 0 then "零" + a else a;
      var bb := if p < 1000 && p != 0 then "零" + b else b;
      TwinConcat("零", "零", a, b, two);
      TwinHeads(ba, bb, two);
      TwinConcat("零", "零", ba, bb, two);
    }
  }

  /** One group written in front of twin accumulators keeps them twins. */
  lemma GroupTwin(p: nat, rest: nat, delimiter: string, lower: bool, a: string, b: string)
    requires p < WAN && LiangTwin(a, b, DigitTable(lower)[2])
    requires LiangTwin(delimiter, delimiter, DigitTable(lower)[2])
    ensures LiangTwin(FillZero(Small(p, delimiter, DigitTable(lower), UnitTable(lower), true) + delimiter + a, p, rest),
                      FillZero(Small(p, delimiter, DigitTable(lower), UnitTable(lower), false) + delimiter + b, p, rest),
                      DigitTable(lower)[2])
  {
    var two := DigitTable(lower)[2];
    var table, tableUnit := DigitTable(lower), UnitTable(lower);
    Pow10Four();
    assert LiangTwin("", "", two);
    SmallTwin(p, p, 0, delimiter, table, tableUnit, "", "");
    var sa := Small(p, delimiter, table, tableUnit, true);
    var sb := Small(p, delimiter, table, tableUnit, false);
    TwinConcat(sa, sb, delimiter, delimiter, two);
    TwinConcat(sa + delimiter, sb + delimiter, a, b, two);
    FillZeroTwin(sa + delimiter + a, sb + delimiter + b, p, rest, two);
  }

  lemma {:induction false} GroupsTwin(n: nat, i: nat, lower: bool, a: string, b: string)
    requires i <= 3 && n < GroupCeiling(i) && LiangTwin(a, b, DigitTable(lower)[2])
    ensures LiangTwin(GroupsFrom(n, i, lower, true, a), GroupsFrom(n, i, lower, false, b),
                      DigitTable(lower)[2])
    decreases n
  {
    if n > 0 {
      var p := n % WAN;
      var delimiter := if p == 0 then DelimiterTable(lower)[0] else DelimiterTable(lower)[i];
      assert LiangTwin(delimiter, delimiter, DigitTable(lower)[2]);
      GroupTwin(p, n / WAN, delimiter, lower, a, b);
      var sa := Small(p, delimiter, DigitTable(lower), UnitTable(lower), true);
      var sb := Small(p, delimiter, DigitTable(lower), UnitTable(lower), false);
      GroupsTwin(n / WAN, i + 1, lower, FillZero(sa + delimiter + a, p, n / WAN),
                 FillZero(sb + delimiter + b, p, n / WAN));
    }
  }

  /** With use_liang the traditional form is the one without it, except that some 二
      (贰 in upper case) are written 两. */
  lemma LiangOnlyReplacesTwo(number: nat, lower: bool)
    requires number < LIMIT
    ensures LiangTwin(Grouped(number, lower, true), Grouped(number, lower, false), DigitTable(lower)[2])
  {
    var acc := if number == 0 then [DigitTable(lower)[0]] else "";
    assert LiangTwin(acc, acc, DigitTable(lower)[2]);
    GroupsTwin(number, 0, lower, acc, acc);
  }

  /** 两 for a 2 in the hundreds and thousands places, 二 in the tens and ones places. */
  lemma LiangTwoThousand()
    ensures Render(2222, true, false, true, false, false) == "两千两百二十二"
  {
  }

  /** 两 for a whole group of 2 with a delimiter, 二 for a lone 2. */
  lemma LiangWholeGroup()
    ensures Render(20000, true, false, true, false, false) == "两万"
    ensures Render(2, true, false, true, false, false) == "二"
  {
  }

  // ---------------------------------------------------------------------------
  // use_simple_ten.

  lemma {:induction false} TopGroupBelow(n: nat)
    ensures TopGroup(n) < WAN && (n > 0 ==> TopGroup(n) > 0)
  {
    if n >= WAN {
      TopGroupBelow(n / WAN);
    }
  }

  /** The traditional form starts with the glyphs of the top group. */
  lemma {:induction false} TopGroupLeads(n: nat, i: nat, acc: seq<nat>)
    requires i <= 3 && n < GroupCeiling(i) && n > 0
    ensures TopGroup(n) < WAN && SmallValues(TopGroup(n), 0, []) <= GroupValues(n, i, acc)
    decreases n
  {
    TopGroupBelow(n);
    var p := n % WAN;
    var small := SmallValues(p, 0, []);
    var next := FillZeroValues(small + DelimiterValues(i, p) + acc, p, n / WAN);
    if n / WAN > 0 {
      TopGroupLeads(n / WAN, i + 1, next);
    } else {
      assert p == n;
      assert GroupValues(n, i, acc) == small + DelimiterValues(i, p) + acc;
    }
  }

  /** A group from 10 to 19 is written 一十 followed by its ones digit. */
  lemma SmallTeen(p: nat)
    requires 10 <= p < 20
    ensures var r := SmallValues(p, 0, []); |r| >= 2 && r[0] == 1 && r[1] == 10
  {
    var ones := if p == 10 then [] else [p - 10];
    assert SmallValues(p, 0, []) == SmallValues(1, 1, ones);
    assert SmallValues(1, 1, ones) == [1, 10] + ones;
  }

  /** The glyphs worth one and ten. */
  lemma OneAndTen(c: char)
    requires IsGlyph(c)
    ensures Value(c) == 1 ==> c == '一' || c == '壹'
    ensures Value(c) == 10 ==> c == '十' || c == '拾'
  {
  }

  /** The traditional form of a number whose top group is from 10 to 19 starts with
      glyphs worth 1 and 10. */
  lemma TeenLeads(number: nat)
    requires number < LIMIT && 10 <= TopGroup(number) < 20
    ensures var vs := TraditionalValues(number); |vs| >= 2 && vs[0] == 1 && vs[1] == 10
  {
    assert number > 0;
    TopGroupLeads(number, 0, []);
    SmallTeen(TopGroup(number));
  }

  lemma StripLeadingOne(s: string)
    requires |s| >= 2 && s[0] in {'一', '壹'} && s[1] !in {'一', '壹'}
    ensures LStrip(s, {'一', '壹'}) == s[1..]
  {
    assert LStrip(s, {'一', '壹'}) == LStrip(s[1..], {'一', '壹'});
    assert s[1..][0] == s[1];
  }

  /** When the top group is from 10 to 19, use_simple_ten drops the leading 一 (壹) and
      nothing else: what is left starts with 十 (拾). */
  lemma SimpleTenDropsLeadingOne(number: nat, lower: bool, useLiang: bool)
    requires number < LIMIT && 10 <= TopGroup(number) < 20
    ensures var s := Grouped(number, lower, useLiang);
      |s| >= 2 && (s[0] == '一' || s[0] == '壹') && (s[1] == '十' || s[1] == '拾')
      && Render(number, lower, false, useLiang, true, false) == s[1..]
  {
    var s := Grouped(number, lower, useLiang);
    TraditionalAgrees(number, lower, useLiang);
    TeenLeads(number);
    OneAndTen(s[0]);
    OneAndTen(s[1]);
    StripLeadingOne(s);
  }

  lemma SimpleTenFifteen()
    ensures Render(15, true, false, false, true, false) == "十五"
  {
    assert Grouped(15, true, false) == "一十五";
    StripLeadingOne("一十五");
  }

  lemma SimpleTenFifteenMyriad()
    ensures Render(150000, true, false, false, true, false) == "十五万"
  {
    assert Small(15, "万", Lower, LowerUnit, false) == "一十五";
    assert Grouped(150000, true, false) == "一十五万";
    StripLeadingOne("一十五万");
  }

  /** The top group 110 is not from 10 to 19: the leading 一 stays. */
  lemma SimpleTenKeepsOneHundred()
    ensures Render(110, true, false, false, true, false) == "一百一十"
  {
  }

  // ---------------------------------------------------------------------------
  // Bridging 零 and use_simple_zero_tail, by example.

  /** 九千: a group with zeros below its only digit writes no 零. */
  lemma NineThousand()
    ensures Small(9000, "", Lower, LowerUnit, false) == "九千"
  {
    assert SmallFrom(9000, 9, 3, "", Lower, LowerUnit, false, "") == "九千";
    assert SmallFrom(9000, 90, 2, "", Lower, LowerUnit, false, "") == "九千";
    assert SmallFrom(9000, 900, 1, "", Lower, LowerUnit, false, "") == "九千";
  }

  /** 一千零一十: a zero between two digits of a group is one 零. */
  lemma BridgeInsideGroup()
    ensures Render(1010, true, false, false, false, false) == "一千零一十"
  {
    assert SmallFrom(1010, 1, 3, "", Lower, LowerUnit, false, "零一十") == "一千零一十";
    assert SmallFrom(1010, 10, 2, "", Lower, LowerUnit, false, "一十") == "一千零一十";
    assert SmallFrom(1010, 101, 1, "", Lower, LowerUnit, false, "") == "一千零一十";
    assert Small(1010, "", Lower, LowerUnit, false) == "一千零一十";
    assert Grouped(1010, true, false) == "一千零一十";
  }

  /** 一亿零九千: an empty 万 group between two others is one 零. */
  lemma BridgeEmptyGroup()
    ensures Render(100009000, true, false, false, false, false) == "一亿零九千"
  {
    NineThousand();
    SmallDigit(1, "亿", Lower, LowerUnit, false);
    assert GroupsFrom(1, 2, true, false, "零九千") == "一亿零九千";
    assert GroupsFrom(10000, 1, true, false, "九千") == "一亿零九千";
    assert Grouped(100009000, true, false) == "一亿零九千";
  }

  /** 一亿零九: a lower group below 1000 after an empty group still gets only one 零. */
  lemma BridgeShortGroup()
    ensures Render(100000009, true, false, false, false, false) == "一亿零九"
  {
    SmallDigit(9, "", Lower, LowerUnit, false);
    SmallDigit(1, "亿", Lower, LowerUnit, false);
    assert GroupsFrom(1, 2, true, false, "零九") == "一亿零九";
    assert GroupsFrom(10000, 1, true, false, "零九") == "一亿零九";
    assert Grouped(100000009, true, false) == "一亿零九";
  }

  /** Trailing units go when the third glyph from the end is not 零. */
  lemma ZeroTailDrops()
    ensures Render(16000, true, false, false, false, true) == "一万六"
  {
    assert SmallFrom(6000, 6, 3, "", Lower, LowerUnit, false, "") == "六千";
    assert SmallFrom(6000, 60, 2, "", Lower, LowerUnit, false, "") == "六千";
    assert SmallFrom(6000, 600, 1, "", Lower, LowerUnit, false, "") == "六千";
    SmallDigit(1, "万", Lower, LowerUnit, false);
    assert GroupsFrom(1, 1, true, false, "六千") == "一万六千";
    assert Grouped(16000, true, false) == "一万六千";
    assert "一万六千" == "一万六" + ['千'];
    StripOneUnit("一万六", '千');
  }

  /** 一千零六十 keeps its 十: the third glyph from the end is 零. */
  lemma ZeroTailKeeps()
    ensures Render(1060, true, false, false, false, true) == "一千零六十"
  {
    assert SmallFrom(1060, 1, 3, "", Lower, LowerUnit, false, "零六十") == "一千零六十";
    assert SmallFrom(1060, 10, 2, "", Lower, LowerUnit, false, "六十") == "一千零六十";
    assert SmallFrom(1060, 106, 1, "", Lower, LowerUnit, false, "") == "一千零六十";
    assert Small(1060, "", Lower, LowerUnit, false) == "一千零六十";
    assert Grouped(1060, true, false) == "一千零六十";
  }

  /** A group of one digit is that digit's glyph, unless use_liang makes a 2 with a
      delimiter 两. */
  lemma SmallDigit(p: nat, delimiter: string, table: string, tableUnit: seq<string>,
                   useLiang: bool)
    requires 1 <= p <= 9 && |table| == 10 && |tableUnit| == 4 && tableUnit[0] == ""
    requires !(useLiang && p == 2 && delimiter != "")
    ensures Small(p, delimiter, table, tableUnit, useLiang) == [table[p]]
  {
    Pow10Four();
    assert p % 10 == p && p / 10 == 0;
    var g := DigitGlyph(p, 0, p, delimiter, table, useLiang);
    assert g + tableUnit[0] + "" == [table[p]];
    assert SmallFrom(p, 0, 1, delimiter, table, tableUnit, useLiang, [table[p]]) == [table[p]];
    assert SmallFrom(p, p, 0, delimiter, table, tableUnit, useLiang, "")
        == SmallFrom(p, 0, 1, delimiter, table, tableUnit, useLiang, [table[p]]);
  }

  /** use_simple_zero_tail drops one trailing unit after a glyph that is not a unit. */
  lemma StripOneUnit(t: string, c: char)
    requires c in UnitChars && (t == [] || t[|t| - 1] !in UnitChars)
    ensures RStrip(t + [c], UnitChars) == t
  {
    assert (t + [c])[..|t|] == t;
  }

  /** 两千: use_liang writes 两 for a 2 in the thousands place. */
  lemma TwoThousandLower()
    ensures Small(2000, "", Lower, LowerUnit, true) == "两千"
  {
    assert SmallFrom(2000, 2, 3, "", Lower, LowerUnit, true, "") == "两千";
    assert SmallFrom(2000, 20, 2, "", Lower, LowerUnit, true, "") == "两千";
    assert SmallFrom(2000, 200, 1, "", Lower, LowerUnit, true, "") == "两千";
  }

  /** 两仟: the upper-case tables keep 两. */
  lemma TwoThousandUpper()
    ensures Small(2000, "", Upper, UpperUnit, true) == "两仟"
  {
    assert SmallFrom(2000, 2, 3, "", Upper, UpperUnit, true, "") == "两仟";
    assert SmallFrom(2000, 20, 2, "", Upper, UpperUnit, true, "") == "两仟";
    assert SmallFrom(2000, 200, 1, "", Upper, UpperUnit, true, "") == "两仟";
  }

  /** use_simple_zero_tail on a numeral ending in 两 and one unit: the unit goes, and the
      两 becomes 二 in lower case while the whole result becomes 贰 in upper case. */
  lemma ZeroTailAfterLiang(t: string, c: char, lower: bool)
    requires |t| >= 2 && t[|t| - 1] == '两' && t[|t| - 2] != '零' && c in UnitChars
    ensures SimpleZeroTail(t + [c], lower) == if lower then t[..|t| - 1] + "二" else "贰"
  {
    assert (t + [c])[|t + [c]| - 3] == t[|t| - 2];
    StripOneUnit(t, c);
  }

  /** With use_liang, a trailing 两 left by use_simple_zero_tail becomes 二 in lower case. */
  lemma ZeroTailLiangLower()
    ensures Render(12000, true, false, true, false, true) == "一万二"
  {
    TwoThousandLower();
    SmallDigit(1, "万", Lower, LowerUnit, true);
    assert GroupsFrom(1, 1, true, true, "两千") == "一万两千";
    assert Grouped(12000, true, true) == "一万两" + ['千'];
    ZeroTailAfterLiang("一万两", '千', true);
  }

  /** In upper case the whole result becomes 贰: Python applies the conditional expression
      of that line to the whole concatenation, not to the 二 alone. */
  lemma ZeroTailLiangUpper()
    ensures Render(12000, false, false, true, false, true) == "贰"
  {
    TwoThousandUpper();
    SmallDigit(1, "萬", Upper, UpperUnit, true);
    assert GroupsFrom(1, 1, false, true, "两仟") == "壹萬两仟";
    assert Grouped(12000, false, true) == "壹萬两" + ['仟'];
    ZeroTailAfterLiang("壹萬两", '仟', false);
  }
}
