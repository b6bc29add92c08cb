/** The glyph values int2chinese writes. 两 and 二 are both worth 2, and the lower- and
    upper-case tables agree glyph by glyph, so the values of the traditional form depend
    neither on `lower` nor on `use_liang`. */
module FormatValues {
  import opened Glyphs
  import opened ChineseFormat

  /** The value of unit glyph `i` of a group, none for the ones place. */
  function UnitValues(i: nat): seq<nat> {
    if i == 0 then [] else [Pow10(i)]
  }

  /** What the smallint2chinese loop writes from place `i` on, as glyph values. */
  function SmallValues(n: nat, i: nat, acc: seq<nat>): seq<nat>
    requires i <= 4 && n < Pow10(4 - i)
    decreases n
  {
    if n == 0 then acc
    else
      var p: nat := n % 10;
      var next := if p == 0 then (if acc != [] && acc[0] != 0 then [0] + acc else acc)
                  else [p] + UnitValues(i) + acc;
      SmallValues(n / 10, i + 1, next)
  }

  /** The weight of group `i`: 1, 万, 亿, and 10^12 past the last group. */
  function Weight(i: nat): nat {
    if i == 0 then 1 else if i == 1 then WAN else if i == 2 then YI else LIMIT
  }

  /** The delimiter written after group `i` with value `p`. */
  function DelimiterValues(i: nat, p: nat): seq<nat> {
    if p == 0 || i == 0 then [] else [Weight(i)]
  }

  /** int2chinese_fill_zero on glyph values. */
  function FillZeroValues(s: seq<nat>, p: nat, n: nat): seq<nat> {
    if n != 0 then
      var bridged := if p < 1000 && p != 0 then [0] + s else s;
      if bridged != [] && bridged[0] != 0 && p == 0 then [0] + bridged else bridged
    else s
  }

  /** The group loop of int2chinese from group `i` on, as glyph values. */
  function GroupValues(n: nat, i: nat, acc: seq<nat>): seq<nat>
    requires i <= 3 && n < GroupCeiling(i)
    decreases n
  {
    if n == 0 then acc
    else
      var p: nat := n % WAN;
      var rest := n / WAN;
      GroupValues(rest, i + 1,
                  FillZeroValues(SmallValues(p, 0, []) + DelimiterValues(i, p) + acc, p, rest))
  }

  /** The glyph values of the traditional form of `number`. */
  function TraditionalValues(number: nat): seq<nat>
    requires number < LIMIT
  {
    GroupValues(number, 0, if number == 0 then [0] else [])
  }

  // ---------------------------------------------------------------------------
  // From glyphs to values.

  /** A numeral whose first glyph is not 〇, so that a zero in front is exactly a 零. */
  predicate Clean(s: string) {
    IsNumeral(s) && (s != [] ==> s[0] != '〇')
  }

  lemma Prepend(c: char, s: string)
    requires IsGlyph(c) && IsNumeral(s)
    ensures IsNumeral([c] + s) && Values([c] + s) == [Value(c)] + Values(s)
  {
    assert IsNumeral([c] + s) by {
      forall j | 0 <= j < |[c] + s| ensures IsGlyph(([c] + s)[j]) {
        if j > 0 { assert ([c] + s)[j] == s[j - 1]; }
      }
    }
  }

  /** The glyph int2chinese writes for a non-zero digit has that digit's value. */
  lemma DigitGlyphValue(p: nat, i: nat, number: nat, delimiter: string, lower: bool,
                        useLiang: bool)
    requires 1 <= p <= 9 && (number == 2 ==> p == 2)
    ensures var g := DigitGlyph(p, i, number, delimiter, DigitTable(lower), useLiang);
      |g| == 1 && IsGlyph(g[0]) && Value(g[0]) == p && g[0] != '〇'
  {
    DigitGlyphs(p);
  }

  /** A zero in front of a clean numeral is exactly a 零 in front. */
  lemma ZeroInFront(acc: string)
    requires Clean(acc)
    ensures (acc != "" && acc[0] != '零') == (Values(acc) != [] && Values(acc)[0] != 0)
  {
  }

  /** A zero place of smallint2chinese: at most one 零 in front. */
  lemma ZeroPlaceAgrees(acc: string)
    requires Clean(acc)
    ensures var next := if acc != "" && acc[0] != '零' then "零" + acc else acc;
      Clean(next) && Values(next) == if Values(acc) != [] && Values(acc)[0] != 0
                                     then [0] + Values(acc) else Values(acc)
  {
    ZeroInFront(acc);
    if acc != "" && acc[0] != '零' {
      Prepend('零', acc);
      assert "零" + acc == ['零'] + acc;
    }
  }

  /** A non-zero place of smallint2chinese: the digit glyph and the unit glyph in front. */
  lemma DigitPlaceAgrees(number: nat, p: nat, i: nat, delimiter: string, lower: bool,
                         useLiang: bool, acc: string)
    requires 1 <= p <= 9 && i <= 3 && Clean(acc) && (number == 2 ==> p == 2)
    ensures var next := DigitGlyph(p, i, number, delimiter, DigitTable(lower), useLiang)
                        + UnitTable(lower)[i] + acc;
      Clean(next) && Values(next) == [p] + UnitValues(i) + Values(acc)
  {
    var g := DigitGlyph(p, i, number, delimiter, DigitTable(lower), useLiang);
    DigitGlyphValue(p, i, number, delimiter, lower, useLiang);
    var u := UnitTable(lower)[i];
    if i == 0 {
      assert u == [];
    } else {
      UnitGlyphs(i);
      assert [Value(u[0])] == UnitValues(i);
    }
    assert g == [g[0]];
    UnitInFront(g[0], u, acc);
  }

  /** A digit glyph and at most one unit glyph in front of a clean numeral. */
  lemma UnitInFront(g: char, u: string, acc: string)
    requires IsGlyph(g) && g != '〇' && Clean(acc)
    requires u == [] || (|u| == 1 && IsGlyph(u[0]))
    ensures Clean([g] + u + acc)
    ensures Values([g] + u + acc) == [Value(g)] + (if u == [] then [] else [Value(u[0])]) + Values(acc)
  {
    if u == [] {
      assert [g] + u + acc == [g] + acc;
      Prepend(g, acc);
    } else {
      assert [g] + u + acc == [g] + ([u[0]] + acc);
      Prepend(u[0], acc);
      Prepend(g, [u[0]] + acc);
    }
  }

  /** smallint2chinese writes glyphs whose values are SmallValues. */
  lemma {:induction false} SmallAgrees(number: nat, n: nat, i: nat, delimiter: string,
                                       lower: bool, useLiang: bool, acc: string)
    requires i <= 4 && n < Pow10(4 - i) && Clean(acc)
    requires number == 2 ==> n == 0 || (n == 2 && i == 0)
    ensures var s := SmallFrom(number, n, i, delimiter, DigitTable(lower), UnitTable(lower),
                               useLiang, acc);
      Clean(s) && Values(s) == SmallValues(n, i, Values(acc))
    decreases n
  {
    if n > 0 {
      var p: nat := n % 10;
      if p == 0 {
        ZeroPlaceAgrees(acc);
      } else {
        DigitPlaceAgrees(number, p, i, delimiter, lower, useLiang, acc);
      }
      var next := if p == 0 then (if acc != "" && acc[0] != '零' then "零" + acc else acc)
                  else DigitGlyph(p, i, number, delimiter, DigitTable(lower), useLiang)
                       + UnitTable(lower)[i] + acc;
      SmallAgrees(number, n / 10, i + 1, delimiter, lower, useLiang, next);
    }
  }

  lemma FillZeroAgrees(s: string, p: nat, n: nat)
    requires Clean(s)
    ensures Clean(FillZero(s, p, n)) && Values(FillZero(s, p, n)) == FillZeroValues(Values(s), p, n)
  {
    if n != 0 {
      var bridged := if p < 1000 && p != 0 then "零" + s else s;
      if p < 1000 && p != 0 {
        Prepend('零', s);
        assert "零" + s == ['零'] + s;
      }
      ZeroInFront(bridged);
      if bridged != "" && bridged[0] != '零' && p == 0 {
        Prepend('零', bridged);
        assert "零" + bridged == ['零'] + bridged;
      }
    }
  }

  /** The delimiter int2chinese writes after group `i` has the weight of that group. */
  lemma DelimiterAgrees(i: nat, p: nat, lower: bool)
    requires i <= 2
    ensures var d := if p == 0 then DelimiterTable(lower)[0] else DelimiterTable(lower)[i];
      IsNumeral(d) && Values(d) == DelimiterValues(i, p)
  {
    if p != 0 && i != 0 {
      DelimiterGlyphs(i);
    }
  }

  /** One group of int2chinese: its glyphs, its delimiter and the bridging 零. */
  lemma GroupStepAgrees(n: nat, i: nat, lower: bool, useLiang: bool, acc: string)
    requires 0 < n && i <= 2 && Clean(acc)
    ensures var p := n % WAN;
      var delimiter := if p == 0 then DelimiterTable(lower)[0] else DelimiterTable(lower)[i];
      var small := Small(p, delimiter, DigitTable(lower), UnitTable(lower), useLiang);
      var next := FillZero(small + delimiter + acc, p, n / WAN);
      Clean(next) && Values(next) == FillZeroValues(SmallValues(p, 0, []) + DelimiterValues(i, p)
                                                    + Values(acc), p, n / WAN)
  {
    var p := n % WAN;
    var delimiter := if p == 0 then DelimiterTable(lower)[0] else DelimiterTable(lower)[i];
    var small := Small(p, delimiter, DigitTable(lower), UnitTable(lower), useLiang);
    SmallAgrees(p, p, 0, delimiter, lower, useLiang, "");
    DelimiterAgrees(i, p, lower);
    assert small == "" ==> delimiter == "" by {
      if p != 0 {
        assert Values(small) == SmallValues(p, 0, []);
        SmallLeads(p, 0, []);
      }
    }
    JoinClean(small, delimiter, acc);
    FillZeroAgrees(small + delimiter + acc, p, n / WAN);
  }

  lemma JoinClean(small: string, delimiter: string, acc: string)
    requires Clean(small) && IsNumeral(delimiter) && Clean(acc) && (small == "" ==> delimiter == "")
    ensures Clean(small + delimiter + acc)
    ensures Values(small + delimiter + acc) == Values(small) + Values(delimiter) + Values(acc)
  {
    ValuesConcat(small, delimiter);
    ValuesConcat(small + delimiter, acc);
    if small == "" {
      assert small + delimiter + acc == acc;
    } else {
      assert (small + delimiter + acc)[0] == small[0];
    }
  }

  /** The group loop of int2chinese writes glyphs whose values are GroupValues. */
  lemma {:induction false} GroupsAgree(n: nat, i: nat, lower: bool, useLiang: bool, acc: string)
    requires i <= 3 && n < GroupCeiling(i) && Clean(acc)
    ensures Clean(GroupsFrom(n, i, lower, useLiang, acc))
    ensures Values(GroupsFrom(n, i, lower, useLiang, acc)) == GroupValues(n, i, Values(acc))
    decreases n
  {
    if n > 0 {
      GroupStepAgrees(n, i, lower, useLiang, acc);
      var p := n % WAN;
      var delimiter := if p == 0 then DelimiterTable(lower)[0] else DelimiterTable(lower)[i];
      var small := Small(p, delimiter, DigitTable(lower), UnitTable(lower), useLiang);
      GroupsAgree(n / WAN, i + 1, lower, useLiang, FillZero(small + delimiter + acc, p, n / WAN));
    }
  }

  /** The traditional form int2chinese writes, in either case and with or without 两, has the
      glyph values TraditionalValues. */
  lemma TraditionalAgrees(number: nat, lower: bool, useLiang: bool)
    requires number < LIMIT
    ensures Clean(Grouped(number, lower, useLiang))
    ensures Values(Grouped(number, lower, useLiang)) == TraditionalValues(number)
  {
    var acc := if number == 0 then [DigitTable(lower)[0]] else "";
    DigitGlyphs(0);
    GroupsAgree(number, 0, lower, useLiang, acc);
  }

  // ---------------------------------------------------------------------------
  // The shape of what smallint2chinese writes.

  /** A non-empty group starts with its leading digit, followed by a unit unless the digit
      is all there is. */
  lemma {:induction false} SmallLeads(n: nat, i: nat, acc: seq<nat>)
    requires i <= 4 && n < Pow10(4 - i) && n > 0
    ensures var r := SmallValues(n, i, acc);
      |r| >= 1 && 1 <= r[0] <= 9
      && (n >= 10 || i >= 1 ==> |r| >= 2 && r[1] >= 10)
      && (n < 10 && i == 0 ==> r == [n] + acc)
    decreases n
  {
    var p: nat := n % 10;
    var next := if p == 0 then (if acc != [] && acc[0] != 0 then [0] + acc else acc)
                else [p] + UnitValues(i) + acc;
    if n / 10 > 0 {
      SmallLeads(n / 10, i + 1, next);
    } else {
      assert SmallValues(n, i, acc) == next;
    }
  }

  /** No two 零 in a row. */
  predicate NoDoubleZero(vs: seq<nat>) {
    forall j :: 0 < j < |vs| ==> vs[j - 1] != 0 || vs[j] != 0
  }

  /** The last glyph is not a digit right after 百, 千, 万 or 亿: chinese2int_traditional
      would take it for a digit whose unit was left out. */
  predicate EndsWell(vs: seq<nat>) {
    |vs| >= 2 ==> vs[|vs| - 2] <= 10 || vs[|vs| - 1] >= 10
  }

  lemma NoDoubleZeroConcat(x: seq<nat>, y: seq<nat>)
    requires NoDoubleZero(x) && NoDoubleZero(y)
    requires x == [] || y == [] || x[|x| - 1] != 0 || y[0] != 0
    ensures NoDoubleZero(x + y)
  {
    forall j | 0 < j < |x + y| ensures (x + y)[j - 1] != 0 || (x + y)[j] != 0 {
      if j < |x| {
        assert (x + y)[j - 1] == x[j - 1] && (x + y)[j] == x[j];
      } else if j == |x| {
        assert (x + y)[j - 1] == x[|x| - 1] && (x + y)[j] == y[0];
      } else {
        assert (x + y)[j - 1] == y[j - 1 - |x|] && (x + y)[j] == y[j - |x|];
      }
    }
  }

  lemma EndsWellConcat(x: seq<nat>, y: seq<nat>)
    requires EndsWell(y)
    requires |y| == 1 ==> x == [] || x[|x| - 1] <= 10 || y[0] >= 10
    requires y == [] ==> EndsWell(x)
    ensures EndsWell(x + y)
  {
    if |y| >= 2 {
      assert (x + y)[|x + y| - 2] == y[|y| - 2] && (x + y)[|x + y| - 1] == y[|y| - 1];
    } else if |y| == 1 && x != [] {
      assert (x + y)[|x + y| - 2] == x[|x| - 1] && (x + y)[|x + y| - 1] == y[0];
    } else if y == [] {
      assert x + y == x;
    }
  }

  /** What smallint2chinese has written below place `i`: no 零 at its end and none
      doubled; a lone glyph is the ones digit. */
  predicate SmallSoFar(acc: seq<nat>, i: nat) {
    (acc == [] || (acc[|acc| - 1] != 0 && acc[|acc| - 1] <= 1000))
    && NoDoubleZero(acc) && EndsWell(acc) && (|acc| == 1 ==> i == 1 && acc[0] != 0)
  }

  lemma SmallPlaceShape(p: nat, i: nat, acc: seq<nat>)
    requires p <= 9 && i <= 3 && SmallSoFar(acc, i)
    ensures var next := if p == 0 then (if acc != [] && acc[0] != 0 then [0] + acc else acc)
                        else [p] + UnitValues(i) + acc;
      SmallSoFar(next, i + 1)
  {
    if p == 0 {
      if acc != [] && acc[0] != 0 {
        NoDoubleZeroConcat([0], acc);
        EndsWellConcat([0], acc);
      }
    } else {
      var piece := [p] + UnitValues(i);
      assert i > 0 ==> Pow10(i) <= 1000 by {
        if i > 0 { assert i == 1 || i == 2 || i == 3; }
      }
      NoDoubleZeroConcat(piece, acc);
      assert EndsWell(piece);
      if |acc| == 1 {
        assert i == 1 && piece == [p, 10];
      }
      EndsWellConcat(piece, acc);
    }
  }

  lemma {:induction false} SmallShapeFrom(n: nat, i: nat, acc: seq<nat>)
    requires i <= 4 && n < Pow10(4 - i) && SmallSoFar(acc, i)
    ensures var r := SmallValues(n, i, acc);
      (r == [] || (r[|r| - 1] != 0 && r[|r| - 1] <= 1000)) && NoDoubleZero(r) && EndsWell(r)
    decreases n
  {
    if n > 0 {
      var p: nat := n % 10;
      SmallPlaceShape(p, i, acc);
      var next := if p == 0 then (if acc != [] && acc[0] != 0 then [0] + acc else acc)
                  else [p] + UnitValues(i) + acc;
      SmallShapeFrom(n / 10, i + 1, next);
    }
  }

  /** What smallint2chinese writes for a group from 1 to 9999: a leading digit, then a
      unit unless the group is a single digit; no 零 at the end and none doubled, and no
      trailing digit right after 百 or 千; every glyph at most 千. */
  lemma SmallShape(p: nat)
    requires 0 < p < WAN
    ensures var r := SmallValues(p, 0, []);
      |r| >= 1 && 1 <= r[0] <= 9 && r[|r| - 1] != 0 && r[|r| - 1] <= 1000
      && (p < 10 ==> r == [p]) && (p >= 10 ==> |r| >= 2 && r[1] >= 10)
      && NoDoubleZero(r) && EndsWell(r)
  {
    SmallLeads(p, 0, []);
    SmallShapeFrom(p, 0, []);
  }

  // ---------------------------------------------------------------------------
  // The shape of what int2chinese writes.

  /** What the group loop has written while `n` is still to come: it starts with a digit
      or 零, does not end in 零, has no 零 doubled, does not end in a digit right after
      百, 千, 万 or 亿, and is a lone glyph only when nothing is left to write. */
  predicate GroupsSoFar(acc: seq<nat>, n: nat) {
    (acc == [] || (acc[0] <= 9 && acc[|acc| - 1] != 0))
    && NoDoubleZero(acc) && EndsWell(acc) && (|acc| == 1 ==> n == 0)
  }

  /** A group and its delimiter in front of what is written: it starts with a digit that is
      not 零, ends in what was written or in something that is not 零, and keeps the
      other properties. */
  lemma GroupInFrontShape(p: nat, i: nat, acc: seq<nat>, n: nat)
    requires 0 < p < WAN && 0 < n && GroupsSoFar(acc, n)
    ensures var x := SmallValues(p, 0, []) + DelimiterValues(i, p) + acc;
      |x| >= 1 && 1 <= x[0] <= 9 && x[|x| - 1] != 0 && NoDoubleZero(x) && EndsWell(x)
      && (|x| == 1 ==> x == [p] && p < 10)
  {
    SmallShape(p);
    FrontShape(SmallValues(p, 0, []), DelimiterValues(i, p), acc, p, n);
  }

  /** GroupInFrontShape for any group glyphs `small` of the shape SmallShape states. */
  lemma FrontShape(small: seq<nat>, d: seq<nat>, acc: seq<nat>, p: nat, n: nat)
    requires |small| >= 1 && 1 <= small[0] <= 9 && small[|small| - 1] != 0
    requires small[|small| - 1] <= 1000 && (|small| == 1 ==> small == [p] && p < 10)
    requires NoDoubleZero(small) && EndsWell(small)
    requires d == [] || (|d| == 1 && d[0] >= WAN)
    requires 0 < n && GroupsSoFar(acc, n)
    ensures var x := small + d + acc;
      |x| >= 1 && 1 <= x[0] <= 9 && x[|x| - 1] != 0 && NoDoubleZero(x) && EndsWell(x)
      && (|x| == 1 ==> x == [p] && p < 10)
  {
    NoDoubleZeroConcat(small, d);
    NoDoubleZeroConcat(small + d, acc);
    EndsWellConcat(small, d);
    EndsWellConcat(small + d, acc);
    var x := small + d + acc;
    assert x[0] == small[0];
    if acc != [] {
      assert x[|x| - 1] == acc[|acc| - 1];
    } else if d != [] {
      assert x[|x| - 1] == d[0];
    } else {
      assert x[|x| - 1] == small[|small| - 1];
    }
  }

  lemma BridgeShape(x: seq<nat>)
    requires x != [] && x[0] != 0 && x[|x| - 1] != 0 && NoDoubleZero(x) && EndsWell(x)
    requires |x| == 1 ==> x[0] <= 10
    ensures var y := [0] + x;
      y[|y| - 1] != 0 && NoDoubleZero(y) && EndsWell(y)
  {
    NoDoubleZeroConcat([0], x);
    EndsWellConcat([0], x);
    assert ([0] + x)[|[0] + x| - 1] == x[|x| - 1];
  }

  lemma GroupStepShape(n: nat, i: nat, acc: seq<nat>)
    requires 0 < n && i <= 2 && GroupsSoFar(acc, n)
    ensures var p := n % WAN;
      GroupsSoFar(FillZeroValues(SmallValues(p, 0, []) + DelimiterValues(i, p) + acc, p, n / WAN),
                  n / WAN)
  {
    var p := n % WAN;
    if p == 0 {
      assert SmallValues(p, 0, []) + DelimiterValues(i, p) + acc == acc;
      EmptyGroupShape(acc, n / WAN);
    } else {
      GroupInFrontShape(p, i, acc, n);
      FullGroupShape(SmallValues(p, 0, []) + DelimiterValues(i, p) + acc, p, n / WAN);
    }
  }

  /** An empty group writes at most the bridging 零. */
  lemma EmptyGroupShape(acc: seq<nat>, rest: nat)
    requires GroupsSoFar(acc, 1)
    ensures GroupsSoFar(FillZeroValues(acc, 0, rest), rest)
  {
    if rest != 0 && acc != [] && acc[0] != 0 {
      BridgeShape(acc);
      assert FillZeroValues(acc, 0, rest) == [0] + acc;
    } else {
      assert FillZeroValues(acc, 0, rest) == acc;
    }
  }

  /** A non-empty group `p` written in front, as `x`, with the 零 that bridges a gap. */
  lemma FullGroupShape(x: seq<nat>, p: nat, rest: nat)
    requires 0 < p < WAN && |x| >= 1 && 1 <= x[0] <= 9 && x[|x| - 1] != 0
    requires NoDoubleZero(x) && EndsWell(x) && (|x| == 1 ==> x == [p] && p < 10)
    ensures GroupsSoFar(FillZeroValues(x, p, rest), rest)
  {
    if rest != 0 && p < 1000 {
      BridgeShape(x);
      assert FillZeroValues(x, p, rest) == [0] + x;
    } else {
      assert FillZeroValues(x, p, rest) == x;
    }
  }

  lemma {:induction false} GroupsShapeFrom(n: nat, i: nat, acc: seq<nat>)
    requires i <= 3 && n < GroupCeiling(i) && GroupsSoFar(acc, n)
    ensures GroupsSoFar(GroupValues(n, i, acc), 0)
    decreases n
  {
    if n > 0 {
      var p := n % WAN;
      GroupStepShape(n, i, acc);
      GroupsShapeFrom(n / WAN, i + 1,
                      FillZeroValues(SmallValues(p, 0, []) + DelimiterValues(i, p) + acc, p, n / WAN));
    }
  }

  /** The last group written is the leading one: a digit, then a unit or a delimiter unless
      the whole number is that digit. */
  lemma {:induction false} GroupsLead(n: nat, i: nat, acc: seq<nat>)
    requires i <= 3 && n < GroupCeiling(i) && n > 0 && (i == 0 ==> acc == [])
    ensures var r := GroupValues(n, i, acc);
      |r| >= 1 && 1 <= r[0] <= 9 && (|r| >= 2 ==> r[1] >= 10) && (|r| == 1 ==> i == 0 && r == [n])
    decreases n
  {
    var p := n % WAN;
    var small := SmallValues(p, 0, []);
    var next := FillZeroValues(small + DelimiterValues(i, p) + acc, p, n / WAN);
    if n / WAN > 0 {
      GroupsLead(n / WAN, i + 1, next);
    } else {
      assert p == n;
      SmallShape(p);
      assert GroupValues(n, i, acc) == small + DelimiterValues(i, p) + acc;
      assert GroupValues(0, i + 1, next) == next;
    }
  }

  /** The traditional form of a positive number starts with a digit that is not 零 and is
      followed by a unit or a delimiter, unless the number is that digit; it does not end in
      零, never has 零 twice in a row, and never ends in a digit right after 百, 千, 万 or 亿. */
  lemma TraditionalShape(number: nat)
    requires 0 < number < LIMIT
    ensures var r := TraditionalValues(number);
      |r| >= 1 && 1 <= r[0] <= 9 && (|r| >= 2 ==> r[1] >= 10) && (|r| == 1 ==> r == [number])
      && r[|r| - 1] != 0 && NoDoubleZero(r) && EndsWell(r)
  {
    GroupsLead(number, 0, []);
    GroupsShapeFrom(number, 0, []);
  }
}
