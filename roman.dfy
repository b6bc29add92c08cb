/** Roman numerals: `Cn2Int.int2roman` and `Cn2Int.roman2int`. */
module Roman {
  import opened Glyphs

  /** `Table.int2roman`: row i renders the digit of place 10^i. */
  const RomanTable: seq<seq<string>> := [
    ["", "I", "II", "III", "IV", "V", "VI", "VII", "VIII", "IX"],
    ["", "X", "XX", "XXX", "XL", "L", "LX", "LXX", "LXXX", "XC"],
    ["", "C", "CC", "CCC", "CD", "D", "DC", "DCC", "DCCC", "CM"],
    ["", "M", "MM", "MMM"]
  ]

  /** The letters `Table.roman2int` knows once `str.upper` has been applied. */
  predicate IsRomanLetter(c: char) {
    c == 'I' || c == 'V' || c == 'X' || c == 'L' || c == 'C' || c == 'D' || c == 'M'
  }

  predicate IsRomanInput(c: char) {
    IsRomanLetter(c) || c == 'i' || c == 'v' || c == 'x' || c == 'l' || c == 'c' || c == 'd' || c == 'm'
  }

  /** `str.upper` on the fourteen letters roman2int can look up. */
  function UpperLetter(c: char): (u: char)
    requires IsRomanInput(c)
    ensures IsRomanLetter(u)
    ensures IsRomanLetter(c) ==> u == c
  {
    match c
    case 'i' => 'I'
    case 'v' => 'V'
    case 'x' => 'X'
    case 'l' => 'L'
    case 'c' => 'C'
    case 'd' => 'D'
    case 'm' => 'M'
    case _ => c
  }

  function UpperCase(s: string): (u: string)
    requires forall i :: 0 <= i < |s| ==> IsRomanInput(s[i])
    ensures |u| == |s|
    ensures forall i :: 0 <= i < |s| ==> u[i] == UpperLetter(s[i])
  {
    seq(|s|, i requires 0 <= i < |s| => UpperLetter(s[i]))
  }

  /** `Table.roman2int`. */
  function LetterValue(c: char): nat
    requires IsRomanLetter(c)
  {
    match c
    case 'I' => 1
    case 'V' => 5
    case 'X' => 10
    case 'L' => 50
    case 'C' => 100
    case 'D' => 500
    case 'M' => 1000
  }

  predicate IsRomanWord(s: string) {
    forall i :: 0 <= i < |s| ==> IsRomanLetter(s[i])
  }

  /** The subtractive reading: a letter counts negatively when the next letter is worth more. */
  function SubtractiveSum(s: string): int
    requires IsRomanWord(s)
  {
    if |s| == 0 then 0
    else if |s| == 1 then LetterValue(s[0])
    else
      var v: int := LetterValue(s[0]);
      (if v < LetterValue(s[1]) then -v else v) + SubtractiveSum(s[1..])
  }

  /** The canonical numeral of `n`: the thousands, hundreds, tens and units table entries. */
  function RomanOf(n: nat): (s: string)
    requires 1 <= n < 4000
  {
    RomanTable[3][n / 1000] + RomanTable[2][n / 100 % 10] + RomanTable[1][n / 10 % 10] + RomanTable[0][n % 10]
  }

  /** The ceiling on what is left of a number below 4000 once `i` places are consumed. */
  const PlaceBound: seq<nat> := [4000, 400, 40, 4, 1]

  /** The table entries of `n`'s digits, read as the places `i`, `i+1`, ... */
  function Places(n: nat, i: nat): string
    requires i <= 4 && n < PlaceBound[i]
    decreases n
  {
    if n == 0 then "" else Places(n / 10, i + 1) + RomanTable[i][n % 10]
  }

  /** int2roman: `None` outside [1, 4000), otherwise the four table entries concatenated. */
  method IntToRoman(number: int) returns (r: Option<string>)
    ensures r.None? <==> number <= 0 || number >= 4000
    ensures r.Some? ==> r.value == RomanOf(number)
  {
    if number <= 0 || number >= 4000 {
      return None;
    }
    var n, s := number, "";
    var i := 0;
    while n > 0
      invariant 0 <= i <= 4 && 0 <= n < PlaceBound[i]
      invariant Places(n, i) + s == Places(number, 0)
      decreases n
    {
      var p := n % 10;
      n := n / 10;
      s := RomanTable[i][p] + s;
      i := i + 1;
    }
    PlacesAll(number);
    return Some(s);
  }


  /** Reading all places of `n` gives its canonical numeral. */
  lemma PlacesAll(n: nat)
    requires 1 <= n < 4000
    ensures Places(n, 0) == RomanOf(n)
  {
    var t, h, te := n / 1000, n / 100, n / 10;
    assert te / 10 == h && h / 10 == t && t < 4;
    assert Places(t, 3) == RomanTable[3][t] by {
      if t != 0 { assert t / 10 == 0 && t % 10 == t; }
    }
    assert Places(h, 2) == RomanTable[3][t] + RomanTable[2][h % 10];
    assert Places(te, 1) == RomanTable[3][t] + RomanTable[2][h % 10] + RomanTable[1][te % 10];
    assert h % 10 == n / 100 % 10 && te % 10 == n / 10 % 10;
  }

  /** What every table entry is worth and which letters it starts and ends with. */
  predicate EntryOk(i: nat, d: nat)
    requires i <= 3 && d < |RomanTable[i]|
  {
    var w := RomanTable[i][d];
    IsRomanWord(w) && SubtractiveSum(w) == d * Pow10(i)
    && (w != [] ==> LetterValue(w[0]) < Pow10(i + 1) && LetterValue(w[|w| - 1]) >= Pow10(i))
  }

  lemma EntryFacts(i: nat, d: nat)
    requires i <= 3 && d < |RomanTable[i]|
    ensures EntryOk(i, d)
  {
    if i == 0 { Row0(d); } else if i == 1 { Row1(d); } else if i == 2 { Row2(d); } else { Row3(d); }
  }

  lemma Row0(d: nat)
    requires d < |RomanTable[0]|
    ensures EntryOk(0, d)
  {
    if d < 5 { Row0Low(d); } else { Row0High(d); }
  }

  lemma Row0Low(d: nat)
    requires d < 5
    ensures EntryOk(0, d)
  {
    assert Pow10(0) == 1 && Pow10(1) == 10;
    if d == 0 { assert RomanTable[0][0] == ""; }
    else if d == 1 { assert RomanTable[0][1] == "I"; }
    else if d == 2 { assert RomanTable[0][2] == "II"; }
    else if d == 3 { assert RomanTable[0][3] == "III"; }
    else if d == 4 { assert RomanTable[0][4] == "IV"; }
  }

  lemma Row0High(d: nat)
    requires 5 <= d < |RomanTable[0]|
    ensures EntryOk(0, d)
  {
    assert Pow10(0) == 1 && Pow10(1) == 10;
    if d == 5 { assert RomanTable[0][5] == "V"; }
    else if d == 6 { assert RomanTable[0][6] == "VI"; }
    else if d == 7 { assert RomanTable[0][7] == "VII"; }
    else if d == 8 { assert RomanTable[0][8] == "VIII"; }
    else if d == 9 { assert RomanTable[0][9] == "IX"; }
  }

  lemma Row1(d: nat)
    requires d < |RomanTable[1]|
    ensures EntryOk(1, d)
  {
    if d < 5 { Row1Low(d); } else { Row1High(d); }
  }

  lemma Row1Low(d: nat)
    requires d < 5
    ensures EntryOk(1, d)
  {
    assert Pow10(1) == 10 && Pow10(2) == 100;
    if d == 0 { assert RomanTable[1][0] == ""; }
    else if d == 1 { assert RomanTable[1][1] == "X"; }
    else if d == 2 { assert RomanTable[1][2] == "XX"; }
    else if d == 3 { assert RomanTable[1][3] == "XXX"; }
    else if d == 4 { assert RomanTable[1][4] == "XL"; }
  }

  lemma Row1High(d: nat)
    requires 5 <= d < |RomanTable[1]|
    ensures EntryOk(1, d)
  {
    assert Pow10(1) == 10 && Pow10(2) == 100;
    if d == 5 { assert RomanTable[1][5] == "L"; }
    else if d == 6 { assert RomanTable[1][6] == "LX"; }
    else if d == 7 { assert RomanTable[1][7] == "LXX"; }
    else if d == 8 { assert RomanTable[1][8] == "LXXX"; }
    else if d == 9 { assert RomanTable[1][9] == "XC"; }
  }

  lemma Row2(d: nat)
    requires d < |RomanTable[2]|
    ensures EntryOk(2, d)
  {
    if d < 5 { Row2Low(d); } else { Row2High(d); }
  }

  lemma Row2Low(d: nat)
    requires d < 5
    ensures EntryOk(2, d)
  {
    assert Pow10(2) == 100 && Pow10(3) == 1000;
    if d == 0 { assert RomanTable[2][0] == ""; }
    else if d == 1 { assert RomanTable[2][1] == "C"; }
    else if d == 2 { assert RomanTable[2][2] == "CC"; }
    else if d == 3 { assert RomanTable[2][3] == "CCC"; }
    else if d == 4 { assert RomanTable[2][4] == "CD"; }
  }

  lemma Row2High(d: nat)
    requires 5 <= d < |RomanTable[2]|
    ensures EntryOk(2, d)
  {
    assert Pow10(2) == 100 && Pow10(3) == 1000;
    if d == 5 { assert RomanTable[2][5] == "D"; }
    else if d == 6 { assert RomanTable[2][6] == "DC"; }
    else if d == 7 { assert RomanTable[2][7] == "DCC"; }
    else if d == 8 { assert RomanTable[2][8] == "DCCC"; }
    else if d == 9 { assert RomanTable[2][9] == "CM"; }
  }

  lemma Row3(d: nat)
    requires d < |RomanTable[3]|
    ensures EntryOk(3, d)
  {
    assert Pow10(3) == 1000 && Pow10(4) == 10000;
    if d == 0 { assert RomanTable[3][0] == ""; }
    else if d == 1 { assert RomanTable[3][1] == "M"; }
    else if d == 2 { assert RomanTable[3][2] == "MM"; }
    else if d == 3 { assert RomanTable[3][3] == "MMM"; }
  }

  /** The subtractive reading splits at a boundary where the letters do not increase. */
  lemma {:induction false} SumConcat(x: string, y: string)
    requires IsRomanWord(x) && IsRomanWord(y)
    requires x == [] || y == [] || LetterValue(x[|x| - 1]) >= LetterValue(y[0])
    ensures IsRomanWord(x + y)
    ensures SubtractiveSum(x + y) == SubtractiveSum(x) + SubtractiveSum(y)
  {
    assert IsRomanWord(x + y) by {
      forall k | 0 <= k < |x + y| ensures IsRomanLetter((x + y)[k]) {
        if k < |x| { assert (x + y)[k] == x[k]; } else { assert (x + y)[k] == y[k - |x|]; }
      }
    }
    if x == [] {
      assert x + y == y;
    } else if |x| == 1 {
      if y != [] {
        assert (x + y)[1..] == y;
      } else {
        assert x + y == x;
      }
    } else {
      SumConcat(x[1..], y);
      assert (x + y)[1..] == x[1..] + y;
      assert (x + y)[1] == x[1];
    }
  }

  /** Prepending the entry of place `k` to a numeral of the lower places adds its value. */
  lemma PrependPlace(k: nat, e: nat, w: string)
    requires k <= 3 && e < |RomanTable[k]| && IsRomanWord(w)
    requires w == [] || LetterValue(w[0]) < Pow10(k)
    ensures IsRomanWord(RomanTable[k][e] + w)
    ensures SubtractiveSum(RomanTable[k][e] + w) == e * Pow10(k) + SubtractiveSum(w)
    ensures RomanTable[k][e] + w == [] || LetterValue((RomanTable[k][e] + w)[0]) < Pow10(k + 1)
  {
    EntryFacts(k, e);
    SumConcat(RomanTable[k][e], w);
    if RomanTable[k][e] == [] {
      assert RomanTable[k][e] + w == w;
      if w != [] { assert Pow10(k) < Pow10(k + 1); }
    } else {
      assert (RomanTable[k][e] + w)[0] == RomanTable[k][e][0];
    }
  }

  /** The subtractive reading of the canonical numeral of `n` is `n`. */
  lemma SumOfRomanOf(n: nat)
    requires 1 <= n < 4000
    ensures IsRomanWord(RomanOf(n)) && SubtractiveSum(RomanOf(n)) == n
  {
    var a, b, c, d := n / 1000, n / 100 % 10, n / 10 % 10, n % 10;
    Decimal4(n);
    var w := RomanTable[3][a] + (RomanTable[2][b] + (RomanTable[1][c] + RomanTable[0][d]));
    assert RomanOf(n) == w;
    SumOfPlaces(a, b, c, d);
    assert SubtractiveSum(w) == n;
  }

  lemma SumOfPlaces(a: nat, b: nat, c: nat, d: nat)
    requires a < 4 && b < 10 && c < 10 && d < 10
    ensures var w := RomanTable[3][a] + (RomanTable[2][b] + (RomanTable[1][c] + RomanTable[0][d]));
      IsRomanWord(w) && SubtractiveSum(w) == a * 1000 + b * 100 + c * 10 + d
  {
    assert Pow10(0) == 1 && Pow10(1) == 10 && Pow10(2) == 100 && Pow10(3) == 1000;
    var w0 := RomanTable[0][d];
    EntryFacts(0, d);
    PrependPlace(1, c, w0);
    var w1 := RomanTable[1][c] + w0;
    PrependPlace(2, b, w1);
    var w2 := RomanTable[2][b] + w1;
    PrependPlace(3, a, w2);
  }

  lemma Decimal4(n: nat)
    requires n < 10000
    ensures n == n / 1000 * 1000 + n / 100 % 10 * 100 + n / 10 % 10 * 10 + n % 10
    ensures n / 1000 < 10
  {
  }

  predicate IsRomanInputWord(s: string) {
    forall i :: 0 <= i < |s| ==> IsRomanInput(s[i])
  }

  /** roman2int's verdict: the subtractive reading of the upper-cased string, kept only when
      int2roman renders it back as exactly `s`. */
  function RomanNumeral(s: string): (r: Result<int>)
    requires |s| >= 1 && IsRomanInputWord(s)
  {
    var v := SubtractiveSum(UpperCase(s));
    if 1 <= v < 4000 && RomanOf(v) == s then Ok(v) else Err(InvalidFormat)
  }

  /** roman2int: a for loop accumulates the subtractive reading, then the result is re-encoded. */
  method RomanToInt(s: string) returns (r: Result<int>)
    requires |s| >= 1 && IsRomanInputWord(s)
    ensures r == RomanNumeral(s)
    ensures r.Ok? ==> 1 <= r.value < 4000 && RomanOf(r.value) == s
  {
    var number := 0;
    var upper := UpperCase(s);
    assert IsRomanWord(upper);
    for i := 0 to |s| - 1
      invariant number + SubtractiveSum(upper[i..]) == SubtractiveSum(upper)
    {
      var p := LetterValue(upper[i]);
      var next := LetterValue(upper[i + 1]);
      var rest := upper[i..];
      assert rest[0] == upper[i] && rest[1] == upper[i + 1] && rest[1..] == upper[i + 1..];
      assert SubtractiveSum(rest) == (if p < next then -p else p) + SubtractiveSum(upper[i + 1..]);
      if p < next {
        number := number - p;
      } else {
        number := number + p;
      }
    }
    assert upper[|s| - 1..] == [upper[|s| - 1]];
    number := number + LetterValue(upper[|s| - 1]);
    var back := IntToRoman(number);
    if back != Some(s) {
      return Err(InvalidFormat);
    }
    return Ok(number);
  }

  /** roman2int accepts exactly the canonical numerals, each with its own value. */
  lemma {:induction false} RomanAcceptsExactlyCanonical(s: string, v: int)
    requires |s| >= 1 && IsRomanInputWord(s)
    ensures RomanNumeral(s) == Ok(v) <==> 1 <= v < 4000 && s == RomanOf(v)
  {
    if 1 <= v < 4000 && s == RomanOf(v) {
      SumOfRomanOf(v);
      assert UpperCase(s) == s;
    }
  }

  /** roman2int(int2roman(n)) == n on [1, 4000). */
  lemma RomanRoundTrip(n: nat)
    requires 1 <= n < 4000
    ensures |RomanOf(n)| >= 1 && IsRomanInputWord(RomanOf(n))
    ensures RomanNumeral(RomanOf(n)) == Ok(n)
  {
    SumOfRomanOf(n);
    RomanAcceptsExactlyCanonical(RomanOf(n), n);
  }

  /** Despite the "ignore case" remark, a lower-case letter anywhere is always rejected. */
  lemma LowerCaseRejected(s: string, i: nat)
    requires |s| >= 1 && IsRomanInputWord(s)
    requires i < |s| && !IsRomanLetter(s[i])
    ensures RomanNumeral(s) == Err(InvalidFormat)
  {
    var v := SubtractiveSum(UpperCase(s));
    if 1 <= v < 4000 && |RomanOf(v)| == |s| {
      SumOfRomanOf(v);
      assert IsRomanLetter(RomanOf(v)[i]);
    }
  }
}
