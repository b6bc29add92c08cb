/** `chinese2int_enumeration`: a Chinese numeral written digit by digit (一二三).
    The parser looks every glyph up in the value table before using it, so its
    grammar is stated over glyph values. */
module ChineseEnumeration {
  import opened Glyphs

  /** The digits read as a decimal number, most significant first. */
  function EnumValue(vs: seq<nat>): nat {
    if vs == [] then 0 else EnumValue(vs[..|vs| - 1]) * 10 + vs[|vs| - 1]
  }

  /** The index where the twelve least significant positions begin. */
  function LowStart(vs: seq<nat>): nat {
    if |vs| <= 12 then 0 else |vs| - 12
  }

  /** chinese2int_enumeration: a glyph worth more than 9 within the twelve lowest
      positions is a format error; otherwise a non-zero glyph above them is out of range. */
  function Enumeration(vs: seq<nat>): Result<nat> {
    if !DigitsFrom(vs, LowStart(vs)) then Err(InvalidFormat)
    else if !ZerosBelow(vs, LowStart(vs)) then Err(OutOfRange)
    else Ok(EnumValue(vs))
  }

  /** Every glyph from index `n` on is worth at most 9. */
  predicate DigitsFrom(vs: seq<nat>, n: nat) {
    forall j :: n <= j < |vs| ==> vs[j] <= 9
  }

  /** Every glyph before index `n` is worth zero. */
  predicate ZerosBelow(vs: seq<nat>, n: nat) {
    forall j :: 0 <= j < n && j < |vs| ==> vs[j] == 0
  }

  lemma {:induction false} EnumValueCons(d: nat, vs: seq<nat>)
    ensures EnumValue([d] + vs) == d * Pow10(|vs|) + EnumValue(vs)
    decreases |vs|
  {
    if vs == [] {
      assert [d] + vs == [d];
      assert [d][..0] == [];
    } else {
      var n := |vs|;
      assert ([d] + vs)[..n] == [d] + vs[..n - 1];
      assert ([d] + vs)[n] == vs[n - 1];
      EnumValueCons(d, vs[..n - 1]);
      calc {
        EnumValue([d] + vs);
        EnumValue([d] + vs[..n - 1]) * 10 + vs[n - 1];
        (d * Pow10(n - 1) + EnumValue(vs[..n - 1])) * 10 + vs[n - 1];
        d * Pow10(n) + EnumValue(vs);
      }
    }
  }

  /** Leading zero digits do not change the value; a digit string is below 10^length. */
  lemma {:induction false} EnumValueBound(vs: seq<nat>)
    requires forall j :: 0 <= j < |vs| ==> vs[j] <= 9
    ensures EnumValue(vs) < Pow10(|vs|)
    decreases |vs|
  {
    if vs != [] {
      EnumValueBound(vs[..|vs| - 1]);
    }
  }

  lemma {:induction false} EnumValueZeros(z: seq<nat>, vs: seq<nat>)
    requires forall j :: 0 <= j < |z| ==> z[j] == 0
    ensures EnumValue(z + vs) == EnumValue(vs)
    decreases |z|
  {
    if z != [] {
      assert z[0] == 0 && z == [z[0]] + z[1..];
      assert z + vs == [0] + (z[1..] + vs);
      EnumValueCons(0, z[1..] + vs);
      assert EnumValue(z + vs) == EnumValue(z[1..] + vs);
      EnumValueZeros(z[1..], vs);
    } else {
      assert z + vs == vs;
    }
  }

  /** An accepted enumeration numeral is below 10^12. */
  lemma EnumerationBelowLimit(vs: seq<nat>)
    requires Enumeration(vs).Ok?
    ensures Enumeration(vs).value < LIMIT
  {
    var k := LowStart(vs);
    assert vs == vs[..k] + vs[k..];
    EnumValueZeros(vs[..k], vs[k..]);
    EnumValueBound(vs[k..]);
    Pow10Mono(|vs[k..]|, 12);
    assert Pow10(12) == LIMIT by { Pow10Twelve(); }
  }

  lemma Pow10Twelve()
    ensures Pow10(12) == LIMIT
  {
    assert Pow10(2) == 100;
    assert Pow10(4) == 10000;
    assert Pow10(6) == 1000000;
    assert Pow10(8) == 100000000;
    assert Pow10(10) == 10000000000;
  }

  lemma {:induction false} Pow10Mono(a: nat, b: nat)
    requires a <= b
    ensures Pow10(a) <= Pow10(b)
    decreases b - a
  {
    if a < b {
      Pow10Mono(a + 1, b);
    }
  }

  /** The overflow test of the enumeration loop: stripping zeros leaves something
      exactly when some glyph of the prefix is worth more than zero. */
  lemma ZeroPrefix(s: string, n: nat)
    requires IsNumeral(s) && n <= |s|
    ensures |LStrip(s[..n], ZeroGlyphs)| == 0 <==> ZerosBelow(Values(s), n)
  {
    var t := LStrip(s[..n], ZeroGlyphs);
    if |t| > 0 {
      assert t[0] == s[n - |t|];
      assert Values(s)[n - |t|] != 0;
    } else {
      forall j | 0 <= j < n ensures Values(s)[j] == 0 {
        assert s[..n][j] in ZeroGlyphs;
      }
    }
  }

  /** The two glyphs worth zero. */
  const ZeroGlyphs: set<char> := {'零', '〇'}

  lemma EnumValueStep(vs: seq<nat>, at: nat, m: nat)
    requires at < |vs| && m == Pow10(|vs| - at - 1)
    ensures EnumValue(vs[at..]) == vs[at] * m + EnumValue(vs[at + 1..])
  {
    assert vs[at..] == [vs[at]] + vs[at + 1..];
    EnumValueCons(vs[at], vs[at + 1..]);
  }

  /** A glyph worth more than 9 among the twelve lowest positions is a format error. */
  lemma EnumerationFormatError(vs: seq<nat>, k: nat)
    requires LowStart(vs) <= k < |vs| && vs[k] > 9
    ensures Enumeration(vs) == Err(InvalidFormat)
  {
  }

  /** With the twelve lowest positions all digits, a non-zero glyph above them is out of range. */
  lemma EnumerationOverflow(vs: seq<nat>)
    requires |vs| >= 12 && DigitsFrom(vs, |vs| - 12) && !ZerosBelow(vs, |vs| - 12)
    ensures Enumeration(vs) == Err(OutOfRange)
  {
  }

  lemma DigitsFromStep(vs: seq<nat>, k: nat)
    requires k < |vs| && vs[k] <= 9 && DigitsFrom(vs, k + 1)
    ensures DigitsFrom(vs, k)
  {
  }

  lemma EnumerationAccepted(vs: seq<nat>)
    requires DigitsFrom(vs, 0) && ZerosBelow(vs, LowStart(vs))
    ensures Enumeration(vs) == Ok(EnumValue(vs))
  {
  }

  /** What the enumeration loop knows once the glyphs from index `k` on are read: the
      place value `m` of the next glyph, the value read so far, that every glyph read is a
      digit, and, once twelve glyphs are read, that every glyph above them is zero. */
  ghost predicate Progress(vs: seq<nat>, k: nat, number: int, m: int) {
    k <= |vs| && m == Pow10(|vs| - k) && number == EnumValue(vs[k..]) && DigitsFrom(vs, k)
    && (|vs| - k >= 12 ==> ZerosBelow(vs, LowStart(vs)))
  }

  /** Reading one more digit, right to left. */
  lemma ProgressStep(vs: seq<nat>, k: nat, number: int, m: int)
    requires 0 < k && Progress(vs, k, number, m) && vs[k - 1] <= 9
    requires |vs| - k == 11 ==> ZerosBelow(vs, k - 1)
    ensures Progress(vs, k - 1, number + vs[k - 1] * m, m * 10)
  {
    EnumValueStep(vs, k - 1, m);
    DigitsFromStep(vs, k - 1);
  }

  /** chinese2int_enumeration: a right-to-left loop accumulating digit * 10^position. */
  method ParseEnumeration(s: string) returns (r: Result<nat>)
    requires IsNumeral(s)
    ensures r == Enumeration(Values(s))
  {
    ghost var vs := Values(s);
    var number: int := 0;
    var length := |s|;
    var i := 0;
    var m: int := 1;
    while length > 0
      invariant 0 <= length <= |s| && i == |s| - length
      invariant Progress(vs, length, number, m)
    {
      length := length - 1;
      var p := Value(s[length]);
      assert vs[length] == p;
      if p > 9 {
        EnumerationFormatError(vs, length);
        return Err(InvalidFormat);
      }
      ghost var before := number;
      number := number + p * m;
      if i == 11 {
        ZeroPrefix(s, length);
        if |LStrip(s[..length], ZeroGlyphs)| > 0 {
          DigitsFromStep(vs, length);
          EnumerationOverflow(vs);
          return Err(OutOfRange);
        }
      }
      ProgressStep(vs, length + 1, before, m);
      m := m * 10;
      i := i + 1;
    }
    assert vs[0..] == vs;
    EnumerationAccepted(vs);
    return Ok(number);
  }
}
