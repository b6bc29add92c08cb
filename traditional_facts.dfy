/** What chinese2int_traditional guarantees: its range, the formats it rejects, and
    how 万万 stands for 亿. */
module TraditionalFacts {
  import opened Glyphs
  import opened ChineseTraditional

  // ---------------------------------------------------------------------------
  // Range: every accepted numeral is below 10^12.

  /** What the loop keeps between glyphs: `b` is a unit value, the group `small` has
      fewer places than the unit (one more right after a digit), and `number` is
      smaller than the current delimiter. */
  predicate Bounded(st: State) {
    (st.b == 1 || st.b == 10 || st.b == 100 || st.b == 1000)
    && (if st.flagA then st.small < 10 * st.b else st.small < st.b)
    && ((st.delimiter == 1 && st.number == 0)
        || (st.delimiter == WAN && st.number < WAN)
        || (st.delimiter == YI && st.number < YI))
  }

  /** A bounded state after at least one turn: a 十 read last left no digit before it. */
  predicate Settled(st: State) {
    Bounded(st) && (st.last == 10 ==> st.b == 10 && !st.flagA)
  }

  lemma StepSettled(p: nat, collapse: bool, st: State)
    requires IsGlyphValue(p) && (collapse ==> p == WAN) && Bounded(st)
    requires Step(p, collapse, st).Ok?
    ensures Settled(Step(p, collapse, st).value)
  {
    if 1 <= p <= 9 {
      DigitTimesIsProduct(p, st.b);
    }
  }

  lemma {:induction false} ScanSettled(vs: seq<nat>, hi: nat, st: State)
    requires hi <= |vs| && AreGlyphValues(vs) && Bounded(st)
    requires Scan(vs, hi, st).Ok?
    ensures Bounded(Scan(vs, hi, st).value)
    ensures hi > 0 ==> Settled(Scan(vs, hi, st).value)
  {
    if hi > 0 {
      ScanOnce(vs, hi, st);
      var k := hi - 1;
      var collapse := Collapses(vs, k);
      var next := Step(vs[k], collapse, st).value;
      StepSettled(vs[k], collapse, st);
      var rest := if collapse && k > 0 then k - 1 else k;
      ScanSettled(vs, rest, next);
    }
  }

  /** One turn of a loop that succeeds. */
  lemma ScanOnce(vs: seq<nat>, hi: nat, st: State)
    requires 0 < hi <= |vs| && Scan(vs, hi, st).Ok?
    ensures var k := hi - 1; var collapse := Collapses(vs, k);
      Step(vs[k], collapse, st).Ok?
      && Scan(vs, hi, st) == Scan(vs, if collapse && k > 0 then k - 1 else k, Step(vs[k], collapse, st).value)
  {
  }

  /** With an elided unit the first glyph read is the unit or delimiter before the digit. */
  lemma ElidedFirstTurn(vs: seq<nat>)
    requires |vs| >= 1 && AreGlyphValues(vs) && Elides(vs)
    ensures var k := |vs| - 2;
      Step(vs[k], Collapses(vs, k), Initial(vs)).Ok? ==>
        Settled(Step(vs[k], Collapses(vs, k), Initial(vs)).value)
  {
    DigitTimesIsProduct(vs[|vs| - 1], Penultimate(vs) / 10);
  }

  lemma SettledTotal(st: State)
    requires Settled(st)
    ensures Total(st) < LIMIT
  {
  }

  /** Every value chinese2int_traditional returns is below 10^12 (一万亿). */
  lemma TraditionalBelowLimit(vs: seq<nat>)
    requires |vs| >= 1 && AreGlyphValues(vs)
    ensures Traditional(vs).Ok? ==> Traditional(vs).value < LIMIT
  {
    var init := Initial(vs);
    var n := Scanned(vs);
    if Scan(vs, n, init).Ok? {
      if Elides(vs) {
        var k := n - 1;
        var collapse := Collapses(vs, k);
        ElidedFirstTurn(vs);
        var next := Step(vs[k], collapse, init).value;
        var rest := if collapse && k > 0 then k - 1 else k;
        ScanSettled(vs, rest, next);
      } else {
        ScanSettled(vs, n, init);
      }
      SettledTotal(Scan(vs, n, init).value);
    }
  }

  // ---------------------------------------------------------------------------
  // Reading a numeral in pieces.

  /** The loop continued on the first `hi` glyphs after turns that ended in `r`. */
  function Then(r: Result<State>, vs: seq<nat>, hi: nat): Result<State>
    requires hi <= |vs|
  {
    match r
    case Err(f) => Err(f)
    case Ok(st) => Scan(vs, hi, st)
  }

  /** The loop reads a tail `y` that does not begin with 万 exactly as it reads `y` alone,
      and then goes on with what lies before it. */
  lemma {:induction false} ScanAppend(x: seq<nat>, y: seq<nat>, h: nat, st: State)
    requires h <= |y| && (|y| > 0 ==> y[0] != WAN)
    ensures Scan(x + y, |x| + h, st) == Then(Scan(y, h, st), x + y, |x|)
  {
    if h > 0 {
      var k := h - 1;
      assert (x + y)[|x| + k] == y[k];
      if k > 0 {
        assert (x + y)[|x| + k - 1] == y[k - 1];
      }
      assert Collapses(x + y, |x| + k) == Collapses(y, k);
      match Step(y[k], Collapses(y, k), st)
      case Err(f) =>
      case Ok(next) =>
        ScanAppend(x, y, if Collapses(y, k) && k > 0 then k - 1 else k, next);
    }
  }

  /** Two numerals that agree on their first `hi` glyphs, and on their last glyph when the
      first is 万, read those glyphs alike. */
  lemma {:induction false} ScanPrefix(v: seq<nat>, w: seq<nat>, hi: nat, st: State)
    requires hi <= |v| && hi <= |w| && v[..hi] == w[..hi]
    requires hi > 0 && v[0] == WAN ==> v[|v| - 1] == w[|w| - 1]
    ensures Scan(v, hi, st) == Scan(w, hi, st)
  {
    if hi > 0 {
      var k := hi - 1;
      assert v[k] == v[..hi][k] && w[k] == w[..hi][k];
      if k > 0 {
        assert v[k - 1] == v[..hi][k - 1] && w[k - 1] == w[..hi][k - 1];
      }
      assert Collapses(v, k) == Collapses(w, k);
      match Step(v[k], Collapses(v, k), st)
      case Err(f) =>
      case Ok(next) =>
        var rest := if Collapses(v, k) && k > 0 then k - 1 else k;
        assert v[..rest] == v[..hi][..rest] && w[..rest] == w[..hi][..rest];
        ScanPrefix(v, w, rest, next);
    }
  }

  /** Every turn sets `p`, so what the loop starts with in `last` does not matter. */
  lemma StepForgetsLast(p: nat, collapse: bool, st: State, z: nat)
    ensures Step(p, collapse, st) == Step(p, collapse, st.(last := z))
  {
  }

  lemma ScanForgetsLast(vs: seq<nat>, hi: nat, st: State, z: nat)
    requires 0 < hi <= |vs|
    ensures Scan(vs, hi, st) == Scan(vs, hi, st.(last := z))
  {
    var k := hi - 1;
    StepForgetsLast(vs[k], Collapses(vs, k), st, z);
  }

  /** A run of zeros only leaves `p` at 0. */
  lemma {:induction false} ScanZeros(vs: seq<nat>, lo: nat, hi: nat, st: State)
    requires lo < hi <= |vs| && forall j :: lo <= j < hi ==> vs[j] == 0
    ensures Scan(vs, hi, st) == Scan(vs, lo, st.(last := 0))
  {
    if hi - 1 > lo {
      ScanZeros(vs, lo, hi - 1, st.(last := 0));
    }
  }

  /** The loop reads all of `a` in the numeral `a + y` unless an elided digit is dropped,
      and only `y` can lose one when it has two glyphs or more. */
  lemma ScannedCovers(a: seq<nat>, y: seq<nat>)
    requires |a| >= 1 && (y != [] || !Elides(a + y))
    ensures |a| <= Scanned(a + y) && Scanned(a + y) - |a| <= |y|
  {
  }

  /** A numeral whose loop fails is rejected. */
  lemma ScanRejects(vs: seq<nat>)
    requires |vs| >= 1 && Scan(vs, Scanned(vs), Initial(vs)).Err?
    ensures Traditional(vs).Err?
  {
  }

  // ---------------------------------------------------------------------------
  // Formats the loop rejects.

  /** Reading right to left from glyph `i + m + 1` down to glyph `i`: two digits with
      only zeros between them. */
  lemma DigitsClash(vs: seq<nat>, i: nat, m: nat, st: State)
    requires i + m + 2 <= |vs| && IsDigit(vs[i]) && IsDigit(vs[i + m + 1])
    requires forall j :: i < j <= i + m ==> vs[j] == 0
    ensures Scan(vs, i + m + 2, st).Err?
  {
    var k := i + m + 1;
    match Step(vs[k], false, st)
    case Err(_) =>
    case Ok(s1) =>
      assert s1.flagA;
      if m > 0 {
        ScanZeros(vs, i + 1, k, s1);
      }
  }

  /** Where the two glyphs and the zeros between them stand in the numeral. */
  lemma ZerosBetween(x: seq<nat>, g1: nat, zs: seq<nat>, g2: nat, y: seq<nat>)
    requires forall j :: 0 <= j < |zs| ==> zs[j] == 0
    ensures var vs := x + [g1] + zs + [g2] + y;
      |vs| == |x| + |zs| + 2 + |y| && vs[|x|] == g1 && vs[|x| + |zs| + 1] == g2
      && (forall j :: |x| < j <= |x| + |zs| ==> vs[j] == 0)
      && (y == [] ==> vs[|vs| - 1] == g2 && Penultimate(vs) == if zs == [] then g1 else 0)
  {
    var vs := x + [g1] + zs + [g2] + y;
    forall j | |x| < j <= |x| + |zs| ensures vs[j] == 0 {
      assert vs[j] == zs[j - |x| - 1];
    }
  }

  /** The loop started at `hi` passes through `m`, unless it fails first: only a 万万
      read as 亿 across index `m` could jump over it. */
  lemma {:induction false} ScanReaches(vs: seq<nat>, m: nat, hi: nat, st: State)
    returns (r: Result<State>)
    requires m <= hi <= |vs| && (0 < m < hi ==> !Collapses(vs, m))
    ensures Scan(vs, hi, st) == Then(r, vs, m)
    decreases hi
  {
    if hi == m {
      return Ok(st);
    }
    var k := hi - 1;
    var collapse := Collapses(vs, k);
    match Step(vs[k], collapse, st)
    case Err(f) =>
      return Err(f);
    case Ok(next) =>
      r := ScanReaches(vs, m, if collapse && k > 0 then k - 1 else k, next);
  }

  /** Two digits with nothing but zeros between them are rejected: 三二, 五零六, 三百二二万. */
  lemma RepeatedDigit(x: seq<nat>, d1: nat, zs: seq<nat>, d2: nat, y: seq<nat>)
    requires IsDigit(d1) && IsDigit(d2) && forall j :: 0 <= j < |zs| ==> zs[j] == 0
    ensures Traditional(x + [d1] + zs + [d2] + y).Err?
  {
    var a := x + [d1] + zs + [d2];
    var vs := a + y;
    ZerosBetween(x, d1, zs, d2, y);
    ScannedCovers(a, y);
    var r := ScanReaches(vs, |a|, Scanned(vs), Initial(vs));
    if r.Ok? {
      DigitsClash(vs, |x|, |zs|, r.value);
    }
    ScanRejects(vs);
  }

  /** Reading right to left from glyph `i + m + 1` down to glyph `i`: two units with
      only zeros between them. */
  lemma UnitsClash(vs: seq<nat>, i: nat, m: nat, st: State)
    requires i + m + 2 <= |vs| && IsUnit(vs[i]) && IsUnit(vs[i + m + 1])
    requires forall j :: i < j <= i + m ==> vs[j] == 0
    ensures Scan(vs, i + m + 2, st).Err?
  {
    var k := i + m + 1;
    match Step(vs[k], false, st)
    case Err(_) =>
    case Ok(s1) =>
      assert s1.flagB;
      if m > 0 {
        ScanZeros(vs, i + 1, k, s1);
      }
  }

  /** Two units with nothing but zeros between them are rejected: 三千百, 五百零十, 三千百万. */
  lemma RepeatedUnit(x: seq<nat>, u1: nat, zs: seq<nat>, u2: nat, y: seq<nat>)
    requires IsUnit(u1) && IsUnit(u2) && forall j :: 0 <= j < |zs| ==> zs[j] == 0
    ensures Traditional(x + [u1] + zs + [u2] + y).Err?
  {
    var a := x + [u1] + zs + [u2];
    var vs := a + y;
    ZerosBetween(x, u1, zs, u2, y);
    ScannedCovers(a, y);
    var r := ScanReaches(vs, |a|, Scanned(vs), Initial(vs));
    if r.Ok? {
      UnitsClash(vs, |x|, |zs|, r.value);
    }
    ScanRejects(vs);
  }

  /** Without a delimiter the current unit `b` never decreases. */
  lemma {:induction false} ScanRaisesUnit(vs: seq<nat>, hi: nat, st: State)
    requires hi <= |vs| && forall j :: 0 <= j < hi ==> !IsDelimiter(vs[j])
    requires Scan(vs, hi, st).Ok?
    ensures Scan(vs, hi, st).value.b >= st.b
  {
    if hi > 0 {
      var k := hi - 1;
      ScanRaisesUnit(vs, k, Step(vs[k], false, st).value);
    }
  }

  /** Within a group the units must come in decreasing order: a unit no larger than a unit
      after it, with no delimiter between them, is rejected (七千一千, 五十三百, 五百六千万). */
  lemma UnitOrder(x: seq<nat>, u1: nat, w: seq<nat>, u2: nat, y: seq<nat>)
    requires IsUnit(u1) && IsUnit(u2) && u1 <= u2
    requires forall j :: 0 <= j < |w| ==> !IsDelimiter(w[j])
    ensures Traditional(x + [u1] + w + [u2] + y).Err?
  {
    var tail := w + [u2] + y;
    var vs := x + [u1] + tail;
    UnitOrderShape(x, u1, w, u2, y);
    var a := x + [u1] + w + [u2];
    assert vs == a + y && vs[|a| - 1] == u2;
    ScannedCovers(a, y);
    var r := ScanReaches(vs, |a|, Scanned(vs), Initial(vs));
    if r.Ok? {
      var s0 := r.value;
      ScanAppend(x + [u1], tail, |w| + 1, s0);
      if Scan(tail, |w| + 1, s0).Ok? {
        ScanPastUnit(tail, |w|, s0);
        UnitTooSmall(vs, |x|, Scan(tail, |w| + 1, s0).value);
      }
    }
    ScanRejects(vs);
  }

  /** Where the two units stand in the numeral of `UnitOrder`. */
  lemma UnitOrderShape(x: seq<nat>, u1: nat, w: seq<nat>, u2: nat, y: seq<nat>)
    requires IsUnit(u2) && forall j :: 0 <= j < |w| ==> !IsDelimiter(w[j])
    ensures var tail := w + [u2] + y; var vs := x + [u1] + tail;
      x + [u1] + w + [u2] + y == vs && tail[0] != WAN && tail[|w|] == u2 && vs[|x|] == u1
      && (forall j :: 0 <= j < |w| ==> !IsDelimiter(tail[j]))
      && (y == [] ==> tail[|tail| - 1] == u2)
  {
    var tail := w + [u2] + y;
    if w != [] {
      assert tail[0] == w[0];
    }
    forall j | 0 <= j < |w| ensures !IsDelimiter(tail[j]) {
      assert tail[j] == w[j];
    }
  }

  /** A unit no larger than the current one is rejected. */
  lemma UnitTooSmall(vs: seq<nat>, n: nat, t: State)
    requires n < |vs| && IsUnit(vs[n]) && vs[n] <= t.b
    ensures Scan(vs, n + 1, t).Err?
  {
  }

  /** Reading a unit and then glyphs without a delimiter leaves a unit at least as large. */
  lemma ScanPastUnit(vs: seq<nat>, n: nat, s0: State)
    requires n < |vs| && IsUnit(vs[n]) && forall j :: 0 <= j < n ==> !IsDelimiter(vs[j])
    requires Scan(vs, n + 1, s0).Ok?
    ensures Scan(vs, n + 1, s0).value.b >= vs[n]
  {
    var s1 := Step(vs[n], false, s0).value;
    assert Scan(vs, n + 1, s0) == Scan(vs, n, s1);
    ScanRaisesUnit(vs, n, s1);
  }

  /** Once a 亿 has been read, every further delimiter is out of range; until then the
      delimiter is at most 亿. */
  lemma {:induction false} ScanKeepsYi(vs: seq<nat>, hi: nat, st: State, j: nat)
    requires hi <= |vs| && AreGlyphValues(vs) && st.delimiter <= YI
    requires st.delimiter == YI || (j < hi && vs[j] == YI)
    requires Scan(vs, hi, st).Ok?
    ensures Scan(vs, hi, st).value.delimiter == YI
  {
    if hi == 0 {
      return;
    }
    var k := hi - 1;
    var collapse := Collapses(vs, k);
    var next := Step(vs[k], collapse, st).value;
    var rest := if collapse && k > 0 then k - 1 else k;
    if rest == 0 {
      assert Scan(vs, hi, st) == Ok(next);
    } else {
      ScanKeepsYi(vs, rest, next, j);
    }
  }

  /** Reading down to a delimiter at `i` after a 亿 (or with the delimiter already 亿)
      fails: the delimiter at `i`, or a 万万 ending there, is out of range. */
  lemma {:induction false} YiBlocks(vs: seq<nat>, hi: nat, st: State, i: nat, j: nat)
    requires hi <= |vs| && i < hi && IsDelimiter(vs[i]) && st.delimiter <= YI
    requires st.delimiter == YI || (i < j < hi && vs[j] == YI)
    ensures Scan(vs, hi, st).Err?
    decreases hi
  {
    var k := hi - 1;
    var collapse := Collapses(vs, k);
    var r := Step(vs[k], collapse, st);
    if r.Ok? && k != i && !(collapse && k - 1 == i) {
      YiBlocks(vs, if collapse && k > 0 then k - 1 else k, r.value, i, j);
    }
  }

  /** 亿 must come before every other delimiter: a 万 or 亿 to the left of a 亿 is
      rejected (三万亿, 六亿亿, 三万万二亿). */
  lemma YiLeads(x: seq<nat>, q: nat, y: seq<nat>, j: nat)
    requires IsDelimiter(q) && j < |y| && y[j] == YI
    ensures Traditional(x + [q] + y).Err?
  {
    var vs := x + [q] + y;
    assert vs[|x|] == q && vs[|x| + 1 + j] == YI;
    assert |x| + 1 + j < Scanned(vs);
    YiBlocks(vs, Scanned(vs), Initial(vs), |x|, |x| + 1 + j);
    ScanRejects(vs);
  }

  // ---------------------------------------------------------------------------
  // 万万 reads as 亿.

  lemma TakeConcat(x: seq<nat>, t: seq<nat>)
    ensures (x + t)[..|x|] == x
  {
  }

  /** Reading 万万 at `v[n..n + 2]` from state `s` does what reading 亿 at `w[n]` does
      from `s` with any `p`, when the glyphs before them agree. */
  lemma MyriadMyriadTurn(v: seq<nat>, w: seq<nat>, n: nat, s: State, z: nat)
    requires n + 2 <= |v| && n + 1 <= |w| && v[n] == WAN && v[n + 1] == WAN && w[n] == YI
    requires v[..n] == w[..n] && (n > 0 ==> v[0] != WAN)
    ensures Scan(v, n + 2, s) == Scan(w, n + 1, s.(last := z))
  {
    assert Collapses(v, n + 1) && !Collapses(w, n);
    StepForgetsLast(YI, false, s, z);
    if DelimiterStep(YI, s).Ok? {
      ScanPrefix(v, w, n, DelimiterStep(YI, s).value);
    }
  }

  /** Where 万万 and 亿 stand in the two numerals. */
  lemma MyriadMyriadShape(x: seq<nat>, y: seq<nat>)
    requires x == [] || x[0] != WAN
    ensures var v := x + [WAN, WAN] + y; var w := x + [YI] + y;
      |v| == |x| + 2 + |y| && |w| == |x| + 1 + |y|
      && v[|x|] == WAN && v[|x| + 1] == WAN && w[|x|] == YI
      && v[..|x|] == w[..|x|] && (|x| > 0 ==> v[0] != WAN)
  {
    var v := x + [WAN, WAN] + y;
    var w := x + [YI] + y;
    assert v == x + ([WAN, WAN] + y) && w == x + ([YI] + y);
    TakeConcat(x, [WAN, WAN] + y);
    TakeConcat(x, [YI] + y);
    if x != [] {
      assert v[0] == x[0];
    }
  }

  /** 万万 is read as 亿 (六万万 is six hundred million), wherever it stands, unless the
      numeral ends in a single digit right after it: there the elided unit is taken from
      the second 万 alone (see `MyriadMyriadElided`). */
  lemma MyriadMyriadIsYi(x: seq<nat>, y: seq<nat>)
    requires x == [] || x[0] != WAN
    requires y == [] || y[0] != WAN
    requires |y| == 1 ==> y[0] >= 10
    ensures Traditional(x + [WAN, WAN] + y) == Traditional(x + [YI] + y)
  {
    var v := x + [WAN, WAN] + y;
    var w := x + [YI] + y;
    var h := MyriadMyriadStart(x, y);
    MyriadMyriadTail(x, y, h, Initial(v), Initial(w).last);
    SameScan(v, w);
  }

  /** Two numerals whose loops end in the same state are read alike. */
  lemma SameScan(v: seq<nat>, w: seq<nat>)
    requires |v| >= 1 && |w| >= 1
    requires Scan(v, Scanned(v), Initial(v)) == Scan(w, Scanned(w), Initial(w))
    ensures Traditional(v) == Traditional(w)
  {
  }

  /** After the same `h` glyphs of `y`, reading on through 万万 or through 亿 agrees. */
  lemma MyriadMyriadTail(x: seq<nat>, y: seq<nat>, h: nat, s: State, z: nat)
    requires x == [] || x[0] != WAN
    requires y == [] || y[0] != WAN
    requires h <= |y|
    ensures Scan(x + [WAN, WAN] + y, |x| + 2 + h, s) == Scan(x + [YI] + y, |x| + 1 + h, s.(last := z))
  {
    var v := x + [WAN, WAN] + y;
    var w := x + [YI] + y;
    MyriadMyriadShape(x, y);
    ScanAppend(x + [WAN, WAN], y, h, s);
    ScanAppend(x + [YI], y, h, s.(last := z));
    if h > 0 {
      ScanForgetsLast(y, h, s, z);
      if Scan(y, h, s).Ok? {
        var t := Scan(y, h, s).value;
        MyriadMyriadTurn(v, w, |x|, t, t.last);
        assert t.(last := t.last) == t;
      }
    } else {
      MyriadMyriadTurn(v, w, |x|, s, z);
    }
  }

  /** Both numerals leave the same tail `y[..h]` to the loop and start it alike. */
  lemma MyriadMyriadStart(x: seq<nat>, y: seq<nat>) returns (h: nat)
    requires |y| == 1 ==> y[0] >= 10
    ensures h <= |y|
    ensures Scanned(x + [WAN, WAN] + y) == |x| + 2 + h
    ensures Scanned(x + [YI] + y) == |x| + 1 + h
    ensures Initial(x + [YI] + y) == Initial(x + [WAN, WAN] + y).(last := Initial(x + [YI] + y).last)
  {
    var v := x + [WAN, WAN] + y;
    var w := x + [YI] + y;
    if |y| >= 2 {
      assert v[|v| - 2] == y[|y| - 2] && v[|v| - 1] == y[|y| - 1];
      assert w[|w| - 2] == y[|y| - 2] && w[|w| - 1] == y[|y| - 1];
      h := if Elides(y) then |y| - 1 else |y|;
    } else if |y| == 1 {
      assert v[|v| - 1] == y[0] && w[|w| - 1] == y[0];
      h := 1;
    } else {
      assert v[|v| - 1] == WAN && w[|w| - 1] == YI;
      h := 0;
    }
  }

  // ---------------------------------------------------------------------------
  // Worked readings.

  /** 三百二十一. */
  lemma ReadsThreeHundredTwentyOne()
    ensures Traditional([3, 100, 2, 10, 1]) == Ok(321)
  {
    var vs := [3, 100, 2, 10, 1];
    var s5 := State(0, 0, 1, false, false, 1, 10);
    assert Scanned(vs) == 5 && Initial(vs) == s5;
    var s4 := State(0, 1, 1, true, false, 1, 1);
    assert DigitTimes(1, 1) == 1;
    ScanTurn(vs, 5, s5, s4);
    var s3 := State(0, 1, 10, false, true, 1, 10);
    ScanTurn(vs, 4, s4, s3);
    var s2 := State(0, 21, 10, true, false, 1, 2);
    assert DigitTimes(2, 10) == 20;
    ScanTurn(vs, 3, s3, s2);
    var s1 := State(0, 21, 100, false, true, 1, 100);
    ScanTurn(vs, 2, s2, s1);
    var s0 := State(0, 321, 100, true, false, 1, 3);
    assert DigitTimes(3, 100) == 300;
    ScanTurn(vs, 1, s1, s0);
    assert Total(s0) == 321;
  }

  /** 一百二: a trailing digit counts one unit below the last one. */
  lemma ReadsElidedTen()
    ensures Traditional([1, 100, 2]) == Ok(120)
  {
    var vs := [1, 100, 2];
    var s2 := State(0, 20, 10, false, false, 1, 100);
    assert DigitTimes(2, 10) == 20;
    assert Scanned(vs) == 2 && Initial(vs) == s2;
    var s1 := State(0, 20, 100, false, true, 1, 100);
    ScanTurn(vs, 2, s2, s1);
    var s0 := State(0, 120, 100, true, false, 1, 1);
    assert DigitTimes(1, 100) == 100;
    ScanTurn(vs, 1, s1, s0);
    assert Total(s0) == 120;
  }

  /** 一亿零九千. */
  lemma ReadsYiZeroNineThousand()
    ensures Traditional([1, 100000000, 0, 9, 1000]) == Ok(100009000)
  {
    var vs := [1, YI, 0, 9, 1000];
    var s5 := State(0, 0, 1, false, false, 1, 9);
    assert Scanned(vs) == 5 && Initial(vs) == s5;
    var s4 := State(0, 0, 1000, false, true, 1, 1000);
    ScanTurn(vs, 5, s5, s4);
    var s3 := State(0, 9000, 1000, true, false, 1, 9);
    assert DigitTimes(9, 1000) == 9000;
    ScanTurn(vs, 4, s4, s3);
    var s2 := s3.(last := 0);
    ScanTurn(vs, 3, s3, s2);
    var s1 := State(9000, 0, 1, false, false, YI, YI);
    ScanTurn(vs, 2, s2, s1);
    var s0 := State(9000, 1, 1, true, false, YI, 1);
    assert DigitTimes(1, 1) == 1;
    ScanTurn(vs, 1, s1, s0);
    assert Total(s0) == 100009000;
  }

  /** 十五万: a leading 十 stands for 一十. */
  lemma ReadsLeadingTen()
    ensures Traditional([10, 5, 10000]) == Ok(150000)
  {
    var vs := [10, 5, WAN];
    var s3 := State(0, 0, 1, false, false, 1, 5);
    assert Scanned(vs) == 3 && Initial(vs) == s3;
    var s2 := State(0, 0, 1, false, false, WAN, WAN);
    ScanTurn(vs, 3, s3, s2);
    var s1 := State(0, 5, 1, true, false, WAN, 5);
    assert DigitTimes(5, 1) == 5;
    ScanTurn(vs, 2, s2, s1);
    var s0 := State(0, 5, 10, false, true, WAN, 10);
    ScanTurn(vs, 1, s1, s0);
    assert Total(s0) == 150000;
  }

  /** 六万万. */
  lemma ReadsMyriadMyriad()
    ensures Traditional([6, 10000, 10000]) == Ok(600000000)
  {
    var vs := [6, WAN, WAN];
    var s3 := State(0, 0, 1, false, false, 1, WAN);
    assert Scanned(vs) == 3 && Initial(vs) == s3;
    var s1 := State(0, 0, 1, false, false, YI, YI);
    ScanCollapse(vs, 3, s3, s1);
    var s0 := State(0, 6, 1, true, false, YI, 6);
    assert DigitTimes(6, 1) == 6;
    ScanTurn(vs, 1, s1, s0);
    assert Total(s0) == 600000000;
  }

  /** 五百六千: a unit larger than the one before it. */
  lemma RejectsRisingUnit()
    ensures Traditional([5, 100, 6, 1000]) == Err(InvalidFormat)
  {
  }

  /** 三百二二: two digits in a row. */
  lemma RejectsRepeatedDigit()
    ensures Traditional([3, 100, 2, 2]) == Err(InvalidFormat)
  {
  }

  /** 三千百: two units in a row. */
  lemma RejectsRepeatedUnit()
    ensures Traditional([3, 1000, 100]) == Err(InvalidFormat)
  {
  }

  /** 三万亿: a numeral past the largest the source handles. */
  lemma RejectsMyriadYi()
    ensures Traditional([3, 10000, 100000000]) == Err(OutOfRange)
  {
  }

  /** One turn of the loop, on a glyph that does not collapse with the one before it. */
  lemma ScanTurn(vs: seq<nat>, hi: nat, st: State, next: State)
    requires 0 < hi <= |vs| && !Collapses(vs, hi - 1) && Step(vs[hi - 1], false, st) == Ok(next)
    ensures Scan(vs, hi, st) == Scan(vs, hi - 1, next)
  {
  }

  /** One turn of the loop on a 万 read together with the 万 before it. */
  lemma ScanCollapse(vs: seq<nat>, hi: nat, st: State, next: State)
    requires 1 < hi <= |vs| && Collapses(vs, hi - 1) && Step(vs[hi - 1], true, st) == Ok(next)
    ensures Scan(vs, hi, st) == Scan(vs, hi - 2, next)
  {
  }

  /** 零零零三百六十一: zeros in front of a numeral only reset `last`. */
  lemma ZeroPadded()
    ensures Traditional([0, 0, 0, 3, 100, 6, 10, 1]) == Ok(361)
  {
    var vs := [0, 0, 0, 3, 100, 6, 10, 1];
    var s8 := State(0, 0, 1, false, false, 1, 10);
    assert Scanned(vs) == 8 && Initial(vs) == s8;
    var s7 := State(0, 1, 1, true, false, 1, 1);
    assert DigitTimes(1, 1) == 1;
    ScanTurn(vs, 8, s8, s7);
    var s6 := State(0, 1, 10, false, true, 1, 10);
    ScanTurn(vs, 7, s7, s6);
    var s5 := State(0, 61, 10, true, false, 1, 6);
    assert DigitTimes(6, 10) == 60;
    ScanTurn(vs, 6, s6, s5);
    var s4 := State(0, 61, 100, false, true, 1, 100);
    ScanTurn(vs, 5, s5, s4);
    var s3 := State(0, 361, 100, true, false, 1, 3);
    assert DigitTimes(3, 100) == 300;
    ScanTurn(vs, 4, s4, s3);
    var s0 := State(0, 361, 100, true, false, 1, 0);
    ScanTurn(vs, 3, s3, s0);
    ScanTurn(vs, 2, s0, s0);
    ScanTurn(vs, 1, s0, s0);
  }

  /** 四万五千万: a second 万 after a 万 group turns the delimiter into 亿. */
  lemma FourMyriadFiveThousandMyriad()
    ensures Traditional([4, 10000, 5, 1000, 10000]) == Ok(450000000)
  {
    var vs := [4, 10000, 5, 1000, 10000];
    var s5 := State(0, 0, 1, false, false, 1, 1000);
    assert Scanned(vs) == 5 && Initial(vs) == s5;
    var s4 := State(0, 0, 1, false, false, WAN, WAN);
    ScanTurn(vs, 5, s5, s4);
    var s3 := State(0, 0, 1000, false, true, WAN, 1000);
    ScanTurn(vs, 4, s4, s3);
    var s2 := State(0, 5000, 1000, true, false, WAN, 5);
    assert DigitTimes(5, 1000) == 5000;
    ScanTurn(vs, 3, s3, s2);
    var s1 := State(50000000, 0, 1, false, false, YI, WAN);
    ScanTurn(vs, 2, s2, s1);
    var s0 := State(50000000, 4, 1, true, false, YI, 4);
    assert DigitTimes(4, 1) == 4;
    ScanTurn(vs, 1, s1, s0);
    assert Total(s0) == 450000000;
  }

  /** A digit right after a trailing 万万 is read one place below 万 (千), not one place
      below 亿: 六万万五 is 600005000 while 六亿五 is 650000000. */
  lemma MyriadMyriadElided()
    ensures Traditional([6, 10000, 10000, 5]) == Ok(600005000)
  {
    var vs := [6, WAN, WAN, 5];
    var s3 := State(0, 5000, 1000, false, false, 1, WAN);
    assert DigitTimes(5, 1000) == 5000;
    assert Scanned(vs) == 3 && Initial(vs) == s3;
    var s1 := State(5000, 0, 1, false, false, YI, YI);
    ScanCollapse(vs, 3, s3, s1);
    var s0 := State(5000, 6, 1, true, false, YI, 6);
    assert DigitTimes(6, 1) == 6;
    ScanTurn(vs, 1, s1, s0);
    assert Total(s0) == 600005000;
  }

  /** 六亿五: after a single 亿 the digit is read one place below it. */
  lemma YiElided()
    ensures Traditional([6, 100000000, 5]) == Ok(650000000)
  {
    var vs := [6, YI, 5];
    var s2 := State(0, 50000000, 10000000, false, false, 1, YI);
    assert DigitTimes(5, 10000000) == 50000000;
    assert Scanned(vs) == 2 && Initial(vs) == s2;
    var s1 := State(50000000, 0, 1, false, false, YI, YI);
    ScanTurn(vs, 2, s2, s1);
    var s0 := State(50000000, 6, 1, true, false, YI, 6);
    assert DigitTimes(6, 1) == 6;
    ScanTurn(vs, 1, s1, s0);
    assert Total(s0) == 650000000;
  }

  /** 一万二: a digit after a final 万 counts in the 千 place. */
  lemma ReadsElidedThousand()
    ensures Traditional([1, 10000, 2]) == Ok(12000)
  {
    var vs := [1, WAN, 2];
    var s2 := State(0, 2000, 1000, false, false, 1, WAN);
    assert DigitTimes(2, 1000) == 2000;
    assert Scanned(vs) == 2 && Initial(vs) == s2;
    var s1 := State(2000, 0, 1, false, false, WAN, WAN);
    ScanTurn(vs, 2, s2, s1);
    var s0 := State(2000, 1, 1, true, false, WAN, 1);
    assert DigitTimes(1, 1) == 1;
    ScanTurn(vs, 1, s1, s0);
    assert Total(s0) == 12000;
  }

  /** 一亿二: a digit after a final 亿 counts in the 千万 place. */
  lemma ReadsElidedTenMillion()
    ensures Traditional([1, 100000000, 2]) == Ok(120000000)
  {
    var vs := [1, YI, 2];
    var s2 := State(0, 20000000, 10000000, false, false, 1, YI);
    assert DigitTimes(2, 10000000) == 20000000;
    assert Scanned(vs) == 2 && Initial(vs) == s2;
    var s1 := State(20000000, 0, 1, false, false, YI, YI);
    ScanTurn(vs, 2, s2, s1);
    var s0 := State(20000000, 1, 1, true, false, YI, 1);
    assert DigitTimes(1, 1) == 1;
    ScanTurn(vs, 1, s1, s0);
    assert Total(s0) == 120000000;
  }

  /** 一百万: a final magnitude after a unit is not an elision. */
  lemma ReadsHundredMyriad()
    ensures Traditional([1, 100, 10000]) == Ok(1000000)
  {
    var vs := [1, 100, WAN];
    var s3 := State(0, 0, 1, false, false, 1, 100);
    assert Scanned(vs) == 3 && Initial(vs) == s3;
    var s2 := State(0, 0, 1, false, false, WAN, WAN);
    ScanTurn(vs, 3, s3, s2);
    var s1 := State(0, 0, 100, false, true, WAN, 100);
    ScanTurn(vs, 2, s2, s1);
    var s0 := State(0, 100, 100, true, false, WAN, 1);
    assert DigitTimes(1, 100) == 100;
    ScanTurn(vs, 1, s1, s0);
    assert Total(s0) == 1000000;
  }

  /** 五十三万千六百零一: a unit with no digit in front of it is taken as it stands, so
      the 千 adds nothing and the numeral is read as 530601. */
  lemma ReadsBareThousand()
    ensures Traditional([5, 10, 3, 10000, 1000, 6, 100, 0, 1]) == Ok(530601)
  {
    var vs := [5, 10, 3, WAN, 1000, 6, 100, 0, 1];
    var s9 := State(0, 0, 1, false, false, 1, 0);
    assert Scanned(vs) == 9 && Initial(vs) == s9;
    var s8 := State(0, 1, 1, true, false, 1, 1);
    assert DigitTimes(1, 1) == 1;
    ScanTurn(vs, 9, s9, s8);
    var s7 := s8.(last := 0);
    ScanTurn(vs, 8, s8, s7);
    var s6 := State(0, 1, 100, false, true, 1, 100);
    ScanTurn(vs, 7, s7, s6);
    var s5 := State(0, 601, 100, true, false, 1, 6);
    assert DigitTimes(6, 100) == 600;
    ScanTurn(vs, 6, s6, s5);
    var s4 := State(0, 601, 1000, false, true, 1, 1000);
    ScanTurn(vs, 5, s5, s4);
    var s3 := State(601, 0, 1, false, true, WAN, WAN);
    ScanTurn(vs, 4, s4, s3);
    var s2 := State(601, 3, 1, true, false, WAN, 3);
    assert DigitTimes(3, 1) == 3;
    ScanTurn(vs, 3, s3, s2);
    var s1 := State(601, 3, 10, false, true, WAN, 10);
    ScanTurn(vs, 2, s2, s1);
    var s0 := State(601, 53, 10, true, false, WAN, 5);
    assert DigitTimes(5, 10) == 50;
    ScanTurn(vs, 1, s1, s0);
    assert Total(s0) == 530601;
  }

  /** 一亿万七十二: a delimiter right after another is no adjacency error, and an empty 万
      group adds nothing. */
  lemma ReadsYiMyriad()
    ensures Traditional([1, 100000000, 10000, 7, 10, 2]) == Ok(100000072)
  {
    var vs := [1, YI, WAN, 7, 10, 2];
    var s6 := State(0, 0, 1, false, false, 1, 10);
    assert Scanned(vs) == 6 && Initial(vs) == s6;
    var s5 := State(0, 2, 1, true, false, 1, 2);
    assert DigitTimes(2, 1) == 2;
    ScanTurn(vs, 6, s6, s5);
    var s4 := State(0, 2, 10, false, true, 1, 10);
    ScanTurn(vs, 5, s5, s4);
    var s3 := State(0, 72, 10, true, false, 1, 7);
    assert DigitTimes(7, 10) == 70;
    ScanTurn(vs, 4, s4, s3);
    var s2 := State(72, 0, 1, false, false, WAN, WAN);
    ScanTurn(vs, 3, s3, s2);
    var s1 := State(72, 0, 1, false, false, YI, YI);
    ScanTurn(vs, 2, s2, s1);
    var s0 := State(72, 1, 1, true, false, YI, 1);
    assert DigitTimes(1, 1) == 1;
    ScanTurn(vs, 1, s1, s0);
    assert Total(s0) == 100000072;
  }

  /** 十五: the closing correction adds the 十 read last. */
  lemma BareTen()
    ensures Traditional([10, 5]) == Ok(15)
  {
    var vs := [10, 5];
    var s2 := State(0, 0, 1, false, false, 1, 10);
    assert Scanned(vs) == 2 && Initial(vs) == s2;
    var s1 := State(0, 5, 1, true, false, 1, 5);
    assert DigitTimes(5, 1) == 5;
    ScanTurn(vs, 2, s2, s1);
    var s0 := State(0, 5, 10, false, true, 1, 10);
    ScanTurn(vs, 1, s1, s0);
    assert Total(s0) == 15;
  }

  /** 零十五 is 5: the correction applies only when the 十 is the first glyph. */
  lemma ZeroBareTen()
    ensures Traditional([0, 10, 5]) == Ok(5)
  {
    var vs := [0, 10, 5];
    var s3 := State(0, 0, 1, false, false, 1, 10);
    assert Scanned(vs) == 3 && Initial(vs) == s3;
    var s2 := State(0, 5, 1, true, false, 1, 5);
    assert DigitTimes(5, 1) == 5;
    ScanTurn(vs, 3, s3, s2);
    var s1 := State(0, 5, 10, false, true, 1, 10);
    ScanTurn(vs, 2, s2, s1);
    var s0 := State(0, 5, 10, false, true, 1, 0);
    ScanTurn(vs, 1, s1, s0);
    assert Total(s0) == 5;
  }

  /** 三万十五 is 30005: a 十 after a delimiter gains nothing. */
  lemma MyriadBareTen()
    ensures Traditional([3, 10000, 10, 5]) == Ok(30005)
  {
    var vs := [3, WAN, 10, 5];
    var s4 := State(0, 0, 1, false, false, 1, 10);
    assert Scanned(vs) == 4 && Initial(vs) == s4;
    var s3 := State(0, 5, 1, true, false, 1, 5);
    assert DigitTimes(5, 1) == 5;
    ScanTurn(vs, 4, s4, s3);
    var s2 := State(0, 5, 10, false, true, 1, 10);
    ScanTurn(vs, 3, s3, s2);
    var s1 := State(5, 0, 1, false, true, WAN, WAN);
    ScanTurn(vs, 2, s2, s1);
    var s0 := State(5, 3, 1, true, false, WAN, 3);
    assert DigitTimes(3, 1) == 3;
    ScanTurn(vs, 1, s1, s0);
    assert Total(s0) == 30005;
  }
}
