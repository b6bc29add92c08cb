/** chinese2int reads back what int2chinese writes: the traditional form in either case,
    with or without 两, and the enumeration form. */
module RoundTrip {
  import opened Glyphs
  import opened ChineseEnumeration
  import opened ChineseTraditional
  import opened TraditionalFacts
  import opened ChineseFormat
  import opened FormatValues
  import opened ChineseParse

  // ---------------------------------------------------------------------------
  // Reading a numeral piece by piece.

  /** The loop of chinese2int_traditional over all of `vs`, from state `st`. */
  function Read(vs: seq<nat>, st: State): Result<State> {
    Scan(vs, |vs|, st)
  }

  /** The loop continued over `x` after turns that ended in `r`. */
  function After(r: Result<State>, x: seq<nat>): Result<State> {
    match r
    case Err(f) => Err(f)
    case Ok(st) => Read(x, st)
  }

  /** Neither piece starting with 万, the loop reads `x + y` as `y` and then `x`. */
  lemma ReadAppend(x: seq<nat>, y: seq<nat>, st: State)
    requires x == [] || x[0] != WAN
    requires y == [] || y[0] != WAN
    ensures Read(x + y, st) == After(Read(y, st), x)
  {
    ScanAppend(x, y, |y|, st);
    match Scan(y, |y|, st) {
      case Err(f) =>
      case Ok(s) =>
        if x != [] {
          assert (x + y)[..|x|] == x[..|x|];
          ScanPrefix(x + y, x, |x|, s);
        }
    }
  }

  /** A delimiter after a piece that neither starts nor ends with 万 is one turn on its
      own, followed by the piece. */
  lemma ReadDelimiter(x: seq<nat>, w: nat, st: State)
    requires x != [] && x[0] != WAN && x[|x| - 1] != WAN
    ensures Read(x + [w], st) == After(Step(w, false, st), x)
  {
    var v := x + [w];
    assert v[|x|] == w && v[|x| - 1] == x[|x| - 1];
    assert !Collapses(v, |x|);
    match Step(w, false, st) {
      case Err(f) =>
      case Ok(next) =>
        assert v[..|x|] == x[..|x|];
        ScanPrefix(v, x, |x|, next);
    }
  }

  lemma StepSetsLast(p: nat, st: State)
    requires Step(p, false, st).Ok?
    ensures Step(p, false, st).value.last == p
  {
  }

  /** When the first glyph is not 万, the loop ends on it and leaves it in `p`. */
  lemma {:induction false} ScanLast(vs: seq<nat>, hi: nat, st: State)
    requires 0 < hi <= |vs| && vs[0] != WAN && Scan(vs, hi, st).Ok?
    ensures Scan(vs, hi, st).value.last == vs[0]
  {
    var k := hi - 1;
    var collapse := Collapses(vs, k);
    var next := Step(vs[k], collapse, st).value;
    if k == 0 {
      assert !collapse;
      StepSetsLast(vs[0], st);
    } else {
      assert k == 1 ==> !collapse;
      ScanLast(vs, if collapse then k - 1 else k, next);
    }
  }

  // ---------------------------------------------------------------------------
  // Reading one group.

  /** Inside a group begun in state `st0`, after the places below `i`: the group read so
      far, `small`, has fewer than `i` places, and the last turn was a digit unless
      nothing but 零 was read. */
  predicate InGroup(st: State, st0: State, i: nat) {
    st.number == st0.number && st.delimiter == st0.delimiter && !st.flagB
    && st.small < Pow10(i)
    && (st.small == 0 ==> st.b == 1 && !st.flagA)
    && (st.small > 0 ==> st.flagA && st.b < Pow10(i))
  }

  lemma ReadZero(acc: seq<nat>, st0: State, st: State)
    requires (acc == [] || acc[0] <= 9) && Read(acc, st0) == Ok(st)
    ensures Read([0] + acc, st0) == Ok(st.(last := 0))
  {
    ReadAppend([0], acc, st0);
    assert !Collapses([0], 0);
    assert Step(0, false, st) == Ok(st.(last := 0));
    assert Scan([0], 1, st) == Scan([0], 0, st.(last := 0));
  }

  lemma ReadDigit(p: nat, acc: seq<nat>, st0: State, st: State)
    requires 1 <= p <= 9 && (acc == [] || acc[0] <= 9) && Read(acc, st0) == Ok(st)
    requires st.small == 0 && st.b == 1 && !st.flagA
    ensures Read([p] + acc, st0) == Ok(st.(small := p, flagA := true, flagB := false, last := p))
  {
    ReadAppend([p], acc, st0);
    assert !Collapses([p], 0);
    DigitTimesIsProduct(p, 1);
    var st1 := st.(small := p, flagA := true, flagB := false, last := p);
    assert Step(p, false, st) == Ok(st1);
    assert Scan([p], 1, st) == Scan([p], 0, st1);
  }

  /** A digit and its unit, read back: the unit first, then the digit worth `p * u`. */
  lemma ReadDigitUnit(p: nat, u: nat, st: State)
    requires 1 <= p <= 9 && (u == 10 || u == 100 || u == 1000)
    requires !st.flagB && st.b < u && st.small < u
    ensures Read([p, u], st) == Ok(st.(small := st.small + p * u, b := u, flagA := true,
                                       flagB := false, last := p))
  {
    var piece := [p, u];
    assert !Collapses(piece, 1) && !Collapses(piece, 0);
    var st1 := st.(b := u, flagB := true, flagA := false, last := u);
    assert Step(u, false, st) == Ok(st1);
    DigitTimesIsProduct(p, u);
    var st2 := st1.(small := st.small + p * u, flagA := true, flagB := false, last := p);
    assert Step(p, false, st1) == Ok(st2);
    assert Scan(piece, 1, st1) == Scan(piece, 0, st2);
  }

  /** A zero place of a group, read back: it changes nothing but `p`. */
  lemma ZeroPlaceRead(i: nat, acc: seq<nat>, st0: State, st: State)
    requires i <= 3 && (acc == [] || acc[0] <= 9)
    requires Read(acc, st0) == Ok(st) && InGroup(st, st0, i)
    ensures var next := if acc != [] && acc[0] != 0 then [0] + acc else acc;
      (next == [] || next[0] <= 9) && Read(next, st0).Ok?
      && InGroup(Read(next, st0).value, st0, i + 1) && Read(next, st0).value.small == st.small
  {
    assert Pow10(i + 1) == 10 * Pow10(i);
    if acc != [] && acc[0] != 0 {
      ReadZero(acc, st0, st);
    }
  }

  /** A non-zero place of a group, read back: digit `p` at place `i` adds `p * 10^i`. */
  lemma DigitPlaceRead(p: nat, i: nat, acc: seq<nat>, st0: State, st: State)
    requires 1 <= p <= 9 && i <= 3 && (acc == [] || acc[0] <= 9)
    requires Read(acc, st0) == Ok(st) && InGroup(st, st0, i)
    ensures var next := [p] + UnitValues(i) + acc;
      next[0] <= 9 && Read(next, st0).Ok?
      && InGroup(Read(next, st0).value, st0, i + 1)
      && Read(next, st0).value.small == st.small + p * Pow10(i)
  {
    if i == 0 {
      assert [p] + UnitValues(i) + acc == [p] + acc;
      assert Pow10(0) == 1 && Pow10(1) == 10;
      ReadDigit(p, acc, st0, st);
    } else {
      var u := Pow10(i);
      assert u == 10 || u == 100 || u == 1000 by {
        assert i == 1 || i == 2 || i == 3;
      }
      assert [p] + UnitValues(i) + acc == [p, u] + acc;
      UnitPlaceRead(p, u, acc, st0, st);
      assert Pow10(i + 1) == 10 * u;
    }
  }

  /** A digit and its unit `u` read in front of the lower places of a group. */
  lemma UnitPlaceRead(p: nat, u: nat, acc: seq<nat>, st0: State, st: State)
    requires 1 <= p <= 9 && (u == 10 || u == 100 || u == 1000) && (acc == [] || acc[0] <= 9)
    requires Read(acc, st0) == Ok(st) && !st.flagB && st.small < u && st.b < u
    requires st.number == st0.number && st.delimiter == st0.delimiter
    ensures Read([p, u] + acc, st0).Ok?
    ensures var r := Read([p, u] + acc, st0).value;
      r.number == st0.number && r.delimiter == st0.delimiter && !r.flagB && r.flagA
      && r.small == st.small + p * u && 0 < r.small < 10 * u && r.b < 10 * u
  {
    ReadAppend([p, u], acc, st0);
    ReadDigitUnit(p, u, st);
  }

  /** A whole group, read back from a state that has just begun one. */
  lemma {:induction false} SmallRead(n: nat, i: nat, acc: seq<nat>, st0: State, st: State)
    requires i <= 4 && n < Pow10(4 - i) && (acc == [] || acc[0] <= 9)
    requires Read(acc, st0) == Ok(st) && InGroup(st, st0, i)
    ensures Read(SmallValues(n, i, acc), st0).Ok?
    ensures var last := Read(SmallValues(n, i, acc), st0).value;
      InGroup(last, st0, 4) && last.small == st.small + n * Pow10(i)
    decreases n
  {
    if n == 0 {
      Pow10Mono(i, 4);
    } else {
      var p: nat := n % 10;
      var next := if p == 0 then (if acc != [] && acc[0] != 0 then [0] + acc else acc)
                  else [p] + UnitValues(i) + acc;
      PlaceRead(n, i, acc, next, st0, st);
      var mid := Read(next, st0).value;
      SmallRead(n / 10, i + 1, next, st0, mid);
      var last := Read(SmallValues(n / 10, i + 1, next), st0).value;
      PlaceSum(n, Pow10(i), Pow10(i + 1), st.small, mid.small, last.small);
    }
  }

  /** Reading the lowest place of `n` in front of `acc`. */
  lemma PlaceRead(n: nat, i: nat, acc: seq<nat>, next: seq<nat>, st0: State, st: State)
    requires 0 < n && i <= 4 && n < Pow10(4 - i) && (acc == [] || acc[0] <= 9)
    requires Read(acc, st0) == Ok(st) && InGroup(st, st0, i)
    requires next == if n % 10 == 0 then (if acc != [] && acc[0] != 0 then [0] + acc else acc)
                     else [n % 10] + UnitValues(i) + acc
    ensures i < 4 && n / 10 < Pow10(4 - (i + 1)) && (next == [] || next[0] <= 9)
    ensures SmallValues(n, i, acc) == SmallValues(n / 10, i + 1, next)
    ensures Read(next, st0).Ok? && InGroup(Read(next, st0).value, st0, i + 1)
    ensures Read(next, st0).value.small == st.small + (n % 10) * Pow10(i)
  {
    assert Pow10(4 - i) == 10 * Pow10(4 - (i + 1));
    if n % 10 == 0 {
      ZeroPlaceRead(i, acc, st0, st);
    } else {
      DigitPlaceRead(n % 10, i, acc, st0, st);
    }
  }

  /** Adding the lowest digit of `n` and then the rest adds `n` at place `u`. */
  lemma PlaceSum(n: nat, u: nat, v: nat, a: nat, b: nat, c: nat)
    requires v == 10 * u && b == a + (n % 10) * u && c == b + (n / 10) * v
    ensures c == a + n * u
  {
    assert n == 10 * (n / 10) + n % 10;
    assert n * u == (10 * (n / 10)) * u + (n % 10) * u;
  }

  // ---------------------------------------------------------------------------
  // Reading the groups.

  /** The state chinese2int_traditional starts its loop in when no unit is elided. */
  const Start: State := State(0, 0, 1, false, false, 1, 0)

  /** After the groups below group `i`, worth `low`: the value read so far is `low`, and
      the current delimiter is the weight of a lower group. */
  predicate GroupsRead(st: State, low: nat, i: nat) {
    st.number + DelimiterTimes(st.small, st.delimiter) == low && !st.flagB
    && (i == 0 ==> st.small == 0 && st.b == 1 && !st.flagA && st.number == 0 && st.delimiter == 1)
    && (st.delimiter == 1 || (st.delimiter == WAN && i >= 2) || (st.delimiter == YI && i >= 3))
  }

  /** What the group loop has written once `next` reads, from the start, to a value of
      `low` with group `i` the next to come. */
  predicate ReadsTo(next: seq<nat>, low: nat, i: nat) {
    (next == [] || next[0] <= 9) && Read(next, Start).Ok? && GroupsRead(Read(next, Start).value, low, i)
  }

  /** What the group loop has written after group `i` of `n`. */
  function GroupNext(n: nat, i: nat, acc: seq<nat>): seq<nat> {
    var p := n % WAN;
    FillZeroValues(SmallValues(p, 0, []) + DelimiterValues(i, p) + acc, p, n / WAN)
  }

  /** An empty group leaves the state alone but for `p`. */
  lemma EmptyGroupRead(n: nat, i: nat, acc: seq<nat>, st: State, low: nat)
    requires 0 < n && n % WAN == 0 && (acc == [] || acc[0] <= 9)
    requires Read(acc, Start) == Ok(st) && GroupsRead(st, low, i)
    ensures ReadsTo(GroupNext(n, i, acc), low, i + 1)
  {
    assert SmallValues(0, 0, []) + DelimiterValues(i, 0) + acc == acc;
    if n / WAN != 0 && acc != [] && acc[0] != 0 {
      ReadZero(acc, Start, st);
    }
  }

  /** A group's glyphs start with a digit and do not end with 万. */
  lemma SmallEnds(p: nat)
    requires 0 < p < WAN
    ensures var r := SmallValues(p, 0, []); r != [] && 1 <= r[0] <= 9 && r[|r| - 1] != WAN
  {
    SmallShape(p);
  }

  /** The bridging 零 of int2chinese_fill_zero, in front of a non-empty group, does not
      change what is read. */
  lemma FillZeroRead(x: seq<nat>, p: nat, rest: nat, st: State, target: nat, j: nat)
    requires x != [] && 1 <= x[0] <= 9 && 0 < p
    requires Read(x, Start) == Ok(st) && GroupsRead(st, target, j)
    ensures ReadsTo(FillZeroValues(x, p, rest), target, j)
  {
    if rest != 0 && p < 1000 {
      ReadZero(x, Start, st);
      assert FillZeroValues(x, p, rest) == [0] + x;
    } else {
      assert FillZeroValues(x, p, rest) == x;
    }
  }

  /** The ones group, read from the start. */
  lemma LowGroupRead(p: nat, rest: nat)
    requires 0 < p < WAN
    ensures ReadsTo(FillZeroValues(SmallValues(p, 0, []), p, rest), p, 1)
  {
    var small := SmallValues(p, 0, []);
    SmallEnds(p);
    SmallRead(p, 0, [], Start, Start);
    FillZeroRead(small, p, rest, Read(small, Start).value, p, 1);
  }

  /** The state right after the delimiter of a group of weight `w`, when what was read
      before is worth `low`. */
  function Flushed(st: State, low: nat, w: nat): State {
    st.(number := low, small := 0, b := 1, flagA := false, last := w, delimiter := w)
  }

  /** A group's delimiter, read after the lower groups: it adds them to `number` and
      becomes the current delimiter. */
  lemma DelimiterRead(small: seq<nat>, i: nat, acc: seq<nat>, st: State, low: nat)
    requires small != [] && 1 <= small[0] <= 9 && small[|small| - 1] != WAN
    requires 1 <= i <= 2 && (acc == [] || acc[0] <= 9)
    requires Read(acc, Start) == Ok(st) && GroupsRead(st, low, i)
    ensures Read(small + [Weight(i)] + acc, Start) == Read(small, Flushed(st, low, Weight(i)))
  {
    var w := Weight(i);
    assert (small + [w])[0] == small[0];
    ReadAppend(small + [w], acc, Start);
    ReadDelimiter(small, w, st);
    DelimiterFlush(w, st, low);
  }

  lemma DelimiterFlush(w: nat, st: State, low: nat)
    requires (w == WAN || w == YI) && w > st.delimiter
    requires st.number + DelimiterTimes(st.small, st.delimiter) == low
    ensures Step(w, false, st) == Ok(Flushed(st, low, w))
  {
    assert Step(w, false, st) == DelimiterStep(w, st);
  }

  /** A group of weight `w` read after its delimiter adds `p * w`. */
  lemma AfterDelimiterRead(p: nat, i: nat, st: State, low: nat)
    requires 0 < p < WAN && 1 <= i <= 2 && GroupsRead(st, low, i)
    ensures var st1 := Flushed(st, low, Weight(i));
      Read(SmallValues(p, 0, []), st1).Ok?
      && GroupsRead(Read(SmallValues(p, 0, []), st1).value, low + Scaled(p, i), i + 1)
  {
    var st1 := Flushed(st, low, Weight(i));
    SmallRead(p, 0, [], st1, st1);
    ScaledDelimiter(p, i);
  }

  /** A higher group, read after the lower ones: its delimiter, then its glyphs, then the
      bridging 零 if there is one. */
  lemma HighGroupRead(p: nat, rest: nat, i: nat, acc: seq<nat>, st: State, low: nat)
    requires 0 < p < WAN && 1 <= i <= 2 && (acc == [] || acc[0] <= 9)
    requires Read(acc, Start) == Ok(st) && GroupsRead(st, low, i)
    ensures ReadsTo(FillZeroValues(SmallValues(p, 0, []) + [Weight(i)] + acc, p, rest),
                    low + Scaled(p, i), i + 1)
  {
    Pow10Four();
    var small := SmallValues(p, 0, []);
    SmallEnds(p);
    assert small != [] && 1 <= small[0] <= 9;
    assert small[|small| - 1] != WAN;
    assert Read(acc, Start) == Ok(st);
    assert GroupsRead(st, low, i);
    DelimiterRead(small, i, acc, st, low);
    AfterDelimiterRead(p, i, st, low);
    var x := small + [Weight(i)] + acc;
    assert x[0] == small[0];
    FillZeroRead(x, p, rest, Read(x, Start).value, low + Scaled(p, i), i + 1);
  }

  /** Group `i` of `n`, when it is not empty, is its glyphs and its delimiter. */
  lemma GroupNextHigh(n: nat, i: nat, acc: seq<nat>)
    requires n % WAN != 0 && 1 <= i
    ensures GroupNext(n, i, acc)
            == FillZeroValues(SmallValues(n % WAN, 0, []) + [Weight(i)] + acc, n % WAN, n / WAN)
  {
  }

  /** The ones group is its glyphs alone. */
  lemma GroupNextLow(n: nat)
    requires n % WAN != 0
    ensures GroupNext(n, 0, []) == FillZeroValues(SmallValues(n % WAN, 0, []), n % WAN, n / WAN)
  {
    Pow10Four();
    assert SmallValues(n % WAN, 0, []) + DelimiterValues(0, n % WAN) + [] == SmallValues(n % WAN, 0, []);
  }

  /** The ones group, read from the start, empty or not. */
  lemma OnesGroupRead(n: nat)
    requires 0 < n
    ensures ReadsTo(GroupNext(n, 0, []), n % WAN, 1)
  {
    if n % WAN == 0 {
      assert Read([], Start) == Ok(Start);
      EmptyGroupRead(n, 0, [], Start, 0);
    } else {
      GroupNextLow(n);
      LowGroupRead(n % WAN, n / WAN);
    }
  }

  /** A higher group, read after the lower ones, empty or not. */
  lemma GroupStepRead(n: nat, i: nat, acc: seq<nat>, st: State, low: nat)
    requires 0 < n && 1 <= i <= 2 && (acc == [] || acc[0] <= 9)
    requires Read(acc, Start) == Ok(st) && GroupsRead(st, low, i)
    ensures ReadsTo(GroupNext(n, i, acc), low + Scaled(n % WAN, i), i + 1)
  {
    if n % WAN == 0 {
      ScaledZero(i);
      EmptyGroupRead(n, i, acc, st, low);
    } else {
      GroupNextHigh(n, i, acc);
      HighGroupRead(n % WAN, n / WAN, i, acc, st, low);
    }
  }

  /** `x * 10^(4i)`, spelled out with constant factors so that proofs stay linear. */
  function Scaled(x: nat, i: nat): nat {
    if i == 0 then x else WAN * Scaled(x, i - 1)
  }

  lemma ScaledDelimiter(p: nat, i: nat)
    requires 1 <= i <= 2
    ensures DelimiterTimes(p, Weight(i)) == Scaled(p, i)
  {
    if i == 2 {
      assert Scaled(p, 2) == WAN * (WAN * p);
    }
  }

  lemma {:induction false} ScaledAdd(a: nat, b: nat, i: nat)
    ensures Scaled(a + b, i) == Scaled(a, i) + Scaled(b, i)
  {
    if i > 0 {
      ScaledAdd(a, b, i - 1);
    }
  }

  lemma {:induction false} ScaledZero(i: nat)
    ensures Scaled(0, i) == 0
  {
    if i > 0 {
      ScaledZero(i - 1);
    }
  }

  lemma {:induction false} ScaledShift(x: nat, i: nat)
    ensures Scaled(x, i + 1) == Scaled(WAN * x, i)
  {
    if i > 0 {
      ScaledShift(x, i - 1);
    }
  }

  /** Group `i` of `n` and the groups above it make up `n` at weight `i`. */
  lemma ScaledGroups(n: nat, i: nat)
    ensures Scaled(n / WAN, i + 1) + Scaled(n % WAN, i) == Scaled(n, i)
  {
    ScaledShift(n / WAN, i);
    ScaledAdd(WAN * (n / WAN), n % WAN, i);
    assert WAN * (n / WAN) + n % WAN == n;
  }

  /** The group loop, one group at a time: a non-zero `n` has a group `i` below the
      ceiling, and the groups above it follow. */
  lemma CeilingStep(n: nat, i: nat)
    requires 0 < n && i <= 3 && n < GroupCeiling(i)
    ensures i <= 2 && n / WAN < GroupCeiling(i + 1)
  {
  }

  lemma GroupValuesStep(n: nat, i: nat, acc: seq<nat>)
    requires 0 < n && i <= 2 && n < GroupCeiling(i)
    ensures GroupValues(n, i, acc) == GroupValues(n / WAN, i + 1, GroupNext(n, i, acc))
  {
  }

  /** `vs` reads from the start to the value `total`. */
  predicate ReadsValue(vs: seq<nat>, total: nat) {
    Read(vs, Start).Ok?
    && Read(vs, Start).value.number
       + DelimiterTimes(Read(vs, Start).value.small, Read(vs, Start).value.delimiter) == total
  }

  /** Before group `i` (at least 1) of a number whose groups from `i` on are `n`: what
      was written so far, `acc`, reads to `low`. */
  predicate Stage(n: nat, i: nat, acc: seq<nat>, low: nat) {
    1 <= i <= 3 && n < GroupCeiling(i) && ReadsTo(acc, low, i)
  }

  /** One group further. */
  lemma Advance(n: nat, i: nat, acc: seq<nat>, low: nat)
    requires 0 < n && Stage(n, i, acc, low)
    ensures Stage(n / WAN, i + 1, GroupNext(n, i, acc), low + Scaled(n % WAN, i))
    ensures GroupValues(n, i, acc) == GroupValues(n / WAN, i + 1, GroupNext(n, i, acc))
    ensures low + Scaled(n % WAN, i) + Scaled(n / WAN, i + 1) == low + Scaled(n, i)
  {
    CeilingStep(n, i);
    GroupStepRead(n, i, acc, Read(acc, Start).value, low);
    GroupValuesStep(n, i, acc);
    ScaledGroups(n, i);
  }

  /** The groups from `i` on, read after the lower ones: their worth `n * 10^(4i)` adds
      to what was read. */
  lemma {:induction false} GroupsReadFrom(n: nat, i: nat, acc: seq<nat>, low: nat)
    requires Stage(n, i, acc, low)
    ensures ReadsValue(GroupValues(n, i, acc), low + Scaled(n, i))
    decreases n
  {
    if n > 0 {
      Advance(n, i, acc, low);
      GroupsReadFrom(n / WAN, i + 1, GroupNext(n, i, acc), low + Scaled(n % WAN, i));
    } else {
      ScaledZero(i);
    }
  }

  /** All the groups of a non-zero number below 10^12, read from the start, are worth it. */
  lemma TraditionalValuesRead(number: nat)
    requires 0 < number < LIMIT
    ensures ReadsValue(TraditionalValues(number), number)
  {
    var next := GroupNext(number, 0, []);
    CeilingStep(number, 0);
    OnesGroupRead(number);
    GroupsReadFrom(number / WAN, 1, next, number % WAN);
    GroupValuesStep(number, 0, []);
    ScaledGroups(number, 0);
  }

  // ---------------------------------------------------------------------------
  // The round trips.

  /** A numeral that starts with a digit and a magnitude, whose last glyph is not an
      elided digit, and that reads from the start to `total`, is worth `total`. */
  lemma TraditionalReadBack(vs: seq<nat>, total: nat)
    requires |vs| >= 2 && 1 <= vs[0] <= 9 && vs[1] >= 10 && EndsWell(vs)
    requires ReadsValue(vs, total)
    ensures Chinese(vs) == Ok(total)
  {
    assert !Elides(vs);
    ScanForgetsLast(vs, |vs|, Start, Penultimate(vs));
    assert Initial(vs) == Start.(last := Penultimate(vs));
    ScanLast(vs, |vs|, Start);
  }

  /** chinese2int reads the glyph values of the traditional form of `number` back as
      `number`. */
  lemma TraditionalRoundTrip(number: nat)
    requires number < LIMIT
    ensures |TraditionalValues(number)| >= 1
    ensures Chinese(TraditionalValues(number)) == Ok(number)
  {
    var vs := TraditionalValues(number);
    if number == 0 {
      assert vs == [0];
    } else {
      TraditionalShape(number);
      TraditionalValuesRead(number);
      if |vs| >= 2 {
        TraditionalReadBack(vs, number);
      }
    }
  }

  /** chinese2int(int2chinese(n)) == n for every n in [0, 10^12) written traditionally,
      in either case and with or without 两. */
  lemma DefaultRoundTrip(number: nat, lower: bool, useLiang: bool)
    requires number < LIMIT
    ensures var s := Render(number, lower, false, useLiang, false, false);
      IsNumeral(s) && |s| >= 1 && Chinese(Values(s)) == Ok(number)
  {
    TraditionalAgrees(number, lower, useLiang);
    TraditionalRoundTrip(number);
  }

  // ---------------------------------------------------------------------------
  // The enumeration form.

  /** The decimal digits of `n`, most significant first (one 0 for 0). */
  function Digits(n: nat): seq<nat> {
    if n < 10 then [n] else Digits(n / 10) + [n % 10]
  }

  /** The digits are digits, read back as `n`, and there are at most `k` of them below 10^k. */
  lemma {:induction false} DigitsRead(n: nat, k: nat)
    requires 1 <= k && n < Pow10(k)
    ensures DigitsFrom(Digits(n), 0) && EnumValue(Digits(n)) == n && |Digits(n)| <= k
    decreases n
  {
    var ds := Digits(n);
    if n < 10 {
      assert ds[..0] == [];
    } else {
      assert Pow10(1) == 10;
      assert n / 10 < Pow10(k - 1);
      DigitsRead(n / 10, k - 1);
      assert ds[..|ds| - 1] == Digits(n / 10);
    }
  }

  /** The enumeration loop writes one glyph per digit, each worth that digit. */
  lemma {:induction false} EnumFromValues(n: nat, lower: bool, acc: string)
    requires 0 < n && IsNumeral(acc)
    ensures IsNumeral(EnumFrom(n, EnumerationTable(lower), acc))
    ensures Values(EnumFrom(n, EnumerationTable(lower), acc)) == Digits(n) + Values(acc)
    decreases n
  {
    var table := EnumerationTable(lower);
    var next := [table[n % 10]] + acc;
    EnumGlyphInFront(n % 10, lower, acc);
    if n < 10 {
      assert EnumFrom(n / 10, table, next) == next;
    } else {
      EnumFromValues(n / 10, lower, next);
      DigitsInFront(n, Values(acc));
    }
  }

  lemma DigitsInFront(n: nat, tail: seq<nat>)
    requires n >= 10
    ensures Digits(n / 10) + ([n % 10] + tail) == Digits(n) + tail
  {
    assert Digits(n) == Digits(n / 10) + [n % 10];
  }

  /** One enumeration glyph written in front of a numeral. */
  lemma EnumGlyphInFront(d: nat, lower: bool, acc: string)
    requires d <= 9 && IsNumeral(acc)
    ensures IsNumeral([EnumerationTable(lower)[d]] + acc)
    ensures Values([EnumerationTable(lower)[d]] + acc) == [d] + Values(acc)
  {
    var glyph := [EnumerationTable(lower)[d]];
    DigitGlyphs(d);
    assert IsNumeral(glyph) && Values(glyph) == [d];
    ValuesConcat(glyph, acc);
  }

  /** chinese2int(int2chinese(n, enumeration=True)) == n for every n in [0, 10^12):
      one digit is read as itself, two to twelve digits as an enumeration. */
  lemma EnumerationRoundTrip(number: nat, lower: bool)
    requires number < LIMIT
    ensures var s := Render(number, lower, true, false, false, false);
      IsNumeral(s) && |s| >= 1 && Chinese(Values(s)) == Ok(number)
  {
    var s := Enumerated(number, lower);
    DigitGlyphs(0);
    if number == 0 {
      assert s == [EnumerationTable(lower)[0]];
    } else {
      EnumFromValues(number, lower, "");
      assert Values(s) == Digits(number);
      Pow10Twelve();
      DigitsRead(number, 12);
      if |s| >= 2 {
        DigitStringsAreEnumerations(Digits(number));
      } else {
        assert number < 10;
      }
    }
  }
}
