/** `chinese2int_traditional`: a Chinese numeral written with the units 十百千 and the
    delimiters 万亿 (三百二十一, 一亿零九千). The loop reads the glyphs right to left;
    its grammar is stated over glyph values, as the loop looks every glyph up first. */
module ChineseTraditional {
  import opened Glyphs

  /** The loop variables of chinese2int_traditional. `last` is the value the loop looked
      up most recently (the source's `p`). The variable `a` is left out: every read of it
      follows a write in the same branch. */
  datatype State = State(number: nat, small: nat, b: nat, flagA: bool, flagB: bool,
                         delimiter: nat, last: nat)

  /** `d * x`, spelled out as additions so that proofs about the loop stay linear. */
  function DigitTimes(d: nat, x: nat): nat {
    if d == 0 then 0 else x + DigitTimes(d - 1, x)
  }

  lemma {:induction false} DigitTimesIsProduct(d: nat, x: nat)
    ensures DigitTimes(d, x) == d * x
  {
    if d > 0 {
      DigitTimesIsProduct(d - 1, x);
    }
  }

  /** `x * d` with a constant factor whenever `d` is one of the delimiter values 1, 万, 亿,
      and as additions otherwise. */
  function DelimiterTimes(x: nat, d: nat): nat {
    if d == 1 then x else if d == WAN then x * WAN else if d == YI then x * YI else DigitTimes(d, x)
  }

  lemma DelimiterTimesIsProduct(x: nat, d: nat)
    ensures DelimiterTimes(x, d) == x * d
  {
    DigitTimesIsProduct(d, x);
  }

  /** A digit 1..9 (the source's `a`): it may not follow another digit, and its worth
      `p * b` must exceed the group read so far, so that 千百十 come in order. */
  function DigitStep(p: nat, st: State): Result<State> {
    if st.flagA then Err(InvalidFormat)
    else if DigitTimes(p, st.b) > st.small then
      Ok(st.(small := st.small + DigitTimes(p, st.b), flagA := true, flagB := false, last := p))
    else Err(InvalidFormat)
  }

  /** A delimiter worth `q` (亿 for 万万): the group read so far is added to `number`,
      and the new delimiter must exceed the old one, except that a second 万 turns into 亿. */
  function DelimiterStep(q: nat, st: State): Result<State> {
    var flushed := st.(number := st.number + DelimiterTimes(st.small, st.delimiter), small := 0,
                       b := 1, flagA := false, last := q);
    if q > st.delimiter then Ok(flushed.(delimiter := q))
    else if st.delimiter == YI then Err(OutOfRange)
    else Ok(flushed.(delimiter := YI))
  }

  /** A unit 十百千 (the source's `b`): it may not follow another unit and must exceed
      the unit before it. */
  function UnitStep(p: nat, st: State): Result<State> {
    if st.flagB then Err(InvalidFormat)
    else if p <= st.b then Err(InvalidFormat)
    else Ok(st.(b := p, flagB := true, flagA := false, last := p))
  }

  /** One turn of the loop on glyph value `p`; `collapse` says that `p` is a 万 read
      together with the 万 before it as 亿. A zero only sets `p`. */
  function Step(p: nat, collapse: bool, st: State): Result<State> {
    if p == 0 then Ok(st.(last := 0))
    else if p < 10 then DigitStep(p, st)
    else if p == WAN || p == YI then DelimiterStep(if collapse then YI else p, st)
    else UnitStep(p, st)
  }

  /** The glyph before index `k`, as Python's `s[k - 1]` reads it: at `k == 0` that is
      the last glyph. */
  function Before(vs: seq<nat>, k: nat): nat
    requires k < |vs|
  {
    if k > 0 then vs[k - 1] else vs[|vs| - 1]
  }

  /** Glyph `k` is a 万 and the glyph the loop looks at before it is a 万 too. */
  predicate Collapses(vs: seq<nat>, k: nat)
    requires k < |vs|
  {
    vs[k] == WAN && Before(vs, k) == WAN
  }

  /** The loop run on the first `hi` glyphs, from the last of them to the first. After a
      collapse at index 0 the source's `length` is -1, which ends the loop too. */
  function Scan(vs: seq<nat>, hi: nat, st: State): Result<State>
    requires hi <= |vs|
  {
    if hi == 0 then Ok(st)
    else
      var k := hi - 1;
      var collapse := Collapses(vs, k);
      match Step(vs[k], collapse, st)
      case Err(f) => Err(f)
      case Ok(next) => Scan(vs, if collapse && k > 0 then k - 1 else k, next)
  }

  /** The glyph two from the end, as `s[length - 2]` reads it (the only glyph when there
      is one). */
  function Penultimate(vs: seq<nat>): nat
    requires |vs| >= 1
  {
    if |vs| >= 2 then vs[|vs| - 2] else vs[0]
  }

  /** The trailing glyph is a digit whose unit was left out (一百二, 一万二). */
  predicate Elides(vs: seq<nat>)
    requires |vs| >= 1
  {
    Penultimate(vs) > 10 && vs[|vs| - 1] < 10
  }

  /** The state before the loop: with an elided unit, the trailing digit counts
      one place below the glyph before it. */
  function Initial(vs: seq<nat>): State
    requires |vs| >= 1
  {
    var pre := Penultimate(vs);
    if Elides(vs) then State(0, DigitTimes(vs[|vs| - 1], pre / 10), pre / 10, false, false, 1, pre)
    else State(0, 0, 1, false, false, 1, pre)
  }

  /** How many glyphs the loop reads: all of them, or all but an elided trailing digit. */
  function Scanned(vs: seq<nat>): nat
    requires |vs| >= 1
  {
    if Elides(vs) then |vs| - 1 else |vs|
  }

  /** The value of the final state: a 十 read last (a leading 十) adds ten to the group. */
  function Total(st: State): nat {
    st.number + DelimiterTimes(if st.last == 10 then st.small + 10 else st.small, st.delimiter)
  }

  /** chinese2int_traditional on the glyph values `vs`. */
  function Traditional(vs: seq<nat>): Result<nat>
    requires |vs| >= 1
  {
    match Scan(vs, Scanned(vs), Initial(vs))
    case Err(f) => Err(f)
    case Ok(st) => Ok(Total(st))
  }

  /** One pass of the loop body of chinese2int_traditional on glyph value `p`. */
  method Turn(p: nat, collapse: bool, st: State) returns (r: Result<State>)
    ensures r == Step(p, collapse, st)
  {
    var next := st.(last := p);
    if p == 0 {
      return Ok(next);
    }
    if p < 10 {
      if next.flagA {
        return Err(InvalidFormat);
      }
      var tiny := p * next.b;
      DigitTimesIsProduct(p, next.b);
      if tiny <= next.small {
        return Err(InvalidFormat);
      }
      return Ok(next.(small := next.small + tiny, flagA := true, flagB := false));
    }
    if p == WAN || p == YI {
      DelimiterTimesIsProduct(next.small, next.delimiter);
      next := next.(number := next.number + next.small * next.delimiter, small := 0, b := 1);
      var q := if collapse then YI else p;
      next := next.(last := q);
      if q > next.delimiter {
        next := next.(delimiter := q);
      } else {
        if next.delimiter == YI {
          return Err(OutOfRange);
        }
        next := next.(delimiter := YI);
      }
      return Ok(next.(flagA := false));
    }
    if next.flagB || p <= next.b {
      return Err(InvalidFormat);
    }
    return Ok(next.(b := p, flagB := true, flagA := false));
  }

  /** chinese2int_traditional: the right-to-left loop, proved to compute `Traditional`.
      It receives the glyph values `vs` of the numeral, looked up in `Table.chinese2int`. */
  method ParseTraditional(vs: seq<nat>) returns (r: Result<nat>)
    requires |vs| >= 1
    ensures r == Traditional(vs)
  {
    var length := |vs|;
    var p := if length >= 2 then vs[length - 2] else vs[0];
    var st := State(0, 0, 1, false, false, 1, p);
    if p > 10 {
      var a := vs[length - 1];
      if a < 10 {
        st := st.(b := p / 10);
        DigitTimesIsProduct(a, st.b);
        st := st.(small := st.small + a * st.b);
        length := length - 1;
      }
    }
    assert length == Scanned(vs) && st == Initial(vs);
    ghost var goal := Scan(vs, length, st);
    while length > 0
      invariant 0 <= length <= |vs|
      invariant Scan(vs, length, st) == goal
    {
      length := length - 1;
      p := vs[length];
      var collapse := p == WAN && vs[if length > 0 then length - 1 else |vs| - 1] == WAN;
      var next := Turn(p, collapse, st);
      match next {
        case Err(f) => return Err(f);
        case Ok(after) => st := after;
      }
      if collapse && length > 0 {
        length := length - 1;
      }
    }
    assert goal == Ok(st);
    var small := st.small;
    if st.last == 10 {
      small := small + 10;
    }
    DelimiterTimesIsProduct(small, st.delimiter);
    return Ok(st.number + small * st.delimiter);
  }
}
