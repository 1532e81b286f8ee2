/**
  `str::parse::<i64>()` as the state keeper applies it to a received line
  (src/main.rs:184): an optional `+` or `-`, then one or more ASCII digits,
  read left to right with the first invalid digit or overflow ending the parse.
*/
module IntParse {
  import opened Text

  const I64_MIN: int := -0x8000_0000_0000_0000
  const I64_MAX: int := 0x7FFF_FFFF_FFFF_FFFF

  /** Rust's `i64`. */
  type I64 = x: int | I64_MIN <= x <= I64_MAX

  datatype Result<+T, +E> = Ok(value: T) | Err(error: E)

  /** The kinds of `ParseIntError` that parsing an `i64` can report. */
  datatype IntErrorKind = Empty | InvalidDigit | PosOverflow | NegOverflow

  /** The `Display` text of a `ParseIntError` of each kind. */
  function Describe(kind: IntErrorKind): string
  {
    match kind
    case Empty => "cannot parse integer from empty string"
    case InvalidDigit => "invalid digit found in string"
    case PosOverflow => "number too large to fit in target type"
    case NegOverflow => "number too small to fit in target type"
  }

  /**
    The digit loop of `from_str_radix`: `acc` is the value read so far (never
    positive for a negative number); each character must be a digit, and each
    step `acc * 10 + d` (or `- d`) must stay inside `i64`.
  */
  function Accumulate(digits: string, acc: I64, positive: bool): Result<I64, IntErrorKind>
    requires positive ==> acc >= 0
    requires !positive ==> acc <= 0
    decreases |digits|
  {
    if digits == [] then Ok(acc)
    else if !IsDigit(digits[0]) then Err(InvalidDigit)
    else
      var next := if positive then acc * 10 + DigitValue(digits[0]) else acc * 10 - DigitValue(digits[0]);
      if next > I64_MAX then Err(PosOverflow)
      else if next < I64_MIN then Err(NegOverflow)
      else Accumulate(digits[1..], next, positive)
  }

  /** `<i64 as FromStr>::from_str`. */
  function ParseI64(s: string): Result<I64, IntErrorKind>
  {
    if s == [] then Err(Empty)
    else if (s[0] == '+' || s[0] == '-') && |s| == 1 then Err(InvalidDigit)
    else if s[0] == '+' then Accumulate(s[1..], 0, true)
    else if s[0] == '-' then Accumulate(s[1..], 0, false)
    else Accumulate(s, 0, true)
  }

  // ----- a reference reading of the accepted texts -----

  predicate HasSign(s: string) {
    |s| >= 1 && (s[0] == '+' || s[0] == '-')
  }

  /** The text after the optional sign. */
  function Unsigned(s: string): string {
    if HasSign(s) then s[1..] else s
  }

  /** An optional sign followed by one or more ASCII digits. */
  predicate IsIntegerLiteral(s: string) {
    Unsigned(s) != [] && AllDigits(Unsigned(s))
  }

  /** The mathematical value of an integer literal. */
  function LiteralValue(s: string): int
    requires IsIntegerLiteral(s)
  {
    if |s| >= 1 && s[0] == '-' then -(DigitsValue(Unsigned(s)) as int) else DigitsValue(Unsigned(s))
  }

  predicate InI64(n: int) {
    I64_MIN <= n <= I64_MAX
  }

  /**
    Over a run of digits the loop reads the place value of the whole run and
    fails exactly when that value leaves `i64`, with the overflow of its sign.
  */
  lemma {:induction false} AccumulateDigits(d: string, acc: I64, positive: bool)
    requires AllDigits(d)
    requires positive ==> acc >= 0
    requires !positive ==> acc <= 0
    ensures var f := if positive then acc * Pow10(|d|) + DigitsValue(d) else acc * Pow10(|d|) - DigitsValue(d);
            Accumulate(d, acc, positive) ==
              if f > I64_MAX then Err(PosOverflow) else if f < I64_MIN then Err(NegOverflow) else Ok(f)
    decreases |d|
  {
    if d != [] {
      var x := DigitValue(d[0]);
      var p := Pow10(|d| - 1);
      assert AllDigits(d[1..]);
      var rest := DigitsValue(d[1..]);
      DigitsValueCons(d);
      assert Pow10(|d|) == 10 * p;
      var next := if positive then acc * 10 + x else acc * 10 - x;
      PlaceShift(acc, x, p, rest, positive);
      if InI64(next) {
        AccumulateDigits(d[1..], next, positive);
      }
    }
  }

  /** Moving the leading digit into the accumulator keeps the value read. */
  lemma PlaceShift(acc: int, x: nat, p: nat, rest: nat, positive: bool)
    requires p >= 1
    requires positive ==> acc >= 0
    requires !positive ==> acc <= 0
    ensures positive ==> acc * (10 * p) + (x * p + rest) == (acc * 10 + x) * p + rest >= acc * 10 + x
    ensures !positive ==> acc * (10 * p) - (x * p + rest) == (acc * 10 - x) * p - rest <= acc * 10 - x
  {
    var y := acc * 10;
    MulAssoc(acc, 10, p);
    if positive {
      MulAddRight(y, x, p);
      MulAtLeast(y + x, p);
    } else {
      MulAddRight(y, -(x as int), p);
      MulAtLeast(x - y, p);
      MulAddRight(x - y, 2 * (y - x), p);
    }
  }

  lemma MulAssoc(a: int, b: int, c: int)
    ensures a * (b * c) == (a * b) * c
  {
  }

  lemma MulAddRight(a: int, b: int, c: int)
    ensures (a + b) * c == a * c + b * c
  {
  }

  lemma MulAtLeast(a: nat, p: nat)
    requires p >= 1
    ensures a * p >= a
  {
    MulAddRight(1, p - 1, a);
  }

  /** The loop succeeds only on a run of digits. */
  lemma {:induction false} AccumulateOkDigits(d: string, acc: I64, positive: bool)
    requires positive ==> acc >= 0
    requires !positive ==> acc <= 0
    requires Accumulate(d, acc, positive).Ok?
    ensures AllDigits(d)
    decreases |d|
  {
    if d != [] {
      var next := if positive then acc * 10 + DigitValue(d[0]) else acc * 10 - DigitValue(d[0]);
      AccumulateOkDigits(d[1..], next, positive);
      assert forall k :: 1 <= k < |d| ==> d[k] == d[1..][k - 1];
    }
  }

  /**
    A text parses exactly when it is an integer literal whose value fits in
    `i64`, and then it parses to that value.
  */
  lemma ParseI64Accepts(s: string)
    ensures ParseI64(s).Ok? <==> IsIntegerLiteral(s) && InI64(LiteralValue(s))
    ensures ParseI64(s).Ok? ==> ParseI64(s).value == LiteralValue(s)
  {
    if s != [] && !(HasSign(s) && |s| == 1) {
      var positive := !(s[0] == '-');
      var u := Unsigned(s);
      assert ParseI64(s) == Accumulate(u, 0, positive);
      if ParseI64(s).Ok? {
        AccumulateOkDigits(u, 0, positive);
      }
      if AllDigits(u) {
        AccumulateDigits(u, 0, positive);
      }
    }
  }

  /** The error kinds: the empty text, and an out-of-range literal by its sign. */
  lemma ParseI64Rejects(s: string)
    ensures ParseI64(s) == Err(Empty) <==> s == []
    ensures IsIntegerLiteral(s) && LiteralValue(s) > I64_MAX ==> ParseI64(s) == Err(PosOverflow)
    ensures IsIntegerLiteral(s) && LiteralValue(s) < I64_MIN ==> ParseI64(s) == Err(NegOverflow)
  {
    if s != [] && !(HasSign(s) && |s| == 1) {
      var positive := !(s[0] == '-');
      var u := Unsigned(s);
      if AllDigits(u) {
        AccumulateDigits(u, 0, positive);
      }
      AccumulateNeverEmpty(u, 0, positive);
    }
  }

  lemma {:induction false} AccumulateNeverEmpty(d: string, acc: I64, positive: bool)
    requires positive ==> acc >= 0
    requires !positive ==> acc <= 0
    ensures Accumulate(d, acc, positive) != Err(Empty)
    decreases |d|
  {
    if d != [] && IsDigit(d[0]) {
      var next := if positive then acc * 10 + DigitValue(d[0]) else acc * 10 - DigitValue(d[0]);
      if InI64(next) {
        AccumulateNeverEmpty(d[1..], next, positive);
      }
    }
  }

  /** Rust's display of an integer is an integer literal of the same value. */
  lemma DisplayedIsLiteral(n: int)
    ensures IsIntegerLiteral(IntText(n)) && LiteralValue(IntText(n)) == n
  {
    var t := IntText(n);
    var m: nat := if n < 0 then -n else n;
    var digits := NatText(m);
    NatTextDigits(m);
    if n < 0 {
      assert t == "-" + digits;
      assert HasSign(t) && t[1..] == digits;
    } else {
      assert t == digits;
      assert !HasSign(t) by { assert IsDigit(t[0]); }
    }
    assert Unsigned(t) == digits;
  }

  /** Every `i64`, as Rust displays it, parses back to itself. */
  lemma ParseDisplayed(n: I64)
    ensures ParseI64(IntText(n)) == Ok(n)
  {
    DisplayedIsLiteral(n);
    ParseI64Accepts(IntText(n));
  }
}
