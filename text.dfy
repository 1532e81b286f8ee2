/**
  Character and string helpers that the server relies on from Rust's standard
  library: `str::trim`, the decimal digits of `i64` and the `Display` of
  integers, and a count of the line terminators in a piece of output; and two
  facts about sequence prefixes that the loops over queues and events use.
*/
module Text {

  /** Rust's `char::is_whitespace`: the Unicode White_Space property. */
  predicate IsWhitespace(c: char) {
    || ('\t' <= c <= '\r')
    || c == ' '
    || c == '\U{85}'
    || c == '\U{A0}'
    || c == '\U{1680}'
    || ('\U{2000}' <= c <= '\U{200A}')
    || c == '\U{2028}'
    || c == '\U{2029}'
    || c == '\U{202F}'
    || c == '\U{205F}'
    || c == '\U{3000}'
  }

  predicate AllWhitespace(s: string) {
    forall k :: 0 <= k < |s| ==> IsWhitespace(s[k])
  }

  /** `str::trim_start`: drops the leading whitespace. */
  function TrimStart(s: string): string
  {
    if s != [] && IsWhitespace(s[0]) then TrimStart(s[1..]) else s
  }

  /** `str::trim_end`: drops the trailing whitespace. */
  function TrimEnd(s: string): string
  {
    if s != [] && IsWhitespace(s[|s| - 1]) then TrimEnd(s[..|s| - 1]) else s
  }

  /** `str::trim`: drops whitespace at both ends. */
  function Trim(s: string): string
  {
    TrimEnd(TrimStart(s))
  }

  /** `trim_start` keeps a suffix: everything before it is whitespace and it does not start with whitespace. */
  lemma {:induction false} TrimStartShape(s: string)
    ensures var r := TrimStart(s);
            && |r| <= |s| && r == s[|s| - |r|..]
            && (forall k :: 0 <= k < |s| - |r| ==> IsWhitespace(s[k]))
            && (r != [] ==> !IsWhitespace(r[0]))
  {
    if s != [] && IsWhitespace(s[0]) {
      TrimStartShape(s[1..]);
      assert forall k :: 1 <= k < |s| ==> s[k] == s[1..][k - 1];
    }
  }

  /** `trim_end` keeps a prefix: everything after it is whitespace and it does not end with whitespace. */
  lemma {:induction false} TrimEndShape(s: string)
    ensures var r := TrimEnd(s);
            && |r| <= |s| && r == s[..|r|]
            && (forall k :: |r| <= k < |s| ==> IsWhitespace(s[k]))
            && (r != [] ==> !IsWhitespace(r[|r| - 1]))
  {
    if s != [] && IsWhitespace(s[|s| - 1]) {
      var n := |s| - 1;
      TrimEndShape(s[..n]);
      assert forall k :: 0 <= k < n ==> s[..n][k] == s[k];
    }
  }

  /** A trimmed text neither starts nor ends with whitespace. */
  lemma TrimShape(s: string)
    ensures |Trim(s)| <= |s|
    ensures Trim(s) != [] ==> !IsWhitespace(Trim(s)[0]) && !IsWhitespace(Trim(s)[|Trim(s)| - 1])
  {
    var u := TrimStart(s);
    TrimStartShape(s);
    TrimEndShape(u);
    var r := TrimEnd(u);
    if r != [] {
      assert r[0] == u[0];
    }
  }

  /** Trimming a text padded with whitespace on both sides gives the text back. */
  lemma {:induction false} TrimPadded(lead: string, t: string, trail: string)
    requires AllWhitespace(lead) && AllWhitespace(trail)
    requires t != [] && !IsWhitespace(t[0]) && !IsWhitespace(t[|t| - 1])
    ensures Trim(lead + t + trail) == t
  {
    TrimStartPadded(lead, t + trail);
    assert TrimStart(lead + t + trail) == t + trail by {
      assert lead + t + trail == lead + (t + trail);
    }
    TrimEndPadded(t, trail);
  }

  lemma {:induction false} TrimStartPadded(lead: string, t: string)
    requires AllWhitespace(lead)
    requires t != [] && !IsWhitespace(t[0])
    ensures TrimStart(lead + t) == t
  {
    if lead != [] {
      assert (lead + t)[1..] == lead[1..] + t;
      TrimStartPadded(lead[1..], t);
    }
  }

  lemma {:induction false} TrimEndPadded(t: string, trail: string)
    requires AllWhitespace(trail)
    requires t != [] && !IsWhitespace(t[|t| - 1])
    ensures TrimEnd(t + trail) == t
  {
    if trail != [] {
      var n := |trail| - 1;
      assert (t + trail)[..|t + trail| - 1] == t + trail[..n];
      TrimEndPadded(t, trail[..n]);
    } else {
      assert t + trail == t;
    }
  }

  /** A text made only of whitespace trims to nothing, and only such a text does. */
  lemma TrimEmpty(s: string)
    ensures Trim(s) == [] <==> AllWhitespace(s)
  {
    var u := TrimStart(s);
    TrimStartShape(s);
    TrimEndShape(u);
    if u != [] {
      assert u[0] == s[|s| - |u|];
    }
  }

  predicate IsDigit(c: char) {
    '0' <= c <= '9'
  }

  predicate AllDigits(s: string) {
    forall k :: 0 <= k < |s| ==> IsDigit(s[k])
  }

  function DigitValue(c: char): (d: nat)
    requires IsDigit(c)
    ensures d < 10
  {
    c as int - '0' as int
  }

  function DigitChar(d: nat): (c: char)
    requires d < 10
    ensures IsDigit(c) && DigitValue(c) == d
  {
    ('0' as int + d) as char
  }

  function Pow10(n: nat): (p: nat)
    ensures p >= 1
  {
    if n == 0 then 1 else 10 * Pow10(n - 1)
  }

  /** The value of a run of decimal digits, read left to right: each digit shifts the value read so far one place. */
  function DigitsValue(s: string): nat
    requires AllDigits(s)
  {
    if s == [] then 0 else DigitsValue(s[..|s| - 1]) * 10 + DigitValue(s[|s| - 1])
  }

  /** Appending a digit multiplies the value by ten and adds the digit. */
  lemma DigitsValueSnoc(s: string, c: char)
    requires AllDigits(s) && IsDigit(c)
    ensures AllDigits(s + [c])
    ensures DigitsValue(s + [c]) == DigitsValue(s) * 10 + DigitValue(c)
  {
    assert (s + [c])[..|s|] == s;
  }

  /**
    Place value: the leading digit weighs 10 to the power of the number of
    digits after it.
  */
  lemma {:induction false} DigitsValueCons(s: string)
    requires AllDigits(s) && s != []
    ensures DigitsValue(s) == DigitValue(s[0]) * Pow10(|s| - 1) + DigitsValue(s[1..])
    decreases |s|
  {
    var n := |s| - 1;
    if n > 0 {
      var front := s[..n];
      DigitsValueCons(front);
      assert front[0] == s[0] && front[1..] == s[1..][..n - 1];
      assert s[1..][n - 1] == s[n];
      ShiftPlace(DigitValue(s[0]), Pow10(n - 1), DigitsValue(front[1..]), DigitValue(s[n]));
    } else {
      assert s[..0] == [] && s[1..] == [];
    }
  }

  /** The leading digit's weight grows tenfold when a digit is appended. */
  lemma ShiftPlace(d: nat, p: nat, rest: nat, last: nat)
    ensures d * (10 * p) + (rest * 10 + last) == (d * p + rest) * 10 + last
  {
    assert d * (10 * p) == (d * p) * 10;
  }

  /** The decimal digits of n, without leading zeros: how Rust displays an unsigned number. */
  function NatText(n: nat): string
  {
    if n < 10 then [DigitChar(n)] else NatText(n / 10) + [DigitChar(n % 10)]
  }

  /** The digits shown for n are decimal digits whose value is n, with no leading zero. */
  lemma {:induction false} NatTextDigits(n: nat)
    ensures var r := NatText(n);
            && 1 <= |r| && AllDigits(r) && DigitsValue(r) == n
            && (|r| > 1 ==> r[0] != '0')
  {
    if n >= 10 {
      var front, c := NatText(n / 10), DigitChar(n % 10);
      NatTextDigits(n / 10);
      DigitsValueSnoc(front, c);
      assert (front + [c])[0] == front[0];
      if |front| == 1 {
        assert DigitValue(front[0]) == n / 10;
      }
    }
  }

  /** How Rust displays a signed integer: a minus sign before the digits of a negative number. */
  function IntText(n: int): string
  {
    if n < 0 then "-" + NatText(-n) else NatText(n)
  }

  /** A displayed integer starts with a minus sign or a digit, and ends with a digit. */
  lemma IntTextEnds(n: int)
    ensures var r := IntText(n);
            && r != [] && (r[0] == '-' || IsDigit(r[0])) && IsDigit(r[|r| - 1])
  {
    NatTextDigits(if n < 0 then -n else n);
  }

  /** The displayed integer is one line fragment: it holds no line terminator. */
  lemma IntTextNoNewline(n: int)
    ensures NewlineCount(IntText(n)) == 0
  {
    var r := IntText(n);
    var digits := NatText(if n < 0 then -n else n);
    NatTextDigits(if n < 0 then -n else n);
    forall k | 0 <= k < |r| ensures r[k] != '\n' {
      if n < 0 && k > 0 {
        assert r[k] == digits[k - 1];
      }
    }
    NoNewlineCount(r);
  }

  /** The number of line terminators in a piece of output. */
  function NewlineCount(s: string): nat
  {
    if s == [] then 0 else (if s[0] == '\n' then 1 else 0) + NewlineCount(s[1..])
  }

  lemma {:induction false} NewlineCountAppend(s: string, t: string)
    ensures NewlineCount(s + t) == NewlineCount(s) + NewlineCount(t)
  {
    if s != [] {
      assert (s + t)[1..] == s[1..] + t;
      NewlineCountAppend(s[1..], t);
    } else {
      assert s + t == t;
    }
  }

  lemma {:induction false} NoNewlineCount(s: string)
    requires forall k :: 0 <= k < |s| ==> s[k] != '\n'
    ensures NewlineCount(s) == 0
  {
    if s != [] {
      NoNewlineCount(s[1..]);
    }
  }

  /** A prefix one longer is the prefix and the next element. */
  lemma SliceSnoc<T>(q: seq<T>, i: nat)
    requires i < |q|
    ensures q[..i + 1] == q[..i] + [q[i]]
  {
  }

  lemma SliceAll<T>(q: seq<T>)
    ensures q[..|q|] == q
  {
  }
}
