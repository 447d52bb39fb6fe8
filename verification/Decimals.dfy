/** Natural numbers as decimal digits. */
module Decimals {
  import opened Texts

  predicate IsDigit(c: char) {
    '0' <= c <= '9'
  }

  predicate Digits(s: string) {
    forall i | 0 <= i < |s| :: IsDigit(s[i])
  }

  function Value(s: string): nat
    requires Digits(s)
  {
    if s == "" then 0 else 10 * Value(s[..|s| - 1]) + (s[|s| - 1] - '0') as nat
  }

  function DigitOf(d: nat): char
    requires d < 10
  {
    '0' + d as char
  }

  /** At least `width` digits. */
  function Padded(n: nat, width: nat): string
    decreases n, width
  {
    if n == 0 && width == 0 then "" else Padded(n / 10, if width == 0 then 0 else width - 1) + [DigitOf(n % 10)]
  }

  lemma PaddedLength(n: nat, width: nat)
    ensures |Padded(n, width)| >= width
    decreases n, width
  {
    if n != 0 || width != 0 {
      PaddedLength(n / 10, if width == 0 then 0 else width - 1);
    }
  }

  predicate Zeros(s: string) {
    forall i | 0 <= i < |s| :: s[i] == '0'
  }

  lemma {:induction false} ValueZero(s: string)
    requires Digits(s)
    ensures Value(s) == 0 <==> Zeros(s)
  {
    if s != "" {
      var front := s[..|s| - 1];
      ValueZero(front);
      assert s == front + [s[|s| - 1]];
    }
  }

  lemma PaddedSnoc(v: nat, d: nat, width: nat)
    requires d < 10 && (v > 0 || d > 0 || width > 0)
    ensures Padded(10 * v + d, width) == Padded(v, if width == 0 then 0 else width - 1) + [DigitOf(d)]
  {
    assert (10 * v + d) / 10 == v && (10 * v + d) % 10 == d;
  }

  lemma {:induction false} LastDigit(s: string) returns (front: string, d: nat)
    requires Digits(s) && s != ""
    ensures front == s[..|s| - 1] && d < 10 && s == front + [DigitOf(d)] && Digits(front)
    ensures Value(s) == 10 * Value(front) + d
  {
    front, d := s[..|s| - 1], (s[|s| - 1] - '0') as nat;
  }

  lemma {:induction false} PaddedValue(s: string, width: nat)
    requires Digits(s) && width <= |s| && (|s| > width ==> s[0] != '0')
    ensures Padded(Value(s), width) == s
  {
    if s == "" {
      assert Padded(0, 0) == "";
    } else {
      var front, d := LastDigit(s);
      var less := if width == 0 then 0 else width - 1;
      assert |front| > less ==> front[0] == s[0];
      PaddedValue(front, less);
      ValueZero(s);
      PaddedSnoc(Value(front), d, width);
    }
  }

  lemma ValueSnoc(front: string, d: nat)
    requires Digits(front) && d < 10
    ensures Digits(front + [DigitOf(d)]) && Value(front + [DigitOf(d)]) == 10 * Value(front) + d
  {
    assert (front + [DigitOf(d)])[..|front|] == front;
  }

  lemma {:induction false} PaddedDigits(n: nat, width: nat)
    ensures var s := Padded(n, width);
      && Digits(s) && |s| >= width && (|s| > width ==> s[0] != '0') && Value(s) == n
    decreases n, width
  {
    if n != 0 || width != 0 {
      var less, tenth, d := if width == 0 then 0 else width - 1, n / 10, n % 10;
      assert n == 10 * tenth + d;
      PaddedDigits(tenth, less);
      ValueSnoc(Padded(tenth, less), d);
      assert Padded(n, width) == Padded(tenth, less) + [DigitOf(d)];
    }
  }

  /** Without leading zeros; zero is one digit. */
  function Written(n: nat): string {
    Padded(n, 1)
  }

  /** How a number is written without leading zeros. */
  predicate IsDecimal(s: string) {
    s != "" && Digits(s) && (s[0] == '0' ==> |s| == 1)
  }

  /** Reading and writing are inverse. */
  lemma {:induction false} WrittenBack(s: string)
    requires IsDecimal(s)
    ensures Written(Value(s)) == s
  {
    PaddedValue(s, 1);
  }

  lemma {:induction false} WrittenReads(n: nat)
    ensures IsDecimal(Written(n)) && Value(Written(n)) == n
  {
    PaddedDigits(n, 1);
  }

  function Power(n: nat): (p: nat)
    ensures p > 0
  {
    if n == 0 then 1 else 10 * Power(n - 1)
  }

  lemma {:induction false} ValueBelowPower(s: string)
    requires Digits(s)
    ensures Value(s) < Power(|s|)
  {
    if s != "" {
      var front, d := LastDigit(s);
      ValueBelowPower(front);
    }
  }

  lemma {:induction false} ValueAtLeastPower(s: string)
    requires Digits(s) && s != "" && s[0] != '0'
    ensures Value(s) >= Power(|s| - 1)
  {
    var front, d := LastDigit(s);
    if front == "" {
      ValueZero(s);
    } else {
      assert front[0] == s[0];
      ValueAtLeastPower(front);
    }
  }

  lemma PowerGrows(m: nat, n: nat)
    requires m <= n
    ensures Power(m) <= Power(n)
    decreases n
  {
    if m < n {
      PowerGrows(m, n - 1);
    }
  }

  /** The last characters decide only between equal fronts. */
  lemma {:induction false} AtMostSnoc(a: string, c: char, b: string, d: char)
    requires |a| == |b|
    ensures AtMost(a + [c], b + [d]) <==> if a == b then c <= d else AtMost(a, b)
  {
    if a == "" {
      assert [c][1..] == "" && [d][1..] == "" && a + [c] == [c] && b + [d] == [d];
    } else {
      AtMostSnoc(a[1..], c, b[1..], d);
      assert (a + [c])[1..] == a[1..] + [c] && (b + [d])[1..] == b[1..] + [d];
      assert a == [a[0]] + a[1..] && b == [b[0]] + b[1..];
    }
  }

  /** Numerals of one length are ordered as texts. */
  lemma {:induction false} SameLengthOrder(s: string, t: string)
    requires Digits(s) && Digits(t) && |s| == |t|
    ensures Value(s) < Value(t) <==> s != t && AtMost(s, t)
    ensures Value(s) == Value(t) <==> s == t
  {
    if s != "" {
      var a, c := LastDigit(s);
      var b, d := LastDigit(t);
      SameLengthOrder(a, b);
      AtMostSnoc(a, DigitOf(c), b, DigitOf(d));
      assert s == t <==> a == b && c == d;
    }
  }

  /** A shorter numeral is smaller; of one length, the texts decide. */
  predicate DecimalBelow(s: string, t: string) {
    |s| < |t| || (|s| == |t| && s != t && AtMost(s, t))
  }

  lemma {:induction false} DecimalOrder(s: string, t: string)
    requires IsDecimal(s) && IsDecimal(t)
    ensures Value(s) < Value(t) <==> DecimalBelow(s, t)
    ensures Value(s) == Value(t) <==> s == t
  {
    if |s| == |t| {
      SameLengthOrder(s, t);
    } else if |s| < |t| {
      LongerIsLarger(s, t);
    } else {
      LongerIsLarger(t, s);
    }
  }

  lemma {:induction false} LongerIsLarger(s: string, t: string)
    requires IsDecimal(s) && IsDecimal(t) && |s| < |t|
    ensures Value(s) < Value(t)
  {
    ValueBelowPower(s);
    ValueAtLeastPower(t);
    PowerGrows(|s|, |t| - 1);
  }
}
