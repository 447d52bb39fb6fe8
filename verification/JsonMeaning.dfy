/** What JSON values mean, and that a jsonb column keeps and compares exactly that. */
module JsonMeaning {
  import opened Outcomes
  import opened Decimals
  import opened Manifests
  import opened Jsonb

  /** A JSON value as a tree over the real numbers. */
  datatype Meaning =
    | Nothing
    | Truth(flag: bool)
    | Quantity(value: real)
    | Words(s: string)
    | Items(items: seq<Meaning>)
    | Members(members: map<string, Meaning>)

  function TenTo(k: int): (p: real)
    ensures p > 0.0
  {
    if k >= 0 then Power(k) as real else 1.0 / Power(-k) as real
  }

  function Signed(negative: bool, x: real): real {
    if negative then -x else x
  }

  function Scaled(negative: bool, c: nat, shift: int): real {
    Signed(negative, (c as real) * TenTo(shift))
  }

  /** What a number's text says: its digits, with the point moved by its exponent. */
  function Amount(negative: bool, whole: string, fraction: string, exponent: int): real
    requires Digits(whole) && Digits(fraction)
  {
    Scaled(negative, Value(whole + fraction), exponent - |fraction|)
  }

  function RealOf(d: Decimal): real {
    Signed(d.negative, (d.coefficient as real) / Power(d.scale) as real)
  }

  function MeaningOf(c: Json): Meaning
    requires Valid(c)
  {
    match c
    case Null => Nothing
    case Bool(flag) => Truth(flag)
    case Number(text) => Quantity(RealOf(Read(text)))
    case Text(s) => Words(s)
    case List(items) => Items(seq(|items|, i requires 0 <= i < |items| => MeaningOf(items[i])))
    case Object(members) => Members(map k | k in members :: MeaningOf(members[k]))
  }

  /** A number's text without and with an exponent. */
  function Spelling(negative: bool, whole: string, fraction: string, exponent: string): string {
    Spelled(Numeral(negative, whole, fraction, exponent))
  }

  predicate IsSignText(s: string) {
    s == "" || s == "+" || s == "-"
  }

  lemma {:induction false} MantissaStops(s: string, e: string)
    requires (forall i | 0 <= i < |s| :: !IsMark(s[i])) && (e == "" || IsMark(e[0]))
    ensures Mantissa(s + e) == s
  {
    if s == "" {
      assert s + e == e;
    } else {
      assert (s + e)[1..] == s[1..] + e && s == [s[0]] + s[1..];
      MantissaStops(s[1..], e);
    }
  }

  lemma {:induction false} UnsignedParts(negative: bool, whole: string, fraction: string, exponent: string)
    requires whole != "" && Digits(whole) && Digits(fraction) && (exponent == "" || IsMark(exponent[0]))
    ensures Unsigned(negative, Spelling(false, whole, fraction, exponent)) == Numeral(negative, whole, fraction, exponent)
  {
    var rest := if fraction == "" then "" else "." + fraction;
    var body := whole + rest;
    assert Spelling(false, whole, fraction, exponent) == body + exponent;
    MantissaStops(body, exponent);
    WholeOf(whole, rest);
    assert (body + exponent)[|body|..] == exponent;
    assert fraction != "" ==> body[|whole| + 1..] == fraction;
  }

  lemma SignedParts(negative: bool, body: string)
    requires body != "" && body[0] != '-'
    ensures PartsOf((if negative then "-" else "") + body) == Unsigned(negative, body)
  {
    assert ("-" + body)[1..] == body && "" + body == body;
  }

  lemma SpellingSign(negative: bool, whole: string, fraction: string, exponent: string)
    requires whole != ""
    ensures Spelling(negative, whole, fraction, exponent) == (if negative then "-" else "") + Spelling(false, whole, fraction, exponent)
    ensures Spelling(false, whole, fraction, exponent) != "" && Spelling(false, whole, fraction, exponent)[0] == whole[0]
  {
    var rest := (if fraction == "" then "" else "." + fraction) + exponent;
    assert Spelling(false, whole, fraction, exponent) == whole + rest;
    assert Spelling(negative, whole, fraction, exponent) == (if negative then "-" else "") + (whole + rest);
  }

  lemma {:induction false} PartsOfSpelling(negative: bool, whole: string, fraction: string, exponent: string)
    requires whole != "" && Digits(whole) && Digits(fraction) && (exponent == "" || IsMark(exponent[0]))
    ensures PartsOf(Spelling(negative, whole, fraction, exponent)) == Numeral(negative, whole, fraction, exponent)
  {
    UnsignedParts(negative, whole, fraction, exponent);
    SpellingSign(negative, whole, fraction, exponent);
    assert IsDigit(whole[0]);
    SignedParts(negative, Spelling(false, whole, fraction, exponent));
  }

  lemma {:induction false} ExponentOf(mark: char, sign: string, power: string)
    requires IsMark(mark) && IsSignText(sign) && power != "" && Digits(power)
    ensures IsExponent([mark] + sign + power)
    ensures Exponent([mark] + sign + power) == if sign == "-" then -(Value(power) as int) else Value(power)
  {
    var e := [mark] + sign + power;
    if sign == "" {
      assert e[1..] == power;
    } else {
      assert e[2..] == power && e[1] == sign[0];
      assert !IsDigit(e[1..][0]);
    }
  }

  lemma {:induction false} PowersAdd(a: nat, b: nat)
    ensures Power(a + b) == Power(a) * Power(b)
  {
    if a > 0 {
      PowersAdd(a - 1, b);
      assert Power(a + b) == 10 * Power(a - 1 + b);
    }
  }

  function Shifted(negative: bool, c: nat, shift: int): Decimal {
    Decimal(negative && c != 0, if shift > 0 then c * Power(shift) else c, if shift > 0 then 0 else -shift)
  }

  lemma {:induction false} ShiftedAmount(negative: bool, c: nat, shift: int)
    ensures RealOf(Shifted(negative, c, shift)) == Scaled(negative, c, shift)
  {
    var d := Shifted(negative, c, shift);
    assert (d.coefficient as real) / (Power(d.scale) as real) == (c as real) * TenTo(shift) by {
      if shift > 0 {
        Product(c, Power(shift));
        assert Power(0) as real == 1.0;
      } else {
        Quotient(c as real, Power(-shift) as real);
      }
    }
  }

  lemma Product(a: nat, b: nat)
    ensures (a * b) as real == (a as real) * (b as real)
  {
  }

  lemma {:induction false} ReadIsShifted(text: string)
    requires IsNumber(text)
    ensures var n := PartsOf(text);
      Read(text) == Shifted(n.negative, Value(n.whole + n.fraction), Exponent(n.exponent) - |n.fraction|)
  {
  }

  lemma {:induction false} AmountOf(d: Decimal, negative: bool, c: nat, shift: int)
    requires d == Shifted(negative, c, shift)
    ensures RealOf(d) == Scaled(negative, c, shift)
  {
    ShiftedAmount(negative, c, shift);
  }

  /** Reading keeps the amount. */
  lemma {:induction false} ReadAmount(text: string, n: Numeral)
    requires IsNumber(text) && PartsOf(text) == n
    ensures RealOf(Read(text)) == Amount(n.negative, n.whole, n.fraction, Exponent(n.exponent))
  {
    ReadIsShifted(text);
    AmountOf(Read(text), n.negative, Value(n.whole + n.fraction), Exponent(n.exponent) - |n.fraction|);
  }

  lemma Quotient(c: real, p: real)
    requires p > 0.0
    ensures c / p == c * (1.0 / p)
  {
  }

  /** A number with an exponent stands for its digits with the point moved, forwards or, with a
      minus sign, backwards; so does one without, by nothing. As many digits are kept behind the
      point as are left there. */
  lemma {:induction false} NumberMeans(negative: bool, whole: string, fraction: string, mark: char, sign: string, power: string)
    requires IsDecimal(whole) && Digits(fraction) && IsMark(mark) && IsSignText(sign) && power != "" && Digits(power)
    ensures var plain, moved := Spelling(negative, whole, fraction, ""), Spelling(negative, whole, fraction, [mark] + sign + power);
      var steps := if sign == "-" then -(Value(power) as int) else Value(power);
      && IsNumber(plain) && MeaningOf(Number(plain)) == Quantity(Amount(negative, whole, fraction, 0))
      && IsNumber(moved) && MeaningOf(Number(moved)) == Quantity(Amount(negative, whole, fraction, steps))
      && Read(moved).scale == if steps < |fraction| then |fraction| - steps else 0
  {
    var plain, moved := Spelling(negative, whole, fraction, ""), Spelling(negative, whole, fraction, [mark] + sign + power);
    PartsOfSpelling(negative, whole, fraction, "");
    PartsOfSpelling(negative, whole, fraction, [mark] + sign + power);
    ExponentOf(mark, sign, power);
    ReadAmount(plain, Numeral(negative, whole, fraction, ""));
    ReadAmount(moved, Numeral(negative, whole, fraction, [mark] + sign + power));
  }

  /** Decimals compare as the reals they stand for. */
  lemma {:induction false} SameValueExactly(a: Decimal, b: Decimal)
    requires (a.negative ==> a.coefficient != 0) && (b.negative ==> b.coefficient != 0)
    ensures SameValue(a, b) <==> RealOf(a) == RealOf(b)
  {
    CrossProducts(a.coefficient, Power(a.scale), b.coefficient, Power(b.scale));
    Quotients(a.coefficient, Power(a.scale));
    Quotients(b.coefficient, Power(b.scale));
  }

  lemma Quotients(c: nat, p: nat)
    requires p > 0
    ensures (c as real) / (p as real) >= 0.0 && ((c as real) / (p as real) == 0.0 <==> c == 0)
  {
    var x := (c as real) / (p as real);
    assert x * (p as real) == c as real;
  }

  lemma {:induction false} CrossProducts(a: nat, p: nat, b: nat, q: nat)
    requires p > 0 && q > 0
    ensures a * q == b * p <==> (a as real) / (p as real) == (b as real) / (q as real)
  {
    var x, y := (a as real) / (p as real), (b as real) / (q as real);
    var s, t := p as real, q as real;
    assert x * s == a as real && y * t == b as real;
    assert (a * q) as real == (x * s) * t && (b * p) as real == (y * t) * s;
    assert (x * s) * t == x * (s * t) && (y * t) * s == y * (s * t);
    Cancel(x, y, s * t);
  }

  lemma Cancel(x: real, y: real, z: real)
    requires z > 0.0
    ensures x * z == y * z <==> x == y
  {
    assert x * z - y * z == (x - y) * z;
    if x != y {
      assert x - y > 0.0 ==> (x - y) * z > 0.0;
      assert x - y < 0.0 ==> (x - y) * z < 0.0;
    }
  }

  /** Two values are equal to the database exactly when they mean the same. */
  lemma {:induction false} EqualExactly(a: Json, b: Json)
    requires Valid(a) && Valid(b)
    ensures Equal(a, b) <==> MeaningOf(a) == MeaningOf(b)
    decreases a
  {
    match (a, b)
    case (Number(s), Number(t)) =>
      SignedIsNonzero(s);
      SignedIsNonzero(t);
      SameValueExactly(Read(s), Read(t));
    case (List(s), List(t)) =>
      var x, y := MeaningOf(a).items, MeaningOf(b).items;
      if |s| == |t| {
        forall i | 0 <= i < |s| ensures Equal(s[i], t[i]) <==> x[i] == y[i] {
          EqualExactly(s[i], t[i]);
        }
        assert x == y <==> forall i | 0 <= i < |s| :: x[i] == y[i];
      }
    case (Object(s), Object(t)) =>
      var x, y := MeaningOf(a).members, MeaningOf(b).members;
      assert x.Keys == s.Keys && y.Keys == t.Keys;
      if s.Keys == t.Keys {
        forall k | k in s ensures Equal(s[k], t[k]) <==> x[k] == y[k] {
          EqualExactly(s[k], t[k]);
        }
        assert x == y <==> forall k | k in s :: x[k] == y[k];
      }
    case _ =>
  }

  /** What a column gives back means what was stored. */
  lemma {:induction false} StoredMeansSame(c: Json)
    requires Valid(c)
    ensures Valid(Stored(c)) && MeaningOf(Stored(c)) == MeaningOf(c)
  {
    StoredIsPlain(c);
    StoredKeepsValue(c, c);
    StoredEqual(c);
    EqualExactly(Stored(c), c);
  }

  lemma {:induction false} StoredEqual(c: Json)
    requires Valid(c)
    ensures Valid(Stored(c)) && Equal(Stored(c), c)
  {
    StoredSpelling(c);
    match c
    case Number(text) => RespelledValue(text);
    case List(items) =>
      forall i | 0 <= i < |items| ensures Valid(Stored(items[i])) && Equal(Stored(items[i]), items[i]) {
        StoredEqual(items[i]);
      }
    case Object(members) =>
      forall k | k in members ensures Valid(Stored(members[k])) && Equal(Stored(members[k]), members[k]) {
        StoredEqual(members[k]);
      }
    case _ =>
  }
}
