/** How PostgreSQL keeps JSON (the content column of
    backend/migrations/000004_provisr_manifest.up.sql): numbers become decimals, which are
    printed without exponents and compared by value; everything else is kept. */
module Jsonb {
  import opened Outcomes
  import opened Decimals
  import opened Manifests

  /** The parts of a number as JSON writes it; the exponent includes its mark. */
  datatype Numeral = Numeral(negative: bool, whole: string, fraction: string, exponent: string)

  predicate IsMark(c: char) {
    c == 'e' || c == 'E'
  }

  predicate IsSign(c: char) {
    c == '+' || c == '-'
  }

  /** Up to the first exponent mark. */
  function Mantissa(s: string): string {
    if s == "" || IsMark(s[0]) then "" else [s[0]] + Mantissa(s[1..])
  }

  /** Up to the first point. */
  function Whole(s: string): string {
    if s == "" || s[0] == '.' then "" else [s[0]] + Whole(s[1..])
  }

  lemma Prefixes(s: string)
    ensures Mantissa(s) <= s && Whole(s) <= s
  {
  }

  function Unsigned(negative: bool, body: string): Numeral {
    var mantissa := Mantissa(body);
    var whole := Whole(mantissa);
    Prefixes(body);
    Prefixes(mantissa);
    Numeral(negative, whole, if |whole| < |mantissa| then mantissa[|whole| + 1..] else "", body[|mantissa|..])
  }

  function PartsOf(text: string): Numeral {
    if text != "" && text[0] == '-' then Unsigned(true, text[1..]) else Unsigned(false, text)
  }

  function Spelled(n: Numeral): string {
    (if n.negative then "-" else "") + n.whole + (if n.fraction == "" then "" else "." + n.fraction) + n.exponent
  }

  predicate IsExponent(s: string) {
    s == "" || (|s| >= 2 && IsMark(s[0]) && (Digits(s[1..]) || (|s| >= 3 && IsSign(s[1]) && Digits(s[2..]))))
  }

  /** The grammar of section 6 of RFC 8259. */
  predicate IsNumber(text: string) {
    var n := PartsOf(text);
    && Spelled(n) == text && n.whole != "" && Digits(n.whole) && (n.whole[0] == '0' ==> |n.whole| == 1)
    && Digits(n.fraction) && IsExponent(n.exponent)
  }

  function Exponent(s: string): int
    requires IsExponent(s)
  {
    if s == "" then 0
    else if IsSign(s[1]) then if s[1] == '-' then -(Value(s[2..]) as int) else Value(s[2..])
    else Value(s[1..])
  }

  /** A stored decimal: the value is `coefficient / 10^scale`, and zero has no sign. */
  datatype Decimal = Decimal(negative: bool, coefficient: nat, scale: nat)

  /** An exponent moves the point; digits behind the point are kept. */
  function Read(text: string): Decimal
    requires IsNumber(text)
  {
    var n := PartsOf(text);
    var coefficient, shift := Value(n.whole + n.fraction), Exponent(n.exponent) - |n.fraction|;
    Decimal(n.negative && coefficient != 0,
            if shift > 0 then coefficient * Power(shift) else coefficient, if shift > 0 then 0 else -shift)
  }

  function Print(d: Decimal): string {
    var digits := Padded(d.coefficient, d.scale + 1);
    PaddedLength(d.coefficient, d.scale + 1);
    var point := |digits| - d.scale;
    (if d.negative then "-" else "") + digits[..point] + if d.scale == 0 then "" else "." + digits[point..]
  }

  function Respelled(text: string): string
    requires IsNumber(text)
  {
    Print(Read(text))
  }

  /** Written without an exponent, and not as a negative zero. */
  predicate IsPlain(text: string) {
    var n := PartsOf(text); n.exponent == "" && !(n.negative && Zeros(n.whole + n.fraction))
  }

  /** The two parts of a printed decimal. */
  lemma {:induction false} Printed(d: Decimal) returns (whole: string, fraction: string)
    ensures Print(d) == Spelled(Numeral(d.negative, whole, fraction, ""))
    ensures Padded(d.coefficient, d.scale + 1) == whole + fraction && |fraction| == d.scale
    ensures Digits(whole) && Digits(fraction) && whole != "" && (whole[0] == '0' ==> |whole| == 1)
  {
    var digits := Padded(d.coefficient, d.scale + 1);
    PaddedDigits(d.coefficient, d.scale + 1);
    whole, fraction := SplitDigits(digits, d.scale);
    PrintsBack(d.negative, whole, fraction, d.coefficient);
  }

  lemma {:induction false} SplitDigits(digits: string, scale: nat) returns (whole: string, fraction: string)
    requires Digits(digits) && |digits| > scale && (|digits| > scale + 1 ==> digits[0] != '0')
    ensures digits == whole + fraction && |fraction| == scale
    ensures Digits(whole) && Digits(fraction) && whole != "" && (whole[0] == '0' ==> |whole| == 1)
  {
    whole, fraction := digits[..|digits| - scale], digits[|digits| - scale..];
    assert whole[0] == digits[0];
  }

  lemma {:induction false} PrintedParts(n: Numeral)
    requires n.whole != "" && Digits(n.whole) && (n.whole[0] == '0' ==> |n.whole| == 1) && Digits(n.fraction)
    ensures Padded(Value(n.whole + n.fraction), |n.fraction| + 1) == n.whole + n.fraction
  {
    PaddedValue(n.whole + n.fraction, |n.fraction| + 1);
  }

  lemma {:induction false} PrintsBack(negative: bool, whole: string, fraction: string, coefficient: nat)
    requires Padded(coefficient, |fraction| + 1) == whole + fraction
    ensures Print(Decimal(negative, coefficient, |fraction|)) == Spelled(Numeral(negative, whole, fraction, ""))
  {
    var digits := whole + fraction;
    assert digits[..|digits| - |fraction|] == whole && digits[|digits| - |fraction|..] == fraction;
  }

  lemma {:induction false} NoExponent(text: string)
    requires IsNumber(text) && PartsOf(text).exponent == ""
    ensures Respelled(text) == text <==> IsPlain(text)
  {
    var n := PartsOf(text);
    ValueZero(n.whole + n.fraction);
    PrintedParts(n);
    var negative, coefficient := Read(text).negative, Value(n.whole + n.fraction);
    assert Read(text) == Decimal(negative, coefficient, |n.fraction|);
    PrintsBack(negative, n.whole, n.fraction, coefficient);
    SignTold(n, n.(negative := negative));
  }

  /** Two spellings that differ in the sign differ. */
  lemma SignTold(n: Numeral, m: Numeral)
    requires m == n.(negative := m.negative)
    ensures Spelled(n) == Spelled(m) <==> n == m
  {
    if n != m {
      assert |Spelled(n)| != |Spelled(m)|;
    }
  }

  /** What the database prints has no exponent. */
  lemma {:induction false} PrintsNoMark(d: Decimal)
    ensures forall i | 0 <= i < |Print(d)| :: !IsMark(Print(d)[i])
  {
    var whole, fraction := Printed(d);
  }

  /** A number is kept as it was spelled exactly when it has no exponent and is no negative
      zero. */
  lemma {:induction false} RespelledExactly(text: string)
    requires IsNumber(text)
    ensures Respelled(text) == text <==> IsPlain(text)
  {
    var n := PartsOf(text);
    if n.exponent == "" {
      NoExponent(text);
    } else {
      PrintsNoMark(Read(text));
      assert text[|text| - |n.exponent|] == n.exponent[0];
    }
  }

  lemma MantissaOf(s: string)
    requires forall i | 0 <= i < |s| :: !IsMark(s[i])
    ensures Mantissa(s) == s
  {
  }

  lemma {:induction false} WholeOf(whole: string, rest: string)
    requires Digits(whole) && (rest == "" || rest[0] == '.')
    ensures Whole(whole + rest) == whole
  {
    if whole == "" {
      assert whole + rest == rest;
    } else {
      WholeOf(whole[1..], rest);
      assert (whole + rest)[1..] == whole[1..] + rest;
      assert whole == [whole[0]] + whole[1..];
    }
  }

  lemma {:induction false} UnsignedOf(negative: bool, whole: string, fraction: string)
    requires whole != "" && Digits(whole) && Digits(fraction)
    ensures Unsigned(negative, whole + (if fraction == "" then "" else "." + fraction)) == Numeral(negative, whole, fraction, "")
  {
    var rest := if fraction == "" then "" else "." + fraction;
    var body := whole + rest;
    MantissaOf(body);
    WholeOf(whole, rest);
    assert body[|body|..] == "";
    assert fraction != "" ==> body[|whole| + 1..] == fraction;
  }

  lemma {:induction false} PartsOfSpelled(n: Numeral)
    requires n.whole != "" && Digits(n.whole) && Digits(n.fraction) && n.exponent == ""
    ensures PartsOf(Spelled(n)) == n
  {
    var body := n.whole + (if n.fraction == "" then "" else "." + n.fraction);
    UnsignedOf(n.negative, n.whole, n.fraction);
    assert Spelled(n) == if n.negative then "-" + body else body;
    assert ("-" + body)[1..] == body && body[0] == n.whole[0];
  }

  /** Reading what was printed gives the decimal back. */
  lemma {:induction false} ReadPrint(d: Decimal)
    requires d.negative ==> d.coefficient != 0
    ensures IsNumber(Print(d)) && Read(Print(d)) == d
  {
    var whole, fraction := Printed(d);
    PartsOfSpelled(Numeral(d.negative, whole, fraction, ""));
    PaddedDigits(d.coefficient, d.scale + 1);
  }

  lemma ProductIsNonzero(c: nat, p: nat)
    requires c > 0 && p > 0
    ensures c * p != 0
  {
  }

  lemma SignedIsNonzero(text: string)
    requires IsNumber(text)
    ensures Read(text).negative ==> Read(text).coefficient != 0
  {
    var n := PartsOf(text);
    var c, shift := Value(n.whole + n.fraction), Exponent(n.exponent) - |n.fraction|;
    if shift > 0 && c != 0 {
      ProductIsNonzero(c, Power(shift));
    }
  }

  /** So a stored number is a number of the same value, and storing it again changes nothing. */
  lemma {:induction false} RespelledValue(text: string)
    requires IsNumber(text)
    ensures IsNumber(Respelled(text)) && Read(Respelled(text)) == Read(text)
    ensures IsPlain(Respelled(text))
  {
    SignedIsNonzero(text);
    ReadPrint(Read(text));
    RespelledExactly(Respelled(text));
  }

  /** Every number is a JSON number, as a JSON decoder guarantees. */
  predicate Valid(c: Json) {
    match c
    case Number(text) => IsNumber(text)
    case List(items) => forall i | 0 <= i < |items| :: Valid(items[i])
    case Object(members) => forall k | k in members :: Valid(members[k])
    case _ => true
  }

  /** No number has an exponent or is a negative zero. */
  predicate Plain(c: Json) {
    match c
    case Number(text) => IsPlain(text)
    case List(items) => forall i | 0 <= i < |items| :: Plain(items[i])
    case Object(members) => forall k | k in members :: Plain(members[k])
    case _ => true
  }

  /** What a jsonb column gives back for the content it was given. */
  function Stored(c: Json): Json
    requires Valid(c)
  {
    match c
    case Number(text) => Number(Respelled(text))
    case List(items) => List(seq(|items|, i requires 0 <= i < |items| => Stored(items[i])))
    case Object(members) => Object(map k | k in members :: Stored(members[k]))
    case _ => c
  }

  /** Equality of decimals, whatever the digits behind the point. */
  predicate SameValue(a: Decimal, b: Decimal) {
    a.negative == b.negative && a.coefficient * Power(b.scale) == b.coefficient * Power(a.scale)
  }

  /** The equality of jsonb values. */
  predicate Equal(a: Json, b: Json)
    requires Valid(a) && Valid(b)
    decreases a
  {
    match (a, b)
    case (Number(s), Number(t)) => SameValue(Read(s), Read(t))
    case (List(s), List(t)) => |s| == |t| && forall i | 0 <= i < |s| :: Equal(s[i], t[i])
    case (Object(s), Object(t)) => s.Keys == t.Keys && forall k | k in s :: Equal(s[k], t[k])
    case _ => a == b
  }

  /** Content comes back as it was given exactly when it is plain. */
  lemma {:induction false} StoredExactly(c: Json)
    requires Valid(c)
    ensures Stored(c) == c <==> Plain(c)
  {
    match c
    case Number(text) => RespelledExactly(text);
    case List(items) =>
      forall i | 0 <= i < |items| ensures Stored(items[i]) == items[i] <==> Plain(items[i]) {
        StoredExactly(items[i]);
      }
      var kept := seq(|items|, i requires 0 <= i < |items| => Stored(items[i]));
      assert kept == items <==> forall i | 0 <= i < |items| :: kept[i] == items[i];
    case Object(members) =>
      forall k | k in members ensures Stored(members[k]) == members[k] <==> Plain(members[k]) {
        StoredExactly(members[k]);
      }
      var kept := map k | k in members :: Stored(members[k]);
      assert kept.Keys == members.Keys;
      assert kept == members <==> forall k | k in members :: kept[k] == members[k];
    case _ =>
  }

  /** What comes back is valid and plain, and stored again it stays as it is. */
  lemma {:induction false} StoredIsPlain(c: Json)
    requires Valid(c)
    ensures Valid(Stored(c)) && Plain(Stored(c)) && Stored(Stored(c)) == Stored(c)
  {
    StoredSpelling(c);
    StoredExactly(Stored(c));
  }

  lemma {:induction false} StoredSpelling(c: Json)
    requires Valid(c)
    ensures Valid(Stored(c)) && Plain(Stored(c))
  {
    match c
    case Number(text) => RespelledValue(text);
    case List(items) =>
      forall i | 0 <= i < |items| ensures Valid(Stored(items[i])) && Plain(Stored(items[i])) {
        StoredSpelling(items[i]);
      }
    case Object(members) =>
      forall k | k in members ensures Valid(Stored(members[k])) && Plain(Stored(members[k])) {
        StoredSpelling(members[k]);
      }
    case _ =>
  }

  /** Comparing what is stored compares what was given. */
  lemma {:induction false} StoredKeepsValue(a: Json, b: Json)
    requires Valid(a) && Valid(b)
    ensures Valid(Stored(a)) && Valid(Stored(b)) && (Equal(Stored(a), Stored(b)) <==> Equal(a, b))
    decreases a
  {
    StoredSpelling(a);
    StoredSpelling(b);
    match (a, b)
    case (Number(s), Number(t)) =>
      RespelledValue(s);
      RespelledValue(t);
    case (List(s), List(t)) =>
      if |s| == |t| {
        forall i | 0 <= i < |s| ensures Kept(s[i], t[i]) {
          StoredKeepsValue(s[i], t[i]);
        }
        KeptItems(s, t);
      }
    case (Object(s), Object(t)) =>
      if s.Keys == t.Keys {
        forall k | k in s ensures Kept(s[k], t[k]) {
          StoredKeepsValue(s[k], t[k]);
        }
        KeptMembers(s, t);
      } else {
        assert Stored(a).members.Keys == s.Keys && Stored(b).members.Keys == t.Keys;
      }
    case _ =>
  }

  predicate Kept(a: Json, b: Json)
    requires Valid(a) && Valid(b)
  {
    Valid(Stored(a)) && Valid(Stored(b)) && (Equal(Stored(a), Stored(b)) <==> Equal(a, b))
  }

  lemma {:induction false} KeptItems(s: seq<Json>, t: seq<Json>)
    requires Valid(List(s)) && Valid(List(t)) && |s| == |t| && forall i | 0 <= i < |s| :: Kept(s[i], t[i])
    ensures Kept(List(s), List(t))
  {
    var x, y := Stored(List(s)).items, Stored(List(t)).items;
    assert forall i | 0 <= i < |s| :: x[i] == Stored(s[i]) && y[i] == Stored(t[i]);
    if Equal(List(s), List(t)) {
      forall i | 0 <= i < |s| ensures Equal(x[i], y[i]) {
        assert Kept(s[i], t[i]) && Equal(s[i], t[i]);
      }
    } else {
      var i :| 0 <= i < |s| && !Equal(s[i], t[i]);
      assert Kept(s[i], t[i]) && !Equal(x[i], y[i]);
    }
  }

  lemma {:induction false} KeptMembers(s: map<string, Json>, t: map<string, Json>)
    requires Valid(Object(s)) && Valid(Object(t)) && s.Keys == t.Keys && forall k | k in s :: Kept(s[k], t[k])
    ensures Kept(Object(s), Object(t))
  {
    var x, y := Stored(Object(s)).members, Stored(Object(t)).members;
    assert x.Keys == y.Keys;
    if Equal(Object(s), Object(t)) {
      forall k | k in s ensures Equal(x[k], y[k]) {
        assert Kept(s[k], t[k]) && Equal(s[k], t[k]);
      }
    } else {
      var k :| k in s && !Equal(s[k], t[k]);
      assert Kept(s[k], t[k]) && !Equal(x[k], y[k]);
    }
  }

  lemma {:induction false} EqualReflexive(c: Json)
    requires Valid(c)
    ensures Equal(c, c)
  {
    match c
    case List(items) =>
      forall i | 0 <= i < |items| ensures Equal(items[i], items[i]) {
        EqualReflexive(items[i]);
      }
    case Object(members) =>
      forall k | k in members ensures Equal(members[k], members[k]) {
        EqualReflexive(members[k]);
      }
    case _ =>
  }

  lemma {:induction false} ExponentParts()
    ensures PartsOf("1e2") == Numeral(false, "1", "", "e2") && IsExponent("e2") && Exponent("e2") == 2
  {
    var text := "1e2";
    assert text == ['1'] + "e2" && text[1..] == "e2";
    assert Mantissa("e2") == "" && Mantissa(text) == "1" && Whole("1") == "1";
    assert "e2"[1..] == "2" && Value("2") == 2;
  }

  /** A number the database respells. */
  lemma {:induction false} ExponentExample()
    ensures IsNumber("1e2") && !IsPlain("1e2") && Respelled("1e2") == "100"
  {
    ExponentParts();
    assert Spelled(Numeral(false, "1", "", "e2")) == "1e2";
    assert "1" + "" == "1" && Value("1") == 1 && Power(2) == 100;
    assert Read("1e2") == Decimal(false, 100, 0);
    PaddedSnoc(10, 0, 1);
    PaddedSnoc(1, 0, 0);
    PaddedSnoc(0, 1, 0);
    PrintsBack(false, "100", "", 100);
  }
}
