/** Disabling Terraform interpolation in encoded data (hcl in
    backend/internal/terraform/render.go). The reader follows the "Template Literals"
    section of the HCL Native Syntax Specification. */
module Hcl {
  /** strings.ReplaceAll for a non-empty `old`: leftmost, non-overlapping. */
  function ReplaceAll(s: string, old_: string, with_: string): string
    requires old_ != ""
  {
    if |s| < |old_| then s
    else if old_ <= s then with_ + ReplaceAll(s[|old_|..], old_, with_)
    else [s[0]] + ReplaceAll(s[1..], old_, with_)
  }

  /** The two replacement steps of hcl, in its order. */
  function Escape(s: string): string {
    ReplaceAll(ReplaceAll(s, "${", "$${"), "%{", "%%{")
  }

  predicate Opens(s: string, mark: char) {
    |s| >= 2 && s[0] == mark && s[1] == '{'
  }

  predicate Introduces(s: string) {
    Opens(s, '$') || Opens(s, '%')
  }

  /** What a template reader makes of a quoted literal, left to right: `$${` and `%%{`
      stand for themselves with the mark once, `${` and `%{` start a sequence. */
  datatype Piece = Literal(c: char) | Introducer(mark: char)

  function Read(s: string): seq<Piece> {
    if s == "" then []
    else if |s| >= 3 && s[0] == s[1] && Introduces(s[1..]) then [Literal(s[0]), Literal('{')] + Read(s[3..])
    else if Introduces(s) then [Introducer(s[0])] + Read(s[2..])
    else [Literal(s[0])] + Read(s[1..])
  }

  function Literals(s: string): seq<Piece> {
    seq(|s|, i requires 0 <= i < |s| => Literal(s[i]))
  }

  /** Undoing the escapes by a leftmost scan. */
  function Unescape(s: string): string {
    if s == "" then ""
    else if |s| >= 3 && s[0] == s[1] && Introduces(s[1..]) then [s[0], '{'] + Unescape(s[3..])
    else [s[0]] + Unescape(s[1..])
  }

  /** Both escapes in one pass. */
  function Doubled(s: string): string {
    if s == "" then ""
    else if Introduces(s) then [s[0], s[0], '{'] + Doubled(s[2..])
    else [s[0]] + Doubled(s[1..])
  }

  function DoubledFor(s: string, mark: char): (r: string)
    ensures r != "" <==> s != ""
    ensures s != "" ==> r[0] == s[0]
  {
    if s == "" then ""
    else if Opens(s, mark) then [mark, mark, '{'] + DoubledFor(s[2..], mark)
    else [s[0]] + DoubledFor(s[1..], mark)
  }

  lemma {:induction false} ReplaceAllDoubles(s: string, mark: char)
    ensures ReplaceAll(s, [mark, '{'], [mark, mark, '{']) == DoubledFor(s, mark)
  {
    if |s| >= 2 {
      if Opens(s, mark) {
        assert [mark, '{'] <= s;
        ReplaceAllDoubles(s[2..], mark);
      } else {
        ReplaceAllDoubles(s[1..], mark);
      }
    } else if |s| == 1 {
      assert DoubledFor(s[1..], mark) == "";
      assert s == [s[0]] + "";
    }
  }

  /** One pass over the other's output sees the same openings, in either order. */
  lemma {:induction false} DoubledTwice(s: string, first: char, second: char)
    requires {first, second} == {'$', '%'}
    ensures DoubledFor(DoubledFor(s, first), second) == Doubled(s)
  {
    if s != "" {
      var inner := DoubledFor(s, first);
      if Opens(s, first) {
        var rest := DoubledFor(s[2..], first);
        assert inner == [first, first, '{'] + rest;
        assert inner[1..] == [first, '{'] + rest && inner[1..][1..] == ['{'] + rest;
        assert inner[1..][1..][1..] == rest;
        assert DoubledFor(inner[1..][1..], second) == ['{'] + DoubledFor(rest, second);
        assert DoubledFor(inner[1..], second) == [first, '{'] + DoubledFor(rest, second);
        DoubledTwice(s[2..], first, second);
      } else {
        var rest := DoubledFor(s[1..], first);
        assert inner == [s[0]] + rest && inner[1..] == rest;
        if Opens(s, second) {
          assert !Opens(s[1..], first);
          assert rest == ['{'] + DoubledFor(s[2..], first);
          assert inner[2..] == DoubledFor(s[2..], first);
          DoubledTwice(s[2..], first, second);
        } else {
          DoubledTwice(s[1..], first, second);
        }
      }
    }
  }

  lemma {:induction false} EscapeDoubles(s: string)
    ensures Escape(s) == Doubled(s)
  {
    ReplaceAllDoubles(s, '$');
    ReplaceAllDoubles(DoubledFor(s, '$'), '%');
    DoubledTwice(s, '$', '%');
  }

  /** The order of the two replacements does not matter. */
  lemma {:induction false} ReplacementsCommute(s: string)
    ensures ReplaceAll(ReplaceAll(s, "%{", "%%{"), "${", "$${") == Escape(s)
  {
    EscapeDoubles(s);
    ReplaceAllDoubles(s, '%');
    ReplaceAllDoubles(DoubledFor(s, '%'), '$');
    DoubledTwice(s, '%', '$');
  }

  lemma {:induction false} DoubledStart(s: string)
    ensures !Introduces(Doubled(s))
    ensures s != "" ==> Doubled(s) != "" && Doubled(s)[0] == s[0]
    ensures s == "" ==> Doubled(s) == ""
  {
    if s != "" && !Introduces(s) {
      DoubledStart(s[1..]);
    }
  }

  lemma {:induction false} ReadDoubled(s: string)
    ensures Read(Doubled(s)) == Literals(s)
  {
    if s != "" {
      var d := Doubled(s);
      if Introduces(s) {
        var rest := Doubled(s[2..]);
        assert d == [s[0], s[0], '{'] + rest && d[1..] == [s[0], '{'] + rest && d[3..] == rest;
        ReadDoubled(s[2..]);
        assert Literals(s) == [Literal(s[0]), Literal('{')] + Literals(s[2..]);
      } else {
        var rest := Doubled(s[1..]);
        assert d == [s[0]] + rest && d[1..] == rest;
        DoubledStart(s[1..]);
        ReadDoubled(s[1..]);
      }
    }
  }

  lemma {:induction false} UnescapeDoubled(s: string)
    ensures Unescape(Doubled(s)) == s
  {
    if s != "" {
      var d := Doubled(s);
      if Introduces(s) {
        var rest := Doubled(s[2..]);
        assert d == [s[0], s[0], '{'] + rest && d[1..] == [s[0], '{'] + rest && d[3..] == rest;
        UnescapeDoubled(s[2..]);
        assert s == [s[0], '{'] + s[2..];
      } else {
        var rest := Doubled(s[1..]);
        assert d == [s[0]] + rest && d[1..] == rest;
        DoubledStart(s[1..]);
        UnescapeDoubled(s[1..]);
        assert s == [s[0]] + s[1..];
      }
    }
  }

  /** Reading an escaped text back gives exactly the original characters, all literal. */
  lemma {:induction false} EscapeRoundTrip(s: string)
    ensures Unescape(Escape(s)) == s
    ensures Read(Escape(s)) == Literals(s)
  {
    EscapeDoubles(s);
    ReadDoubled(s);
    UnescapeDoubled(s);
  }

  /** No introducer is left that is not doubled, wherever in the text it stands. */
  lemma {:induction false} NoBareIntroducer(s: string, i: nat)
    requires i < |Escape(s)| && Introduces(Escape(s)[i..])
    ensures i > 0 && Escape(s)[i - 1] == Escape(s)[i]
  {
    EscapeDoubles(s);
    BareInDoubled(s, i);
  }

  lemma {:induction false} BareInDoubled(s: string, i: nat)
    requires i < |Doubled(s)| && Introduces(Doubled(s)[i..])
    ensures i > 0 && Doubled(s)[i - 1] == Doubled(s)[i]
  {
    var d := Doubled(s);
    DoubledStart(s);
    assert d[0..] == d;
    if Introduces(s) {
      var rest := Doubled(s[2..]);
      assert d == [s[0], s[0], '{'] + rest;
      if i >= 3 {
        assert rest[i - 3..] == d[i..];
        BareInDoubled(s[2..], i - 3);
      }
    } else {
      var rest := Doubled(s[1..]);
      assert d == [s[0]] + rest;
      assert rest[i - 1..] == d[i..];
      BareInDoubled(s[1..], i - 1);
    }
  }
}
