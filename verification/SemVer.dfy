/** Prompt versions (agent/app/prompts/models.py): the accepted grammar, the sort key, and
    precedence as section 11 of Semantic Versioning 2.0.0 defines it. */
module SemVer {
  import opened Decimals
  import opened Outcomes
  import opened Texts

  predicate IsLetter(c: char) {
    'a' <= c <= 'z' || 'A' <= c <= 'Z'
  }

  predicate IsWordChar(c: char) {
    IsDigit(c) || IsLetter(c) || c == '-'
  }

  predicate AllDigits(s: string) {
    s != "" && Digits(s)
  }

  predicate AllWords(s: string) {
    s != [] && forall i | 0 <= i < |s| :: IsWordChar(s[i])
  }

  /** `0|[1-9][0-9]*|[a-zA-Z-][0-9a-zA-Z-]*` */
  predicate IsIdentifier(s: string) {
    IsDecimal(s) || (AllWords(s) && !IsDigit(s[0]))
  }

  /** The identifiers Semantic Versioning itself admits: non-empty, of word characters, and
      without a leading zero when numeric. */
  predicate IsSemVerIdentifier(s: string) {
    AllWords(s) && (AllDigits(s) && s[0] == '0' ==> |s| == 1)
  }

  lemma NoMark(s: string, mark: char)
    requires mark !in s
    ensures Cut(s, mark) == (s, None) && Split(s, mark) == [s]
  {
    if s != "" {
      NoMark(s[1..], mark);
      assert s == [s[0]] + s[1..];
    }
  }

  lemma {:induction false} CutAt(a: string, mark: char, b: string)
    requires mark !in a
    ensures Cut(a + [mark] + b, mark) == (a, Some(b))
  {
    var s := a + [mark] + b;
    if a == "" {
      assert s == [mark] + b && s[1..] == b;
    } else {
      var rest := a[1..] + [mark] + b;
      CutAt(a[1..], mark, b);
      assert s == [a[0]] + rest && s[1..] == rest;
      assert a == [a[0]] + a[1..];
    }
  }

  datatype Identifier = Numeric(n: nat) | Word(s: string)

  datatype Version = Version(major: nat, minor: nat, patch: nat, prerelease: Option<seq<Identifier>>, build: Option<string>)

  /** The text up to the first mark, and what follows it. */
  function Cut(s: string, mark: char): (string, Option<string>) {
    if s == "" then ("", None)
    else if s[0] == mark then ("", Some(s[1..]))
    else
      var rest := Cut(s[1..], mark);
      ([s[0]] + rest.0, rest.1)
  }

  function IdentifierOf(s: string): Identifier
    requires IsIdentifier(s)
  {
    if AllDigits(s) then Numeric(Value(s)) else Word(s)
  }

  function Identifiers(parts: seq<string>): (ids: seq<Identifier>)
    requires forall i | 0 <= i < |parts| :: IsIdentifier(parts[i])
    ensures |ids| == |parts| && forall i | 0 <= i < |parts| :: ids[i] == IdentifierOf(parts[i])
  {
    seq(|parts|, i requires 0 <= i < |parts| => IdentifierOf(parts[i]))
  }

  predicate IsBuild(s: string) {
    var parts := Split(s, '.'); forall i | 0 <= i < |parts| :: AllWords(parts[i])
  }

  predicate IsPrerelease(s: string) {
    var parts := Split(s, '.'); forall i | 0 <= i < |parts| :: IsIdentifier(parts[i])
  }

  predicate IsCore(s: string) {
    var parts := Split(s, '.'); |parts| == 3 && IsDecimal(parts[0]) && IsDecimal(parts[1]) && IsDecimal(parts[2])
  }

  /** What the pattern matches, read into its parts. */
  function Parse(s: string): Option<Version> {
    var plus := Cut(s, '+');
    var dash := Cut(plus.0, '-');
    if !IsCore(dash.0) || (dash.1.Some? && !IsPrerelease(dash.1.value)) || (plus.1.Some? && !IsBuild(plus.1.value)) then None
    else
      var core := Split(dash.0, '.');
      Some(Version(Value(core[0]), Value(core[1]), Value(core[2]),
                   if dash.1.Some? then Some(Identifiers(Split(dash.1.value, '.'))) else None, plus.1))
  }

  /** A version as the grammar of sections 2, 9 and 10 takes it apart. */
  datatype Spelling = Spelling(core: seq<string>, prerelease: Option<seq<string>>, build: Option<seq<string>>)

  function Marked(mark: char, parts: Option<seq<string>>): string {
    if parts.None? then "" else [mark] + Join(parts.value, ".")
  }

  function Spelled(v: Spelling): string {
    Join(v.core, ".") + Marked('-', v.prerelease) + Marked('+', v.build)
  }

  predicate AllOf(p: string -> bool, parts: seq<string>) {
    forall i | 0 <= i < |parts| :: p(parts[i])
  }

  predicate Grammatical(v: Spelling) {
    && |v.core| == 3 && AllOf(IsDecimal, v.core)
    && (v.prerelease.Some? ==> v.prerelease.value != [] && AllOf(IsSemVerIdentifier, v.prerelease.value))
    && (v.build.Some? ==> v.build.value != [] && AllOf(AllWords, v.build.value))
  }

  /** What Semantic Versioning calls a version. */
  ghost predicate IsSemVer(s: string) {
    exists v :: Grammatical(v) && Spelled(v) == s
  }

  /** A leading digit, and something else than digits. */
  predicate Mixed(s: string) {
    s != "" && IsDigit(s[0]) && !AllDigits(s)
  }

  function SplitSome(s: Option<string>): Option<seq<string>> {
    if s.None? then None else Some(Split(s.value, '.'))
  }

  /** The only way to take a text apart. */
  function SpellingOf(s: string): Spelling {
    var plus := Cut(s, '+');
    var dash := Cut(plus.0, '-');
    Spelling(Split(dash.0, '.'), SplitSome(dash.1), SplitSome(plus.1))
  }

  lemma {:induction false} CutBack(s: string, mark: char)
    ensures var c := Cut(s, mark); mark !in c.0 && s == if c.1.None? then c.0 else c.0 + [mark] + c.1.value
  {
    if s != "" && s[0] != mark {
      CutBack(s[1..], mark);
      assert s == [s[0]] + s[1..];
    }
  }

  lemma {:induction false} JoinedWithout(parts: seq<string>, mark: char)
    requires mark != '.' && forall i | 0 <= i < |parts| :: mark !in parts[i]
    ensures mark !in Join(parts, ".")
  {
    if |parts| > 1 {
      JoinedWithout(parts[1..], mark);
    }
  }

  lemma {:induction false} MarkedBack(s: string, mark: char)
    ensures var c := Cut(s, mark); c.0 + Marked(mark, SplitSome(c.1)) == s
  {
    CutBack(s, mark);
    if Cut(s, mark).1.Some? {
      SplitBack(Cut(s, mark).1.value, '.');
    }
  }

  lemma {:induction false} SpellingBack(s: string)
    ensures Spelled(SpellingOf(s)) == s
  {
    MarkedBack(s, '+');
    MarkedBack(Cut(s, '+').0, '-');
    SplitBack(Cut(Cut(s, '+').0, '-').0, '.');
  }

  lemma {:induction false} CutMarked(a: string, mark: char, parts: Option<seq<string>>)
    requires mark !in a && (parts.Some? ==> parts.value != [] && forall i | 0 <= i < |parts.value| :: '.' !in parts.value[i])
    ensures var c := Cut(a + Marked(mark, parts), mark); c.0 == a && SplitSome(c.1) == parts
  {
    if parts.None? {
      NoMark(a, mark);
      assert a + "" == a;
    } else {
      SplitJoined(parts.value, '.');
      CutAt(a, mark, Join(parts.value, "."));
      assert a + Marked(mark, parts) == a + [mark] + Join(parts.value, ".");
    }
  }

  lemma WordsWithout(s: string)
    requires AllWords(s)
    ensures '.' !in s && '+' !in s && (AllDigits(s) ==> '-' !in s)
  {
  }

  lemma {:induction false} PartsWithout(parts: seq<string>)
    requires AllOf(AllWords, parts)
    ensures '+' !in Join(parts, ".") && (AllOf(AllDigits, parts) ==> '-' !in Join(parts, "."))
    ensures forall i | 0 <= i < |parts| :: '.' !in parts[i]
  {
    forall i | 0 <= i < |parts| ensures '.' !in parts[i] && '+' !in parts[i] && (AllDigits(parts[i]) ==> '-' !in parts[i]) {
      WordsWithout(parts[i]);
    }
    JoinedWithout(parts, '+');
    if AllOf(AllDigits, parts) {
      JoinedWithout(parts, '-');
    }
  }

  /** A grammatical version is taken apart in one way. */
  lemma {:induction false} SpellingUnique(v: Spelling)
    requires Grammatical(v)
    ensures SpellingOf(Spelled(v)) == v
  {
    var core, pre := Join(v.core, "."), Marked('-', v.prerelease);
    assert AllOf(AllWords, v.core) && AllOf(AllDigits, v.core);
    PartsWithout(v.core);
    SplitJoined(v.core, '.');
    if v.prerelease.Some? {
      PartsWithout(v.prerelease.value);
    }
    if v.build.Some? {
      PartsWithout(v.build.value);
    }
    assert '+' !in core + pre;
    CutMarked(core + pre, '+', v.build);
    CutMarked(core, '-', v.prerelease);
  }

  /** The pattern accepts exactly the versions of Semantic Versioning none of whose prerelease
      identifiers mixes a leading digit with other characters. */
  lemma {:induction false} AcceptedVersions(s: string)
    ensures Parse(s).Some? <==>
      && IsSemVer(s)
      && (SpellingOf(s).prerelease.Some? ==> forall i | 0 <= i < |SpellingOf(s).prerelease.value| :: !Mixed(SpellingOf(s).prerelease.value[i]))
  {
    var v := SpellingOf(s);
    SpellingBack(s);
    if IsSemVer(s) {
      var w :| Grammatical(w) && Spelled(w) == s;
      SpellingUnique(w);
    }
    assert IsSemVer(s) <==> Grammatical(v);
    if v.prerelease.Some? {
      forall i | 0 <= i < |v.prerelease.value|
        ensures IsIdentifier(v.prerelease.value[i]) <==> IsSemVerIdentifier(v.prerelease.value[i]) && !Mixed(v.prerelease.value[i])
      {
        AcceptedIdentifier(v.prerelease.value[i]);
      }
    }
  }

  lemma {:induction false} ReleaseIsAccepted(v: Spelling)
    requires Grammatical(v) && v.prerelease.None?
    ensures Parse(Spelled(v)).Some?
  {
    SpellingUnique(v);
    AcceptedVersions(Spelled(v));
  }

  lemma AcceptedIdentifier(s: string)
    ensures IsIdentifier(s) <==> IsSemVerIdentifier(s) && !Mixed(s)
  {
    if s != "" {
      assert AllDigits(s) ==> IsDigit(s[0]);
    }
  }

  /** A prerelease that Semantic Versioning admits and the pattern refuses. */
  lemma {:induction false} MixedIdentifierRefused()
    ensures IsSemVer("1.0.0-1a") && Parse("1.0.0-1a") == None
  {
    var v := Spelling(["1", "0", "0"], Some(["1a"]), None);
    assert Join(["1", "0", "0"], ".") == "1" + "." + ("0" + "." + "0");
    assert Spelled(v) == "1.0.0-1a";
    var pre := "1a";
    assert pre[0] == '1' && pre[1] == 'a' && !IsDigit(pre[1]);
    SpellingUnique(v);
    AcceptedVersions("1.0.0-1a");
    assert SpellingOf("1.0.0-1a").prerelease.value[0] == pre && Mixed(pre);
  }

  /** A Python value inside the key. */
  datatype Atom = Int(i: int) | Str(s: string)

  datatype Pair = Pair(rank: int, atom: Atom)

  datatype Key = Key(major: int, minor: int, patch: int, release: int, identifiers: seq<Pair>)

  function PairOf(x: Identifier): Pair {
    match x
    case Numeric(n) => Pair(0, Int(n))
    case Word(s) => Pair(1, Str(s))
  }

  function Pairs(ids: seq<Identifier>): (r: seq<Pair>)
    ensures |r| == |ids| && forall i | 0 <= i < |ids| :: r[i] == PairOf(ids[i])
  {
    seq(|ids|, i requires 0 <= i < |ids| => PairOf(ids[i]))
  }

  function KeyOf(v: Version): Key {
    Key(v.major, v.minor, v.patch, if v.prerelease.None? then 1 else 0,
        if v.prerelease.None? then [] else Pairs(v.prerelease.value))
  }

  /** `<` between two atoms: comparing a number with a string is an error. */
  function AtomLess(a: Atom, b: Atom): Option<bool> {
    if a.Int? && b.Int? then Some(a.i < b.i)
    else if a.Str? && b.Str? then Some(a.s != b.s && AtMost(a.s, b.s))
    else None
  }

  function PairLess(a: Pair, b: Pair): Option<bool> {
    if a.rank != b.rank then Some(a.rank < b.rank)
    else if a.atom != b.atom then AtomLess(a.atom, b.atom)
    else Some(false)
  }

  /** `<` between tuples: the first unequal position decides, else the length. */
  function TupleLess(a: seq<Pair>, b: seq<Pair>): Option<bool> {
    if b == [] then Some(false)
    else if a == [] then Some(true)
    else if a[0] != b[0] then PairLess(a[0], b[0])
    else TupleLess(a[1..], b[1..])
  }

  function KeyLess(a: Key, b: Key): Option<bool> {
    if a.major != b.major then Some(a.major < b.major)
    else if a.minor != b.minor then Some(a.minor < b.minor)
    else if a.patch != b.patch then Some(a.patch < b.patch)
    else if a.release != b.release then Some(a.release < b.release)
    else TupleLess(a.identifiers, b.identifiers)
  }

  /** Precedence of identifiers: numbers by value, words in ASCII order, numbers first. */
  predicate IdentifierBelow(x: Identifier, y: Identifier) {
    match (x, y)
    case (Numeric(n), Numeric(m)) => n < m
    case (Numeric(_), Word(_)) => true
    case (Word(_), Numeric(_)) => false
    case (Word(s), Word(t)) => s != t && AtMost(s, t)
  }

  /** The first difference decides; with none, fewer identifiers are lower. */
  ghost predicate PrereleaseBelow(p: seq<Identifier>, q: seq<Identifier>) {
    exists k | 0 <= k <= |p| && k <= |q| ::
      p[..k] == q[..k] && k < |q| && (k == |p| || IdentifierBelow(p[k], q[k]))
  }

  /** Section 11: major, minor and patch numerically, a prerelease before its release, then
      the identifiers. Build metadata plays no part. */
  ghost predicate Below(a: Version, b: Version) {
    || a.major < b.major
    || (a.major == b.major && a.minor < b.minor)
    || (a.major == b.major && a.minor == b.minor && a.patch < b.patch)
    || (a.major == b.major && a.minor == b.minor && a.patch == b.patch && a.prerelease.Some? && b.prerelease.None?)
    || (a.major == b.major && a.minor == b.minor && a.patch == b.patch && a.prerelease.Some? && b.prerelease.Some?
        && PrereleaseBelow(a.prerelease.value, b.prerelease.value))
  }

  lemma {:induction false} PairLessIsBelow(x: Identifier, y: Identifier)
    ensures PairLess(PairOf(x), PairOf(y)) == Some(IdentifierBelow(x, y))
  {
  }

  lemma PairsRest(ids: seq<Identifier>)
    requires ids != []
    ensures Pairs(ids)[1..] == Pairs(ids[1..])
  {
  }

  lemma {:induction false} BelowFirst(p: seq<Identifier>, q: seq<Identifier>)
    requires p != [] && q != []
    ensures p[0] == q[0] ==> (PrereleaseBelow(p, q) <==> PrereleaseBelow(p[1..], q[1..]))
    ensures p[0] != q[0] ==> (PrereleaseBelow(p, q) <==> IdentifierBelow(p[0], q[0]))
  {
    if PrereleaseBelow(p, q) {
      var k :| 0 <= k <= |p| && k <= |q| && p[..k] == q[..k] && k < |q| && (k == |p| || IdentifierBelow(p[k], q[k]));
      if k > 0 {
        assert p[0] == p[..k][0] == q[..k][0] == q[0];
        assert p[1..][..k - 1] == p[..k][1..] && q[1..][..k - 1] == q[..k][1..];
      } else {
        IrreflexiveIdentifier(p[0]);
      }
    }
    if p[0] == q[0] && PrereleaseBelow(p[1..], q[1..]) {
      var k :| 0 <= k <= |p[1..]| && k <= |q[1..]| && p[1..][..k] == q[1..][..k] && k < |q[1..]| &&
        (k == |p[1..]| || IdentifierBelow(p[1..][k], q[1..][k]));
      assert p[..k + 1] == [p[0]] + p[1..][..k] && q[..k + 1] == [q[0]] + q[1..][..k];
    }
    if IdentifierBelow(p[0], q[0]) {
      assert p[..0] == q[..0];
    }
  }

  lemma IrreflexiveIdentifier(x: Identifier)
    ensures !IdentifierBelow(x, x)
  {
  }

  lemma {:induction false} TupleLessIsBelow(p: seq<Identifier>, q: seq<Identifier>)
    ensures TupleLess(Pairs(p), Pairs(q)) == Some(PrereleaseBelow(p, q))
  {
    if q == [] {
    } else if p == [] {
      assert p[..0] == q[..0];
    } else {
      BelowFirst(p, q);
      PairLessIsBelow(p[0], q[0]);
      if p[0] == q[0] {
        PairsRest(p);
        PairsRest(q);
        TupleLessIsBelow(p[1..], q[1..]);
      } else {
        assert PairOf(p[0]) != PairOf(q[0]);
      }
    }
  }

  /** Comparing two keys never compares a number with a string, and gives precedence. */
  lemma {:induction false} KeyOrderIsPrecedence(a: Version, b: Version)
    ensures KeyLess(KeyOf(a), KeyOf(b)) == Some(Below(a, b))
  {
    if a.prerelease.Some? && b.prerelease.Some? {
      TupleLessIsBelow(a.prerelease.value, b.prerelease.value);
    }
  }

  lemma {:induction false} IdentifiersOrdered(x: Identifier, y: Identifier, z: Identifier)
    ensures IdentifierBelow(x, y) || IdentifierBelow(y, x) || x == y
    ensures !(IdentifierBelow(x, y) && IdentifierBelow(y, x))
    ensures IdentifierBelow(x, y) && IdentifierBelow(y, z) ==> IdentifierBelow(x, z)
  {
    if x.Word? && y.Word? {
      AtMostTotal(x.s, y.s);
      if AtMost(x.s, y.s) && AtMost(y.s, x.s) {
        AtMostAntisymmetric(x.s, y.s);
      }
      if z.Word? && AtMost(x.s, y.s) && AtMost(y.s, z.s) {
        AtMostTransitive(x.s, y.s, z.s);
        if x.s == z.s {
          AtMostAntisymmetric(x.s, y.s);
        }
      }
    }
  }

  lemma {:induction false} PrereleasesTotal(p: seq<Identifier>, q: seq<Identifier>)
    ensures PrereleaseBelow(p, q) || PrereleaseBelow(q, p) || p == q
    ensures !(PrereleaseBelow(p, q) && PrereleaseBelow(q, p))
  {
    if p == [] || q == [] {
      assert p[..0] == q[..0];
      if p == [] && q != [] {
        assert PrereleaseBelow(p, q);
      }
      if q == [] && p != [] {
        assert PrereleaseBelow(q, p);
      }
    } else {
      BelowFirst(p, q);
      BelowFirst(q, p);
      IdentifiersOrdered(p[0], q[0], p[0]);
      PrereleasesTotal(p[1..], q[1..]);
      assert p == [p[0]] + p[1..] && q == [q[0]] + q[1..];
    }
  }

  lemma {:induction false} PrereleasesTransitive(p: seq<Identifier>, q: seq<Identifier>, r: seq<Identifier>)
    requires PrereleaseBelow(p, q) && PrereleaseBelow(q, r)
    ensures PrereleaseBelow(p, r)
  {
    if p == [] {
      assert r != [] && p[..0] == r[..0];
    } else {
      assert q != [] && r != [];
      BelowFirst(p, q);
      BelowFirst(q, r);
      BelowFirst(p, r);
      IdentifiersOrdered(p[0], q[0], r[0]);
      IdentifiersOrdered(q[0], r[0], p[0]);
      if p[0] == q[0] == r[0] {
        PrereleasesTransitive(p[1..], q[1..], r[1..]);
      }
    }
  }

  /** Equal in precedence: neither is below the other. */
  ghost predicate Tied(a: Version, b: Version) {
    !Below(a, b) && !Below(b, a)
  }

  /** Precedence is a strict weak order, and versions are tied exactly when they differ at
      most in build metadata. */
  lemma {:induction false} PrecedenceIsOrder(a: Version, b: Version, c: Version)
    ensures !(Below(a, b) && Below(b, a))
    ensures Below(a, b) && Below(b, c) ==> Below(a, c)
    ensures Tied(a, b) <==> a.(build := None) == b.(build := None)
  {
    if a.prerelease.Some? && b.prerelease.Some? {
      PrereleasesTotal(a.prerelease.value, b.prerelease.value);
      if c.prerelease.Some? && PrereleaseBelow(a.prerelease.value, b.prerelease.value) && PrereleaseBelow(b.prerelease.value, c.prerelease.value) {
        PrereleasesTransitive(a.prerelease.value, b.prerelease.value, c.prerelease.value);
      }
    }
  }

  /** The identifier is what its text says: the number written by its digits, else the text. */
  predicate ReadAs(x: Identifier, part: string) {
    if Digits(part) then x.Numeric? && Written(x.n) == part else x == Word(part)
  }

  /** Every part of an accepted version is read as what is written there. */
  lemma {:induction false} ReadsParts(v: Spelling)
    requires Grammatical(v) && Parse(Spelled(v)).Some?
    ensures var r := Parse(Spelled(v)).value;
      && Written(r.major) == v.core[0] && Written(r.minor) == v.core[1] && Written(r.patch) == v.core[2]
      && (r.prerelease.Some? <==> v.prerelease.Some?)
      && (v.prerelease.Some? ==>
            && |r.prerelease.value| == |v.prerelease.value|
            && forall i | 0 <= i < |v.prerelease.value| :: ReadAs(r.prerelease.value[i], v.prerelease.value[i]))
      && r.build == if v.build.Some? then Some(Join(v.build.value, ".")) else None
  {
    SpellingUnique(v);
    var r := Parse(Spelled(v)).value;
    WrittenBack(v.core[0]);
    WrittenBack(v.core[1]);
    WrittenBack(v.core[2]);
    BuildRead(v);
    if v.prerelease.Some? {
      forall i | 0 <= i < |v.prerelease.value| ensures ReadAs(r.prerelease.value[i], v.prerelease.value[i]) {
        var part := v.prerelease.value[i];
        if Digits(part) {
          WrittenBack(part);
        }
      }
    }
  }

  lemma {:induction false} BuildRead(v: Spelling)
    requires Grammatical(v)
    ensures Cut(Spelled(v), '+').1 == if v.build.Some? then Some(Join(v.build.value, ".")) else None
  {
    SpellingUnique(v);
    if v.build.Some? {
      SplitBack(Cut(Spelled(v), '+').1.value, '.');
    }
  }

  function IdentifierText(x: Identifier): string {
    match x
    case Numeric(n) => Written(n)
    case Word(s) => s
  }

  function IdentifierTexts(ids: seq<Identifier>): (r: seq<string>)
    ensures |r| == |ids| && forall i | 0 <= i < |r| :: r[i] == IdentifierText(ids[i])
  {
    seq(|ids|, i requires 0 <= i < |ids| => IdentifierText(ids[i]))
  }

  /** The version written out. */
  function Text(v: Version): string {
    Written(v.major) + "." + Written(v.minor) + "." + Written(v.patch)
    + (if v.prerelease.None? then "" else "-" + Join(IdentifierTexts(v.prerelease.value), "."))
    + (if v.build.None? then "" else "+" + v.build.value)
  }

  /** Writing out what was read gives the text back. */
  lemma {:induction false} ParseBack(s: string)
    requires Parse(s).Some?
    ensures Text(Parse(s).value) == s
  {
    AcceptedVersions(s);
    var v := SpellingOf(s);
    SpellingBack(s);
    var w :| Grammatical(w) && Spelled(w) == s;
    SpellingUnique(w);
    ReadsParts(v);
    var r := Parse(s).value;
    if v.prerelease.Some? {
      assert IdentifierTexts(r.prerelease.value) == v.prerelease.value;
    }
    CoreText(v.core[0], v.core[1], v.core[2]);
    assert v.core == [v.core[0], v.core[1], v.core[2]];
  }

  lemma CoreText(a: string, b: string, c: string)
    ensures Join([a, b, c], ".") == a + "." + b + "." + c
  {
    assert [a, b, c][1..] == [b, c] && [b, c][1..] == [c];
    assert Join([b, c], ".") == b + "." + c;
  }

  /** Precedence of two identifiers by their texts: numerals by length and then as texts, words
      as texts, numerals first. */
  predicate PartBelow(x: string, y: string) {
    if Digits(x) then !Digits(y) || DecimalBelow(x, y) else !Digits(y) && x != y && AtMost(x, y)
  }

  ghost predicate PartsBelow(p: seq<string>, q: seq<string>) {
    exists k | 0 <= k <= |p| && k <= |q| :: p[..k] == q[..k] && k < |q| && (k == |p| || PartBelow(p[k], q[k]))
  }

  /** Section 11 on the texts of two versions, without reading a number. */
  ghost predicate SpellingBelow(v: Spelling, w: Spelling)
    requires |v.core| == 3 && |w.core| == 3
  {
    || DecimalBelow(v.core[0], w.core[0])
    || (v.core[0] == w.core[0] && DecimalBelow(v.core[1], w.core[1]))
    || (v.core[0] == w.core[0] && v.core[1] == w.core[1] && DecimalBelow(v.core[2], w.core[2]))
    || (v.core == w.core && v.prerelease.Some? && w.prerelease.None?)
    || (v.core == w.core && v.prerelease.Some? && w.prerelease.Some? && PartsBelow(v.prerelease.value, w.prerelease.value))
  }

  ghost predicate TextBelow(s: string, t: string) {
    |SpellingOf(s).core| == 3 && |SpellingOf(t).core| == 3 && SpellingBelow(SpellingOf(s), SpellingOf(t))
  }

  lemma {:induction false} WrittenOrder(a: nat, b: nat)
    ensures a < b <==> DecimalBelow(Written(a), Written(b))
    ensures a == b <==> Written(a) == Written(b)
  {
    WrittenReads(a);
    WrittenReads(b);
    DecimalOrder(Written(a), Written(b));
  }

  lemma {:induction false} PartOrder(x: Identifier, p: string, y: Identifier, q: string)
    requires ReadAs(x, p) && ReadAs(y, q)
    ensures IdentifierBelow(x, y) <==> PartBelow(p, q)
    ensures x == y <==> p == q
  {
    if x.Numeric? && y.Numeric? {
      WrittenOrder(x.n, y.n);
    }
  }

  lemma {:induction false} PartsOrder(xs: seq<Identifier>, ps: seq<string>, ys: seq<Identifier>, qs: seq<string>)
    requires |xs| == |ps| && |ys| == |qs|
    requires (forall i | 0 <= i < |ps| :: ReadAs(xs[i], ps[i])) && (forall i | 0 <= i < |qs| :: ReadAs(ys[i], qs[i]))
    ensures PrereleaseBelow(xs, ys) <==> PartsBelow(ps, qs)
  {
    forall k | 0 <= k <= |xs| && k <= |ys| ensures xs[..k] == ys[..k] <==> ps[..k] == qs[..k] {
      SamePrefix(xs, ps, ys, qs, k);
    }
    forall k | 0 <= k < |xs| && k < |ys| ensures IdentifierBelow(xs[k], ys[k]) <==> PartBelow(ps[k], qs[k]) {
      PartOrder(xs[k], ps[k], ys[k], qs[k]);
    }
    if PrereleaseBelow(xs, ys) {
      var k :| 0 <= k <= |xs| && k <= |ys| && xs[..k] == ys[..k] && k < |ys| && (k == |xs| || IdentifierBelow(xs[k], ys[k]));
      assert ps[..k] == qs[..k];
    }
    if PartsBelow(ps, qs) {
      var k :| 0 <= k <= |ps| && k <= |qs| && ps[..k] == qs[..k] && k < |qs| && (k == |ps| || PartBelow(ps[k], qs[k]));
      assert xs[..k] == ys[..k];
    }
  }

  lemma {:induction false} SamePrefix(xs: seq<Identifier>, ps: seq<string>, ys: seq<Identifier>, qs: seq<string>, k: nat)
    requires |xs| == |ps| && |ys| == |qs| && k <= |xs| && k <= |ys|
    requires (forall i | 0 <= i < |ps| :: ReadAs(xs[i], ps[i])) && (forall i | 0 <= i < |qs| :: ReadAs(ys[i], qs[i]))
    ensures xs[..k] == ys[..k] <==> ps[..k] == qs[..k]
  {
    if k > 0 {
      SamePrefix(xs, ps, ys, qs, k - 1);
      PartOrder(xs[k - 1], ps[k - 1], ys[k - 1], qs[k - 1]);
      assert xs[..k] == xs[..k - 1] + [xs[k - 1]] && ys[..k] == ys[..k - 1] + [ys[k - 1]];
      assert ps[..k] == ps[..k - 1] + [ps[k - 1]] && qs[..k] == qs[..k - 1] + [qs[k - 1]];
    }
  }

  /** The numbers, identifiers and release of a version come from its text. */
  ghost predicate Reads(r: Version, v: Spelling) {
    && |v.core| == 3 && Written(r.major) == v.core[0] && Written(r.minor) == v.core[1] && Written(r.patch) == v.core[2]
    && (r.prerelease.Some? <==> v.prerelease.Some?)
    && (v.prerelease.Some? ==>
          && |r.prerelease.value| == |v.prerelease.value|
          && forall i | 0 <= i < |v.prerelease.value| :: ReadAs(r.prerelease.value[i], v.prerelease.value[i]))
  }

  lemma {:induction false} ReadsOrder(r: Version, v: Spelling, q: Version, w: Spelling)
    requires Reads(r, v) && Reads(q, w)
    ensures Below(r, q) <==> SpellingBelow(v, w)
  {
    WrittenOrder(r.major, q.major);
    WrittenOrder(r.minor, q.minor);
    WrittenOrder(r.patch, q.patch);
    assert v.core == w.core <==> v.core[0] == w.core[0] && v.core[1] == w.core[1] && v.core[2] == w.core[2];
    if v.prerelease.Some? && w.prerelease.Some? {
      PartsOrder(r.prerelease.value, v.prerelease.value, q.prerelease.value, w.prerelease.value);
    }
  }

  lemma {:induction false} AcceptedReads(s: string)
    requires Parse(s).Some?
    ensures Reads(Parse(s).value, SpellingOf(s))
  {
    AcceptedVersions(s);
    var w :| Grammatical(w) && Spelled(w) == s;
    SpellingUnique(w);
    ReadsParts(w);
  }

  /** Comparing what two accepted texts are read as is comparing the texts. */
  lemma {:induction false} TextOrder(s: string, t: string)
    requires Parse(s).Some? && Parse(t).Some?
    ensures Below(Parse(s).value, Parse(t).value) <==> TextBelow(s, t)
    ensures Parse(s).value.prerelease.Some? <==> SpellingOf(s).prerelease.Some?
  {
    AcceptedReads(s);
    AcceptedReads(t);
    ReadsOrder(Parse(s).value, SpellingOf(s), Parse(t).value, SpellingOf(t));
  }
}

/** The prompt registry (agent/app/prompts/registry.py). */
module PromptRegistry {
  import opened Outcomes
  import opened Sorting
  import opened SemVer

  type PromptId = nat

  /** `parsed` is what the version text was read as. */
  datatype Bundle = Bundle(id: PromptId, profile: string, version: string, parsed: Version, content: string)

  /** A bundle that passed its own validation. */
  type ValidBundle = b: Bundle | Parse(b.version) == Some(b.parsed) witness Smallest()

  function Smallest(): (b: Bundle)
    ensures Parse(b.version) == Some(b.parsed)
  {
    var v := Spelling(["0", "0", "0"], None, None);
    ReleaseIsAccepted(v);
    Bundle(0, "", Spelled(v), Parse(Spelled(v)).value, "")
  }

  /** How version texts are read: Parse, in what Build makes. */
  type Reader = string -> Option<Version>

  predicate ReadBy(read: Reader, b: Bundle) {
    read(b.version) == Some(b.parsed)
  }

  datatype Slot = Slot(profile: string, version: string)

  datatype Error = DuplicateVersion | DuplicateId | ProfileNotFound | VersionNotFound

  function SlotOf(b: Bundle): Slot {
    Slot(b.profile, b.version)
  }

  predicate SameSlot(a: Bundle, b: Bundle) {
    SlotOf(a) == SlotOf(b)
  }

  /** Registering the bundle after the earlier ones is refused for this reason. */
  function Refusal(earlier: seq<Bundle>, b: Bundle): Option<Error> {
    if exists i | 0 <= i < |earlier| :: SameSlot(earlier[i], b) then Some(DuplicateVersion)
    else if exists i | 0 <= i < |earlier| :: earlier[i].id == b.id then Some(DuplicateId)
    else None
  }

  function FirstRefusal(bundles: seq<Bundle>): Option<Error> {
    if bundles == [] then None
    else
      var before := FirstRefusal(bundles[..|bundles| - 1]);
      if before.Some? then before else Refusal(bundles[..|bundles| - 1], bundles[|bundles| - 1])
  }

  lemma {:induction false} RefusalStays(bundles: seq<Bundle>, n: nat)
    requires n <= |bundles| && FirstRefusal(bundles[..n]).Some?
    ensures FirstRefusal(bundles) == FirstRefusal(bundles[..n])
    decreases |bundles|
  {
    if n == |bundles| {
      assert bundles[..n] == bundles;
    } else {
      var front := bundles[..|bundles| - 1];
      assert front[..n] == bundles[..n];
      RefusalStays(front, n);
    }
  }

  /** Nothing is refused exactly when slots and identifiers are all distinct. */
  lemma {:induction false} NoRefusalExactly(bundles: seq<Bundle>)
    ensures FirstRefusal(bundles).None? <==>
      forall i, j | 0 <= i < j < |bundles| :: !SameSlot(bundles[i], bundles[j]) && bundles[i].id != bundles[j].id
  {
    if bundles != [] {
      var front, last := bundles[..|bundles| - 1], bundles[|bundles| - 1];
      NoRefusalExactly(front);
      if FirstRefusal(front).None? && Refusal(front, last).Some? {
        if i :| 0 <= i < |front| && SameSlot(front[i], last) {
          assert SameSlot(bundles[i], bundles[|bundles| - 1]);
        } else {
          var i :| 0 <= i < |front| && front[i].id == last.id;
          assert bundles[i].id == bundles[|bundles| - 1].id;
        }
      }
    }
  }

  predicate InProfile(profile: string, b: Bundle) {
    b.profile == profile
  }

  function Of(profile: string): Bundle -> bool {
    (b: Bundle) => InProfile(profile, b)
  }

  predicate IsStable(b: Bundle) {
    b.parsed.prerelease.None?
  }

  ghost predicate LowerThan(a: Bundle, b: Bundle) {
    Below(a.parsed, b.parsed)
  }

  ghost predicate Used(bundles: seq<Bundle>, profile: string) {
    exists i :: 0 <= i < |bundles| && bundles[i].profile == profile
  }

  lemma {:induction false} OneMore(bundles: seq<Bundle>, b: Bundle, profile: string)
    ensures Filter(Of(profile), bundles + [b]) == Filter(Of(profile), bundles) + if b.profile == profile then [b] else []
    ensures Used(bundles + [b], profile) <==> Used(bundles, profile) || b.profile == profile
  {
    FilterSplit(Of(profile), bundles, [b]);
    var more := bundles + [b];
    assert more[|bundles|] == b && forall i | 0 <= i < |bundles| :: more[i] == bundles[i];
  }

  lemma {:induction false} UnusedIsEmpty(bundles: seq<Bundle>, profile: string)
    ensures Filter(Of(profile), bundles) == [] <==> !Used(bundles, profile)
  {
    var kept := Filter(Of(profile), bundles);
    if kept != [] {
      assert kept[0] in kept;
      var i :| 0 <= i < |bundles| && bundles[i] == kept[0];
    }
    if Used(bundles, profile) {
      var i :| 0 <= i < |bundles| && bundles[i].profile == profile;
      assert bundles[i] in kept;
    }
  }

  class Registry {
    const read: Reader
    var entries: map<string, seq<Bundle>>
    ghost var all: seq<Bundle>

    /** Every profile lists its bundles in the order they were given; unused profiles are
        not listed. */
    ghost predicate Consistent()
      reads this
    {
      && (forall b | b in all :: ReadBy(read, b))
      && (forall p | p in entries :: entries[p] == Filter(Of(p), all))
      && (forall p :: p in entries <==> Used(all, p))
    }

    constructor (read: Reader)
      ensures Consistent() && all == [] && this.read == read
    {
      this.read, entries, all := read, map[], [];
    }

    /** Fill the registry, or report the first bundle that is refused. */
    method Load(bundles: seq<Bundle>) returns (error: Option<Error>)
      requires Consistent() && all == [] && forall b | b in bundles :: ReadBy(read, b)
      modifies this
      ensures Consistent() && error == FirstRefusal(bundles)
      ensures error.None? ==> all == bundles
    {
      var ids: map<PromptId, Slot> := map[];
      for n := 0 to |bundles|
        invariant Consistent() && all == bundles[..n] && FirstRefusal(bundles[..n]).None?
        invariant ids == IdSlots(bundles[..n])
      {
        var b := bundles[n];
        PrefixStep(bundles, n);
        var versions := if b.profile in entries then entries[b.profile] else [];
        UnusedIsEmpty(all, b.profile);
        var refusal := Examine(all, versions, ids, b);
        if refusal.Some? {
          RefusalStays(bundles, n + 1);
          return refusal;
        }
        Register(b, versions);
        ids := ids[b.id := SlotOf(b)];
      }
      assert bundles[..|bundles|] == bundles;
      return None;
    }

    method Register(b: Bundle, versions: seq<Bundle>)
      requires Consistent() && versions == Filter(Of(b.profile), all) && ReadBy(read, b)
      modifies this
      ensures Consistent() && all == old(all) + [b]
    {
      entries := entries[b.profile := versions + [b]];
      all := all + [b];
      forall p ensures (p in entries <==> Used(all, p)) && (p in entries ==> entries[p] == Filter(Of(p), all)) {
        OneMore(old(all), b, p);
      }
    }

    /** By version, or the first of the highest precedence among the stable versions, or
        among all of them when none is stable. */
    method GetPrompt(profile: string, version: Option<string>) returns (r: Result<Bundle, Error>)
      requires Consistent()
      ensures r.Err? && r.error == ProfileNotFound <==> forall b | b in all :: b.profile != profile
      ensures r.Ok? ==> r.value in all && r.value.profile == profile && ReadBy(read, r.value)
      ensures r.Ok? && version.Some? ==> r.value.version == version.value
      ensures r.Err? ==> r.error == ProfileNotFound || (version.Some? && r.error == VersionNotFound
                                                        && forall b | b in all && b.profile == profile :: b.version != version.value)
      ensures r.Ok? && version.None? ==> FirstOfHighest(Filter(Of(profile), all), r.value)
      ensures r.Ok? && version.None? ==> forall b | b in all && b.profile == profile :: IsStable(b) ==> IsStable(r.value)
    {
      if profile !in entries {
        forall b | b in all ensures b.profile != profile {
          var i :| 0 <= i < |all| && all[i] == b;
        }
        return Err(ProfileNotFound);
      }
      var versions := entries[profile];
      assert versions == Filter(Of(profile), all);
      assert forall b :: b in versions <==> b in all && b.profile == profile;
      ghost var i: nat :| i < |all| && all[i].profile == profile;
      assert all[i] in versions;
      if version.Some? {
        r := FindVersion(versions, version.value);
        return;
      }
      var latest := Newest(versions);
      return Ok(latest);
    }
  }

  /** The registry of validated bundles. */
  method Build(bundles: seq<ValidBundle>) returns (r: Result<Registry, Error>)
    ensures r.Ok? ==> r.value.Consistent() && r.value.all == bundles && r.value.read == Parse
    ensures FirstRefusal(bundles) == if r.Ok? then None else Some(r.error)
  {
    var registry := new Registry(Parse);
    var error := registry.Load(bundles);
    return if error.Some? then Err(error.value) else Ok(registry);
  }

  /** What GetPrompt promises about its result. */
  ghost predicate Served(all: seq<Bundle>, profile: string, version: Option<string>, r: Result<Bundle, Error>) {
    && (r.Ok? <==> exists b :: b in all && b.profile == profile && (version.Some? ==> b.version == version.value))
    && (r.Ok? ==> r.value in all && r.value.profile == profile && (version.Some? ==> r.value.version == version.value))
    && (r.Ok? && version.None? ==>
          && FirstOfHighest(Filter(Of(profile), all), r.value)
          && forall b | b in all && b.profile == profile :: IsStable(b) ==> IsStable(r.value))
  }

  /** By the texts of their versions: no bundle of the profile is above the latest one, which is
      stable if any of them is. */
  ghost predicate HighestText(all: seq<Bundle>, profile: string, latest: Bundle) {
    forall b | b in all && b.profile == profile ::
      && (SpellingOf(latest.version).prerelease.Some? ==> SpellingOf(b.version).prerelease.Some?)
      && (SpellingOf(latest.version).prerelease.Some? == SpellingOf(b.version).prerelease.Some? ==>
            !TextBelow(latest.version, b.version))
  }

  /** What a registry of validated bundles answers, in terms of the texts of the versions. */
  method Answer(registry: Registry, profile: string, version: Option<string>) returns (r: Result<Bundle, Error>)
    requires registry.Consistent() && registry.read == Parse
    ensures Served(registry.all, profile, version, r)
    ensures r.Ok? && version.None? ==> HighestText(registry.all, profile, r.value)
  {
    r := registry.GetPrompt(profile, version);
    if r.Ok? && version.None? {
      HighestByText(registry.read, registry.all, profile, r.value);
    }
  }

  lemma {:induction false} HighestByText(read: Reader, all: seq<Bundle>, profile: string, latest: Bundle)
    requires read == Parse && (forall b | b in all :: ReadBy(read, b))
    requires FirstOfHighest(Filter(Of(profile), all), latest) && latest in all
    requires forall b | b in all && b.profile == profile :: IsStable(b) ==> IsStable(latest)
    ensures HighestText(all, profile, latest)
  {
    var versions := Filter(Of(profile), all);
    forall b | b in all && b.profile == profile
      ensures SpellingOf(latest.version).prerelease.Some? ==> SpellingOf(b.version).prerelease.Some?
      ensures SpellingOf(latest.version).prerelease.Some? == SpellingOf(b.version).prerelease.Some? ==>
                !TextBelow(latest.version, b.version)
    {
      assert b in versions;
      var k :| 0 <= k < |versions| && versions[k] == b;
      OneByText(read, latest, b);
    }
  }

  lemma {:induction false} OneByText(read: Reader, a: Bundle, b: Bundle)
    requires read == Parse && ReadBy(read, a) && ReadBy(read, b)
    ensures LowerThan(a, b) <==> TextBelow(a.version, b.version)
    ensures IsStable(a) <==> SpellingOf(a.version).prerelease.None?
    ensures IsStable(b) <==> SpellingOf(b.version).prerelease.None?
  {
    TextOrder(a.version, b.version);
    TextOrder(b.version, a.version);
  }

  lemma {:induction false} SlotTaken(all: seq<Bundle>, versions: seq<Bundle>, b: Bundle)
    requires versions == Filter(Of(b.profile), all)
    ensures (exists i | 0 <= i < |versions| :: versions[i].version == b.version) <==> exists i | 0 <= i < |all| :: SameSlot(all[i], b)
  {
    if i :| 0 <= i < |versions| && versions[i].version == b.version {
      assert versions[i] in versions;
      var j :| 0 <= j < |all| && all[j] == versions[i];
      assert SameSlot(all[j], b);
    }
    if i :| 0 <= i < |all| && SameSlot(all[i], b) {
      assert all[i] in versions;
      var j :| 0 <= j < |versions| && versions[j] == all[i];
    }
  }

  /** The identifiers taken so far, with the slot that took each. */
  function IdSlots(earlier: seq<Bundle>): map<PromptId, Slot> {
    if earlier == [] then map[]
    else IdSlots(earlier[..|earlier| - 1])[earlier[|earlier| - 1].id := SlotOf(earlier[|earlier| - 1])]
  }

  lemma {:induction false} IdTaken(earlier: seq<Bundle>, id: PromptId)
    ensures id in IdSlots(earlier) <==> exists i :: 0 <= i < |earlier| && earlier[i].id == id
    ensures id in IdSlots(earlier) ==> exists i :: 0 <= i < |earlier| && SlotOf(earlier[i]) == IdSlots(earlier)[id]
  {
    if earlier != [] {
      var front := earlier[..|earlier| - 1];
      IdTaken(front, id);
      assert earlier[|earlier| - 1].id == id ==> SlotOf(earlier[|earlier| - 1]) == IdSlots(earlier)[id];
      assert forall i | 0 <= i < |front| :: front[i] == earlier[i];
    }
  }

  lemma PrefixStep(bundles: seq<Bundle>, n: nat)
    requires n < |bundles|
    ensures bundles[..n + 1] == bundles[..n] + [bundles[n]]
    ensures FirstRefusal(bundles[..n]).None? ==> FirstRefusal(bundles[..n + 1]) == Refusal(bundles[..n], bundles[n])
    ensures IdSlots(bundles[..n + 1]) == IdSlots(bundles[..n])[bundles[n].id := SlotOf(bundles[n])]
  {
    assert bundles[..n + 1][..n] == bundles[..n];
  }

  /** The two checks before a bundle is registered. */
  method Examine(ghost earlier: seq<Bundle>, versions: seq<Bundle>, ids: map<PromptId, Slot>, b: Bundle)
    returns (refusal: Option<Error>)
    requires versions == Filter(Of(b.profile), earlier) && ids == IdSlots(earlier)
    ensures refusal == Refusal(earlier, b)
  {
    SlotTaken(earlier, versions, b);
    IdTaken(earlier, b.id);
    if exists i | 0 <= i < |versions| :: versions[i].version == b.version {
      return Some(DuplicateVersion);
    }
    if b.id in ids && ids[b.id] != SlotOf(b) {
      return Some(DuplicateId);
    }
    return None;
  }

  /** The bundle is of the kind wanted, none of that kind is above it, and all of that kind
      before it are below it. */
  ghost predicate FirstOfHighest(versions: seq<Bundle>, b: Bundle) {
    exists i :: 0 <= i < |versions| && versions[i] == b
      && (forall k | 0 <= k < |versions| && IsStable(versions[k]) == IsStable(b) :: !LowerThan(b, versions[k]))
      && (forall k | 0 <= k < i && IsStable(versions[k]) == IsStable(b) :: LowerThan(versions[k], b))
  }

  /** Where an element that passes stands in the unfiltered list. */
  lemma {:induction false} FilterAt(p: Bundle -> bool, s: seq<Bundle>, at: nat) returns (i: nat)
    requires at < |Filter(p, s)|
    ensures i < |s| && s[i] == Filter(p, s)[at] && Filter(p, s[..i]) == Filter(p, s)[..at]
  {
    var rest := s[1..];
    if p(s[0]) && at == 0 {
      i := 0;
    } else {
      var j := FilterAt(p, rest, if p(s[0]) then at - 1 else at);
      i := j + 1;
      assert s[..i][1..] == rest[..j] && s[..i][0] == s[0];
    }
  }

  /** The latest stable version, or the latest of all when none is stable. */
  method Newest(versions: seq<Bundle>) returns (latest: Bundle)
    requires versions != []
    ensures FirstOfHighest(versions, latest)
    ensures forall b | b in versions :: IsStable(b) ==> IsStable(latest)
  {
    var stable := Stable(versions);
    ghost var at: nat;
    if stable != [] {
      latest, at := Latest(stable);
      StableIsFirst(versions, stable, latest, at);
    } else {
      latest, at := Latest(versions);
      assert forall k | 0 <= k < |versions| :: versions[k] in versions && !IsStable(versions[k]);
    }
  }

  lemma {:induction false} StableIsFirst(versions: seq<Bundle>, stable: seq<Bundle>, latest: Bundle, at: nat)
    requires stable == Filter(IsStable, versions) && at < |stable| && stable[at] == latest
    requires forall b | b in stable :: !LowerThan(latest, b)
    requires forall k | 0 <= k < at :: LowerThan(stable[k], latest)
    ensures FirstOfHighest(versions, latest) && IsStable(latest)
  {
    var i := FilterAt(IsStable, versions, at);
    assert latest in stable;
    forall k | 0 <= k < |versions| && IsStable(versions[k]) ensures !LowerThan(latest, versions[k]) {
      assert versions[k] in stable;
    }
    forall k | 0 <= k < i && IsStable(versions[k]) ensures LowerThan(versions[k], latest) {
      assert versions[k] == versions[..i][k] && versions[k] in versions[..i];
      assert versions[k] in Filter(IsStable, versions[..i]);
      var l :| 0 <= l < at && stable[..at][l] == versions[k];
      assert stable[l] == versions[k];
    }
  }

  method FindVersion(versions: seq<Bundle>, version: string) returns (r: Result<Bundle, Error>)
    ensures r.Ok? ==> r.value in versions && r.value.version == version
    ensures r.Err? ==> r.error == VersionNotFound && forall b | b in versions :: b.version != version
  {
    for i := 0 to |versions|
      invariant forall k | 0 <= k < i :: versions[k].version != version
    {
      if versions[i].version == version {
        return Ok(versions[i]);
      }
    }
    return Err(VersionNotFound);
  }

  lemma {:induction false} StableStep(versions: seq<Bundle>, i: nat)
    requires i < |versions|
    ensures Filter(IsStable, versions[..i + 1]) ==
            Filter(IsStable, versions[..i]) + if IsStable(versions[i]) then [versions[i]] else []
  {
    assert versions[..i + 1] == versions[..i] + [versions[i]];
    FilterSplit(IsStable, versions[..i], [versions[i]]);
    assert [versions[i]][1..] == [];
  }

  method Stable(versions: seq<Bundle>) returns (stable: seq<Bundle>)
    ensures stable == Filter(IsStable, versions)
  {
    stable := [];
    for i := 0 to |versions|
      invariant stable == Filter(IsStable, versions[..i])
    {
      StableStep(versions, i);
      if IsStable(versions[i]) {
        stable := stable + [versions[i]];
      }
    }
    assert versions[..|versions|] == versions;
  }

  /** The maximum by key, the first of several: no element is above it, and every earlier
      one is below it. */
  method Latest(versions: seq<Bundle>) returns (latest: Bundle, ghost at: nat)
    requires versions != []
    ensures at < |versions| && versions[at] == latest
    ensures forall b | b in versions :: !LowerThan(latest, b)
    ensures forall k | 0 <= k < at :: LowerThan(versions[k], latest)
  {
    assert versions[0] in versions;
    latest, at := versions[0], 0;
    PrecedenceIsOrder(latest.parsed, latest.parsed, latest.parsed);
    for i := 1 to |versions|
      invariant at < i && versions[at] == latest
      invariant forall k | 0 <= k < i :: !LowerThan(latest, versions[k])
      invariant forall k | 0 <= k < at :: LowerThan(versions[k], latest)
    {
      assert versions[i] in versions;
      var best, next := latest.parsed, versions[i].parsed;
      KeyOrderIsPrecedence(best, next);
      if KeyLess(KeyOf(best), KeyOf(next)).value {
        forall k | 0 <= k < i ensures LowerThan(versions[k], versions[i]) && !LowerThan(versions[i], versions[k]) {
          BelowRaised(versions[k].parsed, best, next);
        }
        PrecedenceIsOrder(next, next, next);
        latest, at := versions[i], i;
      }
    }
  }

  /** What is not above the old maximum is below the new one. */
  lemma {:induction false} BelowRaised(x: Version, best: Version, next: Version)
    requires !Below(best, x) && Below(best, next)
    ensures Below(x, next) && !Below(next, x)
  {
    PrecedenceIsOrder(x, best, next);
    PrecedenceIsOrder(x, next, x);
  }
}
