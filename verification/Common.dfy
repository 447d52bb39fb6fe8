/** Shared vocabulary: optional values, outcomes, text helpers, and sorting by a
    total preorder. The text helpers follow Go's strings package on the inputs the
    control plane gives them. */
module Outcomes {
  datatype Option<+T> = None | Some(value: T)

  datatype Result<+T, +E> = Ok(value: T) | Err(error: E)
}

module Texts {
  /** White space as unicode.IsSpace defines it. */
  predicate IsSpace(c: char) {
    || '\t' <= c <= '\r' || c == ' ' || c == '\U{85}' || c == '\U{A0}' || c == '\U{1680}'
    || '\U{2000}' <= c <= '\U{200A}' || '\U{2028}' <= c <= '\U{2029}'
    || c == '\U{202F}' || c == '\U{205F}' || c == '\U{3000}'
  }

  function TrimLeft(s: string): string {
    if s != [] && IsSpace(s[0]) then TrimLeft(s[1..]) else s
  }

  function TrimRight(s: string): string {
    if s != [] && IsSpace(s[|s| - 1]) then TrimRight(s[..|s| - 1]) else s
  }

  /** strings.TrimSpace. */
  function Trim(s: string): string {
    TrimRight(TrimLeft(s))
  }

  lemma TrimLeftEnds(s: string)
    ensures var r := TrimLeft(s); (r == [] || !IsSpace(r[0])) && |r| <= |s| && r == s[|s| - |r|..]
  {
  }

  lemma TrimRightEnds(s: string)
    ensures var r := TrimRight(s); (r == [] || !IsSpace(r[|r| - 1])) && r <= s
  {
  }

  /** What is left neither starts nor ends with white space. */
  lemma {:induction false} TrimEnds(s: string)
    ensures var r := Trim(s); r == [] || (!IsSpace(r[0]) && !IsSpace(r[|r| - 1]))
  {
    TrimLeftEnds(s);
    TrimRightEnds(TrimLeft(s));
  }

  lemma {:induction false} TrimLeftIsRest(s: string) returns (i: nat)
    ensures i <= |s| && TrimLeft(s) == s[i..] && forall k | 0 <= k < i :: IsSpace(s[k])
  {
    if s == [] || !IsSpace(s[0]) {
      i := 0;
    } else {
      var j := TrimLeftIsRest(s[1..]);
      i := j + 1;
      forall k | 0 <= k < i ensures IsSpace(s[k]) {
        assert k > 0 ==> s[k] == s[1..][k - 1];
      }
    }
  }

  lemma {:induction false} TrimRightIsFront(s: string) returns (j: nat)
    ensures j <= |s| && TrimRight(s) == s[..j] && forall k | j <= k < |s| :: IsSpace(s[k])
  {
    if s == [] || !IsSpace(s[|s| - 1]) {
      j := |s|;
    } else {
      j := TrimRightIsFront(s[..|s| - 1]);
    }
  }

  /** Only white space is taken away, at the two ends. */
  lemma {:induction false} TrimIsMiddle(s: string) returns (i: nat, j: nat)
    ensures i <= j <= |s| && Trim(s) == s[i..j]
    ensures forall k | 0 <= k < i || j <= k < |s| :: IsSpace(s[k])
  {
    i := TrimLeftIsRest(s);
    var n := TrimRightIsFront(s[i..]);
    j := i + n;
    forall k | j <= k < |s| ensures IsSpace(s[k]) {
      assert s[k] == s[i..][k - i];
    }
  }

  /** ASCII case mapping; other characters are left alone. */
  function LowerChar(c: char): char {
    if 'A' <= c <= 'Z' then c - 'A' + 'a' else c
  }

  function UpperChar(c: char): char {
    if 'a' <= c <= 'z' then c - 'a' + 'A' else c
  }

  function Lower(s: string): string {
    seq(|s|, i requires 0 <= i < |s| => LowerChar(s[i]))
  }

  function Upper(s: string): string {
    seq(|s|, i requires 0 <= i < |s| => UpperChar(s[i]))
  }

  lemma TrimFixed(s: string)
    requires s == [] || (!IsSpace(s[0]) && !IsSpace(s[|s| - 1]))
    ensures Trim(s) == s
  {
  }

  lemma CaseOfFixed(s: string)
    ensures Lower(Lower(s)) == Lower(s) && Upper(Upper(s)) == Upper(s)
    ensures s == [] || IsSpace(s[0]) || (!IsSpace(Lower(s)[0]) && !IsSpace(Upper(s)[0]))
    ensures s == [] || IsSpace(s[|s| - 1]) || (!IsSpace(Lower(s)[|s| - 1]) && !IsSpace(Upper(s)[|s| - 1]))
  {
    assert forall c: char :: LowerChar(LowerChar(c)) == LowerChar(c) && UpperChar(UpperChar(c)) == UpperChar(c);
  }

  /** Canonical spelling of a token: trimmed, in one case. Doing it twice changes nothing. */
  lemma {:induction false} CanonicalCaseFixed(s: string)
    ensures Lower(Trim(Lower(Trim(s)))) == Lower(Trim(s))
    ensures Upper(Trim(Upper(Trim(s)))) == Upper(Trim(s))
    ensures Trim(Trim(s)) == Trim(s)
  {
    var t := Trim(s);
    TrimEnds(s);
    CaseOfFixed(t);
    TrimFixed(t);
    TrimFixed(Lower(t));
    TrimFixed(Upper(t));
  }

  /** Lexicographic order by code point, as Go compares strings. */
  predicate AtMost(a: string, b: string) {
    a == [] || (b != [] && (a[0] < b[0] || (a[0] == b[0] && AtMost(a[1..], b[1..]))))
  }

  lemma AtMostReflexive(a: string)
    ensures AtMost(a, a)
  {
  }

  lemma AtMostTransitive(a: string, b: string, c: string)
    requires AtMost(a, b) && AtMost(b, c)
    ensures AtMost(a, c)
  {
  }

  lemma AtMostTotal(a: string, b: string)
    ensures AtMost(a, b) || AtMost(b, a)
  {
  }

  lemma AtMostAntisymmetric(a: string, b: string)
    requires AtMost(a, b) && AtMost(b, a)
    ensures a == b
  {
    if a != [] {
      AtMostAntisymmetric(a[1..], b[1..]);
      assert a == [a[0]] + a[1..] && b == [b[0]] + b[1..];
    }
  }

  lemma AtMostIsOrder()
    ensures Sorting.TotalPreorder(AtMost)
  {
    forall a, b, c | AtMost(a, b) && AtMost(b, c) ensures AtMost(a, c) {
      AtMostTransitive(a, b, c);
    }
    forall a, b ensures AtMost(a, b) || AtMost(b, a) {
      AtMostTotal(a, b);
    }
  }

  predicate HasPrefix(s: string, prefix: string) {
    prefix <= s
  }

  predicate HasSuffix(s: string, suffix: string) {
    |suffix| <= |s| && s[|s| - |suffix|..] == suffix
  }

  predicate Contains(s: string, part: string) {
    exists i | 0 <= i <= |s| :: part <= s[i..]
  }

  /** strings.Join. */
  function Join(parts: seq<string>, separator: string): string {
    if parts == [] then ""
    else if |parts| == 1 then parts[0]
    else parts[0] + separator + Join(parts[1..], separator)
  }

  /** Splitting at one character. */
  function Split(s: string, separator: char): (parts: seq<string>)
    ensures |parts| >= 1
  {
    if s == [] then [""]
    else
      var rest := Split(s[1..], separator);
      if s[0] == separator then [""] + rest else [[s[0]] + rest[0]] + rest[1..]
  }

  lemma JoinHead(head: string, parts: seq<string>, separator: string)
    requires parts != []
    ensures Join([head] + parts, separator) == head + separator + Join(parts, separator)
  {
    assert ([head] + parts)[1..] == parts;
  }

  /** Joining what was split gives the text back. */
  lemma {:induction false} SplitBack(s: string, mark: char)
    ensures Join(Split(s, mark), [mark]) == s
  {
    if s != "" {
      var rest := Split(s[1..], mark);
      SplitBack(s[1..], mark);
      assert s == [s[0]] + s[1..];
      if s[0] == mark {
        JoinHead("", rest, [mark]);
      } else if |rest| == 1 {
        assert Split(s, mark) == [[s[0]] + rest[0]];
      } else {
        assert rest == [rest[0]] + rest[1..];
        JoinHead(rest[0], rest[1..], [mark]);
        JoinHead([s[0]] + rest[0], rest[1..], [mark]);
      }
    }
  }

  lemma {:induction false} SplitParts(s: string, mark: char)
    ensures forall i | 0 <= i < |Split(s, mark)| :: mark !in Split(s, mark)[i]
  {
    if s != "" {
      SplitParts(s[1..], mark);
    }
  }

  lemma {:induction false} SplitGlued(a: string, mark: char, s: string)
    requires mark !in a
    ensures Split(a + [mark] + s, mark) == [a] + Split(s, mark)
  {
    var t := a + [mark] + s;
    if a == "" {
      assert t[1..] == s;
    } else {
      assert t[1..] == a[1..] + [mark] + s && t[0] == a[0];
      SplitGlued(a[1..], mark, s);
      assert a == [a[0]] + a[1..];
    }
  }

  lemma {:induction false} SplitWhole(s: string, mark: char)
    requires mark !in s
    ensures Split(s, mark) == [s]
  {
    if s != "" {
      SplitWhole(s[1..], mark);
      assert s == [s[0]] + s[1..];
    }
  }

  /** Splitting what was joined gives the parts back. */
  lemma {:induction false} SplitJoined(parts: seq<string>, mark: char)
    requires parts != [] && forall i | 0 <= i < |parts| :: mark !in parts[i]
    ensures Split(Join(parts, [mark]), mark) == parts
  {
    if |parts| == 1 {
      SplitWhole(parts[0], mark);
    } else {
      SplitJoined(parts[1..], mark);
      SplitGlued(parts[0], mark, Join(parts[1..], [mark]));
      assert parts == [parts[0]] + parts[1..];
    }
  }

  function Glued(head: string, mark: char, rest: string): string {
    head + [mark] + rest
  }

  lemma GluedParts(a: string, mark: char, x: string)
    ensures var g := Glued(a, mark, x); |g| == |a| + 1 + |x| && g[..|a|] == a && g[|a|] == mark && g[|a| + 1..] == x
    ensures forall i | 0 <= i < |a| :: Glued(a, mark, x)[i] == a[i]
    ensures forall i | 0 <= i < |x| :: Glued(a, mark, x)[|a| + 1 + i] == x[i]
  {
  }

  /** A first part without the mark can be told from the rest. */
  lemma {:induction false} CutHead(mark: char, a: string, x: string, b: string, y: string)
    requires mark !in a && mark !in b && Glued(a, mark, x) == Glued(b, mark, y)
    ensures a == b && x == y
  {
    GluedParts(a, mark, x);
    GluedParts(b, mark, y);
  }

  /** So can a last part without the mark. */
  lemma {:induction false} CutTail(mark: char, a: string, x: string, b: string, y: string)
    requires mark !in x && mark !in y && Glued(a, mark, x) == Glued(b, mark, y)
    ensures a == b && x == y
  {
    GluedParts(a, mark, x);
    GluedParts(b, mark, y);
    var g := Glued(a, mark, x);
    forall i | |a| < i < |g| ensures g[i] != mark {
      assert g[|a| + 1 + (i - |a| - 1)] == x[i - |a| - 1];
    }
    forall i | |b| < i < |g| ensures g[i] != mark {
      assert Glued(b, mark, y)[|b| + 1 + (i - |b| - 1)] == y[i - |b| - 1];
    }
  }

  import Sorting
}

module Sorting {
  ghost predicate TotalPreorder<T(!new)>(le: (T, T) -> bool) {
    && (forall a, b :: le(a, b) || le(b, a))
    && (forall a, b, c :: le(a, b) && le(b, c) ==> le(a, c))
  }

  ghost predicate SortedBy<T>(le: (T, T) -> bool, s: seq<T>) {
    forall i, j | 0 <= i < j < |s| :: le(s[i], s[j])
  }

  ghost predicate NoDuplicates<T(!new)>(s: seq<T>) {
    forall i, j | 0 <= i < j < |s| :: s[i] != s[j]
  }

  /** Insertion after every element that is not larger: the stable choice. */
  function Insert<T>(le: (T, T) -> bool, x: T, s: seq<T>): seq<T> {
    if s == [] then [x]
    else if le(s[|s| - 1], x) then s + [x]
    else Insert(le, x, s[..|s| - 1]) + [s[|s| - 1]]
  }

  /** What sort.SliceStable leaves behind. */
  function Sort<T>(le: (T, T) -> bool, s: seq<T>): seq<T> {
    if s == [] then [] else Insert(le, s[|s| - 1], Sort(le, s[..|s| - 1]))
  }

  lemma {:induction false} InsertPermutes<T>(le: (T, T) -> bool, x: T, s: seq<T>)
    ensures multiset(Insert(le, x, s)) == multiset(s) + multiset{x}
  {
    if s != [] && !le(s[|s| - 1], x) {
      InsertPermutes(le, x, s[..|s| - 1]);
      assert s == s[..|s| - 1] + [s[|s| - 1]];
    }
  }

  lemma {:induction false} SortPermutes<T>(le: (T, T) -> bool, s: seq<T>)
    ensures multiset(Sort(le, s)) == multiset(s)
    ensures |Sort(le, s)| == |s|
    ensures forall x :: x in Sort(le, s) <==> x in s
  {
    if s != [] {
      SortPermutes(le, s[..|s| - 1]);
      InsertPermutes(le, s[|s| - 1], Sort(le, s[..|s| - 1]));
      assert s == s[..|s| - 1] + [s[|s| - 1]];
    }
    assert |multiset(Sort(le, s))| == |multiset(s)|;
    assert forall x :: x in Sort(le, s) <==> x in multiset(Sort(le, s));
    assert forall x :: x in s <==> x in multiset(s);
  }

  lemma {:induction false} InsertSorts<T(!new)>(le: (T, T) -> bool, x: T, s: seq<T>)
    requires TotalPreorder(le) && SortedBy(le, s)
    ensures SortedBy(le, Insert(le, x, s))
  {
    if s != [] && !le(s[|s| - 1], x) {
      var front, last := s[..|s| - 1], s[|s| - 1];
      InsertSorts(le, x, front);
      InsertPermutes(le, x, front);
      var r := Insert(le, x, front);
      forall y | y in r ensures le(y, last) {
        assert y in multiset(r);
        assert y in multiset(front) || y == x;
      }
    } else if s != [] {
      var last := s[|s| - 1];
      forall i | 0 <= i < |s| ensures le(s[i], x) {
        assert le(s[i], last);
      }
    }
  }

  lemma {:induction false} SortSorts<T(!new)>(le: (T, T) -> bool, s: seq<T>)
    requires TotalPreorder(le)
    ensures SortedBy(le, Sort(le, s))
  {
    if s != [] {
      SortSorts(le, s[..|s| - 1]);
      InsertSorts(le, s[|s| - 1], Sort(le, s[..|s| - 1]));
    }
  }

  /** A sorted sequence is left alone. */
  lemma SortOfSorted<T(!new)>(le: (T, T) -> bool, s: seq<T>)
    requires SortedBy(le, s)
    ensures Sort(le, s) == s
  {
    if s != [] {
      SortOfSorted(le, s[..|s| - 1]);
      assert s == s[..|s| - 1] + [s[|s| - 1]];
    }
  }

  lemma {:induction false} SameHead<T(!new)>(le: (T, T) -> bool, a: seq<T>, b: seq<T>)
    requires SortedBy(le, a) && SortedBy(le, b) && multiset(a) == multiset(b) && a != [] && b != []
    requires forall x, y | x in a && y in a && le(x, y) && le(y, x) :: x == y
    ensures a[0] == b[0]
  {
    assert a[0] in multiset(b) && b[0] in multiset(a);
    var i :| 0 <= i < |b| && b[i] == a[0];
    var j :| 0 <= j < |a| && a[j] == b[0];
    assert i == 0 || le(b[0], b[i]);
    assert j == 0 || le(a[0], a[j]);
  }

  lemma {:induction false} TailMultiset<T>(s: seq<T>)
    requires s != []
    ensures multiset(s[1..]) == multiset(s) - multiset{s[0]}
  {
    assert s == [s[0]] + s[1..];
  }

  /** Two sorted arrangements of one multiset coincide when the order tells its
      elements apart. */
  lemma {:induction false} SortedUnique<T(!new)>(le: (T, T) -> bool, a: seq<T>, b: seq<T>)
    requires SortedBy(le, a) && SortedBy(le, b) && multiset(a) == multiset(b)
    requires forall x, y | x in a && y in a && le(x, y) && le(y, x) :: x == y
    ensures a == b
    decreases a
  {
    assert |multiset(a)| == |a| && |multiset(b)| == |b|;
    if a != [] {
      SameHead(le, a, b);
      TailMultiset(a);
      TailMultiset(b);
      SortedUnique(le, a[1..], b[1..]);
      assert a == [a[0]] + a[1..] && b == [b[0]] + b[1..];
    }
  }

  /** So sorting forgets the arrangement when the order tells the elements apart. */
  lemma {:induction false} SortOrderFree<T(!new)>(le: (T, T) -> bool, a: seq<T>, b: seq<T>)
    requires TotalPreorder(le) && multiset(a) == multiset(b)
    requires forall x, y | x in a && y in a && le(x, y) && le(y, x) :: x == y
    ensures Sort(le, a) == Sort(le, b)
  {
    SortSorts(le, a);
    SortSorts(le, b);
    SortPermutes(le, a);
    SortPermutes(le, b);
    SortedUnique(le, Sort(le, a), Sort(le, b));
  }

  function Map<T, U>(f: T -> U, s: seq<T>): (r: seq<U>)
    ensures |r| == |s| && forall i | 0 <= i < |s| :: r[i] == f(s[i])
  {
    if s == [] then [] else [f(s[0])] + Map(f, s[1..])
  }

  lemma MapSplit<T, U>(f: T -> U, a: seq<T>, b: seq<T>)
    ensures Map(f, a + b) == Map(f, a) + Map(f, b)
  {
  }

  /** Where the first element of one arrangement sits in another. */
  lemma {:induction false} Locate<T>(a: seq<T>, b: seq<T>) returns (left: seq<T>, right: seq<T>)
    requires a != [] && multiset(a) == multiset(b)
    ensures b == left + [a[0]] + right
    ensures multiset(a[1..]) == multiset(left + right)
    ensures a == [a[0]] + a[1..]
  {
    assert a == [a[0]] + a[1..];
    assert a[0] in multiset(b);
    var i :| 0 <= i < |b| && b[i] == a[0];
    left, right := b[..i], b[i + 1..];
    assert b == left + [a[0]] + right;
    assert multiset(b) == multiset(left) + multiset{a[0]} + multiset(right);
    assert multiset(a) == multiset{a[0]} + multiset(a[1..]);
    assert multiset(left + right) == multiset(b) - multiset{a[0]};
    assert multiset(a[1..]) == multiset(a) - multiset{a[0]};
  }

  /** Mapping commutes with rearrangement. */
  lemma {:induction false} MapMultiset<T, U>(f: T -> U, a: seq<T>, b: seq<T>)
    requires multiset(a) == multiset(b)
    ensures multiset(Map(f, a)) == multiset(Map(f, b))
    decreases |a|
  {
    if a == [] {
      assert |multiset(b)| == 0;
    } else {
      var left, right := Locate(a, b);
      MapMultiset(f, a[1..], left + right);
      MapSplit(f, left, right);
      MapSplit(f, left, [a[0]]);
      MapSplit(f, left + [a[0]], right);
      assert Map(f, [a[0]]) == [f(a[0])];
    }
  }

  function Filter<T(!new)>(p: T -> bool, s: seq<T>): (r: seq<T>)
    ensures |r| <= |s|
    ensures forall x :: x in r <==> x in s && p(x)
  {
    if s == [] then []
    else if p(s[0]) then [s[0]] + Filter(p, s[1..])
    else Filter(p, s[1..])
  }

  lemma FilterSplit<T(!new)>(p: T -> bool, a: seq<T>, b: seq<T>)
    ensures Filter(p, a + b) == Filter(p, a) + Filter(p, b)
  {
    if a == [] {
      assert a + b == b;
    } else {
      assert (a + b)[1..] == a[1..] + b;
      FilterSplit(p, a[1..], b);
    }
  }

  lemma {:induction false} FilterSorted<T(!new)>(le: (T, T) -> bool, p: T -> bool, s: seq<T>)
    requires SortedBy(le, s)
    ensures SortedBy(le, Filter(p, s))
  {
    if s != [] {
      FilterSorted(le, p, s[1..]);
      var rest := Filter(p, s[1..]);
      forall i | 0 <= i < |rest| ensures le(s[0], rest[i]) {
        assert rest[i] in s[1..];
        var j :| 0 <= j < |s[1..]| && s[1..][j] == rest[i];
        assert le(s[0], s[j + 1]);
      }
    }
  }

  lemma {:induction false} FilterMultiset<T(!new)>(p: T -> bool, a: seq<T>, b: seq<T>)
    requires multiset(a) == multiset(b)
    ensures multiset(Filter(p, a)) == multiset(Filter(p, b))
    decreases |a|
  {
    if a == [] {
      assert |multiset(b)| == 0;
    } else {
      var left, right := Locate(a, b);
      FilterMultiset(p, a[1..], left + right);
      FilterSplit(p, left, right);
      FilterSplit(p, left, [a[0]]);
      FilterSplit(p, left + [a[0]], right);
      FilterSplit(p, [a[0]], a[1..]);
    }
  }

  /** Having no duplicates is a property of the multiset. */
  lemma NoDuplicatesMultiset<T(!new)>(s: seq<T>)
    ensures NoDuplicates(s) <==> forall x :: multiset(s)[x] <= 1
  {
    if s != [] {
      var front, last := s[..|s| - 1], s[|s| - 1];
      assert s == front + [last];
      NoDuplicatesMultiset(front);
      assert forall x :: multiset(s)[x] == multiset(front)[x] + if x == last then 1 else 0;
      if last in front {
        assert multiset(front)[last] >= 1;
      } else {
        assert multiset(front)[last] == 0;
      }
    }
  }
}
