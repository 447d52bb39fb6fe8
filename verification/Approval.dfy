/** Normalisation of the approval engine's input (backend/internal/approval/rules.go). */
module ApprovalInput {
  import opened Outcomes
  import opened Texts
  import opened Sorting
  import opened Manifests

  datatype Change = Change(address: string, kind: string, action: string, exposed: bool, properties: map<string, Json>)

  datatype Violation = Violation(ruleKey: string, severity: string, description: string, evidence: string, hint: string)

  /** A cost as JSON can deliver it; the engine refuses what is missing or not finite. */
  datatype Amount = Missing | NotFinite | Finite(usd: real)

  datatype Context = Context(
    workspaceId: string, runId: string, userId: string, environment: string, provider: string, region: string,
    exposed: bool, changes: seq<Change>, cost: Amount, costSource: string, decision: string,
    violations: seq<Violation>, userRole: string, workspaceEnvironment: string)

  datatype Problem =
    | BadEnvironment | TooManyChanges | MissingType(index: nat) | BadAction(at: nat)
    | MissingCost | BadCost | BadDecision | PolicyDenied | BadThreshold

  const MAX_CHANGES := 1000

  predicate IsAction(s: string) {
    s == "create" || s == "update" || s == "delete" || s == "replace" || s == "no-op" || s == "read"
  }

  predicate IsDecision(s: string) {
    s == "ALLOW" || s == "WARN" || s == "REQUIRES_APPROVAL" || s == "WAIVED" || s == "DENY"
  }

  /** The environment an alias stands for, or nothing. */
  function Alias(name: string): string {
    if name in {"dev", "development", "test"} then "dev"
    else if name in {"staging", "stage"} then "staging"
    else if name in {"prod", "production"} then "prod"
    else ""
  }

  function Canonical(s: string): string {
    Lower(Trim(s))
  }

  function ActionOf(action: string): string {
    if Canonical(action) == "" then "create" else Canonical(action)
  }

  function NormalChange(c: Change): Change {
    var kind := Canonical(c.kind);
    c.(kind := kind, action := ActionOf(c.action), address := if Trim(c.address) == "" then kind else Trim(c.address))
  }

  function ChangeProblem(c: Change, i: nat): Option<Problem> {
    if Canonical(c.kind) == "" then Some(MissingType(i))
    else if !IsAction(ActionOf(c.action)) then Some(BadAction(i))
    else None
  }

  predicate ChangeOk(c: Change) {
    ChangeProblem(c, 0).None?
  }

  /** The first entry that is refused. */
  function FirstProblem(problem: (Change, nat) -> Option<Problem>, cs: seq<Change>): Option<Problem> {
    if cs == [] then None
    else
      var before := FirstProblem(problem, cs[..|cs| - 1]);
      if before.Some? then before else problem(cs[|cs| - 1], |cs| - 1)
  }

  function ChangesProblem(cs: seq<Change>): Option<Problem> {
    FirstProblem(ChangeProblem, cs)
  }

  datatype Key = Key(first: string, second: string, third: string)

  predicate KeyAtMost(a: Key, b: Key) {
    if a.first != b.first then AtMost(a.first, b.first)
    else if a.second != b.second then AtMost(a.second, b.second)
    else AtMost(a.third, b.third)
  }

  lemma {:induction false} KeyAtMostTotal(a: Key, b: Key)
    ensures KeyAtMost(a, b) || KeyAtMost(b, a)
    ensures KeyAtMost(a, b) && KeyAtMost(b, a) ==> a == b
    ensures KeyAtMost(a, b) ==> AtMost(a.first, b.first)
  {
    AtMostReflexive(a.first);
    AtMostTotal(a.first, b.first);
    AtMostTotal(a.second, b.second);
    AtMostTotal(a.third, b.third);
    if AtMost(a.first, b.first) && AtMost(b.first, a.first) {
      AtMostAntisymmetric(a.first, b.first);
    }
    if AtMost(a.second, b.second) && AtMost(b.second, a.second) {
      AtMostAntisymmetric(a.second, b.second);
    }
    if AtMost(a.third, b.third) && AtMost(b.third, a.third) {
      AtMostAntisymmetric(a.third, b.third);
    }
  }

  lemma {:induction false} KeyAtMostTransitive(a: Key, b: Key, c: Key)
    requires KeyAtMost(a, b) && KeyAtMost(b, c)
    ensures KeyAtMost(a, c)
  {
    KeyAtMostTotal(a, b);
    KeyAtMostTotal(b, c);
    AtMostTransitive(a.first, b.first, c.first);
    if a.first == c.first {
      AtMostAntisymmetric(a.first, b.first);
      if AtMost(a.second, b.second) && AtMost(b.second, c.second) {
        AtMostTransitive(a.second, b.second, c.second);
        if a.second == c.second {
          AtMostAntisymmetric(a.second, b.second);
        }
      }
      if AtMost(a.third, b.third) && AtMost(b.third, c.third) {
        AtMostTransitive(a.third, b.third, c.third);
      }
    }
  }

  function ChangeKey(c: Change): Key {
    Key(c.address, c.kind, c.action)
  }

  function ViolationKey(v: Violation): Key {
    Key(v.ruleKey, v.severity, v.evidence)
  }

  predicate ByChange(a: Change, b: Change) {
    KeyAtMost(ChangeKey(a), ChangeKey(b))
  }

  predicate ByViolation(a: Violation, b: Violation) {
    KeyAtMost(ViolationKey(a), ViolationKey(b))
  }

  lemma {:induction false} OrdersAreTotal()
    ensures TotalPreorder(ByChange) && TotalPreorder(ByViolation)
  {
    forall a: Change, b: Change ensures ByChange(a, b) || ByChange(b, a) {
      KeyAtMostTotal(ChangeKey(a), ChangeKey(b));
    }
    forall a: Change, b: Change, c: Change | ByChange(a, b) && ByChange(b, c) ensures ByChange(a, c) {
      KeyAtMostTransitive(ChangeKey(a), ChangeKey(b), ChangeKey(c));
    }
    forall a: Violation, b: Violation ensures ByViolation(a, b) || ByViolation(b, a) {
      KeyAtMostTotal(ViolationKey(a), ViolationKey(b));
    }
    forall a: Violation, b: Violation, c: Violation | ByViolation(a, b) && ByViolation(b, c) ensures ByViolation(a, c) {
      KeyAtMostTransitive(ViolationKey(a), ViolationKey(b), ViolationKey(c));
    }
  }

  function NormalChanges(cs: seq<Change>): seq<Change> {
    Sort(ByChange, Map(NormalChange, cs))
  }

  function WorkspaceEnvironment(s: string): string {
    if Canonical(s) == "" then s else Alias(Canonical(s))
  }

  function CostSource(s: string): string {
    if Canonical(s) == "" then "manifest_estimate" else Canonical(s)
  }

  function DecisionOf(s: string): string {
    Upper(Trim(s))
  }

  /** The fields that need no list. */
  function NormalFields(c: Context): Context {
    c.(environment := Alias(Canonical(c.environment)),
       workspaceEnvironment := WorkspaceEnvironment(c.workspaceEnvironment),
       provider := Canonical(c.provider), region := Canonical(c.region), userRole := Canonical(c.userRole),
       costSource := CostSource(c.costSource), decision := DecisionOf(c.decision))
  }

  /** Why an input is refused, in the order of the checks. */
  function ProblemOf(c: Context): Option<Problem> {
    if Alias(Canonical(c.environment)) == "" then Some(BadEnvironment)
    else if |c.changes| > MAX_CHANGES then Some(TooManyChanges)
    else if ChangesProblem(c.changes).Some? then ChangesProblem(c.changes)
    else if c.cost.Missing? then Some(MissingCost)
    else if c.cost.NotFinite? || c.cost.usd < 0.0 then Some(BadCost)
    else if !IsDecision(DecisionOf(c.decision)) then Some(BadDecision)
    else if DecisionOf(c.decision) == "DENY" then Some(PolicyDenied)
    else None
  }

  function Normalized(c: Context): Result<Context, Problem> {
    if ProblemOf(c).Some? then Err(ProblemOf(c).value)
    else Ok(NormalFields(c).(changes := NormalChanges(c.changes), violations := Sort(ByViolation, c.violations)))
  }

  predicate Asked(c: Change, i: nat) {
    true
  }

  /** `problem` and `normal` are the treatment of one entry; `Asked` only guides the
      verifier. */
  ghost predicate TreatsAs(problem: (Change, nat) -> Option<Problem>, normal: Change -> Change) {
    forall c, i {:trigger Asked(c, i)} :: Asked(c, i) ==> problem(c, i) == ChangeProblem(c, i) && normal(c) == NormalChange(c)
  }

  method NormalizeOne(
    ghost problem: (Change, nat) -> Option<Problem>, ghost normal: Change -> Change, input: Change, i: nat)
    returns (out: Result<Change, Problem>)
    requires TreatsAs(problem, normal)
    ensures out == if problem(input, i).Some? then Err(problem(input, i).value) else Ok(normal(input))
  {
    assert Asked(input, i);
    var c := input.(kind := Canonical(input.kind), address := Trim(input.address), action := Canonical(input.action));
    if c.action == "" {
      c := c.(action := "create");
    }
    if c.kind == "" {
      return Err(MissingType(i));
    }
    if !IsAction(c.action) {
      return Err(BadAction(i));
    }
    if c.address == "" {
      c := c.(address := c.kind);
    }
    return Ok(c);
  }

  method NormalizeChanges(
    ghost problem: (Change, nat) -> Option<Problem>, ghost normal: Change -> Change, cs: seq<Change>)
    returns (out: Result<seq<Change>, Problem>)
    requires TreatsAs(problem, normal)
    ensures out == if FirstProblem(problem, cs).Some? then Err(FirstProblem(problem, cs).value) else Ok(Map(normal, cs))
  {
    var copy: seq<Change> := [];
    for i := 0 to |cs|
      invariant FirstProblem(problem, cs[..i]).None?
      invariant |copy| == i && forall k | 0 <= k < i :: copy[k] == normal(cs[k])
    {
      assert cs[..i + 1][..i] == cs[..i];
      var c := NormalizeOne(problem, normal, cs[i], i);
      if c.Err? {
        ProblemStays(problem, cs, i + 1);
        return Err(c.error);
      }
      copy := copy + [c.value];
    }
    assert cs[..|cs|] == cs;
    assert copy == Map(normal, cs);
    return Ok(copy);
  }

  lemma {:induction false} ProblemStays(problem: (Change, nat) -> Option<Problem>, cs: seq<Change>, n: nat)
    requires n <= |cs| && FirstProblem(problem, cs[..n]).Some?
    ensures FirstProblem(problem, cs) == FirstProblem(problem, cs[..n])
    decreases |cs|
  {
    if n == |cs| {
      assert cs[..n] == cs;
    } else {
      var front := cs[..|cs| - 1];
      assert front[..n] == cs[..n];
      ProblemStays(problem, front, n);
    }
  }

  method Normalize(c: Context) returns (out: Result<Context, Problem>)
    ensures out == Normalized(c)
  {
    var env := Alias(Canonical(c.environment));
    if env == "" {
      return Err(BadEnvironment);
    }
    if |c.changes| > MAX_CHANGES {
      return Err(TooManyChanges);
    }
    var changes := NormalizeChanges(ChangeProblem, NormalChange, c.changes);
    if changes.Err? {
      return Err(changes.error);
    }
    if c.cost.Missing? {
      return Err(MissingCost);
    }
    if c.cost.NotFinite? || c.cost.usd < 0.0 {
      return Err(BadCost);
    }
    if !IsDecision(DecisionOf(c.decision)) {
      return Err(BadDecision);
    }
    if DecisionOf(c.decision) == "DENY" {
      return Err(PolicyDenied);
    }
    return Ok(NormalFields(c).(changes := Sort(ByChange, changes.value), violations := Sort(ByViolation, c.violations)));
  }

  lemma {:induction false} NoFirstProblem(problem: (Change, nat) -> Option<Problem>, ok: Change -> bool, cs: seq<Change>)
    requires forall c, i :: problem(c, i).None? <==> ok(c)
    ensures FirstProblem(problem, cs).None? <==> forall c | c in cs :: ok(c)
  {
    if cs != [] {
      var front, last := cs[..|cs| - 1], cs[|cs| - 1];
      NoFirstProblem(problem, ok, front);
      assert cs == front + [last];
    }
  }

  lemma {:induction false} NoChangesProblem(cs: seq<Change>)
    ensures ChangesProblem(cs).None? <==> forall c | c in cs :: ChangeOk(c)
  {
    NoFirstProblem(ChangeProblem, ChangeOk, cs);
  }

  lemma {:induction false} FirstProblemOrderFree(problem: (Change, nat) -> Option<Problem>, ok: Change -> bool, cs: seq<Change>, ds: seq<Change>)
    requires forall c, i :: problem(c, i).None? <==> ok(c)
    requires multiset(cs) == multiset(ds)
    ensures FirstProblem(problem, cs).None? <==> FirstProblem(problem, ds).None?
    ensures |cs| == |ds|
  {
    NoFirstProblem(problem, ok, cs);
    NoFirstProblem(problem, ok, ds);
    assert forall x :: (x in cs <==> x in multiset(cs)) && (x in ds <==> x in multiset(ds));
    assert |multiset(cs)| == |cs| && |multiset(ds)| == |ds|;
  }

  lemma {:induction false} AcceptedOrderFree(c: Context, d: Context)
    requires d == c.(changes := d.changes, violations := d.violations)
    requires multiset(c.changes) == multiset(d.changes)
    ensures ProblemOf(c).None? <==> ProblemOf(d).None?
  {
    FirstProblemOrderFree(ChangeProblem, ChangeOk, c.changes, d.changes);
  }

  /** Equal sort keys mean equal entries. */
  ghost predicate Telling(cs: seq<Change>, vs: seq<Violation>) {
    && (forall x, y | x in cs && y in cs && ChangeKey(NormalChange(x)) == ChangeKey(NormalChange(y)) :: NormalChange(x) == NormalChange(y))
    && (forall x, y | x in vs && y in vs && ViolationKey(x) == ViolationKey(y) :: x == y)
  }

  /** When the sort keys tell the entries apart, the normalised input that is digested does
      not depend on the order of changes and violations. */
  lemma {:induction false} NormalFormOrderFree(c: Context, d: Context)
    requires d == c.(changes := d.changes, violations := d.violations)
    requires multiset(c.changes) == multiset(d.changes) && multiset(c.violations) == multiset(d.violations)
    requires Telling(c.changes, c.violations) && Normalized(c).Ok?
    ensures Normalized(d) == Normalized(c)
  {
    AcceptedOrderFree(c, d);
    ChangesOrderFree(c.changes, d.changes);
    ViolationsOrderFree(c.violations, d.violations);
  }

  lemma {:induction false} ChangesOrderFree(cs: seq<Change>, ds: seq<Change>)
    requires multiset(cs) == multiset(ds)
    requires forall x, y | x in cs && y in cs && ChangeKey(NormalChange(x)) == ChangeKey(NormalChange(y)) :: NormalChange(x) == NormalChange(y)
    ensures NormalChanges(cs) == NormalChanges(ds)
  {
    OrdersAreTotal();
    var a, b := Map(NormalChange, cs), Map(NormalChange, ds);
    MapMultiset(NormalChange, cs, ds);
    forall x, y | x in a && y in a && ByChange(x, y) && ByChange(y, x) ensures x == y {
      MappedTelling(cs, x, y);
    }
    SortOrderFree(ByChange, a, b);
  }

  lemma {:induction false} MappedTelling(cs: seq<Change>, x: Change, y: Change)
    requires forall x, y | x in cs && y in cs && ChangeKey(NormalChange(x)) == ChangeKey(NormalChange(y)) :: NormalChange(x) == NormalChange(y)
    requires x in Map(NormalChange, cs) && y in Map(NormalChange, cs) && ByChange(x, y) && ByChange(y, x)
    ensures x == y
  {
    var a := Map(NormalChange, cs);
    KeyAtMostTotal(ChangeKey(x), ChangeKey(y));
    var i :| 0 <= i < |a| && a[i] == x;
    var j :| 0 <= j < |a| && a[j] == y;
    assert cs[i] in cs && cs[j] in cs;
  }

  lemma {:induction false} ViolationsOrderFree(vs: seq<Violation>, ws: seq<Violation>)
    requires multiset(vs) == multiset(ws)
    requires forall x, y | x in vs && y in vs && ViolationKey(x) == ViolationKey(y) :: x == y
    ensures Sort(ByViolation, vs) == Sort(ByViolation, ws)
  {
    OrdersAreTotal();
    forall x, y | x in vs && y in vs && ByViolation(x, y) && ByViolation(y, x) ensures x == y {
      KeyAtMostTotal(ViolationKey(x), ViolationKey(y));
    }
    SortOrderFree(ByViolation, vs, ws);
  }

  /** Sorting keeps equivalent entries in their order. */
  lemma {:induction false} InsertKeepsClass<T(!new)>(le: (T, T) -> bool, p: T -> bool, x: T, s: seq<T>)
    requires forall y, z :: p(y) && p(z) ==> le(y, z)
    ensures Filter(p, Insert(le, x, s)) == Filter(p, s) + Filter(p, [x])
  {
    if s == [] {
    } else {
      var front, last := s[..|s| - 1], s[|s| - 1];
      assert s == front + [last];
      FilterSplit(p, front, [last]);
      if le(last, x) {
        FilterSplit(p, s, [x]);
      } else {
        InsertKeepsClass(le, p, x, front);
        FilterSplit(p, Insert(le, x, front), [last]);
        FilterApart(p, x, last);
      }
    }
  }

  lemma FilterApart<T(!new)>(p: T -> bool, x: T, y: T)
    requires !p(x) || !p(y)
    ensures Filter(p, [x]) + Filter(p, [y]) == Filter(p, [y]) + Filter(p, [x])
  {
    assert [x][1..] == [] && [y][1..] == [];
  }

  lemma {:induction false} SortKeepsClass<T(!new)>(le: (T, T) -> bool, p: T -> bool, s: seq<T>)
    requires forall y, z :: p(y) && p(z) ==> le(y, z)
    ensures Filter(p, Sort(le, s)) == Filter(p, s)
  {
    if s != [] {
      var front, last := s[..|s| - 1], s[|s| - 1];
      SortKeepsClass(le, p, front);
      InsertKeepsClass(le, p, last, Sort(le, front));
      assert s == front + [last];
      FilterSplit(p, front, [last]);
    }
  }

  lemma {:induction false} KeyReflexive(k: Key)
    ensures KeyAtMost(k, k)
  {
    AtMostReflexive(k.third);
  }

  /** Otherwise it does depend on the order: two different entries with one key can be
      swapped, and the stable sort keeps them apart. */
  lemma {:induction false} OrderCanMatter(x: Change, y: Change, rest: seq<Change>)
    requires ChangeKey(NormalChange(x)) == ChangeKey(NormalChange(y)) && NormalChange(x) != NormalChange(y)
    ensures multiset([x, y] + rest) == multiset([y, x] + rest)
    ensures NormalChanges([x, y] + rest) != NormalChanges([y, x] + rest)
  {
    OrderMattersUnder(NormalChange, x, y, rest);
  }

  lemma {:induction false} OrderMattersUnder(f: Change -> Change, x: Change, y: Change, rest: seq<Change>)
    requires ChangeKey(f(x)) == ChangeKey(f(y)) && f(x) != f(y)
    ensures multiset([x, y] + rest) == multiset([y, x] + rest)
    ensures Sort(ByChange, Map(f, [x, y] + rest)) != Sort(ByChange, Map(f, [y, x] + rest))
  {
    MapSplit(f, [x, y], rest);
    MapSplit(f, [y, x], rest);
    assert Map(f, [x, y]) == [f(x), f(y)] && Map(f, [y, x]) == [f(y), f(x)];
    SwapSurvives(f(x), f(y), Map(f, rest));
  }

  lemma {:induction false} SwapSurvives(a: Change, b: Change, more: seq<Change>)
    requires ChangeKey(a) == ChangeKey(b) && a != b
    ensures Sort(ByChange, [a, b] + more) != Sort(ByChange, [b, a] + more)
  {
    var key := ChangeKey(a);
    var p := (c: Change) => ChangeKey(c) == key;
    KeyReflexive(key);
    SortKeepsClass(ByChange, p, [a, b] + more);
    SortKeepsClass(ByChange, p, [b, a] + more);
    FilterSplit(p, [a, b], more);
    FilterSplit(p, [b, a], more);
    FilterTwo(p, a, b);
    FilterTwo(p, b, a);
    assert (([a, b] + Filter(p, more))[0] == a) && (([b, a] + Filter(p, more))[0] == b);
  }

  lemma FilterTwo(p: Change -> bool, a: Change, b: Change)
    requires p(a) && p(b)
    ensures Filter(p, [a, b]) == [a, b]
  {
    assert [a, b][1..] == [b];
    assert [b][1..] == [];
  }

  lemma {:induction false} CanonicalFixed(s: string)
    ensures Canonical(Canonical(s)) == Canonical(s) && Trim(Canonical(s)) == Canonical(s) && Trim(Trim(s)) == Trim(s)
  {
    CanonicalCaseFixed(s);
    TrimEnds(s);
    CaseOfFixed(Trim(s));
    TrimFixed(Canonical(s));
  }

  lemma {:induction false} ActionFixed(s: string)
    ensures ActionOf(ActionOf(s)) == ActionOf(s)
  {
    CanonicalFixed(s);
    TrimFixed("create");
    assert Lower("create") == "create";
  }

  lemma {:induction false} NormalChangeFixed(c: Change)
    requires ChangeOk(c)
    ensures NormalChange(NormalChange(c)) == NormalChange(c) && ChangeOk(NormalChange(c))
  {
    var n := NormalChange(c);
    assert Canonical(n.kind) == n.kind && Trim(n.kind) == n.kind by {
      CanonicalFixed(c.kind);
    }
    assert ActionOf(n.action) == n.action by {
      ActionFixed(c.action);
    }
    assert Trim(n.address) == n.address != "" by {
      CanonicalFixed(c.address);
      CanonicalFixed(c.kind);
    }
  }

  lemma {:induction false} AliasFixed(s: string)
    ensures Alias(Canonical(Alias(s))) == Alias(s) && (Canonical(Alias(s)) == "" <==> Alias(s) == "")
  {
    TrimFixed("dev");
    TrimFixed("staging");
    TrimFixed("prod");
    assert Lower("dev") == "dev" && Lower("staging") == "staging" && Lower("prod") == "prod";
  }

  lemma {:induction false} WorkspaceEnvironmentFixed(s: string)
    ensures WorkspaceEnvironment(WorkspaceEnvironment(s)) == WorkspaceEnvironment(s)
  {
    AliasFixed(Canonical(s));
  }

  lemma {:induction false} CostSourceFixed(s: string)
    ensures CostSource(CostSource(s)) == CostSource(s)
  {
    CanonicalFixed(s);
    TrimFixed("manifest_estimate");
    assert Lower("manifest_estimate") == "manifest_estimate";
  }

  lemma {:induction false} FieldsFixed(c: Context)
    ensures NormalFields(NormalFields(c)) == NormalFields(c)
  {
    var n := NormalFields(c);
    assert Alias(Canonical(n.environment)) == n.environment by {
      AliasFixed(Canonical(c.environment));
    }
    assert WorkspaceEnvironment(n.workspaceEnvironment) == n.workspaceEnvironment by {
      WorkspaceEnvironmentFixed(c.workspaceEnvironment);
    }
    assert Canonical(n.provider) == n.provider && Canonical(n.region) == n.region && Canonical(n.userRole) == n.userRole by {
      CanonicalFixed(c.provider);
      CanonicalFixed(c.region);
      CanonicalFixed(c.userRole);
    }
    assert CostSource(n.costSource) == n.costSource by {
      CostSourceFixed(c.costSource);
    }
    assert DecisionOf(n.decision) == n.decision by {
      CanonicalCaseFixed(c.decision);
    }
  }

  lemma {:induction false} MappedFixed(cs: seq<Change>, c: Change)
    requires forall x | x in cs :: ChangeOk(x)
    requires c in Map(NormalChange, cs)
    ensures NormalChange(c) == c && ChangeOk(c)
  {
    var mapped := Map(NormalChange, cs);
    var j :| 0 <= j < |mapped| && mapped[j] == c;
    assert cs[j] in cs;
    NormalChangeFixed(cs[j]);
  }

  lemma MapOfFixed(f: Change -> Change, s: seq<Change>)
    requires forall c | c in s :: f(c) == c
    ensures Map(f, s) == s
  {
    assert forall i | 0 <= i < |s| :: s[i] in s;
  }

  lemma {:induction false} ChangesFixed(cs: seq<Change>)
    requires forall c | c in cs :: ChangeOk(c)
    ensures NormalChanges(NormalChanges(cs)) == NormalChanges(cs)
    ensures |NormalChanges(cs)| == |cs| && forall c | c in NormalChanges(cs) :: ChangeOk(c)
  {
    OrdersAreTotal();
    var mapped := Map(NormalChange, cs);
    SortPermutes(ByChange, mapped);
    SortSorts(ByChange, mapped);
    var sorted := Sort(ByChange, mapped);
    forall c | c in sorted ensures NormalChange(c) == c && ChangeOk(c) {
      MappedFixed(cs, c);
    }
    MapOfFixed(NormalChange, sorted);
    SortOfSorted(ByChange, sorted);
  }

  lemma {:induction false} SameProblem(c: Context, n: Context)
    requires ProblemOf(c).None? && n.cost == c.cost && |n.changes| == |c.changes| && ChangesProblem(n.changes).None?
    requires Alias(Canonical(n.environment)) == Alias(Canonical(c.environment)) && DecisionOf(n.decision) == DecisionOf(c.decision)
    ensures ProblemOf(n).None?
  {
  }

  lemma {:induction false} AcceptedAgain(c: Context, n: Context)
    requires ProblemOf(c).None? && n.cost == c.cost && |n.changes| == |c.changes| && ChangesProblem(n.changes).None?
    requires n.environment == Alias(Canonical(c.environment)) && n.decision == DecisionOf(c.decision)
    ensures ProblemOf(n).None?
  {
    assert Alias(Canonical(n.environment)) == n.environment by {
      AliasFixed(Canonical(c.environment));
    }
    assert DecisionOf(n.decision) == n.decision by {
      CanonicalCaseFixed(c.decision);
    }
    SameProblem(c, n);
  }

  lemma {:induction false} ListsFixed(c: Context)
    requires ProblemOf(c).None?
    ensures var cs, vs := NormalChanges(c.changes), Sort(ByViolation, c.violations);
      && ChangesProblem(cs).None? && |cs| == |c.changes| && NormalChanges(cs) == cs
      && Sort(ByViolation, vs) == vs
  {
    NoChangesProblem(c.changes);
    ChangesFixed(c.changes);
    NoChangesProblem(NormalChanges(c.changes));
    OrdersAreTotal();
    SortSorts(ByViolation, c.violations);
    SortOfSorted(ByViolation, Sort(ByViolation, c.violations));
  }

  /** Normalising twice is normalising once. */
  lemma {:induction false} NormalizeIdempotent(c: Context)
    requires Normalized(c).Ok?
    ensures Normalized(Normalized(c).value) == Normalized(c)
  {
    ListsFixed(c);
    FieldsFixed(c);
    AcceptedAgain(c, Normalized(c).value);
  }

  /** Spelled alike up to case and the white space around it. */
  predicate SameWord(s: string, t: string) {
    Canonical(s) == Canonical(t)
  }

  predicate SameChange(c: Change, d: Change) {
    && SameWord(c.kind, d.kind) && SameWord(c.action, d.action) && Trim(c.address) == Trim(d.address)
    && c.exposed == d.exposed && c.properties == d.properties
  }

  ghost predicate SpelledAlike(c: Context, d: Context) {
    && c == d.(environment := c.environment, provider := c.provider, region := c.region, changes := c.changes,
               costSource := c.costSource, decision := c.decision, userRole := c.userRole,
               workspaceEnvironment := c.workspaceEnvironment)
    && SameWord(c.environment, d.environment) && SameWord(c.provider, d.provider) && SameWord(c.region, d.region)
    && SameWord(c.costSource, d.costSource) && SameWord(c.userRole, d.userRole) && Upper(Trim(c.decision)) == Upper(Trim(d.decision))
    && (c.workspaceEnvironment == d.workspaceEnvironment
        || (SameWord(c.workspaceEnvironment, d.workspaceEnvironment) && Canonical(c.workspaceEnvironment) != ""))
    && |c.changes| == |d.changes| && forall i | 0 <= i < |c.changes| :: SameChange(c.changes[i], d.changes[i])
  }

  lemma {:induction false} ProblemsAlike(cs: seq<Change>, ds: seq<Change>)
    requires |cs| == |ds| && forall i | 0 <= i < |cs| :: SameChange(cs[i], ds[i])
    ensures ChangesProblem(cs) == ChangesProblem(ds)
  {
    if cs != [] {
      ProblemsAlike(cs[..|cs| - 1], ds[..|ds| - 1]);
    }
  }

  lemma {:induction false} ChangesAlike(cs: seq<Change>, ds: seq<Change>)
    requires |cs| == |ds| && forall i | 0 <= i < |cs| :: SameChange(cs[i], ds[i])
    ensures NormalChanges(cs) == NormalChanges(ds)
  {
    forall i | 0 <= i < |cs| ensures NormalChange(cs[i]) == NormalChange(ds[i]) {
      assert SameChange(cs[i], ds[i]);
    }
    assert Map(NormalChange, cs) == Map(NormalChange, ds);
  }

  lemma FieldsAlike(c: Context, d: Context, changes: seq<Change>, violations: seq<Violation>)
    requires SpelledAlike(c, d)
    ensures NormalFields(c).(changes := changes, violations := violations) == NormalFields(d).(changes := changes, violations := violations)
  {
  }

  lemma ProblemAlike(c: Context, d: Context)
    requires |c.changes| == |d.changes| && ChangesProblem(c.changes) == ChangesProblem(d.changes) && c.cost == d.cost
    requires SameWord(c.environment, d.environment) && DecisionOf(c.decision) == DecisionOf(d.decision)
    ensures ProblemOf(c) == ProblemOf(d)
  {
  }

  lemma NormalizedFrom(c: Context, changes: seq<Change>, violations: seq<Violation>)
    requires changes == NormalChanges(c.changes) && violations == Sort(ByViolation, c.violations)
    ensures Normalized(c) == if ProblemOf(c).Some? then Err(ProblemOf(c).value)
                             else Ok(NormalFields(c).(changes := changes, violations := violations))
  {
  }

  /** Case and surrounding white space of words make no difference. */
  lemma {:induction false} SpellingIgnored(c: Context, d: Context)
    requires SpelledAlike(c, d)
    ensures Normalized(c) == Normalized(d)
  {
    ProblemsAlike(c.changes, d.changes);
    ChangesAlike(c.changes, d.changes);
    ProblemAlike(c, d);
    FieldsAlike(c, d, NormalChanges(c.changes), Sort(ByViolation, c.violations));
    NormalizedFrom(c, NormalChanges(c.changes), Sort(ByViolation, c.violations));
    NormalizedFrom(d, NormalChanges(c.changes), Sort(ByViolation, c.violations));
  }

  /** A change as the rules read it. */
  predicate IsNormalChange(c: Change) {
    && Canonical(c.kind) == c.kind != "" && Canonical(c.action) == c.action != "" && Trim(c.address) == c.address != ""
  }

  ghost predicate IsNormal(c: Context) {
    && c.environment in {"dev", "staging", "prod"} && c.workspaceEnvironment in {"", "dev", "staging", "prod"}
    && Canonical(c.provider) == c.provider && Canonical(c.region) == c.region && Canonical(c.userRole) == c.userRole
    && Canonical(c.costSource) == c.costSource != "" && Upper(Trim(c.decision)) == c.decision
    && (forall x | x in c.changes :: IsNormalChange(x)) && SortedBy(ByChange, c.changes) && SortedBy(ByViolation, c.violations)
  }

  lemma {:induction false} EnvironmentsKept(s: string)
    ensures s in {"dev", "staging", "prod"} ==> Alias(Canonical(s)) == s && Canonical(s) != ""
    ensures Canonical("") == ""
  {
    TrimFixed("dev");
    TrimFixed("staging");
    TrimFixed("prod");
    TrimFixed("");
    assert Lower("dev") == "dev" && Lower("staging") == "staging" && Lower("prod") == "prod";
  }

  /** An input that is in order already is left as it is. */
  lemma {:induction false} NormalFormKept(c: Context)
    requires IsNormal(c) && ProblemOf(c).None?
    ensures Normalized(c) == Ok(c)
  {
    EnvironmentsKept(c.environment);
    EnvironmentsKept(c.workspaceEnvironment);
    MapOfFixed(NormalChange, c.changes);
    SortOfSorted(ByChange, c.changes);
    SortOfSorted(ByViolation, c.violations);
    assert NormalFields(c) == c;
  }

  predicate MeansProduction(name: string) {
    name == "prod" || name == "production"
  }

  predicate MeansOther(name: string) {
    name == "dev" || name == "development" || name == "test" || name == "staging" || name == "stage"
  }

  lemma AliasExactly(name: string)
    ensures Alias(name) == "" <==> !MeansProduction(name) && !MeansOther(name)
    ensures Alias(name) == "prod" <==> MeansProduction(name)
  {
  }

  predicate ActionWord(s: string) {
    s == "" || s == "create" || s == "update" || s == "delete" || s == "replace" || s == "no-op" || s == "read"
  }

  predicate DecisionWord(s: string) {
    s == "ALLOW" || s == "WARN" || s == "REQUIRES_APPROVAL" || s == "WAIVED"
  }

  lemma ChangeOkExactly(c: Change)
    ensures ChangeOk(c) <==> Canonical(c.kind) != "" && ActionWord(Canonical(c.action))
  {
  }

  lemma DecisionExactly(s: string)
    ensures IsDecision(s) && s != "DENY" <==> DecisionWord(s)
  {
  }

  lemma NoProblemExactly(c: Context)
    ensures ProblemOf(c).None? <==>
      && Alias(Canonical(c.environment)) != "" && |c.changes| <= 1000 && ChangesProblem(c.changes).None?
      && c.cost.Finite? && c.cost.usd >= 0.0 && IsDecision(DecisionOf(c.decision)) && DecisionOf(c.decision) != "DENY"
  {
  }

  /** Which inputs are accepted, and which of them are in production. */
  lemma {:induction false} AcceptedExactly(c: Context)
    ensures Normalized(c).Ok? <==>
      && (MeansProduction(Canonical(c.environment)) || MeansOther(Canonical(c.environment)))
      && |c.changes| <= 1000 && (forall x | x in c.changes :: Canonical(x.kind) != "" && ActionWord(Canonical(x.action)))
      && c.cost.Finite? && c.cost.usd >= 0.0 && DecisionWord(Upper(Trim(c.decision)))
    ensures Normalized(c).Ok? ==> (Normalized(c).value.environment == "prod" <==> MeansProduction(Canonical(c.environment)))
  {
    NoProblemExactly(c);
    NoChangesProblem(c.changes);
    forall x ensures ChangeOk(x) <==> Canonical(x.kind) != "" && ActionWord(Canonical(x.action)) {
      ChangeOkExactly(x);
    }
    AliasExactly(Canonical(c.environment));
    DecisionExactly(DecisionOf(c.decision));
  }
}
