/** The agent's two policy checks (agent/app/policy/compliance.py and
    agent/app/domain/drafting.py) and the canonical draft. */
module AgentPolicy {
  import opened Outcomes
  import opened Texts

  datatype Constraint = AllowedRegions | MaxBudget | RequiredTags | ProhibitedTypes | RequiredEncryption | RequiredBackup

  datatype Manifest = Manifest(
    region: string, budget: Option<real>, tags: map<string, string>, types: seq<string>,
    applied: set<Constraint>, encrypted: bool, backedUp: bool)

  datatype Policy = Policy(
    enabled: bool, regions: seq<string>, maxBudget: Option<real>, tags: map<string, string>,
    prohibited: seq<string>, encryption: bool, backup: bool)

  /** A required tag whose value does not matter. */
  predicate AnyValue(value: string) {
    value == "*"
  }

  datatype Code =
    | ReferenceMissing | RegionNotAllowed | BudgetMissing | BudgetExceeded | TagsMissing | TypeProhibited
    | EncryptionRequired | BackupRequired

  function Expected(p: Policy): set<Constraint> {
    (if p.regions != [] then {AllowedRegions} else {})
    + (if p.maxBudget.Some? then {MaxBudget} else {})
    + (if p.tags != map[] then {RequiredTags} else {})
    + (if p.prohibited != [] then {ProhibitedTypes} else {})
    + (if p.encryption then {RequiredEncryption} else {})
    + (if p.backup then {RequiredBackup} else {})
  }

  predicate TagMissing(m: Manifest, p: Policy, key: string)
    requires key in p.tags
  {
    if AnyValue(p.tags[key]) then key !in m.tags || Trim(m.tags[key]) == ""
    else key !in m.tags || m.tags[key] != p.tags[key]
  }

  /** The manifest breaks the rule that the code reports. */
  predicate Breaks(m: Manifest, p: Policy, code: Code) {
    match code
    case ReferenceMissing => !(Expected(p) <= m.applied)
    case RegionNotAllowed => p.regions != [] && m.region !in p.regions
    case BudgetMissing => p.maxBudget.Some? && m.budget.None?
    case BudgetExceeded => p.maxBudget.Some? && m.budget.Some? && m.budget.value > p.maxBudget.value
    case TagsMissing => exists key | key in p.tags :: TagMissing(m, p, key)
    case TypeProhibited => exists t | t in m.types :: t in p.prohibited
    case EncryptionRequired => p.encryption && !m.encrypted
    case BackupRequired => p.backup && !m.backedUp
  }

  predicate Compliant(m: Manifest, p: Policy) {
    p.enabled ==> forall code: Code :: !Breaks(m, p, code)
  }

  function When(b: bool, code: Code): seq<Code> {
    if b then [code] else []
  }

  function Breaker(m: Manifest, p: Policy): Code -> bool {
    (code: Code) => Breaks(m, p, code)
  }

  /** Three parts of the report, in the order of the checks. */
  function HeadReport(broken: Code -> bool): seq<Code> {
    When(broken(ReferenceMissing), ReferenceMissing) + When(broken(RegionNotAllowed), RegionNotAllowed)
    + When(broken(BudgetMissing), BudgetMissing) + When(broken(BudgetExceeded), BudgetExceeded)
  }

  function MiddleReport(broken: Code -> bool): seq<Code> {
    When(broken(TagsMissing), TagsMissing) + When(broken(TypeProhibited), TypeProhibited)
  }

  function TailReport(broken: Code -> bool): seq<Code> {
    When(broken(EncryptionRequired), EncryptionRequired) + When(broken(BackupRequired), BackupRequired)
  }

  method ExpectedReferences(p: Policy) returns (expected: set<Constraint>)
    ensures expected == Expected(p)
  {
    expected := {};
    if p.regions != [] {
      expected := expected + {AllowedRegions};
    }
    if p.maxBudget.Some? {
      expected := expected + {MaxBudget};
    }
    if p.tags != map[] {
      expected := expected + {RequiredTags};
    }
    if p.prohibited != [] {
      expected := expected + {ProhibitedTypes};
    }
    if p.encryption {
      expected := expected + {RequiredEncryption};
    }
    if p.backup {
      expected := expected + {RequiredBackup};
    }
  }

  method CheckHead(m: Manifest, p: Policy) returns (violations: seq<Code>)
    ensures violations == HeadReport(Breaker(m, p))
  {
    violations := [];
    var expected := ExpectedReferences(p);
    if !(expected <= m.applied) {
      violations := violations + [ReferenceMissing];
    }
    if p.regions != [] && m.region !in p.regions {
      violations := violations + [RegionNotAllowed];
    }
    if p.maxBudget.Some? {
      if m.budget.None? {
        violations := violations + [BudgetMissing];
      } else if m.budget.value > p.maxBudget.value {
        violations := violations + [BudgetExceeded];
      }
    }
  }

  method CheckMiddle(m: Manifest, p: Policy) returns (violations: seq<Code>)
    ensures violations == MiddleReport(Breaker(m, p))
  {
    violations := [];
    var missing := set key | key in p.tags && TagMissing(m, p, key);
    assert forall key :: key in missing <==> key in p.tags && TagMissing(m, p, key);
    if missing != {} {
      var key :| key in missing;
      violations := violations + [TagsMissing];
    }
    var prohibited := (set t | t in m.types) * (set t | t in p.prohibited);
    assert forall t :: t in prohibited <==> t in m.types && t in p.prohibited;
    if prohibited != {} {
      var t :| t in prohibited;
      violations := violations + [TypeProhibited];
    }
  }

  /** Violations are collected in a fixed order; a disabled policy has none. */
  method ValidateManifestPolicy(m: Manifest, p: Policy) returns (violations: seq<Code>)
    ensures forall code :: code in violations <==> p.enabled && Breaks(m, p, code)
    ensures violations == [] <==> Compliant(m, p)
  {
    violations := [];
    if !p.enabled {
      return;
    }
    var head := CheckHead(m, p);
    var middle := CheckMiddle(m, p);
    violations := head + middle;
    if p.encryption && !m.encrypted {
      violations := violations + [EncryptionRequired];
    }
    if p.backup && !m.backedUp {
      violations := violations + [BackupRequired];
    }
    var broken := Breaker(m, p);
    assert violations == HeadReport(broken) + MiddleReport(broken) + TailReport(broken);
    ReportIsExact(broken);
    if violations != [] {
      assert violations[0] in violations;
    }
  }

  lemma ReportIsExact(broken: Code -> bool)
    ensures forall code :: code in HeadReport(broken) + MiddleReport(broken) + TailReport(broken) <==> broken(code)
  {
    forall code ensures code in HeadReport(broken) + MiddleReport(broken) + TailReport(broken) <==> broken(code) {
      assert code in HeadReport(broken) <==>
        broken(code) && (code.ReferenceMissing? || code.RegionNotAllowed? || code.BudgetMissing? || code.BudgetExceeded?);
      assert code in MiddleReport(broken) <==> broken(code) && (code.TagsMissing? || code.TypeProhibited?);
      assert code in TailReport(broken) <==> broken(code) && (code.EncryptionRequired? || code.BackupRequired?);
    }
  }

  /** The drafter's copy of the constraints: encryption, backup and the switch are not in it. */
  datatype Constraints = Constraints(
    regions: seq<string>, maxBudget: Option<real>, tags: map<string, string>, prohibited: seq<string>)

  function ConstraintsOf(p: Option<Policy>): Constraints {
    if p.None? then Constraints([], None, map[], [])
    else Constraints(p.value.regions, p.value.maxBudget, p.value.tags, p.value.prohibited)
  }

  datatype Complaint = BadRegion | OverBudget | BadType(kind: string)

  function BadTypes(types: seq<string>, prohibited: seq<string>): seq<Complaint> {
    if types == [] then []
    else
      var last := types[|types| - 1];
      BadTypes(types[..|types| - 1], prohibited) + if last in prohibited then [BadType(last)] else []
  }

  function Preflight(m: Manifest, c: Constraints): seq<Complaint> {
    (if c.regions != [] && m.region !in c.regions then [BadRegion] else [])
    + (if c.maxBudget.Some? && m.budget.Some? && m.budget.value > c.maxBudget.value then [OverBudget] else [])
    + BadTypes(m.types, c.prohibited)
  }

  method CheckPolicyPreflight(m: Manifest, c: Constraints) returns (complaints: seq<Complaint>)
    ensures complaints == Preflight(m, c)
  {
    complaints := [];
    if c.regions != [] && m.region !in c.regions {
      complaints := complaints + [BadRegion];
    }
    if c.maxBudget.Some? && m.budget.Some? && m.budget.value > c.maxBudget.value {
      complaints := complaints + [OverBudget];
    }
    if c.prohibited == [] {
      NoBadTypes(m.types, c.prohibited);
      return;
    }
    ghost var before := complaints;
    for i := 0 to |m.types|
      invariant complaints == before + BadTypes(m.types[..i], c.prohibited)
    {
      assert m.types[..i + 1][..i] == m.types[..i];
      if m.types[i] in c.prohibited {
        complaints := complaints + [BadType(m.types[i])];
      }
    }
    assert m.types[..|m.types|] == m.types;
  }

  lemma {:induction false} NoBadTypes(types: seq<string>, prohibited: seq<string>)
    ensures BadTypes(types, prohibited) == [] <==> forall t | t in types :: t !in prohibited
  {
    if types != [] {
      NoBadTypes(types[..|types| - 1], prohibited);
      assert types == types[..|types| - 1] + [types[|types| - 1]];
    }
  }

  /** Policy tags on top of the manifest's, except those whose value does not matter. */
  function MergedTags(m: Manifest, c: Constraints): map<string, string> {
    m.tags + map k | k in c.tags && !AnyValue(c.tags[k]) :: c.tags[k]
  }

  datatype Source = FromPolicy | FromCloud | FromUser

  datatype Canonical = Canonical(
    region: string, regionSource: Source, budget: Option<real>, tags: map<string, string>, types: seq<string>)

  function RegionSource(region: string, c: Constraints, cloudDefault: Option<string>): Source {
    if c.regions != [] && region in c.regions then FromPolicy
    else if cloudDefault == Some(region) then FromCloud
    else FromUser
  }

  function CanonicalOf(m: Manifest, c: Constraints, cloudDefault: Option<string>): Canonical {
    Canonical(m.region, RegionSource(m.region, c, cloudDefault), m.budget, MergedTags(m, c), m.types)
  }

  /** The pre-flight stops a draft; otherwise the manifest is annotated. */
  method DraftManifest(m: Manifest, c: Constraints, cloudDefault: Option<string>) returns (draft: Option<Canonical>)
    ensures draft == if Preflight(m, c) == [] then Some(CanonicalOf(m, c, cloudDefault)) else None
  {
    var complaints := CheckPolicyPreflight(m, c);
    return if complaints == [] then Some(CanonicalOf(m, c, cloudDefault)) else None;
  }

  /** The pre-flight complains exactly when the region, the budget or a type breaks the
      policy; whether the policy is enabled plays no part. */
  lemma {:induction false} PreflightExactly(m: Manifest, p: Policy)
    ensures Preflight(m, ConstraintsOf(Some(p))) != [] <==>
      Breaks(m, p, RegionNotAllowed) || Breaks(m, p, BudgetExceeded) || Breaks(m, p, TypeProhibited)
  {
    NoBadTypes(m.types, p.prohibited);
  }

  /** For an enabled policy the two checks agree: a compliant manifest passes the pre-flight,
      and merging the policy's tags changes nothing. */
  lemma {:induction false} ChecksAgree(m: Manifest, p: Policy)
    requires p.enabled && Compliant(m, p)
    ensures Preflight(m, ConstraintsOf(Some(p))) == []
    ensures MergedTags(m, ConstraintsOf(Some(p))) == m.tags
  {
    PreflightExactly(m, p);
    assert !Breaks(m, p, RegionNotAllowed) && !Breaks(m, p, BudgetExceeded) && !Breaks(m, p, TypeProhibited);
    assert !Breaks(m, p, TagsMissing);
    forall k | k in p.tags ensures !TagMissing(m, p, k) {
    }
  }

  /** Compliance and pre-flight part exactly when the policy is disabled and the manifest
      breaks its region, budget or type rule. */
  lemma {:induction false} ChecksPartExactly(m: Manifest, p: Policy)
    ensures Compliant(m, p) && Preflight(m, ConstraintsOf(Some(p))) != [] <==>
      && !p.enabled
      && (Breaks(m, p, RegionNotAllowed) || Breaks(m, p, BudgetExceeded) || Breaks(m, p, TypeProhibited))
  {
    PreflightExactly(m, p);
  }
}
