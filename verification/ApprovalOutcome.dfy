/** What the approval engine answers, read off the normalised input: the risk, the approver,
    and which rules are reported. */
module ApprovalOutcome {
  import opened Outcomes
  import opened Sorting
  import opened Texts
  import opened ApprovalInput
  import opened ApprovalRules
  import opened ApprovalProperties
  import opened RiskLevels

  /** What the input holds, category by category. */
  ghost function Seen(n: Context, threshold: real): Flags
    requires n.cost.Finite?
  {
    Flags(
      production := n.environment == "prod" || n.workspaceEnvironment == "prod",
      cost := if n.cost.usd > threshold then if n.cost.usd >= 5.0 * threshold then 2 else 1 else 0,
      deletion := exists x :: x in n.changes && DatabaseDeletion(x),
      iam := exists x :: x in n.changes && IamChange(x),
      open := exists x :: x in n.changes && OpenGroup(x),
      exposed := n.exposed || exists x :: x in n.changes && Exposure(x),
      policy := n.decision == "REQUIRES_APPROVAL" || exists v :: v in n.violations && v.severity == "approval",
      role := n.userRole != "admin" &&
        ((exists x :: x in n.changes && Destructive(x.action))
         || (n.userRole != "engineer" && exists x :: x in n.changes && Mutating(x.action))))
  }

  /** Who has to approve: a destroyed database and production go to the admin, the other
      high risks to security before finance, and the medium ones to the admin, to security, to
      finance. */
  function NeededApprover(g: Flags): Option<Approver> {
    if g.deletion || g.production then Some(AdminRole)
    else if g.iam || g.open || g.exposed then Some(SecurityRole)
    else if g.cost == 2 then Some(FinanceRole)
    else if g.role then Some(AdminRole)
    else if g.policy then Some(SecurityRole)
    else if g.cost == 1 then Some(FinanceRole)
    else None
  }

  lemma {:induction false} KeysSome(vs: seq<Violation>)
    ensures ApprovalKeys(vs) != [] <==> exists v :: v in vs && v.severity == "approval"
  {
    var kept := Filter(NeedsApproval, vs);
    DistinctSome(Map(RuleKeyOf, kept));
    if kept != [] {
      assert kept[0] in kept;
    }
    if v :| v in vs && v.severity == "approval" {
      assert v in kept;
    }
  }

  lemma {:induction false} FilterSome(p: Change -> bool, cs: seq<Change>)
    ensures Filter(p, cs) != [] <==> exists x :: x in cs && p(x)
  {
    var kept := Filter(p, cs);
    if kept != [] {
      assert kept[0] in kept;
    }
  }

  lemma {:induction false} RoleSeen(n: Context, threshold: real)
    requires n.cost.Finite?
    ensures Seen(n, threshold).role <==> RoleFlag(n.userRole, Found(n))
  {
    FilterSome(AnyMutation, n.changes);
    FilterSome(AnyDestruction, n.changes);
    var f := Found(n);
    assert f.mutates <==> exists x :: x in n.changes && AnyMutation(x);
    assert f.destroys <==> exists x :: x in n.changes && AnyDestruction(x);
    assert (exists x :: x in n.changes && AnyMutation(x)) <==> exists x :: x in n.changes && Mutating(x.action);
    assert (exists x :: x in n.changes && AnyDestruction(x)) <==> exists x :: x in n.changes && Destructive(x.action);
  }

  lemma {:induction false} CategoriesSeen(n: Context, threshold: real)
    requires n.cost.Finite?
    ensures var g, f := Seen(n, threshold), Found(n);
      && (g.deletion <==> f.deletions != []) && (g.iam <==> f.iam != []) && (g.open <==> f.open != [])
      && (g.exposed <==> n.exposed || f.exposures != []) && (g.policy <==> n.decision == "REQUIRES_APPROVAL" || f.keys != [])
  {
    SelectedSome(DatabaseDeletion, n.changes);
    SelectedSome(IamChange, n.changes);
    SelectedSome(OpenGroup, n.changes);
    SelectedSome(Exposure, n.changes);
    KeysSome(n.violations);
  }

  /** The engine's findings are about what is there. */
  lemma {:induction false} SeenIsFound(n: Context, threshold: real)
    requires n.cost.Finite?
    ensures Seen(n, threshold) == FlagsOf(n, Found(n), n.cost.usd, threshold)
  {
    RoleSeen(n, threshold);
    CategoriesSeen(n, threshold);
    SameFlags(Seen(n, threshold), FlagsOf(n, Found(n), n.cost.usd, threshold));
  }

  lemma SameFlags(g: Flags, h: Flags)
    requires g.production == h.production && g.cost == h.cost && g.deletion == h.deletion && g.iam == h.iam
    requires g.open == h.open && g.exposed == h.exposed && g.policy == h.policy && g.role == h.role
    ensures g == h
  {
  }

  /** A rule of this name, risk and approver is reported. */
  ghost predicate Reports(ts: seq<Rule>, name: RuleName, risk: Risk, approver: Approver) {
    exists t :: t in ts && t.name == name && t.risk == risk && t.approver == approver
  }

  /** Which rule fires for what. */
  predicate Fires(g: Flags, name: RuleName, risk: Risk, approver: Approver) {
    match (name, risk, approver)
    case (Environment, High, AdminRole) => g.production
    case (CostRule, High, FinanceRole) => g.cost == 2
    case (CostRule, Medium, FinanceRole) => g.cost == 1
    case (ResourceType, Critical, AdminRole) => g.deletion
    case (ResourceType, High, SecurityRole) => g.iam || g.open
    case (PublicExposure, High, SecurityRole) => g.exposed
    case (PolicyRule, Medium, SecurityRole) => g.policy
    case (RoleRule, Medium, AdminRole) => g.role
    case _ => false
  }

  lemma FiresCases(g: Flags, name: RuleName, risk: Risk, approver: Approver)
    ensures Fires(g, name, risk, approver) <==>
      || ((name, risk, approver) == (Environment, High, AdminRole) && g.production)
      || (name == CostRule && approver == FinanceRole && ((risk == High && g.cost == 2) || (risk == Medium && g.cost == 1)))
      || (name == ResourceType && ((risk == Critical && approver == AdminRole && g.deletion)
                                   || (risk == High && approver == SecurityRole && (g.iam || g.open))))
      || ((name, risk, approver) == (PublicExposure, High, SecurityRole) && g.exposed)
      || ((name, risk, approver) == (PolicyRule, Medium, SecurityRole) && g.policy)
      || ((name, risk, approver) == (RoleRule, Medium, AdminRole) && g.role)
  {
  }

  lemma {:induction false} ReportsSplit(a: seq<Rule>, b: seq<Rule>, name: RuleName, risk: Risk, approver: Approver)
    ensures Reports(a + b, name, risk, approver) <==> Reports(a, name, risk, approver) || Reports(b, name, risk, approver)
  {
    assert forall t :: t in a + b <==> t in a || t in b;
  }

  lemma ReportsOne(ts: seq<Rule>, name: RuleName, risk: Risk, approver: Approver)
    requires |ts| <= 1
    ensures Reports(ts, name, risk, approver) <==> ts != [] && ts[0].name == name && ts[0].risk == risk && ts[0].approver == approver
  {
    if ts != [] {
      assert ts[0] in ts;
    }
  }

  lemma {:induction false} TypesReport(kit: Kit, f: Findings, name: RuleName, risk: Risk, approver: Approver)
    ensures Reports(CheckResourceTypes(kit, f), name, risk, approver) <==>
            name == ResourceType && ((risk == Critical && approver == AdminRole && f.deletions != [])
                                     || (risk == High && approver == SecurityRole && (f.iam != [] || f.open != [])))
  {
    var a := if f.deletions == [] then [] else [DeletionRule(kit, f)];
    var b := if f.iam == [] then [] else [IamRule(kit, f)];
    var c := if f.open == [] then [] else [OpenRule(kit, f)];
    ReportsSplit(a, b, name, risk, approver);
    ReportsSplit(a + b, c, name, risk, approver);
    ReportsOne(a, name, risk, approver);
    ReportsOne(b, name, risk, approver);
    ReportsOne(c, name, risk, approver);
  }

  lemma {:induction false} ReportsSix(
    e: seq<Rule>, c: seq<Rule>, t: seq<Rule>, x: seq<Rule>, p: seq<Rule>, r: seq<Rule>, name: RuleName, risk: Risk, approver: Approver)
    ensures Reports(e + c + t + x + p + r, name, risk, approver) <==>
      || Reports(e, name, risk, approver) || Reports(c, name, risk, approver) || Reports(t, name, risk, approver)
      || Reports(x, name, risk, approver) || Reports(p, name, risk, approver) || Reports(r, name, risk, approver)
  {
    ReportsSplit(e, c, name, risk, approver);
    ReportsSplit(e + c, t, name, risk, approver);
    ReportsSplit(e + c + t, x, name, risk, approver);
    ReportsSplit(e + c + t + x, p, name, risk, approver);
    ReportsSplit(e + c + t + x + p, r, name, risk, approver);
  }

  lemma {:induction false} CostReports(kit: Kit, usd: real, threshold: real, name: RuleName, risk: Risk, approver: Approver)
    ensures Reports(CheckCost(kit, usd, threshold), name, risk, approver) <==>
            name == CostRule && approver == FinanceRole
            && ((risk == High && CostFlag(usd, threshold) == 2) || (risk == Medium && CostFlag(usd, threshold) == 1))
  {
    ReportsOne(CheckCost(kit, usd, threshold), name, risk, approver);
  }

  lemma {:induction false} OthersReport(kit: Kit, n: Context, f: Findings, name: RuleName, risk: Risk, approver: Approver)
    ensures Reports(CheckEnvironment(kit, Production(n)), name, risk, approver) <==>
            (name, risk, approver) == (Environment, High, AdminRole) && Production(n)
    ensures Reports(CheckPublic(kit, n.exposed, f), name, risk, approver) <==>
            (name, risk, approver) == (PublicExposure, High, SecurityRole) && (n.exposed || f.exposures != [])
    ensures Reports(CheckPolicy(kit, n.decision, f), name, risk, approver) <==>
            (name, risk, approver) == (PolicyRule, Medium, SecurityRole) && (n.decision == "REQUIRES_APPROVAL" || f.keys != [])
    ensures Reports(CheckRole(kit, n.userRole, f), name, risk, approver) <==>
            (name, risk, approver) == (RoleRule, Medium, AdminRole) && RoleFlag(n.userRole, f)
  {
    ReportsOne(CheckEnvironment(kit, Production(n)), name, risk, approver);
    ReportsOne(CheckPublic(kit, n.exposed, f), name, risk, approver);
    ReportsOne(CheckPolicy(kit, n.decision, f), name, risk, approver);
    ReportsOne(CheckRole(kit, n.userRole, f), name, risk, approver);
  }

  lemma {:induction false} TriggeredReports(
    kit: Kit, n: Context, f: Findings, usd: real, threshold: real, name: RuleName, risk: Risk, approver: Approver)
    ensures Reports(Triggered(kit, n, f, usd, threshold), name, risk, approver) <==>
            Fires(FlagsOf(n, f, usd, threshold), name, risk, approver)
  {
    ReportsSix(CheckEnvironment(kit, Production(n)), CheckCost(kit, usd, threshold), CheckResourceTypes(kit, f),
               CheckPublic(kit, n.exposed, f), CheckPolicy(kit, n.decision, f), CheckRole(kit, n.userRole, f), name, risk, approver);
    TypesReport(kit, f, name, risk, approver);
    CostReports(kit, usd, threshold, name, risk, approver);
    OthersReport(kit, n, f, name, risk, approver);
    FiresCases(FlagsOf(n, f, usd, threshold), name, risk, approver);
  }

  /** The least-ranked approver among the riskiest rules is the needed one. */
  lemma {:induction false} LeastIsNeeded(ts: seq<Rule>, g: Flags)
    requires forall name, risk, approver :: Reports(ts, name, risk, approver) <==> Fires(g, name, risk, approver)
    requires g.cost <= 2
    ensures NeededApprover(g) == if ts == [] then None else Some(Top(ts).approver)
  {
    if ts != [] {
      TopIsLeast(ts);
      var top := Top(ts);
      assert Reports(ts, top.name, top.risk, top.approver);
      Riskiest(ts, g, top);
    } else {
      assert !Reports(ts, Environment, High, AdminRole) && !Reports(ts, CostRule, High, FinanceRole);
      assert !Reports(ts, CostRule, Medium, FinanceRole) && !Reports(ts, ResourceType, Critical, AdminRole);
      assert !Reports(ts, ResourceType, High, SecurityRole) && !Reports(ts, PublicExposure, High, SecurityRole);
      assert !Reports(ts, PolicyRule, Medium, SecurityRole) && !Reports(ts, RoleRule, Medium, AdminRole);
    }
  }

  /** No rule that fires is above the top one. */
  lemma {:induction false} Riskiest(ts: seq<Rule>, g: Flags, top: Rule)
    requires forall name, risk, approver :: Reports(ts, name, risk, approver) <==> Fires(g, name, risk, approver)
    requires Fires(g, top.name, top.risk, top.approver) && g.cost <= 2
    requires forall t | t in ts :: Rank(t.risk) <= Rank(top.risk)
    requires forall t | t in ts && t.risk == top.risk :: ApproverRank(top.approver) <= ApproverRank(t.approver)
    ensures NeededApprover(g) == Some(top.approver)
  {
    Bounded(ts, g, top, Environment, High, AdminRole);
    Bounded(ts, g, top, CostRule, High, FinanceRole);
    Bounded(ts, g, top, ResourceType, Critical, AdminRole);
    Bounded(ts, g, top, ResourceType, High, SecurityRole);
    Bounded(ts, g, top, PublicExposure, High, SecurityRole);
    Bounded(ts, g, top, PolicyRule, Medium, SecurityRole);
    Bounded(ts, g, top, RoleRule, Medium, AdminRole);
  }

  lemma Bounded(ts: seq<Rule>, g: Flags, top: Rule, name: RuleName, risk: Risk, approver: Approver)
    requires Reports(ts, name, risk, approver) <==> Fires(g, name, risk, approver)
    requires forall t | t in ts :: Rank(t.risk) <= Rank(top.risk)
    requires forall t | t in ts && t.risk == top.risk :: ApproverRank(top.approver) <= ApproverRank(t.approver)
    ensures Fires(g, name, risk, approver) ==>
      Rank(risk) < Rank(top.risk) || (risk == top.risk && ApproverRank(top.approver) <= ApproverRank(approver))
  {
  }

  lemma {:induction false} OutcomeOfAnswer(kit: Kit, n: Context, threshold: real)
    requires n.cost.Finite?
    ensures var req, g := Answered(kit, n, threshold), Seen(n, threshold);
      && req.approver == NeededApprover(g) && Rank(req.risk) == Level(g) && (req.required <==> Level(g) > 0)
      && forall name, risk, approver :: Reports(req.triggered, name, risk, approver) <==> Fires(g, name, risk, approver)
  {
    var g, ts := Seen(n, threshold), Triggered(kit, n, Found(n), n.cost.usd, threshold);
    SeenIsFound(n, threshold);
    RiskOfAnswer(kit, n, threshold);
    forall name, risk, approver ensures Reports(ts, name, risk, approver) <==> Fires(g, name, risk, approver) {
      TriggeredReports(kit, n, Found(n), n.cost.usd, threshold, name, risk, approver);
    }
    LeastIsNeeded(ts, g);
    assert Answered(kit, n, threshold).triggered == ts;
  }

  /** The answer to any input that is accepted: the approver, the risk, whether approval is
      required, and which rules are reported, from what the normalised input holds. */
  lemma {:induction false} OutcomeExactly(kit: Kit, c: Context, threshold: Amount)
    requires Evaluated(kit, c, threshold).Ok?
    ensures var n, req := Normalized(c).value, Evaluated(kit, c, threshold).value;
      var g := Seen(n, threshold.usd);
      && req.approver == NeededApprover(g) && Rank(req.risk) == Level(g) && (req.required <==> Level(g) > 0)
      && forall name, risk, approver :: Reports(req.triggered, name, risk, approver) <==> Fires(g, name, risk, approver)
  {
    Answers(kit, c, threshold);
    OutcomeOfAnswer(kit, Normalized(c).value, threshold.usd);
  }

  lemma {:induction false} JoinHolds(parts: seq<string>, i: nat, separator: string)
    requires i < |parts|
    ensures Contains(Join(parts, separator), parts[i])
  {
    var all := Join(parts, separator);
    if |parts| == 1 {
      assert all[0..] == parts[0];
    } else if i == 0 {
      assert parts[0] <= all[0..];
    } else {
      JoinHolds(parts[1..], i - 1, separator);
      var rest := Join(parts[1..], separator);
      var k :| 0 <= k <= |rest| && parts[i] <= rest[k..];
      var at := |parts[0]| + |separator| + k;
      assert all[at..] == rest[k..];
    }
  }

  /** Every reported rule's reason is in the reason of the answer; without a rule it is the text
      for nothing. */
  lemma {:induction false} ReasonsAreGiven(kit: Kit, c: Context, threshold: Amount)
    requires Evaluated(kit, c, threshold).Ok?
    ensures var req := Evaluated(kit, c, threshold).value;
      && (forall t | t in req.triggered :: Contains(req.reason, t.reason))
      && (req.triggered == [] ==> req.reason == kit.wording(Nothing))
  {
    Answers(kit, c, threshold);
    var ts := Evaluated(kit, c, threshold).value.triggered;
    forall t | t in ts ensures Contains(Evaluated(kit, c, threshold).value.reason, t.reason) {
      var i :| 0 <= i < |ts| && ts[i] == t;
      JoinHolds(Map(ReasonOf, ts), i, "; ");
    }
  }
}
