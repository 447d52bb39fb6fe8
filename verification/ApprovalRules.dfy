/** The approval rules and their aggregation (backend/internal/approval/rules.go). Number
    and string formatting and the digest are parameters. */
module ApprovalRules {
  import opened Outcomes
  import opened Texts
  import opened Sorting
  import opened Manifests
  import opened ApprovalInput

  datatype Risk = Low | Medium | High | Critical

  datatype Approver = AdminRole | SecurityRole | FinanceRole

  datatype RuleName = Environment | CostRule | ResourceType | PublicExposure | PolicyRule | RoleRule

  datatype Rule = Rule(name: RuleName, reason: string, approver: Approver, risk: Risk)

  datatype Requirement = Requirement(
    required: bool, reason: string, approver: Option<Approver>, risk: Risk, triggered: seq<Rule>,
    digest: string, threshold: real, costSource: string)

  /** What a reason is about. */
  datatype Topic =
    | InProduction | CostExceeds(usd: real, threshold: real) | DatabaseDeleted | IamChanged | GroupOpened
    | Exposed | PolicyAsks | NoProvisioning(role: string) | NotDestructive(role: string) | Nothing

  /** The wording in force, and the digest of the input. */
  datatype Kit = Kit(wording: Topic -> string, digest: (Context, real) -> string)

  /** The engine's own wording, given how amounts and quoted strings are printed. */
  function Wording(money: real -> string, quote: string -> string, topic: Topic): string {
    match topic
    case InProduction => "production environment requires admin approval"
    case CostExceeds(usd, threshold) =>
      "estimated cost $" + money(usd) + "/month exceeds $" + money(threshold) + " approval threshold"
    case DatabaseDeleted => "database deletion requires admin approval"
    case IamChanged => "IAM changes require security approval"
    case GroupOpened => "security group open to the internet requires security approval"
    case Exposed => "public internet exposure requires security approval"
    case PolicyAsks => "policy decision requires approval"
    case NoProvisioning(role) => "role " + quote(role) + " cannot provision without admin approval"
    case NotDestructive(role) => "destructive changes by role " + quote(role) + " require admin approval"
    case Nothing => "no approval rules matched"
  }

  function EngineKit(money: real -> string, quote: string -> string, digest: (Context, real) -> string): Kit {
    Kit(topic => Wording(money, quote, topic), digest)
  }

  function Rank(r: Risk): nat {
    match r
    case Low => 0
    case Medium => 1
    case High => 2
    case Critical => 3
  }

  function ApproverRank(a: Approver): nat {
    match a
    case AdminRole => 0
    case SecurityRole => 1
    case FinanceRole => 2
  }

  predicate Mutating(action: string) {
    action in {"create", "update", "delete", "replace"}
  }

  predicate Destructive(action: string) {
    action in {"delete", "replace"}
  }

  predicate IsAwsDatabase(kind: string) {
    || HasPrefix(kind, "aws_db_instance") || HasPrefix(kind, "aws_db_cluster") || HasPrefix(kind, "aws_rds_cluster")
    || HasPrefix(kind, "aws_dynamodb_table") || HasPrefix(kind, "aws_docdb_cluster") || HasPrefix(kind, "aws_neptune_cluster")
    || HasPrefix(kind, "aws_redshift_cluster") || HasPrefix(kind, "aws_elasticache_cluster")
    || HasPrefix(kind, "aws_elasticache_replication_group") || HasPrefix(kind, "aws_memorydb_cluster")
    || HasPrefix(kind, "aws_opensearch_domain") || HasPrefix(kind, "aws_elasticsearch_domain")
    || HasPrefix(kind, "aws_timestreamwrite_database")
  }

  predicate IsGoogleDatabase(kind: string) {
    || HasPrefix(kind, "google_sql_") || HasPrefix(kind, "google_spanner_") || HasPrefix(kind, "google_bigtable_")
    || HasPrefix(kind, "google_firestore_database") || HasPrefix(kind, "google_alloydb_")
    || HasPrefix(kind, "google_redis_instance") || HasPrefix(kind, "google_bigquery_dataset")
    || HasPrefix(kind, "google_bigquery_table")
  }

  predicate IsAzureDatabase(kind: string) {
    || HasPrefix(kind, "azurerm_mssql_") || HasPrefix(kind, "azurerm_sql_") || HasPrefix(kind, "azurerm_postgresql_")
    || HasPrefix(kind, "azurerm_mysql_") || HasPrefix(kind, "azurerm_mariadb_") || HasPrefix(kind, "azurerm_cosmosdb_")
    || HasPrefix(kind, "azurerm_redis_cache")
  }

  predicate IsDatabase(kind: string) {
    HasPrefix(kind, "database.") || IsAwsDatabase(kind) || IsGoogleDatabase(kind) || IsAzureDatabase(kind)
  }

  predicate IsIam(kind: string) {
    Contains(kind, "iam") || HasPrefix(kind, "azurerm_role_") || HasPrefix(kind, "azuread_")
  }

  predicate IsFirewall(kind: string) {
    || Contains(kind, "security_group") || Contains(kind, "firewall") || Contains(kind, "network_security_rule")
    || HasSuffix(kind, ".nsg")
  }

  predicate Outgoing(members: map<string, Json>, field: string) {
    field in members && members[field].Text? && Lower(members[field].s) in {"egress", "outbound"}
  }

  predicate Denying(members: map<string, Json>) {
    "access" in members && members["access"].Text? && Lower(members["access"].s) == "deny"
  }

  predicate SkippedKey(key: string) {
    Contains(key, "egress") || Contains(key, "outbound") || Contains(key, "destination")
  }

  /** A source that means anywhere; the words count only under a source prefix key. */
  predicate Anywhere(s: string, key: string) {
    || Canonical(s) in {"0.0.0.0/0", "::/0"}
    || (Contains(key, "source_address_prefix") && Canonical(s) in {"*", "internet", "any"})
  }

  /** Some inbound allow rule from anywhere. */
  predicate WideOpen(v: Json, key: string)
    decreases v
  {
    match v
    case Object(members) =>
      && !Outgoing(members, "direction") && !Outgoing(members, "type") && !Denying(members)
      && exists k | k in members :: !SkippedKey(Lower(k)) && WideOpen(members[k], Lower(k))
    case List(items) => exists i | 0 <= i < |items| :: WideOpen(items[i], key)
    case Text(s) => Anywhere(s, key)
    case _ => false
  }

  /** A place in a JSON value: member names and positions, from the outside in. */
  datatype Hop = Member(name: string) | Item(index: nat)

  /** The path leads to a text that means anywhere, and passes no object that is outgoing or
      denying and no skipped member. */
  predicate OpenPath(v: Json, key: string, path: seq<Hop>)
    decreases path
  {
    if path == [] then v.Text? && Anywhere(v.s, key)
    else
      match path[0]
      case Member(k) =>
        && v.Object? && k in v.members && !SkippedKey(Lower(k))
        && !Outgoing(v.members, "direction") && !Outgoing(v.members, "type") && !Denying(v.members)
        && OpenPath(v.members[k], Lower(k), path[1..])
      case Item(i) => v.List? && i < |v.items| && OpenPath(v.items[i], key, path[1..])
  }

  lemma {:induction false} OpenHasPath(v: Json, key: string) returns (path: seq<Hop>)
    requires WideOpen(v, key)
    ensures OpenPath(v, key, path)
    decreases v
  {
    match v
    case Object(members) =>
      var k :| k in members && !SkippedKey(Lower(k)) && WideOpen(members[k], Lower(k));
      var rest := OpenHasPath(members[k], Lower(k));
      path := [Member(k)] + rest;
      assert path[1..] == rest;
    case List(items) =>
      var i: nat :| i < |items| && WideOpen(items[i], key);
      var rest := OpenHasPath(items[i], key);
      path := [Item(i)] + rest;
      assert path[1..] == rest;
    case _ =>
      path := [];
  }

  lemma {:induction false} PathOpens(v: Json, key: string, path: seq<Hop>)
    requires OpenPath(v, key, path)
    ensures WideOpen(v, key)
    decreases path
  {
    if path == [] {
      assert v == Text(v.s);
    } else {
      match path[0]
      case Member(k) =>
        PathOpens(v.members[k], Lower(k), path[1..]);
        assert v == Object(v.members);
      case Item(i) =>
        PathOpens(v.items[i], key, path[1..]);
        assert v == List(v.items);
    }
  }

  /** The recursive walk finds exactly the open paths. */
  lemma {:induction false} WideOpenHasPath(v: Json, key: string)
    ensures WideOpen(v, key) ==> exists path :: OpenPath(v, key, path)
    ensures forall path :: OpenPath(v, key, path) ==> WideOpen(v, key)
  {
    if WideOpen(v, key) {
      var path := OpenHasPath(v, key);
      assert OpenPath(v, key, path);
    }
    forall path | OpenPath(v, key, path) ensures WideOpen(v, key) {
      PathOpens(v, key, path);
    }
  }

  predicate DatabaseDeletion(c: Change) {
    Destructive(c.action) && IsDatabase(c.kind)
  }

  predicate IamChange(c: Change) {
    Mutating(c.action) && IsIam(c.kind)
  }

  predicate OpenGroup(c: Change) {
    Mutating(c.action) && c.action != "delete" && IsFirewall(c.kind) && WideOpen(Object(c.properties), "")
  }

  predicate Exposure(c: Change) {
    c.exposed && Mutating(c.action) && c.action != "delete"
  }

  predicate AnyMutation(c: Change) {
    Mutating(c.action)
  }

  predicate AnyDestruction(c: Change) {
    Destructive(c.action)
  }

  predicate NeedsApproval(v: Violation) {
    v.severity == "approval"
  }

  function AddressOf(c: Change): string {
    c.address
  }

  function RuleKeyOf(v: Violation): string {
    v.ruleKey
  }

  /** The addresses of the changes a rule picks out, in list order. */
  function Selected(p: Change -> bool, cs: seq<Change>): seq<string> {
    Map(AddressOf, Filter(p, cs))
  }

  /** First occurrences only. */
  function Distinct(keys: seq<string>): seq<string> {
    if keys == [] then []
    else
      var front, last := Distinct(keys[..|keys| - 1]), keys[|keys| - 1];
      if last in front then front else front + [last]
  }

  function ApprovalKeys(vs: seq<Violation>): seq<string> {
    Distinct(Map(RuleKeyOf, Filter(NeedsApproval, vs)))
  }

  /** What the rules see of the changes and violations. */
  datatype Findings = Findings(
    deletions: seq<string>, iam: seq<string>, open: seq<string>, exposures: seq<string>, keys: seq<string>,
    mutates: bool, destroys: bool)

  function Found(n: Context): Findings {
    Findings(Selected(DatabaseDeletion, n.changes), Selected(IamChange, n.changes), Selected(OpenGroup, n.changes),
             Selected(Exposure, n.changes), ApprovalKeys(n.violations),
             Filter(AnyMutation, n.changes) != [], Filter(AnyDestruction, n.changes) != [])
  }

  predicate Production(n: Context) {
    n.environment == "prod" || n.workspaceEnvironment == "prod"
  }

  function Named(reason: string, names: seq<string>): string {
    if names == [] then reason else reason + ": " + Join(names, ", ")
  }

  function CheckEnvironment(kit: Kit, production: bool): seq<Rule> {
    if production then [Rule(Environment, kit.wording(InProduction), AdminRole, High)] else []
  }

  function CheckCost(kit: Kit, usd: real, threshold: real): seq<Rule> {
    if usd <= threshold then []
    else [Rule(CostRule, kit.wording(CostExceeds(usd, threshold)), FinanceRole, if usd >= threshold * 5.0 then High else Medium)]
  }

  function DeletionRule(kit: Kit, f: Findings): Rule {
    Rule(ResourceType, Named(kit.wording(DatabaseDeleted), f.deletions), AdminRole, Critical)
  }

  function IamRule(kit: Kit, f: Findings): Rule {
    Rule(ResourceType, Named(kit.wording(IamChanged), f.iam), SecurityRole, High)
  }

  function OpenRule(kit: Kit, f: Findings): Rule {
    Rule(ResourceType, Named(kit.wording(GroupOpened), f.open), SecurityRole, High)
  }

  function CheckResourceTypes(kit: Kit, f: Findings): seq<Rule> {
    (if f.deletions == [] then [] else [DeletionRule(kit, f)])
    + (if f.iam == [] then [] else [IamRule(kit, f)])
    + (if f.open == [] then [] else [OpenRule(kit, f)])
  }

  function CheckPublic(kit: Kit, exposed: bool, f: Findings): seq<Rule> {
    if !exposed && f.exposures == [] then []
    else [Rule(PublicExposure, Named(kit.wording(Exposed), f.exposures), SecurityRole, High)]
  }

  function CheckPolicy(kit: Kit, decision: string, f: Findings): seq<Rule> {
    if decision != "REQUIRES_APPROVAL" && f.keys == [] then []
    else [Rule(PolicyRule, Named(kit.wording(PolicyAsks), f.keys), SecurityRole, Medium)]
  }

  function CheckRole(kit: Kit, role: string, f: Findings): seq<Rule> {
    var shown := if role == "" then "unknown" else role;
    if role == "admin" then []
    else if role != "engineer" && f.mutates then [Rule(RoleRule, kit.wording(NoProvisioning(shown)), AdminRole, Medium)]
    else if f.destroys then [Rule(RoleRule, kit.wording(NotDestructive(shown)), AdminRole, Medium)]
    else []
  }

  /** The triggered rules, in evaluation order. */
  function Triggered(kit: Kit, n: Context, f: Findings, usd: real, threshold: real): seq<Rule> {
    CheckEnvironment(kit, Production(n)) + CheckCost(kit, usd, threshold) + CheckResourceTypes(kit, f)
    + CheckPublic(kit, n.exposed, f) + CheckPolicy(kit, n.decision, f) + CheckRole(kit, n.userRole, f)
  }

  function ReasonOf(r: Rule): string {
    r.reason
  }

  function MaxRisk(ts: seq<Rule>): Risk {
    if ts == [] then Low
    else
      var m, last := MaxRisk(ts[..|ts| - 1]), ts[|ts| - 1].risk;
      if Rank(last) > Rank(m) then last else m
  }

  predicate Beats(t: Rule, top: Rule) {
    Rank(t.risk) > Rank(top.risk) || (t.risk == top.risk && ApproverRank(t.approver) < ApproverRank(top.approver))
  }

  function Top(ts: seq<Rule>): Rule
    requires ts != []
  {
    if |ts| == 1 then ts[0]
    else if Beats(ts[|ts| - 1], Top(ts[..|ts| - 1])) then ts[|ts| - 1]
    else Top(ts[..|ts| - 1])
  }

  function CountHigh(ts: seq<Rule>): nat {
    if ts == [] then 0 else CountHigh(ts[..|ts| - 1]) + if ts[|ts| - 1].risk == High then 1 else 0
  }

  predicate HasEnvironment(ts: seq<Rule>) {
    exists i | 0 <= i < |ts| :: ts[i].name == Environment
  }

  function FinalRisk(ts: seq<Rule>): Risk {
    if HasEnvironment(ts) && MaxRisk(ts) == High && CountHigh(ts) > 1 then Critical else MaxRisk(ts)
  }

  function Aggregated(ts: seq<Rule>, base: Requirement): Requirement {
    if ts == [] then base
    else base.(required := true, triggered := ts, risk := FinalRisk(ts), approver := Some(Top(ts).approver),
               reason := Join(Map(ReasonOf, ts), "; "))
  }

  function Base(kit: Kit, n: Context, threshold: real): Requirement {
    Requirement(false, kit.wording(Nothing), None, Low, [], kit.digest(n, threshold), threshold, n.costSource)
  }

  /** The engine's answer for a normalised input. */
  function Answered(kit: Kit, n: Context, threshold: real): Requirement
    requires n.cost.Finite?
  {
    Aggregated(Triggered(kit, n, Found(n), n.cost.usd, threshold), Base(kit, n, threshold))
  }

  /** What becomes of a normalised input, or of the reason there is none. */
  function Judged(kit: Kit, n: Result<Context, Problem>, threshold: Amount): Result<Requirement, Problem> {
    if n.Err? then Err(n.error)
    else if !threshold.Finite? || threshold.usd < 0.0 then Err(BadThreshold)
    else if !n.value.cost.Finite? then Err(BadCost)
    else Ok(Answered(kit, n.value, threshold.usd))
  }

  function Evaluated(kit: Kit, c: Context, threshold: Amount): Result<Requirement, Problem> {
    Judged(kit, Normalized(c), threshold)
  }

  lemma {:induction false} TallyStep(ts: seq<Rule>, i: nat)
    requires i < |ts|
    ensures var t, m := ts[i], MaxRisk(ts[..i]);
      && MaxRisk(ts[..i + 1]) == (if Rank(t.risk) > Rank(m) then t.risk else m)
      && CountHigh(ts[..i + 1]) == CountHigh(ts[..i]) + (if t.risk == High then 1 else 0)
      && Top(ts[..i + 1]) == if i == 0 then t else if Beats(t, Top(ts[..i])) then t else Top(ts[..i])
  {
    assert ts[..i + 1][..i] == ts[..i];
  }

  /** One pass over the triggered rules. */
  method Aggregate(ts: seq<Rule>, base: Requirement) returns (req: Requirement)
    requires base.risk == Low
    ensures req == Aggregated(ts, base)
  {
    req := base;
    if |ts| == 0 {
      return;
    }
    var reasons: seq<string> := [];
    var top, risk, production, high := ts[0], Low, false, 0;
    for i := 0 to |ts|
      invariant |reasons| == i && forall k | 0 <= k < i :: reasons[k] == ts[k].reason
      invariant i == 0 ==> top == ts[0]
      invariant i > 0 ==> top == Top(ts[..i])
      invariant risk == MaxRisk(ts[..i]) && high == CountHigh(ts[..i])
      invariant production <==> exists k | 0 <= k < i :: ts[k].name == Environment
    {
      var t := ts[i];
      TallyStep(ts, i);
      reasons := reasons + [t.reason];
      if Rank(t.risk) > Rank(risk) {
        risk := t.risk;
      }
      if Beats(t, top) {
        top := t;
      }
      if t.name == Environment {
        production := true;
      }
      if t.risk == High {
        high := high + 1;
      }
    }
    assert ts[..|ts|] == ts;
    assert reasons == Map(ReasonOf, ts);
    if production && risk == High && high > 1 {
      risk := Critical;
    }
    req := req.(required := true, triggered := ts, risk := risk, approver := Some(top.approver), reason := Join(reasons, "; "));
  }

  /** One pass over the changes for the three resource-type categories. */
  method CollectResourceTypes(cs: seq<Change>) returns (deletions: seq<string>, iam: seq<string>, open: seq<string>)
    ensures deletions == Selected(DatabaseDeletion, cs) && iam == Selected(IamChange, cs) && open == Selected(OpenGroup, cs)
  {
    deletions, iam, open := [], [], [];
    for i := 0 to |cs|
      invariant deletions == Selected(DatabaseDeletion, cs[..i])
      invariant iam == Selected(IamChange, cs[..i])
      invariant open == Selected(OpenGroup, cs[..i])
    {
      var c := cs[i];
      assert cs[..i + 1] == cs[..i] + [c];
      SelectedStep(DatabaseDeletion, cs[..i], c);
      SelectedStep(IamChange, cs[..i], c);
      SelectedStep(OpenGroup, cs[..i], c);
      if DatabaseDeletion(c) {
        deletions := deletions + [c.address];
      }
      if IamChange(c) {
        iam := iam + [c.address];
      }
      if OpenGroup(c) {
        open := open + [c.address];
      }
    }
    assert cs[..|cs|] == cs;
  }

  lemma {:induction false} SelectedStep(p: Change -> bool, cs: seq<Change>, c: Change)
    ensures Selected(p, cs + [c]) == Selected(p, cs) + if p(c) then [c.address] else []
  {
    FilterSplit(p, cs, [c]);
    assert Filter(p, [c]) == if p(c) then [c] else [];
    MapSplit(AddressOf, Filter(p, cs), Filter(p, [c]));
  }

  lemma {:induction false} KeysStep(vs: seq<Violation>, v: Violation)
    ensures ApprovalKeys(vs + [v]) ==
            ApprovalKeys(vs) + if NeedsApproval(v) && v.ruleKey !in ApprovalKeys(vs) then [v.ruleKey] else []
  {
    FilterSplit(NeedsApproval, vs, [v]);
    var kept := Filter(NeedsApproval, vs);
    var before := Map(RuleKeyOf, kept);
    if NeedsApproval(v) {
      assert Filter(NeedsApproval, [v]) == [v];
      MapSplit(RuleKeyOf, kept, [v]);
      assert Map(RuleKeyOf, [v]) == [v.ruleKey];
      assert (before + [v.ruleKey])[..|before|] == before;
    } else {
      assert Filter(NeedsApproval, [v]) == [];
      assert kept + [] == kept;
    }
  }

  /** The loop with the `seen` set. */
  method CollectKeys(vs: seq<Violation>) returns (keys: seq<string>)
    ensures keys == ApprovalKeys(vs)
  {
    keys := [];
    var seen: set<string> := {};
    for i := 0 to |vs|
      invariant keys == ApprovalKeys(vs[..i]) && forall k :: k in seen <==> k in keys
    {
      var v := vs[i];
      assert vs[..i + 1] == vs[..i] + [v];
      KeysStep(vs[..i], v);
      if v.severity == "approval" && v.ruleKey !in seen {
        seen := seen + {v.ruleKey};
        keys := keys + [v.ruleKey];
      }
    }
    assert vs[..|vs|] == vs;
  }

  method Evaluate(kit: Kit, c: Context, threshold: Amount) returns (out: Result<Requirement, Problem>)
    ensures out == Evaluated(kit, c, threshold)
  {
    var normal := Normalize(c);
    if normal.Err? {
      return Err(normal.error);
    }
    if !threshold.Finite? || threshold.usd < 0.0 {
      return Err(BadThreshold);
    }
    var n := normal.value;
    assert ProblemOf(c).None?;
    var deletions, iam, open := CollectResourceTypes(n.changes);
    var keys := CollectKeys(n.violations);
    var found := Findings(deletions, iam, open, Selected(Exposure, n.changes), keys,
                          |Filter(AnyMutation, n.changes)| > 0, |Filter(AnyDestruction, n.changes)| > 0);
    var req := Aggregate(Triggered(kit, n, found, n.cost.usd, threshold.usd), Base(kit, n, threshold.usd));
    return Ok(req);
  }
}

/** Risk as arithmetic: which rules fire determines the level. */
module RiskLevels {
  /** Which rules fire, without their wording. `cost` is 0, 1 or 2. */
  datatype Flags = Flags(
    production: bool, cost: nat, deletion: bool, iam: bool, open: bool, exposed: bool, policy: bool, role: bool)

  predicate OtherHigh(g: Flags) {
    g.cost == 2 || g.iam || g.open || g.exposed
  }

  /** The risk in one expression: critical for a database deletion or for production with
      another high-risk rule. */
  function Level(g: Flags): nat {
    if g.deletion || (g.production && OtherHigh(g)) then 3
    else if g.production || OtherHigh(g) then 2
    else if g.cost == 1 || g.policy || g.role then 1
    else 0
  }
}

/** What the approval engine guarantees. */
module ApprovalProperties {
  import opened Outcomes
  import opened Texts
  import opened Sorting
  import opened Manifests
  import opened ApprovalInput
  import opened ApprovalRules
  import opened RiskLevels

  /** The chosen approver's rule has the highest risk of all, and among the rules of that
      risk the least approver rank. */
  lemma {:induction false} TopIsLeast(ts: seq<Rule>)
    requires ts != []
    ensures Top(ts) in ts
    ensures forall t | t in ts :: Rank(t.risk) <= Rank(Top(ts).risk)
    ensures forall t | t in ts && t.risk == Top(ts).risk :: ApproverRank(Top(ts).approver) <= ApproverRank(t.approver)
    ensures (forall t | t in ts :: t.risk != Low) ==> MaxRisk(ts) == Top(ts).risk
  {
    if |ts| > 1 {
      var front, last := ts[..|ts| - 1], ts[|ts| - 1];
      assert ts == front + [last];
      TopIsLeast(front);
      assert (forall t | t in ts :: t.risk != Low) ==> forall t | t in front :: t.risk != Low;
    } else {
      assert ts[..0] == [];
    }
  }

  function CostFlag(usd: real, threshold: real): nat {
    if usd <= threshold then 0 else if usd >= threshold * 5.0 then 2 else 1
  }

  predicate RoleFlag(role: string, f: Findings) {
    role != "admin" && ((role != "engineer" && f.mutates) || f.destroys)
  }

  function FlagsOf(n: Context, f: Findings, usd: real, threshold: real): Flags {
    Flags(Production(n), CostFlag(usd, threshold), f.deletions != [], f.iam != [], f.open != [],
          n.exposed || f.exposures != [], n.decision == "REQUIRES_APPROVAL" || f.keys != [], RoleFlag(n.userRole, f))
  }

  ghost predicate HighOther(ts: seq<Rule>) {
    exists t :: t in ts && t.risk == High && t.name != Environment
  }

  ghost predicate HasRisk(ts: seq<Rule>, risk: Risk) {
    exists t :: t in ts && t.risk == risk
  }

  /** The highest risk is that of some rule, and none is above it. */
  lemma {:induction false} MaxRiskIsHighest(ts: seq<Rule>)
    ensures forall t | t in ts :: Rank(t.risk) <= Rank(MaxRisk(ts))
    ensures MaxRisk(ts) == Low || HasRisk(ts, MaxRisk(ts))
  {
    if ts != [] {
      var front, last := ts[..|ts| - 1], ts[|ts| - 1];
      assert ts == front + [last];
      MaxRiskIsHighest(front);
      assert last in ts && forall t | t in front :: t in ts;
    }
  }

  /** More than one high-risk rule is counted when there are two places with one. */
  lemma {:induction false} TwoHigh(ts: seq<Rule>)
    ensures CountHigh(ts) > 0 <==> exists i | 0 <= i < |ts| :: ts[i].risk == High
    ensures CountHigh(ts) > 1 <==> exists i, j | 0 <= i < j < |ts| :: ts[i].risk == High && ts[j].risk == High
  {
    if ts != [] {
      var front, last := ts[..|ts| - 1], ts[|ts| - 1];
      TwoHigh(front);
      assert forall i | 0 <= i < |front| :: front[i] == ts[i];
      if i, j :| 0 <= i < j < |ts| && ts[i].risk == High && ts[j].risk == High {
        assert front[i].risk == High;
        assert j < |front| ==> front[j].risk == High;
      }
    }
  }

  /** Behind at most one environment rule, escalation asks for a second high-risk rule. */
  lemma {:induction false} EscalatesExactly(e: seq<Rule>, rest: seq<Rule>)
    requires |e| <= 1 && (forall t | t in e :: t.name == Environment && t.risk == High)
    requires forall t | t in rest :: t.name != Environment
    ensures HasEnvironment(e + rest) <==> e != []
    ensures HighOther(e + rest) <==> HasRisk(rest, High)
    ensures e != [] ==> (CountHigh(e + rest) > 1 <==> HasRisk(rest, High))
  {
    var ts := e + rest;
    assert forall t :: t in ts <==> t in e || t in rest;
    assert forall i | |e| <= i < |ts| :: ts[i] == rest[i - |e|] && ts[i] in rest;
    assert e != [] ==> ts[0] == e[0] && e[0] in e;
    TwoHigh(ts);
    if HasRisk(rest, High) {
      var t :| t in rest && t.risk == High;
      var k :| 0 <= k < |rest| && rest[k] == t;
      assert ts[|e| + k].risk == High;
    }
  }

  /** The final risk by what is in the list. */
  lemma {:induction false} FinalRiskExactly(e: seq<Rule>, rest: seq<Rule>)
    requires |e| <= 1 && (forall t | t in e :: t.name == Environment && t.risk == High)
    requires forall t | t in rest :: t.name != Environment && t.risk != Low
    ensures Rank(FinalRisk(e + rest)) ==
      if HasRisk(rest, Critical) || (e != [] && HasRisk(rest, High)) then 3
      else if e != [] || HasRisk(rest, High) then 2
      else if rest != [] then 1 else 0
  {
    var ts := e + rest;
    EscalatesExactly(e, rest);
    MaxRiskIsHighest(ts);
    assert forall t :: t in ts <==> t in e || t in rest;
    assert e != [] ==> e[0] in e && e[0] in ts;
    assert rest != [] ==> rest[0] in rest && rest[0] in ts;
  }

  function Rest(kit: Kit, n: Context, f: Findings, usd: real, threshold: real): seq<Rule> {
    CheckCost(kit, usd, threshold) + CheckResourceTypes(kit, f) + CheckPublic(kit, n.exposed, f)
    + CheckPolicy(kit, n.decision, f) + CheckRole(kit, n.userRole, f)
  }

  /** Which risks the checks beside the environment's give depends on which of them fire. */
  lemma {:induction false} RestHas(kit: Kit, n: Context, f: Findings, usd: real, threshold: real)
    ensures var ts, g := Rest(kit, n, f, usd, threshold), FlagsOf(n, f, usd, threshold);
      && (forall t | t in ts :: t.name != Environment && t.risk != Low)
      && (HasRisk(ts, Critical) <==> g.deletion) && (HasRisk(ts, High) <==> OtherHigh(g))
      && (ts == [] <==> g.cost == 0 && !g.deletion && !g.iam && !g.open && !g.exposed && !g.policy && !g.role)
  {
    var c, t, x := CheckCost(kit, usd, threshold), CheckResourceTypes(kit, f), CheckPublic(kit, n.exposed, f);
    var p, r := CheckPolicy(kit, n.decision, f), CheckRole(kit, n.userRole, f);
    RisksSplit(c, t);
    RisksSplit(c + t, x);
    RisksSplit(c + t + x, p);
    RisksSplit(c + t + x + p, r);
    TypesHave(kit, f);
    OneHas(c);
    OneHas(x);
    OneHas(p);
    OneHas(r);
  }

  lemma {:induction false} RisksSplit(a: seq<Rule>, b: seq<Rule>)
    ensures HasRisk(a + b, Critical) <==> HasRisk(a, Critical) || HasRisk(b, Critical)
    ensures HasRisk(a + b, High) <==> HasRisk(a, High) || HasRisk(b, High)
    ensures forall t :: t in a + b <==> t in a || t in b
  {
    assert forall t :: t in a + b <==> t in a || t in b;
  }

  lemma OneHas(ts: seq<Rule>)
    requires |ts| <= 1
    ensures forall risk :: HasRisk(ts, risk) <==> ts != [] && ts[0].risk == risk
  {
    if ts != [] {
      assert ts[0] in ts;
    }
  }

  lemma {:induction false} TypesHave(kit: Kit, f: Findings)
    ensures var ts := CheckResourceTypes(kit, f);
      && (forall t | t in ts :: t.name != Environment && t.risk != Low)
      && (HasRisk(ts, Critical) <==> f.deletions != []) && (HasRisk(ts, High) <==> f.iam != [] || f.open != [])
      && (ts == [] <==> f.deletions == [] && f.iam == [] && f.open == [])
  {
    var a := if f.deletions == [] then [] else [DeletionRule(kit, f)];
    var b := if f.iam == [] then [] else [IamRule(kit, f)];
    var c := if f.open == [] then [] else [OpenRule(kit, f)];
    RisksSplit(a, b);
    RisksSplit(a + b, c);
    OneHas(a);
    OneHas(b);
    OneHas(c);
  }

  /** Rule order and wording aside, the risk is the level of the flags. */
  lemma {:induction false} RiskIsLevel(kit: Kit, n: Context, f: Findings, usd: real, threshold: real)
    ensures var ts, g := Triggered(kit, n, f, usd, threshold), FlagsOf(n, f, usd, threshold);
      Rank(FinalRisk(ts)) == Level(g) && (ts == [] <==> Level(g) == 0) && (HighOther(ts) <==> OtherHigh(g))
  {
    var e, rest := CheckEnvironment(kit, Production(n)), Rest(kit, n, f, usd, threshold);
    RestHas(kit, n, f, usd, threshold);
    EscalatesExactly(e, rest);
    FinalRiskExactly(e, rest);
    TriggeredParts(kit, n, f, usd, threshold);
  }

  lemma {:induction false} TriggeredParts(kit: Kit, n: Context, f: Findings, usd: real, threshold: real)
    ensures Triggered(kit, n, f, usd, threshold) == CheckEnvironment(kit, Production(n)) + Rest(kit, n, f, usd, threshold)
  {
    var e, c, t := CheckEnvironment(kit, Production(n)), CheckCost(kit, usd, threshold), CheckResourceTypes(kit, f);
    FirstApart(e, c, t, CheckPublic(kit, n.exposed, f), CheckPolicy(kit, n.decision, f), CheckRole(kit, n.userRole, f));
  }

  lemma FirstApart<T>(a: seq<T>, b: seq<T>, c: seq<T>, d: seq<T>, e: seq<T>, f: seq<T>)
    ensures a + b + c + d + e + f == a + (b + c + d + e + f)
  {
  }

  lemma {:induction false} SelectedSome(p: Change -> bool, cs: seq<Change>)
    ensures Selected(p, cs) != [] <==> exists x :: x in cs && p(x)
  {
    var kept := Filter(p, cs);
    assert |Selected(p, cs)| == |kept|;
    if kept != [] {
      assert kept[0] in kept;
    }
  }

  lemma {:induction false} RiskOfAnswer(kit: Kit, n: Context, threshold: real)
    requires n.cost.Finite?
    ensures var req, level := Answered(kit, n, threshold), Level(FlagsOf(n, Found(n), n.cost.usd, threshold));
      Rank(req.risk) == level && (req.required <==> level > 0) && (req.approver.Some? <==> req.required)
  {
    var f := Found(n);
    RiskIsLevel(kit, n, f, n.cost.usd, threshold);
    RiskOfAggregate(Triggered(kit, n, f, n.cost.usd, threshold), Base(kit, n, threshold));
  }

  lemma RiskOfAggregate(ts: seq<Rule>, base: Requirement)
    requires !base.required && base.risk == Low && base.approver == None
    ensures var req := Aggregated(ts, base);
      Rank(req.risk) == Rank(FinalRisk(ts)) && (req.required <==> ts != []) && (req.approver.Some? <==> req.required)
  {
  }

  lemma Answers(kit: Kit, c: Context, threshold: Amount)
    requires Evaluated(kit, c, threshold).Ok?
    ensures Normalized(c).Ok? && Normalized(c).value.cost.Finite? && threshold.Finite? && 0.0 <= threshold.usd
    ensures Evaluated(kit, c, threshold).value == Answered(kit, Normalized(c).value, threshold.usd)
  {
  }

  /** The answer's risk is the level of what the normalised input contains, and approval is
      required exactly when the level is not the lowest. */
  lemma {:induction false} RiskExactly(kit: Kit, c: Context, threshold: Amount)
    requires Evaluated(kit, c, threshold).Ok?
    ensures var n, req := Normalized(c).value, Evaluated(kit, c, threshold).value;
      var level := Level(FlagsOf(n, Found(n), n.cost.usd, threshold.usd));
      Rank(req.risk) == level && (req.required <==> level > 0) && (req.approver.Some? <==> req.required)
  {
    Answers(kit, c, threshold);
    RiskOfAnswer(kit, Normalized(c).value, threshold.usd);
  }

  /** The approver of an answer is the least-ranked role among the riskiest rules. */
  lemma {:induction false} ApproverIsLeast(kit: Kit, c: Context, threshold: Amount)
    requires Evaluated(kit, c, threshold).Ok? && Evaluated(kit, c, threshold).value.required
    ensures var req := Evaluated(kit, c, threshold).value;
      exists top | top in req.triggered ::
        && req.approver == Some(top.approver)
        && (forall t | t in req.triggered :: Rank(t.risk) <= Rank(top.risk))
        && (forall t | t in req.triggered && t.risk == top.risk :: ApproverRank(top.approver) <= ApproverRank(t.approver))
  {
    var n := Normalized(c).value;
    var ts := Triggered(kit, n, Found(n), n.cost.usd, threshold.usd);
    TopIsLeast(ts);
  }

  lemma {:induction false} CriticalOfAnswer(kit: Kit, n: Context, threshold: real)
    requires n.cost.Finite?
    ensures var req := Answered(kit, n, threshold);
      req.risk == Critical <==>
        || (exists x :: x in n.changes && DatabaseDeletion(x))
        || (Production(n) && HighOther(req.triggered))
  {
    RiskOfAnswer(kit, n, threshold);
    RiskIsLevel(kit, n, Found(n), n.cost.usd, threshold);
    SelectedSome(DatabaseDeletion, n.changes);
    var ts := Triggered(kit, n, Found(n), n.cost.usd, threshold);
    assert Answered(kit, n, threshold).triggered == ts;
  }

  /** Critical risk means a database is deleted or replaced, or production meets another
      high-risk rule; and nothing else. */
  lemma {:induction false} CriticalExactly(kit: Kit, c: Context, threshold: Amount)
    requires Evaluated(kit, c, threshold).Ok?
    ensures var n, req := Normalized(c).value, Evaluated(kit, c, threshold).value;
      req.risk == Critical <==>
        || (exists x :: x in n.changes && DatabaseDeletion(x))
        || (Production(n) && exists t :: t in req.triggered && t.risk == High && t.name != Environment)
  {
    Answers(kit, c, threshold);
    CriticalOfAnswer(kit, Normalized(c).value, threshold.usd);
  }

  lemma {:induction false} SelectionOrderFree(p: Change -> bool, a: seq<Change>, b: seq<Change>)
    requires SortedBy(ByChange, a) && SortedBy(ByChange, b) && multiset(a) == multiset(b)
    ensures Selected(p, a) == Selected(p, b)
    ensures Filter(p, a) == [] <==> Filter(p, b) == []
  {
    var x, y := Filter(p, a), Filter(p, b);
    FilterSorted(ByChange, p, a);
    FilterSorted(ByChange, p, b);
    FilterMultiset(p, a, b);
    MapMultiset(AddressOf, x, y);
    SortedAddresses(x);
    SortedAddresses(y);
    forall s, t | s in Selected(p, a) && t in Selected(p, a) && AtMost(s, t) && AtMost(t, s) ensures s == t {
      AtMostAntisymmetric(s, t);
    }
    SortedUnique(AtMost, Selected(p, a), Selected(p, b));
    assert |Selected(p, a)| == |x| && |Selected(p, b)| == |y|;
  }

  lemma {:induction false} SortedAddresses(cs: seq<Change>)
    requires SortedBy(ByChange, cs)
    ensures SortedBy(AtMost, Map(AddressOf, cs))
  {
    forall i, j | 0 <= i < j < |cs| ensures AtMost(cs[i].address, cs[j].address) {
      assert ByChange(cs[i], cs[j]);
      KeyAtMostTotal(ChangeKey(cs[i]), ChangeKey(cs[j]));
    }
  }

  lemma {:induction false} KeysOrderFree(a: seq<Violation>, b: seq<Violation>)
    requires SortedBy(ByViolation, a) && SortedBy(ByViolation, b) && multiset(a) == multiset(b)
    ensures ApprovalKeys(a) == ApprovalKeys(b)
  {
    var x, y := Filter(NeedsApproval, a), Filter(NeedsApproval, b);
    FilterSorted(ByViolation, NeedsApproval, a);
    FilterSorted(ByViolation, NeedsApproval, b);
    FilterMultiset(NeedsApproval, a, b);
    MapMultiset(RuleKeyOf, x, y);
    SortedKeys(x);
    SortedKeys(y);
    forall s, t | s in Map(RuleKeyOf, x) && t in Map(RuleKeyOf, x) && AtMost(s, t) && AtMost(t, s) ensures s == t {
      AtMostAntisymmetric(s, t);
    }
    SortedUnique(AtMost, Map(RuleKeyOf, x), Map(RuleKeyOf, y));
  }

  lemma {:induction false} SortedKeys(vs: seq<Violation>)
    requires SortedBy(ByViolation, vs)
    ensures SortedBy(AtMost, Map(RuleKeyOf, vs))
  {
    forall i, j | 0 <= i < j < |vs| ensures AtMost(vs[i].ruleKey, vs[j].ruleKey) {
      assert ByViolation(vs[i], vs[j]);
      KeyAtMostTotal(ViolationKey(vs[i]), ViolationKey(vs[j]));
    }
  }

  lemma {:induction false} SortedAlike(cs: seq<Change>, ds: seq<Change>, vs: seq<Violation>, ws: seq<Violation>)
    requires multiset(cs) == multiset(ds) && multiset(vs) == multiset(ws)
    ensures SortedBy(ByChange, NormalChanges(cs)) && SortedBy(ByChange, NormalChanges(ds))
    ensures multiset(NormalChanges(cs)) == multiset(NormalChanges(ds))
    ensures SortedBy(ByViolation, Sort(ByViolation, vs)) && SortedBy(ByViolation, Sort(ByViolation, ws))
    ensures multiset(Sort(ByViolation, vs)) == multiset(Sort(ByViolation, ws))
  {
    OrdersAreTotal();
    MapMultiset(NormalChange, cs, ds);
    SortSorts(ByChange, Map(NormalChange, cs));
    SortSorts(ByChange, Map(NormalChange, ds));
    SortPermutes(ByChange, Map(NormalChange, cs));
    SortPermutes(ByChange, Map(NormalChange, ds));
    SortSorts(ByViolation, vs);
    SortSorts(ByViolation, ws);
    SortPermutes(ByViolation, vs);
    SortPermutes(ByViolation, ws);
  }

  lemma {:induction false} FindingsOrderFree(n: Context, m: Context)
    requires SortedBy(ByChange, n.changes) && SortedBy(ByChange, m.changes) && multiset(n.changes) == multiset(m.changes)
    requires SortedBy(ByViolation, n.violations) && SortedBy(ByViolation, m.violations)
    requires multiset(n.violations) == multiset(m.violations)
    ensures Found(n) == Found(m)
  {
    SelectionOrderFree(DatabaseDeletion, n.changes, m.changes);
    SelectionOrderFree(IamChange, n.changes, m.changes);
    SelectionOrderFree(OpenGroup, n.changes, m.changes);
    SelectionOrderFree(Exposure, n.changes, m.changes);
    SelectionOrderFree(AnyMutation, n.changes, m.changes);
    SelectionOrderFree(AnyDestruction, n.changes, m.changes);
    KeysOrderFree(n.violations, m.violations);
  }

  /** An answer without the digest of its input. */
  function Undigested(r: Result<Requirement, Problem>): Option<Requirement> {
    if r.Ok? then Some(r.value.(digest := "")) else None
  }

  lemma {:induction false} JudgedAlike(kit: Kit, a: Result<Context, Problem>, b: Result<Context, Problem>, threshold: Amount)
    requires a.Ok? <==> b.Ok?
    requires a.Ok? ==> a.value.cost == b.value.cost
    requires a.Ok? && a.value.cost.Finite? && threshold.Finite? ==>
      Answered(kit, b.value, threshold.usd).(digest := "") == Answered(kit, a.value, threshold.usd).(digest := "")
    ensures Undigested(Judged(kit, a, threshold)) == Undigested(Judged(kit, b, threshold))
  {
  }

  /** Permuting the changes and the violations gives the same answer, up to the digest of
      the input. */
  lemma {:induction false} EvaluationOrderFree(kit: Kit, c: Context, d: Context, threshold: Amount)
    requires d == c.(changes := d.changes, violations := d.violations)
    requires multiset(c.changes) == multiset(d.changes) && multiset(c.violations) == multiset(d.violations)
    ensures Undigested(Evaluated(kit, c, threshold)) == Undigested(Evaluated(kit, d, threshold))
  {
    AcceptedOrderFree(c, d);
    if Normalized(c).Ok? {
      SameFields(c, d);
      if threshold.Finite? {
        AnswersAlike(kit, c, d, threshold.usd);
      }
    }
    JudgedAlike(kit, Normalized(c), Normalized(d), threshold);
  }

  lemma {:induction false} AnswersAlike(kit: Kit, c: Context, d: Context, threshold: real)
    requires d == c.(changes := d.changes, violations := d.violations) && Normalized(c).Ok? && Normalized(d).Ok?
    requires multiset(c.changes) == multiset(d.changes) && multiset(c.violations) == multiset(d.violations)
    ensures Normalized(c).value.cost.Finite? && Normalized(d).value.cost.Finite?
    ensures Answered(kit, Normalized(d).value, threshold).(digest := "") == Answered(kit, Normalized(c).value, threshold).(digest := "")
  {
    SortedAlike(c.changes, d.changes, c.violations, d.violations);
    FindingsOrderFree(Normalized(c).value, Normalized(d).value);
    SameFields(c, d);
    AnswerFrom(kit, Normalized(c).value, Normalized(d).value, threshold);
  }

  lemma SameFields(c: Context, d: Context)
    requires d == c.(changes := d.changes, violations := d.violations) && Normalized(c).Ok? && Normalized(d).Ok?
    ensures var n, m := Normalized(c).value, Normalized(d).value; m == n.(changes := m.changes, violations := m.violations)
  {
  }

  lemma AnswerFrom(kit: Kit, n: Context, m: Context, threshold: real)
    requires m == n.(changes := m.changes, violations := m.violations) && Found(n) == Found(m) && n.cost.Finite?
    ensures Answered(kit, m, threshold).(digest := "") == Answered(kit, n, threshold).(digest := "")
  {
    assert Triggered(kit, n, Found(n), n.cost.usd, threshold) == Triggered(kit, m, Found(m), m.cost.usd, threshold);
    SameAggregate(Triggered(kit, n, Found(n), n.cost.usd, threshold), Base(kit, n, threshold), Base(kit, m, threshold));
  }

  lemma SameAggregate(ts: seq<Rule>, a: Requirement, b: Requirement)
    requires b == a.(digest := b.digest)
    ensures Aggregated(ts, b).(digest := "") == Aggregated(ts, a).(digest := "")
  {
  }

  /** How little a role may do by itself. */
  function Restraint(role: string): nat {
    if role == "admin" then 0 else if role == "engineer" then 1 else 2
  }

  /** More, costlier, or more exposed: every input of `d` weighs at least as much. */
  ghost predicate AtLeast(c: Context, d: Context) {
    && (forall x | x in c.changes :: x in d.changes) && (forall v | v in c.violations :: v in d.violations)
    && (c.exposed ==> d.exposed)
    && (c.cost.Finite? && d.cost.Finite? ==> c.cost.usd <= d.cost.usd)
    && (d.environment == c.environment || Alias(Canonical(d.environment)) == "prod")
    && (d.workspaceEnvironment == c.workspaceEnvironment || WorkspaceEnvironment(d.workspaceEnvironment) == "prod")
    && (d.decision == c.decision || DecisionOf(d.decision) == "REQUIRES_APPROVAL")
    && Restraint(Canonical(c.userRole)) <= Restraint(Canonical(d.userRole))
  }

  predicate FlagsAtMost(g: Flags, h: Flags) {
    && (g.production ==> h.production) && g.cost <= h.cost && (g.deletion ==> h.deletion) && (g.iam ==> h.iam)
    && (g.open ==> h.open) && (g.exposed ==> h.exposed) && (g.policy ==> h.policy) && (g.role ==> h.role)
  }

  lemma LevelMonotone(g: Flags, h: Flags)
    requires FlagsAtMost(g, h) && h.cost <= 2
    ensures Level(g) <= Level(h)
  {
  }

  lemma {:induction false} NormalMembers(cs: seq<Change>, x: Change)
    ensures x in NormalChanges(cs) <==> exists y :: y in cs && NormalChange(y) == x
  {
    var mapped := Map(NormalChange, cs);
    SortPermutes(ByChange, mapped);
    if x in mapped {
      var i :| 0 <= i < |mapped| && mapped[i] == x;
      assert cs[i] in cs;
    }
    if exists y :: y in cs && NormalChange(y) == x {
      var y :| y in cs && NormalChange(y) == x;
      var i :| 0 <= i < |cs| && cs[i] == y;
      assert mapped[i] == x;
    }
  }

  lemma {:induction false} NormalChangesGrow(cs: seq<Change>, ds: seq<Change>)
    requires forall x | x in cs :: x in ds
    ensures forall x | x in NormalChanges(cs) :: x in NormalChanges(ds)
  {
    forall x | x in NormalChanges(cs) ensures x in NormalChanges(ds) {
      NormalMembers(cs, x);
      NormalMembers(ds, x);
    }
  }

  lemma {:induction false} SelectionGrows(p: Change -> bool, a: seq<Change>, b: seq<Change>)
    requires forall x | x in a :: x in b
    ensures Selected(p, a) != [] ==> Selected(p, b) != []
    ensures Filter(p, a) != [] ==> Filter(p, b) != []
  {
    SelectedSome(p, a);
    SelectedSome(p, b);
    assert |Selected(p, a)| == |Filter(p, a)| && |Selected(p, b)| == |Filter(p, b)|;
  }

  lemma {:induction false} DistinctSome(keys: seq<string>)
    ensures Distinct(keys) == [] <==> keys == []
  {
    if keys != [] {
      DistinctSome(keys[..|keys| - 1]);
    }
  }

  lemma {:induction false} KeysGrow(a: seq<Violation>, b: seq<Violation>)
    requires forall v | v in a :: v in b
    ensures ApprovalKeys(a) != [] ==> ApprovalKeys(b) != []
  {
    var x, y := Filter(NeedsApproval, a), Filter(NeedsApproval, b);
    DistinctSome(Map(RuleKeyOf, x));
    DistinctSome(Map(RuleKeyOf, y));
    if x != [] {
      assert x[0] in x;
      assert x[0] in y;
    }
  }

  lemma {:induction false} FindingsGrow(n: Context, m: Context)
    requires (forall x | x in n.changes :: x in m.changes) && forall v | v in n.violations :: v in m.violations
    ensures var f, g := Found(n), Found(m);
      && (f.deletions != [] ==> g.deletions != []) && (f.iam != [] ==> g.iam != []) && (f.open != [] ==> g.open != [])
      && (f.exposures != [] ==> g.exposures != []) && (f.keys != [] ==> g.keys != [])
      && (f.mutates ==> g.mutates) && (f.destroys ==> g.destroys)
  {
    SelectionGrows(DatabaseDeletion, n.changes, m.changes);
    SelectionGrows(IamChange, n.changes, m.changes);
    SelectionGrows(OpenGroup, n.changes, m.changes);
    SelectionGrows(Exposure, n.changes, m.changes);
    SelectionGrows(AnyMutation, n.changes, m.changes);
    SelectionGrows(AnyDestruction, n.changes, m.changes);
    KeysGrow(n.violations, m.violations);
  }

  lemma CostFlagMonotone(a: real, b: real, s: real, t: real)
    requires a <= b && t <= s && 0.0 <= t
    ensures CostFlag(a, s) <= CostFlag(b, t)
  {
  }

  lemma {:induction false} FlagsGrow(n: Context, m: Context, s: real, t: real)
    requires (forall x | x in n.changes :: x in m.changes) && forall v | v in n.violations :: v in m.violations
    requires (n.exposed ==> m.exposed) && (Production(n) ==> Production(m)) && Restraint(n.userRole) <= Restraint(m.userRole)
    requires n.decision == "REQUIRES_APPROVAL" ==> m.decision == "REQUIRES_APPROVAL"
    requires n.cost.Finite? && m.cost.Finite? && n.cost.usd <= m.cost.usd && 0.0 <= t <= s
    ensures FlagsAtMost(FlagsOf(n, Found(n), n.cost.usd, s), FlagsOf(m, Found(m), m.cost.usd, t))
  {
    FindingsGrow(n, m);
    CostFlagMonotone(n.cost.usd, m.cost.usd, s, t);
  }

  lemma {:induction false} ViolationsGrow(vs: seq<Violation>, ws: seq<Violation>)
    requires forall v | v in vs :: v in ws
    ensures forall v | v in Sort(ByViolation, vs) :: v in Sort(ByViolation, ws)
  {
    SortPermutes(ByViolation, vs);
    SortPermutes(ByViolation, ws);
  }

  /** Adding a change or a violation, raising the cost, lowering the threshold, exposing the
      run, moving it or its workspace to production, a policy decision that asks for approval,
      or a user who may do less never drops the need for approval nor lowers the risk. */
  lemma {:induction false} RiskMonotone(kit: Kit, c: Context, d: Context, threshold: Amount, lower: Amount)
    requires Evaluated(kit, c, threshold).Ok? && Evaluated(kit, d, lower).Ok?
    requires AtLeast(c, d) && lower.usd <= threshold.usd
    ensures var r, q := Evaluated(kit, c, threshold).value, Evaluated(kit, d, lower).value;
      (r.required ==> q.required) && Rank(r.risk) <= Rank(q.risk)
  {
    Answers(kit, c, threshold);
    Answers(kit, d, lower);
    NormalChangesGrow(c.changes, d.changes);
    ViolationsGrow(c.violations, d.violations);
    RiskGrows(kit, Normalized(c).value, Normalized(d).value, threshold.usd, lower.usd);
  }

  lemma {:induction false} RiskGrows(kit: Kit, n: Context, m: Context, s: real, t: real)
    requires (forall x | x in n.changes :: x in m.changes) && forall v | v in n.violations :: v in m.violations
    requires (n.exposed ==> m.exposed) && (Production(n) ==> Production(m)) && Restraint(n.userRole) <= Restraint(m.userRole)
    requires n.decision == "REQUIRES_APPROVAL" ==> m.decision == "REQUIRES_APPROVAL"
    requires n.cost.Finite? && m.cost.Finite? && n.cost.usd <= m.cost.usd && 0.0 <= t <= s
    ensures (Answered(kit, n, s).required ==> Answered(kit, m, t).required)
    ensures Rank(Answered(kit, n, s).risk) <= Rank(Answered(kit, m, t).risk)
  {
    RiskOfAnswer(kit, n, s);
    RiskOfAnswer(kit, m, t);
    FlagsGrow(n, m, s, t);
    LevelMonotone(FlagsOf(n, Found(n), n.cost.usd, s), FlagsOf(m, Found(m), m.cost.usd, t));
  }
}
