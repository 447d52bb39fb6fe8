/** Folding enabled policy rules into planning constraints
    (backend/internal/policy/projection.go). Reading numbers is a parameter. */
module PolicyProjection {
  import opened Outcomes
  import opened Texts
  import opened Sorting
  import opened Manifests

  /** A rule row; parameters that are not JSON at all are absent. */
  datatype Row = Row(key: string, parameters: Option<Json>)

  /** What a row asks for. A malformed or mistyped row asks for nothing. */
  datatype Rule =
    | Regions(allowed: set<string>)
    | Budget(max: real)
    | Tags(names: seq<string>)
    | Encryption
    | NoPublicBuckets
    | Complex
    | Skipped

  /** Absent regions mean unrestricted, an empty list means no region at all. */
  datatype Requirements = Requirements(
    allowedRegions: Option<seq<string>>, maxBudget: Option<real>, requiredTags: seq<string>,
    noPublicBuckets: bool, requiredEncryption: bool, warned: bool)

  /** JSON null decodes to no parameters, other non-objects are refused. */
  function Parameters(p: Option<Json>): Option<map<string, Json>> {
    if p.None? then None
    else if p.value.Object? then Some(p.value.members)
    else if p.value.Null? then Some(map[])
    else None
  }

  function Words(items: seq<Json>): seq<string> {
    if items == [] then []
    else
      var last := items[|items| - 1];
      Words(items[..|items| - 1]) + if last.Text? && last.s != "" then [last.s] else []
  }

  predicate HasList(m: map<string, Json>, name: string) {
    name in m && m[name].List?
  }

  function RuleOf(numeral: string -> real, row: Row): Rule {
    var p := Parameters(row.parameters);
    if p.None? then Skipped
    else if row.key == "allowed_regions" then
      if HasList(p.value, "regions") then Regions(set r | r in Words(p.value["regions"].items)) else Skipped
    else if row.key == "budget_max" then
      if "max_usd" in p.value && p.value["max_usd"].Number? then Budget(numeral(p.value["max_usd"].text)) else Skipped
    else if row.key == "required_tags" then
      if HasList(p.value, "tags") then Tags(Words(p.value["tags"].items)) else Skipped
    else if row.key == "require_encryption" then Encryption
    else if row.key == "no_public_s3" then NoPublicBuckets
    else Complex
  }

  function Rules(numeral: string -> real, rows: seq<Row>): seq<Rule> {
    Map(row => RuleOf(numeral, row), rows)
  }

  /** What every region rule allows; nothing is said when there is no region rule. */
  ghost predicate AllowedByAll(rules: seq<Rule>, region: string) {
    forall i | 0 <= i < |rules| && rules[i].Regions? :: region in rules[i].allowed
  }

  function RegionRules(rules: seq<Rule>): nat {
    if rules == [] then 0 else RegionRules(rules[..|rules| - 1]) + if rules[|rules| - 1].Regions? then 1 else 0
  }

  ghost predicate Conflicting(rules: seq<Rule>) {
    RegionRules(rules) >= 2 && forall region :: !AllowedByAll(rules, region)
  }

  /** The required tags in the order they first appear. */
  function TagList(rules: seq<Rule>): seq<string> {
    if rules == [] then []
    else
      var before, last := TagList(rules[..|rules| - 1]), rules[|rules| - 1];
      if last.Tags? then AddAll(before, last.names) else before
  }

  function AddAll(tags: seq<string>, names: seq<string>): seq<string> {
    if names == [] then tags
    else
      var before, last := AddAll(tags, names[..|names| - 1]), names[|names| - 1];
      if last in before then before else before + [last]
  }

  ghost predicate RegionsOk(rules: seq<Rule>, r: Option<seq<string>>) {
    && (r.None? <==> RegionRules(rules) == 0)
    && (r.Some? ==> SortedBy(AtMost, r.value) && NoDuplicates(r.value)
                    && forall x :: x in r.value <==> AllowedByAll(rules, x))
  }

  ghost predicate BudgetOk(rules: seq<Rule>, max: Option<real>) {
    && (max.None? <==> forall i | 0 <= i < |rules| :: !rules[i].Budget?)
    && (max.Some? ==> Budget(max.value) in rules && forall i | 0 <= i < |rules| && rules[i].Budget? :: max.value <= rules[i].max)
  }

  /** The constraints that stand for the rules. */
  ghost predicate Stands(rules: seq<Rule>, r: Requirements) {
    && RegionsOk(rules, r.allowedRegions) && BudgetOk(rules, r.maxBudget) && r.requiredTags == TagList(rules)
    && (r.noPublicBuckets <==> NoPublicBuckets in rules)
    && (r.requiredEncryption <==> Encryption in rules) && (r.warned <==> Complex in rules)
  }

  /** The running state of the row loop. */
  datatype Fold = Fold(
    regions: Option<set<string>>, maxBudget: Option<real>, tags: seq<string>, noPublic: bool, encryption: bool, complex: bool)

  ghost predicate FoldRegionsOk(rules: seq<Rule>, regions: Option<set<string>>) {
    && (regions.None? <==> RegionRules(rules) == 0)
    && (regions.Some? ==> (forall x :: x in regions.value <==> AllowedByAll(rules, x)))
    && (RegionRules(rules) >= 2 ==> regions.value != {})
  }

  ghost predicate FoldOk(rules: seq<Rule>, f: Fold) {
    && FoldRegionsOk(rules, f.regions) && BudgetOk(rules, f.maxBudget) && f.tags == TagList(rules)
    && (f.noPublic <==> NoPublicBuckets in rules) && (f.encryption <==> Encryption in rules) && (f.complex <==> Complex in rules)
  }

  lemma {:induction false} AllowedStep(rules: seq<Rule>, rule: Rule, x: string)
    ensures AllowedByAll(rules + [rule], x) <==> AllowedByAll(rules, x) && (rule.Regions? ==> x in rule.allowed)
    ensures RegionRules(rules + [rule]) == RegionRules(rules) + if rule.Regions? then 1 else 0
  {
    var all := rules + [rule];
    assert all[..|all| - 1] == rules && all[|rules|] == rule;
    if AllowedByAll(all, x) {
      forall i | 0 <= i < |rules| && rules[i].Regions? ensures x in rules[i].allowed {
        assert all[i] == rules[i];
      }
    }
  }

  lemma {:induction false} NoRegionRules(rules: seq<Rule>)
    ensures RegionRules(rules) == 0 <==> forall i | 0 <= i < |rules| :: !rules[i].Regions?
  {
    if rules != [] {
      NoRegionRules(rules[..|rules| - 1]);
    }
  }

  /** The words of a decoded list, as the two inner loops take them. */
  method CollectWords(items: seq<Json>) returns (words: seq<string>)
    ensures words == Words(items)
  {
    words := [];
    for i := 0 to |items|
      invariant words == Words(items[..i])
    {
      assert items[..i + 1][..i] == items[..i];
      if items[i].Text? && items[i].s != "" {
        words := words + [items[i].s];
      }
    }
    assert items[..|items|] == items;
  }

  method Classify(numeral: string -> real, row: Row) returns (rule: Rule)
    ensures rule == RuleOf(numeral, row)
  {
    var p := Parameters(row.parameters);
    if p.None? {
      return Skipped;
    }
    match row.key {
      case "allowed_regions" =>
        if !HasList(p.value, "regions") {
          return Skipped;
        }
        var words := CollectWords(p.value["regions"].items);
        return Regions(set r | r in words);
      case "budget_max" =>
        return if "max_usd" in p.value && p.value["max_usd"].Number? then Budget(numeral(p.value["max_usd"].text)) else Skipped;
      case "required_tags" =>
        if !HasList(p.value, "tags") {
          return Skipped;
        }
        var words := CollectWords(p.value["tags"].items);
        return Tags(words);
      case "require_encryption" => return Encryption;
      case "no_public_s3" => return NoPublicBuckets;
      case _ => return Complex;
    }
  }

  /** One region rule: the first is taken as it is, later ones intersect, and an empty
      intersection ends the fold. */
  method TakeRegions(ghost rules: seq<Rule>, regions: Option<set<string>>, current: set<string>)
    returns (taken: Option<set<string>>)
    requires FoldRegionsOk(rules, regions)
    ensures taken.None? <==> Conflicting(rules + [Regions(current)])
    ensures taken.Some? ==> FoldRegionsOk(rules + [Regions(current)], taken)
  {
    ghost var rule := Regions(current);
    forall x ensures AllowedByAll(rules + [rule], x) <==> AllowedByAll(rules, x) && x in current {
      AllowedStep(rules, rule, x);
    }
    AllowedStep(rules, rule, "");
    NoRegionRules(rules);
    if regions.None? {
      return Some(current);
    }
    var intersected := regions.value * current;
    assert forall x :: x in intersected <==> AllowedByAll(rules + [rule], x);
    return if intersected == {} then None else Some(intersected);
  }

  lemma {:induction false} OtherRule(rules: seq<Rule>, rule: Rule, regions: Option<set<string>>)
    requires FoldRegionsOk(rules, regions) && !rule.Regions?
    ensures FoldRegionsOk(rules + [rule], regions)
  {
    forall x ensures AllowedByAll(rules + [rule], x) <==> AllowedByAll(rules, x) {
      AllowedStep(rules, rule, x);
    }
    AllowedStep(rules, rule, "");
  }

  method AddTags(tags: seq<string>, names: seq<string>) returns (out: seq<string>)
    ensures out == AddAll(tags, names)
  {
    out := tags;
    for i := 0 to |names|
      invariant out == AddAll(tags, names[..i])
    {
      assert names[..i + 1][..i] == names[..i];
      if names[i] !in out {
        out := out + [names[i]];
      }
    }
    assert names[..|names|] == names;
  }

  lemma {:induction false} BudgetStep(rules: seq<Rule>, rule: Rule, max: Option<real>)
    requires BudgetOk(rules, max)
    ensures BudgetOk(rules + [rule], if rule.Budget? && (max.None? || rule.max < max.value) then Some(rule.max) else max)
  {
    var all := rules + [rule];
    assert all[|rules|] == rule;
    assert forall i | 0 <= i < |rules| :: all[i] == rules[i];
    assert max.Some? ==> Budget(max.value) in all;
    assert rule in all;
  }

  lemma {:induction false} MemberStep(rules: seq<Rule>, rule: Rule)
    ensures forall r: Rule :: r in rules + [rule] <==> r in rules || r == rule
    ensures TagList(rules + [rule]) == if rule.Tags? then AddAll(TagList(rules), rule.names) else TagList(rules)
  {
    assert (rules + [rule])[..|rules|] == rules;
  }

  /** One row of the fold. */
  method Take(ghost rules: seq<Rule>, f: Fold, rule: Rule) returns (out: Option<Fold>)
    requires FoldOk(rules, f)
    ensures out.None? <==> rule.Regions? && Conflicting(rules + [rule])
    ensures out.Some? ==> FoldOk(rules + [rule], out.value)
  {
    MemberStep(rules, rule);
    BudgetStep(rules, rule, f.maxBudget);
    if rule.Regions? {
      var taken := TakeRegions(rules, f.regions, rule.allowed);
      return if taken.None? then None else Some(f.(regions := taken));
    }
    OtherRule(rules, rule, f.regions);
    match rule
    case Budget(max) =>
      return Some(if f.maxBudget.None? || max < f.maxBudget.value then f.(maxBudget := Some(max)) else f);
    case Tags(names) =>
      var tags := AddTags(f.tags, names);
      return Some(f.(tags := tags));
    case Encryption => return Some(f.(encryption := true));
    case NoPublicBuckets => return Some(f.(noPublic := true));
    case Complex => return Some(f.(complex := true));
    case Skipped => return Some(f);
  }

  lemma {:induction false} ConflictStays(rules: seq<Rule>, more: seq<Rule>)
    requires Conflicting(rules)
    ensures Conflicting(rules + more)
  {
    forall region ensures !AllowedByAll(rules + more, region) {
      assert !AllowedByAll(rules, region);
      var i :| 0 <= i < |rules| && rules[i].Regions? && region !in rules[i].allowed;
      assert (rules + more)[i] == rules[i];
    }
    RegionRulesGrow(rules, more);
  }

  lemma {:induction false} RegionRulesGrow(rules: seq<Rule>, more: seq<Rule>)
    ensures RegionRules(rules + more) >= RegionRules(rules)
    decreases |more|
  {
    if more == [] {
      assert rules + more == rules;
    } else {
      assert (rules + more)[..|rules + more| - 1] == rules + more[..|more| - 1];
      RegionRulesGrow(rules, more[..|more| - 1]);
    }
  }

  /** The map's keys in any order, then sorted. */
  method SortRegions(regions: set<string>) returns (list: seq<string>)
    ensures SortedBy(AtMost, list) && NoDuplicates(list) && forall x :: x in list <==> x in regions
  {
    var todo, found := regions, [];
    while todo != {}
      invariant todo <= regions
      invariant NoDuplicates(found) && forall x :: x in found <==> x in regions && x !in todo
    {
      var x :| x in todo;
      found := found + [x];
      todo := todo - {x};
    }
    AtMostIsOrder();
    SortSorts(AtMost, found);
    SortPermutes(AtMost, found);
    NoDuplicatesMultiset(found);
    NoDuplicatesMultiset(Sort(AtMost, found));
    list := Sort(AtMost, found);
  }

  /** The projection of a workspace's enabled rules: a conflict is reported exactly when two
      or more region rules have no region in common, and otherwise the result stands for
      the rules. */
  method Project(numeral: string -> real, rows: seq<Row>) returns (out: Option<Requirements>)
    ensures out.None? <==> Conflicting(Rules(numeral, rows))
    ensures out.Some? ==> Stands(Rules(numeral, rows), out.value)
  {
    var f := Fold(None, None, [], false, false, false);
    ghost var rules := Rules(numeral, rows);
    for i := 0 to |rows|
      invariant FoldOk(rules[..i], f)
    {
      var rule := Classify(numeral, rows[i]);
      assert rules[i] == rule && rules[..i + 1] == rules[..i] + [rule];
      var taken := Take(rules[..i], f, rule);
      if taken.None? {
        ConflictStays(rules[..i + 1], rules[i + 1..]);
        assert rules == rules[..i + 1] + rules[i + 1..];
        return None;
      }
      f := taken.value;
    }
    assert rules[..|rows|] == rules;
    NotConflicting(rules, f.regions);
    var regions: Option<seq<string>> := None;
    if f.regions.Some? {
      var list := SortRegions(f.regions.value);
      regions := Some(list);
    }
    return Some(Requirements(regions, f.maxBudget, f.tags, f.noPublic, f.encryption, f.complex));
  }

  lemma NotConflicting(rules: seq<Rule>, regions: Option<set<string>>)
    requires FoldRegionsOk(rules, regions)
    ensures !Conflicting(rules)
  {
    if RegionRules(rules) >= 2 {
      var x :| x in regions.value;
      assert AllowedByAll(rules, x);
    }
  }

  /** A provisioning request as the constraints see it. */
  datatype Request = Request(region: string, budget: real, tags: set<string>, encrypted: bool, publicBuckets: bool)

  predicate Obeys(q: Request, rule: Rule) {
    match rule
    case Regions(allowed) => q.region in allowed
    case Budget(max) => q.budget <= max
    case Tags(names) => forall t | t in names :: t in q.tags
    case Encryption => q.encrypted
    case NoPublicBuckets => !q.publicBuckets
    case Complex => true
    case Skipped => true
  }

  predicate Satisfies(q: Request, r: Requirements) {
    && (r.allowedRegions.Some? ==> q.region in r.allowedRegions.value)
    && (r.maxBudget.Some? ==> q.budget <= r.maxBudget.value)
    && (forall t | t in r.requiredTags :: t in q.tags)
    && (r.requiredEncryption ==> q.encrypted)
    && (r.noPublicBuckets ==> !q.publicBuckets)
  }

  lemma {:induction false} AddAllMembers(tags: seq<string>, names: seq<string>, t: string)
    ensures t in AddAll(tags, names) <==> t in tags || t in names
  {
    if names != [] {
      AddAllMembers(tags, names[..|names| - 1], t);
      assert names == names[..|names| - 1] + [names[|names| - 1]];
    }
  }

  lemma {:induction false} TagMembers(rules: seq<Rule>, t: string)
    ensures t in TagList(rules) <==> exists i :: 0 <= i < |rules| && rules[i].Tags? && t in rules[i].names
  {
    if rules != [] {
      var front, last := rules[..|rules| - 1], rules[|rules| - 1];
      TagMembers(front, t);
      if last.Tags? {
        AddAllMembers(TagList(front), last.names, t);
      }
    }
  }

  /** Meeting the constraints is meeting every rule. */
  lemma {:induction false} ProjectionMeansRules(rules: seq<Rule>, r: Requirements, q: Request)
    requires Stands(rules, r)
    ensures Satisfies(q, r) <==> forall i | 0 <= i < |rules| :: Obeys(q, rules[i])
  {
    NoRegionRules(rules);
    forall t ensures t in TagList(rules) <==> exists i :: 0 <= i < |rules| && rules[i].Tags? && t in rules[i].names {
      TagMembers(rules, t);
    }
    if Satisfies(q, r) {
      forall i | 0 <= i < |rules| ensures Obeys(q, rules[i]) {
        assert rules[i] in rules;
        if rules[i].Tags? {
          forall t | t in rules[i].names ensures t in q.tags {
            assert t in TagList(rules);
          }
        }
      }
    }
    if forall i | 0 <= i < |rules| :: Obeys(q, rules[i]) {
      RulesMeanProjection(rules, r, q);
    }
  }

  lemma {:induction false} RulesMeanProjection(rules: seq<Rule>, r: Requirements, q: Request)
    requires Stands(rules, r) && forall i | 0 <= i < |rules| :: Obeys(q, rules[i])
    ensures Satisfies(q, r)
  {
    assert AllowedByAll(rules, q.region);
    if r.maxBudget.Some? {
      var i :| 0 <= i < |rules| && rules[i] == Budget(r.maxBudget.value);
      assert Obeys(q, rules[i]);
    }
    forall t | t in r.requiredTags ensures t in q.tags {
      TagMembers(rules, t);
      var i :| 0 <= i < |rules| && rules[i].Tags? && t in rules[i].names;
      assert Obeys(q, rules[i]);
    }
    if r.requiredEncryption {
      var i :| 0 <= i < |rules| && rules[i] == Encryption;
      assert Obeys(q, rules[i]);
    }
    if r.noPublicBuckets {
      var i :| 0 <= i < |rules| && rules[i] == NoPublicBuckets;
      assert Obeys(q, rules[i]);
    }
  }

  /** A conflict means that no request can meet the rules. */
  lemma {:induction false} ConflictMeansImpossible(rules: seq<Rule>, q: Request)
    requires Conflicting(rules)
    ensures exists i :: 0 <= i < |rules| && !Obeys(q, rules[i])
  {
    assert !AllowedByAll(rules, q.region);
    var i :| 0 <= i < |rules| && rules[i].Regions? && q.region !in rules[i].allowed;
    assert !Obeys(q, rules[i]);
  }

  predicate IsRegions(rule: Rule) {
    rule.Regions?
  }

  lemma {:induction false} RegionRulesCount(rules: seq<Rule>)
    ensures RegionRules(rules) == |Filter(IsRegions, rules)|
  {
    if rules != [] {
      var front, last := rules[..|rules| - 1], rules[|rules| - 1];
      RegionRulesCount(front);
      assert rules == front + [last];
      FilterSplit(IsRegions, front, [last]);
      assert Filter(IsRegions, [last]) == if last.Regions? then [last] else [];
    }
  }

  lemma {:induction false} SameRules(rules: seq<Rule>, other: seq<Rule>)
    requires multiset(rules) == multiset(other)
    ensures forall r: Rule :: r in rules <==> r in other
    ensures RegionRules(rules) == RegionRules(other)
    ensures forall x :: AllowedByAll(rules, x) <==> AllowedByAll(other, x)
  {
    assert forall r: Rule :: (r in rules <==> r in multiset(rules)) && (r in other <==> r in multiset(other));
    RegionRulesCount(rules);
    RegionRulesCount(other);
    FilterMultiset(IsRegions, rules, other);
    assert |multiset(Filter(IsRegions, rules))| == |multiset(Filter(IsRegions, other))|;
    forall x ensures AllowedByAll(rules, x) <==> AllowedByAll(other, x) {
      AllowedMembers(rules, x);
      AllowedMembers(other, x);
    }
  }

  lemma {:induction false} AllowedMembers(rules: seq<Rule>, x: string)
    ensures AllowedByAll(rules, x) <==> forall r: Rule | r in rules && r.Regions? :: x in r.allowed
  {
    if AllowedByAll(rules, x) {
      forall r: Rule | r in rules && r.Regions? ensures x in r.allowed {
        var i :| 0 <= i < |rules| && rules[i] == r;
      }
    }
    if forall r: Rule | r in rules && r.Regions? :: x in r.allowed {
      forall i | 0 <= i < |rules| && rules[i].Regions? ensures x in rules[i].allowed {
        assert rules[i] in rules;
      }
    }
  }

  lemma {:induction false} SortedSetUnique(a: seq<string>, b: seq<string>)
    requires SortedBy(AtMost, a) && NoDuplicates(a) && SortedBy(AtMost, b) && NoDuplicates(b)
    requires forall x :: x in a <==> x in b
    ensures a == b
  {
    NoDuplicatesMultiset(a);
    NoDuplicatesMultiset(b);
    forall x ensures multiset(a)[x] == multiset(b)[x] {
      assert (x in a <==> x in multiset(a)) && (x in b <==> x in multiset(b));
    }
    assert multiset(a) == multiset(b);
    forall x, y | x in a && y in a && AtMost(x, y) && AtMost(y, x) ensures x == y {
      AtMostAntisymmetric(x, y);
    }
    SortedUnique(AtMost, a, b);
  }

  /** Neither the constraints nor the conflict depend on the order of the rows, tags taken
      as a set. */
  lemma {:induction false} ProjectionOrderFree(rules: seq<Rule>, other: seq<Rule>, r: Requirements, q: Requirements)
    requires multiset(rules) == multiset(other) && Stands(rules, r) && Stands(other, q)
    ensures Conflicting(rules) <==> Conflicting(other)
    ensures q == r.(requiredTags := q.requiredTags)
    ensures forall t :: t in r.requiredTags <==> t in q.requiredTags
  {
    SameRules(rules, other);
    if r.allowedRegions.Some? {
      SortedSetUnique(r.allowedRegions.value, q.allowedRegions.value);
    }
    SameBudget(rules, other, r.maxBudget, q.maxBudget);
    forall t ensures t in r.requiredTags <==> t in q.requiredTags {
      SameTags(rules, other, t);
    }
  }

  lemma {:induction false} SameBudget(rules: seq<Rule>, other: seq<Rule>, a: Option<real>, b: Option<real>)
    requires (forall r: Rule :: r in rules <==> r in other) && BudgetOk(rules, a) && BudgetOk(other, b)
    ensures a == b
  {
    if a.Some? {
      var i :| 0 <= i < |other| && other[i] == Budget(a.value);
    }
    if b.Some? {
      var i :| 0 <= i < |rules| && rules[i] == Budget(b.value);
    }
  }

  lemma {:induction false} SameTags(rules: seq<Rule>, other: seq<Rule>, t: string)
    requires forall r: Rule :: r in rules <==> r in other
    ensures t in TagList(rules) <==> t in TagList(other)
  {
    TagMembers(rules, t);
    TagMembers(other, t);
    if t in TagList(rules) {
      var i :| 0 <= i < |rules| && rules[i].Tags? && t in rules[i].names;
      assert rules[i] in other;
      var j :| 0 <= j < |other| && other[j] == rules[i];
    }
    if t in TagList(other) {
      var i :| 0 <= i < |other| && other[i].Tags? && t in other[i].names;
      assert other[i] in rules;
      var j :| 0 <= j < |rules| && rules[j] == other[i];
    }
  }

  lemma {:induction false} WordsExactly(items: seq<Json>, word: string)
    ensures word in Words(items) <==> word != "" && Text(word) in items
  {
    if items != [] {
      var front, last := items[..|items| - 1], items[|items| - 1];
      WordsExactly(front, word);
      assert items == front + [last];
      assert last.Text? ==> last == Text(last.s);
    }
  }

  /** Parameters that decode to an object; null counts as an empty one. */
  predicate Decodes(row: Row) {
    row.parameters.Some? && (row.parameters.value.Object? || row.parameters.value.Null?)
  }

  /** The member of the parameters, if there is one. */
  function Parameter(row: Row, name: string): Option<Json> {
    if row.parameters.Some? && row.parameters.value.Object? && name in row.parameters.value.members
    then Some(row.parameters.value.members[name]) else None
  }

  /** What a rule row asks of a request, by its key. Parameters of the wrong type ask nothing. */
  ghost predicate Meets(numeral: string -> real, q: Request, row: Row) {
    && (row.key == "allowed_regions" && Parameter(row, "regions").Some? && Parameter(row, "regions").value.List? ==>
          q.region != "" && Text(q.region) in Parameter(row, "regions").value.items)
    && (row.key == "budget_max" && Parameter(row, "max_usd").Some? && Parameter(row, "max_usd").value.Number? ==>
          q.budget <= numeral(Parameter(row, "max_usd").value.text))
    && (row.key == "required_tags" && Parameter(row, "tags").Some? && Parameter(row, "tags").value.List? ==>
          forall tag :: tag != "" && Text(tag) in Parameter(row, "tags").value.items ==> tag in q.tags)
    && (row.key == "require_encryption" && Decodes(row) ==> q.encrypted)
    && (row.key == "no_public_s3" && Decodes(row) ==> !q.publicBuckets)
  }

  /** A row that is only warned about. */
  predicate IsOtherRule(row: Row) {
    && Decodes(row) && row.key != "allowed_regions" && row.key != "budget_max" && row.key != "required_tags"
    && row.key != "require_encryption" && row.key != "no_public_s3"
  }

  lemma KeysDiffer()
    ensures "allowed_regions"[0] == 'a' && "budget_max"[0] == 'b' && "no_public_s3"[0] == 'n'
    ensures |"required_tags"| == 13 && |"require_encryption"| == 18
  {
  }

  lemma {:induction false} TagsMean(items: seq<Json>, tags: set<string>)
    ensures (forall t | t in Words(items) :: t in tags) <==> forall tag :: tag != "" && Text(tag) in items ==> tag in tags
  {
    forall word: string ensures word in Words(items) <==> word != "" && Text(word) in items {
      WordsExactly(items, word);
    }
  }

  lemma {:induction false} RowMeans(numeral: string -> real, row: Row, q: Request)
    ensures Obeys(q, RuleOf(numeral, row)) <==> Meets(numeral, q, row)
    ensures RuleOf(numeral, row) == Complex <==> IsOtherRule(row)
  {
    KeysDiffer();
    var p := Parameters(row.parameters);
    if row.key == "allowed_regions" && p.Some? && HasList(p.value, "regions") {
      WordsExactly(p.value["regions"].items, q.region);
    } else if row.key == "required_tags" && p.Some? && HasList(p.value, "tags") {
      TagsMean(p.value["tags"].items, q.tags);
    }
  }

  /** A request satisfies the projected requirements exactly when it meets what every row asks for;
      the warning is there exactly when some row asks for something else. */
  lemma {:induction false} ProjectionMeansRows(numeral: string -> real, rows: seq<Row>, r: Requirements, q: Request)
    requires Stands(Rules(numeral, rows), r)
    ensures Satisfies(q, r) <==> forall i | 0 <= i < |rows| :: Meets(numeral, q, rows[i])
    ensures r.warned <==> exists i :: 0 <= i < |rows| && IsOtherRule(rows[i])
  {
    var rules := Rules(numeral, rows);
    ProjectionMeansRules(rules, r, q);
    forall i | 0 <= i < |rows|
      ensures (Obeys(q, rules[i]) <==> Meets(numeral, q, rows[i])) && (rules[i] == Complex <==> IsOtherRule(rows[i]))
    {
      RowMeans(numeral, rows[i], q);
    }
  }

  predicate RestrictsRegions(row: Row) {
    row.key == "allowed_regions" && Parameter(row, "regions").Some? && Parameter(row, "regions").value.List?
  }

  lemma {:induction false} RestrictingRow(numeral: string -> real, row: Row)
    ensures RuleOf(numeral, row).Regions? <==> RestrictsRegions(row)
  {
    KeysDiffer();
  }

  /** Absent regions mean that no row restricts them. */
  lemma {:induction false} UnrestrictedExactly(numeral: string -> real, rows: seq<Row>, r: Requirements)
    requires Stands(Rules(numeral, rows), r)
    ensures r.allowedRegions.None? <==> forall i | 0 <= i < |rows| :: !RestrictsRegions(rows[i])
  {
    var rules := Rules(numeral, rows);
    NoRegionRules(rules);
    forall i | 0 <= i < |rows| ensures rules[i].Regions? <==> RestrictsRegions(rows[i]) {
      RestrictingRow(numeral, rows[i]);
    }
  }

  /** Required tags are listed once each. */
  lemma {:induction false} TagsOnce(rules: seq<Rule>)
    ensures NoDuplicates(TagList(rules))
  {
    if rules != [] {
      var front, last := rules[..|rules| - 1], rules[|rules| - 1];
      TagsOnce(front);
      if last.Tags? {
        AddAllOnce(TagList(front), last.names);
      }
    }
  }

  lemma {:induction false} AddAllOnce(tags: seq<string>, names: seq<string>)
    requires NoDuplicates(tags)
    ensures NoDuplicates(AddAll(tags, names)) && tags <= AddAll(tags, names)
  {
    if names != [] {
      AddAllOnce(tags, names[..|names| - 1]);
    }
  }
}
