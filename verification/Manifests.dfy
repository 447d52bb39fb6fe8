/** Canonical manifests (backend/internal/manifest/models.go) and JSON values. */
module Manifests {
  import opened Outcomes

  /** A decoded JSON value; numbers keep their source text. */
  datatype Json =
    | Null
    | Bool(flag: bool)
    | Number(text: string)
    | Text(s: string)
    | List(items: seq<Json>)
    | Object(members: map<string, Json>)

  datatype Lineage = Lineage(source: string, confidence: real)

  datatype Security = Security(publicAccess: bool, encryptionEnabled: bool, encryptionType: string)

  datatype Cost = Cost(estimatedMonthlyUSD: real, confidencePct: int)

  datatype Resource = Resource(
    logicalName: string,
    kind: string,
    properties: map<string, Json>,
    dependsOn: seq<string>,
    tags: map<string, string>,
    security: Option<Security>,
    source: Option<Lineage>)

  datatype Manifest = Manifest(
    schemaVersion: string,
    provider: string,
    region: string,
    resources: seq<Resource>,
    unknowns: seq<string>,
    cost: Option<Cost>,
    tags: map<string, string>)
}

/** Manifest validation (backend/internal/manifest/validator.go). A defect names what a
    validation error reports; the method lists exactly the defects a manifest has. */
module Validation {
  import opened Outcomes
  import opened Texts
  import opened Sorting
  import opened Decimals
  import opened Manifests
  import DependencyGraph

  datatype DocumentCode =
    | NilManifest | MissingSchemaVersion | UnsupportedSchemaVersion | MissingProvider | InvalidProvider
    | MissingRegion | InvalidRegion | EmptyResources | CircularDependency | InvalidCost | InvalidConfidencePct

  datatype ResourceCode =
    | MissingLogicalName | InvalidLogicalName | DuplicateLogicalName | MissingType | InvalidTypeFormat
    | InvalidDomain | ProviderMismatch | InvalidKind | InvalidSourceType | InvalidConfidence
    | SelfDependency | DanglingDependency

  datatype Defect = InDocument(code: DocumentCode) | InResource(index: nat, fault: ResourceCode)

  predicate IsProvider(s: string) {
    s == "aws" || s == "azure" || s == "gcp"
  }

  predicate IsDomain(s: string) {
    || s == "compute" || s == "storage" || s == "database" || s == "network" || s == "security"
    || s == "monitoring" || s == "analytics" || s == "messaging" || s == "container"
  }

  predicate IsSource(s: string) {
    || s == "user_prompt" || s == "policy_default" || s == "cloud_state" || s == "ai_assumption"
    || s == "image_detection" || s == "admin_default"
  }

  predicate IsNameChar(c: char) {
    'a' <= c <= 'z' || IsDigit(c) || c == '_' || c == '-'
  }

  /** `^[a-z0-9_-]+$` */
  predicate IsSlug(s: string) {
    s != [] && forall c | c in s :: IsNameChar(c)
  }

  /** `^[a-z0-9_-]{1,64}$` */
  predicate IsLogicalName(s: string) {
    IsSlug(s) && |s| <= 64
  }

  predicate IsNumeral(s: string) {
    s != [] && forall c | c in s :: IsDigit(c)
  }

  /** `^1\.[0-9]+(\.[0-9]+)?$` */
  predicate IsSchemaVersion(s: string) {
    var parts := Split(s, '.');
    && parts[0] == "1"
    && 2 <= |parts| <= 3
    && forall part | part in parts[1..] :: IsNumeral(part)
  }

  function NameOf(r: Resource): string {
    Trim(r.logicalName)
  }

  /** The name is registered by some resource: what resourceMap answers. */
  predicate Registered(rs: seq<Resource>, name: string) {
    IsLogicalName(name) && exists j | 0 <= j < |rs| :: NameOf(rs[j]) == name
  }

  /** The raw-name graph the cycle search walks; a later resource of the same raw name
      replaces an earlier one. */
  function Adjacency(rs: seq<Resource>): (g: DependencyGraph.Graph)
    ensures g.Keys == set r | r in rs :: r.logicalName
  {
    if rs == [] then map[]
    else
      var last := rs[|rs| - 1];
      assert rs == rs[..|rs| - 1] + [last];
      Adjacency(rs[..|rs| - 1])[last.logicalName := last.dependsOn]
  }

  function ManifestProvider(m: Manifest): string {
    Lower(Trim(m.provider))
  }

  predicate SchemaDefect(version: string, code: DocumentCode) {
    || (code == MissingSchemaVersion && Trim(version) == "")
    || (code == UnsupportedSchemaVersion && Trim(version) != "" && !IsSchemaVersion(version))
  }

  predicate ProviderDefect(provider: string, code: DocumentCode) {
    || (code == MissingProvider && provider == "")
    || (code == InvalidProvider && provider != "" && !IsProvider(provider))
  }

  predicate RegionDefect(region: string, code: DocumentCode) {
    || (code == MissingRegion && region == "")
    || (code == InvalidRegion && region != "" && !IsSlug(region))
  }

  predicate CostDefect(cost: Option<Cost>, code: DocumentCode) {
    || (code == InvalidCost && cost.Some? && cost.value.estimatedMonthlyUSD < 0.0)
    || (code == InvalidConfidencePct && cost.Some? && !(0 <= cost.value.confidencePct <= 100))
  }

  ghost predicate HeadDefect(m: Manifest, code: DocumentCode) {
    || SchemaDefect(m.schemaVersion, code)
    || ProviderDefect(ManifestProvider(m), code)
    || RegionDefect(Trim(m.region), code)
    || (code == EmptyResources && m.resources == [])
  }

  /** Cycles and the cost are not looked at when there are no resources. */
  ghost predicate TailDefect(m: Manifest, code: DocumentCode) {
    m.resources != [] && (
      || (code == CircularDependency && !DependencyGraph.Acyclic(Adjacency(m.resources)))
      || CostDefect(m.cost, code))
  }

  predicate NameDefect(name: string, taken: bool, fault: ResourceCode) {
    || (fault == MissingLogicalName && name == "")
    || (fault == InvalidLogicalName && name != "" && !IsLogicalName(name))
    || (fault == DuplicateLogicalName && IsLogicalName(name) && taken)
  }

  predicate KindDefect(kind: string, provider: string, fault: ResourceCode) {
    var parts := Split(kind, '.');
    || (fault == MissingType && kind == "")
    || (fault == InvalidTypeFormat && kind != "" && |parts| != 3)
    || (kind != "" && |parts| == 3 && (
          || (fault == InvalidDomain && !IsDomain(parts[0]))
          || (fault == ProviderMismatch && provider != "" && parts[1] != provider)
          || (fault == InvalidKind && !IsSlug(parts[2]))))
  }

  predicate LineageDefect(source: Option<Lineage>, fault: ResourceCode) {
    || (fault == InvalidSourceType && source.Some? && !IsSource(source.value.source))
    || (fault == InvalidConfidence && source.Some? && !(0.0 <= source.value.confidence <= 1.0))
  }

  predicate DependencyDefect(rs: seq<Resource>, r: Resource, fault: ResourceCode) {
    || (fault == SelfDependency && r.logicalName in r.dependsOn)
    || (fault == DanglingDependency &&
        exists k | 0 <= k < |r.dependsOn| :: r.dependsOn[k] != r.logicalName && !Registered(rs, r.dependsOn[k]))
  }

  /** An earlier resource already has this one's name. */
  predicate Taken(rs: seq<Resource>, i: nat)
    requires i < |rs|
  {
    exists j | 0 <= j < i :: NameOf(rs[j]) == NameOf(rs[i])
  }

  predicate OwnDefect(m: Manifest, i: nat, fault: ResourceCode)
    requires i < |m.resources|
  {
    var r := m.resources[i];
    || NameDefect(NameOf(r), Taken(m.resources, i), fault)
    || KindDefect(Trim(r.kind), ManifestProvider(m), fault)
    || LineageDefect(r.source, fault)
  }

  ghost predicate Has(input: Option<Manifest>, d: Defect) {
    match input
    case None => d == InDocument(NilManifest)
    case Some(m) =>
      match d
      case InDocument(code) => HeadDefect(m, code) || TailDefect(m, code)
      case InResource(i, fault) =>
        i < |m.resources| && (OwnDefect(m, i, fault) || DependencyDefect(m.resources, m.resources[i], fault))
  }

  ghost predicate WellFormed(m: Manifest) {
    forall d :: !Has(Some(m), d)
  }

  /** `present` decides whether the code is appended. */
  function When<C>(present: bool, code: C): seq<C> {
    if present then [code] else []
  }

  method SchemaErrors(version: string) returns (errors: seq<DocumentCode>)
    ensures forall c :: c in errors <==> SchemaDefect(version, c)
  {
    if Trim(version) == "" {
      errors := [MissingSchemaVersion];
    } else {
      errors := When(!IsSchemaVersion(version), UnsupportedSchemaVersion);
    }
  }

  method ProviderErrors(provider: string) returns (errors: seq<DocumentCode>)
    ensures forall c :: c in errors <==> ProviderDefect(provider, c)
  {
    if provider == "" {
      errors := [MissingProvider];
    } else {
      errors := When(!IsProvider(provider), InvalidProvider);
    }
  }

  method RegionErrors(region: string) returns (errors: seq<DocumentCode>)
    ensures forall c :: c in errors <==> RegionDefect(region, c)
  {
    if region == "" {
      errors := [MissingRegion];
    } else {
      errors := When(!IsSlug(region), InvalidRegion);
    }
  }

  /** The checks before the resources: schema version, provider, region, presence. */
  method HeadErrors(m: Manifest) returns (errors: seq<DocumentCode>)
    ensures forall c :: c in errors <==> HeadDefect(m, c)
  {
    var schema := SchemaErrors(m.schemaVersion);
    var provider := ProviderErrors(Lower(Trim(m.provider)));
    var region := RegionErrors(Trim(m.region));
    errors := schema + provider + region + When(|m.resources| == 0, EmptyResources);
  }

  method NameErrors(name: string, known: set<string>) returns (errors: seq<ResourceCode>, known': set<string>)
    ensures forall f :: f in errors <==> NameDefect(name, name in known, f)
    ensures known' == if IsLogicalName(name) then known + {name} else known
  {
    errors, known' := [], known;
    if name == "" {
      errors := errors + [MissingLogicalName];
    } else if !IsLogicalName(name) {
      errors := errors + [InvalidLogicalName];
    } else if name in known {
      errors := errors + [DuplicateLogicalName];
    } else {
      known' := known' + {name};
    }
  }

  method KindErrors(kind: string, provider: string) returns (errors: seq<ResourceCode>)
    ensures forall f :: f in errors <==> KindDefect(kind, provider, f)
  {
    errors := [];
    var parts := Split(kind, '.');
    if kind == "" {
      errors := errors + [MissingType];
    } else if |parts| != 3 {
      errors := errors + [InvalidTypeFormat];
    } else {
      var known, spelt := IsDomain(parts[0]), IsSlug(parts[2]);
      errors := When(!known, InvalidDomain);
      errors := errors + When(provider != "" && parts[1] != provider, ProviderMismatch);
      errors := errors + When(!spelt, InvalidKind);
    }
  }

  method LineageErrors(source: Option<Lineage>) returns (errors: seq<ResourceCode>)
    ensures forall f :: f in errors <==> LineageDefect(source, f)
  {
    errors := [];
    if source.Some? {
      var known := IsSource(source.value.source);
      errors := When(!known, InvalidSourceType);
      errors := errors + When(source.value.confidence < 0.0 || source.value.confidence > 1.0, InvalidConfidence);
    }
  }

  lemma RegisteredStep(rs: seq<Resource>, i: nat, n: string)
    requires i < |rs|
    ensures Registered(rs[..i + 1], n) <==> Registered(rs[..i], n) || (IsLogicalName(n) && n == NameOf(rs[i]))
  {
    var shorter, longer := rs[..i], rs[..i + 1];
    assert longer == shorter + [rs[i]];
    if Registered(shorter, n) {
      var j :| 0 <= j < |shorter| && NameOf(shorter[j]) == n;
      assert NameOf(longer[j]) == n;
    }
    if IsLogicalName(n) && n == NameOf(rs[i]) {
      assert NameOf(longer[i]) == n;
    }
    if Registered(longer, n) {
      var j :| 0 <= j < |longer| && NameOf(longer[j]) == n;
      assert j < i ==> NameOf(shorter[j]) == n;
    }
  }

  /** One round of the resource loop: `known` is resourceMap before the resource. */
  method ResourceErrors(m: Manifest, i: nat, known: set<string>) returns (errors: seq<ResourceCode>, known': set<string>)
    requires i < |m.resources|
    requires forall n :: n in known <==> Registered(m.resources[..i], n)
    ensures forall f :: f in errors <==> OwnDefect(m, i, f)
    ensures forall n :: n in known' <==> Registered(m.resources[..i + 1], n)
  {
    var res := m.resources[i];
    var named, typed, traced;
    named, known' := NameErrors(NameOf(res), known);
    typed := KindErrors(Trim(res.kind), ManifestProvider(m));
    traced := LineageErrors(res.source);
    errors := named + typed + traced;
    forall n ensures n in known' <==> Registered(m.resources[..i + 1], n) {
      RegisteredStep(m.resources, i, n);
    }
    TakenIsKnown(m.resources, i);
  }

  lemma TakenIsKnown(rs: seq<Resource>, i: nat)
    requires i < |rs|
    ensures IsLogicalName(NameOf(rs[i])) ==> (Taken(rs, i) <==> Registered(rs[..i], NameOf(rs[i])))
  {
    var shorter := rs[..i];
    assert forall j | 0 <= j < i :: NameOf(shorter[j]) == NameOf(rs[j]);
  }

  method DependencyErrors(rs: seq<Resource>, r: Resource, known: set<string>) returns (errors: seq<ResourceCode>)
    requires forall n :: n in known <==> Registered(rs, n)
    ensures forall f :: f in errors <==> DependencyDefect(rs, r, f)
  {
    errors := [];
    for k := 0 to |r.dependsOn|
      invariant forall f | f in errors :: f == SelfDependency || f == DanglingDependency
      invariant SelfDependency in errors <==> r.logicalName in r.dependsOn[..k]
      invariant DanglingDependency in errors <==> exists j | 0 <= j < k :: r.dependsOn[j] != r.logicalName && !Registered(rs, r.dependsOn[j])
    {
      assert r.dependsOn[..k + 1] == r.dependsOn[..k] + [r.dependsOn[k]];
      if r.dependsOn[k] == r.logicalName {
        errors := errors + [SelfDependency];
      } else if r.dependsOn[k] !in known {
        errors := errors + [DanglingDependency];
      }
    }
    assert r.dependsOn[..|r.dependsOn|] == r.dependsOn;
  }

  function Located(i: nat, faults: seq<ResourceCode>): (r: seq<Defect>)
    ensures forall d :: d in r <==> d.InResource? && d.index == i && d.fault in faults
  {
    if faults == [] then [] else [InResource(i, faults[0])] + Located(i, faults[1..])
  }

  function Headed(codes: seq<DocumentCode>): (r: seq<Defect>)
    ensures forall d :: d in r <==> d.InDocument? && d.code in codes
  {
    if codes == [] then [] else [InDocument(codes[0])] + Headed(codes[1..])
  }

  /** The resource loop. */
  method OwnErrors(m: Manifest) returns (errors: seq<Defect>, known: set<string>)
    ensures forall d :: d in errors <==> d.InResource? && d.index < |m.resources| && OwnDefect(m, d.index, d.fault)
    ensures forall n :: n in known <==> Registered(m.resources, n)
  {
    errors, known := [], {};
    var rs := m.resources;
    for i := 0 to |rs|
      invariant forall n :: n in known <==> Registered(rs[..i], n)
      invariant forall d :: d in errors <==> d.InResource? && d.index < i && OwnDefect(m, d.index, d.fault)
    {
      var faults;
      faults, known := ResourceErrors(m, i, known);
      errors := errors + Located(i, faults);
    }
    assert rs[..|rs|] == rs;
  }

  /** The dependency loop. */
  method ReferenceErrors(rs: seq<Resource>, known: set<string>) returns (errors: seq<Defect>)
    requires forall n :: n in known <==> Registered(rs, n)
    ensures forall d :: d in errors <==> d.InResource? && d.index < |rs| && DependencyDefect(rs, rs[d.index], d.fault)
  {
    errors := [];
    for i := 0 to |rs|
      invariant forall d :: d in errors <==> d.InResource? && d.index < i && DependencyDefect(rs, rs[d.index], d.fault)
    {
      var faults := DependencyErrors(rs, rs[i], known);
      errors := errors + Located(i, faults);
    }
  }

  method BodyErrors(m: Manifest) returns (errors: seq<Defect>)
    ensures forall d :: d in errors <==> d.InResource? && Has(Some(m), d)
  {
    var own, known := OwnErrors(m);
    var references := ReferenceErrors(m.resources, known);
    errors := own + references;
  }

  /** The checks after the resources: cycles and the cost estimate. */
  method TailErrors(m: Manifest) returns (errors: seq<DocumentCode>)
    requires m.resources != []
    ensures forall c :: c in errors <==> TailDefect(m, c)
  {
    var names := Map((r: Resource) => r.logicalName, m.resources);
    assert (set n | n in names) == Adjacency(m.resources).Keys by {
      forall r | r in m.resources ensures r.logicalName in names {
        var i :| 0 <= i < |m.resources| && m.resources[i] == r;
        assert names[i] == r.logicalName;
      }
    }
    var cycle := DependencyGraph.DetectCycles(names, Adjacency(m.resources));
    errors := When(|cycle| > 0, CircularDependency);
    if m.cost.Some? {
      errors := errors + When(m.cost.value.estimatedMonthlyUSD < 0.0, InvalidCost);
      errors := errors + When(m.cost.value.confidencePct < 0 || m.cost.value.confidencePct > 100, InvalidConfidencePct);
    }
  }

  /** Every defect is reported, nothing else is; the manifest is valid exactly when it
      has none. */
  method Validate(input: Option<Manifest>) returns (valid: bool, errors: seq<Defect>)
    ensures forall d :: d in errors <==> Has(input, d)
    ensures valid <==> forall d :: !Has(input, d)
  {
    if input.None? {
      assert Has(input, InDocument(NilManifest));
      return false, [InDocument(NilManifest)];
    }
    var m := input.value;
    var head := HeadErrors(m);
    errors := Headed(head);
    if |m.resources| == 0 {
      assert Has(input, InDocument(EmptyResources));
      return false, errors;
    }
    var body := BodyErrors(m);
    var tail := TailErrors(m);
    errors := errors + body + Headed(tail);
    valid := errors == [];
    assert errors != [] ==> errors[0] in errors;
  }
}
