/** What validation and rendering guarantee together about the dependency graph. */
module RenderedGraph {
  import opened Outcomes
  import opened Texts
  import opened Sorting
  import opened Manifests
  import opened Rendering
  import V = Validation
  import G = DependencyGraph

  ghost predicate DistinctNames(rs: seq<Resource>) {
    forall i, j | 0 <= i < j < |rs| :: rs[i].logicalName != rs[j].logicalName
  }

  /** Some resource list entry carries the name. */
  ghost predicate Names(rs: seq<Resource>, name: string) {
    exists j | 0 <= j < |rs| :: rs[j].logicalName == name
  }

  lemma {:induction false} WellFormedNames(m: Manifest)
    requires V.WellFormed(m)
    ensures forall i | 0 <= i < |m.resources| :: V.IsLogicalName(V.NameOf(m.resources[i]))
    ensures forall i, j | 0 <= i < j < |m.resources| :: V.NameOf(m.resources[i]) != V.NameOf(m.resources[j])
    ensures DistinctNames(m.resources)
  {
    var rs := m.resources;
    forall i | 0 <= i < |rs| ensures V.IsLogicalName(V.NameOf(rs[i])) {
      assert !V.Has(Some(m), V.InResource(i, V.MissingLogicalName));
      assert !V.Has(Some(m), V.InResource(i, V.InvalidLogicalName));
    }
    forall i, j | 0 <= i < j < |rs| ensures V.NameOf(rs[i]) != V.NameOf(rs[j]) {
      assert !V.Has(Some(m), V.InResource(j, V.DuplicateLogicalName));
      assert !V.Taken(rs, j);
    }
  }

  /** Dependencies of a valid manifest without padded names resolve by exact name. */
  lemma {:induction false} DependenciesResolve(m: Manifest, i: nat, k: nat)
    requires V.WellFormed(m) && Unpadded(m.resources)
    requires i < |m.resources| && k < |m.resources[i].dependsOn|
    ensures Names(m.resources, m.resources[i].dependsOn[k])
    ensures m.resources[i].dependsOn[k] != m.resources[i].logicalName
  {
    var r := m.resources[i];
    assert !V.Has(Some(m), V.InResource(i, V.SelfDependency));
    assert !V.Has(Some(m), V.InResource(i, V.DanglingDependency));
    assert V.Registered(m.resources, r.dependsOn[k]);
    var j :| 0 <= j < |m.resources| && V.NameOf(m.resources[j]) == r.dependsOn[k];
    assert m.resources[j].logicalName == r.dependsOn[k];
  }

  lemma {:induction false} AcyclicWhenValid(m: Manifest)
    requires V.WellFormed(m)
    ensures m.resources != [] && G.Acyclic(V.Adjacency(m.resources))
  {
    assert !V.Has(Some(m), V.InDocument(V.EmptyResources));
    assert !V.Has(Some(m), V.InDocument(V.CircularDependency));
  }

  lemma {:induction false} ResolveOnce(tk: Toolkit, rs: seq<Resource>, name: string)
    requires DistinctNames(rs)
    ensures |Resolve(tk, rs, name)| == if Names(rs, name) then 1 else 0
  {
    if rs != [] {
      var front, last := rs[..|rs| - 1], rs[|rs| - 1];
      ResolveOnce(tk, front, name);
      if Names(rs, name) {
        var j :| 0 <= j < |rs| && rs[j].logicalName == name;
        assert j < |front| ==> front[j].logicalName == name;
      }
    }
  }

  /** When rendering succeeds with nothing unsupported: names are unique, every
      dependency names exactly one rendered resource, and some order puts every
      resource after all it depends on. */
  lemma {:induction false} RenderableGraph(tk: Toolkit, m: Manifest, parameterised: bool)
    requires RenderSpec(tk, m, parameterised).Files?
    ensures DistinctNames(m.resources)
    ensures forall i, k | 0 <= i < |m.resources| && 0 <= k < |m.resources[i].dependsOn| ::
      |Resolve(tk, m.resources, m.resources[i].dependsOn[k])| == 1
    ensures exists order ::
      && G.Topological(V.Adjacency(m.resources), order)
      && forall i | 0 <= i < |m.resources| :: m.resources[i].logicalName in order
  {
    WellFormedNames(m);
    forall i, k | 0 <= i < |m.resources| && 0 <= k < |m.resources[i].dependsOn|
      ensures |Resolve(tk, m.resources, m.resources[i].dependsOn[k])| == 1
    {
      DependenciesResolve(m, i, k);
      ResolveOnce(tk, m.resources, m.resources[i].dependsOn[k]);
    }
    AcyclicWhenValid(m);
    var order := G.AcyclicIsOrdered(V.Adjacency(m.resources));
    forall i | 0 <= i < |m.resources| ensures m.resources[i].logicalName in order {
      assert m.resources[i] in m.resources;
    }
  }

  /** The graph a reader would expect: dependencies looked up by trimmed name. */
  function TrimmedGraph(rs: seq<Resource>): G.Graph {
    if rs == [] then map[]
    else TrimmedGraph(rs[..|rs| - 1])[V.NameOf(rs[|rs| - 1]) := rs[|rs| - 1].dependsOn]
  }

  predicate IsPadded(r: Resource) {
    r.logicalName != V.NameOf(r)
  }

  /** The name depends on itself, directly or through others. */
  ghost predicate ReachesItself(g: G.Graph, name: string) {
    exists w :: G.ClosedWalk(g, w) && w[0] == name
  }

  ghost predicate DistinctTrimmed(rs: seq<Resource>) {
    forall i, j | 0 <= i < j < |rs| :: V.NameOf(rs[i]) != V.NameOf(rs[j])
  }

  lemma {:induction false} AdjacencyAt(rs: seq<Resource>, i: nat)
    requires DistinctNames(rs) && i < |rs|
    ensures rs[i].logicalName in V.Adjacency(rs) && V.Adjacency(rs)[rs[i].logicalName] == rs[i].dependsOn
  {
    if i < |rs| - 1 {
      AdjacencyAt(rs[..|rs| - 1], i);
    }
  }

  lemma {:induction false} TrimmedAt(rs: seq<Resource>, i: nat)
    requires DistinctTrimmed(rs) && i < |rs|
    ensures V.NameOf(rs[i]) in TrimmedGraph(rs) && TrimmedGraph(rs)[V.NameOf(rs[i])] == rs[i].dependsOn
  {
    if i < |rs| - 1 {
      TrimmedAt(rs[..|rs| - 1], i);
    }
  }

  lemma {:induction false} TrimmedKey(rs: seq<Resource>, name: string) returns (i: nat)
    requires name in TrimmedGraph(rs)
    ensures i < |rs| && V.NameOf(rs[i]) == name
  {
    i := |rs| - 1;
    if V.NameOf(rs[i]) != name {
      i := TrimmedKey(rs[..|rs| - 1], name);
    }
  }

  /** A closed walk can start at any of its nodes. */
  lemma {:induction false} Rotated(g: G.Graph, w: seq<string>, k: nat)
    requires G.ClosedWalk(g, w) && k < |w| - 1
    ensures ReachesItself(g, w[k])
  {
    var v := w[k..] + w[1..k + 1];
    forall i | 0 <= i < |v| - 1 ensures v[i + 1] in G.Successors(g, v[i]) {
      var at := if k + i < |w| - 1 then k + i else k + i + 1 - |w|;
      assert w[at + 1] in G.Successors(g, w[at]);
    }
    assert G.ClosedWalk(g, v);
  }

  lemma {:induction false} UnpaddedStep(rs: seq<Resource>, name: string, d: string)
    requires DistinctTrimmed(rs) && d in G.Successors(TrimmedGraph(rs), name)
    requires forall i | 0 <= i < |rs| && IsPadded(rs[i]) :: V.NameOf(rs[i]) != name
    ensures d in G.Successors(V.Adjacency(rs), name)
  {
    var i := TrimmedKey(rs, name);
    TrimmedAt(rs, i);
    AdjacencyAt(rs, i);
  }

  lemma SameSteps(g: G.Graph, h: G.Graph, w: seq<string>)
    requires G.ClosedWalk(h, w) && forall k | 0 <= k < |w| - 1 :: w[k + 1] in G.Successors(g, w[k])
    ensures G.ClosedWalk(g, w)
  {
  }

  lemma {:induction false} PaddedOnWalk(rs: seq<Resource>, w: seq<string>) returns (i: nat)
    requires DistinctTrimmed(rs) && G.Acyclic(V.Adjacency(rs)) && G.ClosedWalk(TrimmedGraph(rs), w)
    ensures i < |rs| && IsPadded(rs[i]) && ReachesItself(TrimmedGraph(rs), V.NameOf(rs[i]))
  {
    if forall i, k | 0 <= i < |rs| && IsPadded(rs[i]) && 0 <= k < |w| - 1 :: V.NameOf(rs[i]) != w[k] {
      forall k | 0 <= k < |w| - 1 ensures w[k + 1] in G.Successors(V.Adjacency(rs), w[k]) {
        UnpaddedStep(rs, w[k], w[k + 1]);
      }
      SameSteps(V.Adjacency(rs), TrimmedGraph(rs), w);
    } else {
      var j, k :| 0 <= j < |rs| && IsPadded(rs[j]) && 0 <= k < |w| - 1 && V.NameOf(rs[j]) == w[k];
      Rotated(TrimmedGraph(rs), w, k);
      i := j;
    }
  }

  /** The dependencies of a valid manifest, looked up by trimmed name, are without a cycle if
      and only if no padded resource reaches itself. */
  lemma {:induction false} TrimmedAcyclicExactly(m: Manifest)
    requires V.WellFormed(m)
    ensures G.Acyclic(TrimmedGraph(m.resources)) <==>
      forall i | 0 <= i < |m.resources| && IsPadded(m.resources[i]) ::
        !ReachesItself(TrimmedGraph(m.resources), V.NameOf(m.resources[i]))
  {
    WellFormedNames(m);
    AcyclicWhenValid(m);
    var g := TrimmedGraph(m.resources);
    if w :| G.ClosedWalk(g, w) {
      var i := PaddedOnWalk(m.resources, w);
    }
  }

  /** A resource of a valid manifest that lists its own trimmed name is padded, and then it
      reaches itself. */
  lemma {:induction false} SelfDependencyIsPadded(m: Manifest, i: nat)
    requires V.WellFormed(m) && i < |m.resources|
    requires V.NameOf(m.resources[i]) in m.resources[i].dependsOn
    ensures IsPadded(m.resources[i]) && ReachesItself(TrimmedGraph(m.resources), V.NameOf(m.resources[i]))
  {
    var r := m.resources[i];
    assert !V.Has(Some(m), V.InResource(i, V.SelfDependency));
    WellFormedNames(m);
    SelfLoop(m.resources, i);
  }

  lemma {:induction false} SelfLoop(rs: seq<Resource>, i: nat)
    requires DistinctTrimmed(rs) && i < |rs| && V.NameOf(rs[i]) in rs[i].dependsOn
    ensures ReachesItself(TrimmedGraph(rs), V.NameOf(rs[i]))
  {
    TrimmedAt(rs, i);
    var w := [V.NameOf(rs[i]), V.NameOf(rs[i])];
    assert G.ClosedWalk(TrimmedGraph(rs), w);
  }

  /** The resource with its name padded, depending on that name. */
  function SelfPadded(r: Resource): Resource {
    r.(logicalName := " " + r.logicalName, dependsOn := r.dependsOn + [r.logicalName])
  }

  function PadAt(m: Manifest, i: nat): Manifest
    requires i < |m.resources|
  {
    m.(resources := m.resources[i := SelfPadded(m.resources[i])])
  }

  lemma {:induction false} PaddingIsTrimmed(m: Manifest, i: nat)
    requires i < |m.resources| && !IsPadded(m.resources[i])
    ensures var rs := PadAt(m, i).resources;
      IsPadded(rs[i]) && forall j | 0 <= j < |rs| :: V.NameOf(rs[j]) == V.NameOf(m.resources[j])
  {
    var r := m.resources[i];
    assert (" " + r.logicalName)[1..] == r.logicalName;
    assert TrimLeft(" " + r.logicalName) == TrimLeft(r.logicalName);
  }

  lemma {:induction false} RegisteredAlike(rs: seq<Resource>, qs: seq<Resource>, name: string)
    requires |rs| == |qs| && forall j | 0 <= j < |rs| :: V.NameOf(rs[j]) == V.NameOf(qs[j])
    ensures V.Registered(rs, name) <==> V.Registered(qs, name)
    ensures forall i | 0 <= i < |rs| :: V.Taken(rs, i) <==> V.Taken(qs, i)
  {
  }

  /** Dependencies of a valid manifest are registered names. */
  lemma {:induction false} DependenciesRegistered(m: Manifest, i: nat)
    requires V.WellFormed(m) && i < |m.resources|
    ensures forall d | d in m.resources[i].dependsOn :: V.Registered(m.resources, d) && d != m.resources[i].logicalName
  {
    assert !V.Has(Some(m), V.InResource(i, V.SelfDependency));
    assert !V.Has(Some(m), V.InResource(i, V.DanglingDependency));
    assert !V.DependencyDefect(m.resources, m.resources[i], V.DanglingDependency);
  }

  lemma {:induction false} PadFindsDependencies(m: Manifest, i: nat, j: nat, f: V.ResourceCode)
    requires V.WellFormed(m) && i < |m.resources| && !IsPadded(m.resources[i]) && j < |m.resources|
    ensures !V.DependencyDefect(PadAt(m, i).resources, PadAt(m, i).resources[j], f)
  {
    var rs, qs := m.resources, PadAt(m, i).resources;
    PaddingIsTrimmed(m, i);
    WellFormedNames(m);
    DependenciesRegistered(m, j);
    forall d | d in qs[j].dependsOn ensures V.Registered(qs, d) && d != qs[j].logicalName {
      RegisteredAlike(rs, qs, d);
      if j == i {
        assert d == rs[i].logicalName || d in rs[i].dependsOn;
        assert V.NameOf(rs[i]) == rs[i].logicalName;
        assert V.IsNameChar(d[0]) && qs[i].logicalName[0] == ' ';
      }
    }
  }

  /** Nothing lists the padded name, and the bare name has no successors any more. */
  lemma {:induction false} PadStep(m: Manifest, i: nat, name: string, d: string)
    requires V.WellFormed(m) && i < |m.resources| && !IsPadded(m.resources[i])
    requires d in G.Successors(V.Adjacency(PadAt(m, i).resources), name) && name != PadAt(m, i).resources[i].logicalName
    ensures d in G.Successors(V.Adjacency(m.resources), name)
  {
    var rs, qs := m.resources, PadAt(m, i).resources;
    PaddingIsTrimmed(m, i);
    WellFormedNames(m);
    var j :| 0 <= j < |qs| && qs[j].logicalName == name;
    AdjacencyAt(qs, j);
    AdjacencyAt(rs, j);
  }

  lemma {:induction false} PadLists(m: Manifest, i: nat, j: nat, d: string)
    requires V.WellFormed(m) && i < |m.resources| && !IsPadded(m.resources[i])
    requires j < |m.resources| && d in PadAt(m, i).resources[j].dependsOn
    ensures d != PadAt(m, i).resources[i].logicalName
  {
    var r := m.resources[i];
    WellFormedNames(m);
    DependenciesRegistered(m, j);
    assert d == r.logicalName || d in m.resources[j].dependsOn;
    assert V.IsNameChar(d[0]);
  }

  lemma {:induction false} PadListed(m: Manifest, i: nat, name: string, d: string)
    requires V.WellFormed(m) && i < |m.resources| && !IsPadded(m.resources[i])
    requires d in G.Successors(V.Adjacency(PadAt(m, i).resources), name)
    ensures d != PadAt(m, i).resources[i].logicalName
  {
    var qs := PadAt(m, i).resources;
    PaddingIsTrimmed(m, i);
    WellFormedNames(m);
    var j :| 0 <= j < |qs| && qs[j].logicalName == name;
    AdjacencyAt(qs, j);
    PadLists(m, i, j, d);
  }

  lemma {:induction false} PadIsAcyclic(m: Manifest, i: nat)
    requires V.WellFormed(m) && i < |m.resources| && !IsPadded(m.resources[i])
    ensures G.Acyclic(V.Adjacency(PadAt(m, i).resources))
  {
    var g, h := V.Adjacency(m.resources), V.Adjacency(PadAt(m, i).resources);
    AcyclicWhenValid(m);
    if w :| G.ClosedWalk(h, w) {
      forall k | 0 <= k < |w| - 1 ensures w[k + 1] in G.Successors(g, w[k]) {
        assert w[k + 1] in G.Successors(h, w[k]);
        var before := if k == 0 then |w| - 2 else k - 1;
        assert w[before + 1] in G.Successors(h, w[before]);
        PadListed(m, i, w[before], w[k]);
        PadStep(m, i, w[k], w[k + 1]);
      }
      SameSteps(g, h, w);
    }
  }

  lemma {:induction false} PadHasNoDefect(m: Manifest, i: nat, d: V.Defect)
    requires V.WellFormed(m) && i < |m.resources| && !IsPadded(m.resources[i])
    ensures !V.Has(Some(PadAt(m, i)), d)
  {
    var rs, qs := m.resources, PadAt(m, i).resources;
    assert !V.Has(Some(m), d);
    match d
    case InDocument(code) => PadIsAcyclic(m, i);
    case InResource(j, fault) =>
      if j < |qs| {
        PadFindsDependencies(m, i, j, fault);
        PaddingIsTrimmed(m, i);
        RegisteredAlike(rs, qs, "");
        assert !V.OwnDefect(m, j, fault);
      }
  }

  /** The validator alone does not exclude such a cycle: in every valid manifest, any resource
      can have its name padded and depend on itself, and the manifest stays valid. The
      renderer's white space check is what excludes it. */
  lemma {:induction false} PaddedSelfDependencyIsValid(m: Manifest, i: nat)
    requires V.WellFormed(m) && i < |m.resources| && !IsPadded(m.resources[i])
    ensures var rs := PadAt(m, i).resources;
      && V.WellFormed(PadAt(m, i)) && !Unpadded(rs)
      && V.NameOf(rs[i]) in rs[i].dependsOn && !G.Acyclic(TrimmedGraph(rs))
  {
    forall d ensures !V.Has(Some(PadAt(m, i)), d) {
      PadHasNoDefect(m, i, d);
    }
    PaddingIsTrimmed(m, i);
    var rs := PadAt(m, i).resources;
    assert rs[i].dependsOn[|m.resources[i].dependsOn|] == m.resources[i].logicalName;
    SelfDependencyIsPadded(PadAt(m, i), i);
    assert rs[i].logicalName != Trim(rs[i].logicalName);
  }
}

/** Packing rendered resources into a module (backend/internal/terraform/bundle.go). */
module Bundling {
  import opened Outcomes
  import opened Texts
  import opened Sorting
  import opened Manifests
  import opened Rendering
  import opened RenderedGraph
  import V = Validation

  /** The lossless alias: a bucket may be called by `name`. */
  predicate AliasApplies(r: Resource) {
    r.kind == "storage.aws.s3" && !Absent(r.properties, "name")
  }

  predicate AliasOk(r: Resource) {
    AliasApplies(r) ==>
      && r.properties["name"].Text?
      && ("bucket" in r.properties ==> r.properties["bucket"] == r.properties["name"])
  }

  function Aliased(r: Resource): Resource {
    if AliasApplies(r) then r.(properties := r.properties["bucket" := r.properties["name"]] - {"name"}) else r
  }

  function AliasedAll(m: Manifest): Manifest {
    m.(resources := Map(Aliased, m.resources))
  }

  /** The reviewed root blocks. */
  function ProviderConfig(provider: string): Option<string> {
    var p := Lower(Trim(provider));
    if p == "aws" then Some("terraform {\n  required_providers {\n    aws = { source = \"hashicorp/aws\", version = \"~> 5.0\" }\n  }\n  backend \"s3\" {}\n}\nprovider \"aws\" {\n  region = var.region\n}\n")
    else if p == "azure" then Some("terraform {\n  required_providers {\n    azurerm = { source = \"hashicorp/azurerm\", version = \"~> 4.0\" }\n  }\n  backend \"azurerm\" {}\n}\nprovider \"azurerm\" {\n  features {}\n}\n")
    else if p == "gcp" then Some("terraform {\n  required_providers {\n    google = { source = \"hashicorp/google\", version = \"~> 6.0\" }\n  }\n  backend \"gcs\" {}\n}\nprovider \"google\" {\n  region = var.region\n}\n")
    else None
  }

  function VariableOf(r: Resource): string {
    "r_" + r.logicalName
  }

  /** The first path segment of the resource's template. */
  function DomainOf(tk: Toolkit, r: Resource): string {
    var s := tk.catalog(Trim(r.kind));
    if s.None? then "" else Split(s.value.Path(), '/')[0]
  }

  /** The text one resource adds to each generated file. */
  datatype Part = Part(declaration: string, value: string, argument: string, output: string, domain: string, body: string)

  datatype Field = Declaration | Value | Argument | Output

  function Get(p: Part, field: Field): string {
    match field
    case Declaration => p.declaration
    case Value => p.value
    case Argument => p.argument
    case Output => p.output
  }

  function Gathered(parts: seq<Part>, field: Field): string {
    if parts == [] then "" else Gathered(parts[..|parts| - 1], field) + Get(parts[|parts| - 1], field)
  }

  /** The text of one domain file: the bodies of its resources, in list order. */
  function DomainText(parts: seq<Part>, domain: string): string {
    if parts == [] then ""
    else
      var last := parts[|parts| - 1];
      DomainText(parts[..|parts| - 1], domain) + if last.domain == domain then last.body else ""
  }

  /** The domains in order of first appearance. */
  function Domains(parts: seq<Part>): seq<string> {
    if parts == [] then []
    else
      var front, last := Domains(parts[..|parts| - 1]), parts[|parts| - 1].domain;
      if last in front then front else front + [last]
  }

  lemma {:induction false} DomainsListed(parts: seq<Part>)
    ensures forall d :: d in Domains(parts) <==> exists i | 0 <= i < |parts| :: parts[i].domain == d
    ensures NoDuplicates(Domains(parts))
  {
    if parts != [] {
      var front := parts[..|parts| - 1];
      DomainsListed(front);
      assert forall i | 0 <= i < |front| :: front[i] == parts[i];
    }
  }

  function BodyOf(content: Option<string>): string {
    (if content.None? then "" else content.value) + "\n"
  }

  function PartOf(tk: Toolkit, content: Option<string>, r: Resource): Part {
    var s := tk.catalog(Trim(r.kind));
    var v := VariableOf(r);
    Part("variable " + HclText(tk, Text(v)) + " {\n  type = any\n}\n",
         v + " = " + HclText(tk, Object(if s.None? then r.properties else Completed(r, s.value))) + "\n",
         "  " + v + " = var." + v + "\n",
         "    " + HclText(tk, Text(r.logicalName)) + " = " + (if s.None? then "" else s.value.terraformType) + "." + v + ".id\n",
         DomainOf(tk, r),
         BodyOf(content))
  }

  function Parter(tk: Toolkit, printer: Resource -> Option<string>): Resource -> Part {
    (r: Resource) => PartOf(tk, printer(r), r)
  }

  function DomainPath(domain: string): string {
    "resources/" + domain + ".tf"
  }

  predicate ByPath(a: File, b: File) {
    AtMost(a.path, b.path)
  }

  function FixedFiles(config: string, region: string, parts: seq<Part>): seq<File> {
    [File("outputs.tf", "output \"resource_ids\" {\n  value = module.resources.resource_ids\n}\n"),
     File("main.tf", config + "module \"resources\" {\n  source = \"./resources\"\n" + Gathered(parts, Argument) + "}\n"),
     File("variables.tf", "variable \"region\" {\n  type = string\n}\n" + Gathered(parts, Declaration)),
     File("terraform.tfvars", "region = " + region + "\n" + Gathered(parts, Value)),
     File("resources/variables.tf", Gathered(parts, Declaration)),
     File("resources/outputs.tf", "output \"resource_ids\" {\n  value = {\n" + Gathered(parts, Output) + "  }\n}\n")]
  }

  function DomainFiles(parts: seq<Part>, domains: seq<string>): (r: seq<File>)
    ensures |r| == |domains|
    ensures forall i | 0 <= i < |r| :: r[i] == File(DomainPath(domains[i]), DomainText(parts, domains[i]))
  {
    seq(|domains|, i requires 0 <= i < |domains| => File(DomainPath(domains[i]), DomainText(parts, domains[i])))
  }

  function Listing(fixed: seq<File>, parts: seq<Part>): seq<File> {
    fixed + DomainFiles(parts, Domains(parts))
  }

  /** The second call of `properties` accepts the resource as it is written. */
  function Accepts(tk: Toolkit): Resource -> bool {
    (r: Resource) =>
      var s := tk.catalog(Trim(r.kind));
      s.Some? && PropertiesOk(tk, r, s.value)
  }

  ghost predicate AllAccepted(accepts: Resource -> bool, rs: seq<Resource>) {
    forall i | 0 <= i < |rs| :: accepts(rs[i])
  }

  /** What is packed once the aliased manifest is rendered. */
  ghost function PackSpec(tk: Toolkit, m: Manifest, rendered: Rendered): Rendered {
    var rs := Sorted(m.resources);
    var config := tk.config(m.provider);
    if !rendered.Files? then rendered
    else if config.None? || !AllAccepted(Accepts(tk), rs) then Failed
    else
      var parts := Map(Parter(tk, Printer(tk, m.tags, rs, true)), rs);
      Files(Sort(ByPath, Listing(FixedFiles(config.value, HclText(tk, Text(Trim(m.region))), parts), parts)))
  }

  /** Alias, then pack what rendering the aliased manifest gave. */
  ghost function BundleFrom(tk: Toolkit, m: Manifest, rendered: Rendered): Rendered {
    if exists r | r in m.resources :: !AliasOk(r) then Failed else PackSpec(tk, AliasedAll(m), rendered)
  }

  ghost function BundleSpec(tk: Toolkit, m: Manifest): Rendered {
    BundleFrom(tk, m, RenderSpec(tk, AliasedAll(m), true))
  }

  /** The alias loop over a copy of the resources. */
  method TranslateAliases(rs: seq<Resource>) returns (ok: bool, copy: seq<Resource>)
    ensures ok <==> forall r | r in rs :: AliasOk(r)
    ensures ok ==> copy == Map(Aliased, rs)
  {
    copy := rs;
    for i := 0 to |rs|
      invariant |copy| == |rs|
      invariant forall k | 0 <= k < i :: AliasOk(rs[k]) && copy[k] == Aliased(rs[k])
      invariant forall k | i <= k < |rs| :: copy[k] == rs[k]
    {
      var r := copy[i];
      if r.kind != "storage.aws.s3" || Absent(r.properties, "name") {
        assert !AliasApplies(r);
      } else {
        var props := r.properties;
        var name := props["name"];
        if !name.Text? || ("bucket" in props && props["bucket"] != name) {
          assert rs[i] in rs;
          return false, copy;
        }
        props := props["bucket" := name];
        props := props - {"name"};
        copy := copy[i := r.(properties := props)];
      }
    }
    return true, copy;
  }

  /** The text of every rendered file with the wanted path. */
  function MatchText(files: seq<File>, path: string): string {
    if files == [] then ""
    else
      var last := files[|files| - 1];
      MatchText(files[..|files| - 1], path) + if last.path == path then last.content + "\n" else ""
  }

  method FindContent(files: seq<File>, path: string) returns (text: string)
    ensures text == MatchText(files, path)
  {
    text := "";
    for i := 0 to |files|
      invariant text == MatchText(files[..i], path)
    {
      assert files[..i + 1][..i] == files[..i];
      if files[i].path == path {
        text := text + (files[i].content + "\n");
      }
    }
    assert files[..|files|] == files;
  }

  lemma FilePathInjective(a: Resource, b: Resource)
    requires FilePath(a) == FilePath(b)
    ensures a.logicalName == b.logicalName
  {
    var p := FilePath(a);
    assert a.logicalName == p[|"resource_"|..|p| - 3] == b.logicalName;
  }

  /** When paths differ, the search finds one file. */
  lemma {:induction false} MatchOne(files: seq<File>, i: nat, path: string)
    requires forall k | 0 <= k < |files| && k != i :: files[k].path != path
    requires i < |files| ==> files[i].path == path
    ensures MatchText(files, path) == if i < |files| then files[i].content + "\n" else ""
  {
    if files != [] {
      MatchOne(files[..|files| - 1], i, path);
    }
  }

  lemma {:induction false} PrintedFiles(printer: Resource -> Option<string>, rs: seq<Resource>, n: nat)
    requires n <= |rs| && PrintAll(printer, rs, n).Some?
    ensures var files := PrintAll(printer, rs, n).value;
      |files| == n && forall k | 0 <= k < n :: printer(rs[k]).Some? && files[k] == FileOf(rs[k], printer(rs[k]))
  {
    if n > 0 {
      PrintedFiles(printer, rs, n - 1);
    }
  }

  lemma {:induction false} MatchSplit(head: File, files: seq<File>, path: string)
    requires head.path != path
    ensures MatchText([head] + files, path) == MatchText(files, path)
  {
    var all := [head] + files;
    if files == [] {
      assert all[..0] == [];
    } else {
      assert all[..|all| - 1] == [head] + files[..|files| - 1];
      MatchSplit(head, files[..|files| - 1], path);
    }
  }

  lemma ProvidersPathDiffers(r: Resource)
    ensures FilePath(r) != "providers.tf"
  {
    assert FilePath(r)[0] == 'r';
  }

  /** `parter` and `accepts` are the two readings of a resource, and the search for its
      file comes back with what was printed for it. */
  ghost predicate PacksAs(
    parter: Resource -> Part, accepts: Resource -> bool, tk: Toolkit, printer: Resource -> Option<string>,
    files: seq<File>, rs: seq<Resource>)
  {
    forall r {:trigger Asked(r)} :: Asked(r) && r in rs ==>
      && parter(r) == PartOf(tk, printer(r), r)
      && accepts(r) == Accepts(tk)(r)
      && MatchText(files, FilePath(r)) == BodyOf(printer(r))
  }

  /** The domains map after the parts so far. */
  function DomainMap(parts: seq<Part>): map<string, string> {
    if parts == [] then map[]
    else
      var before, last := DomainMap(parts[..|parts| - 1]), parts[|parts| - 1];
      before[last.domain := (if last.domain in before then before[last.domain] else "") + last.body]
  }

  lemma {:induction false} DomainMapHolds(parts: seq<Part>, d: string)
    ensures d in DomainMap(parts) <==> d in Domains(parts)
    ensures DomainText(parts, d) == if d in DomainMap(parts) then DomainMap(parts)[d] else ""
  {
    if parts != [] {
      DomainMapHolds(parts[..|parts| - 1], d);
    }
  }

  /** One round of the packing loop. */
  method PackOne(
    ghost parter: Resource -> Part, ghost accepts: Resource -> bool, ghost printer: Resource -> Option<string>,
    ghost rs: seq<Resource>, tk: Toolkit, files: seq<File>, r: Resource)
    returns (part: Option<Part>)
    requires PacksAs(parter, accepts, tk, printer, files, rs) && r in rs
    ensures part == if accepts(r) then Some(parter(r)) else None
  {
    assert Asked(r);
    var s := tk.catalog(Trim(r.kind));
    if s.None? {
      return None;
    }
    var props := Properties(tk, r, s.value);
    if props.None? {
      return None;
    }
    var text := FindContent(files, FilePath(r));
    var v := VariableOf(r);
    return Some(Part(
      "variable " + HclText(tk, Text(v)) + " {\n  type = any\n}\n",
      v + " = " + HclText(tk, Object(props.value)) + "\n",
      "  " + v + " = var." + v + "\n",
      "    " + HclText(tk, Text(r.logicalName)) + " = " + s.value.terraformType + "." + v + ".id\n",
      Split(s.value.Path(), '/')[0],
      text));
  }

  /** The packing loop: one part per resource, bodies collected by domain. */
  method Gather(
    ghost parter: Resource -> Part, ghost accepts: Resource -> bool, ghost printer: Resource -> Option<string>,
    tk: Toolkit, files: seq<File>, rs: seq<Resource>)
    returns (ok: bool, parts: seq<Part>, domains: map<string, string>)
    requires PacksAs(parter, accepts, tk, printer, files, rs)
    ensures ok <==> AllAccepted(accepts, rs)
    ensures ok ==> parts == Map(parter, rs)
    ensures ok ==> domains == DomainMap(parts)
  {
    parts, domains := [], map[];
    for i := 0 to |rs|
      invariant forall k | 0 <= k < i :: accepts(rs[k])
      invariant |parts| == i && forall k | 0 <= k < i :: parts[k] == parter(rs[k])
      invariant domains == DomainMap(parts)
    {
      var part := PackOne(parter, accepts, printer, rs, tk, files, rs[i]);
      if part.None? {
        return false, parts, domains;
      }
      var p := part.value;
      var sofar := if p.domain in domains then domains[p.domain] else "";
      assert (parts + [p])[..|parts|] == parts;
      domains := domains[p.domain := sofar + p.body];
      parts := parts + [p];
    }
    return true, parts, domains;
  }

  /** No template directory clashes with the two generated resource files, and AWS has a
      root block. */
  ghost predicate Reviewed(tk: Toolkit) {
    && (forall kind :: tk.catalog(kind).Some? ==> Split(tk.catalog(kind).value.Path(), '/')[0] !in {"variables", "outputs"})
    && (forall provider :: Lower(Trim(provider)) == "aws" ==> tk.config(provider).Some?)
  }

  /** The reviewed catalogue uses four directories. */
  lemma {:induction false} CatalogDomains(kind: string)
    requires Catalog(kind).Some?
    ensures Split(Catalog(kind).value.Path(), '/')[0] in {"compute", "storage", "database", "networking"}
  {
    var spec := Catalog(kind).value;
    assert forall c | c in spec.directory :: c != '/' by {
      assert spec.directory in {"compute", "storage", "database", "networking"};
    }
    SplitGlued(spec.directory, '/', spec.file);
  }

  lemma {:induction false} CatalogIsReviewed(tk: Toolkit)
    requires forall kind :: tk.catalog(kind) == Catalog(kind)
    requires forall provider :: tk.config(provider) == ProviderConfig(provider)
    ensures Reviewed(tk)
  {
    forall kind | tk.catalog(kind).Some?
      ensures Split(tk.catalog(kind).value.Path(), '/')[0] !in {"variables", "outputs"}
    {
      CatalogDomains(kind);
    }
  }

  lemma {:induction false} NamesSurviveSorting(rs: seq<Resource>, other: seq<Resource>)
    requires DistinctNames(rs) && multiset(rs) == multiset(other)
    ensures DistinctNames(other)
  {
    var f := (r: Resource) => r.logicalName;
    var a, b := Map(f, rs), Map(f, other);
    MapMultiset(f, rs, other);
    NoDuplicatesMultiset(a);
    NoDuplicatesMultiset(b);
    forall i, j | 0 <= i < j < |rs| ensures a[i] != a[j] {
      assert rs[i].logicalName != rs[j].logicalName;
    }
    forall i, j | 0 <= i < j < |other| ensures other[i].logicalName != other[j].logicalName {
      assert b[i] != b[j];
    }
  }

  lemma {:induction false} SortedNames(rs: seq<Resource>)
    requires DistinctNames(rs)
    ensures DistinctNames(Sorted(rs)) && SortedBy(ByName, Sorted(rs)) && multiset(Sorted(rs)) == multiset(rs)
  {
    ByNameIsOrder();
    SortSorts(ByName, rs);
    SortPermutes(ByName, rs);
    NamesSurviveSorting(rs, Sorted(rs));
  }

  lemma {:induction false} ByNameIsOrder()
    ensures TotalPreorder(ByName)
  {
    AtMostIsOrder();
    forall a: Resource, b: Resource ensures ByName(a, b) || ByName(b, a) {
      AtMostTotal(a.logicalName, b.logicalName);
    }
    forall a: Resource, b: Resource, c: Resource | ByName(a, b) && ByName(b, c) ensures ByName(a, c) {
      AtMostTransitive(a.logicalName, b.logicalName, c.logicalName);
    }
  }

  lemma {:induction false} ByPathIsOrder()
    ensures TotalPreorder(ByPath)
  {
    forall a: File, b: File ensures ByPath(a, b) || ByPath(b, a) {
      AtMostTotal(a.path, b.path);
    }
    forall a: File, b: File, c: File | ByPath(a, b) && ByPath(b, c) ensures ByPath(a, c) {
      AtMostTransitive(a.path, b.path, c.path);
    }
  }

  /** Two arrangements of one list sort alike when names differ. */
  lemma {:induction false} SortedNamesUnique(rs: seq<Resource>, other: seq<Resource>)
    requires DistinctNames(rs) && multiset(rs) == multiset(other)
    ensures Sorted(rs) == Sorted(other)
  {
    NamesSurviveSorting(rs, other);
    SortedNames(rs);
    SortedNames(other);
    var a := Sorted(rs);
    forall x, y | x in a && y in a && ByName(x, y) && ByName(y, x) ensures x == y {
      AtMostAntisymmetric(x.logicalName, y.logicalName);
    }
    SortedUnique(ByName, a, Sorted(other));
  }

  ghost predicate DistinctPaths(files: seq<File>) {
    forall i, j | 0 <= i < j < |files| :: files[i].path != files[j].path
  }

  lemma {:induction false} FilesSortUniquely(a: seq<File>, b: seq<File>)
    requires DistinctPaths(a) && DistinctPaths(b) && forall f :: f in a <==> f in b
    ensures Sort(ByPath, a) == Sort(ByPath, b)
    ensures SortedBy(ByPath, Sort(ByPath, a)) && DistinctPaths(Sort(ByPath, a))
    ensures forall f :: f in Sort(ByPath, a) <==> f in a
  {
    ByPathIsOrder();
    SortSorts(ByPath, a);
    SortSorts(ByPath, b);
    SortPermutes(ByPath, a);
    SortPermutes(ByPath, b);
    NoDuplicatesMultiset(a);
    NoDuplicatesMultiset(b);
    assert forall f :: multiset(a)[f] == multiset(b)[f] by {
      forall f ensures multiset(a)[f] == multiset(b)[f] {
        assert (f in a <==> f in multiset(a)) && (f in b <==> f in multiset(b));
      }
    }
    assert multiset(a) == multiset(b);
    var sorted := Sort(ByPath, a);
    forall x, y | x in sorted && y in sorted && ByPath(x, y) && ByPath(y, x) ensures x == y {
      AtMostAntisymmetric(x.path, y.path);
    }
    SortedUnique(ByPath, sorted, Sort(ByPath, b));
    NoDuplicatesMultiset(sorted);
  }

  lemma DomainPathInjective(a: string, b: string)
    requires DomainPath(a) == DomainPath(b)
    ensures a == b
  {
    var p := DomainPath(a);
    assert a == p[10..|p| - 3] == b;
  }

  lemma {:induction false} DomainPathIsFree(d: string, config: string, region: string, parts: seq<Part>)
    requires d !in {"variables", "outputs"}
    ensures forall f | f in FixedFiles(config, region, parts) :: f.path != DomainPath(d)
  {
    assert DomainPath(d)[0] == 'r' && DomainPath(d)[..10] == "resources/";
    if DomainPath(d) == "resources/variables.tf" {
      assert "resources/variables.tf" == DomainPath("variables");
      DomainPathInjective(d, "variables");
    }
    if DomainPath(d) == "resources/outputs.tf" {
      assert "resources/outputs.tf" == DomainPath("outputs");
      DomainPathInjective(d, "outputs");
    }
    assert "outputs.tf"[0] == 'o' && "main.tf"[0] == 'm' && "variables.tf"[0] == 'v' && "terraform.tfvars"[0] == 't';
  }

  lemma FixedPathsDiffer(config: string, region: string, parts: seq<Part>)
    ensures DistinctPaths(FixedFiles(config, region, parts))
  {
    assert |"outputs.tf"| == 10 && |"main.tf"| == 7 && |"variables.tf"| == 12 && |"terraform.tfvars"| == 16;
    assert |"resources/variables.tf"| == 22 && |"resources/outputs.tf"| == 20;
  }

  lemma {:induction false} ListingPaths(tk: Toolkit, rs: seq<Resource>, parts: seq<Part>, domains: seq<string>, fixed: seq<File>, config: string, region: string)
    requires Reviewed(tk) && AllAccepted(Accepts(tk), rs) && |parts| == |rs|
    requires forall i | 0 <= i < |rs| :: parts[i].domain == DomainOf(tk, rs[i])
    requires NoDuplicates(domains) && forall d :: d in domains <==> d in Domains(parts)
    requires fixed == FixedFiles(config, region, parts)
    ensures DistinctPaths(fixed + DomainFiles(parts, domains))
  {
    DomainsListed(parts);
    forall k | 0 <= k < |domains| ensures domains[k] !in {"variables", "outputs"} {
      assert domains[k] in Domains(parts);
      var i :| 0 <= i < |parts| && parts[i].domain == domains[k];
      assert Accepts(tk)(rs[i]);
    }
    FixedPathsDiffer(config, region, parts);
    var own := DomainFiles(parts, domains);
    forall i, k | 0 <= i < |fixed| && 0 <= k < |own| ensures fixed[i].path != own[k].path {
      DomainPathIsFree(domains[k], config, region, parts);
      assert fixed[i] in fixed;
    }
    forall i, k | 0 <= i < k < |own| ensures own[i].path != own[k].path {
      if own[i].path == own[k].path {
        DomainPathInjective(domains[i], domains[k]);
      }
    }
  }

  lemma PartDomains(tk: Toolkit, printer: Resource -> Option<string>, rs: seq<Resource>)
    ensures var parts := Map(Parter(tk, printer), rs);
      forall i | 0 <= i < |rs| :: parts[i].domain == DomainOf(tk, rs[i])
  {
  }

  /** The files of the domains map, taken in any order. */
  method ListDomains(parts: seq<Part>, domains: map<string, string>) returns (order: seq<string>, files: seq<File>)
    requires domains == DomainMap(parts)
    ensures NoDuplicates(order) && forall d :: d in order <==> d in Domains(parts)
    ensures files == DomainFiles(parts, order)
  {
    forall d ensures (d in domains <==> d in Domains(parts)) && (d in domains ==> domains[d] == DomainText(parts, d)) {
      DomainMapHolds(parts, d);
    }
    order, files := [], [];
    var todo := domains.Keys;
    while todo != {}
      invariant todo <= domains.Keys
      invariant NoDuplicates(order) && forall d :: d in order <==> d in domains && d !in todo
      invariant files == DomainFiles(parts, order)
    {
      var d :| d in todo;
      files := files + [File(DomainPath(d), domains[d])];
      order := order + [d];
      todo := todo - {d};
    }
  }

  lemma SameDomainFiles(fixed: seq<File>, parts: seq<Part>, order: seq<string>)
    requires forall d :: d in order <==> d in Domains(parts)
    ensures forall f :: f in fixed + DomainFiles(parts, order) <==> f in Listing(fixed, parts)
  {
    var a, b := DomainFiles(parts, order), DomainFiles(parts, Domains(parts));
    forall f | f in a ensures f in b {
      var i :| 0 <= i < |a| && a[i] == f;
      assert order[i] in Domains(parts);
      var j :| 0 <= j < |b| && Domains(parts)[j] == order[i];
      assert b[j] == f;
    }
    forall f | f in b ensures f in a {
      var j :| 0 <= j < |b| && b[j] == f;
      assert Domains(parts)[j] in order;
      var i :| 0 <= i < |a| && order[i] == Domains(parts)[j];
      assert a[i] == f;
    }
  }

  /** The search among the printed files finds what was printed for the resource. */
  lemma {:induction false} MatchPrinted(printer: Resource -> Option<string>, rs: seq<Resource>, head: File, r: Resource)
    requires DistinctNames(rs) && r in rs && head.path == "providers.tf" && PrintAll(printer, rs, |rs|).Some?
    ensures MatchText([head] + PrintAll(printer, rs, |rs|).value, FilePath(r)) == BodyOf(printer(r))
  {
    var printed := PrintAll(printer, rs, |rs|).value;
    PrintedFiles(printer, rs, |rs|);
    var i :| 0 <= i < |rs| && rs[i] == r;
    ProvidersPathDiffers(r);
    MatchSplit(head, printed, FilePath(r));
    OwnPathOnly(rs, i);
    MatchOne(printed, i, FilePath(r));
  }

  lemma {:induction false} RenderedFound(tk: Toolkit, m: Manifest, rendered: Rendered)
    requires rendered == RenderSpec(tk, m, true) && rendered.Files?
    ensures var rs := Sorted(m.resources);
      var printer := Printer(tk, m.tags, rs, true);
      PacksAs(Parter(tk, printer), Accepts(tk), tk, printer, rendered.files, rs)
  {
    var rs := Sorted(m.resources);
    var printer := Printer(tk, m.tags, rs, true);
    WellFormedNames(m);
    SortedNames(m.resources);
    forall r | r in rs ensures MatchText(rendered.files, FilePath(r)) == BodyOf(printer(r)) {
      MatchPrinted(printer, rs, ProvidersFile(tk, m.region), r);
    }
  }

  lemma OwnPathOnly(rs: seq<Resource>, i: nat)
    requires i < |rs| && DistinctNames(rs)
    ensures forall k | 0 <= k < |rs| && k != i :: FilePath(rs[k]) != FilePath(rs[i])
  {
    forall k | 0 <= k < |rs| && k != i ensures FilePath(rs[k]) != FilePath(rs[i]) {
      if FilePath(rs[k]) == FilePath(rs[i]) {
        FilePathInjective(rs[k], rs[i]);
      }
    }
  }

  /** Alias, render, pack, sort: whatever order the domains map is walked in, the
      result is the one the specification gives. */
  method Bundle(tk: Toolkit, input: Option<Manifest>) returns (out: Rendered)
    requires Reviewed(tk)
    ensures out == if input.None? then Failed else BundleSpec(tk, input.value)
  {
    if input.None? {
      out := Render(tk, None, true);
      return;
    }
    var ok, copy := TranslateAliases(input.value.resources);
    if !ok {
      return Failed;
    }
    var m := input.value.(resources := copy);
    var rendered := Render(tk, Some(m), true);
    if !rendered.Files? {
      return rendered;
    }
    var config := tk.config(m.provider);
    if config.None? {
      return Failed;
    }
    out := Pack(tk, m, rendered, config.value);
  }

  method Pack(tk: Toolkit, m: Manifest, rendered: Rendered, config: string) returns (out: Rendered)
    requires Reviewed(tk) && rendered == RenderSpec(tk, m, true) && rendered.Files?
    requires tk.config(m.provider) == Some(config)
    ensures out == PackSpec(tk, m, rendered)
  {
    var rs := Sorted(m.resources);
    ghost var printer := Printer(tk, m.tags, rs, true);
    RenderedFound(tk, m, rendered);
    var ok, parts, domains := Gather(Parter(tk, printer), Accepts(tk), printer, tk, rendered.files, rs);
    if !ok {
      return Failed;
    }
    var region := HclText(tk, Text(Trim(m.region)));
    var files := FixedFiles(config, region, parts);
    var order, own := ListDomains(parts, domains);
    PartDomains(tk, printer, rs);
    ListingPaths(tk, rs, parts, order, files, config, region);
    DomainsListed(parts);
    ListingPaths(tk, rs, parts, Domains(parts), files, config, region);
    SameDomainFiles(files, parts, order);
    FilesSortUniquely(files + own, Listing(files, parts));
    return Files(Sort(ByPath, files + own));
  }
}

/** What the packed module guarantees. */
module BundleProperties {
  import opened Outcomes
  import opened Texts
  import opened Sorting
  import opened Manifests
  import opened Rendering
  import opened RenderedGraph
  import opened Bundling
  import V = Validation
  import G = DependencyGraph

  lemma {:induction false} AdjacencyPermuted(rs: seq<Resource>, other: seq<Resource>)
    requires DistinctNames(rs) && DistinctNames(other) && forall r :: r in rs <==> r in other
    ensures V.Adjacency(rs) == V.Adjacency(other)
  {
    var g, h := V.Adjacency(rs), V.Adjacency(other);
    assert g.Keys == h.Keys;
    forall n | n in g ensures g[n] == h[n] {
      var r :| r in rs && r.logicalName == n;
      var i :| 0 <= i < |rs| && rs[i] == r;
      var j :| 0 <= j < |other| && other[j] == r;
      AdjacencyAt(rs, i);
      AdjacencyAt(other, j);
    }
  }

  lemma {:induction false} RegisteredPermuted(rs: seq<Resource>, other: seq<Resource>, name: string)
    requires forall r :: r in rs <==> r in other
    ensures V.Registered(rs, name) <==> V.Registered(other, name)
  {
    if V.Registered(rs, name) {
      var j :| 0 <= j < |rs| && V.NameOf(rs[j]) == name;
      assert rs[j] in other;
      var k :| 0 <= k < |other| && other[k] == rs[j];
      assert V.NameOf(other[k]) == name;
    }
    if V.Registered(other, name) {
      var j :| 0 <= j < |other| && V.NameOf(other[j]) == name;
      assert other[j] in rs;
      var k :| 0 <= k < |rs| && rs[k] == other[j];
      assert V.NameOf(rs[k]) == name;
    }
  }

  function TrimmedNames(rs: seq<Resource>): seq<string> {
    Map(V.NameOf, rs)
  }

  /** Trimmed names stay distinct under rearrangement. */
  lemma {:induction false} NotTaken(m: Manifest, other: seq<Resource>, j: nat)
    requires V.WellFormed(m) && multiset(m.resources) == multiset(other) && j < |other|
    ensures !V.Taken(other, j)
  {
    WellFormedNames(m);
    var a, b := TrimmedNames(m.resources), TrimmedNames(other);
    MapMultiset(V.NameOf, m.resources, other);
    NoDuplicatesMultiset(a);
    NoDuplicatesMultiset(b);
    forall i, k | 0 <= i < k < |a| ensures a[i] != a[k] {
      assert V.NameOf(m.resources[i]) != V.NameOf(m.resources[k]);
    }
    forall i | 0 <= i < j ensures V.NameOf(other[i]) != V.NameOf(other[j]) {
      assert b[i] != b[j];
    }
  }

  lemma {:induction false} DependencyDefectPermuted(rs: seq<Resource>, other: seq<Resource>, r: Resource, fault: V.ResourceCode)
    requires forall x :: x in rs <==> x in other
    ensures V.DependencyDefect(rs, r, fault) <==> V.DependencyDefect(other, r, fault)
  {
    forall name ensures V.Registered(rs, name) <==> V.Registered(other, name) {
      RegisteredPermuted(rs, other, name);
    }
  }

  /** Validity does not depend on the order of the resources. */
  lemma {:induction false} WellFormedPermuted(m: Manifest, other: seq<Resource>)
    requires V.WellFormed(m) && multiset(m.resources) == multiset(other)
    ensures V.WellFormed(m.(resources := other))
  {
    var n := m.(resources := other);
    SameElements(m.resources, other);
    WellFormedNames(m);
    NamesSurviveSorting(m.resources, other);
    AdjacencyPermuted(m.resources, other);
    forall d ensures !V.Has(Some(n), d) {
      if d.InDocument? {
        assert !V.Has(Some(m), d);
      } else if d.index < |other| {
        assert other[d.index] in m.resources;
        var j: nat :| j < |m.resources| && m.resources[j] == other[d.index];
        assert !V.Has(Some(m), V.InResource(j, d.fault));
        NotTaken(m, other, d.index);
        DependencyDefectPermuted(m.resources, other, other[d.index], d.fault);
        assert !V.OwnDefect(m, j, d.fault);
      }
    }
  }

  lemma SameElements<T>(a: seq<T>, b: seq<T>)
    requires multiset(a) == multiset(b)
    ensures forall x :: x in a <==> x in b
    ensures |a| == |b|
  {
    assert forall x :: (x in a <==> x in multiset(a)) && (x in b <==> x in multiset(b));
    assert |multiset(a)| == |multiset(b)|;
  }

  lemma {:induction false} NoneUnsupported(supported: Resource -> bool, rs: seq<Resource>)
    ensures UnsupportedBy(supported, rs) == [] <==> forall r | r in rs :: supported(r)
  {
    if rs != [] {
      NoneUnsupported(supported, rs[..|rs| - 1]);
      assert rs == rs[..|rs| - 1] + [rs[|rs| - 1]];
    }
  }

  lemma {:induction false} AllSupported(tk: Toolkit, provider: string, rs: seq<Resource>)
    ensures UnsupportedOf(tk, provider, rs) == [] <==> forall r | r in rs :: Supported(tk, provider, r)
  {
    NoneUnsupported(Supporter(tk, provider), rs);
  }

  lemma UnpaddedPermuted(rs: seq<Resource>, other: seq<Resource>)
    requires Unpadded(rs) && forall r :: r in rs <==> r in other
    ensures Unpadded(other)
  {
    forall i | 0 <= i < |other| ensures other[i].logicalName == Trim(other[i].logicalName) {
      assert other[i] in rs;
      var j :| 0 <= j < |rs| && rs[j] == other[i];
    }
  }

  /** A successful render does not depend on the order of the resources either. */
  lemma {:induction false} RenderPermuted(tk: Toolkit, m: Manifest, other: seq<Resource>, parameterised: bool)
    requires RenderSpec(tk, m, parameterised).Files? && multiset(m.resources) == multiset(other)
    ensures RenderSpec(tk, m.(resources := other), parameterised) == RenderSpec(tk, m, parameterised)
    ensures Sorted(other) == Sorted(m.resources)
  {
    SameElements(m.resources, other);
    WellFormedPermuted(m, other);
    WellFormedNames(m);
    SortedNamesUnique(m.resources, other);
    UnpaddedPermuted(m.resources, other);
    AllSupported(tk, m.provider, m.resources);
    AllSupported(tk, m.provider, other);
  }

  /** Permuting the resources of a manifest gives the same files. */
  lemma {:induction false} BundlePermuted(tk: Toolkit, m: Manifest, other: seq<Resource>)
    requires BundleSpec(tk, m).Files? && multiset(m.resources) == multiset(other)
    ensures BundleSpec(tk, m.(resources := other)) == BundleSpec(tk, m)
  {
    SameElements(m.resources, other);
    MapMultiset(Aliased, m.resources, other);
    RenderPermuted(tk, AliasedAll(m), Map(Aliased, other), true);
  }

  /** The second look at the properties differs from the first in one case: a padded
      network type without encryption. */
  predicate PaddedNetwork(r: Resource) {
    && HasPrefix(Trim(r.kind), "network.") && !HasPrefix(r.kind, "network.")
    && r.security.Some? && !r.security.value.encryptionEnabled
  }

  lemma {:induction false} SecondLook(tk: Toolkit, r: Resource, s: Spec)
    requires PropertiesOk(tk, Normal(r), s)
    ensures PropertiesOk(tk, r, s) <==> !PaddedNetwork(r)
  {
  }

  lemma {:induction false} PrintedAccepted(tk: Toolkit, tags: map<string, string>, rs: seq<Resource>, i: nat)
    requires PrintAll(Printer(tk, tags, rs, true), rs, |rs|).Some? && i < |rs|
    ensures Accepts(tk)(rs[i]) <==> !PaddedNetwork(rs[i])
  {
    PrintedFiles(Printer(tk, tags, rs, true), rs, |rs|);
    assert Printer(tk, tags, rs, true)(rs[i]).Some?;
    SecondLook(tk, rs[i], tk.catalog(Trim(rs[i].kind)).value);
  }

  ghost predicate NonePadded(rs: seq<Resource>) {
    forall r | r in rs :: !PaddedNetwork(r)
  }

  /** What a successful render says about its manifest. */
  lemma {:induction false} RenderedMeans(tk: Toolkit, m: Manifest)
    requires Reviewed(tk) && RenderSpec(tk, m, true).Files?
    ensures tk.config(m.provider).Some?
    ensures DistinctNames(m.resources)
    ensures PrintAll(Printer(tk, m.tags, Sorted(m.resources), true), Sorted(m.resources), |Sorted(m.resources)|).Some?
  {
    WellFormedNames(m);
    AcyclicWhenValid(m);
    AwsOnly(tk, m.provider, m.resources);
  }

  lemma {:induction false} AwsOnly(tk: Toolkit, provider: string, rs: seq<Resource>)
    requires Reviewed(tk) && rs != [] && UnsupportedOf(tk, provider, rs) == []
    ensures tk.config(provider).Some?
  {
    AllSupported(tk, provider, rs);
    assert Supported(tk, provider, rs[0]);
  }

  lemma {:induction false} AcceptedExactly(tk: Toolkit, tags: map<string, string>, rs: seq<Resource>)
    requires PrintAll(Printer(tk, tags, rs, true), rs, |rs|).Some?
    ensures AllAccepted(Accepts(tk), rs) <==> NonePadded(rs)
  {
    forall i | 0 <= i < |rs| ensures Accepts(tk)(rs[i]) <==> !PaddedNetwork(rs[i]) {
      PrintedAccepted(tk, tags, rs, i);
    }
    if NonePadded(rs) {
      forall i | 0 <= i < |rs| ensures Accepts(tk)(rs[i]) {
        assert rs[i] in rs;
      }
    }
  }

  lemma {:induction false} AliasKeepsPadding(rs: seq<Resource>)
    ensures NonePadded(Map(Aliased, rs)) <==> NonePadded(rs)
  {
    var copy := Map(Aliased, rs);
    forall i | 0 <= i < |rs| ensures PaddedNetwork(copy[i]) <==> PaddedNetwork(rs[i]) {
    }
    if NonePadded(rs) {
      forall r | r in copy ensures !PaddedNetwork(r) {
        var i :| 0 <= i < |copy| && copy[i] == r;
        assert rs[i] in rs;
      }
    }
    if NonePadded(copy) {
      forall r | r in rs ensures !PaddedNetwork(r) {
        var i :| 0 <= i < |rs| && rs[i] == r;
        assert copy[i] in copy;
      }
    }
  }

  lemma {:induction false} PackSucceedsExactly(tk: Toolkit, m: Manifest, rendered: Rendered)
    requires rendered.Files? && tk.config(m.provider).Some?
    requires PrintAll(Printer(tk, m.tags, Sorted(m.resources), true), Sorted(m.resources), |Sorted(m.resources)|).Some?
    ensures PackSpec(tk, m, rendered).Files? <==> NonePadded(m.resources)
  {
    AcceptedExactly(tk, m.tags, Sorted(m.resources));
    SortPermutes(ByName, m.resources);
  }

  lemma {:induction false} BundleFromExactly(tk: Toolkit, m: Manifest, rendered: Rendered)
    requires rendered.Files? ==> (PackSpec(tk, AliasedAll(m), rendered).Files? <==> NonePadded(m.resources))
    ensures BundleFrom(tk, m, rendered).Files? <==>
      (forall r | r in m.resources :: AliasOk(r)) && rendered.Files? && NonePadded(m.resources)
  {
  }

  /** Bundling succeeds exactly when the aliases are consistent, the aliased manifest
      renders, and no network resource without encryption has a padded type. */
  lemma {:induction false} BundleSucceedsExactly(tk: Toolkit, m: Manifest)
    requires Reviewed(tk)
    ensures BundleSpec(tk, m).Files? <==>
      && (forall r | r in m.resources :: AliasOk(r))
      && RenderSpec(tk, AliasedAll(m), true).Files?
      && NonePadded(m.resources)
  {
    var rendered := RenderSpec(tk, AliasedAll(m), true);
    if rendered.Files? {
      RenderedMeans(tk, AliasedAll(m));
      PackSucceedsExactly(tk, AliasedAll(m), rendered);
      AliasKeepsPadding(m.resources);
    }
    BundleFromExactly(tk, m, rendered);
  }

  /** The same resource, its type padded otherwise. */
  predicate Retyped(r: Resource, q: Resource) {
    q == r.(kind := q.kind) && Trim(q.kind) == Trim(r.kind)
  }

  ghost predicate AllRetyped(rs: seq<Resource>, qs: seq<Resource>) {
    |rs| == |qs| && forall i | 0 <= i < |rs| :: Retyped(rs[i], qs[i])
  }

  lemma {:induction false} InsertRetyped(r: Resource, rs: seq<Resource>, q: Resource, qs: seq<Resource>)
    requires Retyped(r, q) && AllRetyped(rs, qs)
    ensures AllRetyped(Insert(ByName, r, rs), Insert(ByName, q, qs))
  {
    if rs != [] && !ByName(rs[|rs| - 1], r) {
      InsertRetyped(r, rs[..|rs| - 1], q, qs[..|qs| - 1]);
    }
  }

  lemma {:induction false} SortRetyped(rs: seq<Resource>, qs: seq<Resource>)
    requires AllRetyped(rs, qs)
    ensures AllRetyped(Sorted(rs), Sorted(qs))
  {
    if rs != [] {
      SortRetyped(rs[..|rs| - 1], qs[..|qs| - 1]);
      InsertRetyped(rs[|rs| - 1], Sorted(rs[..|rs| - 1]), qs[|qs| - 1], Sorted(qs[..|qs| - 1]));
    }
  }

  lemma {:induction false} AdjacencyRetyped(rs: seq<Resource>, qs: seq<Resource>)
    requires AllRetyped(rs, qs)
    ensures V.Adjacency(rs) == V.Adjacency(qs)
  {
    if rs != [] {
      AdjacencyRetyped(rs[..|rs| - 1], qs[..|qs| - 1]);
    }
  }

  lemma {:induction false} WellFormedRetyped(m: Manifest, qs: seq<Resource>)
    requires V.WellFormed(m) && AllRetyped(m.resources, qs)
    ensures V.WellFormed(m.(resources := qs))
  {
    var n := m.(resources := qs);
    AdjacencyRetyped(m.resources, qs);
    forall d ensures !V.Has(Some(n), d) {
      assert !V.Has(Some(m), d);
      if d.InResource? && d.index < |qs| {
        assert Retyped(m.resources[d.index], qs[d.index]);
        forall name {
          RegisteredAlike(m.resources, qs, name);
        }
        assert !V.OwnDefect(m, d.index, d.fault) && !V.DependencyDefect(m.resources, m.resources[d.index], d.fault);
      }
    }
  }

  lemma {:induction false} ResolveRetyped(tk: Toolkit, rs: seq<Resource>, qs: seq<Resource>, name: string)
    requires AllRetyped(rs, qs)
    ensures Resolve(tk, rs, name) == Resolve(tk, qs, name)
  {
    if rs != [] {
      ResolveRetyped(tk, rs[..|rs| - 1], qs[..|qs| - 1], name);
    }
  }

  lemma {:induction false} ResolveAllRetyped(tk: Toolkit, rs: seq<Resource>, qs: seq<Resource>, names: seq<string>)
    requires AllRetyped(rs, qs)
    ensures ResolveAll(tk, rs, names) == ResolveAll(tk, qs, names)
  {
    if names != [] {
      ResolveAllRetyped(tk, rs, qs, names[..|names| - 1]);
      ResolveRetyped(tk, rs, qs, names[|names| - 1]);
    }
  }

  lemma {:induction false} ContentRetyped(tk: Toolkit, tags: map<string, string>, rs: seq<Resource>, qs: seq<Resource>, i: nat, parameterised: bool)
    requires AllRetyped(rs, qs) && i < |rs|
    ensures Content(tk, tags, rs, rs[i], parameterised) == Content(tk, tags, qs, qs[i], parameterised)
  {
    var r, q := rs[i], qs[i];
    ResolveAllRetyped(tk, rs, qs, r.dependsOn);
    assert Normal(r) == Normal(q);
    var s := tk.catalog(Trim(r.kind));
    if s.Some? {
      assert Completed(r, s.value) == Completed(q, s.value);
    }
  }

  lemma {:induction false} PrintAlike(p: Resource -> Option<string>, q: Resource -> Option<string>, rs: seq<Resource>, qs: seq<Resource>, n: nat)
    requires |rs| == |qs| && n <= |rs|
    requires forall i | 0 <= i < |rs| :: p(rs[i]) == q(qs[i]) && rs[i].logicalName == qs[i].logicalName
    ensures PrintAll(p, rs, n) == PrintAll(q, qs, n)
  {
    if n > 0 {
      PrintAlike(p, q, rs, qs, n - 1);
    }
  }

  lemma {:induction false} PrintRetyped(tk: Toolkit, tags: map<string, string>, rs: seq<Resource>, qs: seq<Resource>, parameterised: bool)
    requires AllRetyped(rs, qs)
    ensures PrintAll(Printer(tk, tags, rs, parameterised), rs, |rs|) == PrintAll(Printer(tk, tags, qs, parameterised), qs, |qs|)
  {
    var p, q := Printer(tk, tags, rs, parameterised), Printer(tk, tags, qs, parameterised);
    forall i | 0 <= i < |rs| ensures p(rs[i]) == q(qs[i]) && rs[i].logicalName == qs[i].logicalName {
      ContentRetyped(tk, tags, rs, qs, i, parameterised);
    }
    PrintAlike(p, q, rs, qs, |rs|);
  }

  lemma {:induction false} UnsupportedRetyped(tk: Toolkit, provider: string, rs: seq<Resource>, qs: seq<Resource>)
    requires AllRetyped(rs, qs)
    ensures UnsupportedBy(Supporter(tk, provider), rs) == UnsupportedBy(Supporter(tk, provider), qs)
  {
    if rs != [] {
      UnsupportedRetyped(tk, provider, rs[..|rs| - 1], qs[..|qs| - 1]);
    }
  }

  /** Rendering reads types trimmed: padding them changes nothing. */
  lemma {:induction false} RenderRetyped(tk: Toolkit, m: Manifest, qs: seq<Resource>, parameterised: bool)
    requires V.WellFormed(m) && AllRetyped(m.resources, qs)
    ensures RenderSpec(tk, m.(resources := qs), parameterised) == RenderSpec(tk, m, parameterised)
  {
    WellFormedRetyped(m, qs);
    SortRetyped(m.resources, qs);
    PrintRetyped(tk, m.tags, Sorted(m.resources), Sorted(qs), parameterised);
    UnsupportedRetyped(tk, m.provider, m.resources, qs);
  }

  /** The manifest with the type of resource `i` padded. */
  function PadTypeAt(m: Manifest, i: nat): Manifest
    requires i < |m.resources|
  {
    m.(resources := m.resources[i := m.resources[i].(kind := " " + m.resources[i].kind)])
  }

  lemma {:induction false} PadTypeRetypes(m: Manifest, i: nat)
    requires i < |m.resources| && HasPrefix(m.resources[i].kind, "network.")
    ensures AllRetyped(AliasedAll(m).resources, AliasedAll(PadTypeAt(m, i)).resources)
    ensures !HasPrefix(PadTypeAt(m, i).resources[i].kind, "network.")
    ensures HasPrefix(Trim(PadTypeAt(m, i).resources[i].kind), "network.") <==> HasPrefix(Trim(m.resources[i].kind), "network.")
  {
    var kind := m.resources[i].kind;
    assert (" " + kind)[1..] == kind && (" " + kind)[0] == ' ';
    assert TrimLeft(" " + kind) == TrimLeft(kind);
    assert kind[0] == 'n' && "storage.aws.s3"[0] == 's';
  }

  lemma {:induction false} NetworkStaysNetwork(kind: string)
    requires HasPrefix(kind, "network.")
    ensures HasPrefix(Trim(kind), "network.")
  {
    assert kind[0] == 'n' && TrimLeft(kind) == kind;
    TrimRightKeeps(kind, "network.");
  }

  /** Trimming on the right leaves a prefix that does not end in white space. */
  lemma {:induction false} TrimRightKeeps(s: string, prefix: string)
    requires HasPrefix(s, prefix) && prefix != "" && !IsSpace(prefix[|prefix| - 1])
    ensures HasPrefix(TrimRight(s), prefix)
  {
    if IsSpace(s[|s| - 1]) {
      assert |s| > |prefix|;
      TrimRightKeeps(s[..|s| - 1], prefix);
    }
  }

  /** Packing does not: a manifest that packs, with an unencrypted network resource, still
      renders when the type of that resource is padded, but no longer packs. */
  lemma {:induction false} PaddedNetworkRefused(tk: Toolkit, m: Manifest, i: nat)
    requires Reviewed(tk) && BundleSpec(tk, m).Files? && i < |m.resources|
    requires var r := m.resources[i];
      HasPrefix(r.kind, "network.") && r.security.Some? && !r.security.value.encryptionEnabled
    ensures RenderSpec(tk, AliasedAll(PadTypeAt(m, i)), true) == RenderSpec(tk, AliasedAll(m), true)
    ensures RenderSpec(tk, AliasedAll(m), true).Files? && !BundleSpec(tk, PadTypeAt(m, i)).Files?
  {
    BundleSucceedsExactly(tk, m);
    PadTypeRetypes(m, i);
    RenderRetyped(tk, AliasedAll(m), AliasedAll(PadTypeAt(m, i)).resources, true);
    NetworkStaysNetwork(m.resources[i].kind);
    BundleSucceedsExactly(tk, PadTypeAt(m, i));
    assert PaddedNetwork(PadTypeAt(m, i).resources[i]);
  }

  lemma {:induction false} DomainTextSplit(a: seq<Part>, b: seq<Part>, d: string)
    ensures DomainText(a + b, d) == DomainText(a, d) + DomainText(b, d)
    decreases |b|
  {
    if b == [] {
      assert a + b == a;
    } else {
      assert (a + b)[..|a + b| - 1] == a + b[..|b| - 1];
      DomainTextSplit(a, b[..|b| - 1], d);
    }
  }

  /** Where the body of part `i` sits in its domain file. */
  lemma {:induction false} BodyInPlace(parts: seq<Part>, i: nat)
    requires i < |parts|
    ensures var d := parts[i].domain;
      DomainText(parts, d) == DomainText(parts[..i], d) + parts[i].body + DomainText(parts[i + 1..], d)
  {
    var d := parts[i].domain;
    assert parts == parts[..i] + ([parts[i]] + parts[i + 1..]);
    DomainTextSplit(parts[..i], [parts[i]] + parts[i + 1..], d);
    DomainTextSplit([parts[i]], parts[i + 1..], d);
    assert [parts[i]][..0] == [];
  }

  ghost function BodyLength(parts: seq<Part>): nat {
    if parts == [] then 0 else BodyLength(parts[..|parts| - 1]) + |parts[|parts| - 1].body|
  }

  ghost function DomainLength(parts: seq<Part>, domains: seq<string>): nat {
    if domains == [] then 0
    else DomainLength(parts, domains[..|domains| - 1]) + |DomainText(parts, domains[|domains| - 1])|
  }

  lemma {:induction false} DomainLengthGrows(parts: seq<Part>, p: Part, domains: seq<string>)
    requires NoDuplicates(domains)
    ensures DomainLength(parts + [p], domains) == DomainLength(parts, domains) + if p.domain in domains then |p.body| else 0
  {
    assert (parts + [p])[..|parts|] == parts;
    if domains != [] {
      DomainLengthGrows(parts, p, domains[..|domains| - 1]);
    }
  }

  lemma {:induction false} UnusedDomainIsEmpty(parts: seq<Part>, d: string)
    requires d !in Domains(parts)
    ensures DomainText(parts, d) == ""
  {
    if parts != [] {
      UnusedDomainIsEmpty(parts[..|parts| - 1], d);
    }
  }

  /** Nothing is lost or repeated: the domain files hold as much text as the resources
      contributed. */
  lemma {:induction false} TextIsConserved(parts: seq<Part>)
    ensures DomainLength(parts, Domains(parts)) == BodyLength(parts)
  {
    if parts != [] {
      var front, last := parts[..|parts| - 1], parts[|parts| - 1];
      assert parts == front + [last];
      TextIsConserved(front);
      DomainsListed(parts);
      DomainLengthGrows(front, last, Domains(parts));
      if last.domain !in Domains(front) {
        UnusedDomainIsEmpty(front, last.domain);
        assert Domains(parts)[..|Domains(parts)| - 1] == Domains(front);
      }
    }
  }

  /** The resources a successful bundle packs, and their parts, in logical-name order. */
  ghost function Packed(m: Manifest): seq<Resource> {
    Sorted(AliasedAll(m).resources)
  }

  ghost function PackedPrinter(tk: Toolkit, m: Manifest): Resource -> Option<string> {
    Printer(tk, m.tags, Packed(m), true)
  }

  ghost function PackedParts(tk: Toolkit, m: Manifest): seq<Part> {
    Map(Parter(tk, PackedPrinter(tk, m)), Packed(m))
  }

  ghost function PackedFixed(tk: Toolkit, m: Manifest): seq<File>
    requires tk.config(m.provider).Some?
  {
    FixedFiles(tk.config(m.provider).value, HclText(tk, Text(Trim(m.region))), PackedParts(tk, m))
  }

  lemma {:induction false} BundleFiles(tk: Toolkit, m: Manifest)
    requires Reviewed(tk) && BundleSpec(tk, m).Files?
    ensures tk.config(m.provider).Some? && AllAccepted(Accepts(tk), Packed(m))
    ensures BundleSpec(tk, m).files == Sort(ByPath, Listing(PackedFixed(tk, m), PackedParts(tk, m)))
    ensures DistinctNames(AliasedAll(m).resources)
    ensures PrintAll(PackedPrinter(tk, m), Packed(m), |Packed(m)|).Some?
  {
    RenderedMeans(tk, AliasedAll(m));
  }

  /** A successful bundle has distinct, sorted paths: six fixed files and one per domain. */
  lemma {:induction false} BundlePathsSorted(tk: Toolkit, m: Manifest)
    requires Reviewed(tk) && BundleSpec(tk, m).Files?
    ensures var files := BundleSpec(tk, m).files;
      && SortedBy(ByPath, files) && DistinctPaths(files)
      && |files| == 6 + |Domains(PackedParts(tk, m))|
  {
    BundleFiles(tk, m);
    var parts, fixed := PackedParts(tk, m), PackedFixed(tk, m);
    PartDomains(tk, PackedPrinter(tk, m), Packed(m));
    DomainsListed(parts);
    ListingPaths(tk, Packed(m), parts, Domains(parts), fixed, tk.config(m.provider).value, HclText(tk, Text(Trim(m.region))));
    FilesSortUniquely(Listing(fixed, parts), Listing(fixed, parts));
    SortPermutes(ByPath, Listing(fixed, parts));
  }

  /** Resources are packed in logical-name order, each once, none lost. */
  lemma {:induction false} BundleResourceOrder(tk: Toolkit, m: Manifest)
    requires Reviewed(tk) && BundleSpec(tk, m).Files?
    ensures SortedBy(ByName, Packed(m)) && DistinctNames(Packed(m))
    ensures multiset(Packed(m)) == multiset(Map(Aliased, m.resources))
    ensures forall i, j | 0 <= i < j < |Packed(m)| :: VariableOf(Packed(m)[i]) != VariableOf(Packed(m)[j])
  {
    BundleFiles(tk, m);
    SortedNames(AliasedAll(m).resources);
    var rs := Packed(m);
    forall i, j | 0 <= i < j < |rs| ensures VariableOf(rs[i]) != VariableOf(rs[j]) {
      assert VariableOf(rs[i])[2..] == rs[i].logicalName && VariableOf(rs[j])[2..] == rs[j].logicalName;
    }
  }

  lemma {:induction false} PlacedPart(parts: seq<Part>, fixed: seq<File>, i: nat)
    requires i < |parts|
    ensures var d := parts[i].domain;
      File(DomainPath(d), DomainText(parts[..i], d) + parts[i].body + DomainText(parts[i + 1..], d))
      in Sort(ByPath, Listing(fixed, parts))
  {
    var listing := Listing(fixed, parts);
    SortPermutes(ByPath, listing);
    BodyInPlace(parts, i);
    var d := parts[i].domain;
    DomainsListed(parts);
    assert d in Domains(parts);
    var k :| 0 <= k < |Domains(parts)| && Domains(parts)[k] == d;
    assert DomainFiles(parts, Domains(parts))[k] in listing;
  }

  /** The text rendered for resource `i` lies in the file of its template's domain,
      between the texts of the earlier and of the later resources of that domain. */
  lemma {:induction false} BundlePlaces(tk: Toolkit, m: Manifest, i: nat)
    requires Reviewed(tk) && BundleSpec(tk, m).Files? && i < |Packed(m)|
    ensures var r, parts := Packed(m)[i], PackedParts(tk, m);
      var d := DomainOf(tk, r);
      && PackedPrinter(tk, m)(r).Some?
      && File(DomainPath(d),
              DomainText(parts[..i], d) + PackedPrinter(tk, m)(r).value + "\n" + DomainText(parts[i + 1..], d))
         in BundleSpec(tk, m).files
  {
    BundleFiles(tk, m);
    var printer, rs, parts := PackedPrinter(tk, m), Packed(m), PackedParts(tk, m);
    PrintedFiles(printer, rs, |rs|);
    PlacedPart(parts, PackedFixed(tk, m), i);
    PartReads(tk, printer, rs, i);
    var d, text := DomainOf(tk, rs[i]), printer(rs[i]).value;
    Regroup(DomainText(parts[..i], d), text, "\n", DomainText(parts[i + 1..], d));
  }

  lemma Regroup(a: string, b: string, c: string, d: string)
    ensures a + (b + c) + d == a + b + c + d
  {
  }

  lemma PartReads(tk: Toolkit, printer: Resource -> Option<string>, rs: seq<Resource>, i: nat)
    requires i < |rs| && printer(rs[i]).Some?
    ensures var part := Map(Parter(tk, printer), rs)[i];
      part.domain == DomainOf(tk, rs[i]) && part.body == printer(rs[i]).value + "\n"
  {
  }

  /** Both variable files declare each resource's variable once, in the same order, and
      the domain files together hold exactly as much text as the resources contributed. */
  lemma {:induction false} BundleConserves(tk: Toolkit, m: Manifest)
    requires Reviewed(tk) && BundleSpec(tk, m).Files?
    ensures var files, parts := BundleSpec(tk, m).files, PackedParts(tk, m);
      && File("resources/variables.tf", Gathered(parts, Declaration)) in files
      && File("variables.tf", "variable \"region\" {\n  type = string\n}\n" + Gathered(parts, Declaration)) in files
      && DomainLength(parts, Domains(parts)) == BodyLength(parts)
      && forall d | d in Domains(parts) :: File(DomainPath(d), DomainText(parts, d)) in files
  {
    BundleFiles(tk, m);
    var parts, fixed := PackedParts(tk, m), PackedFixed(tk, m);
    var listing := Listing(fixed, parts);
    SortPermutes(ByPath, listing);
    TextIsConserved(parts);
    assert fixed[2] in listing && fixed[4] in listing;
    forall d | d in Domains(parts) ensures File(DomainPath(d), DomainText(parts, d)) in listing {
      var k :| 0 <= k < |Domains(parts)| && Domains(parts)[k] == d;
      assert DomainFiles(parts, Domains(parts))[k] in listing;
    }
  }
}
