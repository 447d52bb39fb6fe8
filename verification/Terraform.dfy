/** The reviewed-template renderer (backend/internal/terraform/render.go). Template
    execution, JSON encoding, number and prefix parsing are parameters. */
module Rendering {
  import opened Outcomes
  import opened Texts
  import opened Sorting
  import opened Manifests
  import V = Validation
  import G = DependencyGraph
  import Hcl

  datatype File = File(path: string, content: string)

  datatype Unsupported = Unsupported(logicalName: string, kind: string)

  /** All-or-nothing: an error, the unsupported resources, or every file. */
  datatype Rendered = Failed | Refused(items: seq<Unsupported>) | Files(files: seq<File>)

  /** A catalogue entry; its template is at `directory/file`. */
  datatype Spec = Spec(directory: string, file: string, terraformType: string, fields: seq<string>) {
    function Path(): string {
      directory + ['/'] + file
    }
  }

  /** The reviewed phase-one catalogue. */
  function Catalog(kind: string): Option<Spec> {
    if kind == "compute.aws.instance" then
      Some(Spec("compute", "aws/ec2.hcl", "aws_instance", ["ami", "instance_type", "subnet_id"]))
    else if kind == "storage.aws.s3" then
      Some(Spec("storage", "aws/s3.hcl", "aws_s3_bucket", ["bucket", "versioning"]))
    else if kind == "database.aws.rds" then
      Some(Spec("database", "aws/rds.hcl", "aws_db_instance",
                ["identifier", "engine", "engine_version", "instance_class", "allocated_storage",
                 "master_username", "db_subnet_group_name", "vpc_security_group_ids"]))
    else if kind == "network.aws.vpc" then
      Some(Spec("networking", "aws/vpc.hcl", "aws_vpc", ["cidr_block"]))
    else if kind == "network.aws.subnet" then
      Some(Spec("networking", "aws/subnet.hcl", "aws_subnet", ["vpc_id", "cidr_block", "availability_zone"]))
    else if kind == "network.aws.security_group" then
      Some(Spec("networking", "aws/security_group.hcl", "aws_security_group", ["vpc_id", "description"]))
    else None
  }

  /** A template input: a value, or an expression that is printed as it is. */
  datatype Input = Plain(v: Json) | Expression(text: string)

  datatype TemplateData = TemplateData(
    name: string, p: map<string, Input>, tags: map<string, string>, dependencies: string)

  /** The catalogue and the fixed texts in force, and the library calls the renderer makes:
      `providers` is the providers file for a region, `config` a provider's root block. */
  datatype Toolkit = Toolkit(
    catalog: string -> Option<Spec>,
    providers: string -> string,
    config: string -> Option<string>,
    marshal: Json -> string,
    execute: (string, TemplateData) -> Option<string>,
    numeral: string -> real,
    canonicalV4: string -> bool)

  function HclText(tk: Toolkit, v: Json): string {
    Hcl.Escape(tk.marshal(v))
  }

  predicate Absent(p: map<string, Json>, key: string) {
    key !in p || p[key].Null?
  }

  predicate GroupIds(v: Json) {
    v.List? && v.items != [] && forall id | id in v.items :: id.Text? && Trim(id.s) != ""
  }

  predicate StorageSize(tk: Toolkit, v: Json) {
    v.Number? && 20.0 <= tk.numeral(v.text) <= 16384.0
    && tk.numeral(v.text).Floor as real == tk.numeral(v.text)
  }

  predicate Worded(tk: Toolkit, key: string, v: Json) {
    && v.Text? && Trim(v.s) != ""
    && (key == "cidr_block" ==> tk.canonicalV4(v.s))
    && (key == "engine" ==> v.s == "postgres" || v.s == "mysql")
  }

  /** One reviewed field has an acceptable value. */
  predicate FieldOk(tk: Toolkit, p: map<string, Json>, key: string) {
    if key == "versioning" then (Absent(p, key) || p[key].Bool?)
    else if key !in p then false
    else if key == "allocated_storage" then StorageSize(tk, p[key])
    else if key == "vpc_security_group_ids" then GroupIds(p[key])
    else Worded(tk, key, p[key])
  }

  /** The prefix test reads the type as it is written in the resource. */
  predicate SecurityOk(r: Resource) {
    r.security.None? || (
      && Trim(r.security.value.encryptionType) == ""
      && !r.security.value.publicAccess
      && (HasPrefix(r.kind, "network.") || r.security.value.encryptionEnabled))
  }

  predicate PropertiesOk(tk: Toolkit, r: Resource, s: Spec) {
    && (forall key | key in r.properties :: key in s.fields)
    && (forall key | key in s.fields :: FieldOk(tk, r.properties, key))
    && SecurityOk(r)
  }

  function Completed(r: Resource, s: Spec): map<string, Json> {
    if "versioning" in s.fields && Absent(r.properties, "versioning")
    then r.properties["versioning" := Bool(true)] else r.properties
  }

  /** `properties`: keys first, then the fields in catalog order, then security. */
  method Properties(tk: Toolkit, r: Resource, s: Spec) returns (result: Option<map<string, Json>>)
    ensures result == if PropertiesOk(tk, r, s) then Some(Completed(r, s)) else None
  {
    var keys := r.properties.Keys;
    while keys != {}
      invariant keys <= r.properties.Keys
      invariant forall key | key in r.properties && key !in keys :: key in s.fields
    {
      var key :| key in keys;
      if key !in s.fields {
        return None;
      }
      keys := keys - {key};
    }
    var p := r.properties;
    for i := 0 to |s.fields|
      invariant p == if "versioning" in s.fields[..i] then Completed(r, s) else r.properties
      invariant forall k | 0 <= k < i :: FieldOk(tk, r.properties, s.fields[k])
    {
      var key := s.fields[i];
      assert s.fields[..i + 1] == s.fields[..i] + [key];
      assert key != "versioning" ==> FieldOk(tk, p, key) == FieldOk(tk, r.properties, key);
      if key == "versioning" {
        if Absent(p, key) {
          p := p[key := Bool(true)];
        }
        if !p[key].Bool? {
          return None;
        }
      } else if key !in p {
        return None;
      } else if key == "allocated_storage" {
        if !StorageSize(tk, p[key]) {
          return None;
        }
      } else if key == "vpc_security_group_ids" {
        if !GroupIds(p[key]) {
          return None;
        }
      } else if !Worded(tk, key, p[key]) {
        return None;
      }
    }
    assert s.fields[..|s.fields|] == s.fields;
    return if SecurityOk(r) then Some(p) else None;
  }

  predicate ByName(a: Resource, b: Resource) {
    AtMost(a.logicalName, b.logicalName)
  }

  function Sorted(rs: seq<Resource>): seq<Resource> {
    Sort(ByName, rs)
  }

  function Normal(r: Resource): Resource {
    r.(kind := Trim(r.kind))
  }

  predicate Supported(tk: Toolkit, provider: string, r: Resource) {
    tk.catalog(Trim(r.kind)).Some? && Lower(Trim(provider)) == "aws"
  }

  predicate Unpadded(rs: seq<Resource>) {
    forall i | 0 <= i < |rs| :: rs[i].logicalName == Trim(rs[i].logicalName)
  }

  /** The expression inputs of a parameterised template; boolean choices stay fixed. */
  function Parameterised(tk: Toolkit, r: Resource, p: map<string, Json>): map<string, Input> {
    map key | key in p ::
      if p[key].Bool? then Plain(p[key])
      else Expression("var.r_" + r.logicalName + "[" + HclText(tk, Text(key)) + "]")
  }

  function Inputs(tk: Toolkit, r: Resource, p: map<string, Json>, parameterised: bool): map<string, Input> {
    if parameterised then Parameterised(tk, r, p) else map key | key in p :: Plain(p[key])
  }

  function Reference(tk: Toolkit, r: Resource): string {
    var s := tk.catalog(Trim(r.kind));
    (if s.Some? then s.value.terraformType else "") + ".r_" + r.logicalName
  }

  /** One reference for each rendered resource that carries the wanted name. */
  function Resolve(tk: Toolkit, rs: seq<Resource>, name: string): seq<string> {
    if rs == [] then []
    else Resolve(tk, rs[..|rs| - 1], name)
         + if rs[|rs| - 1].logicalName == name then [Reference(tk, rs[|rs| - 1])] else []
  }

  function ResolveAll(tk: Toolkit, rs: seq<Resource>, names: seq<string>): seq<string> {
    if names == [] then [] else ResolveAll(tk, rs, names[..|names| - 1]) + Resolve(tk, rs, names[|names| - 1])
  }

  function Dependencies(tk: Toolkit, rs: seq<Resource>, r: Resource): seq<string> {
    Sort(AtMost, ResolveAll(tk, rs, r.dependsOn))
  }

  function FilePath(r: Resource): string {
    "resource_" + r.logicalName + ".tf"
  }

  /** What the template of a resource prints, if its properties are acceptable. */
  function Content(tk: Toolkit, tags: map<string, string>, rs: seq<Resource>, r: Resource, parameterised: bool): Option<string> {
    var s := tk.catalog(Trim(r.kind));
    if s.None? || !PropertiesOk(tk, Normal(r), s.value) then None
    else tk.execute(s.value.Path(), TemplateData(
                      "r_" + r.logicalName, Inputs(tk, r, Completed(r, s.value), parameterised),
                      tags + r.tags, Join(Dependencies(tk, rs, r), ", ")))
  }

  /** The reviewed providers file. */
  function ProvidersText(region: string): string {
    "terraform {\n  required_providers {\n    aws = { source = \"hashicorp/aws\", version = \"~> 5.0\" }\n  }\n}\nprovider \"aws\" {\n  region = "
    + region + "\n}\n"
  }

  function ProvidersFile(tk: Toolkit, region: string): File {
    File("providers.tf", tk.providers(HclText(tk, Text(Trim(region)))))
  }

  function FileOf(r: Resource, content: Option<string>): File {
    File(FilePath(r), if content.Some? then content.value else "")
  }

  /** The files of the first `n` resources in list order, if each of them prints. */
  function PrintAll(printer: Resource -> Option<string>, rs: seq<Resource>, n: nat): Option<seq<File>>
    requires n <= |rs|
  {
    if n == 0 then Some([])
    else
      var before := PrintAll(printer, rs, n - 1);
      var content := printer(rs[n - 1]);
      if before.None? || content.None? then None else Some(before.value + [FileOf(rs[n - 1], content)])
  }

  lemma {:induction false} PrintAllStops(printer: Resource -> Option<string>, rs: seq<Resource>, i: nat, n: nat)
    requires i <= n <= |rs| && PrintAll(printer, rs, i).None?
    ensures PrintAll(printer, rs, n).None?
  {
    if i < n {
      PrintAllStops(printer, rs, i, n - 1);
    }
  }

  function Printer(tk: Toolkit, tags: map<string, string>, rs: seq<Resource>, parameterised: bool): Resource -> Option<string> {
    (r: Resource) => Content(tk, tags, rs, r, parameterised)
  }

  predicate Asked(r: Resource) {
    true
  }

  /** `printer` is the renderer of one resource; `Asked` only guides the verifier. */
  ghost predicate PrintsContent(printer: Resource -> Option<string>, tk: Toolkit, tags: map<string, string>, rs: seq<Resource>, parameterised: bool) {
    forall r {:trigger Asked(r)} :: Asked(r) ==> printer(r) == Content(tk, tags, rs, r, parameterised)
  }

  function UnsupportedBy(supported: Resource -> bool, rs: seq<Resource>): seq<Unsupported> {
    if rs == [] then []
    else
      var r := rs[|rs| - 1];
      UnsupportedBy(supported, rs[..|rs| - 1]) + if supported(r) then [] else [Unsupported(r.logicalName, Trim(r.kind))]
  }

  function Supporter(tk: Toolkit, provider: string): Resource -> bool {
    (r: Resource) => Supported(tk, provider, r)
  }

  /** The resources without a template, in list order. */
  function UnsupportedOf(tk: Toolkit, provider: string, rs: seq<Resource>): seq<Unsupported> {
    UnsupportedBy(Supporter(tk, provider), rs)
  }

  /** What remains after validation: one expression for both loops. */
  function RenderValid(tk: Toolkit, m: Manifest, parameterised: bool): Rendered {
    var rs := Sorted(m.resources);
    if m.unknowns != [] || !Unpadded(m.resources) then Failed
    else if UnsupportedOf(tk, m.provider, m.resources) != [] then Refused(UnsupportedOf(tk, m.provider, m.resources))
    else
      var files := PrintAll(Printer(tk, m.tags, rs, parameterised), rs, |rs|);
      if files.None? then Failed else Files([ProvidersFile(tk, m.region)] + files.value)
  }

  /** The whole renderer as one expression. */
  ghost function RenderSpec(tk: Toolkit, m: Manifest, parameterised: bool): Rendered {
    if V.WellFormed(m) then RenderValid(tk, m, parameterised) else Failed
  }

  /** The first loop: padded names stop everything, unsupported types are collected. */
  method Screen(tk: Toolkit, provider: string, rs: seq<Resource>) returns (padded: bool, unsupported: seq<Unsupported>)
    ensures padded <==> !Unpadded(rs)
    ensures !padded ==> unsupported == UnsupportedOf(tk, provider, rs)
  {
    unsupported := [];
    for i := 0 to |rs|
      invariant Unpadded(rs[..i])
      invariant unsupported == UnsupportedOf(tk, provider, rs[..i])
    {
      var r := rs[i];
      if r.logicalName != Trim(r.logicalName) {
        return true, unsupported;
      }
      assert rs[..i + 1][..i] == rs[..i];
      if !Supported(tk, provider, r) {
        unsupported := unsupported + [Unsupported(r.logicalName, Trim(r.kind))];
      }
    }
    assert rs[..|rs|] == rs;
    return false, unsupported;
  }

  method CollectDependencies(tk: Toolkit, rs: seq<Resource>, r: Resource) returns (deps: seq<string>)
    ensures deps == Dependencies(tk, rs, r)
  {
    deps := [];
    for i := 0 to |r.dependsOn|
      invariant deps == ResolveAll(tk, rs, r.dependsOn[..i])
    {
      var name := r.dependsOn[i];
      ghost var before := deps;
      for j := 0 to |rs|
        invariant deps == before + Resolve(tk, rs[..j], name)
      {
        assert rs[..j + 1][..j] == rs[..j];
        if rs[j].logicalName == name {
          deps := deps + [Reference(tk, rs[j])];
        }
      }
      assert rs[..|rs|] == rs;
      assert r.dependsOn[..i + 1][..i] == r.dependsOn[..i];
    }
    assert r.dependsOn[..|r.dependsOn|] == r.dependsOn;
    deps := Sort(AtMost, deps);
  }

  method Render(tk: Toolkit, input: Option<Manifest>, parameterised: bool) returns (out: Rendered)
    ensures out == if input.None? then Failed else RenderSpec(tk, input.value, parameterised)
  {
    var valid, _ := V.Validate(input);
    if !valid {
      assert input.None? ==> V.Has(input, V.InDocument(V.NilManifest));
      return Failed;
    }
    assert input.None? ==> V.Has(input, V.InDocument(V.NilManifest));
    var m := input.value;
    if |m.unknowns| > 0 {
      return Failed;
    }
    var padded, unsupported := Screen(tk, m.provider, m.resources);
    if padded {
      return Failed;
    }
    if |unsupported| > 0 {
      return Refused(unsupported);
    }
    var rs := Sorted(m.resources);
    var files := RenderSorted(Printer(tk, m.tags, rs, parameterised), tk, m.tags, ProvidersFile(tk, m.region), rs, parameterised);
    out := if files.Some? then Files(files.value) else Failed;
  }

  method RenderSorted(
    ghost printer: Resource -> Option<string>, tk: Toolkit, tags: map<string, string>, head: File, rs: seq<Resource>, parameterised: bool)
    returns (files: Option<seq<File>>)
    requires PrintsContent(printer, tk, tags, rs, parameterised)
    ensures var printed := PrintAll(printer, rs, |rs|);
      files == if printed.None? then None else Some([head] + printed.value)
  {
    var out := [head];
    for i := 0 to |rs|
      invariant var printed := PrintAll(printer, rs, i);
        printed.Some? && out == [head] + printed.value
    {
      var content := RenderOne(printer, tk, tags, rs, rs[i], parameterised);
      if content.None? {
        PrintAllStops(printer, rs, i + 1, |rs|);
        return None;
      }
      out := out + [FileOf(rs[i], content)];
    }
    return Some(out);
  }

  method RenderOne(
    ghost printer: Resource -> Option<string>, tk: Toolkit, tags: map<string, string>, rs: seq<Resource>, r: Resource, parameterised: bool)
    returns (content: Option<string>)
    requires PrintsContent(printer, tk, tags, rs, parameterised)
    ensures content == printer(r)
  {
    assert Asked(r);
    var s := tk.catalog(Trim(r.kind));
    if s.None? {
      return None;
    }
    var p := Properties(tk, Normal(r), s.value);
    if p.None? {
      return None;
    }
    assert Completed(Normal(r), s.value) == Completed(r, s.value);
    var deps := CollectDependencies(tk, rs, r);
    content := tk.execute(s.value.Path(), TemplateData(
                            "r_" + r.logicalName, Inputs(tk, r, p.value, parameterised),
                            tags + r.tags, Join(deps, ", ")));
  }
}
