/** Which manifests the validator accepts, written out (backend/internal/manifest/validator.go). */
module ValidManifests {
  import opened Outcomes
  import opened Texts
  import opened Decimals
  import opened Manifests
  import opened Validation
  import opened RenderedGraph
  import DependencyGraph

  predicate AllDigits(s: string) {
    s != "" && Digits(s)
  }

  /** A major version of 1, a minor and maybe a patch number. */
  ghost predicate VersionOne(s: string) {
    || (exists minor :: AllDigits(minor) && s == "1." + minor)
    || (exists minor, patch :: AllDigits(minor) && AllDigits(patch) && s == "1." + minor + "." + patch)
  }

  /** Up to 64 lower-case letters, digits, underscores and hyphens, at least one. */
  predicate Name(s: string) {
    1 <= |s| <= 64 && forall c | c in s :: 'a' <= c <= 'z' || '0' <= c <= '9' || c == '_' || c == '-'
  }

  predicate Word(s: string) {
    s != "" && forall c | c in s :: 'a' <= c <= 'z' || '0' <= c <= '9' || c == '_' || c == '-'
  }

  /** A domain, the manifest's provider, and a kind, with dots between. */
  ghost predicate Typed(kind: string, provider: string) {
    exists domain, rest :: IsDomain(domain) && Word(rest) && kind == domain + "." + provider + "." + rest
  }

  lemma NumeralIsDigits(s: string)
    ensures IsNumeral(s) <==> AllDigits(s)
    ensures AllDigits(s) ==> '.' !in s
  {
    assert IsNumeral(s) ==> forall i | 0 <= i < |s| :: s[i] in s;
  }

  lemma ThreeJoined(a: string, b: string, c: string)
    ensures Join([a, b, c], ".") == a + "." + b + "." + c
    ensures Join([a, b], ".") == a + "." + b
  {
    assert [a, b, c][1..] == [b, c] && [b, c][1..] == [c] && [a, b][1..] == [b];
    assert Join([b, c], ".") == b + "." + c;
  }

  lemma {:induction false} VersionSplits(s: string)
    requires IsSchemaVersion(s)
    ensures VersionOne(s)
  {
    var parts := Split(s, '.');
    SplitBack(s, '.');
    NumeralIsDigits(parts[1]);
    assert parts[1] in parts[1..];
    if |parts| == 2 {
      assert parts == ["1", parts[1]];
      ThreeJoined("1", parts[1], "");
      assert s == "1." + parts[1];
    } else {
      NumeralIsDigits(parts[2]);
      assert parts[2] in parts[1..];
      assert parts == ["1", parts[1], parts[2]];
      ThreeJoined("1", parts[1], parts[2]);
      assert s == "1." + parts[1] + "." + parts[2];
    }
  }

  lemma {:induction false} VersionJoins(minor: string, patch: string)
    requires AllDigits(minor)
    ensures IsSchemaVersion("1." + minor)
    ensures AllDigits(patch) ==> IsSchemaVersion("1." + minor + "." + patch)
  {
    NumeralIsDigits(minor);
    NumeralIsDigits(patch);
    ThreeJoined("1", minor, patch);
    SplitJoined(["1", minor], '.');
    assert "1" + "." == "1.";
    if AllDigits(patch) {
      SplitJoined(["1", minor, patch], '.');
    }
  }

  lemma {:induction false} VersionExactly(s: string)
    ensures IsSchemaVersion(s) <==> VersionOne(s)
  {
    if IsSchemaVersion(s) {
      VersionSplits(s);
    }
    if minor :| AllDigits(minor) && s == "1." + minor {
      VersionJoins(minor, "");
    }
    if minor, patch :| AllDigits(minor) && AllDigits(patch) && s == "1." + minor + "." + patch {
      VersionJoins(minor, patch);
    }
  }

  lemma WordIsSlug(s: string)
    ensures IsSlug(s) <==> Word(s)
    ensures IsLogicalName(s) <==> Name(s)
    ensures Word(s) ==> '.' !in s
  {
  }

  lemma DomainsHaveNoDot(s: string)
    requires IsDomain(s) || IsProvider(s)
    ensures '.' !in s
  {
  }

  /** A type is accepted exactly when it is made of three such parts. */
  lemma {:induction false} KindExactly(kind: string, provider: string)
    requires IsProvider(provider)
    ensures (forall fault :: !KindDefect(kind, provider, fault)) <==> Typed(kind, provider)
  {
    var parts := Split(kind, '.');
    if forall fault :: !KindDefect(kind, provider, fault) {
      assert !KindDefect(kind, provider, MissingType) && !KindDefect(kind, provider, InvalidTypeFormat);
      assert !KindDefect(kind, provider, InvalidDomain) && !KindDefect(kind, provider, ProviderMismatch);
      assert !KindDefect(kind, provider, InvalidKind);
      SplitBack(kind, '.');
      assert parts == [parts[0], parts[1], parts[2]];
      ThreeJoined(parts[0], parts[1], parts[2]);
      WordIsSlug(parts[2]);
    }
    if domain, rest :| IsDomain(domain) && Word(rest) && kind == domain + "." + provider + "." + rest {
      DomainsHaveNoDot(domain);
      DomainsHaveNoDot(provider);
      WordIsSlug(rest);
      ThreeJoined(domain, provider, rest);
      SplitJoined([domain, provider, rest], '.');
      assert kind != "";
    }
  }

  ghost predicate GoodName(rs: seq<Resource>, i: nat)
    requires i < |rs|
  {
    Name(Trim(rs[i].logicalName)) && forall j | 0 <= j < i :: Trim(rs[j].logicalName) != Trim(rs[i].logicalName)
  }

  predicate GoodLineage(r: Resource) {
    r.source.Some? ==> 0.0 <= r.source.value.confidence <= 1.0 && IsSource(r.source.value.source)
  }

  /** Every dependency is the trimmed name of some resource, and not the resource's own name. */
  ghost predicate GoodDependencies(rs: seq<Resource>, r: Resource) {
    forall d | d in r.dependsOn :: d != r.logicalName && exists j :: 0 <= j < |rs| && Trim(rs[j].logicalName) == d
  }

  ghost predicate GoodResource(m: Manifest, i: nat)
    requires i < |m.resources|
  {
    var r := m.resources[i];
    GoodName(m.resources, i) && Typed(Trim(r.kind), Lower(Trim(m.provider))) && GoodLineage(r) && GoodDependencies(m.resources, r)
  }

  /** Some resource of that very name lists the other. */
  ghost predicate Lists(rs: seq<Resource>, name: string, other: string) {
    exists i :: 0 <= i < |rs| && rs[i].logicalName == name && other in rs[i].dependsOn
  }

  /** Names that lead back to the first, each resource listing the next. */
  ghost predicate Circle(rs: seq<Resource>, names: seq<string>) {
    |names| >= 2 && names[0] == names[|names| - 1] && forall k | 0 <= k < |names| - 1 :: Lists(rs, names[k], names[k + 1])
  }

  predicate GoodCost(m: Manifest) {
    m.cost.Some? ==> m.cost.value.estimatedMonthlyUSD >= 0.0 && 0 <= m.cost.value.confidencePct <= 100
  }

  predicate Provider(s: string) {
    s == "aws" || s == "azure" || s == "gcp"
  }

  ghost predicate Acceptable(m: Manifest) {
    && VersionOne(m.schemaVersion) && Provider(Lower(Trim(m.provider))) && Word(Trim(m.region))
    && m.resources != [] && (forall i | 0 <= i < |m.resources| :: GoodResource(m, i))
    && (forall names :: !Circle(m.resources, names)) && GoodCost(m)
  }

  lemma VersionIsNotBlank(s: string)
    requires VersionOne(s)
    ensures Trim(s) != ""
  {
    assert s[0] == '1' && TrimLeft(s) == s;
    TrimRightKeepsFirst(s);
  }

  lemma {:induction false} TrimRightKeepsFirst(s: string)
    requires s != "" && !IsSpace(s[0])
    ensures TrimRight(s) != ""
  {
    if |s| > 1 && IsSpace(s[|s| - 1]) {
      TrimRightKeepsFirst(s[..|s| - 1]);
    }
  }

  lemma {:induction false} HeadExactly(m: Manifest)
    ensures (forall code :: !HeadDefect(m, code)) <==>
      VersionOne(m.schemaVersion) && Provider(Lower(Trim(m.provider))) && Word(Trim(m.region)) && m.resources != []
  {
    VersionExactly(m.schemaVersion);
    WordIsSlug(Trim(m.region));
    if VersionOne(m.schemaVersion) {
      VersionIsNotBlank(m.schemaVersion);
    }
    if forall code :: !HeadDefect(m, code) {
      assert !HeadDefect(m, MissingSchemaVersion) && !HeadDefect(m, UnsupportedSchemaVersion) && !HeadDefect(m, MissingProvider);
      assert !HeadDefect(m, InvalidProvider) && !HeadDefect(m, MissingRegion) && !HeadDefect(m, InvalidRegion) && !HeadDefect(m, EmptyResources);
    }
  }

  lemma {:induction false} OwnExactly(m: Manifest, i: nat)
    requires i < |m.resources| && IsProvider(ManifestProvider(m))
    ensures (forall fault :: !OwnDefect(m, i, fault)) <==>
      GoodName(m.resources, i) && Typed(Trim(m.resources[i].kind), Lower(Trim(m.provider))) && GoodLineage(m.resources[i])
  {
    var r := m.resources[i];
    WordIsSlug(NameOf(r));
    KindExactly(Trim(r.kind), ManifestProvider(m));
    assert Taken(m.resources, i) <==> exists j :: 0 <= j < i && Trim(m.resources[j].logicalName) == Trim(r.logicalName);
    if forall fault :: !OwnDefect(m, i, fault) {
      assert !OwnDefect(m, i, MissingLogicalName) && !OwnDefect(m, i, InvalidLogicalName) && !OwnDefect(m, i, DuplicateLogicalName);
      assert !OwnDefect(m, i, InvalidSourceType) && !OwnDefect(m, i, InvalidConfidence);
      forall fault ensures !KindDefect(Trim(r.kind), ManifestProvider(m), fault) {
        assert !OwnDefect(m, i, fault);
      }
    }
  }

  lemma RegisteredExactly(rs: seq<Resource>, d: string)
    requires forall i | 0 <= i < |rs| :: Name(Trim(rs[i].logicalName))
    ensures Registered(rs, d) <==> exists j :: 0 <= j < |rs| && Trim(rs[j].logicalName) == d
  {
    WordIsSlug(d);
    if Registered(rs, d) {
      var j :| 0 <= j < |rs| && NameOf(rs[j]) == d;
      assert Trim(rs[j].logicalName) == d;
    }
    if j :| 0 <= j < |rs| && Trim(rs[j].logicalName) == d {
      assert NameOf(rs[j]) == d;
    }
  }

  lemma {:induction false} DependenciesExactly(rs: seq<Resource>, r: Resource)
    requires forall i | 0 <= i < |rs| :: Name(Trim(rs[i].logicalName))
    ensures (forall fault :: !DependencyDefect(rs, r, fault)) <==> GoodDependencies(rs, r)
  {
    forall d ensures Registered(rs, d) <==> exists j :: 0 <= j < |rs| && Trim(rs[j].logicalName) == d {
      RegisteredExactly(rs, d);
    }
    if forall fault :: !DependencyDefect(rs, r, fault) {
      assert !DependencyDefect(rs, r, SelfDependency) && !DependencyDefect(rs, r, DanglingDependency);
      forall d | d in r.dependsOn
        ensures d != r.logicalName && exists j :: 0 <= j < |rs| && Trim(rs[j].logicalName) == d
      {
        var k :| 0 <= k < |r.dependsOn| && r.dependsOn[k] == d;
        assert Registered(rs, r.dependsOn[k]);
      }
    }
    if GoodDependencies(rs, r) {
      forall k | 0 <= k < |r.dependsOn| ensures r.dependsOn[k] != r.logicalName && Registered(rs, r.dependsOn[k]) {
        assert r.dependsOn[k] in r.dependsOn;
      }
      forall fault ensures !DependencyDefect(rs, r, fault) {
      }
    }
  }

  lemma {:induction false} CirclesExactly(rs: seq<Resource>)
    requires DistinctNames(rs)
    ensures DependencyGraph.Acyclic(Adjacency(rs)) <==> forall names :: !Circle(rs, names)
  {
    forall a, b ensures b in DependencyGraph.Successors(Adjacency(rs), a) <==> Lists(rs, a, b) {
      StepIsListing(rs, a, b);
    }
    forall names ensures Circle(rs, names) <==> DependencyGraph.ClosedWalk(Adjacency(rs), names) {
    }
  }

  lemma {:induction false} StepIsListing(rs: seq<Resource>, a: string, b: string)
    requires DistinctNames(rs)
    ensures b in DependencyGraph.Successors(Adjacency(rs), a) <==> Lists(rs, a, b)
  {
    if i :| 0 <= i < |rs| && rs[i].logicalName == a {
      AdjacencyAt(rs, i);
    }
  }

  lemma {:induction false} TailExactly(m: Manifest)
    requires m.resources != [] && DistinctNames(m.resources)
    ensures (forall code :: !TailDefect(m, code)) <==> (forall names :: !Circle(m.resources, names)) && GoodCost(m)
  {
    CirclesExactly(m.resources);
    if forall code :: !TailDefect(m, code) {
      assert !TailDefect(m, CircularDependency) && !TailDefect(m, InvalidCost) && !TailDefect(m, InvalidConfidencePct);
    }
  }

  lemma {:induction false} GoodNamesDiffer(rs: seq<Resource>)
    requires forall i | 0 <= i < |rs| :: GoodName(rs, i)
    ensures DistinctNames(rs)
  {
    forall i, j | 0 <= i < j < |rs| ensures rs[i].logicalName != rs[j].logicalName {
      assert GoodName(rs, j);
    }
  }

  lemma {:induction false} SoundWhenValid(m: Manifest)
    requires WellFormed(m)
    ensures Acceptable(m)
  {
    forall code ensures !HeadDefect(m, code) && !TailDefect(m, code) {
      assert !Has(Some(m), InDocument(code));
    }
    HeadExactly(m);
    forall i | 0 <= i < |m.resources| ensures forall fault :: !OwnDefect(m, i, fault) && !DependencyDefect(m.resources, m.resources[i], fault) {
      forall fault ensures !OwnDefect(m, i, fault) && !DependencyDefect(m.resources, m.resources[i], fault) {
        assert !Has(Some(m), InResource(i, fault));
      }
    }
    forall i | 0 <= i < |m.resources| ensures GoodName(m.resources, i) && Typed(Trim(m.resources[i].kind), Lower(Trim(m.provider))) && GoodLineage(m.resources[i]) {
      OwnExactly(m, i);
    }
    forall i | 0 <= i < |m.resources| ensures GoodResource(m, i) {
      assert forall j | 0 <= j < |m.resources| :: Name(Trim(m.resources[j].logicalName)) by {
        assert forall j | 0 <= j < |m.resources| :: GoodName(m.resources, j);
      }
      DependenciesExactly(m.resources, m.resources[i]);
    }
    GoodNamesDiffer(m.resources);
    TailExactly(m);
  }

  lemma {:induction false} ValidWhenSound(m: Manifest)
    requires Acceptable(m)
    ensures WellFormed(m)
  {
    HeadExactly(m);
    forall i | 0 <= i < |m.resources| ensures GoodName(m.resources, i) && Name(Trim(m.resources[i].logicalName)) {
      assert GoodResource(m, i);
    }
    GoodNamesDiffer(m.resources);
    TailExactly(m);
    forall d ensures !Has(Some(m), d) {
      if d.InResource? && d.index < |m.resources| {
        assert GoodResource(m, d.index);
        OwnExactly(m, d.index);
        DependenciesExactly(m.resources, m.resources[d.index]);
      }
    }
  }

  /** The validator accepts a manifest if and only if it is acceptable. */
  lemma {:induction false} AcceptsExactly(m: Manifest)
    ensures WellFormed(m) <==> Acceptable(m)
  {
    if WellFormed(m) {
      SoundWhenValid(m);
    }
    if Acceptable(m) {
      ValidWhenSound(m);
    }
  }
}
