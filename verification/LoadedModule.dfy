/** A packed module as Terraform reads it: which variables its files declare, assign and pass
    on, and what the templates of its resources are handed. */
module ModuleReader {
  import opened Outcomes
  import opened Texts
  import opened Sorting

  /** The lines that are ended. */
  function Lines(text: string): seq<string> {
    var parts := Split(text, '\n'); parts[..|parts| - 1]
  }

  /** What a reader finds in the lines, in order. */
  function Picked<T>(read: string -> Option<T>, lines: seq<string>): seq<T> {
    if lines == [] then []
    else (if read(lines[0]).Some? then [read(lines[0]).value] else []) + Picked(read, lines[1..])
  }

  /** `variable NAME {` */
  function Declaration(line: string): Option<string> {
    if |line| >= 11 && line[..9] == "variable " && line[|line| - 2..] == " {" then Some(line[9..|line| - 2]) else None
  }

  datatype Assignment = Assignment(name: string, value: string)

  /** The position of the first ` = `, or the length. */
  function EqualsAt(line: string): nat {
    if line == "" then 0 else if " = " <= line then 0 else 1 + EqualsAt(line[1..])
  }

  lemma EqualsInside(line: string)
    ensures EqualsAt(line) <= |line| && (EqualsAt(line) < |line| ==> " = " <= line[EqualsAt(line)..])
  {
  }

  /** `NAME = VALUE` behind an indentation. */
  function Assigned(indent: string): string -> Option<Assignment> {
    (line: string) => ReadAssignment(indent, line)
  }

  function ReadAssignment(indent: string, line: string): Option<Assignment> {
    if !(indent <= line) then None
    else
      var rest := line[|indent|..];
      var at := EqualsAt(rest);
      EqualsInside(rest);
      if at == |rest| || at == 0 || rest[0] == ' ' then None else Some(Assignment(rest[..at], rest[at + 3..]))
  }

  function Declares(text: string): seq<string> {
    Picked(Declaration, Lines(text))
  }

  function Assigns(indent: string, text: string): seq<Assignment> {
    Picked(Assigned(indent), Lines(text))
  }

  predicate Ended(text: string) {
    text == "" || text[|text| - 1] == '\n'
  }

  lemma {:induction false} SplitBeside(a: string, b: string)
    ensures Split(a + "\n" + b, '\n') == Split(a, '\n') + Split(b, '\n')
  {
    var t := a + "\n" + b;
    if a == "" {
      assert t[1..] == b && t[0] == '\n';
    } else {
      SplitBeside(a[1..], b);
      assert t[1..] == a[1..] + "\n" + b && t[0] == a[0];
    }
  }

  lemma {:induction false} SplitEnded(a: string, b: string)
    requires Ended(a)
    ensures Split(a + b, '\n') == Lines(a) + Split(b, '\n')
  {
    if a == "" {
      assert a + b == b;
    } else {
      var x := a[..|a| - 1];
      assert a == x + "\n" + "" && a + b == x + "\n" + b;
      SplitBeside(x, b);
      SplitBeside(x, "");
      assert Split("", '\n') == [""];
    }
  }

  lemma {:induction false} LinesSplit(a: string, b: string)
    requires Ended(a)
    ensures Lines(a + b) == Lines(a) + Lines(b)
  {
    SplitEnded(a, b);
  }

  lemma {:induction false} OneLine(line: string)
    requires '\n' !in line
    ensures Lines(line + "\n") == [line]
  {
    if line == "" {
      assert "\n"[1..] == "" && line + "\n" == "\n";
    } else {
      OneLine(line[1..]);
      assert (line + "\n")[1..] == line[1..] + "\n" && (line + "\n")[0] == line[0];
      assert line == [line[0]] + line[1..];
    }
  }

  lemma {:induction false} PickedSplit<T>(read: string -> Option<T>, a: seq<string>, b: seq<string>)
    ensures Picked(read, a + b) == Picked(read, a) + Picked(read, b)
  {
    if a == [] {
      assert a + b == b;
    } else {
      assert (a + b)[1..] == a[1..] + b;
      PickedSplit(read, a[1..], b);
    }
  }

  lemma {:induction false} PickedText<T>(read: string -> Option<T>, a: string, b: string)
    requires Ended(a)
    ensures Picked(read, Lines(a + b)) == Picked(read, Lines(a)) + Picked(read, Lines(b))
  {
    LinesSplit(a, b);
    PickedSplit(read, Lines(a), Lines(b));
  }

  lemma {:induction false} PickedLine<T>(read: string -> Option<T>, line: string)
    requires '\n' !in line
    ensures Picked(read, Lines(line + "\n")) == if read(line).Some? then [read(line).value] else []
  {
    OneLine(line);
    assert [line][1..] == [];
  }

  /** A name without white space ends at the first ` = `. */
  lemma {:induction false} EqualsAfter(name: string, value: string)
    requires ' ' !in name
    ensures EqualsAt(name + " = " + value) == |name|
  {
    var line := name + " = " + value;
    if name == "" {
      assert line == " = " + value;
    } else {
      assert line[1..] == name[1..] + " = " + value && line[0] == name[0];
      EqualsAfter(name[1..], value);
    }
  }

  lemma {:induction false} AssignmentRead(indent: string, name: string, value: string)
    requires ' ' !in name && name != ""
    ensures ReadAssignment(indent, indent + name + " = " + value) == Some(Assignment(name, value))
  {
    var rest := name + " = " + value;
    EqualsAfter(name, value);
    assert indent + name + " = " + value == indent + rest && (indent + rest)[|indent|..] == rest;
    assert rest[..|name|] == name && rest[|name| + 3..] == value && rest[0] == name[0];
  }

  lemma {:induction false} AssignmentLine(indent: string, name: string, value: string)
    requires ' ' !in name && name != "" && '\n' !in indent && '\n' !in name && '\n' !in value
    ensures Assigns(indent, indent + name + " = " + value + "\n") == [Assignment(name, value)]
    ensures Ended(indent + name + " = " + value + "\n")
  {
    AssignmentRead(indent, name, value);
    PickedLine(Assigned(indent), indent + name + " = " + value);
  }

  lemma DeclarationRead(name: string)
    ensures Declaration("variable " + name + " {") == Some(name)
  {
    var line := "variable " + name + " {";
    assert line[9..|line| - 2] == name;
  }

  lemma BlockText(head: string, body: string)
    ensures head + "\n" + (body + "\n" + "}\n") == head + "\n" + body + "\n}\n"
  {
  }

  lemma {:induction false} ThreeLines<T>(read: string -> Option<T>, head: string, body: string)
    requires '\n' !in head && '\n' !in body && read(body).None? && read("}").None?
    ensures Picked(read, Lines(head + "\n" + body + "\n}\n")) == if read(head).Some? then [read(head).value] else []
  {
    BlockText(head, body);
    PickedLine(read, head);
    PickedLine(read, body);
    PickedLine(read, "}");
    assert "}" + "\n" == "}\n";
    PickedText(read, body + "\n", "}\n");
    PickedText(read, head + "\n", body + "\n" + "}\n");
  }

  /** One declaration block. */
  lemma {:induction false} DeclarationBlock(name: string, kind: string)
    requires '\n' !in name && '\n' !in kind
    ensures Declares("variable " + name + " {" + "\n" + ("  type = " + kind) + "\n}\n") == [name]
  {
    DeclarationRead(name);
    assert Declaration("  type = " + kind).None? by {
      assert ("  type = " + kind)[0] == ' ' && "variable "[0] == 'v';
    }
    ThreeLines(Declaration, "variable " + name + " {", "  type = " + kind);
  }
}

/** The packed module of a manifest, read back. */
module LoadedModule {
  import opened Outcomes
  import opened Texts
  import opened Sorting
  import opened Manifests
  import opened Rendering
  import opened RenderedGraph
  import opened Bundling
  import opened BundleProperties
  import opened ModuleReader
  import V = Validation
  import Hcl

  /** What JSON encoding does: one line, and names in quotes as they are. Terraform types are
      one line too. */
  ghost predicate Encodes(tk: Toolkit) {
    && (forall v :: '\n' !in tk.marshal(v))
    && (forall s | V.IsSlug(s) :: tk.marshal(Text(s)) == Quoted(s))
    && (forall kind | tk.catalog(kind).Some? :: '\n' !in tk.catalog(kind).value.terraformType)
  }

  function Quoted(s: string): string {
    "\"" + s + "\""
  }

  lemma {:induction false} DoubledKeeps(s: string)
    ensures '\n' !in s ==> '\n' !in Hcl.Doubled(s)
    ensures '$' !in s && '%' !in s ==> Hcl.Doubled(s) == s
    decreases |s|
  {
    if s != "" {
      if Hcl.Introduces(s) {
        DoubledKeeps(s[2..]);
      } else {
        DoubledKeeps(s[1..]);
        assert s == [s[0]] + s[1..];
      }
    }
  }

  lemma {:induction false} HclKeeps(tk: Toolkit, v: Json)
    requires Encodes(tk)
    ensures '\n' !in HclText(tk, v)
    ensures v.Text? && V.IsSlug(v.s) ==> HclText(tk, v) == Quoted(v.s)
  {
    Hcl.EscapeDoubles(tk.marshal(v));
    DoubledKeeps(tk.marshal(v));
    if v.Text? && V.IsSlug(v.s) {
      assert forall c | c in v.s :: V.IsNameChar(c);
      assert '$' !in Quoted(v.s) && '%' !in Quoted(v.s);
    }
  }

  /** The variable of a resource. */
  predicate Named(r: Resource, v: string) {
    v == "r_" + r.logicalName
  }

  ghost predicate AllSlugs(rs: seq<Resource>) {
    forall i | 0 <= i < |rs| :: V.IsSlug(rs[i].logicalName)
  }

  lemma VariableIsSlug(r: Resource)
    requires V.IsSlug(r.logicalName)
    ensures V.IsSlug("r_" + r.logicalName) && ' ' !in "r_" + r.logicalName && '\n' !in "r_" + r.logicalName
    ensures ' ' !in Quoted(r.logicalName)
  {
    var v := "r_" + r.logicalName;
    forall c | c in v ensures V.IsNameChar(c) {
      assert c == 'r' || c == '_' || c in r.logicalName;
    }
  }

  /** What one field of the parts gives the reader, taken together. */
  lemma {:induction false} ReadsOneMore<T>(read: string -> Option<T>, a: string, b: string, found: seq<T>)
    requires found != [] && Ended(a) && Ended(b)
    requires Picked(read, Lines(a)) == found[..|found| - 1] && Picked(read, Lines(b)) == [found[|found| - 1]]
    ensures Picked(read, Lines(a + b)) == found && Ended(a + b)
  {
    PickedText(read, a, b);
    assert found == found[..|found| - 1] + [found[|found| - 1]];
  }

  lemma {:induction false} GatheredReads<T>(read: string -> Option<T>, parts: seq<Part>, field: Bundling.Field, found: seq<T>)
    requires |found| == |parts|
    requires forall i | 0 <= i < |parts| :: Picked(read, Lines(Get(parts[i], field))) == [found[i]] && Ended(Get(parts[i], field))
    ensures Picked(read, Lines(Gathered(parts, field))) == found && Ended(Gathered(parts, field))
  {
    if parts != [] {
      var n := |parts| - 1;
      GatheredReads(read, parts[..n], field, found[..n]);
      ReadsOneMore(read, Gathered(parts[..n], field), Get(parts[n], field), found);
    }
  }

  lemma {:induction false} PartDeclares(tk: Toolkit, content: Option<string>, r: Resource)
    requires Encodes(tk) && V.IsSlug(r.logicalName)
    ensures var text := Get(PartOf(tk, content, r), Bundling.Declaration);
      Declares(text) == [Quoted("r_" + r.logicalName)] && Ended(text)
  {
    VariableIsSlug(r);
    HclKeeps(tk, Text("r_" + r.logicalName));
    DeclarationBlock(Quoted("r_" + r.logicalName), "any");
    var name := Quoted("r_" + r.logicalName);
    assert "variable " + name + " {" + "\n" + ("  type = " + "any") + "\n}\n" == "variable " + name + " {\n  type = any\n}\n";
  }

  lemma {:induction false} PartAssigns(tk: Toolkit, content: Option<string>, r: Resource)
    requires Encodes(tk) && V.IsSlug(r.logicalName) && tk.catalog(Trim(r.kind)).Some?
    ensures var text := Get(PartOf(tk, content, r), Bundling.Value);
      && Assigns("", text) == [Assignment("r_" + r.logicalName, HclText(tk, Object(Completed(r, tk.catalog(Trim(r.kind)).value))))]
      && Ended(text)
  {
    VariableIsSlug(r);
    var v, props := "r_" + r.logicalName, Object(Completed(r, tk.catalog(Trim(r.kind)).value));
    HclKeeps(tk, props);
    AssignmentLine("", v, HclText(tk, props));
    assert "" + v == v;
  }

  lemma {:induction false} PartPasses(tk: Toolkit, content: Option<string>, r: Resource)
    requires Encodes(tk) && V.IsSlug(r.logicalName) && tk.catalog(Trim(r.kind)).Some?
    ensures var text := Get(PartOf(tk, content, r), Bundling.Argument);
      Assigns("  ", text) == [Assignment("r_" + r.logicalName, "var.r_" + r.logicalName)] && Ended(text)
  {
    VariableIsSlug(r);
    var v := "r_" + r.logicalName;
    AssignmentLine("  ", v, "var." + v);
    assert "  " + v + " = " + ("var." + v) + "\n" == "  " + v + " = var." + v + "\n";
    assert "var." + v == "var.r_" + r.logicalName;
  }

  lemma {:induction false} PartOutputs(tk: Toolkit, content: Option<string>, r: Resource)
    requires Encodes(tk) && V.IsSlug(r.logicalName) && tk.catalog(Trim(r.kind)).Some?
    ensures var text := Get(PartOf(tk, content, r), Bundling.Output);
      && Assigns("    ", text) ==
           [Assignment(Quoted(r.logicalName), tk.catalog(Trim(r.kind)).value.terraformType + ".r_" + r.logicalName + ".id")]
      && Ended(text)
  {
    VariableIsSlug(r);
    HclKeeps(tk, Text(r.logicalName));
    var kind, name := tk.catalog(Trim(r.kind)).value.terraformType, r.logicalName;
    assert forall c | c in name :: V.IsNameChar(c);
    AssignmentLine("    ", Quoted(name), kind + ".r_" + name + ".id");
    assert "    " + Quoted(name) + " = " + (kind + ".r_" + name + ".id") + "\n" == "    " + Quoted(name) + " = " + kind + "." + ("r_" + name) + ".id\n";
  }

  function Names(rs: seq<Resource>): (r: seq<string>)
    ensures |r| == |rs| && forall i | 0 <= i < |rs| :: r[i] == Quoted("r_" + rs[i].logicalName)
  {
    seq(|rs|, i requires 0 <= i < |rs| => Quoted("r_" + rs[i].logicalName))
  }

  /** Each variable with the properties of its resource. */
  function Values(tk: Toolkit, rs: seq<Resource>): (r: seq<Assignment>)
    requires forall i | 0 <= i < |rs| :: tk.catalog(Trim(rs[i].kind)).Some?
    ensures |r| == |rs|
    ensures forall i | 0 <= i < |rs| ::
      r[i] == Assignment("r_" + rs[i].logicalName, HclText(tk, Object(Completed(rs[i], tk.catalog(Trim(rs[i].kind)).value))))
  {
    seq(|rs|, i requires 0 <= i < |rs| =>
      Assignment("r_" + rs[i].logicalName, HclText(tk, Object(Completed(rs[i], tk.catalog(Trim(rs[i].kind)).value)))))
  }

  /** Each variable passed on under its own name. */
  function Passed(rs: seq<Resource>): (r: seq<Assignment>)
    ensures |r| == |rs| && forall i | 0 <= i < |rs| :: r[i] == Assignment("r_" + rs[i].logicalName, "var.r_" + rs[i].logicalName)
  {
    seq(|rs|, i requires 0 <= i < |rs| => Assignment("r_" + rs[i].logicalName, "var.r_" + rs[i].logicalName))
  }

  function Outputs(tk: Toolkit, rs: seq<Resource>): (r: seq<Assignment>)
    requires forall i | 0 <= i < |rs| :: tk.catalog(Trim(rs[i].kind)).Some?
    ensures |r| == |rs|
    ensures forall i | 0 <= i < |rs| ::
      r[i] == Assignment(Quoted(rs[i].logicalName), tk.catalog(Trim(rs[i].kind)).value.terraformType + ".r_" + rs[i].logicalName + ".id")
  {
    seq(|rs|, i requires 0 <= i < |rs| =>
      Assignment(Quoted(rs[i].logicalName), tk.catalog(Trim(rs[i].kind)).value.terraformType + ".r_" + rs[i].logicalName + ".id"))
  }

  ghost predicate Known(tk: Toolkit, rs: seq<Resource>) {
    Encodes(tk) && AllSlugs(rs) && forall i | 0 <= i < |rs| :: tk.catalog(Trim(rs[i].kind)).Some?
  }

  lemma {:induction false} DeclarationsRead(tk: Toolkit, printer: Resource -> Option<string>, rs: seq<Resource>)
    requires Known(tk, rs)
    ensures Declares(Gathered(Map(Parter(tk, printer), rs), Bundling.Declaration)) == Names(rs)
  {
    var parts := Map(Parter(tk, printer), rs);
    forall i | 0 <= i < |rs|
      ensures Declares(Get(parts[i], Bundling.Declaration)) == [Names(rs)[i]] && Ended(Get(parts[i], Bundling.Declaration))
    {
      PartDeclares(tk, printer(rs[i]), rs[i]);
    }
    GatheredReads(ModuleReader.Declaration, parts, Bundling.Declaration, Names(rs));
  }

  lemma {:induction false} ValuesRead(tk: Toolkit, printer: Resource -> Option<string>, rs: seq<Resource>)
    requires Known(tk, rs)
    ensures Assigns("", Gathered(Map(Parter(tk, printer), rs), Bundling.Value)) == Values(tk, rs)
  {
    var parts := Map(Parter(tk, printer), rs);
    forall i | 0 <= i < |rs|
      ensures Assigns("", Get(parts[i], Bundling.Value)) == [Values(tk, rs)[i]] && Ended(Get(parts[i], Bundling.Value))
    {
      PartAssigns(tk, printer(rs[i]), rs[i]);
    }
    GatheredReads(Assigned(""), parts, Bundling.Value, Values(tk, rs));
  }

  lemma {:induction false} ArgumentsRead(tk: Toolkit, printer: Resource -> Option<string>, rs: seq<Resource>)
    requires Known(tk, rs)
    ensures var text := Gathered(Map(Parter(tk, printer), rs), Bundling.Argument); Assigns("  ", text) == Passed(rs) && Ended(text)
  {
    var parts := Map(Parter(tk, printer), rs);
    forall i | 0 <= i < |rs|
      ensures Assigns("  ", Get(parts[i], Bundling.Argument)) == [Passed(rs)[i]] && Ended(Get(parts[i], Bundling.Argument))
    {
      PartPasses(tk, printer(rs[i]), rs[i]);
    }
    GatheredReads(Assigned("  "), parts, Bundling.Argument, Passed(rs));
  }

  lemma {:induction false} OutputsRead(tk: Toolkit, printer: Resource -> Option<string>, rs: seq<Resource>)
    requires Known(tk, rs)
    ensures var text := Gathered(Map(Parter(tk, printer), rs), Bundling.Output); Assigns("    ", text) == Outputs(tk, rs) && Ended(text)
  {
    var parts := Map(Parter(tk, printer), rs);
    forall i | 0 <= i < |rs|
      ensures Assigns("    ", Get(parts[i], Bundling.Output)) == [Outputs(tk, rs)[i]] && Ended(Get(parts[i], Bundling.Output))
    {
      PartOutputs(tk, printer(rs[i]), rs[i]);
    }
    GatheredReads(Assigned("    "), parts, Bundling.Output, Outputs(tk, rs));
  }

  lemma {:induction false} RegionRead(text: string)
    requires '\n' !in text
    ensures Assigns("", "region = " + text + "\n") == [Assignment("region", text)] && Ended("region = " + text + "\n")
  {
    AssignmentLine("", "region", text);
    assert "" + "region" + " = " + text + "\n" == "region = " + text + "\n";
  }

  lemma {:induction false} RegionDeclared()
    ensures var text := "variable \"region\" {\n  type = string\n}\n"; Declares(text) == ["\"region\""] && Ended(text)
  {
    DeclarationBlock("\"region\"", "string");
    assert "variable " + "\"region\"" + " {" + "\n" + ("  type = " + "string") + "\n}\n" == "variable \"region\" {\n  type = string\n}\n";
  }

  lemma {:induction false} TwoLines(indent: string, a: string, b: string)
    requires '\n' !in a && '\n' !in b && ReadAssignment(indent, a).None?
    ensures var text := a + "\n" + (b + "\n");
      Ended(text) && Assigns(indent, text) == if ReadAssignment(indent, b).Some? then [ReadAssignment(indent, b).value] else []
  {
    PickedLine(Assigned(indent), a);
    PickedLine(Assigned(indent), b);
    PickedText(Assigned(indent), a + "\n", b + "\n");
  }

  lemma ModuleLine()
    ensures var line := "module \"resources\" {"; '\n' !in line && ReadAssignment("  ", line).None?
  {
    assert "module \"resources\" {"[0] == 'm';
  }

  lemma ModuleText()
    ensures "module \"resources\" {" + "\n" + ("  source = \"./resources\"" + "\n") == "module \"resources\" {\n  source = \"./resources\"\n"
  {
  }

  lemma SourceLine()
    ensures var line := "  source = \"./resources\""; '\n' !in line && line == "  " + "source" + " = " + "\"./resources\""
    ensures ' ' !in "source"
  {
  }

  lemma {:induction false} ModuleHead()
    ensures var text := "module \"resources\" {\n  source = \"./resources\"\n";
      Assigns("  ", text) == [Assignment("source", "\"./resources\"")] && Ended(text)
  {
    SourceLine();
    ModuleLine();
    ModuleText();
    var a, b := "module \"resources\" {", "  source = \"./resources\"";
    AssignmentRead("  ", "source", "\"./resources\"");
    TwoLines("  ", a, b);
  }

  lemma {:induction false} BraceRead()
    ensures Assigns("  ", "}\n") == []
  {
    PickedLine(Assigned("  "), "}");
    assert "}" + "\n" == "}\n";
  }

  lemma OutputLines()
    ensures '\n' !in "output \"resource_ids\" {" && ReadAssignment("    ", "output \"resource_ids\" {").None?
    ensures '\n' !in "  value = {" && ReadAssignment("    ", "  value = {").None?
  {
    assert "output \"resource_ids\" {"[0] == 'o' && "  value = {"[2] == 'v';
  }

  lemma {:induction false} OutputHead()
    ensures var text := "output \"resource_ids\" {\n  value = {\n"; Assigns("    ", text) == [] && Ended(text)
  {
    OutputLines();
    TwoLines("    ", "output \"resource_ids\" {", "  value = {");
    assert "output \"resource_ids\" {" + "\n" + ("  value = {" + "\n") == "output \"resource_ids\" {\n  value = {\n";
  }

  lemma {:induction false} OutputEnd()
    ensures Assigns("    ", "  }\n}\n") == []
  {
    TwoLines("    ", "  }", "}");
    assert "  }" + "\n" + ("}" + "\n") == "  }\n}\n";
  }

  lemma {:induction false} FixedFilesPacked(tk: Toolkit, m: Manifest)
    requires Reviewed(tk) && BundleSpec(tk, m).Files?
    ensures tk.config(m.provider).Some? && forall f | f in PackedFixed(tk, m) :: f in BundleSpec(tk, m).files
  {
    BundleFiles(tk, m);
    SortPermutes(ByPath, Listing(PackedFixed(tk, m), PackedParts(tk, m)));
  }

  lemma {:induction false} RenderedSlugs(tk: Toolkit, m: Manifest, r: Resource)
    requires RenderSpec(tk, m, true).Files? && r in m.resources
    ensures V.IsSlug(r.logicalName)
  {
    WellFormedNames(m);
    var j :| 0 <= j < |m.resources| && m.resources[j] == r;
    assert m.resources[j].logicalName == Trim(m.resources[j].logicalName);
  }

  lemma {:induction false} AcceptedKnown(tk: Toolkit, rs: seq<Resource>, i: nat)
    requires AllAccepted(Accepts(tk), rs) && i < |rs|
    ensures tk.catalog(Trim(rs[i].kind)).Some?
  {
    assert Accepts(tk)(rs[i]);
  }

  lemma {:induction false} BundleRenders(tk: Toolkit, m: Manifest)
    requires BundleSpec(tk, m).Files?
    ensures RenderSpec(tk, AliasedAll(m), true).Files?
  {
  }

  lemma {:induction false} SortedMember(rs: seq<Resource>, i: nat)
    requires i < |Sorted(rs)|
    ensures Sorted(rs)[i] in rs
  {
    SortPermutes(ByName, rs);
  }

  lemma {:induction false} PackedSlugs(tk: Toolkit, m: Manifest, i: nat)
    requires BundleSpec(tk, m).Files? && i < |Packed(m)|
    ensures V.IsSlug(Packed(m)[i].logicalName)
  {
    BundleRenders(tk, m);
    SortedMember(AliasedAll(m).resources, i);
    RenderedSlugs(tk, AliasedAll(m), Packed(m)[i]);
  }

  lemma {:induction false} PackedSupported(tk: Toolkit, m: Manifest, i: nat)
    requires Reviewed(tk) && BundleSpec(tk, m).Files? && i < |Packed(m)|
    ensures tk.catalog(Trim(Packed(m)[i].kind)).Some?
  {
    BundleFiles(tk, m);
    AcceptedKnown(tk, Packed(m), i);
  }

  lemma {:induction false} PackedKnown(tk: Toolkit, m: Manifest)
    requires Reviewed(tk) && Encodes(tk) && BundleSpec(tk, m).Files?
    ensures Known(tk, Packed(m))
  {
    forall i | 0 <= i < |Packed(m)| ensures V.IsSlug(Packed(m)[i].logicalName) && tk.catalog(Trim(Packed(m)[i].kind)).Some? {
      PackedSlugs(tk, m, i);
      PackedSupported(tk, m, i);
    }
  }

  /** Reading the files of a packed module back. Both variable files declare the variable of each
      resource, the root one the region before them; the values file assigns the region and each
      variable the completed properties of its resource; the module block passes each variable on
      under its own name; and the outputs name each resource's identifier. All in logical-name
      order, and nothing else. */
  lemma {:induction false} ModuleReadsBack(tk: Toolkit, m: Manifest)
    returns (root: string, child: string, values: string, config: string, block: string, outputs: string)
    requires Reviewed(tk) && Encodes(tk) && BundleSpec(tk, m).Files?
    ensures Known(tk, Packed(m))
    ensures File("variables.tf", root) in BundleSpec(tk, m).files && Declares(root) == ["\"region\""] + Names(Packed(m))
    ensures File("resources/variables.tf", child) in BundleSpec(tk, m).files && Declares(child) == Names(Packed(m))
    ensures File("terraform.tfvars", values) in BundleSpec(tk, m).files
      && Assigns("", values) == [Assignment("region", HclText(tk, Text(Trim(m.region))))] + Values(tk, Packed(m))
    ensures tk.config(m.provider) == Some(config) && File("main.tf", config + block) in BundleSpec(tk, m).files
      && Assigns("  ", block) == [Assignment("source", "\"./resources\"")] + Passed(Packed(m))
    ensures File("resources/outputs.tf", outputs) in BundleSpec(tk, m).files && Assigns("    ", outputs) == Outputs(tk, Packed(m))
  {
    FixedFilesPacked(tk, m);
    PackedKnown(tk, m);
    var fixed, printer, rs, parts := PackedFixed(tk, m), PackedPrinter(tk, m), Packed(m), PackedParts(tk, m);
    config := tk.config(m.provider).value;
    root, child, values, outputs := fixed[2].content, fixed[4].content, fixed[3].content, fixed[5].content;
    block := "module \"resources\" {\n  source = \"./resources\"\n" + Gathered(parts, Bundling.Argument) + "}\n";
    assert fixed[1] == File("main.tf", config + block) by {
      MainText(config, "module \"resources\" {\n  source = \"./resources\"\n", Gathered(parts, Bundling.Argument), "}\n");
    }
    assert fixed[1] in fixed && fixed[2] in fixed && fixed[3] in fixed && fixed[4] in fixed && fixed[5] in fixed;
    RootReads(tk, printer, rs);
    ValuesFileReads(tk, printer, rs, HclText(tk, Text(Trim(m.region))), Text(Trim(m.region)));
    BlockReads(tk, printer, rs);
    OutputsFileReads(tk, printer, rs);
  }

  lemma MainText(a: string, b: string, c: string, d: string)
    ensures a + b + c + d == a + (b + c + d)
  {
  }

  lemma {:induction false} RootReads(tk: Toolkit, printer: Resource -> Option<string>, rs: seq<Resource>)
    requires Known(tk, rs)
    ensures var text := Gathered(Map(Parter(tk, printer), rs), Bundling.Declaration);
      && Declares(text) == Names(rs)
      && Declares("variable \"region\" {\n  type = string\n}\n" + text) == ["\"region\""] + Names(rs)
  {
    DeclarationsRead(tk, printer, rs);
    RegionDeclared();
    PickedText(ModuleReader.Declaration, "variable \"region\" {\n  type = string\n}\n",
               Gathered(Map(Parter(tk, printer), rs), Bundling.Declaration));
  }

  lemma {:induction false} ValuesFileReads(tk: Toolkit, printer: Resource -> Option<string>, rs: seq<Resource>, region: string, v: Json)
    requires Known(tk, rs) && region == HclText(tk, v)
    ensures Assigns("", "region = " + region + "\n" + Gathered(Map(Parter(tk, printer), rs), Bundling.Value)) ==
            [Assignment("region", region)] + Values(tk, rs)
  {
    HclKeeps(tk, v);
    RegionRead(region);
    ValuesRead(tk, printer, rs);
    PickedText(Assigned(""), "region = " + region + "\n", Gathered(Map(Parter(tk, printer), rs), Bundling.Value));
  }

  lemma {:induction false} BlockReads(tk: Toolkit, printer: Resource -> Option<string>, rs: seq<Resource>)
    requires Known(tk, rs)
    ensures var text := Gathered(Map(Parter(tk, printer), rs), Bundling.Argument);
      Assigns("  ", "module \"resources\" {\n  source = \"./resources\"\n" + text + "}\n") ==
      [Assignment("source", "\"./resources\"")] + Passed(rs)
  {
    var head, text := "module \"resources\" {\n  source = \"./resources\"\n", Gathered(Map(Parter(tk, printer), rs), Bundling.Argument);
    ModuleHead();
    ArgumentsRead(tk, printer, rs);
    BraceRead();
    FramedReads("  ", head, text, "}\n");
  }

  lemma {:induction false} OutputsFileReads(tk: Toolkit, printer: Resource -> Option<string>, rs: seq<Resource>)
    requires Known(tk, rs)
    ensures var text := Gathered(Map(Parter(tk, printer), rs), Bundling.Output);
      Assigns("    ", "output \"resource_ids\" {\n  value = {\n" + text + "  }\n}\n") == Outputs(tk, rs)
  {
    var head, text := "output \"resource_ids\" {\n  value = {\n", Gathered(Map(Parter(tk, printer), rs), Bundling.Output);
    OutputHead();
    OutputsRead(tk, printer, rs);
    OutputEnd();
    FramedReads("    ", head, text, "  }\n}\n");
  }

  lemma {:induction false} FramedReads(indent: string, head: string, text: string, end: string)
    requires Ended(head) && Ended(text)
    ensures Assigns(indent, head + text + end) == Assigns(indent, head) + Assigns(indent, text) + Assigns(indent, end)
  {
    assert Ended(head + text);
    PickedText(Assigned(indent), head, text);
    PickedText(Assigned(indent), head + text, end);
  }

  function NamesOf(assignments: seq<Assignment>): (r: seq<string>)
    ensures |r| == |assignments| && forall i | 0 <= i < |r| :: r[i] == assignments[i].name
  {
    seq(|assignments|, i requires 0 <= i < |assignments| => assignments[i].name)
  }

  /** So a variable is declared, assigned and passed on once or not at all: no list names
      anything twice. */
  lemma {:induction false} EachOnce(tk: Toolkit, rs: seq<Resource>, region: string)
    requires Known(tk, rs) && DistinctNames(rs)
    ensures NoDuplicates(["\"region\""] + Names(rs))
    ensures NoDuplicates(NamesOf([Assignment("region", region)] + Values(tk, rs)))
    ensures NoDuplicates(NamesOf([Assignment("source", "\"./resources\"")] + Passed(rs)))
  {
    DeclaredOnce(rs);
    NamedOnce(rs, Assignment("region", region), Values(tk, rs));
    NamedOnce(rs, Assignment("source", "\"./resources\""), Passed(rs));
  }

  lemma {:induction false} DeclaredOnce(rs: seq<Resource>)
    requires DistinctNames(rs)
    ensures NoDuplicates(["\"region\""] + Names(rs))
  {
    var a := ["\"region\""] + Names(rs);
    forall i, j | 0 <= i < j < |a| ensures a[i] != a[j] {
      VariablesDiffer(rs, i, j);
    }
  }

  lemma {:induction false} NamedOnce(rs: seq<Resource>, first: Assignment, rest: seq<Assignment>)
    requires DistinctNames(rs) && |rest| == |rs| && forall i | 0 <= i < |rs| :: rest[i].name == "r_" + rs[i].logicalName
    requires first.name == "region" || first.name == "source"
    ensures NoDuplicates(NamesOf([first] + rest))
  {
    var a := NamesOf([first] + rest);
    forall i, j | 0 <= i < j < |a| ensures a[i] != a[j] {
      VariablesDiffer(rs, i, j);
    }
  }

  /** Position 0 is the region or the source. */
  lemma {:induction false} VariablesDiffer(rs: seq<Resource>, i: nat, j: nat)
    requires DistinctNames(rs) && i < j <= |rs|
    ensures var v := "r_" + rs[j - 1].logicalName;
      if i == 0 then Quoted(v) != "\"region\"" && v != "region" && v != "source"
      else v != "r_" + rs[i - 1].logicalName && Quoted(v) != Quoted("r_" + rs[i - 1].logicalName)
  {
    var v := "r_" + rs[j - 1].logicalName;
    assert v[1] == '_' && v[0] == 'r' && Quoted(v)[2] == v[1] && "\"region\""[2] == 'e' && "region"[1] == 'e' && "source"[0] == 's';
    if i > 0 {
      var w := "r_" + rs[i - 1].logicalName;
      assert v[2..] == rs[j - 1].logicalName && w[2..] == rs[i - 1].logicalName;
      assert Quoted(v)[1..|Quoted(v)| - 1] == v && Quoted(w)[1..|Quoted(w)| - 1] == w;
    }
  }

  /** What a reference to the resource a dependency names looks like. */
  ghost predicate Refers(tk: Toolkit, rs: seq<Resource>, name: string, text: string) {
    exists j :: 0 <= j < |rs| && rs[j].logicalName == name && tk.catalog(Trim(rs[j].kind)).Some?
      && text == tk.catalog(Trim(rs[j].kind)).value.terraformType + ".r_" + name
  }

  /** What a template is handed: its own name; the completed properties, as they are or, when
      parameterised, as references to the resource's own variable except for booleans; the tags,
      the resource's own before the manifest's; and the references its dependencies name. */
  ghost predicate Handed(tk: Toolkit, tags: map<string, string>, rs: seq<Resource>, r: Resource, s: Spec, parameterised: bool, d: TemplateData) {
    && d.name == "r_" + r.logicalName
    && (forall key :: key in d.p <==> key in r.properties || (key == "versioning" && "versioning" in s.fields))
    && (forall key | key in d.p ::
          var value := if key in r.properties && !(key == "versioning" && r.properties[key].Null?) then r.properties[key] else Bool(true);
          d.p[key] == if parameterised && !value.Bool? then Expression("var.r_" + r.logicalName + "[" + HclText(tk, Text(key)) + "]")
                      else Input.Plain(value))
    && (forall key :: key in d.tags <==> key in tags || key in r.tags)
    && (forall key | key in d.tags :: d.tags[key] == if key in r.tags then r.tags[key] else tags[key])
    && (exists targets: seq<string> ::
          && |targets| == |r.dependsOn| && (forall k | 0 <= k < |targets| :: Refers(tk, rs, r.dependsOn[k], targets[k]))
          && d.dependencies == Join(Sort(AtMost, targets), ", "))
  }

  lemma {:induction false} ResolveRefers(tk: Toolkit, rs: seq<Resource>, name: string) returns (text: string)
    requires DistinctNames(rs) && RenderedGraph.Names(rs, name) && forall i | 0 <= i < |rs| :: tk.catalog(Trim(rs[i].kind)).Some?
    ensures Resolve(tk, rs, name) == [text] && Refers(tk, rs, name, text)
  {
    ResolveOnce(tk, rs, name);
    text := Resolve(tk, rs, name)[0];
    ResolvedRefers(tk, rs, name, text);
  }

  lemma {:induction false} ResolvedRefers(tk: Toolkit, rs: seq<Resource>, name: string, text: string)
    requires text in Resolve(tk, rs, name) && forall i | 0 <= i < |rs| :: tk.catalog(Trim(rs[i].kind)).Some?
    ensures Refers(tk, rs, name, text)
  {
    var front, last := rs[..|rs| - 1], rs[|rs| - 1];
    if text in Resolve(tk, front, name) {
      ResolvedRefers(tk, front, name, text);
      var j :| 0 <= j < |front| && front[j].logicalName == name && tk.catalog(Trim(front[j].kind)).Some?
        && text == tk.catalog(Trim(front[j].kind)).value.terraformType + ".r_" + name;
      assert rs[j] == front[j];
    } else {
      assert last.logicalName == name && text == Reference(tk, last);
    }
  }

  lemma {:induction false} AllRefer(tk: Toolkit, rs: seq<Resource>, names: seq<string>)
    requires DistinctNames(rs) && (forall i | 0 <= i < |rs| :: tk.catalog(Trim(rs[i].kind)).Some?)
    requires forall k | 0 <= k < |names| :: RenderedGraph.Names(rs, names[k])
    ensures var targets := ResolveAll(tk, rs, names);
      |targets| == |names| && forall k | 0 <= k < |names| :: Refers(tk, rs, names[k], targets[k])
  {
    if names != [] {
      AllRefer(tk, rs, names[..|names| - 1]);
      var text := ResolveRefers(tk, rs, names[|names| - 1]);
    }
  }

  lemma {:induction false} ContentHanded(tk: Toolkit, tags: map<string, string>, rs: seq<Resource>, r: Resource, parameterised: bool)
    returns (s: Spec, d: TemplateData)
    requires Content(tk, tags, rs, r, parameterised).Some? && DistinctNames(rs)
    requires forall i | 0 <= i < |rs| :: tk.catalog(Trim(rs[i].kind)).Some?
    requires forall k | 0 <= k < |r.dependsOn| :: RenderedGraph.Names(rs, r.dependsOn[k])
    ensures tk.catalog(Trim(r.kind)) == Some(s) && Content(tk, tags, rs, r, parameterised) == tk.execute(s.Path(), d)
    ensures Handed(tk, tags, rs, r, s, parameterised, d)
  {
    s := tk.catalog(Trim(r.kind)).value;
    d := TemplateData("r_" + r.logicalName, Inputs(tk, r, Completed(r, s), parameterised), tags + r.tags,
                      Join(Dependencies(tk, rs, r), ", "));
    AllRefer(tk, rs, r.dependsOn);
    var targets := ResolveAll(tk, rs, r.dependsOn);
    assert d.dependencies == Join(Sort(AtMost, targets), ", ");
  }

  /** A completed property map keeps what was given and adds at most the versioning default. */
  lemma {:induction false} CompletedExactly(r: Resource, s: Spec)
    ensures forall key :: key in Completed(r, s) <==> key in r.properties || (key == "versioning" && "versioning" in s.fields)
    ensures forall key | key in r.properties && !r.properties[key].Null? :: Completed(r, s)[key] == r.properties[key]
    ensures "versioning" in s.fields && Absent(r.properties, "versioning") ==> Completed(r, s)["versioning"] == Bool(true)
  {
  }

  /** The alias moves the name of a bucket and changes nothing else. */
  lemma {:induction false} AliasMoves(r: Resource)
    ensures Aliased(r) == r.(properties := Aliased(r).properties)
    ensures r.kind == "storage.aws.s3" && "name" in r.properties && !r.properties["name"].Null? ==>
      && Aliased(r).properties.Keys == r.properties.Keys - {"name"} + {"bucket"}
      && Aliased(r).properties["bucket"] == r.properties["name"]
      && forall key | key in r.properties && key != "name" && key != "bucket" :: Aliased(r).properties[key] == r.properties[key]
    ensures !(r.kind == "storage.aws.s3" && "name" in r.properties && !r.properties["name"].Null?) ==> Aliased(r) == r
  {
    assert "name"[0] != "bucket"[0];
  }

  /** In a full rendering the file of each resource is what its template prints for the data it
      is handed. */
  lemma {:induction false} RenderedHanded(tk: Toolkit, m: Manifest, parameterised: bool, i: nat)
    returns (s: Spec, d: TemplateData, text: string)
    requires RenderSpec(tk, m, parameterised).Files? && i < |m.resources|
    ensures var r := m.resources[i];
      && tk.catalog(Trim(r.kind)) == Some(s) && tk.execute(s.Path(), d) == Some(text)
      && File("resource_" + r.logicalName + ".tf", text) in RenderSpec(tk, m, parameterised).files
      && Handed(tk, m.tags, Sorted(m.resources), r, s, parameterised, d)
  {
    var rs := Sorted(m.resources);
    var k := SortedAt(m.resources, i);
    WellFormedNames(m);
    SortedNames(m.resources);
    SupportedSorted(tk, m);
    forall e | 0 <= e < |m.resources[i].dependsOn| ensures RenderedGraph.Names(rs, m.resources[i].dependsOn[e]) {
      DependenciesResolve(m, i, e);
      NamesSorted(m.resources, m.resources[i].dependsOn[e]);
    }
    PrintedFiles(Printer(tk, m.tags, rs, parameterised), rs, |rs|);
    s, d := ContentHanded(tk, m.tags, rs, rs[k], parameterised);
    text := Content(tk, m.tags, rs, rs[k], parameterised).value;
    var files := PrintAll(Printer(tk, m.tags, rs, parameterised), rs, |rs|).value;
    assert files[k] == File("resource_" + m.resources[i].logicalName + ".tf", text);
    assert files[k] in [ProvidersFile(tk, m.region)] + files;
  }

  lemma {:induction false} SortedAt(rs: seq<Resource>, i: nat) returns (k: nat)
    requires i < |rs|
    ensures k < |Sorted(rs)| && Sorted(rs)[k] == rs[i]
  {
    SortPermutes(ByName, rs);
    assert rs[i] in Sorted(rs);
    k :| 0 <= k < |Sorted(rs)| && Sorted(rs)[k] == rs[i];
  }

  lemma {:induction false} NamesSorted(rs: seq<Resource>, name: string)
    requires RenderedGraph.Names(rs, name)
    ensures RenderedGraph.Names(Sorted(rs), name)
  {
    var j :| 0 <= j < |rs| && rs[j].logicalName == name;
    var k := SortedAt(rs, j);
  }

  lemma {:induction false} SupportedSorted(tk: Toolkit, m: Manifest)
    requires UnsupportedOf(tk, m.provider, m.resources) == []
    ensures forall i | 0 <= i < |Sorted(m.resources)| :: tk.catalog(Trim(Sorted(m.resources)[i].kind)).Some?
  {
    AllSupported(tk, m.provider, m.resources);
    forall i | 0 <= i < |Sorted(m.resources)| ensures tk.catalog(Trim(Sorted(m.resources)[i].kind)).Some? {
      SortedMember(m.resources, i);
      assert Supported(tk, m.provider, Sorted(m.resources)[i]);
    }
  }

  /** The body of a packed resource is what its template prints when it is handed references to
      no variable but the resource's own. */
  lemma {:induction false} PackedHanded(tk: Toolkit, m: Manifest, i: nat) returns (s: Spec, d: TemplateData, text: string)
    requires Reviewed(tk) && BundleSpec(tk, m).Files? && i < |Packed(m)|
    ensures var r := Packed(m)[i];
      && tk.catalog(Trim(r.kind)) == Some(s) && tk.execute(s.Path(), d) == Some(text) && PackedPrinter(tk, m)(r) == Some(text)
      && Handed(tk, m.tags, Packed(m), r, s, true, d)
  {
    var all := AliasedAll(m).resources;
    BundleRenders(tk, m);
    SortedMember(all, i);
    var j :| 0 <= j < |all| && all[j] == Packed(m)[i];
    BundleFiles(tk, m);
    PackedPrints(tk, m, i);
    WellFormedNames(AliasedAll(m));
    SortedNames(all);
    SupportedSorted(tk, AliasedAll(m));
    forall e | 0 <= e < |all[j].dependsOn| ensures RenderedGraph.Names(Packed(m), all[j].dependsOn[e]) {
      DependenciesResolve(AliasedAll(m), j, e);
      NamesSorted(all, all[j].dependsOn[e]);
    }
    s, d := ContentHanded(tk, m.tags, Packed(m), Packed(m)[i], true);
    text := Content(tk, m.tags, Packed(m), Packed(m)[i], true).value;
  }

  lemma {:induction false} PackedPrints(tk: Toolkit, m: Manifest, i: nat)
    requires Reviewed(tk) && BundleSpec(tk, m).Files? && i < |Packed(m)|
    ensures Content(tk, m.tags, Packed(m), Packed(m)[i], true).Some?
  {
    BundleFiles(tk, m);
    PrintedFiles(PackedPrinter(tk, m), Packed(m), |Packed(m)|);
  }

  /** And that body lies in the file named after the directory of the template. */
  lemma {:induction false} BodyPlaced(tk: Toolkit, m: Manifest, i: nat)
    returns (s: Spec, d: TemplateData, before: string, text: string, after: string)
    requires Reviewed(tk) && BundleSpec(tk, m).Files? && i < |Packed(m)|
    ensures tk.catalog(Trim(Packed(m)[i].kind)) == Some(s) && tk.execute(s.Path(), d) == Some(text)
    ensures Handed(tk, m.tags, Packed(m), Packed(m)[i], s, true, d)
    ensures '/' !in s.directory ==>
      File("resources/" + s.directory + ".tf", before + text + "\n" + after) in BundleSpec(tk, m).files
  {
    s, d, text := PackedHanded(tk, m, i);
    BundlePlaces(tk, m, i);
    var parts, domain := PackedParts(tk, m), DomainOf(tk, Packed(m)[i]);
    before, after := DomainText(parts[..i], domain), DomainText(parts[i + 1..], domain);
    if '/' !in s.directory {
      SplitGlued(s.directory, '/', s.file);
    }
  }
}
