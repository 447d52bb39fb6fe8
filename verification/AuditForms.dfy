/** What the writers of the audit chain hash together with the predecessor's hash. Four
    forms are in use. */
module AuditForms {
  import opened Outcomes
  import Texts

  type Hash = string

  /** An audit row, apart from its place in the chain. */
  datatype Record = Record(
    workspace: string, event: string, actor: string, actorType: string, resourceType: string, resourceId: string,
    payload: string, correlation: string)

  /** The workspace service hashes every field; the orchestrator and the manifest, artifact
      and state backend services leave out actor and resource type; the policy and approval
      services separate every field by a zero byte; the cloud account service hashes three
      fields with nothing between them. */
  datatype Form = Long | Short | Zero | Bare

  datatype Content = Content(form: Form, row: Record)

  function Joined(mark: char, parts: seq<string>): string {
    if parts == [] then ""
    else if |parts| == 1 then parts[0]
    else Texts.Glued(parts[0], mark, Joined(mark, parts[1..]))
  }

  function Before(previous: Option<Hash>): string {
    if previous.Some? then previous.value else ""
  }

  /** The text that is hashed; a missing predecessor counts as empty. */
  function Preimage(previous: Option<Hash>, c: Content): string {
    var r := c.row;
    match c.form
    case Long =>
      Joined('|', [Before(previous), r.workspace, r.event, r.actor, r.actorType, r.resourceType, r.resourceId, r.payload, r.correlation])
    case Short => Joined('|', [Before(previous), r.workspace, r.event, r.resourceId, r.payload, r.correlation])
    case Zero =>
      Joined('\0', [Before(previous), r.workspace, r.actor, r.actorType, r.resourceType, r.resourceId, r.event, r.payload, r.correlation])
    case Bare => Before(previous) + r.event + r.payload + r.correlation
  }

  /** The fields the form hashes, the others blanked out. */
  function Hashed(c: Content): Record {
    match c.form
    case Long => c.row
    case Short => c.row.(actor := "", actorType := "", resourceType := "")
    case Zero => c.row
    case Bare => Record("", c.row.event, "", "", "", "", c.row.payload, c.row.correlation)
  }

  predicate IsHex(c: char) {
    '0' <= c <= '9' || 'a' <= c <= 'f'
  }

  /** What a SHA-256 sum looks like in lower-case hexadecimal. */
  predicate HashText(h: Hash) {
    |h| == 64 && forall i | 0 <= i < |h| :: IsHex(h[i])
  }

  /** No spelling of a UUID the database accepts has other characters. */
  predicate UuidText(s: string) {
    s != "" && forall i | 0 <= i < |s| ::
      IsHex(s[i]) || 'A' <= s[i] <= 'F' || s[i] == '-' || (s[i] == '{' && i == 0) || (s[i] == '}' && i == |s| - 1)
  }

  /** Reading JSON text as far as its string literals. */
  datatype Mode = Outside | Inside | Escaped | Broken

  function Reading(m: Mode, c: char): Mode {
    if c < ' ' then Broken
    else
      match m
      case Outside => if c == '"' then Inside else if c == '|' || c == '\\' then Broken else Outside
      case Inside => if c == '"' then Outside else if c == '\\' then Escaped else Inside
      case Escaped => Inside
      case Broken => Broken
  }

  function Scan(m: Mode, s: string): Mode
    decreases s
  {
    if s == "" then m else Scan(Reading(m, s[0]), s[1..])
  }

  /** What the text of every JSON object is like: see RenderedObject. */
  predicate ObjectText(s: string) {
    s != "" && s[0] == '{' && s[|s| - 1] == '}' && Scan(Outside, s) == Outside
  }

  predicate WorkspaceEvent(e: string) {
    e == "workspace_created" || e == "workspace_updated" || e == "workspace_deleted" || MemberEvent(e)
  }

  predicate MemberEvent(e: string) {
    || e == "member_added" || e == "member_role_updated" || e == "member_removed"
    || e == "invitation_created" || e == "invitation_revoked" || e == "invitation_accepted"
  }

  predicate OrchestratorEvent(e: string) {
    || e == "prompt_received" || e == "run_created" || e == "state_transition" || e == "confirmation"
    || e == "tool_call" || e == "manifest_created" || e == "error"
  }

  predicate BackendEvent(e: string) {
    || e == "artifact_generated" || e == "state_backend_provisioned" || e == "state_backend_verified"
    || e == "state_backend_failed"
  }

  predicate RuleEvent(e: string) {
    e == "state_transition" || e == "approval_requirements_evaluated"
  }

  predicate AccountEvent(e: string) {
    e == "cloud_account_created" || e == "cloud_account_status_changed" || e == "cloud_account_deleted"
  }

  predicate EventOf(form: Form, e: string) {
    match form
    case Long => WorkspaceEvent(e)
    case Short => OrchestratorEvent(e) || BackendEvent(e)
    case Zero => RuleEvent(e)
    case Bare => AccountEvent(e)
  }

  /** Text columns hold no zero byte. */
  predicate Storable(r: Record) {
    && '\0' !in r.workspace && '\0' !in r.event && '\0' !in r.actor && '\0' !in r.actorType
    && '\0' !in r.resourceType && '\0' !in r.resourceId && '\0' !in r.correlation
  }

  /** What the writers can commit. Actors are free text (an invitation's is the address it
      was sent to), and so are resource identifiers where the database does not type them. */
  predicate Written(c: Content) {
    && EventOf(c.form, c.row.event) && Storable(c.row)
    && UuidText(c.row.workspace) && UuidText(c.row.correlation) && ObjectText(c.row.payload)
    && (c.form.Long? ==>
          && (c.row.actorType == "user" || c.row.actorType == "system")
          && (c.row.resourceType == "workspace" || c.row.resourceType == "member" || c.row.resourceType == "invitation")
          && UuidText(c.row.resourceId))
  }

  predicate IsPrevious(previous: Option<Hash>) {
    previous.Some? ==> HashText(previous.value)
  }

  lemma {:induction false} JoinedRight(mark: char, parts: seq<string>)
    requires |parts| >= 2
    ensures Joined(mark, parts) == Texts.Glued(Joined(mark, parts[..|parts| - 1]), mark, parts[|parts| - 1])
  {
    var last := |parts| - 1;
    if |parts| > 2 {
      JoinedRight(mark, parts[1..]);
      assert parts[1..][..last - 1] == parts[..last][1..];
    }
  }

  /** The first `n` parts are read back when the mark is in none of them. */
  lemma {:induction false} CutParts(mark: char, a: seq<string>, b: seq<string>, n: nat)
    requires n < |a| && n < |b| && Joined(mark, a) == Joined(mark, b)
    requires forall i | 0 <= i < n :: mark !in a[i] && mark !in b[i]
    ensures a[..n] == b[..n] && Joined(mark, a[n..]) == Joined(mark, b[n..])
  {
    if n > 0 {
      Texts.CutHead(mark, a[0], Joined(mark, a[1..]), b[0], Joined(mark, b[1..]));
      CutParts(mark, a[1..], b[1..], n - 1);
      assert a[..n] == [a[0]] + a[1..][..n - 1] && b[..n] == [b[0]] + b[1..][..n - 1];
      assert a[1..][n - 1..] == a[n..] && b[1..][n - 1..] == b[n..];
    }
  }

  lemma ScanBroken(s: string)
    ensures Scan(Broken, s) == Broken
  {
  }

  lemma {:induction false} ScanSplit(m: Mode, a: string, b: string)
    ensures Scan(m, a + b) == Scan(Scan(m, a), b)
    decreases a
  {
    if a == "" {
      assert a + b == b;
    } else {
      assert (a + b)[1..] == a[1..] + b;
      ScanSplit(Reading(m, a[0]), a[1..], b);
    }
  }

  /** Read from outside and from inside a string literal, a text ends on opposite sides. */
  lemma {:induction false} Opposite(s: string)
    ensures Scan(Outside, s) == Broken || Scan(Inside, s) == Broken
            || (Scan(Outside, s) == Outside && Scan(Inside, s) == Inside)
            || (Scan(Outside, s) == Inside && Scan(Inside, s) == Outside)
  {
    if s != "" {
      Opposite(s[1..]);
      ScanBroken(s[1..]);
    }
  }

  /** A bar inside an object's text stands in a string literal, so what follows it is not an
      object's text. */
  lemma {:induction false} NoObjectInside(x: string, q: string)
    requires Scan(Outside, Texts.Glued(x, '|', q)) == Outside
    ensures Scan(Outside, q) != Outside
  {
    ScanSplit(Outside, x + ['|'], q);
    ScanSplit(Outside, x, ['|']);
    var m := Scan(Outside, x);
    assert ['|'][1..] == "";
    assert Scan(m, ['|']) == Reading(m, '|');
    ScanBroken(q);
    assert Reading(m, '|') == Inside;
    Opposite(q);
  }

  /** Where the longer of two last parts continues the shorter one. */
  lemma {:induction false} LongerPart(a: string, p: string, b: string, q: string)
    requires Texts.Glued(a, '|', p) == Texts.Glued(b, '|', q) && |q| < |p|
    ensures p == Texts.Glued(p[..|p| - |q| - 1], '|', q)
  {
    Texts.GluedParts(a, '|', p);
    Texts.GluedParts(b, '|', q);
    var g := Texts.Glued(a, '|', p);
    assert g[|a| + 1..][|p| - |q|..] == g[|b| + 1..];
    assert g[|a| + 1..][|p| - |q| - 1] == g[|b|];
  }

  /** An object's text behind the last of any number of bars is read back. */
  lemma {:induction false} CutPayload(a: string, p: string, b: string, q: string)
    requires ObjectText(p) && ObjectText(q) && Texts.Glued(a, '|', p) == Texts.Glued(b, '|', q)
    ensures a == b && p == q
  {
    Texts.GluedParts(a, '|', p);
    Texts.GluedParts(b, '|', q);
    if |q| < |p| {
      LongerPart(a, p, b, q);
      NoObjectInside(p[..|p| - |q| - 1], q);
    } else if |p| < |q| {
      LongerPart(b, q, a, p);
      NoObjectInside(q[..|q| - |p| - 1], p);
    }
  }

  lemma {:induction false} BraceEndsUuid(p: string, x: string, q: string, y: string)
    requires UuidText(x) && q != "" && q[|q| - 1] == '}' && |p| < |q| && p + x == q + y
    ensures y == ""
  {
    assert (p + x)[|q| - 1] == x[|q| - 1 - |p|];
    assert (q + y)[|q| - 1] == '}';
  }

  /** Even without a separator an object's text ends before the UUID that follows it. */
  lemma {:induction false} CutUuid(p: string, x: string, q: string, y: string)
    requires ObjectText(p) && ObjectText(q) && UuidText(x) && UuidText(y) && p + x == q + y
    ensures p == q && x == y
  {
    if |p| < |q| {
      BraceEndsUuid(p, x, q, y);
    } else if |q| < |p| {
      BraceEndsUuid(q, y, p, x);
    } else {
      assert (p + x)[..|p|] == p && (q + y)[..|q|] == q && (p + x)[|p|..] == x && (q + y)[|q|..] == y;
    }
  }

  /** The first character of the text that is no hexadecimal digit, and where it is. */
  function LeadMark(form: Form): char {
    match form
    case Long => '|'
    case Short => '|'
    case Zero => '\0'
    case Bare => 'l'
  }

  function LeadIndex(previous: Option<Hash>, form: Form): nat {
    |Before(previous)| + if form.Bare? then 1 else 0
  }

  lemma JoinedHead(mark: char, parts: seq<string>)
    requires |parts| >= 2
    ensures Joined(mark, parts) == parts[0] + ([mark] + Joined(mark, parts[1..]))
  {
  }

  /** The fields of a form with bars up to the resource, then payload and correlation. */
  function Naming(c: Content): seq<string> {
    if c.form.Long? then [c.row.actor, c.row.actorType, c.row.resourceType, c.row.resourceId] else [c.row.resourceId]
  }

  lemma {:induction false} BarParts(previous: Option<Hash>, c: Content) returns (parts: seq<string>)
    requires LeadMark(c.form) == '|'
    ensures Preimage(previous, c) == Joined('|', parts)
    ensures |parts| > 5 && parts[..3] == [Before(previous), c.row.workspace, c.row.event]
    ensures parts[3..] == Naming(c) + [c.row.payload] + [c.row.correlation]
  {
    var r := c.row;
    parts := [Before(previous), r.workspace, r.event] + (Naming(c) + [r.payload] + [r.correlation]);
    if c.form.Long? {
      assert parts == [Before(previous), r.workspace, r.event, r.actor, r.actorType, r.resourceType, r.resourceId, r.payload, r.correlation];
    } else {
      assert parts == [Before(previous), r.workspace, r.event, r.resourceId, r.payload, r.correlation];
    }
  }

  lemma EventLead(event: string, rest: string)
    requires AccountEvent(event)
    ensures (event + rest)[0] == 'c' && (event + rest)[1] == 'l'
  {
  }

  lemma {:induction false} BehindBar(previous: Option<Hash>, c: Content) returns (rest: string)
    requires LeadMark(c.form) == '|'
    ensures Preimage(previous, c) == Before(previous) + rest && rest != "" && rest[0] == '|'
  {
    var parts := BarParts(previous, c);
    assert parts[0] == parts[..3][0];
    JoinedHead('|', parts);
    rest := ['|'] + Joined('|', parts[1..]);
  }

  lemma {:induction false} BehindZero(previous: Option<Hash>, c: Content) returns (rest: string)
    requires c.form.Zero?
    ensures Preimage(previous, c) == Before(previous) + rest && rest != "" && rest[0] == '\0'
  {
    var r := c.row;
    var parts := [Before(previous), r.workspace, r.actor, r.actorType, r.resourceType, r.resourceId, r.event, r.payload, r.correlation];
    JoinedHead('\0', parts);
    rest := ['\0'] + Joined('\0', parts[1..]);
  }

  /** What follows the predecessor in the text. */
  lemma {:induction false} Behind(previous: Option<Hash>, c: Content) returns (rest: string)
    requires Written(c)
    ensures Preimage(previous, c) == Before(previous) + rest
    ensures if c.form.Bare? then |rest| > 1 && rest[0] == 'c' && rest[1] == 'l' else rest != "" && rest[0] == LeadMark(c.form)
  {
    match c.form
    case Zero => rest := BehindZero(previous, c);
    case Bare =>
      EventLead(c.row.event, c.row.payload + c.row.correlation);
      rest := c.row.event + (c.row.payload + c.row.correlation);
    case _ => rest := BehindBar(previous, c);
  }

  lemma {:induction false} LeadBehind(h: string, rest: string, n: nat)
    requires n < |rest| && (forall i | 0 <= i < |h| :: IsHex(h[i])) && (forall i | 0 <= i < n :: IsHex(rest[i]))
    ensures (h + rest)[|h| + n] == rest[n] && (h + rest)[..|h|] == h
    ensures forall i | 0 <= i < |h| + n :: IsHex((h + rest)[i])
  {
    forall i | 0 <= i < |h| + n ensures IsHex((h + rest)[i]) {
      assert (h + rest)[i] == if i < |h| then h[i] else rest[i - |h|];
    }
  }

  lemma {:induction false} Lead(previous: Option<Hash>, c: Content)
    requires IsPrevious(previous) && Written(c)
    ensures var g, k := Preimage(previous, c), LeadIndex(previous, c.form);
      && k < |g| && g[k] == LeadMark(c.form) && !IsHex(g[k]) && (forall i | 0 <= i < k :: IsHex(g[i]))
      && g[..|Before(previous)|] == Before(previous)
  {
    var rest := Behind(previous, c);
    LeadBehind(Before(previous), rest, if c.form.Bare? then 1 else 0);
  }

  /** So the text tells the predecessor, and the form up to the two that use the bar. */
  lemma {:induction false} SameLead(p: Option<Hash>, c: Content, q: Option<Hash>, d: Content)
    requires IsPrevious(p) && IsPrevious(q) && Written(c) && Written(d) && Preimage(p, c) == Preimage(q, d)
    ensures p == q && LeadMark(c.form) == LeadMark(d.form)
  {
    Lead(p, c);
    Lead(q, d);
    var g := Preimage(p, c);
    var k, l := LeadIndex(p, c.form), LeadIndex(q, d.form);
    assert !(k < l) && !(l < k);
    assert Before(p) == Before(q);
  }

  predicate Lettered(s: string) {
    forall i | 0 <= i < |s| :: s[i] == '_' || 'a' <= s[i] <= 'z'
  }

  lemma WorkspaceEventsLettered(e: string)
    requires WorkspaceEvent(e)
    ensures Lettered(e)
  {
    if !MemberEvent(e) {
      assert e == "workspace_created" || e == "workspace_updated" || e == "workspace_deleted";
    } else {
      MemberEventsLettered(e);
    }
  }

  lemma MemberEventsLettered(e: string)
    requires MemberEvent(e)
    ensures Lettered(e)
  {
  }

  lemma OrchestratorEventsLettered(e: string)
    requires OrchestratorEvent(e)
    ensures Lettered(e)
  {
  }

  lemma BackendEventsLettered(e: string)
    requires BackendEvent(e)
    ensures Lettered(e)
  {
  }

  lemma AccountEventsLettered(e: string)
    requires AccountEvent(e)
    ensures Lettered(e)
  {
  }

  lemma {:induction false} BarEventsLettered(form: Form, e: string)
    requires EventOf(form, e) && LeadMark(form) == '|'
    ensures Lettered(e)
  {
    if form.Long? {
      WorkspaceEventsLettered(e);
    } else if OrchestratorEvent(e) {
      OrchestratorEventsLettered(e);
    } else {
      BackendEventsLettered(e);
    }
  }

  lemma NoMarks(e: string)
    requires Lettered(e)
    ensures '|' !in e && '{' !in e
  {
  }

  /** The last part is read back when neither holds a bar. */
  lemma {:induction false} CutLast(a: seq<string>, b: seq<string>)
    requires |a| >= 2 && |b| >= 2 && Joined('|', a) == Joined('|', b)
    requires '|' !in a[|a| - 1] && '|' !in b[|b| - 1]
    ensures a[|a| - 1] == b[|b| - 1] && Joined('|', a[..|a| - 1]) == Joined('|', b[..|b| - 1])
  {
    JoinedRight('|', a);
    JoinedRight('|', b);
    Texts.CutTail('|', Joined('|', a[..|a| - 1]), a[|a| - 1], Joined('|', b[..|b| - 1]), b[|b| - 1]);
  }

  lemma {:induction false} CutNaming(a: seq<string>, p: string, x: string, b: seq<string>, q: string, y: string)
    requires a != [] && b != [] && Joined('|', a + [p] + [x]) == Joined('|', b + [q] + [y])
    requires ObjectText(p) && ObjectText(q) && UuidText(x) && UuidText(y)
    ensures Joined('|', a) == Joined('|', b) && p == q && x == y
  {
    CutLast(a + [p] + [x], b + [q] + [y]);
    assert (a + [p] + [x])[..|a| + 1] == a + [p] && (b + [q] + [y])[..|b| + 1] == b + [q];
    JoinedRight('|', a + [p]);
    JoinedRight('|', b + [q]);
    assert (a + [p])[..|a|] == a && (b + [q])[..|b|] == b;
    CutPayload(Joined('|', a), p, Joined('|', b), q);
  }

  /** Of four parts joined by bars the last three hold none. */
  lemma {:induction false} FourParts(a: seq<string>, b: seq<string>)
    requires |a| == 4 && |b| == 4 && Joined('|', a) == Joined('|', b)
    requires forall i | 1 <= i < 4 :: '|' !in a[i] && '|' !in b[i]
    ensures a == b
  {
    CutLast(a, b);
    ThreeParts(a[..3], b[..3]);
    assert a == a[..3] + [a[3]] && b == b[..3] + [b[3]];
  }

  lemma {:induction false} ThreeParts(a: seq<string>, b: seq<string>)
    requires |a| == 3 && |b| == 3 && Joined('|', a) == Joined('|', b)
    requires forall i | 1 <= i < 3 :: '|' !in a[i] && '|' !in b[i]
    ensures a == b
  {
    CutLast(a, b);
    CutLast(a[..2], b[..2]);
    assert a[..2][..1] == [a[0]] && b[..2][..1] == [b[0]];
    assert a == [a[0], a[1], a[2]] && b == [b[0], b[1], b[2]];
  }

  /** The actor may hold bars: the three fields behind it do not. */
  lemma {:induction false} CutActor(c: Content, d: Content)
    requires Written(c) && Written(d) && c.form.Long? && d.form.Long? && Joined('|', Naming(c)) == Joined('|', Naming(d))
    ensures Naming(c) == Naming(d)
  {
    FourParts(Naming(c), Naming(d));
  }

  lemma {:induction false} BarForms(p: Option<Hash>, c: Content, d: Content)
    requires IsPrevious(p) && Written(c) && Written(d) && Preimage(p, c) == Preimage(p, d)
    requires LeadMark(c.form) == '|' && LeadMark(d.form) == '|'
    ensures c.form == d.form && Hashed(c) == Hashed(d)
  {
    var a := BarParts(p, c);
    var b := BarParts(p, d);
    BarEventsLettered(c.form, c.row.event);
    BarEventsLettered(d.form, d.row.event);
    NoMarks(c.row.event);
    NoMarks(d.row.event);
    forall i | 0 <= i < 3 ensures '|' !in a[i] && '|' !in b[i] {
      assert a[i] == a[..3][i] && b[i] == b[..3][i];
    }
    CutParts('|', a, b, 3);
    assert a[..3][1] == b[..3][1] && a[..3][2] == b[..3][2];
    CutNaming(Naming(c), c.row.payload, c.row.correlation, Naming(d), d.row.payload, d.row.correlation);
    if c.form.Long? {
      CutActor(c, d);
      assert Naming(c)[0] == Naming(d)[0] && Naming(c)[1] == Naming(d)[1] && Naming(c)[2] == Naming(d)[2] && Naming(c)[3] == Naming(d)[3];
    }
  }

  lemma ScanHasNoZero(m: Mode, s: string)
    requires Scan(m, s) != Broken
    ensures '\0' !in s
    decreases s
  {
    if s != "" {
      ScanHasNoZero(Reading(m, s[0]), s[1..]);
      if Reading(m, s[0]) == Broken {
        ScanBroken(s[1..]);
      }
    }
  }

  lemma {:induction false} ZeroForms(p: Option<Hash>, c: Content, d: Content)
    requires IsPrevious(p) && Written(c) && Written(d) && Preimage(p, c) == Preimage(p, d) && c.form.Zero? && d.form.Zero?
    ensures Hashed(c) == Hashed(d)
  {
    var r, s, h := c.row, d.row, Before(p);
    ScanHasNoZero(Outside, r.payload);
    ScanHasNoZero(Outside, s.payload);
    var a := [h, r.workspace, r.actor, r.actorType, r.resourceType, r.resourceId, r.event, r.payload, r.correlation];
    var b := [h, s.workspace, s.actor, s.actorType, s.resourceType, s.resourceId, s.event, s.payload, s.correlation];
    CutParts('\0', a, b, 8);
    assert a[8..] == [r.correlation] && b[8..] == [s.correlation];
    forall i | 0 <= i < 8 ensures a[i] == b[i] {
      assert a[..8][i] == b[..8][i];
    }
    assert a[1] == b[1] && a[2] == b[2] && a[3] == b[3] && a[4] == b[4] && a[5] == b[5] && a[6] == b[6] && a[7] == b[7];
  }

  lemma BareTail(h: string, e: string, p: string, x: string)
    ensures (h + e + p + x)[|h|..] == e + (p + x)
  {
  }

  lemma {:induction false} BareForms(p: Option<Hash>, c: Content, d: Content)
    requires Written(c) && Written(d) && Preimage(p, c) == Preimage(p, d) && c.form.Bare? && d.form.Bare?
    ensures Hashed(c) == Hashed(d)
  {
    var r, s := c.row, d.row;
    BareTail(Before(p), r.event, r.payload, r.correlation);
    BareTail(Before(p), s.event, s.payload, s.correlation);
    AccountEventsLettered(r.event);
    AccountEventsLettered(s.event);
    NoMarks(r.event);
    NoMarks(s.event);
    CutBrace(r.event, r.payload + r.correlation, s.event, s.payload + s.correlation);
    CutUuid(r.payload, r.correlation, s.payload, s.correlation);
  }

  lemma {:induction false} CutBrace(a: string, x: string, b: string, y: string)
    requires a + x == b + y && '{' !in a && '{' !in b && x != "" && y != "" && x[0] == '{' && y[0] == '{'
    ensures a == b && x == y
  {
    var g := a + x;
    assert g[|a|] == '{' && g[|b|] == '{';
    assert forall i | 0 <= i < |a| :: g[i] == a[i];
    assert forall i | 0 <= i < |b| :: g[i] == (b + y)[i] == b[i];
    assert |a| == |b|;
    assert g[..|a|] == a && g[|a|..] == x && (b + y)[..|b|] == b && (b + y)[|b|..] == y;
  }

  /** The text of what the writers commit is shared exactly by contents of one form that agree
      in the fields the form hashes, behind one predecessor. */
  lemma {:induction false} PreimagesAlikeExactly(p: Option<Hash>, c: Content, q: Option<Hash>, d: Content)
    requires IsPrevious(p) && IsPrevious(q) && Written(c) && Written(d)
    ensures Preimage(p, c) == Preimage(q, d) <==> p == q && c.form == d.form && Hashed(c) == Hashed(d)
  {
    if Preimage(p, c) == Preimage(q, d) {
      SameLead(p, c, q, d);
      match c.form
      case Zero => ZeroForms(p, c, d);
      case Bare => BareForms(p, c, d);
      case _ => BarForms(p, c, d);
    } else if c.form == d.form && Hashed(c) == Hashed(d) {
      SameHashed(p, c, d);
    }
  }

  lemma SameHashed(p: Option<Hash>, c: Content, d: Content)
    requires c.form == d.form && Hashed(c) == Hashed(d)
    ensures Preimage(p, c) == Preimage(p, d)
  {
  }

  /** A payload before it is rendered; numbers, booleans and null are literals, and members
      come in the order they are written. */
  datatype Value =
    | Literal(text: string)
    | Text(text: string)
    | List(items: seq<Value>)
    | Object(members: seq<Member>)

  datatype Member = Member(name: string, value: Value)

  function Quoted(escape: char -> string, s: string): string {
    "\"" + EscapedText(escape, s) + "\""
  }

  function EscapedText(escape: char -> string, s: string): string {
    if s == "" then "" else escape(s[0]) + EscapedText(escape, s[1..])
  }

  function Render(escape: char -> string, v: Value): string {
    match v
    case Literal(text) => text
    case Text(text) => Quoted(escape, text)
    case List(items) => "[" + RenderItems(escape, items) + "]"
    case Object(members) => "{" + RenderMembers(escape, members) + "}"
  }

  function RenderItems(escape: char -> string, items: seq<Value>): string {
    if items == [] then ""
    else if |items| == 1 then Render(escape, items[0])
    else Render(escape, items[0]) + "," + RenderItems(escape, items[1..])
  }

  function RenderMember(escape: char -> string, m: Member): string {
    Quoted(escape, m.name) + ":" + Render(escape, m.value)
  }

  function RenderMembers(escape: char -> string, members: seq<Member>): string {
    if members == [] then ""
    else if |members| == 1 then RenderMember(escape, members[0])
    else RenderMember(escape, members[0]) + "," + RenderMembers(escape, members[1..])
  }

  predicate IsLiteralChar(c: char) {
    '0' <= c <= '9' || 'a' <= c <= 'z' || c == 'E' || c == '+' || c == '-' || c == '.'
  }

  predicate Literals(v: Value) {
    match v
    case Literal(text) => forall i | 0 <= i < |text| :: IsLiteralChar(text[i])
    case Text(_) => true
    case List(items) => forall i | 0 <= i < |items| :: Literals(items[i])
    case Object(members) => forall i | 0 <= i < |members| :: Literals(members[i].value)
  }

  /** An escaped character keeps a string literal open and in order. */
  ghost predicate Escaping(escape: char -> string) {
    forall c :: Scan(Inside, escape(c)) == Inside
  }

  function HexDigit(n: nat): char
    requires n < 16
  {
    if n < 10 then '0' + n as char else 'a' + (n - 10) as char
  }

  /** The escapes of encoding/json and JSON.stringify; the former also escapes the
      characters that mean something in HTML. */
  function JsonEscape(html: bool, c: char): string {
    if c == '"' then "\\\""
    else if c == '\\' then "\\\\"
    else if c < ' ' || (html && (c == '<' || c == '>' || c == '&'))
    then "\\u00" + [HexDigit(c as nat / 16), HexDigit(c as nat % 16)]
    else [c]
  }

  lemma {:induction false} ScanOne(m: Mode, c: char)
    ensures Scan(m, [c]) == Reading(m, c)
  {
    assert [c][1..] == "";
  }

  lemma {:induction false} JsonEscapes(html: bool)
    ensures Escaping((c: char) => JsonEscape(html, c))
  {
    forall c: char ensures Scan(Inside, JsonEscape(html, c)) == Inside {
      ScanEscape(html, c);
    }
  }

  lemma {:induction false} ScanPair(m: Mode, c: char, rest: string)
    ensures Scan(m, [c] + rest) == Scan(Reading(m, c), rest)
  {
    assert ([c] + rest)[1..] == rest;
  }

  lemma {:induction false} ScanEscape(html: bool, c: char)
    ensures Scan(Inside, JsonEscape(html, c)) == Inside
  {
    if c == '"' || c == '\\' {
      ScanPair(Inside, '\\', [c]);
      ScanOne(Escaped, c);
      assert JsonEscape(html, c) == ['\\'] + [c];
    } else if c < ' ' || (html && (c == '<' || c == '>' || c == '&')) {
      var x, y := HexDigit(c as nat / 16), HexDigit(c as nat % 16);
      assert JsonEscape(html, c) == ['\\'] + (['u'] + (['0'] + (['0'] + ([x] + [y]))));
      ScanPair(Inside, '\\', ['u'] + (['0'] + (['0'] + ([x] + [y]))));
      ScanPair(Escaped, 'u', ['0'] + (['0'] + ([x] + [y])));
      ScanPair(Inside, '0', ['0'] + ([x] + [y]));
      ScanPair(Inside, '0', [x] + [y]);
      ScanPair(Inside, x, [y]);
      ScanOne(Inside, y);
    } else {
      ScanOne(Inside, c);
    }
  }

  lemma {:induction false} ScanEscaped(escape: char -> string, s: string)
    requires Escaping(escape)
    ensures Scan(Inside, EscapedText(escape, s)) == Inside
  {
    if s != "" {
      ScanSplit(Inside, escape(s[0]), EscapedText(escape, s[1..]));
      ScanEscaped(escape, s[1..]);
    }
  }

  lemma {:induction false} ScanQuoted(escape: char -> string, s: string)
    requires Escaping(escape)
    ensures Scan(Outside, Quoted(escape, s)) == Outside
  {
    var body := EscapedText(escape, s);
    ScanEscaped(escape, s);
    assert Quoted(escape, s) == ['"'] + (body + ['"']);
    ScanPair(Outside, '"', body + ['"']);
    ScanSplit(Inside, body, ['"']);
    ScanOne(Inside, '"');
  }

  lemma ScanLiteral(s: string)
    requires forall i | 0 <= i < |s| :: IsLiteralChar(s[i])
    ensures Scan(Outside, s) == Outside
  {
  }

  /** Texts that are read from outside to outside can be put side by side. */
  lemma {:induction false} ScanBeside(a: string, c: char, b: string)
    requires Scan(Outside, a) == Outside && Scan(Outside, b) == Outside && Reading(Outside, c) == Outside
    ensures Scan(Outside, a + [c] + b) == Outside
  {
    ScanSplit(Outside, a + [c], b);
    ScanSplit(Outside, a, [c]);
    ScanOne(Outside, c);
  }

  lemma {:induction false} ScanWrapped(c: char, a: string, d: char)
    requires Scan(Outside, a) == Outside && Reading(Outside, c) == Outside && Reading(Outside, d) == Outside
    ensures Scan(Outside, [c] + a + [d]) == Outside
  {
    ScanSplit(Outside, [c] + a, [d]);
    ScanPair(Outside, c, a);
    ScanOne(Outside, d);
  }

  lemma {:induction false} ScanRendered(escape: char -> string, v: Value)
    requires Escaping(escape) && Literals(v)
    ensures Scan(Outside, Render(escape, v)) == Outside
  {
    match v
    case Literal(text) => ScanLiteral(text);
    case Text(text) => ScanQuoted(escape, text);
    case List(items) =>
      ScanItems(escape, items);
      ScanWrapped('[', RenderItems(escape, items), ']');
    case Object(members) =>
      ScanMembers(escape, members);
      ScanWrapped('{', RenderMembers(escape, members), '}');
  }

  lemma {:induction false} ScanItems(escape: char -> string, items: seq<Value>)
    requires Escaping(escape) && forall i | 0 <= i < |items| :: Literals(items[i])
    ensures Scan(Outside, RenderItems(escape, items)) == Outside
  {
    if items != [] {
      ScanRendered(escape, items[0]);
      if |items| > 1 {
        ScanItems(escape, items[1..]);
        ScanBeside(Render(escape, items[0]), ',', RenderItems(escape, items[1..]));
      }
    }
  }

  lemma {:induction false} ScanMembers(escape: char -> string, members: seq<Member>)
    requires Escaping(escape) && forall i | 0 <= i < |members| :: Literals(members[i].value)
    ensures Scan(Outside, RenderMembers(escape, members)) == Outside
  {
    if members != [] {
      var m := members[0];
      ScanQuoted(escape, m.name);
      ScanRendered(escape, m.value);
      ScanBeside(Quoted(escape, m.name), ':', Render(escape, m.value));
      if |members| > 1 {
        ScanMembers(escape, members[1..]);
        ScanBeside(RenderMember(escape, m), ',', RenderMembers(escape, members[1..]));
      }
    }
  }

  /** Whatever strings a payload holds, its text is an object's text. */
  lemma {:induction false} RenderedObject(html: bool, members: seq<Member>)
    requires Literals(Object(members))
    ensures ObjectText(Render((c: char) => JsonEscape(html, c), Object(members)))
  {
    var escape := (c: char) => JsonEscape(html, c);
    JsonEscapes(html);
    ScanRendered(escape, Object(members));
  }
}
