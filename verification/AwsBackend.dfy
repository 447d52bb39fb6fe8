/** The bucket policy the state backend writes (backend/internal/statebackend/aws.go), and what
    a policy text of one statement says of a request. */
module BucketPolicy {
  import opened Texts

  function Quoted(s: string): string {
    "\"" + s + "\""
  }

  function PolicySid(): string {
    "ProvisrDenyInsecureTransport"
  }

  function Arn(partition: string, bucket: string): string {
    "arn:" + partition + ":s3:::" + bucket
  }

  function IdPieces(): seq<string> {
    ["{", "Version", ":", "2012-10-17", ",", "Statement", ":[{", "Sid", ":", PolicySid(), ","]
  }

  function ScopePieces(): seq<string> {
    ["Effect", ":", "Deny", ",", "Principal", ":", "*", ",", "Action", ":", "s3:*", ","]
  }

  function ResourcePieces(arn: string): seq<string> {
    ["Resource", ":[", arn, ",", arn + "/*", "],"]
  }

  function ConditionPieces(): seq<string> {
    ["Condition", ":{", "Bool", ":{", "aws:SecureTransport", ":", "false", "}}}]}"]
  }

  /** The policy text, cut at its quotes. */
  function PolicyPieces(arn: string): seq<string> {
    IdPieces() + (ScopePieces() + (ResourcePieces(arn) + ConditionPieces()))
  }

  function TlsOnlyPolicy(partition: string, bucket: string): string {
    Join(PolicyPieces(Arn(partition, bucket)), "\"")
  }

  /** Every inner piece stands between quotes. */
  lemma {:induction false} PieceIsQuoted(pieces: seq<string>, i: nat)
    requires 0 < i < |pieces| - 1
    ensures Contains(Join(pieces, "\""), Quoted(pieces[i]))
  {
    var rest := pieces[1..];
    var text := Join(rest, "\"");
    var whole := pieces[0] + "\"" + text;
    if i == 1 {
      assert text == rest[0] + "\"" + Join(rest[1..], "\"");
      assert whole[|pieces[0]|..] == Quoted(pieces[1]) + Join(rest[1..], "\"");
    } else {
      PieceIsQuoted(rest, i - 1);
      var k :| 0 <= k <= |text| && Quoted(pieces[i]) <= text[k..];
      assert whole[|pieces[0]| + 1 + k..] == text[k..];
    }
  }

  /** Whatever the partition and the bucket are called, the policy names the statement. */
  lemma {:induction false} PolicyNamesSid(partition: string, bucket: string)
    ensures Contains(TlsOnlyPolicy(partition, bucket), Quoted(PolicySid()))
  {
    PieceIsQuoted(PolicyPieces(Arn(partition, bucket)), 9);
  }

  datatype Statement = Statement(effect: string, principal: string, action: string, resources: seq<string>, secureTransport: string)

  datatype Request = Request(principal: string, action: string, resource: string, secure: bool)

  /** The text that follows a field's name. */
  function Field(pieces: seq<string>, name: string, at: nat): string {
    if |pieces| <= at then ""
    else if pieces[0] == name then pieces[at]
    else Field(pieces[1..], name, at)
  }

  /** What a reader takes from the text: each field's value by the field's name. */
  function ReadStatement(text: string): Statement {
    var pieces := Split(text, '"');
    Statement(Field(pieces, "Effect", 2), Field(pieces, "Principal", 2), Field(pieces, "Action", 2),
              [Field(pieces, "Resource", 2), Field(pieces, "Resource", 4)], Field(pieces, "aws:SecureTransport", 2))
  }

  /** A star at the end of a pattern stands for anything. */
  predicate Fits(pattern: string, s: string) {
    if HasSuffix(pattern, "*") then HasPrefix(s, pattern[..|pattern| - 1]) else s == pattern
  }

  predicate AppliesTo(st: Statement, r: Request) {
    && Fits(st.principal, r.principal) && Fits(st.action, r.action)
    && (exists i | 0 <= i < |st.resources| :: Fits(st.resources[i], r.resource))
    && st.secureTransport == (if r.secure then "true" else "false")
  }

  predicate Denies(st: Statement, r: Request) {
    st.effect == "Deny" && AppliesTo(st, r)
  }

  predicate Allows(st: Statement, r: Request) {
    st.effect == "Allow" && AppliesTo(st, r)
  }

  lemma {:induction false} FieldAt(pieces: seq<string>, more: seq<string>, name: string, at: nat, i: nat)
    requires i + at < |pieces| && pieces[i] == name && forall k | 0 <= k < i :: pieces[k] != name
    ensures Field(pieces + more, name, at) == pieces[i + at]
  {
    if i > 0 {
      assert (pieces + more)[1..] == pieces[1..] + more;
      FieldAt(pieces[1..], more, name, at, i - 1);
    }
  }

  lemma {:induction false} FieldSkips(front: seq<string>, rest: seq<string>, name: string, at: nat)
    requires name !in front && at < |rest|
    ensures Field(front + rest, name, at) == Field(rest, name, at)
  {
    if front == [] {
      assert front + rest == rest;
    } else {
      assert (front + rest)[1..] == front[1..] + rest;
      FieldSkips(front[1..], rest, name, at);
    }
  }

  predicate QuoteFree(s: string) {
    '"' !in s
  }

  lemma {:induction false} PiecesQuoteFree(arn: string)
    requires QuoteFree(arn)
    ensures forall i | 0 <= i < |PolicyPieces(arn)| :: QuoteFree(PolicyPieces(arn)[i])
  {
  }

  lemma {:induction false} ScopeFields(arn: string)
    ensures var pieces := PolicyPieces(arn);
      Field(pieces, "Effect", 2) == "Deny" && Field(pieces, "Principal", 2) == "*" && Field(pieces, "Action", 2) == "s3:*"
  {
    var more := ResourcePieces(arn) + ConditionPieces();
    FieldSkips(IdPieces(), ScopePieces() + more, "Effect", 2);
    FieldSkips(IdPieces(), ScopePieces() + more, "Principal", 2);
    FieldSkips(IdPieces(), ScopePieces() + more, "Action", 2);
    FieldAt(ScopePieces(), more, "Effect", 2, 0);
    FieldAt(ScopePieces(), more, "Principal", 2, 4);
    FieldAt(ScopePieces(), more, "Action", 2, 8);
  }

  lemma {:induction false} ResourceFields(arn: string)
    ensures Field(PolicyPieces(arn), "Resource", 2) == arn && Field(PolicyPieces(arn), "Resource", 4) == arn + "/*"
  {
    var more := ResourcePieces(arn) + ConditionPieces();
    FieldSkips(IdPieces(), ScopePieces() + more, "Resource", 2);
    FieldSkips(IdPieces(), ScopePieces() + more, "Resource", 4);
    FieldSkips(ScopePieces(), more, "Resource", 2);
    FieldSkips(ScopePieces(), more, "Resource", 4);
    FieldAt(ResourcePieces(arn), ConditionPieces(), "Resource", 2, 0);
    FieldAt(ResourcePieces(arn), ConditionPieces(), "Resource", 4, 0);
  }

  lemma {:induction false} TransportField(arn: string)
    requires HasPrefix(arn, "arn:")
    ensures Field(PolicyPieces(arn), "aws:SecureTransport", 2) == "false"
  {
    var more := ResourcePieces(arn) + ConditionPieces();
    var name := "aws:SecureTransport";
    FieldSkips(IdPieces(), ScopePieces() + more, name, 2);
    FieldSkips(ScopePieces(), more, name, 2);
    assert arn[1] == 'r' && (arn + "/*")[1] == 'r' && name[1] == 'w';
    FieldSkips(ResourcePieces(arn), ConditionPieces(), name, 2);
    assert ConditionPieces() + [] == ConditionPieces();
    FieldAt(ConditionPieces(), [], name, 2, 4);
  }

  lemma {:induction false} PolicyReadsBack(partition: string, bucket: string)
    requires QuoteFree(partition) && QuoteFree(bucket)
    ensures var arn := Arn(partition, bucket);
      ReadStatement(TlsOnlyPolicy(partition, bucket)) == Statement("Deny", "*", "s3:*", [arn, arn + "/*"], "false")
  {
    var arn := Arn(partition, bucket);
    PiecesQuoteFree(arn);
    SplitJoined(PolicyPieces(arn), '"');
    ScopeFields(arn);
    ResourceFields(arn);
    assert arn[..4] == "arn:";
    TransportField(arn);
  }

  lemma StarFits(front: string, s: string)
    ensures Fits(front + "*", s) <==> HasPrefix(s, front)
  {
    assert (front + "*")[..|front|] == front && (front + "*")[|front|..] == "*";
  }

  lemma {:induction false} ArnIsNoPattern(partition: string, bucket: string, s: string)
    requires !HasSuffix(bucket, "*")
    ensures Fits(Arn(partition, bucket), s) <==> s == Arn(partition, bucket)
  {
    var arn, front := Arn(partition, bucket), "arn:" + partition + ":s3:::";
    assert arn == front + bucket && front[|front| - 1] == ':';
    assert arn[|arn| - 1..] == [arn[|arn| - 1]];
    if bucket != "" {
      assert bucket[|bucket| - 1..] == [bucket[|bucket| - 1]] == [arn[|arn| - 1]];
    }
  }

  lemma {:induction false} StatementMeans(arn: string, r: Request)
    requires Fits(arn, r.resource) <==> r.resource == arn
    ensures var st := Statement("Deny", "*", "s3:*", [arn, arn + "/*"], "false");
      AppliesTo(st, r) <==> !r.secure && HasPrefix(r.action, "s3:") && (r.resource == arn || HasPrefix(r.resource, arn + "/"))
  {
    var st := Statement("Deny", "*", "s3:*", [arn, arn + "/*"], "false");
    StarFits(arn + "/", r.resource);
    StarFits("s3:", r.action);
    StarFits("", r.principal);
    assert arn + "/" + "*" == arn + "/*" && "s3:" + "*" == "s3:*" && "" + "*" == "*";
    assert st.resources[0] == arn && st.resources[1] == arn + "/*";
  }

  /** Read back, the policy denies exactly the requests on the bucket, or on anything in it,
      that do not come over a secure transport, whoever sends them and whichever S3 action
      they ask for; it allows nothing. */
  lemma {:induction false} PolicyDeniesPlainText(partition: string, bucket: string, r: Request)
    requires QuoteFree(partition) && QuoteFree(bucket) && !HasSuffix(bucket, "*")
    ensures var st, arn := ReadStatement(TlsOnlyPolicy(partition, bucket)), "arn:" + partition + ":s3:::" + bucket;
      && (Denies(st, r) <==> !r.secure && HasPrefix(r.action, "s3:") && (r.resource == arn || HasPrefix(r.resource, arn + "/")))
      && !Allows(st, r)
  {
    PolicyReadsBack(partition, bucket);
    ArnIsNoPattern(partition, bucket, r.resource);
    StatementMeans(Arn(partition, bucket), r);
  }
}

/** The AWS state backend driver (backend/internal/statebackend/aws.go): a bucket that is
    observed, claimed, repaired and observed again, and a lock table that is polled a
    bounded number of times. Any call may fail. A failed write may have taken effect, an
    error that says something is missing is true, and nobody else changes the resources. */
module StateBucket {
  import opened Outcomes
  import opened Texts
  import opened Sorting
  import opened BucketPolicy

  datatype Tag = Tag(key: string, value: string)

  datatype PublicAccess = PublicAccess(blockAcls: bool, blockPolicy: bool, ignoreAcls: bool, restrict: bool)

  /** What can be read of a bucket; a missing configuration is absent. */
  datatype Settings = Settings(
    tags: Option<seq<Tag>>, versioned: bool, access: Option<PublicAccess>, encryption: Option<seq<string>>,
    policy: Option<string>)

  /** The bucket of the wanted name: nobody's, another account's, or ours. */
  datatype Remote = NoBucket | Elsewhere | Ours(settings: Settings)

  datatype Failure = Conflict | Unavailable

  datatype Reading<T> = Missing | Broken | Read(value: T)

  datatype HeadCode = Found | NotFound | Forbidden | OtherCode

  function TagsOf(s: Settings): seq<Tag> {
    if s.tags.Some? then s.tags.value else []
  }

  /** The last tag of a key wins. */
  function Lookup(tags: seq<Tag>, key: string): Option<string> {
    if tags == [] then None
    else if tags[|tags| - 1].key == key then Some(tags[|tags| - 1].value)
    else Lookup(tags[..|tags| - 1], key)
  }

  lemma {:induction false} LookupIsLast(tags: seq<Tag>, key: string, value: string)
    ensures Lookup(tags, key) == Some(value) <==>
      exists i :: 0 <= i < |tags| && tags[i] == Tag(key, value) && forall k | i < k < |tags| :: tags[k].key != key
  {
    if tags != [] {
      var front, n := tags[..|tags| - 1], |tags| - 1;
      LookupIsLast(front, key, value);
      if i :| 0 <= i < |front| && front[i] == Tag(key, value) && forall k | i < k < |front| :: front[k].key != key {
        assert tags[i] == Tag(key, value);
        assert forall k | i < k < n :: tags[k] == front[k];
      }
      if i :| 0 <= i < |tags| && tags[i] == Tag(key, value) && forall k | i < k < |tags| :: tags[k].key != key {
        assert i < n ==> front[i] == Tag(key, value);
        assert forall k | i < k < n :: front[k] == tags[k];
      }
      assert tags[n].key == key && tags[n].value == value ==> tags[n] == Tag(key, value);
    }
  }

  predicate IsOwnTag(t: Tag) {
    t.key == "provisr:managed" || t.key == "provisr:workspace"
  }

  predicate IsForeignTag(t: Tag) {
    !IsOwnTag(t)
  }

  function Foreign(tags: seq<Tag>): seq<Tag> {
    Filter(IsForeignTag, tags)
  }

  predicate Claimed(s: Settings, workspace: string) {
    Lookup(TagsOf(s), "provisr:managed") == Some("true") && Lookup(TagsOf(s), "provisr:workspace") == Some(workspace)
  }

  /** Tagged for another workspace. */
  predicate Taken(s: Settings, workspace: string) {
    var w := Lookup(TagsOf(s), "provisr:workspace"); w.Some? && w.value != workspace
  }

  predicate Shut(a: PublicAccess) {
    a.blockAcls && a.blockPolicy && a.ignoreAcls && a.restrict
  }

  predicate Hardened(s: Settings) {
    && s.versioned && s.access.Some? && Shut(s.access.value)
    && s.encryption.Some? && "aws:kms" in s.encryption.value
    && s.policy.Some? && Contains(s.policy.value, Quoted(PolicySid()))
  }

  /** The settings a repair leaves. */
  predicate HardenedBy(s: Settings, partition: string, name: string) {
    && s.versioned && s.access == Some(PublicAccess(true, true, true, true)) && s.encryption == Some(["aws:kms"])
    && s.policy == Some(TlsOnlyPolicy(partition, name))
  }

  function OwnTags(workspace: string): seq<Tag> {
    [Tag("provisr:managed", "true"), Tag("provisr:workspace", workspace)]
  }

  lemma {:induction false} OwnTagsClaim(kept: seq<Tag>, workspace: string)
    requires forall t | t in kept :: IsForeignTag(t)
    ensures var tags := kept + OwnTags(workspace);
      && Lookup(tags, "provisr:managed") == Some("true") && Lookup(tags, "provisr:workspace") == Some(workspace)
      && Foreign(tags) == kept
  {
    var tags := kept + OwnTags(workspace);
    assert tags[..|tags| - 1] == kept + [Tag("provisr:managed", "true")];
    FilterSplit(IsForeignTag, kept, OwnTags(workspace));
    assert OwnTags(workspace)[1..] == [Tag("provisr:workspace", workspace)];
    assert OwnTags(workspace)[1..][1..] == [];
    FilterAll(kept);
  }

  lemma FilterAll(kept: seq<Tag>)
    requires forall t | t in kept :: IsForeignTag(t)
    ensures Foreign(kept) == kept
  {
    if kept != [] {
      FilterAll(kept[1..]);
    }
  }

  /** The bucket calls of the S3 API. */
  class S3 {
    var remote: Remote

    /** Access can be forbidden for other reasons than another account owning the bucket. */
    method Head() returns (code: HeadCode)
      ensures code.Found? ==> remote.Ours?
      ensures code.NotFound? ==> remote.NoBucket?
    {
      if * {
        return Forbidden;
      }
      if * {
        return OtherCode;
      }
      return if remote.Ours? then Found else if remote.NoBucket? then NotFound else Forbidden;
    }

    /** A new bucket has no configuration of its own beyond arbitrary account defaults. */
    method Create(defaults: Settings) returns (r: Option<Failure>)
      requires defaults.tags.None?
      modifies this
      ensures r.None? ==> remote == if old(remote).NoBucket? then Ours(defaults) else old(remote)
      ensures r.None? ==> remote.Ours?
      ensures r.Some? ==> remote == old(remote) || (old(remote).NoBucket? && remote == Ours(defaults))
    {
      if * {
        return Some(Unavailable);
      }
      if remote.Elsewhere? {
        return Some(Conflict);
      }
      if remote.NoBucket? {
        remote := Ours(defaults);
      }
      if * {
        return Some(Unavailable);
      }
      return None;
    }

    method Get<T>(value: Option<T>) returns (r: Reading<T>)
      ensures r.Missing? ==> value.None?
      ensures r.Read? ==> value == Some(r.value)
    {
      if * {
        return Broken;
      }
      return if value.None? then Missing else Read(value.value);
    }

    method Put(next: Settings) returns (ok: bool)
      requires remote.Ours?
      modifies this
      ensures ok ==> remote == Ours(next)
      ensures remote == Ours(next) || remote == old(remote)
    {
      if * {
        return false;
      }
      remote := Ours(next);
      if * {
        return false;
      }
      return true;
    }
  }

  /** The loop that keeps every tag but the two of ours. */
  method DropOwn(tags: seq<Tag>) returns (kept: seq<Tag>)
    ensures kept == Foreign(tags)
  {
    kept := [];
    for i := 0 to |tags|
      invariant kept == Foreign(tags[..i])
    {
      assert tags[..i + 1] == tags[..i] + [tags[i]];
      FilterSplit(IsForeignTag, tags[..i], [tags[i]]);
      if !IsOwnTag(tags[i]) {
        kept := kept + [tags[i]];
      }
    }
    assert tags[..|tags|] == tags;
  }

  /** One driver's view of one bucket. */
  class Bucket {
    const api: S3
    const workspace: string
    const partition: string
    const name: string
    const defaults: Settings

    constructor (api: S3, workspace: string, partition: string, name: string, defaults: Settings)
      requires defaults.tags.None?
      ensures this.api == api && this.workspace == workspace && this.defaults == defaults
    {
      this.api, this.workspace, this.partition, this.name, this.defaults := api, workspace, partition, name, defaults;
    }

    /** Claim an owned bucket: leave it alone if it carries our tags, refuse it if it
        carries another workspace's, and otherwise replace only our two tags. */
    method Claim() returns (r: Option<Failure>)
      requires api.remote.Ours?
      modifies api
      ensures api.remote.Ours?
      ensures api.remote.settings == old(api.remote.settings).(tags := api.remote.settings.tags)
      ensures Taken(old(api.remote.settings), workspace) ==> r.Some? && api.remote == old(api.remote)
      ensures Claimed(old(api.remote.settings), workspace) ==> api.remote == old(api.remote)
      ensures Foreign(TagsOf(api.remote.settings)) == Foreign(TagsOf(old(api.remote.settings)))
      ensures r.None? ==> Claimed(api.remote.settings, workspace)
      ensures r.None? && !Claimed(old(api.remote.settings), workspace) ==>
        TagsOf(api.remote.settings) == Foreign(TagsOf(old(api.remote.settings))) + OwnTags(workspace)
      ensures r == Some(Conflict) ==> Taken(old(api.remote.settings), workspace)
    {
      var s := api.remote.settings;
      var reading := api.Get(s.tags);
      if reading.Broken? {
        return Some(Unavailable);
      }
      var tags := if reading.Read? then reading.value else [];
      var owner := Lookup(tags, "provisr:workspace");
      if owner.Some? && owner.value != workspace {
        return Some(Conflict);
      }
      if Lookup(tags, "provisr:managed") == Some("true") && owner == Some(workspace) {
        return None;
      }
      var kept := DropOwn(tags);
      OwnTagsClaim(kept, workspace);
      var ok := api.Put(s.(tags := Some(kept + OwnTags(workspace))));
      return if ok then None else Some(Unavailable);
    }

    /** The four observations, stopping at the first that is missing or wrong. */
    method Drifted() returns (r: Option<bool>)
      requires api.remote.Ours?
      ensures r.Some? ==> (r.value <==> !Hardened(api.remote.settings))
    {
      var s := api.remote.settings;
      var versioning := api.Get(Some(s.versioned));
      if !versioning.Read? {
        return None;
      }
      if !versioning.value {
        return Some(true);
      }
      var access := api.Get(s.access);
      if access.Missing? {
        return Some(true);
      }
      if access.Broken? {
        return None;
      }
      if !Shut(access.value) {
        return Some(true);
      }
      var encryption := api.Get(s.encryption);
      if encryption.Missing? {
        return Some(true);
      }
      if encryption.Broken? {
        return None;
      }
      var kms := false;
      for i := 0 to |encryption.value|
        invariant kms <==> "aws:kms" in encryption.value[..i]
      {
        assert encryption.value[..i + 1] == encryption.value[..i] + [encryption.value[i]];
        if encryption.value[i] == "aws:kms" {
          kms := true;
        }
      }
      assert encryption.value[..|encryption.value|] == encryption.value;
      if !kms {
        return Some(true);
      }
      var policy := api.Get(s.policy);
      if policy.Missing? {
        return Some(true);
      }
      if policy.Broken? {
        return None;
      }
      return Some(!Contains(policy.value, Quoted(PolicySid())));
    }

    method Harden() returns (ok: bool)
      requires api.remote.Ours?
      modifies api
      ensures api.remote.Ours? && api.remote.settings.tags == old(api.remote.settings.tags)
      ensures ok ==> Hardened(api.remote.settings) && HardenedBy(api.remote.settings, partition, name)
    {
      ok := api.Put(api.remote.settings.(access := Some(PublicAccess(true, true, true, true))));
      if !ok {
        return;
      }
      ok := api.Put(api.remote.settings.(versioned := true));
      if !ok {
        return;
      }
      ok := api.Put(api.remote.settings.(encryption := Some(["aws:kms"])));
      if !ok {
        return;
      }
      PolicyNamesSid(partition, name);
      ok := api.Put(api.remote.settings.(policy := Some(TlsOnlyPolicy(partition, name))));
    }

    /** Success leaves the bucket ours, claimed and hardened, with every foreign tag kept and
        the settings a repair leaves if it needed one, and says whether it was created or
        repaired, never both. A bucket another workspace
        has claimed is refused and not written, whatever fails; a bucket that needed nothing
        is not written either. */
    method Ensure() returns (r: Option<Failure>, created: bool, repaired: bool)
      requires defaults.tags.None?
      modifies api
      ensures r.None? ==> api.remote.Ours? && Claimed(api.remote.settings, workspace) && Hardened(api.remote.settings)
      ensures r.None? ==> !(created && repaired) && !old(api.remote).Elsewhere?
      ensures r.None? ==> (created <==> old(api.remote).NoBucket?)
      ensures r.None? && !created ==> (repaired <==> !Hardened(old(api.remote.settings)))
      ensures old(api.remote).Ours? ==>
        api.remote.Ours? && Foreign(TagsOf(api.remote.settings)) == Foreign(TagsOf(old(api.remote.settings)))
      ensures old(api.remote).Ours? && Taken(old(api.remote.settings), workspace) ==> r.Some? && api.remote == old(api.remote)
      ensures old(api.remote).Ours? && Claimed(old(api.remote.settings), workspace) && Hardened(old(api.remote.settings)) ==>
        api.remote == old(api.remote)
      ensures old(api.remote).Elsewhere? ==> r.Some? && api.remote == old(api.remote)
      ensures r.None? ==>
        var before := if created then defaults else old(api.remote).settings;
        && (if Hardened(before) then api.remote.settings == before.(tags := api.remote.settings.tags)
            else HardenedBy(api.remote.settings, partition, name))
        && (!Claimed(before, workspace) ==> TagsOf(api.remote.settings) == Foreign(TagsOf(before)) + OwnTags(workspace))
    {
      created, repaired := false, false;
      var head := api.Head();
      match head {
        case Found =>
        case NotFound =>
          r := api.Create(defaults);
          if r.Some? {
            return;
          }
          created := true;
        case Forbidden => return Some(Conflict), false, false;
        case OtherCode => return Some(Unavailable), false, false;
      }
      r := Claim();
      if r.Some? {
        return r, false, false;
      }
      var drifted := Drifted();
      if drifted.None? {
        return Some(Unavailable), false, false;
      }
      if !drifted.value {
        return None, created, false;
      }
      var ok := Harden();
      if !ok {
        return Some(Unavailable), false, false;
      }
      drifted := Drifted();
      if drifted != Some(false) {
        return Some(Unavailable), false, false;
      }
      return None, created, !created;
    }

    /** After a successful call a second one changes nothing, and if it succeeds it reports
        neither. `between` is the remote state after the first. */
    method EnsureTwice()
      returns (first: Option<Failure>, second: Option<Failure>, created: bool, repaired: bool, ghost between: Remote)
      requires defaults.tags.None?
      modifies api
      ensures first.None? ==> between.Ours? && Claimed(between.settings, workspace) && Hardened(between.settings)
      ensures first.None? ==> api.remote == between
      ensures first.None? && second.None? ==> !created && !repaired
    {
      first, created, repaired := Ensure();
      between := api.remote;
      second, created, repaired := Ensure();
    }
  }
}

/** The Terraform lock table. */
module LockTable {
  import opened Outcomes
  import opened StateBucket

  datatype Status = Creating | Active | OtherStatus

  datatype KeyPart = KeyPart(attribute: string, hash: bool)

  datatype Attribute = Attribute(name: string, kind: string)

  datatype Table = Table(status: Status, keys: seq<KeyPart>, attributes: seq<Attribute>, tags: seq<Tag>)

  datatype Description = Gone | Failed | NoTable | Described(table: Table)

  const POLLS := 30

  /** The first attribute of the name decides. */
  function KindOf(attributes: seq<Attribute>, name: string): Option<string> {
    if attributes == [] then None
    else if attributes[0].name == name then Some(attributes[0].kind)
    else KindOf(attributes[1..], name)
  }

  predicate LockSchema(t: Table) {
    && |t.keys| == 1 && t.keys[0] == KeyPart("LockID", true)
    && KindOf(t.attributes, "LockID") == Some("S")
  }

  predicate OtherWorkspace(tags: seq<Tag>, workspace: string) {
    exists i | 0 <= i < |tags| :: tags[i].key == "provisr:workspace" && tags[i].value != workspace
  }

  function NewTable(workspace: string): Table {
    Table(Creating, [KeyPart("LockID", true)], [Attribute("LockID", "S")], OwnTags(workspace))
  }

  /** A table that is being created becomes active, or stops being creatable, by itself. */
  class DynamoDB {
    var table: Option<Table>
    var describes: nat

    constructor (table: Option<Table>)
      ensures this.table == table && describes == 0
    {
      this.table, describes := table, 0;
    }

    method Describe() returns (d: Description)
      modifies this
      ensures describes == old(describes) + 1
      ensures table.Some? <==> old(table).Some?
      ensures table.Some? ==> table.value == old(table).value.(status := table.value.status)
      ensures table.Some? && old(table).value.status != Creating ==> table == old(table)
      ensures d.Gone? ==> table.None?
      ensures d.Described? ==> table == Some(d.table)
    {
      describes := describes + 1;
      if table.Some? && table.value.status.Creating? {
        if * {
          table := Some(table.value.(status := Active));
        } else if * {
          table := Some(table.value.(status := OtherStatus));
        }
      }
      if * {
        return Failed;
      }
      if * {
        return NoTable;
      }
      return if table.None? then Gone else Described(table.value);
    }

    /** An existing table makes creation fail with a code the caller tolerates. */
    method Create(t: Table) returns (ok: bool)
      modifies this`table
      ensures table == old(table) || (old(table).None? && table == Some(t))
      ensures ok ==> table.Some?
    {
      if * {
        return false;
      }
      if table.None? {
        table := Some(t);
      }
      if * {
        return false;
      }
      return true;
    }

    method ListTags() returns (tags: Option<seq<Tag>>)
      ensures tags.Some? && table.Some? ==> tags.value == table.value.tags
    {
      if * {
        return None;
      }
      return Some(if table.Some? then table.value.tags else []);
    }
  }

  /** Success means an active table with the lock schema and no other workspace's tag; the
      poll ends after at most 32 descriptions; an existing table is never changed by it. */
  method EnsureTable(api: DynamoDB, workspace: string) returns (r: Option<Failure>, created: bool)
    modifies api
    ensures r.None? ==> api.table.Some? && api.table.value.status.Active? && LockSchema(api.table.value)
                        && !OtherWorkspace(api.table.value.tags, workspace)
    ensures r.None? ==> (created <==> old(api.table).None?)
    ensures api.describes <= old(api.describes) + 32
    ensures old(api.table).Some? ==> api.table.Some? && api.table.value == old(api.table).value.(status := api.table.value.status)
    ensures r.None? && created ==> api.table.value == NewTable(workspace).(status := Active)
    ensures r == Some(Conflict) ==> api.table.Some? && LockSchema(api.table.value) && OtherWorkspace(api.table.value.tags, workspace)
  {
    created := false;
    var desc := api.Describe();
    if desc.Gone? {
      created := true;
      var ok := api.Create(NewTable(workspace));
      if !ok {
        return Some(Unavailable), false;
      }
      desc := api.Describe();
    }
    var attempt := 0;
    while desc.Described? && desc.table.status != Active
      invariant 0 <= attempt <= POLLS
      invariant api.describes <= old(api.describes) + 2 + attempt
      invariant desc.Described? ==> api.table == Some(desc.table)
      invariant created ==> old(api.table).None?
      invariant !created && desc.Described? ==> old(api.table).Some?
      invariant created && desc.Described? ==> api.table.value == NewTable(workspace).(status := api.table.value.status)
      invariant old(api.table).Some? ==> api.table.Some? && api.table.value == old(api.table).value.(status := api.table.value.status)
      decreases POLLS - attempt
    {
      if desc.table.status != Creating || attempt >= POLLS {
        return Some(Unavailable), false;
      }
      if * {
        return Some(Unavailable), false;
      }
      desc := api.Describe();
      attempt := attempt + 1;
    }
    if !desc.Described? || !LockSchema(desc.table) {
      return Some(Unavailable), false;
    }
    var tags := api.ListTags();
    if tags.None? {
      return Some(Unavailable), false;
    }
    for i := 0 to |tags.value|
      invariant forall k | 0 <= k < i :: !(tags.value[k].key == "provisr:workspace" && tags.value[k].value != workspace)
    {
      if tags.value[i].key == "provisr:workspace" && tags.value[i].value != workspace {
        return Some(Conflict), false;
      }
    }
    return None, created;
  }

  lemma {:induction false} NewTableIsUsable(workspace: string)
    ensures LockSchema(NewTable(workspace)) && !OtherWorkspace(NewTable(workspace).tags, workspace)
  {
    assert "provisr:managed" != "provisr:workspace";
  }

  /** The lock schema is one hash key, LockID, whose first declaration says it is a string. */
  lemma {:induction false} LockSchemaExactly(t: Table)
    ensures LockSchema(t) <==>
      && t.keys == [KeyPart("LockID", true)]
      && exists i :: 0 <= i < |t.attributes| && t.attributes[i] == Attribute("LockID", "S")
                     && forall k | 0 <= k < i :: t.attributes[k].name != "LockID"
  {
    FirstDecides(t.attributes, "LockID", "S");
  }

  lemma {:induction false} FirstDecides(attributes: seq<Attribute>, name: string, kind: string)
    ensures KindOf(attributes, name) == Some(kind) <==>
      exists i :: 0 <= i < |attributes| && attributes[i] == Attribute(name, kind) && forall k | 0 <= k < i :: attributes[k].name != name
  {
    if attributes != [] && attributes[0].name != name {
      var rest := attributes[1..];
      FirstDecides(rest, name, kind);
      if i :| 0 <= i < |rest| && rest[i] == Attribute(name, kind) && forall k | 0 <= k < i :: rest[k].name != name {
        assert attributes[i + 1] == Attribute(name, kind);
        assert forall k | 0 < k < i + 1 :: attributes[k] == rest[k - 1];
      }
      if i :| 0 <= i < |attributes| && attributes[i] == Attribute(name, kind) && forall k | 0 <= k < i :: attributes[k].name != name {
        assert rest[i - 1] == Attribute(name, kind);
        assert forall k | 0 <= k < i - 1 :: rest[k] == attributes[k + 1];
      }
    } else if attributes != [] {
      assert attributes[0].kind == kind ==> attributes[0] == Attribute(name, kind);
    }
  }
}
