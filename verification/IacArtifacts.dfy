/** Terraform artifact generation for one run (backend/internal/iacartifact/store.go), as
    interleaved transactions that hold the run's row lock. Rendering, identifiers and SHA-256
    are parameters. */
module IacArtifacts {
  import opened Outcomes
  import opened Texts
  import Rendering
  import Runs

  type Key = string
  type ManifestId = nat

  /** The caller's session, correlation and user, compared as one. */
  type Context = nat

  /** The run row. A confirmed version without its timestamp does not count as confirmed. */
  datatype RunRow = RunRow(
    context: Context, generating: bool, version: nat,
    active: Option<int>, validated: Option<int>, confirmed: Option<int>, confirmedAt: Option<nat>)

  datatype Request = Request(context: Context, key: Key, manifest: ManifestId)

  datatype Bundle = Bundle(id: nat, files: seq<Rendering.File>, hash: string)

  /** `under` is for the statements only: the run as it was when the artifact was committed. */
  datatype Artifact = Artifact(manifest: ManifestId, version: int, key: Key, bundle: Bundle, under: RunRow)

  datatype Phase = Begun | Holding | Cleared(version: int)

  datatype Tx = Tx(request: Request, phase: Phase)

  datatype Answer = Answer(request: Request, bundle: Bundle)

  datatype State = State(run: RunRow, lock: Option<nat>, artifacts: seq<Artifact>, txs: map<nat, Tx>, answers: set<Answer>)

  /** `versions` gives the version of each manifest of the run; manifests are immutable. */
  type Manifests = map<ManifestId, int>

  datatype Step =
    | Begin(t: nat, request: Request)
    | Lock(t: nat)
    | Decide(t: nat)
    | Store(t: nat, bundle: Bundle)
    | Abort(t: nat)
    | Mutate(run: RunRow)

  /** runLock.matches. */
  predicate Matches(run: RunRow, context: Context, version: int) {
    && run.context == context && run.confirmedAt.Some?
    && run.active == Some(version) && run.validated == Some(version) && run.confirmed == Some(version)
  }

  function Find(artifacts: seq<Artifact>, key: Key): Option<Artifact> {
    if artifacts == [] then None
    else if artifacts[0].key == key then Some(artifacts[0])
    else Find(artifacts[1..], key)
  }

  predicate HasArtifact(artifacts: seq<Artifact>, manifest: ManifestId) {
    exists i | 0 <= i < |artifacts| :: artifacts[i].manifest == manifest
  }

  datatype Verdict = Replay(bundle: Bundle) | Generate(version: int) | Refuse

  /** The checks made under the run lock, in their order. */
  function Judge(manifests: Manifests, run: RunRow, artifacts: seq<Artifact>, r: Request): Verdict {
    if r.manifest !in manifests then Refuse
    else if !Matches(run, r.context, manifests[r.manifest]) then Refuse
    else
      var found := Find(artifacts, r.key);
      if found.Some? then if found.value.manifest != r.manifest then Refuse else Replay(found.value.bundle)
      else if !run.generating || HasArtifact(artifacts, r.manifest) then Refuse
      else Generate(manifests[r.manifest])
  }

  function Ended(s: State, t: nat): State {
    s.(txs := s.txs - {t}, lock := if s.lock == Some(t) then None else s.lock)
  }

  function Next(manifests: Manifests, s: State, e: Step): Option<State> {
    match e
    case Begin(t, request) =>
      if t in s.txs then None else Some(s.(txs := s.txs[t := Tx(request, Begun)]))
    case Lock(t) =>
      if t in s.txs && s.txs[t].phase.Begun? && s.lock.None?
      then Some(s.(lock := Some(t), txs := s.txs[t := s.txs[t].(phase := Holding)])) else None
    case Decide(t) =>
      if t !in s.txs || !s.txs[t].phase.Holding? then None
      else
        var r := s.txs[t].request;
        (match Judge(manifests, s.run, s.artifacts, r)
         case Refuse => Some(Ended(s, t))
         case Replay(bundle) => Some(Ended(s, t).(answers := s.answers + {Answer(r, bundle)}))
         case Generate(version) => Some(s.(txs := s.txs[t := Tx(r, Cleared(version))])))
    case Store(t, bundle) =>
      if t !in s.txs || !s.txs[t].phase.Cleared? then None
      else
        var r := s.txs[t].request;
        var artifact := Artifact(r.manifest, s.txs[t].phase.version, r.key, bundle, s.run);
        Some(Ended(s, t).(artifacts := s.artifacts + [artifact], answers := s.answers + {Answer(r, bundle)}))
    case Abort(t) => if t in s.txs then Some(Ended(s, t)) else None
    case Mutate(run) => if s.lock.None? then Some(s.(run := run)) else None
  }

  function Stepper(manifests: Manifests): (State, Step) -> Option<State> {
    (s, e) => Next(manifests, s, e)
  }

  function Fresh(run: RunRow): State {
    State(run, None, [], map[], {})
  }

  /** The run stood in the generating state with this very version selected, validated and
      confirmed. */
  predicate Justified(manifests: Manifests, a: Artifact) {
    && a.manifest in manifests && a.version == manifests[a.manifest] && a.under.generating && a.under.confirmedAt.Some?
    && a.under.active == a.under.validated == a.under.confirmed == Some(a.version)
  }

  ghost predicate LogOk(manifests: Manifests, artifacts: seq<Artifact>) {
    && (forall i | 0 <= i < |artifacts| :: Justified(manifests, artifacts[i]))
    && (forall i, j | 0 <= i < j < |artifacts| ::
          artifacts[i].manifest != artifacts[j].manifest && artifacts[i].key != artifacts[j].key)
  }

  ghost predicate TxOk(manifests: Manifests, s: State, t: nat, tx: Tx) {
    && (!tx.phase.Begun? ==> s.lock == Some(t))
    && (tx.phase.Cleared? ==> Judge(manifests, s.run, s.artifacts, tx.request) == Generate(tx.phase.version))
  }

  predicate Backed(artifacts: seq<Artifact>, a: Answer) {
    var found := Find(artifacts, a.request.key);
    found.Some? && found.value.manifest == a.request.manifest && found.value.bundle == a.bundle
  }

  ghost predicate Inv(manifests: Manifests, s: State) {
    && LogOk(manifests, s.artifacts)
    && (forall t | t in s.txs :: TxOk(manifests, s, t, s.txs[t]))
    && (forall a | a in s.answers :: Backed(s.artifacts, a))
  }

  lemma {:induction false} FindNone(artifacts: seq<Artifact>, key: Key)
    ensures Find(artifacts, key).None? <==> forall i | 0 <= i < |artifacts| :: artifacts[i].key != key
  {
    if artifacts != [] && artifacts[0].key != key {
      FindNone(artifacts[1..], key);
      assert forall i | 1 <= i < |artifacts| :: artifacts[i] == artifacts[1..][i - 1];
      if i: nat :| i < |artifacts| && artifacts[i].key == key {
        assert artifacts[1..][i - 1].key == key;
      }
    }
  }

  lemma {:induction false} FindGrows(artifacts: seq<Artifact>, more: seq<Artifact>, key: Key)
    ensures Find(artifacts, key).Some? ==> Find(artifacts + more, key) == Find(artifacts, key)
    ensures Find(artifacts, key).None? ==> Find(artifacts + more, key) == Find(more, key)
  {
    if artifacts == [] {
      assert artifacts + more == more;
    } else if artifacts[0].key != key {
      assert (artifacts + more)[1..] == artifacts[1..] + more;
      FindGrows(artifacts[1..], more, key);
    }
  }

  lemma {:induction false} StoreKeepsInv(manifests: Manifests, s: State, e: Step)
    requires Inv(manifests, s) && e.Store? && Next(manifests, s, e).Some?
    ensures Inv(manifests, Next(manifests, s, e).value)
  {
    var n, r := Next(manifests, s, e).value, s.txs[e.t].request;
    assert TxOk(manifests, s, e.t, s.txs[e.t]);
    FindNone(s.artifacts, r.key);
    forall t | t in n.txs ensures TxOk(manifests, n, t, n.txs[t]) {
      assert TxOk(manifests, s, t, s.txs[t]);
    }
    forall a | a in n.answers ensures Backed(n.artifacts, a) {
      FindGrows(s.artifacts, [n.artifacts[|s.artifacts|]], a.request.key);
    }
  }

  lemma {:induction false} StepKeepsInv(manifests: Manifests, s: State, e: Step)
    requires Inv(manifests, s) && Next(manifests, s, e).Some?
    ensures Inv(manifests, Next(manifests, s, e).value)
    ensures s.artifacts <= Next(manifests, s, e).value.artifacts
  {
    if e.Store? {
      StoreKeepsInv(manifests, s, e);
    } else {
      var n := Next(manifests, s, e).value;
      forall t | t in n.txs ensures TxOk(manifests, n, t, n.txs[t]) {
        assert t in s.txs ==> TxOk(manifests, s, t, s.txs[t]);
      }
    }
  }

  lemma {:induction false} InvAlways(manifests: Manifests, run: RunRow, steps: seq<Step>)
    requires Runs.Run(Stepper(manifests), Fresh(run), steps).Some?
    ensures Inv(manifests, Runs.Run(Stepper(manifests), Fresh(run), steps).value)
  {
    var inv := s => Inv(manifests, s);
    forall s, e | inv(s) && Stepper(manifests)(s, e).Some? ensures inv(Stepper(manifests)(s, e).value) {
      StepKeepsInv(manifests, s, e);
    }
    Runs.Kept(Stepper(manifests), inv, Fresh(run), steps);
  }

  /** Over every interleaving a manifest gets at most one artifact and a key binds one
      manifest; every artifact was committed while the run was generating, with exactly the
      artifact's version selected, validated and confirmed. */
  lemma {:induction false} OneArtifactPerManifest(manifests: Manifests, run: RunRow, steps: seq<Step>)
    requires Runs.Run(Stepper(manifests), Fresh(run), steps).Some?
    ensures var artifacts := Runs.Run(Stepper(manifests), Fresh(run), steps).value.artifacts;
      && (forall i, j | 0 <= i < j < |artifacts| ::
            artifacts[i].manifest != artifacts[j].manifest && artifacts[i].key != artifacts[j].key)
      && (forall i | 0 <= i < |artifacts| :: Justified(manifests, artifacts[i]))
  {
    InvAlways(manifests, run, steps);
  }

  /** The manifest's own version stands selected, validated and confirmed, at a recorded
      time, in the run this request is about. */
  predicate Confirmed(manifests: Manifests, run: RunRow, r: Request) {
    && r.manifest in manifests && run.context == r.context && run.confirmedAt != None
    && run.active == run.validated == run.confirmed == Some(manifests[r.manifest])
  }

  /** Over every interleaving, a transaction that holds the run's lock goes on to generate
      exactly when its request is confirmed, the run is generating, and neither its key nor its
      manifest has an artifact; it is answered at once with an artifact exactly when that one
      is its key's, for its manifest, and the request is confirmed; otherwise it ends. */
  lemma {:induction false} DecidesExactly(manifests: Manifests, run: RunRow, steps: seq<Step>, t: nat)
    requires Runs.Run(Stepper(manifests), Fresh(run), steps).Some?
    requires var s := Runs.Run(Stepper(manifests), Fresh(run), steps).value; t in s.txs && s.txs[t].phase.Holding?
    ensures var s := Runs.Run(Stepper(manifests), Fresh(run), steps).value;
      var n, r := Next(manifests, s, Decide(t)), s.txs[t].request;
      && n.Some? && n.value.artifacts == s.artifacts
      && (t in n.value.txs <==>
            Confirmed(manifests, s.run, r) && s.run.generating
            && forall i | 0 <= i < |s.artifacts| :: s.artifacts[i].key != r.key && s.artifacts[i].manifest != r.manifest)
      && (forall bundle :: Answer(r, bundle) !in s.answers ==>
            (Answer(r, bundle) in n.value.answers <==>
               Confirmed(manifests, s.run, r)
               && exists i | 0 <= i < |s.artifacts| :: s.artifacts[i].key == r.key && s.artifacts[i].manifest == r.manifest && s.artifacts[i].bundle == bundle))
  {
    InvAlways(manifests, run, steps);
    var s := Runs.Run(Stepper(manifests), Fresh(run), steps).value;
    var r := s.txs[t].request;
    FindNone(s.artifacts, r.key);
    if Find(s.artifacts, r.key).Some? {
      FindIndex(s.artifacts, r.key);
      var k :| 0 <= k < |s.artifacts| && s.artifacts[k] == Find(s.artifacts, r.key).value && s.artifacts[k].key == r.key;
      assert forall i | 0 <= i < |s.artifacts| && s.artifacts[i].key == r.key :: i == k;
    }
  }

  /** A confirmed request of a generating run gets its artifact, under its own key and manifest,
      with the very files rendered for it, and is answered with it; asked again it is answered
      with the same one. */
  lemma {:induction false} GeneratesOnce(manifests: Manifests, run: RunRow, r: Request, bundle: Bundle)
    requires Confirmed(manifests, run, r) && run.generating
    ensures var first := [Begin(0, r), Lock(0), Decide(0), Store(0, bundle)];
      var once, twice := Runs.Run(Stepper(manifests), Fresh(run), first),
        Runs.Run(Stepper(manifests), Fresh(run), first + [Begin(0, r)] + [Lock(0)] + [Decide(0)]);
      && once.Some? && once.value.artifacts == [Artifact(r.manifest, manifests[r.manifest], r.key, bundle, run)]
      && once.value.answers == {Answer(r, bundle)}
      && twice == once
  {
    var next, start := Stepper(manifests), Fresh(run);
    Runs.Extend(next, start, [], Begin(0, r));
    Runs.Extend(next, start, [] + [Begin(0, r)], Lock(0));
    Runs.Extend(next, start, [] + [Begin(0, r)] + [Lock(0)], Decide(0));
    Runs.Extend(next, start, [] + [Begin(0, r)] + [Lock(0)] + [Decide(0)], Store(0, bundle));
    var first := [Begin(0, r), Lock(0), Decide(0), Store(0, bundle)];
    assert first == [] + [Begin(0, r)] + [Lock(0)] + [Decide(0)] + [Store(0, bundle)];
    var once := Runs.Run(next, start, first).value;
    assert once.txs == map[] && once.answers == {Answer(r, bundle)};
    Runs.Extend(next, start, first, Begin(0, r));
    Runs.Extend(next, start, first + [Begin(0, r)], Lock(0));
    Runs.Extend(next, start, first + [Begin(0, r)] + [Lock(0)], Decide(0));
    assert Find(once.artifacts, r.key) == Some(once.artifacts[0]);
    assert Runs.Run(next, start, first + [Begin(0, r)] + [Lock(0)] + [Decide(0)]).value.txs == map[];
  }

  /** Every successful answer to one key carries the same artifact, for the same manifest. */
  lemma {:induction false} AnswersAgree(manifests: Manifests, run: RunRow, steps: seq<Step>, a: Answer, b: Answer)
    requires Runs.Run(Stepper(manifests), Fresh(run), steps).Some?
    requires var s := Runs.Run(Stepper(manifests), Fresh(run), steps).value; a in s.answers && b in s.answers
    requires a.request.key == b.request.key || a.request.manifest == b.request.manifest
    ensures a.bundle == b.bundle && a.request.manifest == b.request.manifest && a.request.key == b.request.key
  {
    InvAlways(manifests, run, steps);
    var artifacts := Runs.Run(Stepper(manifests), Fresh(run), steps).value.artifacts;
    assert Backed(artifacts, a) && Backed(artifacts, b);
    FindIndex(artifacts, a.request.key);
    FindIndex(artifacts, b.request.key);
  }

  lemma {:induction false} FindIndex(artifacts: seq<Artifact>, key: Key)
    requires Find(artifacts, key).Some?
    ensures exists i | 0 <= i < |artifacts| :: artifacts[i] == Find(artifacts, key).value && artifacts[i].key == key
  {
    if artifacts[0].key != key {
      FindIndex(artifacts[1..], key);
      var i :| 0 <= i < |artifacts[1..]| && artifacts[1..][i] == Find(artifacts[1..], key).value && artifacts[1..][i].key == key;
      assert artifacts[i + 1] == Find(artifacts, key).value;
    }
  }

  /** After any further steps an answered request is answered again with the identical
      artifact, in whatever state the run is by then, if and only if its version is still
      the selected, validated and confirmed one for this context. */
  lemma {:induction false} ReplaysWhileConfirmed(manifests: Manifests, s: State, steps: seq<Step>, a: Answer)
    requires Inv(manifests, s) && a in s.answers && Runs.Run(Stepper(manifests), s, steps).Some?
    ensures var n := Runs.Run(Stepper(manifests), s, steps).value;
      && a.request.manifest in manifests
      && Judge(manifests, n.run, n.artifacts, a.request) ==
         (if Matches(n.run, a.request.context, manifests[a.request.manifest]) then Replay(a.bundle) else Refuse)
  {
    var inv := x => Inv(manifests, x) && s.artifacts <= x.artifacts;
    forall x, e | inv(x) && Stepper(manifests)(x, e).Some? ensures inv(Stepper(manifests)(x, e).value) {
      StepKeepsInv(manifests, x, e);
    }
    Runs.Kept(Stepper(manifests), inv, s, steps);
    var n := Runs.Run(Stepper(manifests), s, steps).value;
    assert Backed(s.artifacts, a);
    FindGrows(s.artifacts, n.artifacts[|s.artifacts|..], a.request.key);
    assert n.artifacts == s.artifacts + n.artifacts[|s.artifacts|..];
    FindIndex(s.artifacts, a.request.key);
  }

  /** What is hashed: every path and content, each closed by a NUL character. */
  function Digested(files: seq<Rendering.File>): string {
    if files == [] then ""
    else Glued(files[0].path, '\0', Glued(files[0].content, '\0', Digested(files[1..])))
  }

  predicate NulFree(files: seq<Rendering.File>) {
    forall i | 0 <= i < |files| :: '\0' !in files[i].path && '\0' !in files[i].content
  }

  /** The separators tell different file lists apart. */
  lemma {:induction false} DigestedInjective(a: seq<Rendering.File>, b: seq<Rendering.File>)
    requires NulFree(a) && NulFree(b) && Digested(a) == Digested(b)
    ensures a == b
  {
    if a == [] || b == [] {
      assert |Digested(if a == [] then b else a)| == 0;
    } else {
      CutHead('\0', a[0].path, Glued(a[0].content, '\0', Digested(a[1..])), b[0].path, Glued(b[0].content, '\0', Digested(b[1..])));
      CutHead('\0', a[0].content, Digested(a[1..]), b[0].content, Digested(b[1..]));
      DigestedInjective(a[1..], b[1..]);
      assert a == [a[0]] + a[1..] && b == [b[0]] + b[1..];
    }
  }
}
