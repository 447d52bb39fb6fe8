/** Version allocation for one run's manifests by three kinds of writer
    (backend/internal/manifest/drafts.go and store.go), as interleaved steps at READ
    COMMITTED. `(run_id, version)` and `(run_id, idempotency_key)` are unique. */
module ManifestVersions {
  import opened Outcomes
  import opened Manifests
  import Jsonb
  import Runs

  /** Content that is no JSON is refused before a writer starts. */
  type Content = c: Json | Jsonb.Valid(c) witness Null

  /** The draft endpoint, the keyed store call, and the plain store call. */
  datatype Writer =
    | Draft(key: string, content: Content, expected: nat)
    | Keyed(key: string, content: Content)
    | Plain(content: Content)

  /** The run row, as far as writers look at it. */
  datatype RunRow = RunRow(creating: bool, version: nat)

  /** How a committed version came about; a draft remembers the state version it expected,
      the one it was validated at, and the run as it was at commit. */
  datatype Origin = ByStore | ByDraft(expected: nat, validatedAt: Option<nat>, at: RunRow)

  /** The column holds `Jsonb.Stored(sent)`. */
  datatype Row = Row(version: nat, sent: Content, key: Option<string>, origin: Origin)

  datatype Phase =
    | Arrived
    | Missed
    | Validated
    | Locked
    | Absent
    | Numbered(version: nat)
    | Placed(row: Row)

  /** `seen` is the number of versions there were when the writer arrived. */
  datatype Tx = Tx(writer: Writer, phase: Phase, validatedAt: Option<nat>, attempts: nat, seen: nat)

  /** Replies to calls that carry a key. */
  datatype Reply = Answered(key: string, version: nat) | Conflict(key: string)

  datatype State = State(
    run: RunRow, rowLock: Option<nat>, advisory: Option<nat>, log: seq<Row>, txs: map<nat, Tx>, replies: seq<Reply>)

  /** Run mutations wait for the row lock and bump the state version. */
  datatype Step =
    | Arrive(t: nat, writer: Writer)
    | Look(t: nat)
    | Validate(t: nat)
    | Lock(t: nat)
    | Allocate(t: nat)
    | Place(t: nat)
    | Commit(t: nat)
    | Abort(t: nat)
    | Mutate(creating: bool)

  const ATTEMPTS := 3

  function KeyOf(w: Writer): Option<string> {
    if w.Plain? then None else Some(w.key)
  }

  function MaxVersion(log: seq<Row>): nat {
    if log == [] then 0
    else
      var rest, last := MaxVersion(log[..|log| - 1]), log[|log| - 1].version;
      if rest > last then rest else last
  }

  /** The row a key owns. */
  function Find(log: seq<Row>, key: string): Option<Row> {
    if log == [] then None
    else if log[0].key == Some(key) then Some(log[0])
    else Find(log[1..], key)
  }

  /** A replay must repeat the content: the draft endpoint compares in the database, the
      keyed call compares the column's text with the text it was given. */
  predicate Same(w: Writer, sent: Content)
    requires !w.Plain?
  {
    if w.Draft?
    then
      Jsonb.StoredIsPlain(sent);
      Jsonb.StoredIsPlain(w.content);
      Jsonb.Equal(Jsonb.Stored(sent), Jsonb.Stored(w.content))
    else Jsonb.Stored(sent) == w.content
  }

  predicate Clashes(row: Row, version: nat, key: Option<string>) {
    row.version == version || (key.Some? && row.key == key)
  }

  predicate ClashesLog(log: seq<Row>, version: nat, key: Option<string>) {
    exists i | 0 <= i < |log| :: Clashes(log[i], version, key)
  }

  /** An uncommitted row of another transaction makes the insert wait. */
  ghost predicate Waits(s: State, t: nat, version: nat, key: Option<string>) {
    exists o :: o in s.txs && o != t && s.txs[o].phase.Placed? && Clashes(s.txs[o].phase.row, version, key)
  }

  function Ended(s: State, t: nat): State {
    s.(txs := s.txs - {t},
       rowLock := if s.rowLock == Some(t) then None else s.rowLock,
       advisory := if s.advisory == Some(t) then None else s.advisory)
  }

  function Moved(s: State, t: nat, phase: Phase): State
    requires t in s.txs
  {
    s.(txs := s.txs[t := s.txs[t].(phase := phase)])
  }

  /** Look the key up: answer, refuse, or go on. */
  function Looked(s: State, t: nat, miss: Phase): State
    requires t in s.txs && !s.txs[t].writer.Plain?
  {
    var w := s.txs[t].writer;
    var found := Find(s.log, w.key);
    if found.None? then Moved(s, t, miss)
    else if Same(w, found.value.sent) then Ended(s, t).(replies := s.replies + [Answered(w.key, found.value.version)])
    else Ended(s, t).(replies := s.replies + [Conflict(w.key)])
  }

  predicate Current(s: State, expected: nat) {
    s.run.creating && s.run.version == expected
  }

  /** Reaching the insert: the row is placed, or the unique index refuses it; only the plain
      call tries again. */
  function Inserted(s: State, t: nat): State
    requires t in s.txs && s.txs[t].phase.Numbered?
  {
    var tx := s.txs[t];
    var w, version := tx.writer, tx.phase.version;
    if ClashesLog(s.log, version, KeyOf(w)) then
      if w.Plain? && tx.attempts + 1 < ATTEMPTS
      then s.(txs := s.txs[t := tx.(phase := Arrived, attempts := tx.attempts + 1)])
      else Ended(s, t)
    else Moved(s, t, Placed(Row(version, w.content, KeyOf(w), ByStore)))
  }

  function Committed(s: State, t: nat): State
    requires t in s.txs && s.txs[t].phase.Placed?
  {
    var tx := s.txs[t];
    var w, row := tx.writer, tx.phase.row;
    var origin := if w.Draft? then ByDraft(w.expected, tx.validatedAt, s.run) else ByStore;
    Ended(s, t).(log := s.log + [row.(origin := origin)],
                 replies := if w.Plain? then s.replies else s.replies + [Answered(w.key, row.version)])
  }

  ghost function Next(s: State, e: Step): Option<State> {
    match e
    case Arrive(t, writer) =>
      if t in s.txs then None else Some(s.(txs := s.txs[t := Tx(writer, Arrived, None, 0, |s.log|)]))
    case Look(t) =>
      if t !in s.txs then None
      else if s.txs[t].writer.Draft? && s.txs[t].phase.Arrived? then Some(Looked(s, t, Missed))
      else if !s.txs[t].writer.Plain? && s.txs[t].phase.Locked? then Some(Looked(s, t, Absent))
      else None
    case Validate(t) =>
      if t in s.txs && s.txs[t].writer.Draft? && s.txs[t].phase.Missed? && Current(s, s.txs[t].writer.expected)
      then Some(s.(txs := s.txs[t := s.txs[t].(phase := Validated, validatedAt := Some(s.run.version))])) else None
    case Lock(t) =>
      if t !in s.txs then None
      else if s.txs[t].writer.Draft? && s.txs[t].phase.Validated? && s.rowLock.None? && Current(s, s.txs[t].writer.expected)
      then Some(Moved(s, t, Locked).(rowLock := Some(t)))
      else if s.txs[t].writer.Keyed? && s.txs[t].phase.Arrived? && s.advisory.None?
      then Some(Moved(s, t, Locked).(advisory := Some(t)))
      else None
    case Allocate(t) =>
      if t in s.txs && (if s.txs[t].writer.Plain? then s.txs[t].phase.Arrived? else s.txs[t].phase.Absent?)
      then Some(Moved(s, t, Numbered(MaxVersion(s.log) + 1))) else None
    case Place(t) =>
      if t in s.txs && s.txs[t].phase.Numbered? && !Waits(s, t, s.txs[t].phase.version, KeyOf(s.txs[t].writer))
      then Some(Inserted(s, t)) else None
    case Commit(t) => if t in s.txs && s.txs[t].phase.Placed? then Some(Committed(s, t)) else None
    case Abort(t) => if t in s.txs then Some(Ended(s, t)) else None
    case Mutate(creating) =>
      if s.rowLock.None? then Some(s.(run := RunRow(creating, s.run.version + 1))) else None
  }

  function Fresh(run: RunRow): State {
    State(run, None, None, [], map[], [])
  }

  /** Versions 1..n in order, no key twice, drafts validated against the run they were
      committed under. */
  ghost predicate LogOk(log: seq<Row>) {
    && (forall i | 0 <= i < |log| :: log[i].version == i + 1)
    && (forall i, j | 0 <= i < j < |log| && log[i].key.Some? :: log[i].key != log[j].key)
    && (forall i | 0 <= i < |log| && log[i].origin.ByDraft? :: Vouched(log[i].origin))
  }

  predicate Vouched(o: Origin)
    requires o.ByDraft?
  {
    o.validatedAt == Some(o.expected) && o.at == RunRow(true, o.expected)
  }

  predicate HoldsLock(phase: Phase) {
    phase.Locked? || phase.Absent? || phase.Numbered? || phase.Placed?
  }

  /** What the steps of one writer have established so far. */
  ghost predicate TxOk(s: State, t: nat, tx: Tx) {
    && (tx.writer.Draft? && HoldsLock(tx.phase) ==>
          s.rowLock == Some(t) && Current(s, tx.writer.expected))
    && (tx.writer.Draft? && (tx.phase.Validated? || HoldsLock(tx.phase)) ==> tx.validatedAt == Some(tx.writer.expected))
    && (tx.writer.Keyed? && HoldsLock(tx.phase) ==> s.advisory == Some(t))
    && (tx.phase.Numbered? ==> 1 <= tx.phase.version <= |s.log| + 1)
    && (tx.phase.Placed? ==> PlacedOk(s.log, tx))
    && Delayed(tx, |s.log|)
  }

  predicate PlacedOk(log: seq<Row>, tx: Tx)
    requires tx.phase.Placed?
  {
    && tx.phase.row.version == |log| + 1 && tx.phase.row.key == KeyOf(tx.writer) && tx.phase.row.sent == tx.writer.content
    && !ClashesLog(log, tx.phase.row.version, tx.phase.row.key) && tx.phase.row.origin == ByStore
  }

  /** Every failed attempt was beaten by a version committed since the writer arrived. */
  predicate Delayed(tx: Tx, versions: nat) {
    && tx.seen + tx.attempts <= versions && tx.attempts < ATTEMPTS
    && (tx.phase.Numbered? ==> tx.seen + tx.attempts + 1 <= tx.phase.version)
  }

  /** Locks belong to open transactions that are past taking them. */
  predicate LocksOk(s: State) {
    && (s.rowLock.Some? ==> s.rowLock.value in s.txs && s.txs[s.rowLock.value].writer.Draft? && HoldsLock(s.txs[s.rowLock.value].phase))
    && (s.advisory.Some? ==> s.advisory.value in s.txs && s.txs[s.advisory.value].writer.Keyed? && HoldsLock(s.txs[s.advisory.value].phase))
  }

  ghost predicate Inv(s: State) {
    && LogOk(s.log) && LocksOk(s)
    && (forall t | t in s.txs :: TxOk(s, t, s.txs[t]))
    && (forall t, o | t in s.txs && o in s.txs && t != o && s.txs[t].phase.Placed? :: !s.txs[o].phase.Placed?)
    && (forall a | a in s.replies && a.Answered? :: Owned(s.log, a))
  }

  predicate Owned(log: seq<Row>, a: Reply)
    requires a.Answered?
  {
    0 < a.version <= |log| && log[a.version - 1].key == Some(a.key)
  }

  lemma {:induction false} MaxIsLength(log: seq<Row>)
    requires forall i | 0 <= i < |log| :: log[i].version == i + 1
    ensures MaxVersion(log) == |log|
  {
    if log != [] {
      MaxIsLength(log[..|log| - 1]);
    }
  }

  lemma {:induction false} FindFirst(log: seq<Row>, key: string)
    ensures Find(log, key).Some? ==> exists i | 0 <= i < |log| :: log[i] == Find(log, key).value && log[i].key == Some(key)
    ensures Find(log, key).None? ==> forall i | 0 <= i < |log| :: log[i].key != Some(key)
  {
    if log != [] && log[0].key != Some(key) {
      FindFirst(log[1..], key);
      if Find(log, key).Some? {
        var i :| 0 <= i < |log[1..]| && log[1..][i] == Find(log[1..], key).value && log[1..][i].key == Some(key);
        assert log[i + 1] == Find(log, key).value;
      } else {
        assert forall i | 1 <= i < |log| :: log[i] == log[1..][i - 1];
      }
    }
  }

  /** A key is found in the row that carries it. */
  lemma {:induction false} FindCarrier(log: seq<Row>, key: string, i: nat)
    requires LogOk(log) && i < |log| && log[i].key == Some(key)
    ensures Find(log, key) == Some(log[i])
  {
    FindFirst(log, key);
    var j :| 0 <= j < |log| && log[j] == Find(log, key).value && log[j].key == Some(key);
    assert !(i < j) && !(j < i);
  }

  lemma {:induction false} ReplyKeepsInv(s: State, t: nat, reply: Reply)
    requires Inv(s) && t in s.txs && (reply.Answered? ==> Owned(s.log, reply))
    ensures Inv(Ended(s, t).(replies := s.replies + [reply]))
  {
    OthersKeep(s, Ended(s, t).(replies := s.replies + [reply]), t);
  }

  lemma {:induction false} LookKeepsInv(s: State, t: nat)
    requires Inv(s) && Next(s, Look(t)).Some?
    ensures Inv(Next(s, Look(t)).value)
  {
    var n, w := Next(s, Look(t)).value, s.txs[t].writer;
    FindFirst(s.log, w.key);
    assert TxOk(s, t, s.txs[t]);
    var found := Find(s.log, w.key);
    if found.None? {
      OthersKeep(s, n, t);
    } else if Same(w, found.value.sent) {
      ReplyKeepsInv(s, t, Answered(w.key, found.value.version));
    } else {
      ReplyKeepsInv(s, t, Conflict(w.key));
    }
  }

  /** Transactions other than `t` keep what they have established. */
  lemma {:induction false} OthersKeep(s: State, n: State, t: nat)
    requires Inv(s) && n.run == s.run && n.log == s.log && s.replies <= n.replies
    requires n.rowLock == s.rowLock || s.rowLock == Some(t) || s.rowLock == None
    requires n.advisory == s.advisory || s.advisory == Some(t) || s.advisory == None
    requires forall o | o in n.txs && o != t :: o in s.txs && n.txs[o] == s.txs[o]
    requires LocksOk(n)
    requires t in n.txs ==> TxOk(n, t, n.txs[t])
    requires t in n.txs && n.txs[t].phase.Placed? ==> forall o | o in s.txs && o != t :: !s.txs[o].phase.Placed?
    requires forall a | a in n.replies && a.Answered? :: a in s.replies || Owned(s.log, a)
    ensures Inv(n)
  {
    forall o | o in n.txs ensures TxOk(n, o, n.txs[o]) {
      if o != t {
        assert TxOk(s, o, s.txs[o]);
      }
    }
  }

  /** A clash on the version means the number was used up since; without a clash the number
      is the next one, and no other transaction has placed a row. */
  lemma {:induction false} PlacedFollows(s: State, t: nat)
    requires Inv(s) && t in s.txs && s.txs[t].phase.Numbered?
    requires !Waits(s, t, s.txs[t].phase.version, KeyOf(s.txs[t].writer))
    ensures var version, key := s.txs[t].phase.version, KeyOf(s.txs[t].writer);
      if ClashesLog(s.log, version, key) then key.None? ==> version <= |s.log|
      else version == |s.log| + 1 && forall o | o in s.txs && o != t :: !s.txs[o].phase.Placed?
  {
    var version, key := s.txs[t].phase.version, KeyOf(s.txs[t].writer);
    assert TxOk(s, t, s.txs[t]);
    if !ClashesLog(s.log, version, key) {
      if version <= |s.log| {
        assert Clashes(s.log[version - 1], version, key);
      }
      forall o | o in s.txs && o != t ensures !s.txs[o].phase.Placed? {
        assert TxOk(s, o, s.txs[o]);
      }
    }
  }

  lemma {:induction false} PlaceKeepsInv(s: State, t: nat)
    requires Inv(s) && Next(s, Place(t)).Some?
    ensures Inv(Next(s, Place(t)).value)
  {
    PlacedFollows(s, t);
    assert TxOk(s, t, s.txs[t]);
    OthersKeep(s, Next(s, Place(t)).value, t);
  }

  lemma {:induction false} LogGrows(log: seq<Row>, row: Row)
    requires LogOk(log) && row.version == |log| + 1 && !ClashesLog(log, row.version, row.key)
    requires row.origin.ByDraft? ==> Vouched(row.origin)
    ensures LogOk(log + [row])
  {
    forall i | 0 <= i < |log| && log[i].key.Some? ensures log[i].key != row.key {
      assert !Clashes(log[i], row.version, row.key);
    }
  }

  lemma {:induction false} CommitKeepsInv(s: State, t: nat)
    requires Inv(s) && Next(s, Commit(t)).Some?
    ensures Inv(Next(s, Commit(t)).value)
  {
    var n, tx := Next(s, Commit(t)).value, s.txs[t];
    assert TxOk(s, t, tx);
    LogGrows(s.log, n.log[|s.log|]);
    forall o | o in n.txs ensures TxOk(n, o, n.txs[o]) {
      assert TxOk(s, o, s.txs[o]) && !s.txs[o].phase.Placed?;
    }
    forall a | a in n.replies && a.Answered? ensures Owned(n.log, a) {
      assert a in s.replies ==> Owned(s.log, a);
    }
  }

  lemma {:induction false} StepKeepsInv(s: State, e: Step)
    requires Inv(s) && Next(s, e).Some?
    ensures Inv(Next(s, e).value)
    ensures s.log <= Next(s, e).value.log
  {
    match e
    case Look(t) => LookKeepsInv(s, t);
    case Place(t) => PlaceKeepsInv(s, t);
    case Commit(t) => CommitKeepsInv(s, t);
    case Mutate(_) =>
      var n := Next(s, e).value;
      forall o | o in n.txs ensures TxOk(n, o, n.txs[o]) {
        assert TxOk(s, o, s.txs[o]);
      }
    case Arrive(t, _) => OthersKeep(s, Next(s, e).value, t);
    case Validate(t) => OwnStepKeepsInv(s, e, t);
    case Lock(t) => OwnStepKeepsInv(s, e, t);
    case Allocate(t) => OwnStepKeepsInv(s, e, t);
    case Abort(t) => OwnStepKeepsInv(s, e, t);
  }

  lemma {:induction false} OwnStepKeepsInv(s: State, e: Step, t: nat)
    requires Inv(s) && Next(s, e).Some?
    requires e in {Validate(t), Lock(t), Allocate(t), Abort(t)}
    ensures Inv(Next(s, e).value)
  {
    MaxIsLength(s.log);
    assert TxOk(s, t, s.txs[t]);
    OthersKeep(s, Next(s, e).value, t);
  }

  lemma {:induction false} InvAlways(run: RunRow, steps: seq<Step>)
    requires Runs.Run(Next, Fresh(run), steps).Some?
    ensures Inv(Runs.Run(Next, Fresh(run), steps).value)
  {
    forall s, e | Inv(s) && Next(s, e).Some? ensures Inv(Next(s, e).value) {
      StepKeepsInv(s, e);
    }
    Runs.Kept(Next, Inv, Fresh(run), steps);
  }

  /** Over every interleaving the committed versions are exactly 1..n, a key owns at most
      one of them, and every draft was validated at the state version it expected, with the
      run at that version and still being planned when the draft was committed. */
  lemma {:induction false} VersionsAreGapless(run: RunRow, steps: seq<Step>)
    requires Runs.Run(Next, Fresh(run), steps).Some?
    ensures var log := Runs.Run(Next, Fresh(run), steps).value.log;
      && (forall i | 0 <= i < |log| :: log[i].version == i + 1)
      && (forall i, j | 0 <= i < j < |log| && log[i].key.Some? :: log[i].key != log[j].key)
      && (forall i | 0 <= i < |log| && log[i].origin.ByDraft? ::
            log[i].origin.validatedAt == Some(log[i].origin.expected) && log[i].origin.at == RunRow(true, log[i].origin.expected))
  {
    InvAlways(run, steps);
    var log := Runs.Run(Next, Fresh(run), steps).value.log;
    forall i | 0 <= i < |log| && log[i].origin.ByDraft? ensures Vouched(log[i].origin) {
    }
  }

  /** Committed versions never change: an earlier log is a prefix of every later one. */
  lemma {:induction false} LogOnlyGrows(s: State, steps: seq<Step>)
    requires Inv(s) && Runs.Run(Next, s, steps).Some?
    ensures s.log <= Runs.Run(Next, s, steps).value.log
  {
    var kept := x => Inv(x) && s.log <= x.log;
    forall x, e | kept(x) && Next(x, e).Some? ensures kept(Next(x, e).value) {
      StepKeepsInv(x, e);
    }
    Runs.Kept(Next, kept, s, steps);
  }

  /** All successful answers to one key, first stores and replays of either keyed entry
      point alike, name one version. */
  lemma {:induction false} OneVersionPerKey(run: RunRow, steps: seq<Step>, a: Reply, b: Reply)
    requires Runs.Run(Next, Fresh(run), steps).Some?
    requires var s := Runs.Run(Next, Fresh(run), steps).value; a in s.replies && b in s.replies && a.Answered? && b.Answered? && a.key == b.key
    ensures a == b
  {
    InvAlways(run, steps);
    var s := Runs.Run(Next, Fresh(run), steps).value;
    assert Owned(s.log, a) && Owned(s.log, b);
  }

  /** After any run, the run row is locked by nobody but an open draft, and the advisory lock by
      nobody but an open keyed call: whatever ends, its locks are free again. */
  lemma {:induction false} LocksAreReleased(run: RunRow, steps: seq<Step>)
    requires Runs.Run(Next, Fresh(run), steps).Some?
    ensures var s := Runs.Run(Next, Fresh(run), steps).value;
      && (s.rowLock.Some? ==> s.rowLock.value in s.txs && s.txs[s.rowLock.value].writer.Draft?)
      && (s.advisory.Some? ==> s.advisory.value in s.txs && s.txs[s.advisory.value].writer.Keyed?)
  {
    InvAlways(run, steps);
  }

  /** How the row of a writer came about. */
  function OriginOf(w: Writer): Origin {
    if w.Draft? then ByDraft(w.expected, Some(w.expected), RunRow(true, w.expected)) else ByStore
  }

  /** After any run, a commit appends the next version with the content and the key of its
      writer, and answers a writer that has a key; no other step changes the log. */
  lemma {:induction false} CommitsAppend(run: RunRow, steps: seq<Step>, e: Step)
    requires Runs.Run(Next, Fresh(run), steps).Some? && Next(Runs.Run(Next, Fresh(run), steps).value, e).Some?
    ensures var s := Runs.Run(Next, Fresh(run), steps).value;
      var n := Next(s, e).value;
      if !e.Commit? then n.log == s.log
      else
        e.t in s.txs && e.t !in n.txs
        && var w := s.txs[e.t].writer;
        && n.log == s.log + [Row(|s.log| + 1, w.content, KeyOf(w), OriginOf(w))]
        && n.replies == s.replies + (if w.Plain? then [] else [Answered(w.key, |s.log| + 1)])
  {
    InvAlways(run, steps);
    var s := Runs.Run(Next, Fresh(run), steps).value;
    if e.Commit? {
      assert TxOk(s, e.t, s.txs[e.t]);
    }
  }

  /** The writer came with one of the steps. */
  ghost predicate Came(steps: seq<Step>, w: Writer) {
    exists k :: 0 <= k < |steps| && steps[k].Arrive? && steps[k].writer == w
  }

  ghost predicate RowCame(steps: seq<Step>, row: Row) {
    exists k :: 0 <= k < |steps| && steps[k].Arrive? && row == Row(row.version, steps[k].writer.content, KeyOf(steps[k].writer), OriginOf(steps[k].writer))
  }

  ghost predicate AllCame(run: RunRow, steps: seq<Step>, s: State) {
    && Runs.Run(Next, Fresh(run), steps) == Some(s)
    && (forall t | t in s.txs :: Came(steps, s.txs[t].writer))
    && (forall i | 0 <= i < |s.log| :: RowCame(steps, s.log[i]))
  }

  lemma {:induction false} CameStays(steps: seq<Step>, e: Step)
    ensures forall w | Came(steps, w) :: Came(steps + [e], w)
    ensures forall row | RowCame(steps, row) :: RowCame(steps + [e], row)
    ensures e.Arrive? ==> Came(steps + [e], e.writer)
  {
    var more := steps + [e];
    assert more[|steps|] == e && forall k | 0 <= k < |steps| :: more[k] == steps[k];
    forall w | Came(steps, w) ensures Came(more, w) {
      var k :| 0 <= k < |steps| && steps[k].Arrive? && steps[k].writer == w;
      assert more[k].writer == w;
    }
    forall row | RowCame(steps, row) ensures RowCame(more, row) {
      var k :| 0 <= k < |steps| && steps[k].Arrive? && row == Row(row.version, steps[k].writer.content, KeyOf(steps[k].writer), OriginOf(steps[k].writer));
      assert more[k] == steps[k];
    }
  }

  /** Transactions keep the writer they arrived with. */
  lemma WritersStay(s: State, e: Step)
    requires Next(s, e).Some?
    ensures forall t | t in Next(s, e).value.txs ::
      if t in s.txs then Next(s, e).value.txs[t].writer == s.txs[t].writer else e == Arrive(t, Next(s, e).value.txs[t].writer)
  {
  }

  lemma {:induction false} StepKeepsCame(run: RunRow, steps: seq<Step>, s: State, e: Step)
    requires AllCame(run, steps, s) && Next(s, e).Some?
    ensures AllCame(run, steps + [e], Next(s, e).value)
  {
    var n := Next(s, e).value;
    Runs.Extend(Next, Fresh(run), steps, e);
    CameStays(steps, e);
    WritersStay(s, e);
    CommitsAppend(run, steps, e);
    forall i | 0 <= i < |n.log| ensures RowCame(steps + [e], n.log[i]) {
      if i < |s.log| {
        assert n.log[i] == s.log[i];
      } else {
        assert Came(steps, s.txs[e.t].writer);
        var k :| 0 <= k < |steps| && steps[k].Arrive? && steps[k].writer == s.txs[e.t].writer;
        assert RowCame(steps, n.log[i]);
      }
    }
  }

  /** Every committed version holds what one of the calls of the run was given, under its key. */
  lemma {:induction false} VersionsWereSent(run: RunRow, steps: seq<Step>, i: nat)
    requires Runs.Run(Next, Fresh(run), steps).Some? && i < |Runs.Run(Next, Fresh(run), steps).value.log|
    ensures var row := Runs.Run(Next, Fresh(run), steps).value.log[i];
      exists k :: 0 <= k < |steps| && steps[k].Arrive?
        && row == Row(i + 1, steps[k].writer.content, KeyOf(steps[k].writer), OriginOf(steps[k].writer))
  {
    var along := (done: seq<Step>, s: State) => AllCame(run, done, s);
    forall done, s, e | along(done, s) && Next(s, e).Some? ensures along(done + [e], Next(s, e).value) {
      StepKeepsCame(run, done, s, e);
    }
    Runs.KeptAlong(Next, along, Fresh(run), steps);
    VersionsAreGapless(run, steps);
    assert RowCame(steps, Runs.Run(Next, Fresh(run), steps).value.log[i]);
  }

  /** After any run, the plain call gives up for the race only when three versions were
      committed while it was trying. */
  lemma {:induction false} GivesUpOnlyWhenOvertaken(run: RunRow, steps: seq<Step>, t: nat)
    requires Runs.Run(Next, Fresh(run), steps).Some?
    requires var s := Runs.Run(Next, Fresh(run), steps).value;
      Next(s, Place(t)).Some? && s.txs[t].writer.Plain? && t !in Next(s, Place(t)).value.txs
    ensures var s := Runs.Run(Next, Fresh(run), steps).value; s.txs[t].seen + 3 <= |s.log|
  {
    InvAlways(run, steps);
    var s := Runs.Run(Next, Fresh(run), steps).value;
    PlacedFollows(s, t);
    assert TxOk(s, t, s.txs[t]);
  }

  /** After any run, a keyed call that finds its key taken is answered with the key's version
      exactly when its content is plain and is stored like the key's; otherwise it is told of a
      conflict. Nothing else changes. */
  lemma {:induction false} KeyedLooksExactly(run: RunRow, steps: seq<Step>, t: nat, i: nat)
    requires Runs.Run(Next, Fresh(run), steps).Some?
    requires var s := Runs.Run(Next, Fresh(run), steps).value;
      && t in s.txs && s.txs[t].writer.Keyed? && s.txs[t].phase.Locked?
      && i < |s.log| && s.log[i].key == Some(s.txs[t].writer.key)
    ensures var s := Runs.Run(Next, Fresh(run), steps).value;
      var w, row := s.txs[t].writer, s.log[i];
      var answered := Jsonb.Plain(w.content) && Jsonb.Stored(row.sent) == Jsonb.Stored(w.content);
      Next(s, Look(t)) ==
        Some(Ended(s, t).(replies := s.replies + [if answered then Answered(w.key, i + 1) else Conflict(w.key)]))
  {
    InvAlways(run, steps);
    var s := Runs.Run(Next, Fresh(run), steps).value;
    var w, row := s.txs[t].writer, s.log[i];
    FindCarrier(s.log, w.key, i);
    Jsonb.StoredExactly(w.content);
    Jsonb.StoredIsPlain(row.sent);
  }

  /** So a keyed call that repeats the content its key was stored with is answered if and only
      if no number in that content has an exponent or is a negative zero. */
  lemma {:induction false} KeyedReplaysExactly(run: RunRow, steps: seq<Step>, t: nat, i: nat)
    requires Runs.Run(Next, Fresh(run), steps).Some?
    requires var s := Runs.Run(Next, Fresh(run), steps).value;
      && t in s.txs && s.txs[t].writer.Keyed? && s.txs[t].phase.Locked?
      && i < |s.log| && s.log[i].key == Some(s.txs[t].writer.key) && s.log[i].sent == s.txs[t].writer.content
    ensures var s := Runs.Run(Next, Fresh(run), steps).value;
      var w := s.txs[t].writer;
      && Next(s, Look(t)).Some?
      && Next(s, Look(t)).value.replies ==
           s.replies + [if Jsonb.Plain(w.content) then Answered(w.key, i + 1) else Conflict(w.key)]
  {
    KeyedLooksExactly(run, steps, t, i);
  }

  /** A draft whose key is taken is answered with the key's version exactly when the contents
      are equal as jsonb values, so a draft that repeats its content always is. */
  lemma {:induction false} DraftReplaysExactly(run: RunRow, steps: seq<Step>, t: nat, i: nat)
    requires Runs.Run(Next, Fresh(run), steps).Some?
    requires var s := Runs.Run(Next, Fresh(run), steps).value;
      && t in s.txs && s.txs[t].writer.Draft? && (s.txs[t].phase.Arrived? || s.txs[t].phase.Locked?)
      && i < |s.log| && s.log[i].key == Some(s.txs[t].writer.key)
    ensures var s := Runs.Run(Next, Fresh(run), steps).value;
      var w, row := s.txs[t].writer, s.log[i];
      && Next(s, Look(t)) == Some(Ended(s, t).(replies := s.replies +
           [if Jsonb.Equal(row.sent, w.content) then Answered(w.key, i + 1) else Conflict(w.key)]))
      && (row.sent == w.content ==> Jsonb.Equal(row.sent, w.content))
  {
    InvAlways(run, steps);
    var s := Runs.Run(Next, Fresh(run), steps).value;
    var w, row := s.txs[t].writer, s.log[i];
    FindCarrier(s.log, w.key, i);
    Jsonb.StoredKeepsValue(row.sent, w.content);
    Jsonb.EqualReflexive(w.content);
  }

  lemma Go(start: State, steps: seq<Step>, s: State, e: Step) returns (longer: seq<Step>, n: State)
    requires Runs.Run(Next, start, steps) == Some(s) && Next(s, e).Some?
    ensures Runs.Run(Next, start, longer) == Some(n) && Next(s, e) == Some(n) && longer == steps + [e]
  {
    longer, n := steps + [e], Next(s, e).value;
    Runs.Extend(Next, start, steps, e);
  }

  /** A keyed call that has looked for its key in vain. */
  lemma {:induction false} LooksAlone(run: RunRow, key: string, content: Content) returns (steps: seq<Step>, s: State)
    ensures Runs.Run(Next, Fresh(run), steps) == Some(s)
    ensures s == Fresh(run).(advisory := Some(0), txs := map[0 := Tx(Keyed(key, content), Absent, None, 0, 0)])
  {
    steps, s := Go(Fresh(run), [], Fresh(run), Arrive(0, Keyed(key, content)));
    steps, s := Go(Fresh(run), steps, s, Lock(0));
    steps, s := Go(Fresh(run), steps, s, Look(0));
  }

  lemma {:induction false} NumbersAlone(run: RunRow, key: string, content: Content) returns (steps: seq<Step>, s: State)
    ensures Runs.Run(Next, Fresh(run), steps) == Some(s)
    ensures s == Fresh(run).(advisory := Some(0), txs := map[0 := Tx(Keyed(key, content), Numbered(1), None, 0, 0)])
  {
    steps, s := LooksAlone(run, key, content);
    assert MaxVersion(s.log) == 0;
    steps, s := Go(Fresh(run), steps, s, Allocate(0));
  }

  /** The only writer, with a version and nothing stored yet, gets its row placed. */
  lemma {:induction false} FirstPlaces(s: State, w: Writer)
    requires s.log == [] && s.txs == map[0 := Tx(w, Numbered(1), None, 0, 0)]
    ensures Next(s, Place(0)) == Some(s.(txs := map[0 := Tx(w, Placed(Row(1, w.content, KeyOf(w), ByStore)), None, 0, 0)]))
  {
    assert !Waits(s, 0, 1, KeyOf(w)) && !ClashesLog(s.log, 1, KeyOf(w));
    var moved := Moved(s, 0, Placed(Row(1, w.content, KeyOf(w), ByStore)));
    assert moved.txs == map[0 := Tx(w, Placed(Row(1, w.content, KeyOf(w), ByStore)), None, 0, 0)];
  }

  lemma {:induction false} FirstCommits(s: State, key: string, row: Row)
    requires s.log == [] && s.advisory == Some(0) && s.rowLock == None && s.replies == [] && row.origin == ByStore && row.version == 1
    requires s.txs == map[0 := Tx(Keyed(key, row.sent), Placed(row), None, 0, 0)]
    ensures Next(s, Commit(0)) == Some(State(s.run, None, None, [row], map[], [Answered(key, 1)]))
  {
    assert s.txs - {0} == map[] && row.(origin := ByStore) == row;
    assert s.log + [row] == [row] && s.replies + [Answered(key, 1)] == [Answered(key, 1)];
  }

  lemma {:induction false} PlacesAlone(run: RunRow, key: string, content: Content) returns (steps: seq<Step>, s: State)
    ensures Runs.Run(Next, Fresh(run), steps) == Some(s)
    ensures s == Fresh(run).(advisory := Some(0), txs := map[0 := Tx(Keyed(key, content), Placed(Row(1, content, Some(key), ByStore)), None, 0, 0)])
  {
    steps, s := NumbersAlone(run, key, content);
    FirstPlaces(s, Keyed(key, content));
    steps, s := Go(Fresh(run), steps, s, Place(0));
  }

  lemma {:induction false} StoresAlone(run: RunRow, key: string, content: Content) returns (steps: seq<Step>, s: State)
    ensures Runs.Run(Next, Fresh(run), steps) == Some(s)
    ensures s == Fresh(run).(log := [Row(1, content, Some(key), ByStore)], replies := [Answered(key, 1)])
  {
    steps, s := PlacesAlone(run, key, content);
    FirstCommits(s, key, Row(1, content, Some(key), ByStore));
    steps, s := Go(Fresh(run), steps, s, Commit(0));
  }

  /** A keyed store, and then the same call again. */
  lemma {:induction false} StoresTwice(run: RunRow, key: string, content: Content) returns (steps: seq<Step>, s: State)
    ensures Runs.Run(Next, Fresh(run), steps) == Some(s)
    ensures s.replies == [Answered(key, 1), if Jsonb.Plain(content) then Answered(key, 1) else Conflict(key)]
    ensures s.log == [Row(1, content, Some(key), ByStore)]
  {
    steps, s := StoresAlone(run, key, content);
    steps, s := Go(Fresh(run), steps, s, Arrive(1, Keyed(key, content)));
    steps, s := Go(Fresh(run), steps, s, Lock(1));
    KeyedReplaysExactly(run, steps, 1, 0);
    steps, s := Go(Fresh(run), steps, s, Look(1));
  }

  /** A draft that has been looked up, validated, and looked up again under the lock. */
  lemma {:induction false} DraftsAlone(v: nat, key: string, content: Content) returns (steps: seq<Step>, s: State)
    ensures Runs.Run(Next, Fresh(RunRow(true, v)), steps) == Some(s)
    ensures s == Fresh(RunRow(true, v)).(rowLock := Some(0), txs := map[0 := Tx(Draft(key, content, v), Absent, Some(v), 0, 0)])
  {
    var run := RunRow(true, v);
    steps, s := Go(Fresh(run), [], Fresh(run), Arrive(0, Draft(key, content, v)));
    steps, s := Go(Fresh(run), steps, s, Look(0));
    steps, s := Go(Fresh(run), steps, s, Validate(0));
    steps, s := Go(Fresh(run), steps, s, Lock(0));
    steps, s := Go(Fresh(run), steps, s, Look(0));
  }

  lemma {:induction false} DraftStores(v: nat, key: string, content: Content) returns (steps: seq<Step>, s: State)
    ensures Runs.Run(Next, Fresh(RunRow(true, v)), steps) == Some(s)
    ensures s.replies == [Answered(key, 1)] && 1 !in s.txs
    ensures s.log == [Row(1, content, Some(key), ByDraft(v, Some(v), RunRow(true, v)))]
  {
    var run := RunRow(true, v);
    steps, s := DraftsAlone(v, key, content);
    steps, s := Go(Fresh(run), steps, s, Allocate(0));
    steps, s := Go(Fresh(run), steps, s, Place(0));
    CommitsAppend(run, steps, Commit(0));
    steps, s := Go(Fresh(run), steps, s, Commit(0));
  }

  /** A stored draft, repeated: both calls are answered with the one version it got. */
  lemma {:induction false} DraftsTwice(v: nat, key: string, content: Content) returns (steps: seq<Step>, s: State)
    ensures Runs.Run(Next, Fresh(RunRow(true, v)), steps) == Some(s)
    ensures s.replies == [Answered(key, 1), Answered(key, 1)]
    ensures s.log == [Row(1, content, Some(key), ByDraft(v, Some(v), RunRow(true, v)))]
  {
    var run := RunRow(true, v);
    steps, s := DraftStores(v, key, content);
    steps, s := Go(Fresh(run), steps, s, Arrive(1, Draft(key, content, v)));
    DraftReplaysExactly(run, steps, 1, 0);
    steps, s := Go(Fresh(run), steps, s, Look(1));
  }

  /** A plain store, repeated: two versions of the same content. */
  lemma {:induction false} PlainStoresTwice(run: RunRow, content: Content) returns (steps: seq<Step>, s: State)
    ensures Runs.Run(Next, Fresh(run), steps) == Some(s)
    ensures s.log == [Row(1, content, None, ByStore), Row(2, content, None, ByStore)] && s.replies == []
  {
    steps, s := Go(Fresh(run), [], Fresh(run), Arrive(0, Plain(content)));
    steps, s := PlainStore(run, steps, s, 0);
    steps, s := Go(Fresh(run), steps, s, Arrive(1, Plain(content)));
    steps, s := PlainStore(run, steps, s, 1);
  }

  lemma {:induction false} PlainStore(run: RunRow, steps: seq<Step>, s: State, t: nat) returns (longer: seq<Step>, n: State)
    requires Runs.Run(Next, Fresh(run), steps) == Some(s)
    requires t in s.txs && s.txs[t].writer.Plain? && s.txs[t].phase.Arrived? && forall o | o in s.txs :: o == t
    ensures Runs.Run(Next, Fresh(run), longer) == Some(n)
    ensures n.log == s.log + [Row(|s.log| + 1, s.txs[t].writer.content, None, ByStore)] && n.replies == s.replies && n.txs == map[]
  {
    InvAlways(run, steps);
    MaxIsLength(s.log);
    longer, n := Go(Fresh(run), steps, s, Allocate(t));
    assert !ClashesLog(n.log, n.txs[t].phase.version, None);
    longer, n := Go(Fresh(run), longer, n, Place(t));
    CommitsAppend(run, longer, Commit(t));
    longer, n := Go(Fresh(run), longer, n, Commit(t));
    assert n.txs == map[];
  }

  /** The number 1e2 is stored as 100, and the repeated call is refused. */
  lemma {:induction false} ExponentReplayRefused(run: RunRow, key: string) returns (steps: seq<Step>, s: State)
    ensures Jsonb.Valid(Number("1e2")) && Jsonb.Stored(Number("1e2")) == Number("100")
    ensures Runs.Run(Next, Fresh(run), steps) == Some(s) && s.replies == [Answered(key, 1), Conflict(key)]
    ensures s.log == [Row(1, Number("1e2"), Some(key), ByStore)]
  {
    Jsonb.ExponentExample();
    steps, s := StoresTwice(run, key, Number("1e2"));
  }
}