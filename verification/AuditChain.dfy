/** The audit log's hash chain (backend/cmd/workspace-service/audit.go and the writers of
    the other services) as transactions that may commit or roll back at any step. SHA-256
    is a parameter. */
module AuditChain {
  import opened Outcomes
  import opened AuditForms
  import opened Sorting
  import Runs

  datatype Event = Event(seqno: nat, previous: Option<Hash>, content: Content, hash: Hash)

  /** How the hash of an event comes from its predecessor's hash and its content. */
  type Seal = (Option<Hash>, Content) -> Hash

  function Sealing(digest: string -> Hash): Seal {
    (previous, content) => digest(Preimage(previous, content))
  }

  /** A transaction between appends, holding the chain lock, or knowing the tail. */
  datatype Phase = Idle | Locked | Read(tail: Option<Hash>)

  datatype Tx = Tx(phase: Phase, rows: seq<Event>)

  /** Committed events in commit order, the identity counter, the holder of the advisory
      lock, and the open transactions. */
  datatype State = State(log: seq<Event>, counter: nat, holder: Option<nat>, txs: map<nat, Tx>)

  datatype Step =
    | Begin(t: nat)
    | Acquire(t: nat)
    | ReadTail(t: nat)
    | Insert(t: nat, content: Content)
    | BurnNumber
    | Commit(t: nat)
    | Rollback(t: nat)

  function Visible(s: State, t: nat): seq<Event>
    requires t in s.txs
  {
    s.log + s.txs[t].rows
  }

  /** ORDER BY seq DESC LIMIT 1. */
  function Newest(events: seq<Event>): Option<Event> {
    if events == [] then None
    else
      var last, best := events[|events| - 1], Newest(events[..|events| - 1]);
      if best.Some? && best.value.seqno > last.seqno then best else Some(last)
  }

  function TailHash(events: seq<Event>): Option<Hash> {
    var e := Newest(events);
    if e.None? then None else Some(e.value.hash)
  }

  predicate Unused(hash: Hash, events: seq<Event>) {
    forall i | 0 <= i < |events| :: events[i].hash != hash
  }

  function Next(seal: Seal, s: State, e: Step): Option<State> {
    match e
    case Begin(t) => if t in s.txs then None else Some(s.(txs := s.txs[t := Tx(Idle, [])]))
    case Acquire(t) =>
      if t in s.txs && s.txs[t].phase.Idle? && (s.holder.None? || s.holder == Some(t))
      then Some(s.(holder := Some(t), txs := s.txs[t := s.txs[t].(phase := Locked)])) else None
    case ReadTail(t) =>
      if t in s.txs && s.txs[t].phase.Locked?
      then Some(s.(txs := s.txs[t := s.txs[t].(phase := Read(TailHash(Visible(s, t))))])) else None
    case Insert(t, content) =>
      if t !in s.txs || !s.txs[t].phase.Read? then None
      else
        var tx := s.txs[t];
        var row := Event(s.counter, tx.phase.tail, content, seal(tx.phase.tail, content));
        if Unused(row.hash, Visible(s, t))
        then Some(s.(counter := s.counter + 1, txs := s.txs[t := Tx(Idle, tx.rows + [row])])) else None
    case BurnNumber => Some(s.(counter := s.counter + 1))
    case Commit(t) =>
      if t in s.txs then Some(Ended(s, t).(log := s.log + s.txs[t].rows)) else None
    case Rollback(t) => if t in s.txs then Some(Ended(s, t)) else None
  }

  function Ended(s: State, t: nat): State {
    s.(holder := if s.holder == Some(t) then None else s.holder, txs := s.txs - {t})
  }

  const EMPTY := State([], 0, None, map[])

  /** Event `i` points at its predecessor and carries the hash of the two. */
  predicate Linked(seal: Seal, events: seq<Event>, i: nat)
    requires i < |events|
  {
    && events[i].previous == (if i == 0 then None else Some(events[i - 1].hash))
    && events[i].hash == seal(events[i].previous, events[i].content)
  }

  /** One unforked chain in order of the sequence numbers. */
  ghost predicate Chain(seal: Seal, events: seq<Event>) {
    && (forall i | 0 <= i < |events| :: Linked(seal, events, i))
    && (forall i, j | 0 <= i < j < |events| :: events[i].seqno < events[j].seqno)
    && (forall i, j | 0 <= i < j < |events| :: events[i].hash != events[j].hash)
  }

  /** A chain whose numbers have all been handed out. */
  ghost predicate Sound(seal: Seal, events: seq<Event>, counter: nat) {
    Chain(seal, events) && forall i | 0 <= i < |events| :: events[i].seqno < counter
  }

  function LastHash(events: seq<Event>): Option<Hash> {
    if events == [] then None else Some(events[|events| - 1].hash)
  }

  /** The lock holder's own rows continue the chain, and a tail it has read is the tail. */
  ghost predicate HolderOk(seal: Seal, seen: seq<Event>, counter: nat, phase: Phase) {
    Sound(seal, seen, counter) && (phase.Read? ==> phase.tail == LastHash(seen))
  }

  ghost predicate Inv(seal: Seal, s: State) {
    && Sound(seal, s.log, s.counter)
    && (forall t | t in s.txs && s.holder != Some(t) :: s.txs[t] == Tx(Idle, []))
    && (s.holder.Some? ==> s.holder.value in s.txs && HolderOk(seal, Visible(s, s.holder.value), s.counter, s.txs[s.holder.value].phase))
  }

  /** In a chain the newest event is the last one. */
  lemma {:induction false} NewestIsLast(events: seq<Event>)
    requires forall i, j | 0 <= i < j < |events| :: events[i].seqno < events[j].seqno
    ensures TailHash(events) == LastHash(events)
    ensures Newest(events) == if events == [] then None else Some(events[|events| - 1])
  {
    if events != [] {
      NewestIsLast(events[..|events| - 1]);
    }
  }

  lemma {:induction false} ChainGrows(seal: Seal, events: seq<Event>, row: Event)
    requires Sound(seal, events, row.seqno) && Unused(row.hash, events)
    requires row.previous == LastHash(events) && row.hash == seal(row.previous, row.content)
    ensures Sound(seal, events + [row], row.seqno + 1)
  {
    var all := events + [row];
    forall i | 0 <= i < |all| ensures Linked(seal, all, i) {
      if i < |events| {
        assert Linked(seal, events, i);
      }
    }
  }

  lemma {:induction false} InsertKeepsInv(seal: Seal, s: State, e: Step)
    requires Inv(seal, s) && e.Insert? && Next(seal, s, e).Some?
    ensures Inv(seal, Next(seal, s, e).value)
  {
    var n, t := Next(seal, s, e).value, e.t;
    assert s.holder == Some(t);
    var tail := s.txs[t].phase.tail;
    var row := Event(s.counter, tail, e.content, seal(tail, e.content));
    ChainGrows(seal, Visible(s, t), row);
    assert Visible(n, t) == Visible(s, t) + [row];
  }

  lemma {:induction false} AcquireKeepsInv(seal: Seal, s: State, e: Step)
    requires Inv(seal, s) && e.Acquire? && Next(seal, s, e).Some?
    ensures Inv(seal, Next(seal, s, e).value)
  {
    var n, t := Next(seal, s, e).value, e.t;
    assert Visible(n, t) == Visible(s, t);
    assert s.holder != Some(t) ==> Visible(s, t) == s.log;
  }

  lemma {:induction false} ReadKeepsInv(seal: Seal, s: State, e: Step)
    requires Inv(seal, s) && e.ReadTail? && Next(seal, s, e).Some?
    ensures Inv(seal, Next(seal, s, e).value)
  {
    var n, t := Next(seal, s, e).value, e.t;
    assert s.holder == Some(t) && Visible(n, t) == Visible(s, t);
    NewestIsLast(Visible(s, t));
  }

  lemma {:induction false} CommitKeepsInv(seal: Seal, s: State, t: nat)
    requires Inv(seal, s) && t in s.txs
    ensures Inv(seal, Next(seal, s, Commit(t)).value)
    ensures s.log <= Next(seal, s, Commit(t)).value.log
  {
    var n := Next(seal, s, Commit(t)).value;
    if s.holder == Some(t) {
      assert n.log == Visible(s, t);
    } else {
      assert s.txs[t].rows == [] && n.log == s.log;
      OthersKeep(seal, s, n);
    }
  }

  /** A transaction that appends nothing comes, goes, or wastes a number. */
  lemma {:induction false} OthersKeep(seal: Seal, s: State, n: State)
    requires Inv(seal, s) && n.log == s.log && n.counter >= s.counter
    requires forall t | t in n.txs && n.holder != Some(t) :: n.txs[t] == Tx(Idle, [])
    requires n.holder.Some? ==> n.holder == s.holder && n.holder.value in n.txs && n.txs[n.holder.value] == s.txs[n.holder.value]
    ensures Inv(seal, n)
  {
    if n.holder.Some? {
      assert Visible(n, n.holder.value) == Visible(s, n.holder.value);
    }
  }

  lemma {:induction false} StepKeepsInv(seal: Seal, s: State, e: Step)
    requires Inv(seal, s) && Next(seal, s, e).Some?
    ensures Inv(seal, Next(seal, s, e).value)
    ensures s.log <= Next(seal, s, e).value.log
  {
    match e
    case Insert(_, _) => InsertKeepsInv(seal, s, e);
    case Acquire(_) => AcquireKeepsInv(seal, s, e);
    case ReadTail(_) => ReadKeepsInv(seal, s, e);
    case Commit(t) => CommitKeepsInv(seal, s, t);
    case _ => OthersKeep(seal, s, Next(seal, s, e).value);
  }

  /** Whatever the transactions do, the committed events form one chain: the first has no
      predecessor, every other carries the hash of the one committed before it, numbers
      grow, and no two events share a predecessor. */
  lemma {:induction false} CommittedEventsChain(seal: Seal, steps: seq<Step>)
    requires Runs.Run((s, e) => Next(seal, s, e), EMPTY, steps).Some?
    ensures var log := Runs.Run((s, e) => Next(seal, s, e), EMPTY, steps).value.log;
      && Chain(seal, log)
      && forall i, j | 0 <= i < j < |log| :: log[i].previous != log[j].previous
  {
    var next, inv := (s, e) => Next(seal, s, e), s => Inv(seal, s);
    forall s, e | inv(s) && next(s, e).Some? ensures inv(next(s, e).value) {
      StepKeepsInv(seal, s, e);
    }
    Runs.Kept(next, inv, EMPTY, steps);
    var log := Runs.Run(next, EMPTY, steps).value.log;
    forall i, j | 0 <= i < j < |log| ensures log[i].previous != log[j].previous {
      assert Linked(seal, log, i) && Linked(seal, log, j);
    }
  }

  /** A committed event is never changed or moved by a later step. */
  lemma {:induction false} LogOnlyGrows(seal: Seal, s: State, steps: seq<Step>)
    requires Inv(seal, s) && Runs.Run((x, e) => Next(seal, x, e), s, steps).Some?
    ensures s.log <= Runs.Run((x, e) => Next(seal, x, e), s, steps).value.log
  {
    var next, inv := (x, e) => Next(seal, x, e), x => Inv(seal, x) && s.log <= x.log;
    forall x, e | inv(x) && next(x, e).Some? ensures inv(next(x, e).value) {
      StepKeepsInv(seal, x, e);
    }
    Runs.Kept(next, inv, s, steps);
  }

  /** What the steps alone say: the contents each open transaction has inserted, and those of
      the transactions that committed, in commit order. */
  datatype Book = Book(open: map<nat, seq<Content>>, done: seq<Content>)

  function Booked(b: Book, e: Step): Book {
    match e
    case Begin(t) => b.(open := b.open[t := []])
    case Insert(t, content) => if t in b.open then b.(open := b.open[t := b.open[t] + [content]]) else b
    case Commit(t) => if t in b.open then Book(b.open - {t}, b.done + b.open[t]) else b
    case Rollback(t) => b.(open := b.open - {t})
    case _ => b
  }

  function Books(steps: seq<Step>): Book {
    if steps == [] then Book(map[], []) else Booked(Books(steps[..|steps| - 1]), steps[|steps| - 1])
  }

  function ContentOf(e: Event): Content {
    e.content
  }

  ghost predicate Matches(b: Book, s: State) {
    && Map(ContentOf, s.log) == b.done && b.open.Keys == s.txs.Keys
    && forall t | t in s.txs :: Map(ContentOf, s.txs[t].rows) == b.open[t]
  }

  lemma {:induction false} StepKeepsBook(seal: Seal, b: Book, s: State, e: Step)
    requires Matches(b, s) && Next(seal, s, e).Some?
    ensures Matches(Booked(b, e), Next(seal, s, e).value)
  {
    match e
    case Insert(t, content) =>
      var tx := s.txs[t];
      var row := Event(s.counter, tx.phase.tail, content, seal(tx.phase.tail, content));
      MapSplit(ContentOf, tx.rows, [row]);
      assert Map(ContentOf, [row]) == [content];
    case Commit(t) =>
      MapSplit(ContentOf, s.log, s.txs[t].rows);
    case _ =>
  }

  /** Over every run the log holds the contents that committed transactions inserted, in commit
      order and within one transaction in the order it inserted them, and nothing else. */
  lemma {:induction false} LogIsWhatCommitted(seal: Seal, steps: seq<Step>)
    requires Runs.Run((s, e) => Next(seal, s, e), EMPTY, steps).Some?
    ensures var s := Runs.Run((s, e) => Next(seal, s, e), EMPTY, steps).value;
      && Map(ContentOf, s.log) == Books(steps).done
      && forall t | t in s.txs :: t in Books(steps).open && Map(ContentOf, s.txs[t].rows) == Books(steps).open[t]
  {
    var next, along := (s, e) => Next(seal, s, e), (done: seq<Step>, s: State) => Matches(Books(done), s);
    forall done, s, e | along(done, s) && next(s, e).Some? ensures along(done + [e], next(s, e).value) {
      assert Matches(Books(done), s) && Next(seal, s, e) == next(s, e);
      StepKeepsBook(seal, Books(done), s, e);
      assert (done + [e])[..|done|] == done && (done + [e])[|done|] == e;
      assert Matches(Books(done + [e]), Next(seal, s, e).value);
    }
    Runs.KeptAlong(next, along, EMPTY, steps);
  }

  /** After any run, a commit extends the log by exactly what its transaction inserted since it
      began; no other step changes the log. */
  lemma {:induction false} CommitsExtend(seal: Seal, steps: seq<Step>, e: Step)
    requires Runs.Run((s, e) => Next(seal, s, e), EMPTY, steps).Some?
    requires Next(seal, Runs.Run((s, e) => Next(seal, s, e), EMPTY, steps).value, e).Some?
    ensures var s := Runs.Run((s, e) => Next(seal, s, e), EMPTY, steps).value;
      var n := Next(seal, s, e).value;
      && s.log <= n.log
      && (e.Commit? ==> e.t in Books(steps).open && Map(ContentOf, n.log) == Map(ContentOf, s.log) + Books(steps).open[e.t])
      && (!e.Commit? ==> n.log == s.log)
  {
    LogIsWhatCommitted(seal, steps);
    var s := Runs.Run((s, e) => Next(seal, s, e), EMPTY, steps).value;
    if e.Commit? {
      MapSplit(ContentOf, s.log, s.txs[e.t].rows);
    }
  }

  lemma Go(seal: Seal, steps: seq<Step>, s: State, e: Step) returns (longer: seq<Step>, n: State)
    requires Runs.Run((x, e) => Next(seal, x, e), EMPTY, steps) == Some(s) && Next(seal, s, e).Some?
    ensures longer == steps + [e] && Next(seal, s, e) == Some(n)
    ensures Runs.Run((x, e) => Next(seal, x, e), EMPTY, longer) == Some(n)
  {
    longer, n := steps + [e], Next(seal, s, e).value;
    Runs.Extend((x, e) => Next(seal, x, e), EMPTY, steps, e);
  }

  /** One append to the empty log, for any content: the event is there, without predecessor,
      under the seal of just that. */
  lemma {:induction false} AppendsAlone(seal: Seal, c: Content) returns (steps: seq<Step>, s: State)
    ensures steps == [Begin(0), Acquire(0), ReadTail(0), Insert(0, c), Commit(0)]
    ensures Runs.Run((x, e) => Next(seal, x, e), EMPTY, steps) == Some(s)
    ensures s.log == [Event(0, None, c, seal(None, c))] && s.holder == None && s.txs == map[]
  {
    steps, s := Go(seal, [], EMPTY, Begin(0));
    steps, s := Go(seal, steps, s, Acquire(0));
    steps, s := Go(seal, steps, s, ReadTail(0));
    steps, s := Go(seal, steps, s, Insert(0, c));
    steps, s := Go(seal, steps, s, Commit(0));
  }

  /** Two different texts with one digest. */
  predicate Collide(digest: string -> Hash, x: string, y: string) {
    x != y && digest(x) == digest(y)
  }

  function SealedText(e: Event): string {
    Preimage(e.previous, e.content)
  }

  /** The contents cannot be told apart by what their form hashes. */
  predicate Alike(c: Content, d: Content) {
    c.form == d.form && Hashed(c) == Hashed(d)
  }

  /** Event by event, the same predecessor, the same form, and the same hashed fields. */
  ghost predicate SealedAlike(a: seq<Event>, b: seq<Event>) {
    |a| == |b| && forall i | 0 <= i < |a| :: a[i].previous == b[i].previous && Alike(a[i].content, b[i].content)
  }

  ghost predicate AllWritten(events: seq<Event>) {
    forall i | 0 <= i < |events| :: Written(events[i].content)
  }

  ghost predicate Digests(digest: string -> Hash) {
    forall x :: HashText(digest(x))
  }

  /** Predecessors in a chain are hash texts. */
  lemma {:induction false} PreviousIsHash(digest: string -> Hash, events: seq<Event>, i: nat)
    requires Digests(digest) && Chain(Sealing(digest), events) && i < |events|
    ensures IsPrevious(events[i].previous) && events[i].hash == digest(SealedText(events[i]))
  {
    assert Linked(Sealing(digest), events, i);
    if i > 0 {
      assert Linked(Sealing(digest), events, i - 1);
      assert HashText(digest(SealedText(events[i - 1])));
    }
  }

  predicate PointsBack(events: seq<Event>, i: nat)
    requires i < |events|
  {
    events[i].previous == if i == 0 then None else Some(events[i - 1].hash)
  }

  ghost predicate LinkedBack(events: seq<Event>) {
    forall i | 0 <= i < |events| :: PointsBack(events, i)
  }

  ghost predicate Digested(digest: string -> Hash, text: Event -> string, events: seq<Event>) {
    forall i | 0 <= i < |events| :: events[i].hash == digest(text(events[i]))
  }

  ghost predicate Collided(digest: string -> Hash, text: Event -> string, a: seq<Event>, b: seq<Event>) {
    exists i, j :: 0 <= i < |a| && 0 <= j < |b| && Collide(digest, text(a[i]), text(b[j]))
  }

  /** Texts are shared exactly by events that are alike. */
  ghost predicate Tells(text: Event -> string, alike: (Event, Event) -> bool, a: seq<Event>, b: seq<Event>) {
    && (forall i, j | 0 <= i < |a| && 0 <= j < |b| :: text(a[i]) == text(b[j]) <==> alike(a[i], b[j]))
    && (forall i, j | 0 <= i < |a| && 0 <= j < |b| && alike(a[i], b[j]) :: a[i].previous == b[j].previous)
  }

  /** Whatever is hashed, one last hash carries what the texts tell back to the first event. */
  lemma {:induction false} EndsAlike(digest: string -> Hash, text: Event -> string, alike: (Event, Event) -> bool,
                                     a: seq<Event>, b: seq<Event>)
    requires a != [] && b != [] && LinkedBack(a) && LinkedBack(b) && Tells(text, alike, a, b)
    requires Digested(digest, text, a) && Digested(digest, text, b)
    requires a[|a| - 1].hash == b[|b| - 1].hash && !Collided(digest, text, a, b)
    ensures |a| == |b| && forall i | 0 <= i < |a| :: alike(a[i], b[i])
  {
    var m, n := |a| - 1, |b| - 1;
    assert !Collide(digest, text(a[m]), text(b[n]));
    assert alike(a[m], b[n]) && a[m].previous == b[n].previous;
    assert PointsBack(a, m) && PointsBack(b, n);
    if m > 0 {
      var x, y := a[..m], b[..n];
      LinkedPrefix(a, m);
      LinkedPrefix(b, n);
      EndsAlike(digest, text, alike, x, y);
      forall i | 0 <= i < |a| ensures alike(a[i], b[i]) {
        if i < m {
          assert alike(x[i], y[i]);
        }
      }
    }
  }

  lemma LinkedPrefix(events: seq<Event>, n: nat)
    requires LinkedBack(events) && 0 < n < |events|
    ensures LinkedBack(events[..n]) && events[n].previous == Some(events[..n][n - 1].hash)
  {
    forall i | 0 <= i < n ensures PointsBack(events[..n], i) {
      assert PointsBack(events, i);
    }
    assert PointsBack(events, n);
  }

  predicate EventsAlike(x: Event, y: Event) {
    x.previous == y.previous && Alike(x.content, y.content)
  }

  lemma {:induction false} WrittenTexts(digest: string -> Hash, a: seq<Event>, b: seq<Event>)
    requires Digests(digest) && Chain(Sealing(digest), a) && Chain(Sealing(digest), b)
    requires AllWritten(a) && AllWritten(b)
    ensures Tells(SealedText, EventsAlike, a, b)
  {
    forall i, j | 0 <= i < |a| && 0 <= j < |b| ensures SealedText(a[i]) == SealedText(b[j]) <==> EventsAlike(a[i], b[j]) {
      PreviousIsHash(digest, a, i);
      PreviousIsHash(digest, b, j);
      PreimagesAlikeExactly(a[i].previous, a[i].content, b[j].previous, b[j].content);
    }
  }

  lemma {:induction false} ChainLinks(digest: string -> Hash, events: seq<Event>)
    requires Chain(Sealing(digest), events)
    ensures LinkedBack(events) && Digested(digest, SealedText, events)
  {
    forall i | 0 <= i < |events|
      ensures PointsBack(events, i)
      ensures events[i].hash == digest(SealedText(events[i]))
    {
      assert Linked(Sealing(digest), events, i);
    }
  }

  /** The last hash vouches, event by event, for what each event's form hashes, and for nothing
      else: two chains end in one hash exactly when they are sealed alike, unless two of
      their texts collide. */
  lemma {:induction false} TailVouchesForHashed(digest: string -> Hash, a: seq<Event>, b: seq<Event>)
    requires Digests(digest) && Chain(Sealing(digest), a) && Chain(Sealing(digest), b) && a != [] && b != []
    requires AllWritten(a) && AllWritten(b)
    ensures SealedAlike(a, b) ==> a[|a| - 1].hash == b[|b| - 1].hash
    ensures a[|a| - 1].hash == b[|b| - 1].hash ==> SealedAlike(a, b) || Collided(digest, SealedText, a, b)
  {
    WrittenTexts(digest, a, b);
    ChainLinks(digest, a);
    ChainLinks(digest, b);
    EndAlikeExactly(digest, a, b);
  }

  lemma {:induction false} EndAlikeExactly(digest: string -> Hash, a: seq<Event>, b: seq<Event>)
    requires a != [] && b != [] && LinkedBack(a) && LinkedBack(b) && Tells(SealedText, EventsAlike, a, b)
    requires Digested(digest, SealedText, a) && Digested(digest, SealedText, b)
    ensures SealedAlike(a, b) ==> a[|a| - 1].hash == b[|b| - 1].hash
    ensures a[|a| - 1].hash == b[|b| - 1].hash ==> SealedAlike(a, b) || Collided(digest, SealedText, a, b)
  {
    if a[|a| - 1].hash == b[|b| - 1].hash && !Collided(digest, SealedText, a, b) {
      EndsAlike(digest, SealedText, EventsAlike, a, b);
      assert forall i | 0 <= i < |a| :: EventsAlike(a[i], b[i]);
    }
    if SealedAlike(a, b) {
      assert EventsAlike(a[|a| - 1], b[|b| - 1]);
    }
  }

  /** Changing the content of a committed event in place leaves a chain exactly when the change
      keeps the form and the fields it hashes, or hits a collision. */
  lemma {:induction false} ChangesShowExactly(digest: string -> Hash, events: seq<Event>, i: nat, d: Content)
    requires Digests(digest) && Chain(Sealing(digest), events) && i < |events|
    requires Written(events[i].content) && Written(d)
    ensures var changed := events[i].(content := d);
      Chain(Sealing(digest), events[i := changed]) <==>
        Alike(events[i].content, d) || Collide(digest, SealedText(events[i]), SealedText(changed))
  {
    var changed := events[i].(content := d);
    var others := events[i := changed];
    PreviousIsHash(digest, events, i);
    PreimagesAlikeExactly(events[i].previous, events[i].content, events[i].previous, d);
    if Chain(Sealing(digest), others) {
      assert Linked(Sealing(digest), others, i);
    }
    if digest(SealedText(changed)) == events[i].hash {
      forall k | 0 <= k < |others| ensures Linked(Sealing(digest), others, k) {
        assert Linked(Sealing(digest), events, k);
      }
    }
  }

  /** The cloud account service's events: whatever digest is used, such an event in any chain
      can be moved to another workspace and another account without a trace. */
  lemma {:induction false} AccountIsNotSealed(digest: string -> Hash, events: seq<Event>, i: nat, workspace: string, account: string)
    requires Digests(digest) && Chain(Sealing(digest), events) && i < |events|
    requires Written(events[i].content) && events[i].content.form.Bare? && UuidText(workspace) && UuidText(account)
    ensures var c := events[i].content;
      var d := c.(row := c.row.(workspace := workspace, resourceId := account));
      Written(d) && Chain(Sealing(digest), events[i := events[i].(content := d)])
  {
    var c := events[i].content;
    var d := c.(row := c.row.(workspace := workspace, resourceId := account));
    assert Written(d);
    ChangesShowExactly(digest, events, i, d);
  }

  /** Thirty-two equal digits are a UUID. */
  function Uuid(c: char): string {
    seq(32, _ => c)
  }

  /** What the deletion of an account appends. */
  function Deletion(workspace: string, account: string, payload: string, correlation: string): Content {
    Content(Bare, Record(workspace, "cloud_account_deleted", "cloud-account-service", "system", "cloud_account", account,
                         payload, correlation))
  }

  lemma {:induction false} DeletionIsWritten(workspace: string, account: string, payload: string, correlation: string)
    requires UuidText(workspace) && UuidText(account) && ObjectText(payload) && UuidText(correlation)
    ensures Written(Deletion(workspace, account, payload, correlation))
  {
    AccountFields();
    AccountEventsLettered("cloud_account_deleted");
  }

  lemma AccountFields()
    ensures '\0' !in "cloud-account-service" && '\0' !in "system" && '\0' !in "cloud_account"
  {
  }

  lemma {:induction false} SameTexts(c: Content, d: Content)
    requires Alike(c, d)
    ensures forall p :: Preimage(p, c) == Preimage(p, d)
  {
    forall p ensures Preimage(p, c) == Preimage(p, d) {
      SameHashed(p, c, d);
    }
  }

  lemma UuidOf(c: char)
    requires IsHex(c)
    ensures UuidText(Uuid(c)) && Uuid(c)[0] == c
  {
  }

  /** Two deletions in two workspaces that the chain cannot tell apart. */
  lemma {:induction false} DeletionsLookAlike() returns (c: Content, d: Content)
    ensures Written(c) && Written(d) && c.row.workspace != d.row.workspace
    ensures forall p :: Preimage(p, c) == Preimage(p, d)
  {
    var payload := Render((x: char) => JsonEscape(true, x), Object([Member("provider", Value.Text("aws"))]));
    var w, a, v, b, correlation := Uuid('a'), Uuid('b'), Uuid('d'), Uuid('e'), Uuid('c');
    RenderedObject(true, [Member("provider", Value.Text("aws"))]);
    UuidOf('a');
    UuidOf('b');
    UuidOf('c');
    UuidOf('d');
    UuidOf('e');
    c, d := MovedDeletion(w, a, v, b, payload, correlation);
  }

  lemma {:induction false} MovedDeletion(w: string, a: string, v: string, b: string, payload: string, correlation: string)
    returns (c: Content, d: Content)
    requires UuidText(w) && UuidText(a) && UuidText(v) && UuidText(b) && ObjectText(payload) && UuidText(correlation)
    ensures Written(c) && Written(d) && c.row.workspace == w && d.row.workspace == v
    ensures forall p :: Preimage(p, c) == Preimage(p, d)
  {
    c, d := Deletion(w, a, payload, correlation), Deletion(v, b, payload, correlation);
    DeletionIsWritten(w, a, payload, correlation);
    DeletionIsWritten(v, b, payload, correlation);
    SameTexts(c, d);
  }
}
