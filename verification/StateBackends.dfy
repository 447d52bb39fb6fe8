/** Attempts to ensure one cloud account's remote state backend
    (backend/internal/statebackend/store.go), as interleaved steps. The advisory lock of the
    account is held through the driver's call. In the database now() is the time a
    transaction began, and one clock serves the service and the database. */
module StateBackends {
  import opened Outcomes
  import Runs

  type Id = nat
  type Key = string

  datatype Response = Response(id: Id, created: bool, verifiedAt: nat)

  /** The last two are for the statements only: when the writing attempt started, and when
      the record was really written. */
  datatype Record = Record(id: Id, ready: bool, updatedAt: nat, startedAt: nat, committedAt: nat)

  /** `since` is when the current transaction began; a failed attempt opens another. */
  datatype Phase =
    | Started
    | Opened(since: nat)
    | Holding(since: nat)
    | Working(since: nat, backend: Id)
    | Failing(backend: Id)
    | Reporting(since: nat, backend: Id)

  datatype Attempt = Attempt(key: Key, started: nat, phase: Phase)

  datatype Answer = Answer(key: Key, response: Response)

  datatype State = State(
    clock: nat, holder: Option<nat>, record: Option<Record>, responses: map<(Id, Key), Response>,
    stored: seq<Key>, answers: set<Answer>, attempts: map<nat, Attempt>)

  datatype Step =
    | Tick
    | Start(t: nat, key: Key)
    | Open(t: nat)
    | Lock(t: nat)
    | Look(t: nat, freshId: Id)
    | Succeed(t: nat, created: bool)
    | Fail(t: nat)
    | OpenReport(t: nat)
    | Report(t: nat)
    | Abandon(t: nat)

  const EMPTY := State(0, None, None, map[], [], {}, map[])

  function Moved(s: State, t: nat, phase: Phase): State
    requires t in s.attempts
  {
    s.(attempts := s.attempts[t := s.attempts[t].(phase := phase)])
  }

  function Released(s: State, t: nat): State {
    s.(holder := if s.holder == Some(t) then None else s.holder)
  }

  function Ended(s: State, t: nat): State {
    Released(s, t).(attempts := s.attempts - {t})
  }

  /** A known key is answered with its stored response; otherwise work goes on under the
      recorded identifier, or a new one. */
  function Looked(s: State, t: nat, freshId: Id): State
    requires t in s.attempts && s.attempts[t].phase.Holding?
  {
    var a := s.attempts[t];
    if s.record.None? then Moved(s, t, Working(a.phase.since, freshId))
    else if (s.record.value.id, a.key) in s.responses then
      Ended(s, t).(answers := s.answers + {Answer(a.key, s.responses[(s.record.value.id, a.key)])})
    else Moved(s, t, Working(a.phase.since, s.record.value.id))
  }

  /** The upsert of a ready record, the stored response, and the commit. */
  function Succeeded(s: State, t: nat, created: bool): State
    requires t in s.attempts && s.attempts[t].phase.Working?
  {
    var a := s.attempts[t];
    var id := if s.record.Some? then s.record.value.id else a.phase.backend;
    var response := Response(a.phase.backend, created, a.phase.since);
    Ended(s, t).(record := Some(Record(id, true, a.phase.since, a.started, s.clock)),
                 responses := s.responses[(a.phase.backend, a.key) := response],
                 stored := s.stored + [a.key], answers := s.answers + {Answer(a.key, response)})
  }

  predicate Overwritable(record: Option<Record>, started: nat) {
    record.Some? ==> record.value.updatedAt < started
  }

  /** The failure upsert: a new record, or one last updated before the attempt started. */
  function Reported(s: State, t: nat): State
    requires t in s.attempts && s.attempts[t].phase.Reporting?
  {
    var a := s.attempts[t];
    var id := if s.record.Some? then s.record.value.id else a.phase.backend;
    if Overwritable(s.record, a.started)
    then Ended(s, t).(record := Some(Record(id, false, a.phase.since, a.started, s.clock)))
    else Ended(s, t)
  }

  function Next(s: State, e: Step): Option<State> {
    match e
    case Tick => Some(s.(clock := s.clock + 1))
    case Start(t, key) =>
      if t in s.attempts then None else Some(s.(attempts := s.attempts[t := Attempt(key, s.clock, Started)]))
    case Open(t) =>
      if t in s.attempts && s.attempts[t].phase.Started? then Some(Moved(s, t, Opened(s.clock))) else None
    case Lock(t) =>
      if t in s.attempts && s.attempts[t].phase.Opened? && s.holder.None?
      then Some(Moved(s, t, Holding(s.attempts[t].phase.since)).(holder := Some(t))) else None
    case Look(t, freshId) =>
      if t in s.attempts && s.attempts[t].phase.Holding? then Some(Looked(s, t, freshId)) else None
    case Succeed(t, created) =>
      if t in s.attempts && s.attempts[t].phase.Working? then Some(Succeeded(s, t, created)) else None
    case Fail(t) =>
      if t in s.attempts && s.attempts[t].phase.Working?
      then Some(Released(Moved(s, t, Failing(s.attempts[t].phase.backend)), t)) else None
    case OpenReport(t) =>
      if t in s.attempts && s.attempts[t].phase.Failing?
      then Some(Moved(s, t, Reporting(s.clock, s.attempts[t].phase.backend))) else None
    case Report(t) =>
      if t in s.attempts && s.attempts[t].phase.Reporting? && s.holder.None? then Some(Reported(s, t)) else None
    case Abandon(t) => if t in s.attempts then Some(Ended(s, t)) else None
  }

  predicate OnRecord(s: State, id: Id) {
    s.record.Some? && s.record.value.id == id
  }

  /** Times fit the clock; under the lock the identifier is the recorded one and the key has
      no response. */
  ghost predicate AttemptOk(s: State, t: nat, a: Attempt) {
    && a.started <= s.clock
    && (!a.phase.Started? && !a.phase.Failing? ==> a.started <= a.phase.since <= s.clock)
    && (a.phase.Holding? || a.phase.Working? ==> s.holder == Some(t))
    && (a.phase.Working? ==>
          && (s.record.Some? ==> OnRecord(s, a.phase.backend))
          && (a.phase.backend, a.key) !in s.responses)
  }

  ghost predicate Inv(s: State) {
    && (s.record.Some? ==> s.record.value.startedAt <= s.record.value.updatedAt <= s.record.value.committedAt <= s.clock)
    && (forall k | k in s.responses :: OnRecord(s, k.0) && s.responses[k].id == k.0)
    && (forall i, j | 0 <= i < j < |s.stored| :: s.stored[i] != s.stored[j])
    && (forall key :: key in s.stored <==> s.record.Some? && (s.record.value.id, key) in s.responses)
    && (forall a | a in s.answers :: Backed(s, a))
    && (forall t | t in s.attempts :: AttemptOk(s, t, s.attempts[t]))
  }

  predicate Backed(s: State, a: Answer) {
    s.record.Some? && (s.record.value.id, a.key) in s.responses && s.responses[(s.record.value.id, a.key)] == a.response
  }

  /** Steps that leave the record, the responses and the other attempts alone. */
  lemma {:induction false} Quiet(s: State, n: State, t: nat)
    requires Inv(s) && n.record == s.record && n.responses == s.responses && n.stored == s.stored && n.clock >= s.clock
    requires n.holder == s.holder || s.holder == Some(t) || (s.holder == None && n.holder == Some(t))
    requires forall o | o in n.attempts && o != t :: o in s.attempts && n.attempts[o] == s.attempts[o]
    requires t in n.attempts ==> AttemptOk(n, t, n.attempts[t])
    requires forall a | a in n.answers :: a in s.answers || Backed(s, a)
    ensures Inv(n)
  {
    forall o | o in n.attempts ensures AttemptOk(n, o, n.attempts[o]) {
      assert o != t ==> AttemptOk(s, o, s.attempts[o]);
    }
    forall a | a in n.answers ensures Backed(n, a) {
      assert Backed(s, a);
    }
    forall k | k in n.responses ensures OnRecord(n, k.0) {
      assert OnRecord(s, k.0);
    }
  }

  lemma {:induction false} SucceedKeepsInv(s: State, e: Step)
    requires Inv(s) && e.Succeed? && Next(s, e).Some?
    ensures Inv(Next(s, e).value)
  {
    var n, a := Next(s, e).value, s.attempts[e.t];
    assert AttemptOk(s, e.t, a);
    var id := a.phase.backend;
    assert n.record.value.id == id;
    assert a.key !in s.stored;
    forall o | o in n.attempts ensures AttemptOk(n, o, n.attempts[o]) {
      assert AttemptOk(s, o, s.attempts[o]);
    }
    forall b | b in n.answers ensures Backed(n, b) {
      assert b in s.answers ==> Backed(s, b);
    }
    forall k | k in n.responses ensures OnRecord(n, k.0) && n.responses[k].id == k.0 {
      assert k in s.responses ==> OnRecord(s, k.0);
    }
  }

  lemma {:induction false} ReportKeepsInv(s: State, e: Step)
    requires Inv(s) && e.Report? && Next(s, e).Some?
    ensures Inv(Next(s, e).value)
  {
    var n := Next(s, e).value;
    assert AttemptOk(s, e.t, s.attempts[e.t]);
    forall o | o in n.attempts ensures AttemptOk(n, o, n.attempts[o]) {
      assert AttemptOk(s, o, s.attempts[o]);
    }
    forall b | b in n.answers ensures Backed(n, b) {
      assert Backed(s, b);
    }
    forall k | k in n.responses ensures OnRecord(n, k.0) {
      assert OnRecord(s, k.0);
    }
  }

  lemma {:induction false} StepKeepsInv(s: State, e: Step)
    requires Inv(s) && Next(s, e).Some?
    ensures Inv(Next(s, e).value)
  {
    match e
    case Tick =>
      var n := Next(s, e).value;
      forall o | o in n.attempts ensures AttemptOk(n, o, n.attempts[o]) {
        assert AttemptOk(s, o, s.attempts[o]);
      }
      forall a | a in n.answers ensures Backed(n, a) {
        assert Backed(s, a);
      }
      forall k | k in n.responses ensures OnRecord(n, k.0) {
        assert OnRecord(s, k.0);
      }
    case Succeed(_, _) => SucceedKeepsInv(s, e);
    case Report(_) => ReportKeepsInv(s, e);
    case Start(t, _) => Quiet(s, Next(s, e).value, t);
    case _ =>
      assert AttemptOk(s, e.t, s.attempts[e.t]);
      Quiet(s, Next(s, e).value, e.t);
  }

  lemma {:induction false} InvAlways(steps: seq<Step>)
    requires Runs.Run(Next, EMPTY, steps).Some?
    ensures Inv(Runs.Run(Next, EMPTY, steps).value)
  {
    forall s, e | Inv(s) && Next(s, e).Some? ensures Inv(Next(s, e).value) {
      StepKeepsInv(s, e);
    }
    Runs.Kept(Next, Inv, EMPTY, steps);
  }

  /** Over every interleaving all answers to one key are one response, which names the
      account's record, and no key is stored twice. */
  lemma {:induction false} KeysAnsweredOnce(steps: seq<Step>)
    requires Runs.Run(Next, EMPTY, steps).Some?
    ensures var s := Runs.Run(Next, EMPTY, steps).value;
      && (forall a, b | a in s.answers && b in s.answers && a.key == b.key :: a.response == b.response)
      && (forall a | a in s.answers :: OnRecord(s, a.response.id) && a.key in s.stored)
      && (forall i, j | 0 <= i < j < |s.stored| :: s.stored[i] != s.stored[j])
  {
    InvAlways(steps);
    var s := Runs.Run(Next, EMPTY, steps).value;
    forall a, b | a in s.answers && b in s.answers && a.key == b.key ensures a.response == b.response {
      assert Backed(s, a) && Backed(s, b);
    }
    forall a | a in s.answers ensures OnRecord(s, a.response.id) && a.key in s.stored {
      assert Backed(s, a);
    }
  }

  /** The time, and for an attempt the key it started with and when its transaction began,
      all by the steps alone. */
  function Ticks(steps: seq<Step>): nat {
    if steps == [] then 0 else Ticks(steps[..|steps| - 1]) + if steps[|steps| - 1].Tick? then 1 else 0
  }

  function KeyAsked(steps: seq<Step>, t: nat): Option<Key> {
    if steps == [] then None
    else
      var front, last := steps[..|steps| - 1], steps[|steps| - 1];
      if last.Start? && last.t == t then Some(last.key) else KeyAsked(front, t)
  }

  function OpenTime(steps: seq<Step>, t: nat): Option<nat> {
    if steps == [] then None
    else
      var front, last := steps[..|steps| - 1], steps[|steps| - 1];
      if last == Open(t) then Some(Ticks(front)) else OpenTime(front, t)
  }

  /** Some attempt with this key reported this very success. */
  ghost predicate Told(steps: seq<Step>, key: Key, r: Response) {
    exists i, t :: 0 <= i < |steps| && steps[i] == Succeed(t, r.created)
                   && KeyAsked(steps[..i], t) == Some(key) && OpenTime(steps[..i], t) == Some(r.verifiedAt)
  }

  ghost predicate AttemptFollows(steps: seq<Step>, s: State, t: nat) {
    t in s.attempts ==>
      && KeyAsked(steps, t) == Some(s.attempts[t].key)
      && (s.attempts[t].phase.Opened? || s.attempts[t].phase.Holding? || s.attempts[t].phase.Working? ==>
            OpenTime(steps, t) == Some(s.attempts[t].phase.since))
  }

  ghost predicate Follows(steps: seq<Step>, s: State) {
    && s.clock == Ticks(steps)
    && (forall t :: AttemptFollows(steps, s, t))
    && (forall k | k in s.responses :: Told(steps, k.1, s.responses[k]))
  }

  lemma {:induction false} ToldStays(steps: seq<Step>, e: Step, key: Key, r: Response)
    requires Told(steps, key, r)
    ensures Told(steps + [e], key, r)
  {
    var i, t :| 0 <= i < |steps| && steps[i] == Succeed(t, r.created)
      && KeyAsked(steps[..i], t) == Some(key) && OpenTime(steps[..i], t) == Some(r.verifiedAt);
    assert (steps + [e])[i] == steps[i] && (steps + [e])[..i] == steps[..i];
  }

  lemma {:induction false} AttemptStep(steps: seq<Step>, s: State, e: Step, t: nat)
    requires s.clock == Ticks(steps) && AttemptFollows(steps, s, t) && Next(s, e).Some?
    ensures AttemptFollows(steps + [e], Next(s, e).value, t)
  {
    var all := steps + [e];
    assert all[..|steps|] == steps && all[|steps|] == e;
  }

  lemma {:induction false} ResponseStep(steps: seq<Step>, s: State, e: Step, k: (Id, Key))
    requires Follows(steps, s) && Next(s, e).Some? && k in Next(s, e).value.responses
    ensures Told(steps + [e], k.1, Next(s, e).value.responses[k])
  {
    var n, all := Next(s, e).value, steps + [e];
    if e.Succeed? && k == (s.attempts[e.t].phase.backend, s.attempts[e.t].key) {
      assert AttemptFollows(steps, s, e.t);
      assert all[|steps|] == Succeed(e.t, n.responses[k].created) && all[..|steps|] == steps;
    } else {
      ToldStays(steps, e, k.1, s.responses[k]);
    }
  }

  lemma {:induction false} StepFollows(steps: seq<Step>, s: State, e: Step)
    requires Follows(steps, s) && Next(s, e).Some?
    ensures Follows(steps + [e], Next(s, e).value)
  {
    var n, all := Next(s, e).value, steps + [e];
    assert all[..|steps|] == steps && all[|steps|] == e;
    forall t ensures AttemptFollows(all, n, t) {
      assert AttemptFollows(steps, s, t);
      AttemptStep(steps, s, e, t);
    }
    forall k | k in n.responses ensures Told(all, k.1, n.responses[k]) {
      ResponseStep(steps, s, e, k);
    }
  }

  /** Over every interleaving, every answer tells what the driver reported to some attempt
      with that key: whether it created the backend, verified when that attempt's
      transaction began. */
  lemma {:induction false} AnswersWereTold(steps: seq<Step>, a: Answer)
    requires Runs.Run(Next, EMPTY, steps).Some? && a in Runs.Run(Next, EMPTY, steps).value.answers
    ensures Told(steps, a.key, a.response)
  {
    forall so, s, e | Follows(so, s) && Next(s, e).Some? ensures Follows(so + [e], Next(s, e).value) {
      StepFollows(so, s, e);
    }
    Runs.KeptAlong(Next, Follows, EMPTY, steps);
    InvAlways(steps);
    assert Backed(Runs.Run(Next, EMPTY, steps).value, a);
  }

  /** The first attempt on an account, up to its driver call. */
  function Reaching(key: Key, id: Id): seq<Step> {
    [] + [Start(0, key)] + [Open(0)] + [Lock(0)] + [Look(0, id)]
  }

  lemma {:induction false} ReachesCall(key: Key, id: Id)
    ensures Runs.Run(Next, EMPTY, Reaching(key, id)) ==
      Some(State(0, Some(0), None, map[], [], {}, map[0 := Attempt(key, 0, Working(0, id))]))
  {
    Runs.Extend(Next, EMPTY, [], Start(0, key));
    Runs.Extend(Next, EMPTY, [] + [Start(0, key)], Open(0));
    Runs.Extend(Next, EMPTY, [] + [Start(0, key)] + [Open(0)], Lock(0));
    Runs.Extend(Next, EMPTY, [] + [Start(0, key)] + [Open(0)] + [Lock(0)], Look(0, id));
    assert Runs.Run(Next, EMPTY, Reaching(key, id)).value.attempts == map[0 := Attempt(key, 0, Working(0, id))];
  }

  /** When the driver succeeds, the account has a ready record under the new identifier and
      the attempt is answered so; a repeated call is answered the same without the driver,
      and leaves everything as it is. */
  lemma {:induction false} EnsuredOnce(key: Key, id: Id, created: bool, other: Id)
    ensures var response := Response(id, created, 0);
      var done := State(0, None, Some(Record(id, true, 0, 0, 0)), map[(id, key) := response], [key], {Answer(key, response)}, map[]);
      && Runs.Run(Next, EMPTY, Reaching(key, id) + [Succeed(0, created)]) == Some(done)
      && Runs.Run(Next, done, Reaching(key, other)) == Some(done)
  {
    ReachesCall(key, id);
    Runs.Extend(Next, EMPTY, Reaching(key, id), Succeed(0, created));
    var done, response := Runs.Run(Next, EMPTY, Reaching(key, id) + [Succeed(0, created)]).value, Response(id, created, 0);
    assert done.attempts == map[] && done.responses == map[(id, key) := response];
    assert done.stored == [key] && done.answers == {Answer(key, response)};
    Runs.Extend(Next, done, [], Start(0, key));
    Runs.Extend(Next, done, [] + [Start(0, key)], Open(0));
    Runs.Extend(Next, done, [] + [Start(0, key)] + [Open(0)], Lock(0));
    Runs.Extend(Next, done, [] + [Start(0, key)] + [Open(0)] + [Lock(0)], Look(0, other));
    assert Runs.Run(Next, done, Reaching(key, other)).value.attempts == map[];
  }

  /** When it fails, the account has a failed record under that identifier, and nobody is
      answered. */
  lemma {:induction false} FailureIsRecorded(key: Key, id: Id)
    ensures Runs.Run(Next, EMPTY, Reaching(key, id) + [Fail(0)] + [OpenReport(0)] + [Report(0)]) ==
      Some(State(0, None, Some(Record(id, false, 0, 0, 0)), map[], [], {}, map[]))
  {
    ReachesCall(key, id);
    Runs.Extend(Next, EMPTY, Reaching(key, id), Fail(0));
    Runs.Extend(Next, EMPTY, Reaching(key, id) + [Fail(0)], OpenReport(0));
    Runs.Extend(Next, EMPTY, Reaching(key, id) + [Fail(0)] + [OpenReport(0)], Report(0));
    assert Runs.Run(Next, EMPTY, Reaching(key, id) + [Fail(0)] + [OpenReport(0)] + [Report(0)]).value.attempts == map[];
  }

  ghost predicate Extends(s: State, x: State) {
    && (forall k | k in s.responses :: k in x.responses && x.responses[k] == s.responses[k])
    && (s.record.Some? ==> x.record.Some? && x.record.value.id == s.record.value.id)
  }

  lemma {:induction false} StepExtends(s: State, x: State, e: Step)
    requires Inv(x) && Extends(s, x) && Next(x, e).Some?
    ensures Extends(s, Next(x, e).value)
  {
    if e.Succeed? {
      assert AttemptOk(x, e.t, x.attempts[e.t]);
    }
  }

  /** A stored response never changes later, and neither does the record's identifier. */
  lemma {:induction false} ResponsesOnlyGrow(s: State, steps: seq<Step>)
    requires Inv(s) && Runs.Run(Next, s, steps).Some?
    ensures Extends(s, Runs.Run(Next, s, steps).value)
  {
    var kept := (x: State) => Inv(x) && Extends(s, x);
    forall x, e | kept(x) && Next(x, e).Some? ensures kept(Next(x, e).value) {
      StepKeepsInv(x, e);
      StepExtends(s, x, e);
    }
    Runs.Kept(Next, kept, s, steps);
  }

  /** In every reachable state, a step turns a ready record into a failed one exactly when
      it reports an attempt that started after the transaction of the record's writer began.
      So a ready record committed by an attempt that started no earlier than the failing one
      stays. */
  lemma {:induction false} FailureReplacesExactly(steps: seq<Step>, e: Step)
    requires Runs.Run(Next, EMPTY, steps).Some? && Next(Runs.Run(Next, EMPTY, steps).value, e).Some?
    requires var s := Runs.Run(Next, EMPTY, steps).value; s.record.Some? && s.record.value.ready
    ensures var s := Runs.Run(Next, EMPTY, steps).value;
      var n := Next(s, e).value;
      && n.record.Some?
      && (!n.record.value.ready <==> e.Report? && s.record.value.updatedAt < s.attempts[e.t].started)
      && (!n.record.value.ready ==> s.record.value.startedAt < s.attempts[e.t].started)
  {
    InvAlways(steps);
  }

  /** All steps but successes, and reports of attempts that started after `since`. */
  function Calm(since: nat): (State, Step) -> Option<State> {
    (s: State, e: Step) =>
      if e.Succeed? || (e.Report? && e.t in s.attempts && s.attempts[e.t].started > since) then None else Next(s, e)
  }

  /** A ready record outlives every run in which no failing attempt started after the
      transaction that wrote it began. */
  lemma {:induction false} NewerSuccessStays(s: State, steps: seq<Step>)
    requires Inv(s) && s.record.Some? && s.record.value.ready
    requires Runs.Run(Calm(s.record.value.updatedAt), s, steps).Some?
    ensures Runs.Run(Calm(s.record.value.updatedAt), s, steps).value.record == s.record
  {
    var calm, same := Calm(s.record.value.updatedAt), (x: State) => x.record == s.record;
    forall x, e | same(x) && calm(x, e).Some? ensures same(calm(x, e).value) {
    }
    Runs.Kept(calm, same, s, steps);
  }

  /** Going by commits instead of starts, a success can be hidden: one that waited for the
      lock is committed after the failing attempt's driver call had failed, and is still marked
      failed, because its transaction began before that attempt started. */
  lemma {:induction false} LaterSuccessCanBeHidden(a: Key, b: Key)
    ensures exists steps, s ::
      && Runs.Run(Next, EMPTY, steps) == Some(s) && s.record.Some? && s.record.value.ready
      && 1 in s.attempts && s.attempts[1].phase.Reporting? && s.attempts[1].started < s.record.value.committedAt
      && Next(s, Report(1)).Some? && !Next(s, Report(1)).value.record.value.ready
  {
    var steps, s := Waiting(a, b);
    steps, s := Overtaken(steps, s, a, b);
    steps, s := Go(steps, s, Succeed(0, true));
    steps, s := Go(steps, s, OpenReport(1));
    assert Next(s, Report(1)).Some?;
  }

  /** The later attempt fails, and only then the earlier one gets the lock. */
  lemma {:induction false} Overtaken(steps: seq<Step>, s: State, a: Key, b: Key) returns (longer: seq<Step>, n: State)
    requires s.clock == 1 && s.holder == Some(1) && s.record == None && s.responses == map[]
    requires 0 in s.attempts && s.attempts[0] == Attempt(a, 0, Opened(0))
    requires 1 in s.attempts && s.attempts[1] == Attempt(b, 1, Working(1, 7))
    requires Runs.Run(Next, EMPTY, steps) == Some(s)
    ensures n.clock == 2 && n.record == None && n.holder == Some(0)
    ensures 0 in n.attempts && n.attempts[0] == Attempt(a, 0, Working(0, 8))
    ensures 1 in n.attempts && n.attempts[1] == Attempt(b, 1, Failing(7))
    ensures Runs.Run(Next, EMPTY, longer) == Some(n)
  {
    longer, n := Go(steps, s, Fail(1));
    longer, n := Go(longer, n, Tick);
    longer, n := Go(longer, n, Lock(0));
    longer, n := Go(longer, n, Look(0, 8));
  }

  lemma Go(steps: seq<Step>, s: State, e: Step) returns (longer: seq<Step>, n: State)
    requires Runs.Run(Next, EMPTY, steps) == Some(s) && Next(s, e).Some?
    ensures Runs.Run(Next, EMPTY, longer) == Some(n) && Next(s, e) == Some(n)
  {
    longer, n := steps + [e], Next(s, e).value;
    Runs.Extend(Next, EMPTY, steps, e);
  }

  /** One attempt has opened its transaction; a later one has started, and holds the lock. */
  lemma {:induction false} Waiting(a: Key, b: Key) returns (steps: seq<Step>, s: State)
    ensures s.clock == 1 && s.holder == Some(1) && s.record == None && s.responses == map[]
    ensures 0 in s.attempts && s.attempts[0] == Attempt(a, 0, Opened(0))
    ensures 1 in s.attempts && s.attempts[1] == Attempt(b, 1, Working(1, 7))
    ensures Runs.Run(Next, EMPTY, steps) == Some(s)
  {
    steps, s := Go([], EMPTY, Start(0, a));
    steps, s := Go(steps, s, Open(0));
    steps, s := Go(steps, s, Tick);
    steps, s := Go(steps, s, Start(1, b));
    steps, s := Go(steps, s, Open(1));
    steps, s := Go(steps, s, Lock(1));
    steps, s := Go(steps, s, Look(1, 7));
  }
}
