/** Agent sessions: the in-memory state store (agent/app/integrations/state.py) and turns
    (agent/app/domain/service.py). What the profile registry, gap detection, the policy
    tool, the model and the cloud context checks answer is given per turn. Turns on one
    session do not overlap. */
module AgentSessions {
  import opened Outcomes
  import opened Texts
  import opened Sorting
  import opened AgentPolicy

  datatype Message = Message(fromUser: bool, content: string)

  datatype Answer = Answer(field: string, value: string)

  /** `cloudDefault` is the default region of the execution context, if there is one. */
  datatype Session = Session(
    requestId: nat, failed: bool, messages: seq<Message>, answers: seq<Answer>,
    policy: Option<Policy>, loaded: bool, cloudDefault: Option<string>)

  datatype Envelope =
    | Assistant(text: string)
    | Clarification(field: string, text: string)
    | Draft(manifest: Manifest, text: string)
    | ErrorReply(text: string)
    | Other(text: string)

  /** The model raises, answers with something that is no envelope, or replies. */
  datatype Reply = Raised | Malformed | Replied(requestId: nat, envelope: Envelope)

  datatype Oracle = Oracle(
    pinned: bool, unsupported: Option<string>, gap: Option<Envelope>, policy: Option<Policy>,
    reply: Reply, contextError: Manifest -> bool)

  datatype Kind =
    | TurnStarted
    | PolicyLoaded(policy: Policy)
    | ManifestDraft(canonical: Canonical)
    | ManifestProposed(manifest: Manifest)
    | ClarificationRequired(field: string)
    | TurnFailed
    | MessageCompleted
    | StreamCompleted(sessionFailed: bool)

  datatype Event = Event(sequence: nat, kind: Kind)

  datatype Outcome =
    | Completed(envelope: Envelope) | SessionNotFound | SessionFailed | IntegrityError | PolicyUnavailable
    | ModelRaised | InvalidResponse

  predicate Numbered(events: seq<Event>) {
    forall i | 0 <= i < |events| :: events[i].sequence == i + 1
  }

  /** Events of the given kinds, numbered from `first`. */
  function Number(kinds: seq<Kind>, first: nat): (r: seq<Event>)
    ensures |r| == |kinds| && forall i | 0 <= i < |r| :: r[i] == Event(first + i, kinds[i])
  {
    seq(|kinds|, i requires 0 <= i < |kinds| => Event(first + i, kinds[i]))
  }

  predicate Later(after: int, e: Event) {
    e.sequence > after
  }

  function LaterThan(after: int): Event -> bool {
    (e: Event) => Later(after, e)
  }

  lemma {:induction false} SuffixFrom(events: seq<Event>, after: int, first: nat)
    requires forall i | 0 <= i < |events| :: events[i].sequence == first + i
    ensures Filter(LaterThan(after), events) ==
            if after < first then events else if after - first + 1 >= |events| then [] else events[after - first + 1..]
  {
    if events != [] {
      SuffixFrom(events[1..], after, first + 1);
      assert events == [events[0]] + events[1..];
    }
  }

  lemma {:induction false} LaterStep(log: seq<Event>, i: nat, after: int)
    requires i < |log|
    ensures Filter(LaterThan(after), log[..i + 1]) == Filter(LaterThan(after), log[..i]) + if log[i].sequence > after then [log[i]] else []
  {
    assert log[..i + 1] == log[..i] + [log[i]];
    FilterSplit(LaterThan(after), log[..i], [log[i]]);
  }

  class StateStore {
    var sessions: map<string, Session>
    var events: map<string, seq<Event>>

    function Log(id: string): seq<Event>
      reads this`events
    {
      if id in events then events[id] else []
    }

    ghost predicate Valid()
      reads this`events
    {
      forall id :: Numbered(Log(id))
    }

    constructor ()
      ensures Valid() && sessions == map[] && events == map[]
    {
      sessions, events := map[], map[];
    }

    method SaveSession(id: string, s: Session)
      modifies this`sessions
      ensures sessions == old(sessions)[id := s]
    {
      sessions := sessions[id := s];
    }

    method GetSession(id: string) returns (s: Option<Session>)
      ensures s == if id in sessions then Some(sessions[id]) else None
    {
      return if id in sessions then Some(sessions[id]) else None;
    }

    method AppendEvent(id: string, e: Event)
      modifies this`events
      ensures Log(id) == old(Log(id)) + [e]
      ensures forall other | other != id :: Log(other) == old(Log(other))
    {
      events := events[id := Log(id) + [e]];
    }

    /** The events after a sequence number: exactly the rest of the log. */
    method ListEvents(id: string, after: int) returns (r: Option<seq<Event>>)
      requires Valid()
      ensures r.None? <==> id !in sessions
      ensures r.Some? ==> r.value == if after < 0 then Log(id) else if after >= |Log(id)| then [] else Log(id)[after..]
    {
      if id !in sessions {
        return None;
      }
      var log, kept := Log(id), [];
      for i := 0 to |log|
        invariant kept == Filter(LaterThan(after), log[..i])
      {
        LaterStep(log, i, after);
        if log[i].sequence > after {
          kept := kept + [log[i]];
        }
      }
      assert log[..|log|] == log;
      assert Numbered(log);
      SuffixFrom(log, after, 1);
      return Some(kept);
    }

    /** The log is `base` followed by events of these kinds. */
    ghost predicate At(id: string, base: seq<Event>, kinds: seq<Kind>)
      reads this`events
    {
      Log(id) == base + Number(kinds, |base| + 1)
    }

    /** Append with the next sequence number. */
    method Emit(id: string, kind: Kind, ghost base: seq<Event>, ghost done: seq<Kind>)
      requires Valid() && id in sessions && At(id, base, done)
      modifies this`events
      ensures Valid() && At(id, base, done + [kind])
      ensures forall other | other != id :: Log(other) == old(Log(other))
    {
      var existing := ListEvents(id, 0);
      var log := existing.value;
      assert Numbered(Log(id));
      var sequence := if log != [] then log[|log| - 1].sequence + 1 else 1;
      AppendEvent(id, Event(sequence, kind));
      assert Number(done + [kind], |base| + 1) == Number(done, |base| + 1) + [Event(sequence, kind)];
      forall other ensures Numbered(Log(other)) {
        assert old(Numbered(Log(other)));
      }
    }
  }

  function UserText(messages: seq<Message>): seq<string> {
    if messages == [] then []
    else
      var last := messages[|messages| - 1];
      UserText(messages[..|messages| - 1]) + if last.fromUser then [last.content] else []
  }

  predicate Answered(answers: seq<Answer>, field: string) {
    exists i | 0 <= i < |answers| :: answers[i].field == field
  }

  /** The context's default region, unless a region was answered or named in the messages. */
  function DefaultRegion(namesRegion: string -> bool, s: Session): Option<string> {
    if s.cloudDefault.None? || Answered(s.answers, "region") || namesRegion(Join(UserText(s.messages), "\n")) then None
    else s.cloudDefault
  }

  function Rewritten(namesRegion: string -> bool, s: Session, m: Manifest): Manifest {
    var d := DefaultRegion(namesRegion, s);
    if d.Some? then m.(region := d.value) else m
  }

  /** A draft that may be proposed: policy loaded, region rewritten, context and policy met. */
  predicate DraftOk(s: Session, contextError: Manifest -> bool, m: Manifest) {
    s.policy.Some? && !contextError(m) && Compliant(m, s.policy.value)
  }

  /** What the validation of the model's reply lets through. */
  function Accepted(namesRegion: string -> bool, s: Session, o: Oracle): Option<Envelope> {
    if !o.reply.Replied? || o.reply.requestId != s.requestId then None
    else
      match o.reply.envelope
      case Clarification(field, _) => if Answered(s.answers, field) then None else Some(o.reply.envelope)
      case Draft(m, text) =>
        var n := Rewritten(namesRegion, s, m);
        if DraftOk(s, o.contextError, n) then Some(Draft(n, text)) else None
      case _ => Some(o.reply.envelope)
  }

  function KindOf(e: Envelope): Kind {
    match e
    case Clarification(field, _) => ClarificationRequired(field)
    case Draft(m, _) => ManifestProposed(m)
    case ErrorReply(_) => TurnFailed
    case _ => MessageCompleted
  }

  datatype Turned = Turned(session: Session, kinds: seq<Kind>, outcome: Outcome)

  function WithMessage(s: Session, fromUser: bool, content: string): Session {
    s.(messages := s.messages + [Message(fromUser, content)])
  }

  function DraftConstraints(s: Session): Constraints {
    ConstraintsOf(s.policy)
  }

  /** The closing part of a turn with a result. */
  function Finished(namesRegion: string -> bool, s: Session, e: Envelope, kinds: seq<Kind>): Turned {
    var n := WithMessage(s, false, e.text).(failed := s.failed || e.ErrorReply?);
    if !e.Draft? then Turned(n, kinds + [KindOf(e), StreamCompleted(n.failed)], Completed(e))
    else if Preflight(e.manifest, DraftConstraints(n)) != [] then Turned(n, kinds, InvalidResponse)
    else
      var c := CanonicalOf(e.manifest, DraftConstraints(n), DefaultRegion(namesRegion, n));
      Turned(n, kinds + [ManifestDraft(c), ManifestProposed(e.manifest), StreamCompleted(n.failed)], Completed(e))
  }

  /** The model's part of a turn. */
  function ModelTurn(namesRegion: string -> bool, s: Session, o: Oracle, kinds: seq<Kind>): Turned {
    if o.reply.Raised? then Turned(s, kinds, ModelRaised)
    else
      var e := Accepted(namesRegion, s, o);
      if e.None? then Turned(s.(failed := true), kinds + [TurnFailed], InvalidResponse)
      else Finished(namesRegion, s, e.value, kinds)
  }

  /** Load the policy once, then the model's part. */
  function PolicyTurn(namesRegion: string -> bool, s: Session, o: Oracle): Turned {
    if s.loaded then ModelTurn(namesRegion, s, o, [TurnStarted])
    else if o.policy.None? then Turned(s.(failed := true), [TurnStarted, TurnFailed], PolicyUnavailable)
    else ModelTurn(namesRegion, s.(policy := o.policy, loaded := true), o, [TurnStarted, PolicyLoaded(o.policy.value)])
  }

  /** One turn as a function of the stored session. */
  function Turn(namesRegion: string -> bool, s: Session, message: string, o: Oracle): Turned {
    var s1 := WithMessage(s, true, message);
    if s.failed then Turned(s, [], SessionFailed)
    else if !o.pinned then Turned(s, [], IntegrityError)
    else if o.unsupported.Some? then Finished(namesRegion, s1, Assistant(o.unsupported.value), [TurnStarted])
    else if o.gap.Some? && o.gap.value.Clarification? then Finished(namesRegion, s1, o.gap.value, [TurnStarted])
    else PolicyTurn(namesRegion, s1, o)
  }

  class AgentService {
    const store: StateStore
    const namesRegion: string -> bool

    constructor (store: StateStore, namesRegion: string -> bool)
      ensures this.store == store && this.namesRegion == namesRegion
    {
      this.store, this.namesRegion := store, namesRegion;
    }

    /** One turn over the store: the session is saved as the turn says, its events follow
        the earlier ones with the next numbers, and no other session is touched. */
    method RunTurn(id: string, message: string, o: Oracle) returns (outcome: Outcome)
      requires store.Valid()
      modifies store
      ensures store.Valid() && forall other | other != id :: store.Log(other) == old(store.Log(other))
      ensures id !in old(store.sessions) ==>
        outcome == SessionNotFound && store.sessions == old(store.sessions) && store.events == old(store.events)
      ensures id in old(store.sessions) ==>
        var t := Turn(namesRegion, old(store.sessions)[id], message, o);
        && outcome == t.outcome && store.sessions == old(store.sessions)[id := t.session]
        && store.At(id, old(store.Log(id)), t.kinds)
    {
      var found := store.GetSession(id);
      if found.None? {
        return SessionNotFound;
      }
      var session := found.value;
      ghost var base := store.Log(id);
      assert Number([], |base| + 1) == [];
      if session.failed {
        return SessionFailed;
      }
      if !o.pinned {
        return IntegrityError;
      }
      session := WithMessage(session, true, message);
      store.SaveSession(id, session);
      store.Emit(id, TurnStarted, base, []);
      if o.unsupported.Some? {
        outcome := Close(id, session, Assistant(o.unsupported.value), base, [TurnStarted]);
      } else if o.gap.Some? && o.gap.value.Clarification? {
        outcome := Close(id, session, o.gap.value, base, [TurnStarted]);
      } else {
        outcome := PolicyAndModel(id, session, o, base);
      }
    }

    /** Load the policy once, then ask the model. */
    method PolicyAndModel(id: string, session: Session, o: Oracle, ghost base: seq<Event>) returns (outcome: Outcome)
      requires store.Valid() && id in store.sessions && store.sessions[id] == session && store.At(id, base, [TurnStarted])
      modifies store
      ensures store.Valid() && forall other | other != id :: store.Log(other) == old(store.Log(other))
      ensures var t := PolicyTurn(namesRegion, session, o);
        outcome == t.outcome && store.sessions == old(store.sessions)[id := t.session] && store.At(id, base, t.kinds)
    {
      if session.loaded {
        outcome := CallModel(id, session, o, base, [TurnStarted]);
      } else if o.policy.None? {
        Fail(id, session, base, [TurnStarted]);
        outcome := PolicyUnavailable;
      } else {
        var s := session.(policy := o.policy, loaded := true);
        store.SaveSession(id, s);
        store.Emit(id, PolicyLoaded(o.policy.value), base, [TurnStarted]);
        outcome := CallModel(id, s, o, base, [TurnStarted, PolicyLoaded(o.policy.value)]);
      }
    }

    method Fail(id: string, session: Session, ghost base: seq<Event>, ghost done: seq<Kind>)
      requires store.Valid() && store.At(id, base, done)
      modifies store
      ensures store.Valid() && forall other | other != id :: store.Log(other) == old(store.Log(other))
      ensures store.sessions == old(store.sessions)[id := session.(failed := true)] && store.At(id, base, done + [TurnFailed])
    {
      store.SaveSession(id, session.(failed := true));
      store.Emit(id, TurnFailed, base, done);
    }

    /** Validate the reply; `done` are the kinds already emitted in this turn. */
    method CallModel(id: string, session: Session, o: Oracle, ghost base: seq<Event>, ghost done: seq<Kind>)
      returns (outcome: Outcome)
      requires store.Valid() && id in store.sessions && store.sessions[id] == session && store.At(id, base, done)
      modifies store
      ensures store.Valid() && forall other | other != id :: store.Log(other) == old(store.Log(other))
      ensures var t := ModelTurn(namesRegion, session, o, done);
        outcome == t.outcome && store.sessions == old(store.sessions)[id := t.session] && store.At(id, base, t.kinds)
    {
      if o.reply.Raised? {
        return ModelRaised;
      }
      var e := Accepted(namesRegion, session, o);
      if e.None? {
        Fail(id, session, base, done);
        return InvalidResponse;
      }
      outcome := Close(id, session, e.value, base, done);
    }

    /** Save the assistant's message and emit the closing events; a draft that fails the
        pre-flight is saved and then raises. */
    method Close(id: string, session: Session, e: Envelope, ghost base: seq<Event>, ghost done: seq<Kind>)
      returns (outcome: Outcome)
      requires store.Valid() && store.At(id, base, done)
      modifies store
      ensures store.Valid() && forall other | other != id :: store.Log(other) == old(store.Log(other))
      ensures var t := Finished(namesRegion, session, e, done);
        outcome == t.outcome && store.sessions == old(store.sessions)[id := t.session] && store.At(id, base, t.kinds)
    {
      var n := WithMessage(session, false, e.text);
      if e.ErrorReply? {
        n := n.(failed := true);
      }
      store.SaveSession(id, n);
      if !e.Draft? {
        store.Emit(id, KindOf(e), base, done);
        store.Emit(id, StreamCompleted(n.failed), base, done + [KindOf(e)]);
        assert done + [KindOf(e)] + [StreamCompleted(n.failed)] == done + [KindOf(e), StreamCompleted(n.failed)];
        return Completed(e);
      }
      var draft := DraftManifest(e.manifest, DraftConstraints(n), DefaultRegion(namesRegion, n));
      if draft.None? {
        return InvalidResponse;
      }
      EmitDraft(id, n, draft.value, e.manifest, base, done);
      return Completed(e);
    }

    method EmitDraft(id: string, n: Session, c: Canonical, m: Manifest, ghost base: seq<Event>, ghost done: seq<Kind>)
      requires store.Valid() && id in store.sessions && store.At(id, base, done)
      modifies store`events
      ensures store.Valid() && forall other | other != id :: store.Log(other) == old(store.Log(other))
      ensures store.At(id, base, done + [ManifestDraft(c), ManifestProposed(m), StreamCompleted(n.failed)])
    {
      store.Emit(id, ManifestDraft(c), base, done);
      store.Emit(id, ManifestProposed(m), base, done + [ManifestDraft(c)]);
      store.Emit(id, StreamCompleted(n.failed), base, done + [ManifestDraft(c)] + [ManifestProposed(m)]);
      assert done + [ManifestDraft(c)] + [ManifestProposed(m)] + [StreamCompleted(n.failed)]
          == done + [ManifestDraft(c), ManifestProposed(m), StreamCompleted(n.failed)];
    }

    /** Merge a batch of answers by field. */
    method RecordAnswers(id: string, answers: seq<Answer>) returns (ok: bool)
      modifies store`sessions
      ensures ok <==> id in old(store.sessions)
      ensures store.sessions == if ok then old(store.sessions)[id := Merging(old(store.sessions)[id], answers)] else old(store.sessions)
    {
      var found := store.GetSession(id);
      if found.None? {
        return false;
      }
      var all := found.value.answers + answers;
      var merged: seq<Answer> := [];
      for i := 0 to |all|
        invariant merged == Merged(all[..i]) && store.sessions == old(store.sessions)
      {
        assert all[..i + 1][..i] == all[..i];
        merged := Put(merged, all[i]);
      }
      assert all[..|all|] == all;
      store.SaveSession(id, found.value.(answers := merged));
      return true;
    }
  }

  /** A later answer to a field replaces the earlier one in its place. */
  function Put(answers: seq<Answer>, a: Answer): seq<Answer> {
    if answers == [] then [a]
    else if answers[0].field == a.field then [a] + answers[1..]
    else [answers[0]] + Put(answers[1..], a)
  }

  function Merged(answers: seq<Answer>): seq<Answer> {
    if answers == [] then [] else Put(Merged(answers[..|answers| - 1]), answers[|answers| - 1])
  }

  function Merging(s: Session, answers: seq<Answer>): Session {
    s.(answers := Merged(s.answers + answers))
  }

  /** The value a field was last given. */
  function LastValue(answers: seq<Answer>, field: string): Option<string> {
    if answers == [] then None
    else if answers[|answers| - 1].field == field then Some(answers[|answers| - 1].value)
    else LastValue(answers[..|answers| - 1], field)
  }

  ghost predicate OncePerField(answers: seq<Answer>) {
    forall i, j | 0 <= i < j < |answers| :: answers[i].field != answers[j].field
  }

  lemma {:induction false} PutKeeps(answers: seq<Answer>, a: Answer)
    requires OncePerField(answers)
    ensures OncePerField(Put(answers, a))
    ensures forall b :: b in Put(answers, a) <==> b == a || (b in answers && b.field != a.field)
  {
    if answers == [] {
    } else if answers[0].field == a.field {
      assert forall i | 1 <= i < |answers| :: answers[i].field != answers[0].field;
      assert forall b :: b in answers <==> b == answers[0] || b in answers[1..];
    } else {
      PutKeeps(answers[1..], a);
      var rest := Put(answers[1..], a);
      forall j | 0 <= j < |rest| ensures rest[j].field != answers[0].field {
        assert rest[j] in rest;
      }
      assert forall b :: b in answers <==> b == answers[0] || b in answers[1..];
    }
  }

  /** Merging keeps one answer per field: the last one given. */
  lemma {:induction false} MergedIsLast(answers: seq<Answer>)
    ensures OncePerField(Merged(answers))
    ensures forall a :: a in Merged(answers) <==> LastValue(answers, a.field) == Some(a.value)
  {
    if answers != [] {
      var front, last := answers[..|answers| - 1], answers[|answers| - 1];
      MergedIsLast(front);
      PutKeeps(Merged(front), last);
    }
  }
}

/** Whole runs of one session. */
module AgentRuns {
  import opened Outcomes
  import opened Texts
  import opened Sorting
  import opened AgentPolicy
  import opened AgentSessions
  import Runs

  datatype State = State(session: Session, log: seq<Kind>)

  datatype Step = TakeTurn(message: string, oracle: Oracle) | Record(answers: seq<Answer>)

  function Next(namesRegion: string -> bool, s: State, e: Step): Option<State> {
    match e
    case TakeTurn(message, oracle) =>
      var t := Turn(namesRegion, s.session, message, oracle);
      Some(State(t.session, s.log + t.kinds))
    case Record(answers) => Some(s.(session := Merging(s.session, answers)))
  }

  function Stepper(namesRegion: string -> bool): (State, Step) -> Option<State> {
    (s, e) => Next(namesRegion, s, e)
  }

  /** A new session: active, and its policy is loaded exactly when its context brought one. */
  predicate Created(s: Session) {
    !s.failed && s.messages == [] && s.answers == [] && (s.loaded <==> s.policy.Some?)
  }

  /** A proposed manifest directly follows its canonical draft, complies with the loaded
      policy, and passed the pre-flight. */
  predicate ProposedOk(policy: Option<Policy>, log: seq<Kind>, i: nat)
    requires i < |log| && log[i].ManifestProposed?
  {
    var m := log[i].manifest;
    && policy.Some? && Compliant(m, policy.value) && Preflight(m, ConstraintsOf(policy)) == []
    && i > 0 && log[i - 1].ManifestDraft? && log[i - 1].canonical.region == m.region
    && log[i - 1].canonical.tags == MergedTags(m, ConstraintsOf(policy))
    && log[i - 1].canonical.budget == m.budget && log[i - 1].canonical.types == m.types
  }

  ghost predicate LogOk(policy: Option<Policy>, log: seq<Kind>) {
    && (forall i | 0 <= i < |log| && log[i].ManifestProposed? :: ProposedOk(policy, log, i))
    && (forall i | 0 <= i < |log| && log[i].ManifestDraft? :: i + 1 < |log| && log[i + 1].ManifestProposed?)
    && (forall i | 0 <= i < |log| && log[i].PolicyLoaded? :: policy == Some(log[i].policy))
  }

  ghost predicate Inv(s: State) {
    && LogOk(s.session.policy, s.log)
    && (s.session.loaded <==> s.session.policy.Some?)
    && (s.session.failed <==> exists i :: 0 <= i < |s.log| && s.log[i].TurnFailed?)
  }

  lemma {:induction false} LogsJoin(policy: Option<Policy>, a: seq<Kind>, b: seq<Kind>)
    requires LogOk(policy, a) && LogOk(policy, b)
    ensures LogOk(policy, a + b)
  {
    var all := a + b;
    forall i | 0 <= i < |all| && all[i].ManifestProposed? ensures ProposedOk(policy, all, i) {
      if i < |a| {
        assert ProposedOk(policy, a, i);
      } else {
        assert ProposedOk(policy, b, i - |a|);
      }
    }
    forall i | 0 <= i < |all| && all[i].ManifestDraft? ensures i + 1 < |all| && all[i + 1].ManifestProposed? {
      if i < |a| {
        assert a[i + 1].ManifestProposed?;
      } else {
        assert b[i - |a| + 1].ManifestProposed?;
      }
    }
  }

  /** Loading the policy keeps an earlier log right: it has nothing that depends on one. */
  lemma {:induction false} NoPolicyNoDraft(log: seq<Kind>, policy: Option<Policy>)
    requires LogOk(None, log)
    ensures LogOk(policy, log)
  {
    assert forall i | 0 <= i < |log| :: !log[i].ManifestProposed?;
    assert forall i | 0 <= i < |log| :: !log[i].PolicyLoaded?;
  }

  lemma {:induction false} FinishedOk(namesRegion: string -> bool, s: Session, e: Envelope)
    requires !s.failed && (e.Draft? ==> s.policy.Some? && Compliant(e.manifest, s.policy.value))
    ensures var t := Finished(namesRegion, s, e, []);
      && LogOk(s.policy, t.kinds) && t.session.policy == s.policy && t.session.loaded == s.loaded
      && (t.session.failed <==> exists i :: 0 <= i < |t.kinds| && t.kinds[i].TurnFailed?)
  {
    var t := Finished(namesRegion, s, e, []);
    if e.ErrorReply? {
      assert t.kinds[0].TurnFailed?;
    }
    forall i | 0 <= i < |t.kinds| && t.kinds[i].ManifestProposed? ensures ProposedOk(s.policy, t.kinds, i) {
    }
  }

  lemma FinishedPrefix(namesRegion: string -> bool, s: Session, e: Envelope, kinds: seq<Kind>)
    ensures var t, u := Finished(namesRegion, s, e, []), Finished(namesRegion, s, e, kinds);
      u == t.(kinds := kinds + t.kinds)
  {
  }

  lemma {:induction false} ModelTurnOk(namesRegion: string -> bool, s: Session, o: Oracle, kinds: seq<Kind>)
    requires !s.failed && (s.loaded <==> s.policy.Some?) && LogOk(s.policy, kinds)
    requires forall i | 0 <= i < |kinds| :: !kinds[i].TurnFailed?
    ensures var t := ModelTurn(namesRegion, s, o, kinds);
      && LogOk(s.policy, t.kinds) && t.session.policy == s.policy && t.session.loaded == s.loaded
      && (t.session.failed <==> exists i :: 0 <= i < |t.kinds| && t.kinds[i].TurnFailed?)
  {
    var t, e := ModelTurn(namesRegion, s, o, kinds), Accepted(namesRegion, s, o);
    if !o.reply.Raised? && e.None? {
      LogsJoin(s.policy, kinds, [TurnFailed]);
      assert t.kinds[|kinds|].TurnFailed?;
    } else if !o.reply.Raised? {
      FinishedOk(namesRegion, s, e.value);
      FinishedPrefix(namesRegion, s, e.value, kinds);
      var f := Finished(namesRegion, s, e.value, []);
      LogsJoin(s.policy, kinds, f.kinds);
      assert forall i | 0 <= i < |f.kinds| :: t.kinds[|kinds| + i] == f.kinds[i];
    }
  }

  lemma {:induction false} StartedOk(policy: Option<Policy>)
    ensures LogOk(policy, [TurnStarted]) && (policy.Some? ==> LogOk(policy, [TurnStarted, PolicyLoaded(policy.value)]))
    ensures LogOk(policy, [TurnStarted, TurnFailed])
  {
  }

  /** What one turn adds, on its own. */
  lemma {:induction false} TurnOk(namesRegion: string -> bool, s: Session, message: string, o: Oracle)
    requires !s.failed && (s.loaded <==> s.policy.Some?)
    ensures var t := Turn(namesRegion, s, message, o);
      && LogOk(t.session.policy, t.kinds) && (t.session.loaded <==> t.session.policy.Some?)
      && (t.session.failed <==> exists i :: 0 <= i < |t.kinds| && t.kinds[i].TurnFailed?)
      && (s.policy.Some? ==> t.session.policy == s.policy)
  {
    var t, s1 := Turn(namesRegion, s, message, o), WithMessage(s, true, message);
    StartedOk(s.policy);
    if !o.pinned {
    } else if o.unsupported.Some? || (o.gap.Some? && o.gap.value.Clarification?) {
      var e := if o.unsupported.Some? then Assistant(o.unsupported.value) else o.gap.value;
      FinishedOk(namesRegion, s1, e);
      FinishedPrefix(namesRegion, s1, e, [TurnStarted]);
      var f := Finished(namesRegion, s1, e, []);
      LogsJoin(s.policy, [TurnStarted], f.kinds);
      assert forall i | 0 <= i < |f.kinds| :: t.kinds[1 + i] == f.kinds[i];
    } else if s1.loaded {
      ModelTurnOk(namesRegion, s1, o, [TurnStarted]);
    } else if o.policy.None? {
      assert t.kinds[1].TurnFailed?;
    } else {
      StartedOk(o.policy);
      ModelTurnOk(namesRegion, s1.(policy := o.policy, loaded := true), o, [TurnStarted, PolicyLoaded(o.policy.value)]);
    }
  }

  lemma {:induction false} StepKeepsInv(namesRegion: string -> bool, s: State, e: Step)
    requires Inv(s)
    ensures Inv(Next(namesRegion, s, e).value)
    ensures s.session.policy.Some? ==> Next(namesRegion, s, e).value.session.policy == s.session.policy
  {
    if e.TakeTurn? && !s.session.failed {
      var t := Turn(namesRegion, s.session, e.message, e.oracle);
      TurnOk(namesRegion, s.session, e.message, e.oracle);
      if s.session.policy.None? {
        NoPolicyNoDraft(s.log, t.session.policy);
      }
      LogsJoin(t.session.policy, s.log, t.kinds);
      var all := s.log + t.kinds;
      assert forall i | 0 <= i < |t.kinds| :: all[|s.log| + i] == t.kinds[i];
    } else if e.TakeTurn? {
      assert s.log + [] == s.log;
    }
  }

  lemma {:induction false} InvAlways(namesRegion: string -> bool, start: Session, steps: seq<Step>)
    requires Created(start) && Runs.Run(Stepper(namesRegion), State(start, []), steps).Some?
    ensures Inv(Runs.Run(Stepper(namesRegion), State(start, []), steps).value)
  {
    forall s, e | Inv(s) && Stepper(namesRegion)(s, e).Some? ensures Inv(Stepper(namesRegion)(s, e).value) {
      StepKeepsInv(namesRegion, s, e);
    }
    Runs.Kept(Stepper(namesRegion), Inv, State(start, []), steps);
  }

  /** Over every sequence of turns and answers, every proposed manifest directly follows its
      draft, was proposed under the loaded policy, and complies with it; every draft is
      followed by its proposal; and a session has failed exactly when it logged a failure. */
  lemma {:induction false} ProposalsAreCompliant(namesRegion: string -> bool, start: Session, steps: seq<Step>)
    requires Created(start) && Runs.Run(Stepper(namesRegion), State(start, []), steps).Some?
    ensures var s := Runs.Run(Stepper(namesRegion), State(start, []), steps).value;
      && (forall i | 0 <= i < |s.log| && s.log[i].ManifestProposed? :: ProposedOk(s.session.policy, s.log, i))
      && (forall i | 0 <= i < |s.log| && s.log[i].ManifestDraft? :: i + 1 < |s.log| && s.log[i + 1].ManifestProposed?)
      && (s.session.failed <==> exists i :: 0 <= i < |s.log| && s.log[i].TurnFailed?)
  {
    InvAlways(namesRegion, start, steps);
  }

  predicate IsFromUser(m: Message) {
    m.fromUser
  }

  function Contents(messages: seq<Message>): (r: seq<string>)
    ensures |r| == |messages| && forall i | 0 <= i < |r| :: r[i] == messages[i].content
  {
    seq(|messages|, i requires 0 <= i < |messages| => messages[i].content)
  }

  /** What the user wrote, oldest first. */
  lemma {:induction false} UserTextIsWritten(messages: seq<Message>)
    ensures UserText(messages) == Contents(Filter(IsFromUser, messages))
  {
    if messages != [] {
      var front, last := messages[..|messages| - 1], messages[|messages| - 1];
      UserTextIsWritten(front);
      FilterSplit(IsFromUser, front, [last]);
      assert messages == front + [last] && [last][1..] == [];
    }
  }

  /** The user settled the region, by answering or in so many words, or there is no default. */
  predicate RegionSettled(namesRegion: string -> bool, s: Session, message: string) {
    || s.cloudDefault == None
    || (exists i | 0 <= i < |s.answers| :: s.answers[i].field == "region")
    || namesRegion(Join(Contents(Filter(IsFromUser, s.messages)) + [message], "\n"))
  }

  lemma {:induction false} FinishedProposes(namesRegion: string -> bool, s: Session, e: Envelope, i: nat)
    requires var kinds := Finished(namesRegion, s, e, []).kinds; i < |kinds| && kinds[i].ManifestProposed?
    ensures e.Draft? && Finished(namesRegion, s, e, []).kinds[i].manifest == e.manifest
  {
  }

  lemma {:induction false} ModelProposes(namesRegion: string -> bool, s: Session, o: Oracle, done: seq<Kind>, i: nat)
    requires var kinds := ModelTurn(namesRegion, s, o, done).kinds; i < |kinds| && kinds[i].ManifestProposed?
    requires forall k | 0 <= k < |done| :: !done[k].ManifestProposed?
    ensures o.reply.Replied? && o.reply.requestId == s.requestId && o.reply.envelope.Draft?
    ensures ModelTurn(namesRegion, s, o, done).kinds[i].manifest == Rewritten(namesRegion, s, o.reply.envelope.manifest)
  {
    if !o.reply.Raised? && Accepted(namesRegion, s, o).Some? {
      var e := Accepted(namesRegion, s, o).value;
      FinishedPrefix(namesRegion, s, e, done);
      FinishedProposes(namesRegion, s, e, i - |done|);
    }
  }

  lemma {:induction false} TurnProposes(namesRegion: string -> bool, s: Session, message: string, o: Oracle, i: nat)
    requires var kinds := Turn(namesRegion, s, message, o).kinds; i < |kinds| && kinds[i].ManifestProposed?
    ensures o.reply.Replied? && o.reply.requestId == s.requestId && o.reply.envelope.Draft?
    ensures Turn(namesRegion, s, message, o).kinds[i].manifest == Rewritten(namesRegion, WithMessage(s, true, message), o.reply.envelope.manifest)
  {
    var s1 := WithMessage(s, true, message);
    if o.unsupported.Some? || (o.gap.Some? && o.gap.value.Clarification?) {
      var e := if o.unsupported.Some? then Assistant(o.unsupported.value) else o.gap.value;
      FinishedPrefix(namesRegion, s1, e, [TurnStarted]);
      assert false;
    } else if s1.loaded {
      ModelProposes(namesRegion, s1, o, [TurnStarted], i);
    } else if o.policy.Some? {
      var s2 := s1.(policy := o.policy, loaded := true);
      ModelProposes(namesRegion, s2, o, [TurnStarted, PolicyLoaded(o.policy.value)], i);
    }
  }

  /** What a turn proposes is the manifest the model drafted in reply to this very request,
      in the model's region when the user settled it and in the context's default otherwise;
      nothing else of it is changed. */
  lemma {:induction false} ProposedExactly(namesRegion: string -> bool, s: Session, message: string, o: Oracle, i: nat)
    requires var kinds := Turn(namesRegion, s, message, o).kinds; i < |kinds| && kinds[i].ManifestProposed?
    ensures o.reply.Replied? && o.reply.requestId == s.requestId && o.reply.envelope.Draft?
    ensures var given, m := o.reply.envelope.manifest, Turn(namesRegion, s, message, o).kinds[i].manifest;
      if RegionSettled(namesRegion, s, message) then m == given
      else m.region == s.cloudDefault.value && m.(region := given.region) == given
  {
    var s1 := WithMessage(s, true, message);
    TurnProposes(namesRegion, s, message, o, i);
    UserTextIsWritten(s.messages);
    assert s1.messages[..|s.messages|] == s.messages;
    assert UserText(s1.messages) == UserText(s.messages) + [message];
  }

  /** The model's part fails the session exactly when the reply is no envelope, answers some
      other request, asks what was answered, or drafts what the context or the loaded policy
      refuses in the region it would be proposed in; or when the reply itself reports an error. */
  lemma {:induction false} RefusedExactly(namesRegion: string -> bool, s: Session, o: Oracle, done: seq<Kind>)
    requires !s.failed
    ensures ModelTurn(namesRegion, s, o, done).session.failed <==>
      && o.reply != Raised
      && (o.reply == Malformed || o.reply.requestId != s.requestId
          || (match o.reply.envelope
              case Clarification(field, _) => exists i | 0 <= i < |s.answers| :: s.answers[i].field == field
              case Draft(given, _) =>
                var m := Rewritten(namesRegion, s, given);
                s.policy == None || o.contextError(m) || !Compliant(m, s.policy.value)
              case ErrorReply(_) => true
              case _ => false))
  {
  }

  /** The event that tells an envelope. */
  predicate Tells(kind: Kind, e: Envelope) {
    match e
    case Clarification(field, _) => kind == ClarificationRequired(field)
    case Draft(m, _) => kind == ManifestProposed(m)
    case ErrorReply(_) => kind == TurnFailed
    case _ => kind == MessageCompleted
  }

  ghost predicate Logs(kinds: seq<Kind>, kind: Kind -> bool) {
    exists i :: 0 <= i < |kinds| && kind(kinds[i])
  }

  predicate IsClosing(kind: Kind) {
    kind.StreamCompleted?
  }

  predicate IsFailing(kind: Kind) {
    kind.TurnFailed?
  }

  /** What a turn makes of the session `s`, which has the user's message, and of the events
      `done`. */
  ghost predicate Closed(s: Session, done: seq<Kind>, t: Turned) {
    && done <= t.kinds && (t.outcome.Completed? <==> Logs(t.kinds, IsClosing))
    && (t.outcome.Completed? ==>
          var e, n := t.outcome.envelope, |t.kinds|;
          && n >= |done| + 2 && Tells(t.kinds[n - 2], e) && t.kinds[n - 1] == StreamCompleted(t.session.failed)
          && t.session.messages == s.messages + [Message(false, e.text)] && (t.session.failed <==> e.ErrorReply?))
    && (!t.outcome.Completed? ==> (t.session.failed <==> Logs(t.kinds, IsFailing)))
    && s.messages <= t.session.messages && t.session.answers == s.answers
  }

  lemma {:induction false} LogsSplit(a: seq<Kind>, b: seq<Kind>, kind: Kind -> bool)
    ensures Logs(a + b, kind) <==> Logs(a, kind) || Logs(b, kind)
  {
    if i :| 0 <= i < |a| && kind(a[i]) {
      assert (a + b)[i] == a[i];
    }
    if i :| 0 <= i < |b| && kind(b[i]) {
      assert (a + b)[|a| + i] == b[i];
    }
  }

  lemma {:induction false} FinishedCloses(namesRegion: string -> bool, s: Session, e: Envelope, done: seq<Kind>)
    requires !s.failed && !Logs(done, IsClosing) && !Logs(done, IsFailing)
    ensures Closed(s, done, Finished(namesRegion, s, e, done))
  {
    var t := Finished(namesRegion, s, e, []);
    FinishedPrefix(namesRegion, s, e, done);
    LogsSplit(done, t.kinds, IsClosing);
    LogsSplit(done, t.kinds, IsFailing);
    if t.kinds != [] {
      assert IsClosing(t.kinds[|t.kinds| - 1]);
    }
  }

  lemma {:induction false} ModelCloses(namesRegion: string -> bool, s: Session, o: Oracle, done: seq<Kind>)
    requires !s.failed && !Logs(done, IsClosing) && !Logs(done, IsFailing)
    ensures Closed(s, done, ModelTurn(namesRegion, s, o, done))
  {
    var e := Accepted(namesRegion, s, o);
    if !o.reply.Raised? && e.Some? {
      FinishedCloses(namesRegion, s, e.value, done);
    } else if !o.reply.Raised? {
      LogsSplit(done, [TurnFailed], IsClosing);
      LogsSplit(done, [TurnFailed], IsFailing);
      assert IsFailing([TurnFailed][0]);
    }
  }

  /** A turn of an active session whose profile is intact starts with its event, and it
      completes exactly when it closes its stream: then the two last events tell its envelope
      and whether the session failed, and the two last messages are the user's and the
      envelope's text. A turn that does not complete fails the session exactly when it logs a
      failure. Any other turn changes nothing. */
  lemma {:induction false} TurnsAreClosed(namesRegion: string -> bool, s: Session, message: string, o: Oracle)
    ensures var t := Turn(namesRegion, s, message, o);
      if s.failed || !o.pinned then t.session == s && t.kinds == [] && !t.outcome.Completed?
      else Closed(s.(messages := s.messages + [Message(true, message)]), [TurnStarted], t)
  {
    var s1 := WithMessage(s, true, message);
    if !s.failed && o.pinned {
      if o.unsupported.Some? {
        FinishedCloses(namesRegion, s1, Assistant(o.unsupported.value), [TurnStarted]);
      } else if o.gap.Some? && o.gap.value.Clarification? {
        FinishedCloses(namesRegion, s1, o.gap.value, [TurnStarted]);
      } else if s1.loaded {
        ModelCloses(namesRegion, s1, o, [TurnStarted]);
      } else if o.policy.None? {
        assert IsFailing([TurnStarted, TurnFailed][1]);
      } else {
        var s2 := s1.(policy := o.policy, loaded := true);
        ModelCloses(namesRegion, s2, o, [TurnStarted, PolicyLoaded(o.policy.value)]);
      }
    }
  }

  /** Failure is absorbing: afterwards no step changes the status or adds an event. */
  lemma {:induction false} FailedIsAbsorbing(namesRegion: string -> bool, s: State, steps: seq<Step>)
    requires s.session.failed && Runs.Run(Stepper(namesRegion), s, steps).Some?
    ensures var n := Runs.Run(Stepper(namesRegion), s, steps).value; n.session.failed && n.log == s.log
  {
    var stuck := (x: State) => x.session.failed && x.log == s.log;
    forall x, e | stuck(x) && Stepper(namesRegion)(x, e).Some? ensures stuck(Stepper(namesRegion)(x, e).value) {
      assert x.log + [] == x.log;
    }
    Runs.Kept(Stepper(namesRegion), stuck, s, steps);
  }

  /** Once loaded, the policy of a session never changes. */
  lemma {:induction false} PolicyIsPinned(namesRegion: string -> bool, s: State, steps: seq<Step>)
    requires Inv(s) && s.session.policy.Some? && Runs.Run(Stepper(namesRegion), s, steps).Some?
    ensures Runs.Run(Stepper(namesRegion), s, steps).value.session.policy == s.session.policy
  {
    var same := (x: State) => Inv(x) && x.session.policy == s.session.policy;
    forall x, e | same(x) && Stepper(namesRegion)(x, e).Some? ensures same(Stepper(namesRegion)(x, e).value) {
      StepKeepsInv(namesRegion, x, e);
    }
    Runs.Kept(Stepper(namesRegion), same, s, steps);
  }

  /** A turn is refused as invalid while its session stays active, its answer already saved
      and the turn left open, if and only if the reply is an acceptable draft, the policy is
      disabled, and the draft breaks one of the rules the pre-flight still applies. */
  lemma {:induction false} SilentRefusalExactly(namesRegion: string -> bool, s: Session, o: Oracle, kinds: seq<Kind>)
    requires !s.failed
    ensures var t, e := ModelTurn(namesRegion, s, o, kinds), Accepted(namesRegion, s, o);
      t.outcome == InvalidResponse && !t.session.failed <==>
        && !o.reply.Raised? && e.Some? && e.value.Draft? && !s.policy.value.enabled
        && (var m, p := e.value.manifest, s.policy.value;
            Breaks(m, p, RegionNotAllowed) || Breaks(m, p, BudgetExceeded) || Breaks(m, p, TypeProhibited))
  {
    var e := Accepted(namesRegion, s, o);
    if !o.reply.Raised? && e.Some? && e.value.Draft? {
      ChecksPartExactly(e.value.manifest, s.policy.value);
    }
  }

  /** Such a turn exists: with a disabled policy that still names a region, a draft for
      another region is saved and then refused, and nothing closes the turn. */
  lemma {:induction false} SilentRefusalHappens(namesRegion: string -> bool, message: string)
    ensures var p := Policy(false, ["eu-west-1"], None, map[], [], false, false);
      var m := Manifest("us-east-1", None, map[], [], {}, false, false);
      var s := Session(0, false, [], [], Some(p), true, None);
      var t := Turn(namesRegion, s, message, Oracle(true, None, None, None, Replied(0, Draft(m, "done")), x => false));
      t.outcome == InvalidResponse && !t.session.failed && t.kinds == [TurnStarted] && |t.session.messages| == 2
  {
    var p := Policy(false, ["eu-west-1"], None, map[], [], false, false);
    var m := Manifest("us-east-1", None, map[], [], {}, false, false);
    assert "us-east-1"[0] != "eu-west-1"[0];
    assert Breaks(m, p, RegionNotAllowed);
    ChecksPartExactly(m, p);
  }
}
