/** The last-admin guard (backend/cmd/workspace-service/main.go) as transactions over one
    workspace's membership rows at READ COMMITTED. A row keeps its identity while it is
    updated; a member who is removed and added again gets a new row. */
module LastAdmin {
  import opened Outcomes
  import Runs

  type User = nat

  datatype Role = Admin | Engineer | Approver | Auditor | Viewer

  datatype Row = Row(id: nat, role: Role)

  datatype Change = Remove | SetRole(role: Role)

  /** A role update or a removal scans the admin rows of its snapshot one by one, passes
      the guard and writes the target's row; an addition or an accepted invitation inserts
      a row. Writes become visible at commit; row locks last as long as the transaction. */
  datatype Tx =
    | Scanning(target: User, change: Change, pending: set<nat>, counted: set<nat>, locked: set<nat>)
    | Passed(target: User, change: Change, counted: set<nat>, locked: set<nat>)
    | Wrote(target: User, change: Change, counted: set<nat>, locked: set<nat>, row: nat)
    | Inserted(user: User, role: Role)

  datatype State = State(members: map<User, Row>, nextRow: nat, txs: map<nat, Tx>)

  datatype Step =
    | Scan(t: nat, target: User, change: Change)
    | Lock(t: nat, row: nat)
    | Check(t: nat)
    | Write(t: nat)
    | Insert(t: nat, user: User, role: Role)
    | Commit(t: nat)
    | Rollback(t: nat)

  function Locks(tx: Tx): set<nat> {
    if tx.Inserted? then {} else tx.locked
  }

  function Admins(s: State): set<User> {
    set u | u in s.members && s.members[u].role == Admin
  }

  function AdminRows(s: State): set<nat> {
    set u | u in s.members && s.members[u].role == Admin :: s.members[u].id
  }

  ghost predicate Alive(s: State, row: nat) {
    exists u :: u in s.members && s.members[u].id == row
  }

  /** No other transaction holds the row. */
  ghost predicate Free(s: State, t: nat, row: nat) {
    forall o | o in s.txs && o != t :: row !in Locks(s.txs[o])
  }

  /** The locking scan takes its rows from a snapshot, waits for each, and looks again:
      a row that is gone is skipped, a row that is no longer an admin is not counted. */
  ghost function LockRow(s: State, tx: Tx, row: nat): Tx
    requires tx.Scanning?
  {
    tx.(pending := tx.pending - {row},
        counted := if row in AdminRows(s) then tx.counted + {row} else tx.counted,
        locked := if Alive(s, row) then tx.locked + {row} else tx.locked)
  }

  /** The guard lets a transaction through unless it counted at most one admin and the
      target is an admin. */
  predicate GuardPasses(s: State, tx: Tx)
    requires tx.Scanning?
  {
    |tx.counted| > 1 || tx.target !in Admins(s)
  }

  function Written(s: State, tx: Tx): map<User, Row>
    requires tx.Wrote? || tx.Inserted?
  {
    if tx.Inserted? then s.members[tx.user := Row(s.nextRow, tx.role)]
    else if tx.change.Remove? then s.members - {tx.target}
    else s.members[tx.target := Row(tx.row, tx.change.role)]
  }

  ghost function Next(s: State, e: Step): Option<State> {
    match e
    case Scan(t, target, change) =>
      if t in s.txs then None
      else Some(s.(txs := s.txs[t := Scanning(target, change, AdminRows(s), {}, {})]))
    case Lock(t, row) =>
      if t in s.txs && s.txs[t].Scanning? && row in s.txs[t].pending && Free(s, t, row)
      then Some(s.(txs := s.txs[t := LockRow(s, s.txs[t], row)])) else None
    case Check(t) =>
      if t in s.txs && s.txs[t].Scanning? && s.txs[t].pending == {} && GuardPasses(s, s.txs[t])
      then Some(s.(txs := s.txs[t := Passed(s.txs[t].target, s.txs[t].change, s.txs[t].counted, s.txs[t].locked)])) else None
    case Write(t) =>
      if t in s.txs && s.txs[t].Passed? && s.txs[t].target in s.members && Free(s, t, s.members[s.txs[t].target].id)
      then
        var tx, row := s.txs[t], s.members[s.txs[t].target].id;
        Some(s.(txs := s.txs[t := Wrote(tx.target, tx.change, tx.counted, tx.locked + {row}, row)]))
      else None
    case Insert(t, user, role) =>
      if t in s.txs || user in s.members || exists o :: o in s.txs && s.txs[o].Inserted? && s.txs[o].user == user then None
      else Some(s.(txs := s.txs[t := Inserted(user, role)]))
    case Commit(t) =>
      if t in s.txs && (s.txs[t].Wrote? || s.txs[t].Inserted?)
      then Some(State(Written(s, s.txs[t]), if s.txs[t].Inserted? then s.nextRow + 1 else s.nextRow, s.txs - {t})) else None
    case Rollback(t) =>
      if t in s.txs then Some(s.(txs := s.txs - {t})) else None
  }

  /** A new workspace has its creator as the one admin. */
  function Created(creator: User): State {
    State(map[creator := Row(0, Admin)], 1, map[])
  }

  ghost predicate RowsOk(s: State) {
    && (forall u | u in s.members :: s.members[u].id < s.nextRow)
    && (forall u, v | u in s.members && v in s.members && u != v :: s.members[u].id != s.members[v].id)
  }

  ghost predicate Exclusive(s: State) {
    forall t, o | t in s.txs && o in s.txs && t != o :: Locks(s.txs[t]) !! Locks(s.txs[o])
  }

  /** Locked rows exist, counted rows are locked admins, and a transaction that counted at
      most one row before it passed did not count its own target. */
  ghost predicate TxOk(s: State, tx: Tx) {
    !tx.Inserted? ==>
      && (forall row | row in tx.locked :: Alive(s, row))
      && tx.counted <= tx.locked && tx.counted <= AdminRows(s)
      && (!tx.Scanning? && |tx.counted| <= 1 && tx.target in s.members ==> s.members[tx.target].id !in tx.counted)
      && (tx.Wrote? ==> tx.row in tx.locked && tx.target in s.members && s.members[tx.target].id == tx.row)
  }

  ghost predicate InsertsOk(s: State) {
    && (forall t | t in s.txs && s.txs[t].Inserted? :: s.txs[t].user !in s.members)
    && (forall t, o | t in s.txs && o in s.txs && t != o && s.txs[t].Inserted? && s.txs[o].Inserted? ::
          s.txs[t].user != s.txs[o].user)
  }

  ghost predicate Inv(s: State) {
    RowsOk(s) && Exclusive(s) && InsertsOk(s) && forall t | t in s.txs :: TxOk(s, s.txs[t])
  }

  /** What a commit leaves alone: rows outside the transaction's locks keep owner and role. */
  lemma {:induction false} CommitKeepsOtherRows(s: State, t: nat)
    requires Inv(s) && Next(s, Commit(t)).Some?
    ensures var n := Next(s, Commit(t)).value;
      && (forall u | u in s.members && s.members[u].id !in Locks(s.txs[t]) :: u in n.members && n.members[u] == s.members[u])
      && (forall u | u in n.members :: n.members[u].id == s.nextRow || (u in s.members && n.members[u].id == s.members[u].id))
  {
    assert TxOk(s, s.txs[t]);
  }

  lemma {:induction false} CommitKeepsTx(s: State, t: nat, o: nat)
    requires Inv(s) && Next(s, Commit(t)).Some? && o in s.txs && o != t
    ensures TxOk(Next(s, Commit(t)).value, s.txs[o])
  {
    var n, tx := Next(s, Commit(t)).value, s.txs[o];
    CommitKeepsOtherRows(s, t);
    assert TxOk(s, tx) && Locks(tx) !! Locks(s.txs[t]);
    if !tx.Inserted? {
      forall row | row in tx.locked ensures Alive(n, row) {
        var u :| u in s.members && s.members[u].id == row;
        assert n.members[u] == s.members[u];
      }
      forall row | row in tx.counted ensures row in AdminRows(n) {
        var u :| u in s.members && s.members[u].id == row && s.members[u].role == Admin;
        assert n.members[u] == s.members[u];
      }
      assert forall row | row in AdminRows(s) :: row < s.nextRow;
    }
  }

  lemma {:induction false} CommitKeepsInv(s: State, t: nat)
    requires Inv(s) && Next(s, Commit(t)).Some?
    ensures Inv(Next(s, Commit(t)).value)
  {
    var n := Next(s, Commit(t)).value;
    CommitKeepsOtherRows(s, t);
    assert TxOk(s, s.txs[t]);
    forall o | o in n.txs ensures TxOk(n, n.txs[o]) {
      CommitKeepsTx(s, t, o);
    }
  }

  lemma {:induction false} StepKeepsTx(s: State, e: Step, o: nat)
    requires Inv(s) && !e.Commit? && Next(s, e).Some? && o in Next(s, e).value.txs
    ensures TxOk(Next(s, e).value, Next(s, e).value.txs[o])
  {
    var n := Next(s, e).value;
    if o in s.txs {
      assert TxOk(s, s.txs[o]);
      if o == e.t && e.Lock? {
        LockKeepsTx(s, s.txs[o], e.row);
      }
    }
  }

  lemma {:induction false} LockKeepsTx(s: State, tx: Tx, row: nat)
    requires tx.Scanning? && TxOk(s, tx)
    ensures TxOk(s, LockRow(s, tx, row))
  {
    if row in AdminRows(s) {
      var u :| u in s.members && s.members[u].id == row;
    }
  }

  lemma {:induction false} StepKeepsExclusion(s: State, e: Step)
    requires Inv(s) && !e.Commit? && Next(s, e).Some?
    ensures Exclusive(Next(s, e).value)
  {
    var n := Next(s, e).value;
    forall t, o | t in n.txs && o in n.txs && t != o ensures Locks(n.txs[t]) !! Locks(n.txs[o]) {
      if o == e.t {
        assert t in s.txs && n.txs[t] == s.txs[t];
      } else if t == e.t {
        assert o in s.txs && n.txs[o] == s.txs[o];
      }
    }
  }

  /** Every step keeps the invariant. */
  lemma {:induction false} StepKeepsInv(s: State, e: Step)
    requires Inv(s) && Next(s, e).Some?
    ensures Inv(Next(s, e).value)
  {
    if e.Commit? {
      CommitKeepsInv(s, e.t);
    } else {
      StepKeepsExclusion(s, e);
      var n := Next(s, e).value;
      forall o | o in n.txs ensures TxOk(n, n.txs[o]) {
        StepKeepsTx(s, e, o);
      }
    }
  }

  predicate Drops(change: Change) {
    change.Remove? || change.role != Admin
  }

  /** The one way to lose the last admin: the committing transaction counted no admin row
      at all, and its target is the only admin by now. */
  predicate Loses(s: State, t: nat) {
    && t in s.txs && s.txs[t].Wrote? && s.txs[t].counted == {}
    && Drops(s.txs[t].change) && Admins(s) == {s.txs[t].target}
  }

  /** A step takes the last admin away if and only if it is such a commit. */
  lemma {:induction false} LosesExactly(s: State, e: Step)
    requires Inv(s) && Next(s, e).Some? && Admins(s) != {}
    ensures Admins(Next(s, e).value) == {} <==> e.Commit? && Loses(s, e.t)
  {
    var n := Next(s, e).value;
    if !e.Commit? {
      assert n.members == s.members;
    } else {
      var tx := s.txs[e.t];
      assert TxOk(s, tx);
      if tx.Inserted? {
        var a :| a in Admins(s);
        assert a in Admins(n);
      } else {
        CommitTakesOnlyTarget(s, e.t);
        if Admins(n) == {} {
          OnlyTargetLeft(s, tx);
        }
      }
    }
  }

  lemma {:induction false} CommitTakesOnlyTarget(s: State, t: nat)
    requires Inv(s) && t in s.txs && s.txs[t].Wrote?
    ensures var n := Next(s, Commit(t)).value;
      Admins(n) == if Drops(s.txs[t].change) then Admins(s) - {s.txs[t].target} else Admins(s) + {s.txs[t].target}
  {
    assert TxOk(s, s.txs[t]);
  }

  /** Counting any admin row protects: that row's owner is another admin. */
  lemma {:induction false} OnlyTargetLeft(s: State, tx: Tx)
    requires Inv(s) && TxOk(s, tx) && tx.Wrote? && Admins(s) - {tx.target} == {}
    ensures tx.counted == {}
  {
    var own := s.members[tx.target].id;
    forall row | row in tx.counted ensures row == own {
      var u :| u in s.members && s.members[u].id == row && s.members[u].role == Admin;
      assert u in Admins(s) - {tx.target} || u == tx.target;
    }
    AtMostOne(tx.counted, own);
  }

  lemma AtMostOne(rows: set<nat>, row: nat)
    requires rows <= {row}
    ensures |rows| <= 1
  {
    assert rows == {} || rows == {row};
  }

  /** No transaction got through the guard without counting an admin row. */
  predicate Counted(s: State) {
    forall t | t in s.txs && !s.txs[t].Inserted? && !s.txs[t].Scanning? :: s.txs[t].counted != {}
  }

  ghost function CountedNext(s: State, e: Step): Option<State> {
    var n := Next(s, e);
    if n.Some? && Counted(n.value) then n else None
  }

  ghost predicate Administered(s: State) {
    Inv(s) && Counted(s) && Admins(s) != {}
  }

  /** Over every interleaving in which each passing guard counted at least one row, the
      workspace always has an admin. */
  lemma {:induction false} AdminSurvives(creator: User, steps: seq<Step>)
    requires Runs.Run(CountedNext, Created(creator), steps).Some?
    ensures Admins(Runs.Run(CountedNext, Created(creator), steps).value) != {}
  {
    var s := Created(creator);
    assert creator in Admins(s);
    forall s, e | Administered(s) && CountedNext(s, e).Some? ensures Administered(CountedNext(s, e).value) {
      StepKeepsInv(s, e);
      LosesExactly(s, e);
    }
    Runs.Kept(CountedNext, Administered, s, steps);
  }

  /** The invariant holds after every run, whatever the guards counted. */
  lemma {:induction false} InvAlways(creator: User, steps: seq<Step>)
    requires Runs.Run(Next, Created(creator), steps).Some?
    ensures Inv(Runs.Run(Next, Created(creator), steps).value)
  {
    forall s, e | Inv(s) && Next(s, e).Some? ensures Inv(Next(s, e).value) {
      StepKeepsInv(s, e);
    }
    Runs.Kept(Next, Inv, Created(creator), steps);
  }

  datatype Ask = Changes(target: User, change: Change) | Adds(user: User, role: Role)

  /** What the transaction `t` asked for when it began last. */
  function Asked(steps: seq<Step>, t: nat): Option<Ask> {
    if steps == [] then None
    else
      match steps[|steps| - 1]
      case Scan(o, target, change) => if o == t then Some(Changes(target, change)) else Asked(steps[..|steps| - 1], t)
      case Insert(o, user, role) => if o == t then Some(Adds(user, role)) else Asked(steps[..|steps| - 1], t)
      case _ => Asked(steps[..|steps| - 1], t)
  }

  /** A user's role after what one transaction asked for. */
  function Given(before: Option<Role>, ask: Option<Ask>, u: User): Option<Role> {
    match ask
    case Some(Changes(target, Remove)) => if target == u then None else before
    case Some(Changes(target, SetRole(role))) => if target == u then Some(role) else before
    case Some(Adds(user, role)) => if user == u then Some(role) else before
    case None => before
  }

  /** A user's role by the commits alone, in their order. */
  function RoleAfter(creator: User, steps: seq<Step>, u: User): Option<Role> {
    if steps == [] then if u == creator then Some(Admin) else None
    else
      var front, last := steps[..|steps| - 1], steps[|steps| - 1];
      var before := RoleAfter(creator, front, u);
      if last.Commit? then Given(before, Asked(front, last.t), u) else before
  }

  function RoleOf(s: State, u: User): Option<Role> {
    if u in s.members then Some(s.members[u].role) else None
  }

  function AskOf(tx: Tx): Ask {
    if tx.Inserted? then Adds(tx.user, tx.role) else Changes(tx.target, tx.change)
  }

  ghost predicate Follows(creator: User, steps: seq<Step>, s: State) {
    && (forall u :: RoleOf(s, u) == RoleAfter(creator, steps, u))
    && (forall t | t in s.txs :: Asked(steps, t) == Some(AskOf(s.txs[t])))
  }

  lemma {:induction false} StepFollows(creator: User, steps: seq<Step>, s: State, e: Step)
    requires Follows(creator, steps, s) && Next(s, e).Some?
    ensures Follows(creator, steps + [e], Next(s, e).value)
  {
    var n, all := Next(s, e).value, steps + [e];
    assert all[..|steps|] == steps && all[|steps|] == e;
    forall u ensures RoleOf(n, u) == RoleAfter(creator, all, u) {
      assert RoleOf(s, u) == RoleAfter(creator, steps, u);
    }
    forall t | t in n.txs ensures Asked(all, t) == Some(AskOf(n.txs[t])) {
      assert t in s.txs ==> Asked(steps, t) == Some(AskOf(s.txs[t]));
    }
  }

  /** Over every interleaving the members and their roles are what the committed transactions
      asked for, each applied whole and in the order of the commits; one that was rolled back,
      or has not committed, shows nowhere. */
  lemma {:induction false} RolesAreWhatCommitted(creator: User, steps: seq<Step>, u: User)
    requires Runs.Run(Next, Created(creator), steps).Some?
    ensures RoleOf(Runs.Run(Next, Created(creator), steps).value, u) == RoleAfter(creator, steps, u)
  {
    var inv := (so, s) => Follows(creator, so, s);
    forall so, s, e | inv(so, s) && Next(s, e).Some? ensures inv(so + [e], Next(s, e).value) {
      StepFollows(creator, so, s, e);
    }
    Runs.KeptAlong(Next, inv, Created(creator), steps);
  }

  /** Every transaction but `t` moves. */
  ghost function Without(t: nat): (State, Step) -> Option<State> {
    (s: State, e: Step) => if e.t == t then None else Next(s, e)
  }

  /** `t` has not moved since `s`, and the admins of `s` still have their rows. */
  ghost predicate Keeps(s: State, t: nat, x: State) {
    && Inv(x) && t in x.txs && t in s.txs && x.txs[t] == s.txs[t]
    && forall u | u in Admins(s) :: u in x.members && x.members[u] == s.members[u]
  }

  lemma {:induction false} OtherKeeps(s: State, t: nat, x: State, e: Step)
    requires Keeps(s, t, x) && AdminRows(s) <= Locks(s.txs[t]) && e.t != t && Next(x, e).Some?
    ensures Keeps(s, t, Next(x, e).value)
  {
    StepKeepsInv(x, e);
    if e.Commit? {
      CommitKeepsOtherRows(x, e.t);
      forall u | u in Admins(s) ensures u in Next(x, e).value.members && Next(x, e).value.members[u] == s.members[u] {
        assert s.members[u].id in AdminRows(s);
      }
    }
  }

  /** While one transaction holds every current admin row, nothing the others do, in any
      number of steps, takes an admin away. */
  lemma {:induction false} LocksExcludeRemovers(s: State, t: nat, steps: seq<Step>)
    requires Inv(s) && t in s.txs && AdminRows(s) <= Locks(s.txs[t])
    requires Runs.Run(Without(t), s, steps).Some?
    ensures Admins(s) <= Admins(Runs.Run(Without(t), s, steps).value)
  {
    var keeps := (x: State) => Keeps(s, t, x);
    forall x, e | keeps(x) && Without(t)(x, e).Some? ensures keeps(Without(t)(x, e).value) {
      OtherKeeps(s, t, x, e);
    }
    Runs.Kept(Without(t), keeps, s, steps);
  }

  /** Counting every admin of a fresh snapshot means the count is exact. */
  lemma {:induction false} FreshCountIsExact(s: State, tx: Tx)
    requires Inv(s) && TxOk(s, tx) && tx.Scanning? && tx.pending == {} && AdminRows(s) <= tx.counted
    ensures |tx.counted| == |Admins(s)|
  {
    assert tx.counted == AdminRows(s) == set u | u in Admins(s) :: s.members[u].id;
    RowCount(s.members, Admins(s));
  }

  lemma {:induction false} RowCount(members: map<User, Row>, users: set<User>)
    requires users <= members.Keys
    requires forall u, v | u in members && v in members && u != v :: members[u].id != members[v].id
    ensures |set u | u in users :: members[u].id| == |users|
  {
    var rows := set u | u in users :: members[u].id;
    if users == {} {
      assert rows == {};
    } else {
      var u :| u in users;
      var rest := set v | v in users - {u} :: members[v].id;
      RowCount(members, users - {u});
      assert rows == rest + {members[u].id};
    }
  }

  ghost predicate Reaches(steps: seq<Step>, s: State) {
    Runs.Run(Next, Created(0), steps) == Some(s)
  }

  lemma Go(steps: seq<Step>, s: State, e: Step, n: State) returns (longer: seq<Step>)
    requires Reaches(steps, s) && Next(s, e) == Some(n)
    ensures Reaches(longer, n)
  {
    longer := steps + [e];
    Runs.Extend(Next, Created(0), steps, e);
  }

  /** The rest of a scan with nothing in between: every admin row is counted. */
  lemma {:induction false} ScanAll(steps: seq<Step>, s: State, t: nat, done: set<nat>) returns (longer: seq<Step>)
    requires t in s.txs && s.txs[t].Scanning? && s.txs[t].locked == s.txs[t].counted == done && done <= AdminRows(s)
    requires s.txs[t].pending == AdminRows(s) - done && Reaches(steps, s)
    requires forall o | o in s.txs && o != t :: Locks(s.txs[o]) == {}
    ensures Reaches(longer, s.(txs := s.txs[t := s.txs[t].(pending := {}, counted := AdminRows(s), locked := AdminRows(s))]))
    decreases AdminRows(s) - done
  {
    var tx := s.txs[t];
    if tx.pending == {} {
      assert forall row | row in AdminRows(s) :: row in tx.pending || row in done;
      assert done == AdminRows(s);
      longer := steps;
      assert s.txs[t := tx] == s.txs;
    } else {
      var row :| row in tx.pending;
      assert Alive(s, row);
      var n := s.(txs := s.txs[t := LockRow(s, tx, row)]);
      longer := Go(steps, s, Lock(t, row), n);
      assert AdminRows(n) == AdminRows(s);
      assert n.txs[t].pending == AdminRows(s) - (done + {row});
      longer := ScanAll(longer, n, t, done + {row});
      var last := tx.(pending := {}, counted := AdminRows(s), locked := AdminRows(s));
      assert n.txs[t := last] == s.txs[t := last];
    }
  }

  lemma {:induction false} WriteAndCommit(steps: seq<Step>, s: State, t: nat) returns (longer: seq<Step>)
    requires t in s.txs && s.txs[t].Scanning? && s.txs[t].pending == {} && s.txs[t].target in s.members && Reaches(steps, s)
    requires GuardPasses(s, s.txs[t])
    requires forall o | o in s.txs && o != t :: Locks(s.txs[o]) == {}
    ensures var tx := s.txs[t];
      Reaches(longer, State(if tx.change.Remove? then s.members - {tx.target}
                            else s.members[tx.target := Row(s.members[tx.target].id, tx.change.role)], s.nextRow, s.txs - {t}))
  {
    var tx, id := s.txs[t], s.members[s.txs[t].target].id;
    var passed := s.(txs := s.txs[t := Passed(tx.target, tx.change, tx.counted, tx.locked)]);
    longer := Go(steps, s, Check(t), passed);
    var wrote := s.(txs := s.txs[t := Wrote(tx.target, tx.change, tx.counted, tx.locked + {id}, id)]);
    assert passed.txs[t := wrote.txs[t]] == wrote.txs;
    longer := Go(longer, passed, Write(t), wrote);
    assert wrote.txs - {t} == s.txs - {t};
    longer := Go(longer, wrote, Commit(t), State(Written(s, wrote.txs[t]), s.nextRow, s.txs - {t}));
  }

  /** A whole role update or removal with nothing in between, while `others` stay still. */
  lemma {:induction false} Alone(
    steps: seq<Step>, members: map<User, Row>, nextRow: nat, others: map<nat, Tx>, t: nat, target: User, change: Change)
    returns (longer: seq<Step>)
    requires Reaches(steps, State(members, nextRow, others)) && t !in others && target in members
    requires forall o | o in others :: Locks(others[o]) == {}
    requires var s := State(members, nextRow, others); |AdminRows(s)| > 1 || target !in Admins(s)
    ensures Reaches(longer, State(if change.Remove? then members - {target}
                                  else members[target := Row(members[target].id, change.role)], nextRow, others))
  {
    var s := State(members, nextRow, others);
    var n := s.(txs := others[t := Scanning(target, change, AdminRows(s), {}, {})]);
    longer := Go(steps, s, Scan(t, target, change), n);
    assert AdminRows(n) == AdminRows(s) && AdminRows(n) - {} == AdminRows(n);
    longer := ScanAll(longer, n, t, {});
    var scanned := n.(txs := n.txs[t := Scanning(target, change, {}, AdminRows(s), AdminRows(s))]);
    assert Admins(scanned) == Admins(s);
    longer := WriteAndCommit(longer, scanned, t);
    assert scanned.txs - {t} == others;
  }

  lemma TwoAdmins(s: State, u: User, v: User)
    requires u in Admins(s) && v in Admins(s) && s.members[u].id != s.members[v].id
    ensures |AdminRows(s)| > 1
  {
    var a, b := s.members[u].id, s.members[v].id;
    assert {a, b} <= AdminRows(s);
    assert |AdminRows(s) - {a, b}| == |AdminRows(s)| - 2;
  }

  lemma {:induction false} Joined(
    steps: seq<Step>, members: map<User, Row>, nextRow: nat, others: map<nat, Tx>, t: nat, user: User, role: Role)
    returns (longer: seq<Step>)
    requires Reaches(steps, State(members, nextRow, others)) && t !in others && user !in members
    requires forall o | o in others :: !others[o].Inserted?
    ensures Reaches(longer, State(members[user := Row(nextRow, role)], nextRow + 1, others))
  {
    var s := State(members, nextRow, others);
    var n := s.(txs := others[t := Inserted(user, role)]);
    longer := Go(steps, s, Insert(t, user, role), n);
    assert n.txs - {t} == others;
    longer := Go(longer, n, Commit(t), State(members[user := Row(nextRow, role)], nextRow + 1, others));
  }

  /** The guard as written does not keep the last admin over every interleaving. A removal
      of viewer 2 scans while 0 is the only admin, and waits; 1 joins as admin and 0 is
      removed, so the scan counts nobody and the guard passes; 2 is promoted, 1 is removed,
      and then the waiting removal takes 2 away. */
  lemma {:induction false} LastAdminCanBeLost()
    ensures exists steps :: Runs.Run(Next, Created(0), steps).Some? && Admins(Runs.Run(Next, Created(0), steps).value) == {}
  {
    var members, waiting := map[2 := Row(1, Viewer), 1 := Row(2, Admin)], map[9 := Scanning(2, Remove, {0}, {}, {})];
    var passed := map[9 := Passed(2, Remove, {}, {})];
    var steps := ScansAndWaits();
    steps := GuardsOnNobody(steps, members, waiting);
    steps := Alone(steps, members, 3, passed, 1, 2, SetRole(Admin));
    var two := map[2 := Row(1, Admin), 1 := Row(2, Admin)];
    assert members[2 := Row(1, Admin)] == two;
    TwoAdmins(State(two, 3, passed), 1, 2);
    steps := Alone(steps, two, 3, passed, 1, 1, Remove);
    assert two - {1} == map[2 := Row(1, Admin)];
    steps := Finishes(steps, two - {1}, passed);
    assert Admins(State(map[], 3, map[])) == {};
  }

  lemma {:induction false} ScansAndWaits() returns (steps: seq<Step>)
    ensures Reaches(steps, State(map[2 := Row(1, Viewer), 1 := Row(2, Admin)], 3, map[9 := Scanning(2, Remove, {0}, {}, {})]))
  {
    var a0, a1, v2 := Row(0, Admin), Row(2, Admin), Row(1, Viewer);
    var none: map<nat, Tx> := map[];
    var m1 := map[0 := a0, 2 := v2];
    assert Reaches([], State(map[0 := a0], 1, none));
    steps := Joined([], map[0 := a0], 1, none, 1, 2, Viewer);
    assert map[0 := a0][2 := v2] == m1;
    var s := State(m1, 2, none);
    assert AdminRows(s) == {0} by {
      assert m1[0] == a0;
    }
    var waiting := map[9 := Scanning(2, Remove, {0}, {}, {})];
    assert none[9 := waiting[9]] == waiting;
    steps := Go(steps, s, Scan(9, 2, Remove), s.(txs := waiting));
    steps := Joined(steps, m1, 2, waiting, 1, 1, Admin);
    var m2 := map[0 := a0, 2 := v2, 1 := a1];
    assert m1[1 := a1] == m2;
    TwoAdmins(State(m2, 3, waiting), 0, 1);
    steps := Alone(steps, m2, 3, waiting, 1, 0, Remove);
    assert m2 - {0} == map[2 := v2, 1 := a1];
  }

  lemma {:induction false} GuardsOnNobody(steps: seq<Step>, members: map<User, Row>, waiting: map<nat, Tx>) returns (longer: seq<Step>)
    requires members == map[2 := Row(1, Viewer), 1 := Row(2, Admin)] && waiting == map[9 := Scanning(2, Remove, {0}, {}, {})]
    requires Reaches(steps, State(members, 3, waiting))
    ensures Reaches(longer, State(members, 3, map[9 := Passed(2, Remove, {}, {})]))
  {
    var s := State(members, 3, waiting);
    assert forall u | u in members :: members[u].id != 0;
    assert {0} - {0} == {};
    var skipped := s.(txs := map[9 := Scanning(2, Remove, {}, {}, {})]);
    assert s.txs[9 := LockRow(s, s.txs[9], 0)] == skipped.txs;
    longer := Go(steps, s, Lock(9, 0), skipped);
    var passed := s.(txs := map[9 := Passed(2, Remove, {}, {})]);
    assert skipped.txs[9 := passed.txs[9]] == passed.txs;
    longer := Go(longer, skipped, Check(9), passed);
  }

  lemma {:induction false} Finishes(steps: seq<Step>, members: map<User, Row>, passed: map<nat, Tx>) returns (longer: seq<Step>)
    requires members == map[2 := Row(1, Admin)] && passed == map[9 := Passed(2, Remove, {}, {})]
    requires Reaches(steps, State(members, 3, passed))
    ensures Reaches(longer, State(map[], 3, map[]))
  {
    var s := State(members, 3, passed);
    var n := s.(txs := map[9 := Wrote(2, Remove, {}, {1}, 1)]);
    assert {} + {1} == {1};
    assert s.txs[9 := n.txs[9]] == n.txs;
    longer := Go(steps, s, Write(9), n);
    assert n.txs - {9} == map[] && members - {2} == map[];
    longer := Go(longer, n, Commit(9), State(map[], 3, map[]));
  }
}
