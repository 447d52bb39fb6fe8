/** The discovery cache of connected cloud accounts
    (backend/internal/cloudaccount/capabilities.go). `CapabilitiesHandler` holds the state
    the mutex guards; each method is one critical section. */
module DiscoveryCache {
  import opened Outcomes
  import opened Texts

  datatype Account = Account(
    id: string, workspace: string, provider: string, alias: string, status: string, defaultRegion: string,
    updatedAt: string, verified: bool)

  datatype Discovery = Discovery(accountId: string, regions: seq<string>, permissionsVerified: bool)

  /** Times are nanoseconds. */
  datatype Entry = Entry(facts: Discovery, checked: int, expires: int)

  datatype Cache = Cache(entries: map<string, Entry>, generation: map<string, nat>)

  const HOUR := 3_600_000_000_000
  const CAPACITY := 1024
  /** Generations are 64-bit counters. */
  const WIDTH := 0x1_0000_0000_0000_0000

  function Key(a: Account): string {
    Glued(a.workspace, ':', Glued(a.id, ':', a.updatedAt))
  }

  /** The key names the account, given identifiers without colons. */
  lemma {:induction false} KeyInjective(a: Account, b: Account)
    requires Key(a) == Key(b) && ':' !in a.workspace && ':' !in b.workspace && ':' !in a.id && ':' !in b.id
    ensures a.workspace == b.workspace && a.id == b.id && a.updatedAt == b.updatedAt
  {
    CutHead(':', a.workspace, Glued(a.id, ':', a.updatedAt), b.workspace, Glued(b.id, ':', b.updatedAt));
    CutHead(':', a.id, a.updatedAt, b.id, b.updatedAt);
  }

  function Generation(c: Cache, workspace: string): nat {
    if workspace in c.generation then c.generation[workspace] else 0
  }

  predicate Usable(facts: Discovery) {
    |facts.accountId| == 12 && |facts.regions| != 0
  }

  function Hit(c: Cache, a: Account, now: int, force: bool): Option<Entry> {
    if Key(a) in c.entries && !force && now < c.entries[Key(a)].expires then Some(c.entries[Key(a)]) else None
  }

  function Live(entries: map<string, Entry>, now: int): map<string, Entry> {
    map k | k in entries && now < entries[k].expires :: entries[k]
  }

  function Kept(entries: map<string, Entry>, now: int): map<string, Entry> {
    if |Live(entries, now)| >= CAPACITY then map[] else Live(entries, now)
  }

  /** A discovery that may be stored: usable, and of the generation that is current. */
  predicate Storable(c: Cache, a: Account, generation: nat, facts: Option<Discovery>) {
    facts.Some? && Usable(facts.value) && Generation(c, a.workspace) == generation
  }

  function EntryOf(facts: Discovery, now: int): Entry {
    Entry(facts, now, now + HOUR)
  }

  function Stored(c: Cache, a: Account, now: int, facts: Discovery): Cache {
    c.(entries := Kept(c.entries, now)[Key(a) := EntryOf(facts, now)])
  }

  function Others(entries: map<string, Entry>, workspace: string): map<string, Entry> {
    map k | k in entries && !HasPrefix(k, workspace + ":") :: entries[k]
  }

  function Refreshed(c: Cache, workspace: string): Cache {
    Cache(Others(c.entries, workspace), c.generation[workspace := (Generation(c, workspace) + 1) % WIDTH])
  }

  /** Within capacity, and every entry safe to index. */
  predicate Sound(c: Cache) {
    && |c.entries| <= CAPACITY
    && (forall k | k in c.entries :: Usable(c.entries[k].facts))
  }

  lemma {:induction false} SubmapSize(small: map<string, Entry>, large: map<string, Entry>)
    requires small.Keys <= large.Keys
    ensures |small| <= |large|
  {
    assert |small| == |small.Keys| && |large| == |large.Keys|;
    SetSize(small.Keys, large.Keys);
  }

  lemma {:induction false} SetSize(a: set<string>, b: set<string>)
    requires a <= b
    ensures |a| <= |b|
  {
    assert b == a + (b - a);
  }

  lemma {:induction false} StoredIsSound(c: Cache, a: Account, now: int, facts: Discovery)
    requires Sound(c) && Usable(facts)
    ensures Sound(Stored(c, a, now, facts))
  {
    var kept := Kept(c.entries, now);
    var n := kept[Key(a) := EntryOf(facts, now)];
    assert n.Keys == kept.Keys + {Key(a)};
    assert |n| == |n.Keys| && |kept| == |kept.Keys|;
  }

  lemma {:induction false} RefreshedIsSound(c: Cache, workspace: string)
    requires Sound(c)
    ensures Sound(Refreshed(c, workspace))
  {
    SubmapSize(Others(c.entries, workspace), c.entries);
  }

  class CapabilitiesHandler {
    var entries: map<string, Entry>
    var generation: map<string, nat>

    function View(): Cache
      reads this
    {
      Cache(entries, generation)
    }

    constructor ()
      ensures View() == Cache(map[], map[]) && Sound(View())
    {
      entries, generation := map[], map[];
    }

    /** The first critical section: look up, and note the generation. */
    method Begin(a: Account, now: int, force: bool) returns (hit: Option<Entry>, noted: nat)
      ensures hit == Hit(View(), a, now, force) && noted == Generation(View(), a.workspace)
      ensures Sound(View()) && hit.Some? ==> Usable(hit.value.facts)
    {
      var key := Key(a);
      noted := if a.workspace in generation then generation[a.workspace] else 0;
      hit := if key in entries && !force && now < entries[key].expires then Some(entries[key]) else None;
    }

    /** After the remote call: reject unusable facts and outdated generations, drop expired
        entries, make room, store. */
    method Finish(a: Account, noted: nat, now: int, facts: Option<Discovery>) returns (out: Option<Entry>)
      requires Sound(View())
      modifies this`entries
      ensures Sound(View())
      ensures if Storable(old(View()), a, noted, facts)
              then out == Some(EntryOf(facts.value, now)) && View() == Stored(old(View()), a, now, facts.value)
              else out == None && View() == old(View())
    {
      if facts.None? || |facts.value.accountId| != 12 || |facts.value.regions| == 0 {
        return None;
      }
      if Generation(View(), a.workspace) != noted {
        return None;
      }
      StoredIsSound(View(), a, now, facts.value);
      ghost var before := entries;
      var todo := entries.Keys;
      while todo != {}
        invariant todo <= before.Keys
        invariant entries == map k | k in before && (k in todo || now < before[k].expires) :: before[k]
      {
        var k :| k in todo;
        if now >= entries[k].expires {
          entries := entries - {k};
        }
        todo := todo - {k};
      }
      assert entries == Live(before, now);
      if |entries| >= CAPACITY {
        entries := map[];
      }
      entries := entries[Key(a) := EntryOf(facts.value, now)];
      return Some(EntryOf(facts.value, now));
    }

    /** Refresh: bump the generation and drop the workspace's entries. */
    method Invalidate(workspace: string)
      requires Sound(View())
      modifies this
      ensures Sound(View()) && View() == Refreshed(old(View()), workspace)
    {
      RefreshedIsSound(View(), workspace);
      generation := generation[workspace := (Generation(View(), workspace) + 1) % WIDTH];
      ghost var before := entries;
      var todo := entries.Keys;
      while todo != {}
        invariant todo <= before.Keys && generation == old(generation)[workspace := (Generation(old(View()), workspace) + 1) % WIDTH]
        invariant entries == map k | k in before && (k in todo || !HasPrefix(k, workspace + ":")) :: before[k]
      {
        var k :| k in todo;
        if HasPrefix(k, workspace + ":") {
          entries := entries - {k};
        }
        todo := todo - {k};
      }
      assert entries == Others(before, workspace);
    }
  }
}

/** All interleavings of discoveries and refreshes. */
module DiscoveryRuns {
  import opened Outcomes
  import opened Texts
  import opened DiscoveryCache
  import Runs

  /** A discovery in flight: what it noted, and, for the statement only, when it began and
      how often its workspace had been refreshed by then. */
  datatype Flight = Flight(account: Account, noted: nat, began: nat, refreshes: nat)

  /** `sources` records for every cached entry the flight it came from; `refreshes` and
      `refreshedAt` count and date the refreshes of a workspace. */
  datatype State = State(
    cache: Cache, flights: map<nat, Flight>, clock: nat,
    sources: map<string, Flight>, refreshes: map<string, nat>, refreshedAt: map<string, nat>)

  datatype Step =
    | Begin(f: nat, account: Account, now: int, force: bool)
    | Finish(f: nat, now: int, facts: Option<Discovery>)
    | Refresh(workspace: string)

  function Count(m: map<string, nat>, workspace: string): nat {
    if workspace in m then m[workspace] else 0
  }

  function Next(s: State, e: Step): Option<State> {
    var t := s.(clock := s.clock + 1);
    match e
    case Begin(f, a, now, force) =>
      if f in s.flights then None
      else if Hit(s.cache, a, now, force).Some? then Some(t)
      else Some(t.(flights := s.flights[f := Flight(a, Generation(s.cache, a.workspace), t.clock, Count(s.refreshes, a.workspace))]))
    case Finish(f, now, facts) =>
      if f !in s.flights then None
      else
        var flight := s.flights[f];
        var landed := t.(flights := s.flights - {f});
        if !Storable(s.cache, flight.account, flight.noted, facts) then Some(landed)
        else
          var cache := Stored(s.cache, flight.account, now, facts.value);
          Some(landed.(cache := cache, sources := s.sources[Key(flight.account) := flight]))
    case Refresh(workspace) =>
      Some(t.(cache := Refreshed(s.cache, workspace),
              refreshes := s.refreshes[workspace := Count(s.refreshes, workspace) + 1],
              refreshedAt := s.refreshedAt[workspace := t.clock]))
  }

  const START := State(Cache(map[], map[]), map[], 0, map[], map[], map[])

  /** A flight's counts fit the present: it began after the last refresh exactly when none
      has happened since. */
  predicate FlightOk(f: Flight, refreshes: nat, refreshedAt: nat, clock: nat) {
    && f.noted == f.refreshes % WIDTH && f.refreshes <= refreshes && f.began <= clock
    && (f.began > refreshedAt <==> f.refreshes == refreshes)
  }

  predicate FlightFits(s: State, f: Flight) {
    FlightOk(f, Count(s.refreshes, f.account.workspace), Count(s.refreshedAt, f.account.workspace), s.clock)
  }

  predicate SourceOk(s: State, k: string) {
    && k in s.sources && Key(s.sources[k].account) == k && FlightFits(s, s.sources[k])
    && s.sources[k].noted == Generation(s.cache, s.sources[k].account.workspace)
  }

  predicate WorkspaceOk(s: State, w: string) {
    && Generation(s.cache, w) == Count(s.refreshes, w) % WIDTH && Count(s.refreshedAt, w) <= s.clock
  }

  ghost predicate Inv(s: State) {
    && Sound(s.cache)
    && (forall w :: WorkspaceOk(s, w))
    && (forall f | f in s.flights :: FlightFits(s, s.flights[f]))
    && (forall k | k in s.cache.entries :: SourceOk(s, k))
  }

  lemma KeyHasPrefix(a: Account)
    ensures HasPrefix(Key(a), a.workspace + ":")
  {
  }

  lemma CountStep(n: nat)
    ensures (n % WIDTH + 1) % WIDTH == (n + 1) % WIDTH
  {
  }

  lemma {:induction false} RefreshKeepsWorkspace(s: State, e: Step, w: string)
    requires e.Refresh? && WorkspaceOk(s, w)
    ensures WorkspaceOk(Next(s, e).value, w)
  {
    CountStep(Count(s.refreshes, w));
  }

  lemma {:induction false} RefreshKeepsFlight(s: State, e: Step, f: Flight)
    requires e.Refresh? && FlightFits(s, f)
    ensures FlightFits(Next(s, e).value, f)
  {
  }

  lemma {:induction false} RefreshKeepsSource(s: State, e: Step, k: string)
    requires e.Refresh? && k in Next(s, e).value.cache.entries && SourceOk(s, k)
    ensures SourceOk(Next(s, e).value, k)
  {
    KeyHasPrefix(s.sources[k].account);
    RefreshKeepsFlight(s, e, s.sources[k]);
  }

  lemma {:induction false} RefreshKeepsInv(s: State, e: Step)
    requires Inv(s) && e.Refresh?
    ensures Inv(Next(s, e).value)
  {
    var n := Next(s, e).value;
    RefreshedIsSound(s.cache, e.workspace);
    forall w ensures WorkspaceOk(n, w) {
      assert WorkspaceOk(s, w);
      RefreshKeepsWorkspace(s, e, w);
    }
    forall k | k in n.cache.entries ensures SourceOk(n, k) {
      RefreshKeepsSource(s, e, k);
    }
    forall f | f in n.flights ensures FlightFits(n, n.flights[f]) {
      RefreshKeepsFlight(s, e, s.flights[f]);
    }
  }

  lemma {:induction false} BeginFits(s: State, e: Step)
    requires e.Begin? && Next(s, e).Some? && WorkspaceOk(s, e.account.workspace)
    requires e.f !in s.flights && e.f in Next(s, e).value.flights
    ensures FlightFits(Next(s, e).value, Next(s, e).value.flights[e.f])
  {
  }

  lemma {:induction false} FinishKeepsSource(s: State, e: Step, k: string)
    requires e.Finish? && Next(s, e).Some? && FlightFits(s, s.flights[e.f])
    requires k in s.cache.entries ==> SourceOk(s, k)
    requires k in Next(s, e).value.cache.entries
    ensures SourceOk(Next(s, e).value, k)
  {
  }

  lemma {:induction false} FinishIsSound(s: State, e: Step)
    requires e.Finish? && Next(s, e).Some? && Sound(s.cache)
    ensures Sound(Next(s, e).value.cache)
  {
    var a := s.flights[e.f].account;
    if Storable(s.cache, a, s.flights[e.f].noted, e.facts) {
      StoredIsSound(s.cache, a, e.now, e.facts.value);
    }
  }

  /** Beginning and finishing leave workspaces, and what flights noted, alone. */
  lemma {:induction false} OthersStay(s: State, e: Step, w: string, f: Flight)
    requires !e.Refresh? && Next(s, e).Some?
    ensures WorkspaceOk(s, w) ==> WorkspaceOk(Next(s, e).value, w)
    ensures FlightFits(s, f) ==> FlightFits(Next(s, e).value, f)
  {
  }

  lemma {:induction false} BeginKeepsSource(s: State, e: Step, k: string)
    requires e.Begin? && Next(s, e).Some? && k in Next(s, e).value.cache.entries && SourceOk(s, k)
    ensures SourceOk(Next(s, e).value, k)
  {
  }

  lemma {:induction false} FinishKeepsInv(s: State, e: Step)
    requires Inv(s) && e.Finish? && Next(s, e).Some?
    ensures Inv(Next(s, e).value)
  {
    var n := Next(s, e).value;
    FinishIsSound(s, e);
    forall w ensures WorkspaceOk(n, w) {
      OthersStay(s, e, w, s.flights[e.f]);
    }
    forall f | f in n.flights ensures FlightFits(n, n.flights[f]) {
      OthersStay(s, e, "", s.flights[f]);
    }
    forall k | k in n.cache.entries ensures SourceOk(n, k) {
      FinishKeepsSource(s, e, k);
    }
  }

  lemma {:induction false} BeginKeepsInv(s: State, e: Step)
    requires Inv(s) && e.Begin? && Next(s, e).Some?
    ensures Inv(Next(s, e).value)
  {
    var n := Next(s, e).value;
    forall w ensures WorkspaceOk(n, w) {
      OthersStay(s, e, w, Flight(e.account, 0, 0, 0));
    }
    forall f | f in n.flights ensures FlightFits(n, n.flights[f]) {
      if f in s.flights {
        OthersStay(s, e, "", s.flights[f]);
      } else {
        BeginFits(s, e);
      }
    }
    forall k | k in n.cache.entries ensures SourceOk(n, k) {
      BeginKeepsSource(s, e, k);
    }
  }

  lemma StartOk()
    ensures Inv(START)
  {
  }

  lemma {:induction false} InvAlways(steps: seq<Step>)
    requires Runs.Run(Next, START, steps).Some?
    ensures Inv(Runs.Run(Next, START, steps).value)
  {
    StartOk();
    forall s, e | Inv(s) && Next(s, e).Some? ensures Inv(Next(s, e).value) {
      match e
      case Begin(_, _, _, _) => BeginKeepsInv(s, e);
      case Finish(_, _, _) => FinishKeepsInv(s, e);
      case Refresh(_) => RefreshKeepsInv(s, e);
    }
    Runs.Kept(Next, Inv, START, steps);
  }

  /** Over every interleaving the cache holds at most 1024 entries, each with a 12-character
      account and a region, and each from a discovery that noted the generation its
      workspace still has. It began before the last refresh of the workspace if and only if
      a positive multiple of 2^64 refreshes came in between. */
  lemma {:induction false} CachedEntriesAreCurrent(steps: seq<Step>, k: string)
    requires Runs.Run(Next, START, steps).Some? && k in Runs.Run(Next, START, steps).value.cache.entries
    ensures var s := Runs.Run(Next, START, steps).value;
      && |s.cache.entries| <= 1024
      && |s.cache.entries[k].facts.accountId| == 12 && s.cache.entries[k].facts.regions != []
      && k in s.sources && Key(s.sources[k].account) == k
      && var f, w := s.sources[k], s.sources[k].account.workspace;
      && f.noted == Generation(s.cache, w)
      && f.refreshes <= Count(s.refreshes, w) && (Count(s.refreshes, w) - f.refreshes) % WIDTH == 0
      && (f.began > Count(s.refreshedAt, w) <==> Count(s.refreshes, w) - f.refreshes == 0)
  {
    InvAlways(steps);
    var s := Runs.Run(Next, START, steps).value;
    assert SourceOk(s, k);
    var f, w := s.sources[k], s.sources[k].account.workspace;
    assert WorkspaceOk(s, w);
    SameRemainder(Count(s.refreshes, w), f.refreshes);
  }

  lemma SameRemainder(a: nat, b: nat)
    requires a % WIDTH == b % WIDTH
    ensures (a - b) % WIDTH == 0
  {
    var q, r := a / WIDTH, b / WIDTH;
    assert a - b == (q - r) * WIDTH;
  }

  /** No refresh is ever undone in a run of fewer than 2^64 steps: whatever is cached began
      after the last refresh of its workspace. */
  lemma {:induction false} NothingOutlivesRefresh(steps: seq<Step>, k: string)
    requires Runs.Run(Next, START, steps).Some? && k in Runs.Run(Next, START, steps).value.cache.entries
    requires |steps| < WIDTH
    ensures var s := Runs.Run(Next, START, steps).value;
      k in s.sources && s.sources[k].began > Count(s.refreshedAt, s.sources[k].account.workspace)
  {
    CachedEntriesAreCurrent(steps, k);
    var s := Runs.Run(Next, START, steps).value;
    var f, w := s.sources[k], s.sources[k].account.workspace;
    CountBounded(steps, w);
    SmallMultiple(Count(s.refreshes, w) - f.refreshes);
  }

  lemma SmallMultiple(n: int)
    requires 0 <= n < WIDTH && n % WIDTH == 0
    ensures n == 0
  {
  }

  /** Some step brought these very facts, when the entry says they were checked. */
  ghost predicate Found(steps: seq<Step>, e: Entry) {
    exists i :: 0 <= i < |steps| && steps[i].Finish? && steps[i].now == e.checked && steps[i].facts == Some(e.facts)
  }

  ghost predicate AllFound(steps: seq<Step>, s: State) {
    forall k | k in s.cache.entries :: s.cache.entries[k].expires == s.cache.entries[k].checked + 3_600_000_000_000 && Found(steps, s.cache.entries[k])
  }

  lemma {:induction false} StepFinds(steps: seq<Step>, s: State, e: Step)
    requires AllFound(steps, s) && Next(s, e).Some?
    ensures AllFound(steps + [e], Next(s, e).value)
  {
    var n, all := Next(s, e).value, steps + [e];
    forall k | k in n.cache.entries
      ensures n.cache.entries[k].expires == n.cache.entries[k].checked + 3_600_000_000_000 && Found(all, n.cache.entries[k])
    {
      if k in s.cache.entries && n.cache.entries[k] == s.cache.entries[k] {
        var i :| 0 <= i < |steps| && steps[i].Finish? && steps[i].now == n.cache.entries[k].checked && steps[i].facts == Some(n.cache.entries[k].facts);
        assert all[i] == steps[i];
      } else {
        assert all[|steps|] == e;
      }
    }
  }

  lemma {:induction false} AlwaysFound(steps: seq<Step>)
    requires Runs.Run(Next, START, steps).Some?
    ensures AllFound(steps, Runs.Run(Next, START, steps).value)
  {
    forall so, s, e | AllFound(so, s) && Next(s, e).Some? ensures AllFound(so + [e], Next(s, e).value) {
      StepFinds(so, s, e);
    }
    Runs.KeptAlong(Next, AllFound, START, steps);
  }

  /** Over every interleaving, a request that starts no discovery was not forced, and is
      answered with facts that some discovery brought less than an hour before. */
  lemma {:induction false} ServedIsFresh(steps: seq<Step>, f: nat, a: Account, now: int, force: bool)
    requires Runs.Run(Next, START, steps).Some? && f !in Runs.Run(Next, START, steps).value.flights
    requires f !in Next(Runs.Run(Next, START, steps).value, Begin(f, a, now, force)).value.flights
    ensures var s := Runs.Run(Next, START, steps).value;
      && !force && Hit(s.cache, a, now, force).Some?
      && exists i :: 0 <= i < |steps| && steps[i].Finish? && steps[i].facts == Some(Hit(s.cache, a, now, force).value.facts)
                     && now < steps[i].now + 3_600_000_000_000
  {
    AlwaysFound(steps);
    var s := Runs.Run(Next, START, steps).value;
    var e := s.cache.entries[Key(a)];
    assert Hit(s.cache, a, now, force) == Some(e);
    var i :| 0 <= i < |steps| && steps[i].Finish? && steps[i].now == e.checked && steps[i].facts == Some(e.facts);
    assert steps[i].facts == Some(Hit(s.cache, a, now, force).value.facts) && now < steps[i].now + 3_600_000_000_000;
  }

  /** What a discovery brought is served for an hour: the next request of the same account
      starts no discovery exactly when it is not forced and comes within it. */
  lemma {:induction false} FoundIsServed(a: Account, forced: bool, began: int, ended: int, facts: Discovery, f: nat, now: int, force: bool)
    requires |facts.accountId| == 12 && facts.regions != []
    ensures var s := Runs.Run(Next, START, [Begin(0, a, began, forced), Finish(0, ended, Some(facts))]);
      && s.Some? && s.value.flights == map[]
      && (f !in Next(s.value, Begin(f, a, now, force)).value.flights <==> !force && now < ended + 3_600_000_000_000)
      && (f !in Next(s.value, Begin(f, a, now, force)).value.flights ==> Hit(s.value.cache, a, now, force).value.facts == facts)
  {
    var first := Begin(0, a, began, forced);
    Runs.Extend(Next, START, [], first);
    Runs.Extend(Next, START, [first], Finish(0, ended, Some(facts)));
    assert [] + [first] == [first] && [first, Finish(0, ended, Some(facts))] == [first] + [Finish(0, ended, Some(facts))];
    assert Live(map[], ended) == map[];
  }

  lemma {:induction false} CountBounded(steps: seq<Step>, w: string)
    requires Runs.Run(Next, START, steps).Some?
    ensures Count(Runs.Run(Next, START, steps).value.refreshes, w) <= |steps|
  {
    if steps != [] {
      CountBounded(steps[..|steps| - 1], w);
    }
  }
}

/** The account loop of the capabilities endpoint. */
module CapabilityListing {
  import opened Outcomes
  import opened Texts
  import opened Sorting
  import opened DiscoveryCache

  datatype Item = Item(
    id: string, provider: string, status: string, alias: string, identity: string, defaultRegion: string,
    regions: seq<string>, domains: seq<string>, ready: bool, checkedAt: Option<int>, warning: string)

  predicate Eligible(a: Account) {
    a.status == "active" && a.verified && a.provider == "aws"
  }

  function Bare(a: Account, warning: string): Item {
    Item(a.id, a.provider, a.status, a.alias, "", "", [], [], false, None, warning)
  }

  /** The account's own default if it is on offer, or the first region in order. */
  function ChosenRegion(a: Account, regions: seq<string>): string
    requires regions != []
  {
    if a.defaultRegion in regions then a.defaultRegion else Sort(AtMost, regions)[0]
  }

  /** What is reported of an account, given what discovery answered. */
  function Described(a: Account, answer: Option<Entry>, now: int, domains: seq<string>): Item
    requires answer.Some? ==> Usable(answer.value.facts)
  {
    if a.status != "active" || !a.verified then Bare(a, "account_not_verified")
    else if a.provider != "aws" then Bare(a, "provider_discovery_not_supported")
    else if answer.None? then Bare(a, "provider_discovery_unavailable")
    else
      var e := answer.value;
      SortPermutes(AtMost, e.facts.regions);
      var ready := e.facts.permissionsVerified && now - e.checked < 24 * HOUR;
      Item(a.id, a.provider, a.status, a.alias, "********" + e.facts.accountId[8..], ChosenRegion(a, e.facts.regions),
           Sort(AtMost, e.facts.regions), domains, ready, Some(e.checked),
           if ready then "" else "execution_permissions_not_verified")
  }

  predicate ById(a: Item, b: Item) {
    AtMost(a.id, b.id)
  }

  /** The default region is always one of the regions reported, regions come sorted, and
      only the last four characters of the account are shown. An account is ready exactly
      when its permissions were verified less than a day ago, and otherwise the warning says
      which of the reasons comes first. */
  lemma {:induction false} DescribedIsConsistent(a: Account, answer: Option<Entry>, now: int, domains: seq<string>)
    requires answer.Some? ==> Usable(answer.value.facts)
    ensures var item := Described(a, answer, now, domains);
      && SortedBy(AtMost, item.regions)
      && (item.regions != [] <==> Eligible(a) && answer.Some?)
      && (item.regions != [] ==>
            && item.defaultRegion in item.regions && multiset(item.regions) == multiset(answer.value.facts.regions)
            && (a.defaultRegion in item.regions ==> item.defaultRegion == a.defaultRegion)
            && (a.defaultRegion !in item.regions ==> forall r | r in item.regions :: AtMost(item.defaultRegion, r))
            && |item.identity| == 12 && item.identity[..8] == "********")
      && (item.id, item.provider, item.status, item.alias) == (a.id, a.provider, a.status, a.alias)
      && (item.regions != [] ==> item.identity[8..] == answer.value.facts.accountId[8..] && item.checkedAt == Some(answer.value.checked))
      && (item.ready <==> item.warning == "")
      && (item.ready <==> Eligible(a) && answer.Some? && answer.value.facts.permissionsVerified
                          && now < answer.value.checked + 86_400_000_000_000)
      && (item.warning == "account_not_verified" <==> a.status != "active" || !a.verified)
      && (item.warning == "provider_discovery_not_supported" <==> a.status == "active" && a.verified && a.provider != "aws")
      && (item.warning == "provider_discovery_unavailable" <==> Eligible(a) && answer == None)
  {
    if Eligible(a) && answer.Some? {
      var regions := answer.value.facts.regions;
      AtMostIsOrder();
      SortSorts(AtMost, regions);
      SortPermutes(AtMost, regions);
      var sorted := Sort(AtMost, regions);
      forall r | r in sorted ensures AtMost(sorted[0], r) {
        AtMostReflexive(r);
      }
    }
  }

  /** The loop over an item's regions. */
  method PickRegion(a: Account, regions: seq<string>) returns (picked: string)
    requires regions != [] && SortedBy(AtMost, regions)
    ensures picked == if a.defaultRegion in regions then a.defaultRegion else regions[0]
  {
    picked := "";
    for i := 0 to |regions|
      invariant picked == if a.defaultRegion in regions[..i] then a.defaultRegion else ""
    {
      assert regions[..i + 1] == regions[..i] + [regions[i]];
      if regions[i] == a.defaultRegion {
        picked := regions[i];
      }
    }
    assert regions[..|regions|] == regions;
    if picked == "" {
      EmptyIsLeast(regions);
      picked := regions[0];
    }
  }

  lemma EmptyIsLeast(regions: seq<string>)
    requires SortedBy(AtMost, regions)
    ensures "" in regions ==> regions[0] == ""
  {
    if "" in regions {
      var i :| 0 <= i < |regions| && regions[i] == "";
      assert i == 0 || AtMost(regions[0], regions[i]);
    }
  }

  /** One item per account of the workspace, sorted by identifier; an account of another
      workspace fails the whole request. */
  method List(workspace: string, accounts: seq<Account>, answers: seq<Option<Entry>>, now: seq<int>, domains: seq<string>)
    returns (out: Option<seq<Item>>)
    requires |answers| == |now| == |accounts|
    requires forall i | 0 <= i < |answers| && answers[i].Some? :: Usable(answers[i].value.facts)
    ensures out.None? <==> exists i | 0 <= i < |accounts| :: accounts[i].workspace != workspace
    ensures out.Some? ==>
      && SortedBy(ById, out.value)
      && multiset(out.value) == multiset(seq(|accounts|, i requires 0 <= i < |accounts| => Described(accounts[i], answers[i], now[i], domains)))
  {
    var items: seq<Item> := [];
    ghost var all := seq(|accounts|, i requires 0 <= i < |accounts| => Described(accounts[i], answers[i], now[i], domains));
    for i := 0 to |accounts|
      invariant forall k | 0 <= k < i :: accounts[k].workspace == workspace
      invariant items == all[..i]
    {
      var a := accounts[i];
      if a.workspace != workspace {
        return None;
      }
      var item := Describe(a, answers[i], now[i], domains);
      items := items + [item];
    }
    assert all[..|accounts|] == all;
    ByIdIsOrder();
    SortSorts(ById, items);
    SortPermutes(ById, items);
    return Some(Sort(ById, items));
  }

  lemma ByIdIsOrder()
    ensures TotalPreorder(ById)
  {
    forall a: Item, b: Item ensures ById(a, b) || ById(b, a) {
      AtMostTotal(a.id, b.id);
    }
    forall a: Item, b: Item, c: Item | ById(a, b) && ById(b, c) ensures ById(a, c) {
      AtMostTransitive(a.id, b.id, c.id);
    }
  }

  method Describe(a: Account, answer: Option<Entry>, now: int, domains: seq<string>) returns (item: Item)
    requires answer.Some? ==> Usable(answer.value.facts)
    ensures item == Described(a, answer, now, domains)
  {
    item := Bare(a, "");
    if a.status != "active" || !a.verified {
      return item.(warning := "account_not_verified");
    }
    if a.provider != "aws" {
      return item.(warning := "provider_discovery_not_supported");
    }
    if answer.None? {
      return item.(warning := "provider_discovery_unavailable");
    }
    var facts := answer.value.facts;
    AtMostIsOrder();
    SortSorts(AtMost, facts.regions);
    SortPermutes(AtMost, facts.regions);
    var regions := Sort(AtMost, facts.regions);
    var region := PickRegion(a, regions);
    var ready := facts.permissionsVerified && now - answer.value.checked < 24 * HOUR;
    item := item.(identity := "********" + facts.accountId[8..], regions := regions, defaultRegion := region,
                  domains := domains, checkedAt := Some(answer.value.checked), ready := ready);
    if !ready {
      item := item.(warning := "execution_permissions_not_verified");
    }
  }
}
