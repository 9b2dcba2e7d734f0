/**
 The account-list cache under concurrency
 (app/bss/adapters/portaswitch/adapter.py, `_get_all_accounts_by_customer`,
 `_read_accounts_into_cache`, `_schedule_accounts_refresh`, `_forget_refresh_task`,
 `_refresh_accounts`), for a positive time to live.

 Every event is an atomic section of one coroutine. asyncio's lock is modelled as it is: a
 release with somebody waiting does not hand the lock over, it wakes the next waiter, and until
 that one runs `locked()` is false although newcomers still queue behind it. An eviction in
 that moment drops the lock under its woken waiter. The theorems on single flight say exactly
 what this costs.
 */
module CacheRuns {
  import opened Prelude
  import opened AccountProjection
  import opened CacheEviction

  type Job = nat

  const STALE_FACTOR := 10

  datatype Lock = Free | Held(job: Job) | Woken(job: Job)

  /** What a coroutine is doing; `Served` and `Failed` are finished. */
  datatype Stage =
    | Spawned
    | Waiting(lock: LockId)
    | Reading(lock: LockId)
    | Served(rows: seq<Account>, at: int)
    | Failed

  /** A request for a customer's accounts, or (`refresh`) a background re-read of them. */
  datatype Phase = Phase(customer: Customer, refresh: bool, stage: Stage)
  {
    predicate Live() {
      stage.Spawned? || stage.Waiting? || stage.Reading?
    }
  }

  /** A complete, successful read of the switch. */
  datatype Read = Read(customer: Customer, rows: seq<Account>, at: int)

  datatype State = State(
    cache: Cache,
    locks: map<Customer, LockId>,      // the lock dictionary
    lockOf: map<LockId, Lock>,         // every lock object ever made
    current: map<Customer, Job>,       // the refresh dictionary
    jobs: map<Job, Phase>,
    now: int,
    history: set<Read>)

  const EMPTY := State(map[], map[], map[], map[], map[], 0, {})

  /** `next` is the waiter a release wakes, `lock` the identity of a lock created on the way,
      `refresh` that of a background job created on the way, `kept` the cache after evictions. */
  datatype Event =
    | Request(job: Job, customer: Customer, refresh: Job, lock: LockId)
    | StartRefresh(job: Job, lock: LockId)
    | Wake(job: Job, next: Option<Job>)
    | ReadOk(job: Job, rows: seq<Account>, kept: Cache, next: Option<Job>)
    | ReadFail(job: Job, next: Option<Job>)
    | Cancel(job: Job, next: Option<Job>)
    | Callback(job: Job)
    | Clock(to: int)

  function ProjectAll(rows: seq<Account>): seq<Account> {
    seq(|rows|, i requires 0 <= i < |rows| => Project(rows[i]))
  }

  predicate FreshEntry(s: State, ttl: int, c: Customer) {
    c in s.cache && s.now - s.cache[c].at < ttl
  }

  predicate ServableEntry(s: State, ttl: int, c: Customer) {
    c in s.cache && s.now - s.cache[c].at < ttl * STALE_FACTOR
  }

  function LockedNow(s: State): set<LockId> {
    set l | l in s.lockOf && s.lockOf[l].Held?
  }

  predicate WaitsOn(s: State, j: Job, l: LockId) {
    j in s.jobs && s.jobs[j].stage == Waiting(l)
  }

  /** A release by `j` wakes some other waiter if there is one. */
  predicate NextWaiter(s: State, j: Job, l: LockId, next: Option<Job>) {
    if next.Some? then next.value != j && WaitsOn(s, next.value, l)
    else forall w :: w in s.jobs && w != j ==> s.jobs[w].stage != Waiting(l)
  }

  /** The lock a coroutine of customer `c` goes for; the one it makes if there is none yet. */
  function LockFor(s: State, c: Customer, made: LockId): LockId {
    if c in s.locks then s.locks[c] else made
  }

  predicate CanMake(s: State, c: Customer, made: LockId) {
    if c in s.locks then s.locks[c] in s.lockOf else made !in s.lockOf
  }

  ghost predicate Enabled(s: State, ttl: int, e: Event) {
    match e
    case Request(j, c, r, l) => j !in s.jobs && r !in s.jobs && r != j && CanMake(s, c, l)
    case StartRefresh(j, l) => j in s.jobs && s.jobs[j].stage.Spawned? && CanMake(s, s.jobs[j].customer, l)
    case Wake(j, next) =>
      && j in s.jobs && s.jobs[j].stage.Waiting? && s.jobs[j].stage.lock in s.lockOf
      && s.lockOf[s.jobs[j].stage.lock] == Woken(j)
      && (FreshEntry(s, ttl, s.jobs[j].customer) ==> NextWaiter(s, j, s.jobs[j].stage.lock, next))
    case ReadOk(j, rows, kept, next) =>
      && j in s.jobs && s.jobs[j].stage.Reading? && NextWaiter(s, j, s.jobs[j].stage.lock, next)
      && var c := s.jobs[j].customer;
         EvictedTo(MAX_ROWS, c, s.cache[c := Entry(s.now, ProjectAll(rows))], kept)
    case ReadFail(j, next) => j in s.jobs && s.jobs[j].stage.Reading? && NextWaiter(s, j, s.jobs[j].stage.lock, next)
    case Cancel(j, next) =>
      && j in s.jobs && s.jobs[j].Live()
      && (s.jobs[j].stage.Waiting? || s.jobs[j].stage.Reading? ==> NextWaiter(s, j, s.jobs[j].stage.lock, next))
    case Callback(j) => j in s.jobs && s.jobs[j].refresh && !s.jobs[j].Live()
    case Clock(to) => to >= s.now
  }

  // ---- the sections ----

  function WithStage(s: State, j: Job, stage: Stage): State
    requires j in s.jobs
  {
    s.(jobs := s.jobs[j := s.jobs[j].(stage := stage)])
  }

  function Release(s: State, l: LockId, next: Option<Job>): State {
    s.(lockOf := s.lockOf[l := if next.Some? then Woken(next.value) else Free])
  }

  /** Inside the lock: the second look at the cache, then the read. `l` is held if it must be. */
  function Enter(s: State, ttl: int, j: Job, made: LockId): State
    requires j in s.jobs && CanMake(s, s.jobs[j].customer, made)
  {
    var c := s.jobs[j].customer;
    var l := LockFor(s, c, made);
    var t := if c in s.locks then s else s.(locks := s.locks[c := l], lockOf := s.lockOf[l := Free]);
    if t.lockOf[l] != Free then WithStage(t, j, Waiting(l))
    else if FreshEntry(t, ttl, c) then WithStage(t, j, Served(t.cache[c].rows, t.now))
    else WithStage(t, j, Reading(l)).(lockOf := t.lockOf[l := Held(j)])
  }

  function ScheduleRefresh(s: State, c: Customer, r: Job): State {
    if c in s.current && s.current[c] in s.jobs && s.jobs[s.current[c]].Live() then s
    else s.(jobs := s.jobs[r := Phase(c, true, Spawned)], current := s.current[c := r])
  }

  function OnRequest(s: State, ttl: int, j: Job, c: Customer, r: Job, made: LockId): State
    requires CanMake(s, c, made)
  {
    if FreshEntry(s, ttl, c) then s.(jobs := s.jobs[j := Phase(c, false, Served(s.cache[c].rows, s.now))])
    else if ServableEntry(s, ttl, c) then
      var t := ScheduleRefresh(s, c, r);
      t.(jobs := t.jobs[j := Phase(c, false, Served(s.cache[c].rows, s.now))])
    else Enter(s.(jobs := s.jobs[j := Phase(c, false, Spawned)]), ttl, j, made)
  }

  function OnWake(s: State, ttl: int, j: Job, next: Option<Job>): State
    requires j in s.jobs && s.jobs[j].stage.Waiting?
  {
    var c, l := s.jobs[j].customer, s.jobs[j].stage.lock;
    if FreshEntry(s, ttl, c) then Release(WithStage(s, j, Served(s.cache[c].rows, s.now)), l, next)
    else WithStage(s, j, Reading(l)).(lockOf := s.lockOf[l := Held(j)])
  }

  /** _store_accounts: the new entry, the evictions, the locks that go with them. */
  function Store(s: State, c: Customer, rows: seq<Account>, kept: Cache): State {
    var before := s.cache[c := Entry(s.now, ProjectAll(rows))];
    s.(cache := kept, locks := LocksAfter(s.locks, before, kept, LockedNow(s)), history := s.history + {Read(c, rows, s.now)})
  }

  function OnReadOk(s: State, j: Job, rows: seq<Account>, kept: Cache, next: Option<Job>): State
    requires j in s.jobs && s.jobs[j].stage.Reading?
  {
    var c, l := s.jobs[j].customer, s.jobs[j].stage.lock;
    Release(WithStage(Store(s, c, rows, kept), j, Served(ProjectAll(rows), s.now)), l, next)
  }

  function OnCancel(s: State, j: Job, next: Option<Job>): State
    requires j in s.jobs
  {
    var t := WithStage(s, j, Failed);
    var stage := s.jobs[j].stage;
    if stage.Reading? || (stage.Waiting? && stage.lock in s.lockOf && s.lockOf[stage.lock] == Woken(j))
    then Release(t, stage.lock, next) else t
  }

  function OnCallback(s: State, j: Job): State
    requires j in s.jobs
  {
    var c := s.jobs[j].customer;
    if c in s.current && s.current[c] == j then s.(current := s.current - {c}) else s
  }

  ghost function Step(s: State, ttl: int, e: Event): State
    requires Enabled(s, ttl, e)
  {
    match e
    case Request(j, c, r, l) => OnRequest(s, ttl, j, c, r, l)
    case StartRefresh(j, l) => Enter(s, ttl, j, l)
    case Wake(j, next) => OnWake(s, ttl, j, next)
    case ReadOk(j, rows, kept, next) => OnReadOk(s, j, rows, kept, next)
    case ReadFail(j, next) => Release(WithStage(s, j, Failed), s.jobs[j].stage.lock, next)
    case Cancel(j, next) => OnCancel(s, j, next)
    case Callback(j) => OnCallback(s, j)
    case Clock(to) => s.(now := to)
  }

  ghost predicate ValidRun(ttl: int, es: seq<Event>)
    decreases |es|, 1
  {
    es == [] || (ValidRun(ttl, es[..|es| - 1]) && Enabled(Run(ttl, es[..|es| - 1]), ttl, es[|es| - 1]))
  }

  ghost function Run(ttl: int, es: seq<Event>): State
    requires ValidRun(ttl, es)
    decreases |es|, 2
  {
    if es == [] then EMPTY else Step(Run(ttl, es[..|es| - 1]), ttl, es[|es| - 1])
  }

  // ---- bounded staleness ----

  /** The rows are the projection of one complete read of that customer, made at that time. */
  ghost predicate Backed(history: set<Read>, c: Customer, rows: seq<Account>, at: int) {
    exists r :: r in history && r.customer == c && r.at == at && rows == ProjectAll(r.rows)
  }

  /** ... made less than ten times the time to live before. */
  ghost predicate RecentlyRead(history: set<Read>, ttl: int, c: Customer, rows: seq<Account>, servedAt: int) {
    exists at: int :: Backed(history, c, rows, at) && 0 <= servedAt - at < ttl * STALE_FACTOR
  }

  ghost predicate StaleInv(s: State, ttl: int) {
    && (forall c :: c in s.cache ==> s.cache[c].at <= s.now && Backed(s.history, c, s.cache[c].rows, s.cache[c].at))
    && (forall j :: j in s.jobs && s.jobs[j].stage.Served? ==>
          RecentlyRead(s.history, ttl, s.jobs[j].customer, s.jobs[j].stage.rows, s.jobs[j].stage.at))
  }

  lemma BackedGrows(history: set<Read>, more: set<Read>, ttl: int)
    requires history <= more
    ensures forall c, rows, at :: Backed(history, c, rows, at) ==> Backed(more, c, rows, at)
    ensures forall c, rows, at :: RecentlyRead(history, ttl, c, rows, at) ==> RecentlyRead(more, ttl, c, rows, at)
  {
  }

  /** Serving an entry that is young enough. */
  lemma EntryIsRecent(s: State, ttl: int, c: Customer)
    requires ttl > 0 && StaleInv(s, ttl) && ServableEntry(s, ttl, c)
    ensures RecentlyRead(s.history, ttl, c, s.cache[c].rows, s.now)
  {
    assert Backed(s.history, c, s.cache[c].rows, s.cache[c].at);
  }

  lemma StoreKeepsStale(s: State, ttl: int, c: Customer, rows: seq<Account>, kept: Cache)
    requires ttl > 0 && StaleInv(s, ttl)
    requires EvictedTo(MAX_ROWS, c, s.cache[c := Entry(s.now, ProjectAll(rows))], kept)
    ensures StaleInv(Store(s, c, rows, kept), ttl)
    ensures RecentlyRead(Store(s, c, rows, kept).history, ttl, c, ProjectAll(rows), s.now)
  {
    var t := Store(s, c, rows, kept);
    BackedGrows(s.history, t.history, ttl);
    var r := Read(c, rows, s.now);
    assert r in t.history;
    assert Backed(t.history, c, ProjectAll(rows), s.now);
    assert ttl * STALE_FACTOR > 0;
  }

  /** A section that reads nothing from the switch, and may add background jobs. */
  lemma SectionKeepsStale(s: State, t: State, ttl: int, j: Job)
    requires StaleInv(s, ttl) && t.cache == s.cache && t.now >= s.now && t.history == s.history
    requires forall k :: k in t.jobs && k != j && t.jobs[k].stage.Served? ==> k in s.jobs && t.jobs[k] == s.jobs[k]
    requires j in t.jobs && t.jobs[j].stage.Served? ==>
      RecentlyRead(s.history, ttl, t.jobs[j].customer, t.jobs[j].stage.rows, t.jobs[j].stage.at)
    ensures StaleInv(t, ttl)
  {
  }

  lemma EnterKeepsStale(s: State, ttl: int, j: Job, made: LockId)
    requires ttl > 0 && StaleInv(s, ttl) && j in s.jobs && CanMake(s, s.jobs[j].customer, made)
    ensures StaleInv(Enter(s, ttl, j, made), ttl)
  {
    var c := s.jobs[j].customer;
    if FreshEntry(s, ttl, c) { EntryIsRecent(s, ttl, c); }
    SectionKeepsStale(s, Enter(s, ttl, j, made), ttl, j);
  }

  lemma RequestKeepsStale(s: State, ttl: int, j: Job, c: Customer, r: Job, made: LockId)
    requires ttl > 0 && StaleInv(s, ttl) && j !in s.jobs && r !in s.jobs && r != j && CanMake(s, c, made)
    ensures StaleInv(OnRequest(s, ttl, j, c, r, made), ttl)
  {
    if ServableEntry(s, ttl, c) {
      EntryIsRecent(s, ttl, c);
      SectionKeepsStale(s, OnRequest(s, ttl, j, c, r, made), ttl, j);
    } else {
      var t := s.(jobs := s.jobs[j := Phase(c, false, Spawned)]);
      SectionKeepsStale(s, t, ttl, j);
      EnterKeepsStale(t, ttl, j, made);
    }
  }

  lemma ReadOkKeepsStale(s: State, ttl: int, j: Job, rows: seq<Account>, kept: Cache, next: Option<Job>)
    requires ttl > 0 && StaleInv(s, ttl) && Enabled(s, ttl, ReadOk(j, rows, kept, next))
    ensures StaleInv(OnReadOk(s, j, rows, kept, next), ttl)
  {
    var t := Store(s, s.jobs[j].customer, rows, kept);
    StoreKeepsStale(s, ttl, s.jobs[j].customer, rows, kept);
    SectionKeepsStale(t, OnReadOk(s, j, rows, kept, next), ttl, j);
  }

  lemma StepKeepsStale(s: State, ttl: int, e: Event)
    requires ttl > 0 && StaleInv(s, ttl) && Enabled(s, ttl, e)
    ensures StaleInv(Step(s, ttl, e), ttl)
  {
    match e
    case Request(j, c, r, l) => RequestKeepsStale(s, ttl, j, c, r, l);
    case StartRefresh(j, l) => EnterKeepsStale(s, ttl, j, l);
    case Wake(j, next) =>
      if FreshEntry(s, ttl, s.jobs[j].customer) { EntryIsRecent(s, ttl, s.jobs[j].customer); }
      SectionKeepsStale(s, OnWake(s, ttl, j, next), ttl, j);
    case ReadOk(j, rows, kept, next) => ReadOkKeepsStale(s, ttl, j, rows, kept, next);
    case ReadFail(j, next) => SectionKeepsStale(s, Step(s, ttl, e), ttl, j);
    case Cancel(j, next) => SectionKeepsStale(s, OnCancel(s, j, next), ttl, j);
    case Callback(j) => SectionKeepsStale(s, OnCallback(s, j), ttl, j);
    case Clock(to) => SectionKeepsStale(s, s.(now := to), ttl, 0);
  }

  lemma {:induction false} RunKeepsStale(ttl: int, es: seq<Event>)
    requires ttl > 0 && ValidRun(ttl, es)
    ensures StaleInv(Run(ttl, es), ttl)
  {
    if es != [] {
      RunKeepsStale(ttl, es[..|es| - 1]);
      StepKeepsStale(Run(ttl, es[..|es| - 1]), ttl, es[|es| - 1]);
    }
  }

  /** In every interleaving, whatever list a request was served is the projection of one complete
      read of its customer, completed less than `10 * ttl` before it was served. */
  lemma ServedListsAreRecent(ttl: int, es: seq<Event>, j: Job)
    requires ttl > 0 && ValidRun(ttl, es)
    requires j in Run(ttl, es).jobs && Run(ttl, es).jobs[j].stage.Served?
    ensures var p := Run(ttl, es).jobs[j];
      exists r :: r in Run(ttl, es).history && r.customer == p.customer && p.stage.rows == ProjectAll(r.rows)
        && 0 <= p.stage.at - r.at < ttl * STALE_FACTOR
  {
    RunKeepsStale(ttl, es);
    var s := Run(ttl, es);
    var p := s.jobs[j];
    var at: int :| Backed(s.history, p.customer, p.stage.rows, at) && 0 <= p.stage.at - at < ttl * STALE_FACTOR;
  }

  /** Nothing beyond the projected fields is ever kept or served. */
  lemma RowsAreProjected(ttl: int, es: seq<Event>, rows: seq<Account>, i: nat)
    requires ttl > 0 && ValidRun(ttl, es) && i < |rows|
    requires var s := Run(ttl, es);
      || (exists c :: c in s.cache && s.cache[c].rows == rows)
      || (exists j :: j in s.jobs && s.jobs[j].stage.Served? && s.jobs[j].stage.rows == rows)
    ensures Project(rows[i]) == rows[i]
  {
    RunKeepsStale(ttl, es);
    var s := Run(ttl, es);
    var r: Read :| rows == ProjectAll(r.rows);
    assert |ProjectAll(r.rows)| == |r.rows|;
    assert rows[i] == Project(r.rows[i]);
    ProjectTwice(r.rows[i]);
  }

  lemma EnterChangesItsJob(s: State, ttl: int, j: Job, made: LockId)
    requires j in s.jobs && CanMake(s, s.jobs[j].customer, made)
    ensures exists stage :: Enter(s, ttl, j, made).jobs == s.jobs[j := s.jobs[j].(stage := stage)]
    ensures Enter(s, ttl, j, made).cache == s.cache && Enter(s, ttl, j, made).history == s.history
    ensures Enter(s, ttl, j, made).current == s.current
  {
    var t := Enter(s, ttl, j, made);
    assert t.jobs == s.jobs[j := s.jobs[j].(stage := t.jobs[j].stage)];
  }

  lemma EnterKeepsCache(s: State, ttl: int, j: Job, made: LockId)
    requires j in s.jobs && CanMake(s, s.jobs[j].customer, made)
    ensures Enter(s, ttl, j, made).cache == s.cache && Enter(s, ttl, j, made).history == s.history
    ensures Enter(s, ttl, j, made).current == s.current
    ensures Enter(s, ttl, j, made).jobs.Keys == s.jobs.Keys
    ensures forall k :: k in s.jobs ==> Enter(s, ttl, j, made).jobs[k].(stage := s.jobs[k].stage) == s.jobs[k]
    ensures forall k :: k in s.jobs && k != j ==> Enter(s, ttl, j, made).jobs[k] == s.jobs[k]
  {
    EnterChangesItsJob(s, ttl, j, made);
    var t := Enter(s, ttl, j, made);
    var stage :| t.jobs == s.jobs[j := s.jobs[j].(stage := stage)];
  }

  /** Only a successful read touches the cache; a failed or cancelled one leaves every entry. */
  lemma OnlyReadsChangeTheCache(s: State, ttl: int, e: Event)
    requires Enabled(s, ttl, e) && !e.ReadOk?
    ensures Step(s, ttl, e).cache == s.cache && Step(s, ttl, e).history == s.history
  {
    match e
    case Request(j, c, r, l) =>
      if !FreshEntry(s, ttl, c) && !ServableEntry(s, ttl, c) {
        EnterKeepsCache(s.(jobs := s.jobs[j := Phase(c, false, Spawned)]), ttl, j, l);
      }
    case StartRefresh(j, l) => EnterKeepsCache(s, ttl, j, l);
    case _ =>
  }

  // ---- the object behind the events ----

  /** The dictionaries as a request and a finished refresh see them. `live` are the background
      jobs whose done() is false. */
  class AccountsFront {
    var cache: Cache
    var refreshes: map<Customer, Job>
    var live: set<Job>
    const ttl: int

    constructor (ttl: int)
      ensures cache == map[] && refreshes == map[] && live == {} && this.ttl == ttl
    {
      cache, refreshes, live, this.ttl := map[], map[], {}, ttl;
    }

    /** The object's part of a state. */
    ghost predicate Shows(s: State)
      reads this
    {
      && cache == s.cache && refreshes == s.current
      && forall j :: j in live <==> j in s.jobs && s.jobs[j].refresh && s.jobs[j].Live()
    }

    /** First section of a request: what it is served at once, if anything. */
    method GetAllAccounts(customer: Customer, now: int, refresh: Job, ghost s: State) returns (served: Option<seq<Account>>)
      requires Shows(s) && s.now == now && refresh !in s.jobs && RefreshesAreRefreshes(s)
      modifies this
      ensures served == if FreshEntry(s, ttl, customer) || ServableEntry(s, ttl, customer) then Some(s.cache[customer].rows) else None
      ensures Shows(if !FreshEntry(s, ttl, customer) && ServableEntry(s, ttl, customer) then ScheduleRefresh(s, customer, refresh) else s)
    {
      if customer in cache {
        var age := now - cache[customer].at;
        if age < ttl {
          return Some(cache[customer].rows);
        }
        if age < ttl * STALE_FACTOR {
          var rows := cache[customer].rows;
          ScheduleAccountsRefresh(customer, refresh, s);
          return Some(rows);
        }
      }
      return None;
    }

    /** What the refresh dictionary holds are refreshes. */
    ghost predicate RefreshesAreRefreshes(s: State) {
      forall c :: c in s.current ==> s.current[c] in s.jobs && s.jobs[s.current[c]].refresh
    }

    method ScheduleAccountsRefresh(customer: Customer, refresh: Job, ghost s: State)
      requires Shows(s) && refresh !in s.jobs && RefreshesAreRefreshes(s)
      modifies this`refreshes, this`live
      ensures Shows(ScheduleRefresh(s, customer, refresh))
    {
      if customer in refreshes && refreshes[customer] in live {
        return;
      }
      live := live + {refresh};
      refreshes := refreshes[customer := refresh];
    }

    /** The callback of a finished refresh. */
    method ForgetRefresh(customer: Customer, finished: Job, ghost s: State)
      requires Shows(s) && finished in s.jobs && s.jobs[finished].customer == customer
      modifies this`refreshes
      ensures Shows(OnCallback(s, finished))
    {
      if customer in refreshes && refreshes[customer] == finished {
        refreshes := refreshes - {customer};
      }
    }
  }
}
