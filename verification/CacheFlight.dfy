/**
 Single flight of the account-list cache: one read of a customer at a time, one background
 refresh of a customer at a time, in every interleaving of CacheRuns.
 */
module CacheFlight {
  import opened Prelude
  import opened AccountProjection
  import opened CacheEviction
  import opened CacheRuns

  predicate IsReading(s: State, j: Job, c: Customer) {
    j in s.jobs && s.jobs[j].stage.Reading? && s.jobs[j].customer == c
  }

  /** At most one coroutine reads the customer's accounts from the switch. */
  ghost predicate SingleRead(s: State) {
    forall j, k, c :: IsReading(s, j, c) && IsReading(s, k, c) ==> j == k
  }

  // ---- the lock discipline ----

  /** A coroutine at a lock is at its customer's lock, the one in the dictionary. */
  predicate AtItsLock(s: State, j: Job) {
    j in s.jobs ==>
      match s.jobs[j].stage
      case Waiting(l) => s.jobs[j].customer in s.locks && s.locks[s.jobs[j].customer] == l && l in s.lockOf && s.lockOf[l] != Free
      case Reading(l) => s.jobs[j].customer in s.locks && s.locks[s.jobs[j].customer] == l && l in s.lockOf && s.lockOf[l] == Held(j)
      case _ => true
  }

  /** A lock is held by a reader and woken for a waiter. */
  predicate LockHasItsJob(s: State, l: LockId) {
    l in s.lockOf ==>
      match s.lockOf[l]
      case Free => true
      case Held(j) => j in s.jobs && s.jobs[j].stage == Reading(l)
      case Woken(j) => j in s.jobs && s.jobs[j].stage == Waiting(l)
  }

  ghost predicate LockInv(s: State) {
    && (forall j :: j in s.jobs ==> AtItsLock(s, j))
    && (forall l :: l in s.lockOf ==> LockHasItsJob(s, l))
    && (forall c :: c in s.locks ==> s.locks[c] in s.lockOf)
    && (forall c, d :: c in s.locks && d in s.locks && s.locks[c] == s.locks[d] ==> c == d)
  }

  lemma LockInvMeansSingleRead(s: State)
    requires LockInv(s)
    ensures SingleRead(s)
  {
    forall j, k, c | IsReading(s, j, c) && IsReading(s, k, c) ensures j == k {
      assert AtItsLock(s, j) && AtItsLock(s, k);
    }
  }

  /** A read that completes evicts no customer whose lock has just been released to a waiter. */
  predicate DropsNoWokenLock(s: State, e: Event) {
    e.ReadOk? ==>
      forall c :: c in s.cache && c !in e.kept && c in s.locks && s.locks[c] in s.lockOf ==> !s.lockOf[s.locks[c]].Woken?
  }

  lemma EnterKeepsLocks(s: State, ttl: int, j: Job, made: LockId)
    requires LockInv(s) && j in s.jobs && s.jobs[j].stage.Spawned? && CanMake(s, s.jobs[j].customer, made)
    ensures LockInv(Enter(s, ttl, j, made))
  {
    var c := s.jobs[j].customer;
    var t := if c in s.locks then s else s.(locks := s.locks[c := made], lockOf := s.lockOf[made := Free]);
    assert LockInv(t) by {
      assert forall k :: k in t.jobs ==> AtItsLock(s, k);
      assert forall l :: l in s.lockOf ==> LockHasItsJob(s, l);
    }
    EnterLock(t, ttl, j);
  }

  /** Once the lock object is there. */
  lemma EnterLock(t: State, ttl: int, j: Job)
    requires LockInv(t) && j in t.jobs && t.jobs[j].stage.Spawned? && t.jobs[j].customer in t.locks
    ensures LockInv(Enter(t, ttl, j, 0))
  {
    var u := Enter(t, ttl, j, 0);
    forall k | k in u.jobs ensures AtItsLock(u, k) { assert AtItsLock(t, k); }
    forall l | l in u.lockOf ensures LockHasItsJob(u, l) { assert LockHasItsJob(t, l); }
  }

  lemma RequestKeepsLocks(s: State, ttl: int, j: Job, c: Customer, r: Job, made: LockId)
    requires LockInv(s) && j !in s.jobs && r !in s.jobs && r != j && CanMake(s, c, made)
    ensures LockInv(OnRequest(s, ttl, j, c, r, made))
  {
    if !FreshEntry(s, ttl, c) && !ServableEntry(s, ttl, c) {
      var t := s.(jobs := s.jobs[j := Phase(c, false, Spawned)]);
      JobsElsewhere(s, t, j, r);
      EnterKeepsLocks(t, ttl, j, made);
    } else {
      JobsElsewhere(s, OnRequest(s, ttl, j, c, r, made), j, r);
    }
  }

  predicate AwayFromLocks(s: State, j: Job) {
    j in s.jobs ==> !s.jobs[j].stage.Waiting? && !s.jobs[j].stage.Reading?
  }

  predicate SameJob(s: State, t: State, j: Job) {
    j in s.jobs && j in t.jobs && s.jobs[j] == t.jobs[j]
  }

  /** Jobs come and go away from any lock. */
  lemma JobsElsewhere(s: State, t: State, j: Job, r: Job)
    requires LockInv(s) && t.locks == s.locks && t.lockOf == s.lockOf
    requires forall k :: k in t.jobs || k in s.jobs ==>
               SameJob(s, t, k) || ((k == j || k == r) && AwayFromLocks(s, k) && AwayFromLocks(t, k))
    ensures LockInv(t)
  {
    forall k | k in t.jobs ensures AtItsLock(t, k) {
      assert SameJob(s, t, k) || AwayFromLocks(t, k);
      if k in s.jobs { assert AtItsLock(s, k); }
    }
    forall l | l in t.lockOf ensures LockHasItsJob(t, l) { assert LockHasItsJob(s, l); }
  }

  /** A job leaves its lock, releasing it. */
  lemma ReleaseKeepsLocks(s: State, j: Job, l: LockId, stage: Stage, next: Option<Job>)
    requires LockInv(s) && j in s.jobs && NextWaiter(s, j, l, next)
    requires s.jobs[j].stage == Reading(l) || (s.jobs[j].stage == Waiting(l) && l in s.lockOf && s.lockOf[l] == Woken(j))
    requires !stage.Waiting? && !stage.Reading?
    ensures LockInv(Release(WithStage(s, j, stage), l, next))
  {
    var t := Release(WithStage(s, j, stage), l, next);
    assert AtItsLock(s, j);
    forall k | k in t.jobs ensures AtItsLock(t, k) { assert AtItsLock(s, k); }
    forall m | m in t.lockOf ensures LockHasItsJob(t, m) { assert LockHasItsJob(s, m); }
  }

  lemma WakeKeepsLocks(s: State, ttl: int, j: Job, next: Option<Job>)
    requires LockInv(s) && Enabled(s, ttl, Wake(j, next))
    ensures LockInv(OnWake(s, ttl, j, next))
  {
    var c, l := s.jobs[j].customer, s.jobs[j].stage.lock;
    assert AtItsLock(s, j);
    if FreshEntry(s, ttl, c) {
      ReleaseKeepsLocks(s, j, l, Served(s.cache[c].rows, s.now), next);
    } else {
      var t := OnWake(s, ttl, j, next);
      forall k | k in t.jobs ensures AtItsLock(t, k) { assert AtItsLock(s, k); }
      forall m | m in t.lockOf ensures LockHasItsJob(t, m) { assert LockHasItsJob(s, m); }
    }
  }

  lemma StoreKeepsLocks(s: State, ttl: int, e: Event)
    requires LockInv(s) && e.ReadOk? && Enabled(s, ttl, e) && DropsNoWokenLock(s, e)
    ensures LockInv(Store(s, s.jobs[e.job].customer, e.rows, e.kept))
  {
    var c := s.jobs[e.job].customer;
    var t := Store(s, c, e.rows, e.kept);
    var before := s.cache[c := Entry(s.now, ProjectAll(e.rows))];
    forall k | k in t.jobs ensures AtItsLock(t, k) {
      assert AtItsLock(s, k);
      var stage := s.jobs[k].stage;
      if stage.Waiting? || stage.Reading? {
        var d := s.jobs[k].customer;
        if d in before && d !in e.kept {
          assert s.locks[d] in LockedNow(s);
        }
      }
    }
    forall l | l in t.lockOf ensures LockHasItsJob(t, l) { assert LockHasItsJob(s, l); }
  }

  lemma ReadOkKeepsLocks(s: State, ttl: int, e: Event)
    requires LockInv(s) && e.ReadOk? && Enabled(s, ttl, e) && DropsNoWokenLock(s, e)
    ensures LockInv(Step(s, ttl, e))
  {
    var c, l := s.jobs[e.job].customer, s.jobs[e.job].stage.lock;
    var t := Store(s, c, e.rows, e.kept);
    StoreKeepsLocks(s, ttl, e);
    ReleaseKeepsLocks(t, e.job, l, Served(ProjectAll(e.rows), s.now), e.next);
  }

  lemma CancelKeepsLocks(s: State, ttl: int, j: Job, next: Option<Job>)
    requires LockInv(s) && Enabled(s, ttl, Cancel(j, next))
    ensures LockInv(OnCancel(s, j, next))
  {
    var stage := s.jobs[j].stage;
    assert AtItsLock(s, j);
    if stage.Reading? || (stage.Waiting? && s.lockOf[stage.lock] == Woken(j)) {
      ReleaseKeepsLocks(s, j, stage.lock, Failed, next);
    } else {
      var t := WithStage(s, j, Failed);
      forall k | k in t.jobs ensures AtItsLock(t, k) { assert AtItsLock(s, k); }
      forall l | l in t.lockOf ensures LockHasItsJob(t, l) { assert LockHasItsJob(s, l); }
    }
  }

  lemma StepKeepsLocks(s: State, ttl: int, e: Event)
    requires LockInv(s) && Enabled(s, ttl, e) && DropsNoWokenLock(s, e)
    ensures LockInv(Step(s, ttl, e))
  {
    match e
    case Request(j, c, r, l) => RequestKeepsLocks(s, ttl, j, c, r, l);
    case StartRefresh(j, l) => EnterKeepsLocks(s, ttl, j, l);
    case Wake(j, next) => WakeKeepsLocks(s, ttl, j, next);
    case ReadOk(_, _, _, _) => ReadOkKeepsLocks(s, ttl, e);
    case ReadFail(j, next) => ReleaseKeepsLocks(s, j, s.jobs[j].stage.lock, Failed, next);
    case Cancel(j, next) => CancelKeepsLocks(s, ttl, j, next);
    case Callback(j) => JobsElsewhere(s, OnCallback(s, j), j, j);
    case Clock(to) => JobsElsewhere(s, s.(now := to), 0, 0);
  }

  /** No read of the run dropped a lock that had just been released to a waiter. */
  ghost predicate NoWokenLockDropped(ttl: int, es: seq<Event>)
    requires ValidRun(ttl, es)
  {
    es == [] ||
    (NoWokenLockDropped(ttl, es[..|es| - 1]) && DropsNoWokenLock(Run(ttl, es[..|es| - 1]), es[|es| - 1]))
  }

  lemma {:induction false} RunKeepsLocks(ttl: int, es: seq<Event>)
    requires ValidRun(ttl, es) && NoWokenLockDropped(ttl, es)
    ensures LockInv(Run(ttl, es))
  {
    if es != [] {
      RunKeepsLocks(ttl, es[..|es| - 1]);
      StepKeepsLocks(Run(ttl, es[..|es| - 1]), ttl, es[|es| - 1]);
    }
  }

  /** In every interleaving, at most one read of a customer is in progress through the cache,
      provided no eviction dropped a lock between its release and its waiter's wake-up. */
  lemma OneReadPerCustomer(ttl: int, es: seq<Event>)
    requires ValidRun(ttl, es) && NoWokenLockDropped(ttl, es)
    ensures SingleRead(Run(ttl, es))
  {
    RunKeepsLocks(ttl, es);
    LockInvMeansSingleRead(Run(ttl, es));
  }

  /** Behind an evicted entry and a dropped lock: the woken waiter reads under the old lock, the
      next request makes a new one and reads as well. */
  lemma TwoReadsFollow(t: State, ttl: int, c: Customer, l: LockId, w: Job, j: Job, r: Job, made: LockId)
    requires c !in t.cache && c !in t.locks
    requires w in t.jobs && t.jobs[w].customer == c && t.jobs[w].stage == Waiting(l)
    requires l in t.lockOf && t.lockOf[l] == Woken(w)
    requires j !in t.jobs && r !in t.jobs && j != r && made !in t.lockOf
    ensures Enabled(t, ttl, Wake(w, None))
    ensures var u := Step(t, ttl, Wake(w, None));
      Enabled(u, ttl, Request(j, c, r, made)) && TwoReaders(Step(u, ttl, Request(j, c, r, made)), w, j, c)
  {
    var u := OnWake(t, ttl, w, None);
    assert u.jobs[w] == Phase(c, t.jobs[w].refresh, Reading(l));
    var v := OnRequest(u, ttl, j, c, r, made);
    assert v.jobs[j] == Phase(c, false, Reading(made)) && v.jobs[w] == u.jobs[w];
  }

  predicate TwoReaders(s: State, w: Job, j: Job, c: Customer) {
    w != j && IsReading(s, w, c) && IsReading(s, j, c)
  }

  /** And when one did, single flight is lost: the woken waiter and the next request both read. */
  lemma DroppedWokenLockCostsASecondRead(s: State, ttl: int, e: Event, c: Customer, w: Job, j: Job, r: Job, made: LockId)
    requires LockInv(s) && e.ReadOk? && Enabled(s, ttl, e)
    requires c in s.cache && c !in e.kept && c in s.locks && s.locks[c] in s.lockOf && s.lockOf[s.locks[c]] == Woken(w)
    requires j !in s.jobs && r !in s.jobs && j != r && made !in s.lockOf
    ensures Enabled(Step(s, ttl, e), ttl, Wake(w, None))
    ensures var u := Step(Step(s, ttl, e), ttl, Wake(w, None));
      Enabled(u, ttl, Request(j, c, r, made)) && TwoReaders(Step(u, ttl, Request(j, c, r, made)), w, j, c)
  {
    var l := s.locks[c];
    assert LockHasItsJob(s, l) && AtItsLock(s, w) && AtItsLock(s, e.job);
    assert s.jobs[w].customer == c;
    var t := Step(s, ttl, e);
    assert t.jobs[w] == s.jobs[w] && t.lockOf[l] == Woken(w);
    assert l !in LockedNow(s) && c !in t.locks;
    TwoReadsFollow(t, ttl, c, l, w, j, r, made);
  }

  lemma RunSnoc(ttl: int, es: seq<Event>, e: Event)
    requires ValidRun(ttl, es) && Enabled(Run(ttl, es), ttl, e)
    ensures ValidRun(ttl, es + [e]) && Run(ttl, es + [e]) == Step(Run(ttl, es), ttl, e)
  {
    assert (es + [e])[..|es|] == es;
  }

  /** Two requests for customer 1 and one for customer 2, all waiting for the switch. */
  function ThreeRequests(): State {
    State(map[], map[1 := 100, 2 := 200], map[100 := Held(0), 200 := Held(2)], map[],
          map[0 := Phase(1, false, Reading(100)), 1 := Phase(1, false, Waiting(100)), 2 := Phase(2, false, Reading(200))],
          0, {})
  }

  lemma ThreeRequestsRun(ttl: int) returns (es: seq<Event>)
    ensures ValidRun(ttl, es) && Run(ttl, es) == ThreeRequests()
  {
    RunSnoc(ttl, [], Request(0, 1, 10, 100));
    es := [] + [Request(0, 1, 10, 100)];
    assert Run(ttl, es).jobs == map[0 := Phase(1, false, Reading(100))];
    assert Run(ttl, es) == State(map[], map[1 := 100], map[100 := Held(0)], map[], map[0 := Phase(1, false, Reading(100))], 0, {});
    RunSnoc(ttl, es, Request(1, 1, 11, 0));
    es := es + [Request(1, 1, 11, 0)];
    assert Run(ttl, es).jobs == map[0 := Phase(1, false, Reading(100)), 1 := Phase(1, false, Waiting(100))];
    RunSnoc(ttl, es, Request(2, 2, 12, 200));
    es := es + [Request(2, 2, 12, 200)];
    assert Run(ttl, es).jobs == ThreeRequests().jobs;
    assert Run(ttl, es).locks == ThreeRequests().locks;
    assert Run(ttl, es).lockOf == ThreeRequests().lockOf;
  }

  lemma OneEntryTotal(c: Customer, e: Entry)
    ensures TotalRows(map[c := e]) == |e.rows|
  {
    TotalWithout(map[c := e], c);
    assert map[c := e] - {c} == map[];
  }

  /** Customer 1's list arrives and wakes the second request. */
  lemma FirstReadDone(ttl: int, rows: seq<Account>)
    requires |rows| == 1
    ensures var e := ReadOk(0, rows, map[1 := Entry(0, ProjectAll(rows))], Some(1));
      Enabled(ThreeRequests(), ttl, e) && Step(ThreeRequests(), ttl, e) == SecondWoken(rows)
  {
    var entry := Entry(0, ProjectAll(rows));
    var s := ThreeRequests();
    assert s.cache[1 := entry] == map[1 := entry];
    OneEntryTotal(1, entry);
    assert Evicting(MAX_ROWS, 1, map[1 := entry], map[1 := entry], 1);
    assert LocksAfter(s.locks, map[1 := entry], map[1 := entry], LockedNow(s)) == s.locks;
  }

  function SecondWoken(rows: seq<Account>): State {
    State(map[1 := Entry(0, ProjectAll(rows))], map[1 := 100, 2 := 200], map[100 := Woken(1), 200 := Held(2)], map[],
          map[0 := Phase(1, false, Served(ProjectAll(rows), 0)), 1 := Phase(1, false, Waiting(100)),
              2 := Phase(2, false, Reading(200))],
          0, {Read(1, rows, 0)})
  }

  /** Customer 2's list fills the whole budget and evicts it before that request runs. */
  lemma BigReadDone(ttl: int, rows: seq<Account>, many: seq<Account>)
    requires |rows| == 1 && |many| == MAX_ROWS
    ensures var e := ReadOk(2, many, map[2 := Entry(0, ProjectAll(many))], None);
      Enabled(SecondWoken(rows), ttl, e) && !DropsNoWokenLock(SecondWoken(rows), e)
      && var u := Step(SecondWoken(rows), ttl, e);
         && u.cache.Keys == {2} && 1 !in u.locks && u.lockOf.Keys == {100, 200} && u.lockOf[100] == Woken(1)
         && u.jobs.Keys == {0, 1, 2} && u.jobs[1] == Phase(1, false, Waiting(100))
  {
    var t := SecondWoken(rows);
    var big := Entry(0, ProjectAll(many));
    var before := t.cache[2 := big];
    OneEntryTotal(2, big);
    assert Evicting(MAX_ROWS, 2, before, map[2 := big], 1);
    assert LockedNow(t) == {200};
    assert LocksAfter(t.locks, before, map[2 := big], {200}) == map[2 := 200];
  }

  /** It can happen: a list that fills the whole budget arrives right after the read that one
      request was waiting for, evicts that list, and the customer is read by two at once. */
  lemma SecondReadHappens(ttl: int, account: Account)
    requires ttl > 0
    ensures exists es :: ValidRun(ttl, es) && !SingleRead(Run(ttl, es))
  {
    var rows, many := [account], seq(MAX_ROWS, i => account);
    var es := ThreeRequestsRun(ttl);
    FirstReadDone(ttl, rows);
    var first := ReadOk(0, rows, map[1 := Entry(0, ProjectAll(rows))], Some(1));
    RunSnoc(ttl, es, first);
    BigReadDone(ttl, rows, many);
    var second := ReadOk(2, many, map[2 := Entry(0, ProjectAll(many))], None);
    RunSnoc(ttl, es + [first], second);
    TwoMoreSteps(ttl, es + [first] + [second]);
  }

  lemma TwoMoreSteps(ttl: int, es: seq<Event>)
    requires ValidRun(ttl, es)
    requires var u := Run(ttl, es);
      1 !in u.cache && 1 !in u.locks && u.lockOf.Keys == {100, 200} && u.lockOf[100] == Woken(1)
      && u.jobs.Keys == {0, 1, 2} && u.jobs[1] == Phase(1, false, Waiting(100))
    ensures exists all :: ValidRun(ttl, all) && !SingleRead(Run(ttl, all))
  {
    TwoReadsFollow(Run(ttl, es), ttl, 1, 100, 1, 3, 13, 300);
    RunSnoc(ttl, es, Wake(1, None));
    RunSnoc(ttl, es + [Wake(1, None)], Request(3, 1, 13, 300));
    var all := es + [Wake(1, None)] + [Request(3, 1, 13, 300)];
    assert TwoReaders(Run(ttl, all), 1, 3, 1);
  }

  // ---- background refreshes ----

  /** A refresh that is still alive is the one the dictionary holds for its customer; and what the
      dictionary holds is a refresh of that customer. */
  ghost predicate RefreshInv(s: State) {
    && (forall j :: j in s.jobs && s.jobs[j].refresh && s.jobs[j].Live() ==>
          s.jobs[j].customer in s.current && s.current[s.jobs[j].customer] == j)
    && (forall c :: c in s.current ==>
          s.current[c] in s.jobs && s.jobs[s.current[c]].refresh && s.jobs[s.current[c]].customer == c)
  }

  /** Sections that neither create a refresh nor revive a finished one. */
  lemma SectionKeepsRefresh(s: State, t: State)
    requires RefreshInv(s) && t.current == s.current
    requires forall k :: k in s.jobs ==> k in t.jobs && t.jobs[k].(stage := s.jobs[k].stage) == s.jobs[k]
    requires forall k :: k in t.jobs && t.jobs[k].refresh ==> k in s.jobs && (t.jobs[k].Live() ==> s.jobs[k].Live())
    ensures RefreshInv(t)
  {
  }

  lemma ScheduleKeepsRefresh(s: State, c: Customer, r: Job)
    requires RefreshInv(s) && r !in s.jobs
    ensures RefreshInv(ScheduleRefresh(s, c, r))
  {
  }

  lemma RequestKeepsRefresh(s: State, ttl: int, j: Job, c: Customer, r: Job, made: LockId)
    requires RefreshInv(s) && j !in s.jobs && r !in s.jobs && r != j && CanMake(s, c, made)
    ensures RefreshInv(OnRequest(s, ttl, j, c, r, made))
  {
    if FreshEntry(s, ttl, c) {
      SectionKeepsRefresh(s, OnRequest(s, ttl, j, c, r, made));
    } else if ServableEntry(s, ttl, c) {
      ScheduleKeepsRefresh(s, c, r);
      SectionKeepsRefresh(ScheduleRefresh(s, c, r), OnRequest(s, ttl, j, c, r, made));
    } else {
      var t := s.(jobs := s.jobs[j := Phase(c, false, Spawned)]);
      SectionKeepsRefresh(s, t);
      EnterKeepsCache(t, ttl, j, made);
      SectionKeepsRefresh(t, Enter(t, ttl, j, made));
    }
  }

  lemma ReadOkKeepsRefresh(s: State, j: Job, rows: seq<Account>, kept: Cache, next: Option<Job>)
    requires RefreshInv(s) && j in s.jobs && s.jobs[j].stage.Reading?
    ensures RefreshInv(OnReadOk(s, j, rows, kept, next))
  {
    SectionKeepsRefresh(s, OnReadOk(s, j, rows, kept, next));
  }

  lemma CallbackKeepsRefresh(s: State, j: Job)
    requires RefreshInv(s) && j in s.jobs && !s.jobs[j].Live()
    ensures RefreshInv(OnCallback(s, j))
  {
  }

  lemma StepKeepsRefresh(s: State, ttl: int, e: Event)
    requires RefreshInv(s) && Enabled(s, ttl, e)
    ensures RefreshInv(Step(s, ttl, e))
  {
    match e
    case Request(j, c, r, l) => RequestKeepsRefresh(s, ttl, j, c, r, l);
    case StartRefresh(j, l) =>
      EnterKeepsCache(s, ttl, j, l);
      SectionKeepsRefresh(s, Enter(s, ttl, j, l));
    case Wake(j, next) => SectionKeepsRefresh(s, OnWake(s, ttl, j, next));
    case ReadOk(j, rows, kept, next) => ReadOkKeepsRefresh(s, j, rows, kept, next);
    case ReadFail(j, next) => SectionKeepsRefresh(s, Release(WithStage(s, j, Failed), s.jobs[j].stage.lock, next));
    case Cancel(j, next) => SectionKeepsRefresh(s, OnCancel(s, j, next));
    case Callback(j) => CallbackKeepsRefresh(s, j);
    case Clock(to) => SectionKeepsRefresh(s, s.(now := to));
  }

  lemma {:induction false} RunKeepsRefresh(ttl: int, es: seq<Event>)
    requires ValidRun(ttl, es)
    ensures RefreshInv(Run(ttl, es))
  {
    if es != [] {
      RunKeepsRefresh(ttl, es[..|es| - 1]);
      StepKeepsRefresh(Run(ttl, es[..|es| - 1]), ttl, es[|es| - 1]);
    }
  }

  /** In every interleaving at most one background refresh of a customer is alive, the dictionary
      keeps it referenced, and the late callback of a finished one never drops it. */
  lemma OneRefreshPerCustomer(ttl: int, es: seq<Event>, j: Job, k: Job)
    requires ValidRun(ttl, es)
    requires var jobs := Run(ttl, es).jobs;
      j in jobs && k in jobs && jobs[j].refresh && jobs[k].refresh && jobs[j].Live()
      && jobs[j].customer == jobs[k].customer
    ensures var s := Run(ttl, es);
      && s.jobs[j].customer in s.current && s.current[s.jobs[j].customer] == j
      && (s.jobs[k].Live() ==> k == j)
      && (!s.jobs[k].Live() ==> OnCallback(s, k) == s)
  {
    RunKeepsRefresh(ttl, es);
  }
}
