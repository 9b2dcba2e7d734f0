/**
 How often the cache reads a customer from the switch
 (app/bss/adapters/portaswitch/adapter.py:3256-3309, 3363-3390): one read at a time and one per time
 to live, in every interleaving of CacheRuns; and exactly which evictions cost a second one.
 */
module CacheReads {
  import opened Prelude
  import opened CacheEviction
  import opened CacheRuns
  import opened CacheFlight

  // ---- one read at a time ----

  /** No event from the `n`th on drops a lock that has just been released to a waiter. */
  ghost predicate NoDropFrom(ttl: int, es: seq<Event>, n: nat)
    requires ValidRun(ttl, es)
  {
    |es| <= n || (NoDropFrom(ttl, es[..|es| - 1], n) && DropsNoWokenLock(Run(ttl, es[..|es| - 1]), es[|es| - 1]))
  }

  lemma {:induction false} NoDropJoins(ttl: int, es: seq<Event>, all: seq<Event>)
    requires es <= all && ValidRun(ttl, all)
    requires ValidRun(ttl, es) && NoWokenLockDropped(ttl, es) && NoDropFrom(ttl, all, |es|)
    ensures NoWokenLockDropped(ttl, all)
  {
    if |all| == |es| {
      assert all == es;
    } else {
      NoDropJoins(ttl, es, all[..|all| - 1]);
    }
  }

  lemma {:induction false} Unused(ids: set<nat>) returns (n: nat)
    ensures forall m :: m in ids ==> m < n
  {
    if ids == {} {
      n := 0;
    } else {
      var one := Pick(ids);
      var k := Unused(ids - {one});
      n := Max(k, one + 1);
      forall m | m in ids ensures m < n { assert m == one || m in ids - {one}; }
    }
  }

  /** `es` can go on, without such a drop, to two reads of one customer at a time. */
  ghost predicate CanReadTwice(ttl: int, es: seq<Event>) {
    exists all :: es <= all && ValidRun(ttl, all) && NoDropFrom(ttl, all, |es|) && !SingleRead(Run(ttl, all))
  }

  /** A further event that is no completed read drops nothing. */
  lemma OneMoreEvent(ttl: int, es: seq<Event>, e: Event, n: nat)
    requires n <= |es| && ValidRun(ttl, es) && NoDropFrom(ttl, es, n) && Enabled(Run(ttl, es), ttl, e) && !e.ReadOk?
    ensures ValidRun(ttl, es + [e]) && Run(ttl, es + [e]) == Step(Run(ttl, es), ttl, e)
    ensures NoDropFrom(ttl, es + [e], n)
  {
    RunSnoc(ttl, es, e);
    assert (es + [e])[..|es|] == es;
  }

  /** The two events behind such a drop. */
  lemma ReadersBehindDrop(s: State, ttl: int, e: Event) returns (wake: Event, request: Event, w: Job, j: Job, c: Customer)
    requires LockInv(s) && Enabled(s, ttl, e) && !DropsNoWokenLock(s, e)
    ensures !wake.ReadOk? && !request.ReadOk? && Enabled(Step(s, ttl, e), ttl, wake)
    ensures Enabled(Step(Step(s, ttl, e), ttl, wake), ttl, request)
    ensures TwoReaders(Step(Step(Step(s, ttl, e), ttl, wake), ttl, request), w, j, c)
  {
    c :| c in s.cache && c !in e.kept && c in s.locks && s.locks[c] in s.lockOf && s.lockOf[s.locks[c]].Woken?;
    w := s.lockOf[s.locks[c]].job;
    j := Unused(s.jobs.Keys);
    var made := Unused(s.lockOf.Keys);
    DroppedWokenLockCostsASecondRead(s, ttl, e, c, w, j, j + 1, made);
    wake, request := Wake(w, None), Request(j, c, j + 1, made);
  }

  lemma DropCostsARead(ttl: int, es: seq<Event>, e: Event)
    requires ValidRun(ttl, es) && NoWokenLockDropped(ttl, es)
    requires Enabled(Run(ttl, es), ttl, e) && !DropsNoWokenLock(Run(ttl, es), e)
    ensures ValidRun(ttl, es + [e]) && CanReadTwice(ttl, es + [e])
  {
    RunSnoc(ttl, es, e);
    RunKeepsLocks(ttl, es);
    var wake, request, w, j, c := ReadersBehindDrop(Run(ttl, es), ttl, e);
    var now := es + [e];
    OneMoreEvent(ttl, now, wake, |now|);
    SecondReader(ttl, now, now + [wake], request, w, j, c);
  }

  lemma SecondReader(ttl: int, es: seq<Event>, all: seq<Event>, e: Event, w: Job, j: Job, c: Customer)
    requires es <= all && ValidRun(ttl, es) && ValidRun(ttl, all) && NoDropFrom(ttl, all, |es|)
    requires !e.ReadOk? && Enabled(Run(ttl, all), ttl, e) && TwoReaders(Step(Run(ttl, all), ttl, e), w, j, c)
    ensures CanReadTwice(ttl, es)
  {
    OneMoreEvent(ttl, all, e, |es|);
    ReadersAreTwo(Run(ttl, all + [e]), w, j, c);
    assert es <= all + [e];
  }

  lemma ReadersAreTwo(s: State, w: Job, j: Job, c: Customer)
    requires TwoReaders(s, w, j, c)
    ensures !SingleRead(s)
  {
  }

  /** Exactly what single flight takes: behind a run without such a drop, the next event leaves every
      continuation without one at one read per customer if and only if it drops no woken lock. */
  lemma SingleFlightIff(ttl: int, es: seq<Event>, e: Event)
    requires ValidRun(ttl, es) && NoWokenLockDropped(ttl, es) && Enabled(Run(ttl, es), ttl, e)
    ensures ValidRun(ttl, es + [e])
    ensures !CanReadTwice(ttl, es + [e]) <==> DropsNoWokenLock(Run(ttl, es), e)
  {
    RunSnoc(ttl, es, e);
    if DropsNoWokenLock(Run(ttl, es), e) {
      assert (es + [e])[..|es|] == es;
      assert NoWokenLockDropped(ttl, es + [e]);
      forall all | es + [e] <= all && ValidRun(ttl, all) && NoDropFrom(ttl, all, |es + [e]|)
        ensures SingleRead(Run(ttl, all))
      {
        NoDropJoins(ttl, es + [e], all);
        OneReadPerCustomer(ttl, all);
      }
    } else {
      DropCostsARead(ttl, es, e);
    }
  }

  // ---- one read per time to live ----

  /** The event evicts the customer's entry while it is still fresh. */
  predicate EvictsFresh(s: State, ttl: int, c: Customer, e: Event) {
    e.ReadOk? && FreshEntry(s, ttl, c) && c !in e.kept
  }

  ghost predicate NeverEvictedFresh(ttl: int, es: seq<Event>, c: Customer)
    requires ValidRun(ttl, es)
  {
    es == [] ||
    (NeverEvictedFresh(ttl, es[..|es| - 1], c) && !EvictsFresh(Run(ttl, es[..|es| - 1]), ttl, c, es[|es| - 1]))
  }

  /** Whoever reads the customer does so at least a time to live after every completed read. */
  ghost predicate ReadsAreDue(s: State, ttl: int, c: Customer) {
    forall j, r :: IsReading(s, j, c) && r in s.history && r.customer == c ==> s.now - r.at >= ttl
  }

  /** Two completed reads of the customer are at least a time to live apart. */
  ghost predicate ReadsAreApart(s: State, ttl: int, c: Customer) {
    forall r, q :: r in s.history && q in s.history && r.customer == c && q.customer == c && r != q ==>
      r.at - q.at >= ttl || q.at - r.at >= ttl
  }

  /** A completed read is that long ago, or its entry or a later one is cached; and nobody reads a
      customer with a fresh entry. */
  ghost predicate OnceInv(s: State, ttl: int, c: Customer) {
    && (forall r :: r in s.history && r.customer == c ==>
          s.now - r.at >= ttl || (c in s.cache && r.at <= s.cache[c].at))
    && (forall j :: IsReading(s, j, c) ==> !FreshEntry(s, ttl, c))
    && ReadsAreApart(s, ttl, c)
  }

  lemma OnceInvMeansDue(s: State, ttl: int, c: Customer)
    requires OnceInv(s, ttl, c)
    ensures ReadsAreDue(s, ttl, c)
  {
  }

  /** A read starts only on an entry that is not fresh. */
  lemma EnterStartsDue(s: State, ttl: int, j: Job, made: LockId, k: Job, c: Customer)
    requires j in s.jobs && CanMake(s, s.jobs[j].customer, made)
    requires IsReading(Enter(s, ttl, j, made), k, c)
    ensures IsReading(s, k, c) || !FreshEntry(s, ttl, c)
  {
  }

  lemma StartsDue(s: State, ttl: int, e: Event, k: Job, c: Customer)
    requires Enabled(s, ttl, e) && !e.ReadOk? && IsReading(Step(s, ttl, e), k, c)
    ensures IsReading(s, k, c) || !FreshEntry(s, ttl, c)
  {
    match e
    case Request(j, d, r, l) =>
      if !FreshEntry(s, ttl, d) && !ServableEntry(s, ttl, d) {
        EnterStartsDue(s.(jobs := s.jobs[j := Phase(d, false, Spawned)]), ttl, j, l, k, c);
      }
    case StartRefresh(j, l) => EnterStartsDue(s, ttl, j, l, k, c);
    case Wake(j, _) =>
    case ReadFail(_, _) =>
    case Cancel(_, _) =>
    case Callback(_) =>
    case Clock(_) =>
  }

  lemma OtherStepKeepsOnce(s: State, ttl: int, e: Event, c: Customer)
    requires OnceInv(s, ttl, c) && Enabled(s, ttl, e) && !e.ReadOk?
    ensures OnceInv(Step(s, ttl, e), ttl, c)
  {
    var t := Step(s, ttl, e);
    OnlyReadsChangeTheCache(s, ttl, e);
    TimeGoesOn(s, ttl, e);
    forall k | IsReading(t, k, c) ensures !FreshEntry(t, ttl, c) { StartsDue(s, ttl, e, k, c); }
  }

  lemma TimeGoesOn(s: State, ttl: int, e: Event)
    requires Enabled(s, ttl, e)
    ensures Step(s, ttl, e).now >= s.now
  {
  }

  lemma ReadOkKeepsOnce(s: State, ttl: int, e: Event, c: Customer)
    requires OnceInv(s, ttl, c) && StaleInv(s, ttl) && SingleRead(s)
    requires e.ReadOk? && Enabled(s, ttl, e) && !EvictsFresh(s, ttl, c, e)
    ensures OnceInv(Step(s, ttl, e), ttl, c)
  {
    var t := Step(s, ttl, e);
    var d := s.jobs[e.job].customer;
    assert IsReading(s, e.job, d);
    assert t.history == s.history + {Read(d, e.rows, s.now)} && t.cache == e.kept && t.now == s.now;
    forall k | IsReading(t, k, c) ensures k != e.job && IsReading(s, k, c) && c != d { assert IsReading(s, k, c); }
    KeptEntries(s, e, c);
    OnceInvMeansDue(s, ttl, c);
  }

  lemma KeptEntries(s: State, e: Event, c: Customer)
    requires e.ReadOk? && Enabled(s, 0, e)
    ensures var d := s.jobs[e.job].customer;
      && d in e.kept && e.kept[d].at == s.now
      && (c != d && c in e.kept ==> c in s.cache && e.kept[c] == s.cache[c])
  {
  }

  lemma {:induction false} RunKeepsOnce(ttl: int, es: seq<Event>, c: Customer)
    requires ttl > 0 && ValidRun(ttl, es) && NoWokenLockDropped(ttl, es) && NeverEvictedFresh(ttl, es, c)
    ensures OnceInv(Run(ttl, es), ttl, c)
  {
    if es != [] {
      var before, e := es[..|es| - 1], es[|es| - 1];
      RunKeepsOnce(ttl, before, c);
      if e.ReadOk? {
        RunKeepsStale(ttl, before);
        OneReadPerCustomer(ttl, before);
        ReadOkKeepsOnce(Run(ttl, before), ttl, e, c);
      } else {
        OtherStepKeepsOnce(Run(ttl, before), ttl, e, c);
      }
    }
  }

  /** In every interleaving in which no woken lock is dropped and the customer's entry is not evicted
      while it is fresh, the read happens once per time to live, no matter how many requests arrive. */
  lemma OneReadPerTtl(ttl: int, es: seq<Event>, c: Customer)
    requires ttl > 0 && ValidRun(ttl, es) && NoWokenLockDropped(ttl, es) && NeverEvictedFresh(ttl, es, c)
    ensures ReadsAreApart(Run(ttl, es), ttl, c) && ReadsAreDue(Run(ttl, es), ttl, c)
  {
    RunKeepsOnce(ttl, es, c);
    OnceInvMeansDue(Run(ttl, es), ttl, c);
  }

  /** Nor is such an entry evicted from the `n`th event on. */
  ghost predicate NoFreshEvictionFrom(ttl: int, es: seq<Event>, n: nat, c: Customer)
    requires ValidRun(ttl, es)
  {
    |es| <= n || (NoFreshEvictionFrom(ttl, es[..|es| - 1], n, c) && !EvictsFresh(Run(ttl, es[..|es| - 1]), ttl, c, es[|es| - 1]))
  }

  lemma {:induction false} NoFreshEvictionJoins(ttl: int, es: seq<Event>, all: seq<Event>, c: Customer)
    requires es <= all && ValidRun(ttl, all)
    requires ValidRun(ttl, es) && NeverEvictedFresh(ttl, es, c) && NoFreshEvictionFrom(ttl, all, |es|, c)
    ensures NeverEvictedFresh(ttl, all, c)
  {
    if |all| == |es| {
      assert all == es;
    } else {
      NoFreshEvictionJoins(ttl, es, all[..|all| - 1], c);
    }
  }

  /** `es` can go on to a read of the customer that is not due, without a further drop or eviction. */
  ghost predicate CanReadEarly(ttl: int, es: seq<Event>, c: Customer) {
    exists all :: es <= all && ValidRun(ttl, all) && NoDropFrom(ttl, all, |es|) && NoFreshEvictionFrom(ttl, all, |es|, c)
      && !ReadsAreDue(Run(ttl, all), ttl, c)
  }

  lemma EvictionCostsARead(ttl: int, es: seq<Event>, e: Event, c: Customer)
    requires ttl > 0 && ValidRun(ttl, es) && NoWokenLockDropped(ttl, es) && NeverEvictedFresh(ttl, es, c)
    requires Enabled(Run(ttl, es), ttl, e) && DropsNoWokenLock(Run(ttl, es), e) && EvictsFresh(Run(ttl, es), ttl, c, e)
    ensures ValidRun(ttl, es + [e]) && CanReadEarly(ttl, es + [e], c)
  {
    var s := Run(ttl, es);
    RunSnoc(ttl, es, e);
    RunKeepsOnce(ttl, es, c);
    RunKeepsStale(ttl, es);
    RunKeepsLocks(ttl, es);
    StepKeepsLocks(s, ttl, e);
    var t := Run(ttl, es + [e]);
    var j := Unused(t.jobs.Keys);
    var made := Unused(t.lockOf.Keys);
    LockIsFree(s, ttl, e, c);
    var request := Request(j, c, j + 1, made);
    assert Backed(s.history, c, s.cache[c].rows, s.cache[c].at);
    var r :| r in s.history && r.customer == c && r.at == s.cache[c].at;
    RequestReads(t, ttl, j, c, j + 1, made);
    EarlyRead(ttl, es + [e], request, j, c, r);
  }

  lemma RequestReads(t: State, ttl: int, j: Job, c: Customer, r: Job, made: LockId)
    requires c !in t.cache && j !in t.jobs && r !in t.jobs && r != j && made !in t.lockOf
    requires c in t.locks ==> t.locks[c] in t.lockOf && t.lockOf[t.locks[c]] == Free
    ensures Enabled(t, ttl, Request(j, c, r, made))
    ensures var u := Step(t, ttl, Request(j, c, r, made));
      IsReading(u, j, c) && u.now == t.now && u.history == t.history
  {
  }

  lemma EarlyRead(ttl: int, es: seq<Event>, e: Event, j: Job, c: Customer, r: Read)
    requires ValidRun(ttl, es) && !e.ReadOk? && Enabled(Run(ttl, es), ttl, e)
    requires var u := Step(Run(ttl, es), ttl, e);
      IsReading(u, j, c) && r in u.history && r.customer == c && u.now - r.at < ttl
    ensures CanReadEarly(ttl, es, c)
  {
    OneMoreEvent(ttl, es, e, |es|);
    NothingEvictedFresh(ttl, es, e, c);
    ReadTooEarly(Run(ttl, es + [e]), ttl, j, c, r);
    assert es <= es + [e];
  }

  lemma NothingEvictedFresh(ttl: int, es: seq<Event>, e: Event, c: Customer)
    requires ValidRun(ttl, es + [e]) && !e.ReadOk?
    ensures NoFreshEvictionFrom(ttl, es + [e], |es|, c)
  {
    assert (es + [e])[..|es|] == es;
  }

  lemma ReadTooEarly(u: State, ttl: int, j: Job, c: Customer, r: Read)
    requires IsReading(u, j, c) && r in u.history && r.customer == c && u.now - r.at < ttl
    ensures !ReadsAreDue(u, ttl, c)
  {
  }

  /** Behind the eviction of a fresh entry nobody holds or awaits the customer's lock. */
  lemma LockIsFree(s: State, ttl: int, e: Event, c: Customer)
    requires LockInv(s) && OnceInv(s, ttl, c) && Enabled(s, ttl, e) && DropsNoWokenLock(s, e) && EvictsFresh(s, ttl, c, e)
    ensures var t := Step(s, ttl, e);
      c !in t.cache && (c in t.locks ==> t.locks[c] in t.lockOf && t.lockOf[t.locks[c]] == Free)
  {
    var t := Step(s, ttl, e);
    var l := s.jobs[e.job].stage.lock;
    assert AtItsLock(s, e.job);
    assert s.jobs[e.job].customer != c;
    if c in s.locks {
      var m := s.locks[c];
      assert LockHasItsJob(s, m);
      if s.lockOf[m].Held? {
        var k := s.lockOf[m].job;
        assert AtItsLock(s, k) && s.jobs[k].stage == Reading(m);
        assert s.locks[s.jobs[k].customer] == m;
        assert IsReading(s, k, c);
        assert false;
      }
      assert s.lockOf[m] == Free;
      assert m != l;
    }
  }

  /** Exactly which evictions break the promise: behind a run in which it was kept, the next event, if
      it drops no woken lock, leaves every such continuation at due reads if and only if it does not evict
      the customer's entry while that is fresh. */
  lemma OncePerTtlIff(ttl: int, es: seq<Event>, e: Event, c: Customer)
    requires ttl > 0 && ValidRun(ttl, es) && NoWokenLockDropped(ttl, es) && NeverEvictedFresh(ttl, es, c)
    requires Enabled(Run(ttl, es), ttl, e) && DropsNoWokenLock(Run(ttl, es), e)
    ensures ValidRun(ttl, es + [e])
    ensures !CanReadEarly(ttl, es + [e], c) <==> !EvictsFresh(Run(ttl, es), ttl, c, e)
  {
    RunSnoc(ttl, es, e);
    if EvictsFresh(Run(ttl, es), ttl, c, e) {
      EvictionCostsARead(ttl, es, e, c);
    } else {
      assert (es + [e])[..|es|] == es;
      assert NoWokenLockDropped(ttl, es + [e]) && NeverEvictedFresh(ttl, es + [e], c);
      forall all | es + [e] <= all && ValidRun(ttl, all) && NoDropFrom(ttl, all, |es + [e]|)
                   && NoFreshEvictionFrom(ttl, all, |es + [e]|, c)
        ensures ReadsAreDue(Run(ttl, all), ttl, c)
      {
        NoDropJoins(ttl, es + [e], all);
        NoFreshEvictionJoins(ttl, es + [e], all, c);
        OneReadPerTtl(ttl, all, c);
      }
    }
  }
}
