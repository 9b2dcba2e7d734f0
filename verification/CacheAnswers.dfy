/**
 What the cache answers, section by section, in every run
 (app/bss/adapters/portaswitch/adapter.py:3267-3357): which requests are served at once, which start a
 background refresh, which wait or read, and what a read leaves behind.
 */
module CacheAnswers {
  import opened Prelude
  import opened AccountProjection
  import opened CacheEviction
  import opened CacheRuns
  import opened CacheFlight

  /** A background refresh of the customer that has not finished. */
  predicate LiveRefresh(s: State, k: Job, c: Customer) {
    k in s.jobs && s.jobs[k].refresh && s.jobs[k].customer == c
    && (s.jobs[k].stage.Spawned? || s.jobs[k].stage.Waiting? || s.jobs[k].stage.Reading?)
  }

  /** An entry younger than the time to live is served, and nothing else happens. */
  lemma FreshEntryIsServed(ttl: int, es: seq<Event>, j: Job, c: Customer, r: Job, made: LockId)
    requires ttl > 0 && ValidRun(ttl, es + [Request(j, c, r, made)]) && ValidRun(ttl, es)
    requires var s := Run(ttl, es); c in s.cache && s.now - s.cache[c].at < ttl
    ensures var s := Run(ttl, es);
      Run(ttl, es + [Request(j, c, r, made)])
      == s.(jobs := s.jobs[j := Phase(c, false, Served(s.cache[c].rows, s.now))])
  {
    assert (es + [Request(j, c, r, made)])[..|es|] == es;
  }

  /** An entry at least a time to live old and less than ten is served too; and behind the request a
      live refresh of that customer is held in the dictionary: the one already alive if there was one,
      and the new job otherwise. */
  lemma StaleEntryIsServedAndRefreshed(ttl: int, es: seq<Event>, j: Job, c: Customer, r: Job, made: LockId)
    requires ttl > 0 && ValidRun(ttl, es + [Request(j, c, r, made)]) && ValidRun(ttl, es)
    requires var s := Run(ttl, es); c in s.cache && ttl <= s.now - s.cache[c].at < 10 * ttl
    ensures var s, t := Run(ttl, es), Run(ttl, es + [Request(j, c, r, made)]);
      && j in t.jobs && t.jobs[j] == Phase(c, false, Served(s.cache[c].rows, s.now))
      && c in t.current && LiveRefresh(t, t.current[c], c)
      && (forall k :: LiveRefresh(s, k, c) ==> t.current[c] == k && t.jobs.Keys == s.jobs.Keys + {j})
      && ((forall k :: !LiveRefresh(s, k, c)) ==> t.current[c] == r && t.jobs[r].stage == Spawned && r !in s.jobs)
      && t.cache == s.cache
  {
    var e := Request(j, c, r, made);
    var s := Run(ttl, es);
    assert (es + [e])[..|es|] == es;
    RunKeepsRefresh(ttl, es);
    assert Enabled(s, ttl, e);
    StaleStep(s, ttl, j, c, r, made);
  }

  lemma StaleStep(s: State, ttl: int, j: Job, c: Customer, r: Job, made: LockId)
    requires RefreshInv(s) && j !in s.jobs && r !in s.jobs && r != j && CanMake(s, c, made)
    requires c in s.cache && ttl <= s.now - s.cache[c].at < 10 * ttl
    ensures var t := OnRequest(s, ttl, j, c, r, made);
      && j in t.jobs && t.jobs[j] == Phase(c, false, Served(s.cache[c].rows, s.now))
      && c in t.current && LiveRefresh(t, t.current[c], c)
      && (forall k :: LiveRefresh(s, k, c) ==> t.current[c] == k && t.jobs.Keys == s.jobs.Keys + {j})
      && ((forall k :: !LiveRefresh(s, k, c)) ==> t.current[c] == r && t.jobs[r].stage == Spawned)
      && t.cache == s.cache
  {
    if c in s.current && s.current[c] in s.jobs && s.jobs[s.current[c]].Live() {
      assert LiveRefresh(s, s.current[c], c);
    }
  }

  /** Without an entry, or with an older one, a request is served nothing at once: it reads when the
      customer's lock is free, and waits for it otherwise. */
  lemma MissReadsOrWaits(ttl: int, es: seq<Event>, j: Job, c: Customer, r: Job, made: LockId)
    requires ttl > 0 && ValidRun(ttl, es + [Request(j, c, r, made)]) && ValidRun(ttl, es)
    requires var s := Run(ttl, es); c in s.cache ==> s.now - s.cache[c].at >= 10 * ttl
    ensures var s, t := Run(ttl, es), Run(ttl, es + [Request(j, c, r, made)]);
      && j in t.jobs && t.jobs[j].customer == c
      && c in t.locks && t.locks[c] in t.lockOf
      && (c in s.locks && s.locks[c] in s.lockOf && s.lockOf[s.locks[c]] != Free ==> t.jobs[j].stage == Waiting(s.locks[c]))
      && (c !in s.locks || (s.locks[c] in s.lockOf && s.lockOf[s.locks[c]] == Free) ==>
            t.jobs[j].stage == Reading(t.locks[c]) && t.lockOf[t.locks[c]] == Held(j))
      && t.cache == s.cache && t.current == s.current
  {
    assert (es + [Request(j, c, r, made)])[..|es|] == es;
    assert Enabled(Run(ttl, es), ttl, Request(j, c, r, made));
  }

  /** A refresh that starts: served from an entry that somebody else has renewed, otherwise it reads when
      the lock is free. */
  lemma RefreshReadsOrWaits(ttl: int, es: seq<Event>, k: Job, made: LockId)
    requires ttl > 0 && ValidRun(ttl, es + [StartRefresh(k, made)]) && ValidRun(ttl, es)
    ensures var s, t := Run(ttl, es), Run(ttl, es + [StartRefresh(k, made)]);
      k in s.jobs && k in t.jobs &&
      var c := s.jobs[k].customer;
      var free := c !in s.locks || (s.locks[c] in s.lockOf && s.lockOf[s.locks[c]] == Free);
      var young := c in s.cache && s.now - s.cache[c].at < ttl;
      && (!free ==> t.jobs[k].stage == Waiting(s.locks[c]))
      && (free && young ==> t.jobs[k].stage == Served(s.cache[c].rows, s.now))
      && (free && !young ==> c in t.locks && t.jobs[k].stage == Reading(t.locks[c]))
  {
    assert (es + [StartRefresh(k, made)])[..|es|] == es;
    assert Enabled(Run(ttl, es), ttl, StartRefresh(k, made));
  }

  /** A waiter that gets the lock: the same second look, then it reads. */
  lemma WokenServesOrReads(ttl: int, es: seq<Event>, k: Job, next: Option<Job>)
    requires ttl > 0 && ValidRun(ttl, es + [Wake(k, next)]) && ValidRun(ttl, es)
    ensures var s, t := Run(ttl, es), Run(ttl, es + [Wake(k, next)]);
      k in s.jobs && k in t.jobs && s.jobs[k].stage.Waiting? &&
      var c, l := s.jobs[k].customer, s.jobs[k].stage.lock;
      l in t.lockOf &&
      (if c in s.cache && s.now - s.cache[c].at < ttl
       then t.jobs[k].stage == Served(s.cache[c].rows, s.now) && t.lockOf[l] == (if next.Some? then Woken(next.value) else Free)
       else t.jobs[k].stage == Reading(l) && t.lockOf[l] == Held(k))
  {
    assert (es + [Wake(k, next)])[..|es|] == es;
    assert Enabled(Run(ttl, es), ttl, Wake(k, next));
  }

  /** A completed read leaves the customer's entry as of now, row by row the projection of what was read;
      the reader is served just that, and the lock goes to the next waiter if there is one. */
  lemma ReadIsStoredAndServed(ttl: int, es: seq<Event>, k: Job, rows: seq<Account>, kept: Cache, next: Option<Job>)
    requires ttl > 0 && ValidRun(ttl, es + [ReadOk(k, rows, kept, next)]) && ValidRun(ttl, es)
    ensures var s, t := Run(ttl, es), Run(ttl, es + [ReadOk(k, rows, kept, next)]);
      k in s.jobs && k in t.jobs && s.jobs[k].stage.Reading? &&
      var c, l := s.jobs[k].customer, s.jobs[k].stage.lock;
      && c in t.cache && t.cache[c].at == s.now && |t.cache[c].rows| == |rows|
      && (forall i :: 0 <= i < |rows| ==> t.cache[c].rows[i] == Project(rows[i]))
      && t.jobs[k].stage == Served(t.cache[c].rows, s.now)
      && (forall d :: d in t.cache && d != c ==> d in s.cache && t.cache[d] == s.cache[d])
      && l in t.lockOf && t.lockOf[l] == (if next.Some? then Woken(next.value) else Free)
  {
    assert (es + [ReadOk(k, rows, kept, next)])[..|es|] == es;
    var s := Run(ttl, es);
    assert Enabled(s, ttl, ReadOk(k, rows, kept, next));
    var c := s.jobs[k].customer;
    assert c in kept && kept[c] == Entry(s.now, ProjectAll(rows));
    assert |ProjectAll(rows)| == |rows|;
  }

  /** A failed one ends its job with nothing, and lets the next waiter go on. */
  lemma FailedReadEnds(ttl: int, es: seq<Event>, k: Job, next: Option<Job>)
    requires ttl > 0 && ValidRun(ttl, es + [ReadFail(k, next)]) && ValidRun(ttl, es)
    ensures var s, t := Run(ttl, es), Run(ttl, es + [ReadFail(k, next)]);
      k in s.jobs && k in t.jobs && s.jobs[k].stage.Reading? && t.jobs[k].stage == Failed
      && t.cache == s.cache && s.jobs[k].stage.lock in t.lockOf
      && t.lockOf[s.jobs[k].stage.lock] == (if next.Some? then Woken(next.value) else Free)
  {
    assert (es + [ReadFail(k, next)])[..|es|] == es;
    assert Enabled(Run(ttl, es), ttl, ReadFail(k, next));
  }

  /** The job holds the lock, or it was just released to it. */
  predicate HasLock(s: State, k: Job, l: LockId) {
    k in s.jobs && l in s.lockOf &&
    (s.jobs[k].stage == Reading(l) || (s.jobs[k].stage == Waiting(l) && s.lockOf[l] == Woken(k)))
  }

  function AfterRelease(next: Option<Job>): Lock {
    if next.Some? then Woken(next.value) else Free
  }

  /** A cancelled one ends likewise. If it was reading, or woken for the lock, the next waiter is woken. */
  lemma CancelledEnds(ttl: int, es: seq<Event>, k: Job, next: Option<Job>)
    requires ttl > 0 && ValidRun(ttl, es + [Cancel(k, next)]) && ValidRun(ttl, es)
    ensures var s, t := Run(ttl, es), Run(ttl, es + [Cancel(k, next)]);
      k in s.jobs && t.jobs == s.jobs[k := s.jobs[k].(stage := Failed)] && t.cache == s.cache && t.current == s.current
    ensures var s, t := Run(ttl, es), Run(ttl, es + [Cancel(k, next)]);
      && (forall l :: l in s.lockOf ==> l in t.lockOf)
      && (forall l :: l in s.lockOf ==> t.lockOf[l] == if HasLock(s, k, l) then AfterRelease(next) else s.lockOf[l])
  {
    assert (es + [Cancel(k, next)])[..|es|] == es;
    assert Enabled(Run(ttl, es), ttl, Cancel(k, next));
  }

  /** The callback of a finished refresh: the dictionary lets go of it, and of nothing else. */
  lemma FinishedRefreshIsForgotten(ttl: int, es: seq<Event>, k: Job)
    requires ttl > 0 && ValidRun(ttl, es + [Callback(k)]) && ValidRun(ttl, es)
    ensures var s, t := Run(ttl, es), Run(ttl, es + [Callback(k)]);
      && (forall c :: c in t.current <==> c in s.current && s.current[c] != k)
      && (forall c :: c in t.current ==> t.current[c] == s.current[c])
      && t == s.(current := t.current)
  {
    assert (es + [Callback(k)])[..|es|] == es;
    RunKeepsRefresh(ttl, es);
    assert Enabled(Run(ttl, es), ttl, Callback(k));
  }
}
