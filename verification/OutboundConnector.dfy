/**
 Admission of outbound requests and the single-flight admin login
 (app/bss/async_http_api.py: `inflight_limit`, `send_rest_request` of both connector classes,
 `session_in_progress`, `_valid_session`; app/bss/adapters/portaswitch/api/admin.py: `refresh`).

 Requests are coroutines on one event loop. Each `Event` is an atomic section of one of them,
 from one await to the next, so a run of events is an interleaving of any number of requests.
 A job that holds a permit has at most one connection, of one of the two shared clients (the
 standby site may be verified differently); a streamed job gives the permit back when the
 headers are in and keeps the connection until its body is consumed. Every connector of the
 deployment is taken to have the same main verification setting, hence one semaphore.
 */
module OutboundConnector {
  import opened Prelude

  type Job = nat
  type Token = nat

  datatype Session = Session(access: Option<Token>, expiresAt: Option<int>, refreshable: bool)

  /** `advance` is REFRESH_TOKEN_IN_ADVANCE (0 for the admin realm); `refreshStores` says whether
      the connector's `refresh` stores the session it obtains, as the admin realm's does. */
  datatype Config = Config(maxConnections: Option<int>, advance: int, refreshStores: bool)

  const DEFAULT_MAX_CONNECTIONS := 100
  const MIN_HEADROOM := 2

  function Capacity(maxConnections: Option<int>): int {
    if maxConnections.Some? && maxConnections.value > 0 then maxConnections.value else DEFAULT_MAX_CONNECTIONS
  }

  /** Permits for a pool. The headroom is a tenth of the pool, rounded down, and at least two. */
  function InflightLimit(maxConnections: Option<int>): (limit: nat)
    ensures 1 <= limit <= Capacity(maxConnections)
  {
    var total := Capacity(maxConnections);
    Max(1, total - Max(MIN_HEADROOM, total / 10))
  }

  lemma HeadroomIff(maxConnections: Option<int>)
    ensures Capacity(maxConnections) - InflightLimit(maxConnections) >= MIN_HEADROOM <==> Capacity(maxConnections) >= 3
  {
  }

  /** For a pool of three connections or more the limit is the largest number of permits that leaves at
      least two connections free, and at least a tenth of them rounded down; a smaller pool has one. The
      pool is the configured one if that is positive, and httpx's hundred otherwise. */
  lemma InflightLimitIff(maxConnections: Option<int>, n: nat)
    ensures var pool := if maxConnections.Some? && maxConnections.value > 0 then maxConnections.value else 100;
      && (pool >= 3 ==> (n <= InflightLimit(maxConnections) <==> n == 0 || (pool - n >= 2 && 10 * (pool - n) > pool - 10)))
      && (pool < 3 ==> InflightLimit(maxConnections) == 1)
  {
  }

  /** Usable as it is: not expired, and not due for a proactive refresh. */
  predicate ValidSession(cfg: Config, session: Option<Session>, now: int) {
    session.Some? && session.value.access.Some? &&
    (session.value.expiresAt == None ||
     (var left := session.value.expiresAt.value - now;
      left >= 0 && !(session.value.refreshable && left < cfg.advance)))
  }

  datatype Phase =
    | Waiting                                              // for the login lock
    | LoginQueued(store: bool)                             // holds the lock, waits for a permit
    | LoginSending(store: bool, client: bool)              // holds the lock and a permit
    | Queued(auth: Option<Token>)                          // waits for a permit
    | Sending(auth: Option<Token>, client: bool)           // holds a permit
    | Streaming(auth: Option<Token>, client: bool)         // only its connection is left
    | Done(auth: Option<Token>)
    | Failed

  datatype State = State(
    session: Option<Session>,     // the stored session
    lock: Option<Job>,            // who holds the login lock
    free: nat,                    // permits
    jobs: map<Job, Phase>,
    plain: set<Job>,              // those that were sent without a login
    now: int,
    logins: seq<Session>)         // what the successful logins returned

  datatype Event =
    | Start(job: Job, plain: bool)                 // `plain`: with the stored session as it is (turn_off_login)
    | TakeLock(job: Job)
    | LoginSend(job: Job, client: bool)
    | LoginOk(job: Job, token: Token, expiresAt: Option<int>, refreshable: bool)
    | LoginFail(job: Job)
    | Send(job: Job, client: bool)
    | Retarget(job: Job, client: bool)             // the next target of the request
    | Finish(job: Job)
    | HeadersIn(job: Job)
    | BodyDone(job: Job)
    | Cancel(job: Job)                             // the request's deadline
    | Clock(to: int)

  function Init(cfg: Config, session: Option<Session>, now: int): State {
    State(session, None, InflightLimit(cfg.maxConnections), map[], {}, now, [])
  }

  predicate HoldsPermit(p: Phase) {
    p.Sending? || p.LoginSending?
  }

  predicate LogsIn(p: Phase) {
    p.LoginQueued? || p.LoginSending?
  }

  predicate Over(p: Phase) {
    p.Done? || p.Failed?
  }

  predicate Enabled(s: State, e: Event) {
    match e
    case Start(j, _) => j !in s.jobs
    case TakeLock(j) => j in s.jobs && s.jobs[j].Waiting? && s.lock == None
    case LoginSend(j, _) => j in s.jobs && s.jobs[j].LoginQueued? && s.free > 0
    case LoginOk(j, _, _, _) => j in s.jobs && s.jobs[j].LoginSending?
    case LoginFail(j) => j in s.jobs && s.jobs[j].LoginSending?
    case Send(j, _) => j in s.jobs && s.jobs[j].Queued? && s.free > 0
    case Retarget(j, _) => j in s.jobs && HoldsPermit(s.jobs[j])
    case Finish(j) => j in s.jobs && s.jobs[j].Sending?
    case HeadersIn(j) => j in s.jobs && s.jobs[j].Sending?
    case BodyDone(j) => j in s.jobs && s.jobs[j].Streaming?
    case Cancel(j) => j in s.jobs && !Over(s.jobs[j])
    case Clock(to) => to >= s.now
  }

  /** Under the lock, with no usable session: what `session_in_progress` does to the stored one
      (an expired access token is cleared in place), and whether the login that follows is stored. */
  function UnderLock(cfg: Config, session: Option<Session>, now: int): (Option<Session>, bool) {
    match session
    case None => (None, true)
    case Some(x) =>
      if x.access == None || x.expiresAt == None then (session, true)
      else if now > x.expiresAt.value then (Some(x.(access := None)), x.refreshable && cfg.refreshStores)
      else (session, cfg.refreshStores)
  }

  function AccessOf(session: Option<Session>): Option<Token> {
    if session.Some? then session.value.access else None
  }

  function Step(cfg: Config, s: State, e: Event): State
    requires Enabled(s, e)
  {
    match e
    case Start(j, plain) =>
      var p := if plain then Queued(AccessOf(s.session))
               else if ValidSession(cfg, s.session, s.now) then Queued(s.session.value.access) else Waiting;
      s.(jobs := s.jobs[j := p], plain := if plain then s.plain + {j} else s.plain)
    case TakeLock(j) =>
      if ValidSession(cfg, s.session, s.now) then s.(jobs := s.jobs[j := Queued(s.session.value.access)])
      else
        var (session, store) := UnderLock(cfg, s.session, s.now);
        s.(session := session, lock := Some(j), jobs := s.jobs[j := LoginQueued(store)])
    case LoginSend(j, client) =>
      s.(free := s.free - 1, jobs := s.jobs[j := LoginSending(s.jobs[j].store, client)])
    case LoginOk(j, token, expiresAt, refreshable) =>
      var got := Session(Some(token), expiresAt, refreshable);
      State(if s.jobs[j].store then Some(got) else s.session, None, s.free + 1,
            s.jobs[j := Queued(Some(token))], s.plain, s.now, s.logins + [got])
    case LoginFail(j) => s.(lock := None, free := s.free + 1, jobs := s.jobs[j := Failed])
    case Send(j, client) => s.(free := s.free - 1, jobs := s.jobs[j := Sending(s.jobs[j].auth, client)])
    case Retarget(j, client) => s.(jobs := s.jobs[j := s.jobs[j].(client := client)])
    case Finish(j) => s.(free := s.free + 1, jobs := s.jobs[j := Done(s.jobs[j].auth)])
    case HeadersIn(j) => s.(free := s.free + 1, jobs := s.jobs[j := Streaming(s.jobs[j].auth, s.jobs[j].client)])
    case BodyDone(j) => s.(jobs := s.jobs[j := Done(s.jobs[j].auth)])
    case Cancel(j) =>
      s.(free := if HoldsPermit(s.jobs[j]) then s.free + 1 else s.free,
         lock := if LogsIn(s.jobs[j]) then None else s.lock,
         jobs := s.jobs[j := Failed])
    case Clock(to) => s.(now := to)
  }

  predicate ValidRun(cfg: Config, s: State, es: seq<Event>)
    decreases |es|, 1
  {
    es == [] ||
    (ValidRun(cfg, s, es[..|es| - 1]) && Enabled(Run(cfg, s, es[..|es| - 1]), es[|es| - 1]))
  }

  function Run(cfg: Config, s: State, es: seq<Event>): State
    requires ValidRun(cfg, s, es)
    decreases |es|, 2
  {
    if es == [] then s else Step(cfg, Run(cfg, s, es[..|es| - 1]), es[|es| - 1])
  }

  // ---- admission ----

  /** Exactly which requests go past the login at once: those sent without one, with whatever is stored, and
      those that find a token which has not expired and is not due for renewal. The others wait for the
      login lock. */
  lemma GoesPastTheLoginIff(cfg: Config, s: State, j: Job, plain: bool)
    requires Enabled(s, Start(j, plain))
    ensures var p := Step(cfg, s, Start(j, plain)).jobs[j];
      var usable := s.session.Some? && s.session.value.access.Some? &&
        (s.session.value.expiresAt == None ||
         (s.now <= s.session.value.expiresAt.value &&
          (s.session.value.refreshable ==> s.session.value.expiresAt.value - s.now >= cfg.advance)));
      && (plain ==> p == Queued(if s.session == None then None else s.session.value.access))
      && (!plain && usable ==> p == Queued(s.session.value.access))
      && (!plain && !usable ==> p == Waiting)
  {
  }

  /** Under the lock: a usable session is taken; otherwise a login starts, an expired token is cleared, and
      what the login brings is stored exactly when there was no session, no token or no expiry, or when the
      expired session can be refreshed and the refresh stores. */
  lemma UnderTheLock(cfg: Config, s: State, j: Job)
    requires Enabled(s, TakeLock(j))
    ensures var t := Step(cfg, s, TakeLock(j));
      if ValidSession(cfg, s.session, s.now)
      then t == s.(jobs := s.jobs[j := Queued(s.session.value.access)])
      else
        && t.lock == Some(j) && t.jobs[j].LoginQueued? && t.free == s.free
        && (t.jobs[j].store <==>
              || s.session == None || s.session.value.access == None || s.session.value.expiresAt == None
              || (cfg.refreshStores && (s.now > s.session.value.expiresAt.value ==> s.session.value.refreshable)))
        && t.session ==
           if s.session.Some? && s.session.value.access.Some? && s.session.value.expiresAt.Some?
              && s.now > s.session.value.expiresAt.value
           then Some(s.session.value.(access := None)) else s.session
  {
  }

  /** A login that succeeds: its session is stored if it is to be, its token is what the request goes on
      with, and lock and permit are given back. */
  lemma LoginIs(cfg: Config, s: State, j: Job, token: Token, expiresAt: Option<int>, refreshable: bool)
    requires Enabled(s, LoginOk(j, token, expiresAt, refreshable))
    ensures var t := Step(cfg, s, LoginOk(j, token, expiresAt, refreshable));
      var got := Session(Some(token), expiresAt, refreshable);
      && t.logins == s.logins + [got] && t.lock == None && t.free == s.free + 1
      && t.jobs == s.jobs[j := Queued(Some(token))]
      && t.session == (if s.jobs[j].store then Some(got) else s.session)
  {
  }

  function ConnectionOf(p: Phase): Option<bool> {
    match p
    case LoginSending(_, client) => Some(client)
    case Sending(_, client) => Some(client)
    case Streaming(_, client) => Some(client)
    case _ => None
  }

  /** Permits are taken to send and given back at the end, at the headers of a stream, on failure and on
      cancellation; a request that is sent keeps its token and ends with it. */
  lemma SendingIs(cfg: Config, s: State, j: Job, client: bool)
    ensures Enabled(s, Send(j, client)) ==>
      Step(cfg, s, Send(j, client)) == s.(free := s.free - 1, jobs := s.jobs[j := Sending(s.jobs[j].auth, client)])
    ensures Enabled(s, Finish(j)) ==>
      Step(cfg, s, Finish(j)) == s.(free := s.free + 1, jobs := s.jobs[j := Done(s.jobs[j].auth)])
    ensures Enabled(s, HeadersIn(j)) ==>
      Step(cfg, s, HeadersIn(j)) == s.(free := s.free + 1, jobs := s.jobs[j := Streaming(s.jobs[j].auth, s.jobs[j].client)])
    ensures Enabled(s, Cancel(j)) ==>
      Step(cfg, s, Cancel(j)).jobs == s.jobs[j := Failed]
      && Step(cfg, s, Cancel(j)).free == (if s.jobs[j].Sending? || s.jobs[j].LoginSending? then s.free + 1 else s.free)
    ensures Enabled(s, BodyDone(j)) ==> Step(cfg, s, BodyDone(j)) == s.(jobs := s.jobs[j := Done(s.jobs[j].auth)])
    ensures Enabled(s, LoginSend(j, client)) ==>
      Step(cfg, s, LoginSend(j, client)) == s.(free := s.free - 1, jobs := s.jobs[j := LoginSending(s.jobs[j].store, client)])
    ensures Enabled(s, LoginFail(j)) ==>
      Step(cfg, s, LoginFail(j)) == s.(lock := None, free := s.free + 1, jobs := s.jobs[j := Failed])
    ensures Enabled(s, Retarget(j, client)) ==>
      Step(cfg, s, Retarget(j, client)).jobs.Keys == s.jobs.Keys && ConnectionOf(Step(cfg, s, Retarget(j, client)).jobs[j]) == Some(client)
  {
  }

  // ---- permits and connections ----

  function Holders(jobs: map<Job, Phase>): set<Job> {
    set j | j in jobs && HoldsPermit(jobs[j])
  }

  function Streams(jobs: map<Job, Phase>): set<Job> {
    set j | j in jobs && jobs[j].Streaming?
  }

  /** Jobs with a connection, over both clients. */
  function Connected(jobs: map<Job, Phase>): set<Job> {
    set j | j in jobs && (HoldsPermit(jobs[j]) || jobs[j].Streaming?)
  }

  /** Permits are conserved, and the lock is held by exactly the job that is logging in. */
  predicate Conserved(cfg: Config, s: State) {
    && s.free + |Holders(s.jobs)| == InflightLimit(cfg.maxConnections)
    && (forall j :: j in s.jobs ==> (LogsIn(s.jobs[j]) <==> s.lock == Some(j)))
    && (s.lock.Some? ==> s.lock.value in s.jobs)
  }

  predicate Held(jobs: map<Job, Phase>, j: Job) {
    j in jobs && HoldsPermit(jobs[j])
  }

  /** One job moves to phase `p`, and permits and lock move with it. */
  lemma MoveConserves(cfg: Config, s: State, t: State, j: Job, p: Phase)
    requires Conserved(cfg, s) && t.jobs == s.jobs[j := p]
    requires t.free + (if HoldsPermit(p) then 1 else 0) == s.free + (if Held(s.jobs, j) then 1 else 0)
    requires LogsIn(p) ==> s.lock == None || s.lock == Some(j)
    requires t.lock == if LogsIn(p) then Some(j) else if s.lock == Some(j) then None else s.lock
    ensures Conserved(cfg, t)
  {
    if HoldsPermit(p) {
      assert Holders(t.jobs) == Holders(s.jobs) + {j};
    } else {
      assert Holders(t.jobs) == Holders(s.jobs) - {j};
    }
  }

  lemma StepConserves(cfg: Config, s: State, e: Event)
    requires Conserved(cfg, s) && Enabled(s, e)
    ensures Conserved(cfg, Step(cfg, s, e))
  {
    if !e.Clock? {
      var t := Step(cfg, s, e);
      MoveConserves(cfg, s, t, e.job, t.jobs[e.job]);
    }
  }

  lemma {:induction false} RunConserves(cfg: Config, session: Option<Session>, now: int, es: seq<Event>)
    requires ValidRun(cfg, Init(cfg, session, now), es)
    ensures Conserved(cfg, Run(cfg, Init(cfg, session, now), es))
  {
    if es == [] {
      assert Holders(map[]) == {};
    } else {
      RunConserves(cfg, session, now, es[..|es| - 1]);
      StepConserves(cfg, Run(cfg, Init(cfg, session, now), es[..|es| - 1]), es[|es| - 1]);
    }
  }

  /** Jobs with a connection of one of the two clients. */
  function ConnectedOn(jobs: map<Job, Phase>, client: bool): set<Job> {
    set j | j in jobs && (HoldsPermit(jobs[j]) || jobs[j].Streaming?) && jobs[j].client == client
  }

  lemma TwoPools(jobs: map<Job, Phase>)
    ensures |Connected(jobs)| == |ConnectedOn(jobs, true)| + |ConnectedOn(jobs, false)|
  {
    assert Connected(jobs) == ConnectedOn(jobs, true) + ConnectedOn(jobs, false);
    assert ConnectedOn(jobs, true) !! ConnectedOn(jobs, false);
  }

  /** In every reachable state the connections in use over both clients together are at most the
      permits plus the open streams; so as long as no more streams are open than the headroom,
      each client's fit its pool, however requests move between the clients, and no checkout queues. */
  lemma ConnectionsFitThePool(cfg: Config, session: Option<Session>, now: int, es: seq<Event>)
    requires ValidRun(cfg, Init(cfg, session, now), es)
    ensures var s := Run(cfg, Init(cfg, session, now), es);
      var limit, capacity := InflightLimit(cfg.maxConnections), Capacity(cfg.maxConnections);
      && |Connected(s.jobs)| <= limit + |Streams(s.jobs)|
      && |Connected(s.jobs)| == |ConnectedOn(s.jobs, true)| + |ConnectedOn(s.jobs, false)|
      && (|Streams(s.jobs)| <= capacity - limit ==> forall client :: |ConnectedOn(s.jobs, client)| <= capacity)
  {
    TwoPools(Run(cfg, Init(cfg, session, now), es).jobs);
    RunConserves(cfg, session, now, es);
    var s := Run(cfg, Init(cfg, session, now), es);
    assert Connected(s.jobs) == Holders(s.jobs) + Streams(s.jobs);
  }

  /** `total` requests, all on one client; the first `streams` of them stream their bodies. */
  function Crowd(auth: Option<Token>, streams: nat, total: nat): map<Job, Phase> {
    map j | j in Below(total) :: if j < streams then Streaming(auth, true) else Sending(auth, true)
  }

  predicate CrowdState(cfg: Config, s: State, auth: Option<Token>, streams: nat, senders: nat) {
    AccessOf(s.session) == auth && s.jobs == Crowd(auth, streams, streams + senders) && s.free + senders == InflightLimit(cfg.maxConnections)
  }

  lemma CrowdGrows(auth: Option<Token>, streams: nat, total: nat)
    requires streams <= total
    ensures Crowd(auth, streams, total)[total := Sending(auth, true)] == Crowd(auth, streams, total + 1)
    ensures streams == total ==> Crowd(auth, streams, total)[total := Streaming(auth, true)] == Crowd(auth, streams + 1, total + 1)
    ensures total !in Crowd(auth, streams, total)
  {
  }

  lemma StartAndSend(cfg: Config, t: State, j: Job)
    requires j !in t.jobs && t.free > 0
    ensures var u := Step(cfg, t, Start(j, true));
      Enabled(u, Send(j, true)) && Step(cfg, u, Send(j, true)).jobs == t.jobs[j := Sending(AccessOf(t.session), true)]
      && Step(cfg, u, Send(j, true)).session == t.session
      && Step(cfg, u, Send(j, true)).free == t.free - 1
  {
  }

  /** One more request gets a connection. */
  lemma OneMoreSender(cfg: Config, s: State, es: seq<Event>, j: Job) returns (more: seq<Event>)
    requires ValidRun(cfg, s, es) && j !in Run(cfg, s, es).jobs && Run(cfg, s, es).free > 0
    ensures ValidRun(cfg, s, more) && Run(cfg, s, more).jobs == Run(cfg, s, es).jobs[j := Sending(AccessOf(Run(cfg, s, es).session), true)]
    ensures Run(cfg, s, more).session == Run(cfg, s, es).session
    ensures Run(cfg, s, more).free == Run(cfg, s, es).free - 1
  {
    StartAndSend(cfg, Run(cfg, s, es), j);
    RunSnoc(cfg, s, es, Start(j, true));
    RunSnoc(cfg, s, es + [Start(j, true)], Send(j, true));
    more := es + [Start(j, true)] + [Send(j, true)];
  }

  /** One more gets its headers, and its permit is back. */
  lemma OneMoreStream(cfg: Config, s: State, es: seq<Event>, j: Job) returns (more: seq<Event>)
    requires ValidRun(cfg, s, es) && j !in Run(cfg, s, es).jobs && Run(cfg, s, es).free > 0
    ensures ValidRun(cfg, s, more) && Run(cfg, s, more).jobs == Run(cfg, s, es).jobs[j := Streaming(AccessOf(Run(cfg, s, es).session), true)]
    ensures Run(cfg, s, more).session == Run(cfg, s, es).session
    ensures Run(cfg, s, more).free == Run(cfg, s, es).free
  {
    var sent := OneMoreSender(cfg, s, es, j);
    RunSnoc(cfg, s, sent, HeadersIn(j));
    more := sent + [HeadersIn(j)];
  }

  lemma {:induction false} StreamsRun(cfg: Config, session: Option<Session>, now: int, streams: nat) returns (es: seq<Event>)
    ensures ValidRun(cfg, Init(cfg, session, now), es)
    ensures CrowdState(cfg, Run(cfg, Init(cfg, session, now), es), AccessOf(session), streams, 0)
  {
    if streams == 0 {
      es := [];
      assert map[] == Crowd(AccessOf(session), 0, 0);
    } else {
      es := StreamsRun(cfg, session, now, streams - 1);
      CrowdGrows(AccessOf(session), streams - 1, streams - 1);
      es := OneMoreStream(cfg, Init(cfg, session, now), es, streams - 1);
    }
  }

  lemma {:induction false} CrowdRun(cfg: Config, session: Option<Session>, now: int, streams: nat, senders: nat) returns (es: seq<Event>)
    requires senders <= InflightLimit(cfg.maxConnections)
    ensures ValidRun(cfg, Init(cfg, session, now), es)
    ensures CrowdState(cfg, Run(cfg, Init(cfg, session, now), es), AccessOf(session), streams, senders)
    decreases senders
  {
    if senders == 0 {
      es := StreamsRun(cfg, session, now, streams);
    } else {
      es := CrowdRun(cfg, session, now, streams, senders - 1);
      CrowdGrows(AccessOf(session), streams, streams + senders - 1);
      es := OneMoreSender(cfg, Init(cfg, session, now), es, streams + senders - 1);
    }
  }

  lemma CrowdStreams(auth: Option<Token>, streams: nat, total: nat)
    requires streams <= total
    ensures |Streams(Crowd(auth, streams, total))| == streams
  {
    assert Streams(Crowd(auth, streams, total)) == Below(streams);
    BelowCount(streams);
  }

  lemma CrowdConnections(auth: Option<Token>, streams: nat, total: nat)
    requires streams <= total
    ensures |ConnectedOn(Crowd(auth, streams, total), true)| == total
  {
    assert ConnectedOn(Crowd(auth, streams, total), true) == Below(total);
    BelowCount(total);
  }

  function Below(n: nat): (b: set<Job>)
    ensures forall j: Job :: j in b <==> j < n
  {
    if n == 0 then {} else Below(n - 1) + {n - 1}
  }

  lemma {:induction false} BelowCount(n: nat)
    ensures |Below(n)| == n
  {
    if n > 0 {
      BelowCount(n - 1);
    }
  }

  ghost predicate Overfull(cfg: Config, jobs: map<Job, Phase>) {
    exists client :: |ConnectedOn(jobs, client)| > Capacity(cfg.maxConnections)
  }

  /** The headroom is exactly what the pools bear: with `streams` bodies open, a run can overfill a
      pool if and only if they are more than the headroom. */
  lemma OverfullIff(cfg: Config, session: Option<Session>, now: int, streams: nat)
    ensures (exists es :: ValidRun(cfg, Init(cfg, session, now), es)
               && |Streams(Run(cfg, Init(cfg, session, now), es).jobs)| == streams
               && Overfull(cfg, Run(cfg, Init(cfg, session, now), es).jobs))
            <==> streams > Capacity(cfg.maxConnections) - InflightLimit(cfg.maxConnections)
  {
    var s := Init(cfg, session, now);
    if streams > Capacity(cfg.maxConnections) - InflightLimit(cfg.maxConnections) {
      var es := CrowdRun(cfg, session, now, streams, InflightLimit(cfg.maxConnections));
      var total := streams + InflightLimit(cfg.maxConnections);
      CrowdStreams(AccessOf(session), streams, total);
      CrowdConnections(AccessOf(session), streams, total);
      assert |ConnectedOn(Run(cfg, s, es).jobs, true)| > Capacity(cfg.maxConnections);
    } else {
      forall es | ValidRun(cfg, s, es) && |Streams(Run(cfg, s, es).jobs)| == streams
        ensures !Overfull(cfg, Run(cfg, s, es).jobs)
      {
        ConnectionsFitThePool(cfg, session, now, es);
      }
    }
  }

  /** The next section of a job that is not finished, other than its cancellation. */
  predicate Progress(e: Event, j: Job) {
    !e.Start? && !e.Clock? && !e.Cancel? && e.job == j
  }

  /** No deadlock between the login lock and the permits: while any job is unfinished, some
      unfinished job has a section it can run. A login in particular never waits for a permit
      that its own caller, or a request waiting for that login, is holding. */
  lemma SomeoneCanMove(cfg: Config, s: State)
    requires Conserved(cfg, s) && exists j :: j in s.jobs && !Over(s.jobs[j])
    ensures exists j, e: Event :: j in s.jobs && !Over(s.jobs[j]) && Progress(e, j) && Enabled(s, e)
  {
    var j :| j in s.jobs && !Over(s.jobs[j]);
    if k :| k in s.jobs && HoldsPermit(s.jobs[k]) {
      var e := if s.jobs[k].Sending? then Finish(k) else LoginFail(k);
      assert Progress(e, k) && Enabled(s, e);
    } else {
      assert Holders(s.jobs) == {};
      if s.jobs[j].Waiting? {
        if s.lock == None {
          assert Progress(TakeLock(j), j) && Enabled(s, TakeLock(j));
        } else {
          var k := s.lock.value;
          assert s.jobs[k].LoginQueued?;
          assert Progress(LoginSend(k, true), k) && Enabled(s, LoginSend(k, true));
        }
      } else {
        var e := match s.jobs[j]
          case LoginQueued(_) => LoginSend(j, true)
          case Queued(_) => Send(j, true)
          case _ => BodyDone(j);
        assert Progress(e, j) && Enabled(s, e);
      }
    }
  }

  // ---- single-flight login ----

  /** Whatever the logins returned is still usable. */
  predicate Lasting(cfg: Config, s: State) {
    forall i :: 0 <= i < |s.logins| ==> ValidSession(cfg, Some(s.logins[i]), s.now)
  }

  /** A run throughout which the tokens obtained stay valid. */
  predicate LastingRun(cfg: Config, s: State, es: seq<Event>) {
    ValidRun(cfg, s, es) && Lasting(cfg, Run(cfg, s, es)) && (es == [] || LastingRun(cfg, s, es[..|es| - 1]))
  }

  /** The next login under the lock will be stored: there is no session, or no access token in
      it, or it is renewed by a refresh that stores. */
  predicate NextLoginIsStored(cfg: Config, session: Option<Session>) {
    session == None || session.value.access == None || (session.value.refreshable && cfg.refreshStores)
  }

  predicate PastLogin(p: Phase) {
    p.Queued? || p.Sending? || p.Streaming? || p.Done?
  }

  function AuthOf(p: Phase): Option<Token> {
    if PastLogin(p) then p.auth else None
  }

  /** Before the login: only jobs without one are past it, with no token or the one that was stored at
      first; a login will be stored. */
  predicate JobBefore(s: State, was: Option<Token>, j: Job) {
    j in s.jobs ==>
      && (PastLogin(s.jobs[j]) ==> j in s.plain && (AuthOf(s.jobs[j]) == None || AuthOf(s.jobs[j]) == was))
      && (LogsIn(s.jobs[j]) ==> s.jobs[j].store && j !in s.plain)
      && (s.jobs[j].Waiting? ==> j !in s.plain)
  }

  /** After it: nobody logs in, and a job past the login has the one token, unless it went without a
      login and before. */
  predicate JobAfter(s: State, was: Option<Token>, j: Job, auth: Option<Token>) {
    j in s.jobs ==>
      && (PastLogin(s.jobs[j]) ==>
            AuthOf(s.jobs[j]) == auth || (j in s.plain && (AuthOf(s.jobs[j]) == None || AuthOf(s.jobs[j]) == was)))
      && !LogsIn(s.jobs[j])
      && (s.jobs[j].Waiting? ==> j !in s.plain)
  }

  /** Before the one login: nothing usable is stored, what comes will be, and no job has a token. */
  predicate BeforeLogin(cfg: Config, s: State, was: Option<Token>) {
    && s.logins == []
    && !ValidSession(cfg, s.session, s.now)
    && NextLoginIsStored(cfg, s.session)
    && (AccessOf(s.session) == None || AccessOf(s.session) == was)
    && (forall j :: j in s.jobs ==> JobBefore(s, was, j))
    && s.plain <= s.jobs.Keys
  }

  /** After it: its session is the stored one, nobody logs in, and its token is the only one. */
  predicate AfterLogin(s: State, was: Option<Token>) {
    && |s.logins| == 1
    && s.session == Some(s.logins[0])
    && s.lock == None
    && (forall j :: j in s.jobs ==> JobAfter(s, was, j, s.logins[0].access))
    && s.plain <= s.jobs.Keys
  }

  lemma StepKeepsSingleLogin(cfg: Config, s: State, was: Option<Token>, e: Event)
    requires Conserved(cfg, s) && Enabled(s, e)
    requires BeforeLogin(cfg, s, was) || AfterLogin(s, was)
    requires Lasting(cfg, s)
    ensures BeforeLogin(cfg, Step(cfg, s, e), was) || AfterLogin(Step(cfg, s, e), was)
  {
    if AfterLogin(s, was) {
      StepAfterLogin(cfg, s, was, e);
    } else if e.LoginOk? {
      LoginHappens(cfg, s, was, e);
    } else {
      StepBeforeLogin(cfg, s, was, e);
    }
  }

  lemma StepBeforeLogin(cfg: Config, s: State, was: Option<Token>, e: Event)
    requires BeforeLogin(cfg, s, was) && Enabled(s, e) && !e.LoginOk?
    ensures BeforeLogin(cfg, Step(cfg, s, e), was)
  {
    var t := Step(cfg, s, e);
    forall j | j in t.jobs ensures JobBefore(t, was, j) {
      if j in s.jobs { assert JobBefore(s, was, j); }
    }
  }

  lemma LoginHappens(cfg: Config, s: State, was: Option<Token>, e: Event)
    requires Conserved(cfg, s) && BeforeLogin(cfg, s, was) && Enabled(s, e) && e.LoginOk?
    ensures AfterLogin(Step(cfg, s, e), was)
  {
    var t := Step(cfg, s, e);
    assert s.lock == Some(e.job) && JobBefore(s, was, e.job);
    forall j | j in t.jobs ensures JobAfter(t, was, j, Some(e.token)) {
      assert JobBefore(s, was, j);
    }
  }

  lemma StepAfterLogin(cfg: Config, s: State, was: Option<Token>, e: Event)
    requires AfterLogin(s, was) && Enabled(s, e) && Lasting(cfg, s)
    ensures AfterLogin(Step(cfg, s, e), was)
  {
    var t := Step(cfg, s, e);
    assert ValidSession(cfg, s.session, s.now);
    if !e.Start? && !e.Clock? { assert JobAfter(s, was, e.job, s.logins[0].access); }
    forall j | j in t.jobs ensures JobAfter(t, was, j, s.logins[0].access) {
      if j in s.jobs { assert JobAfter(s, was, j, s.logins[0].access); }
    }
  }

  lemma {:induction false} RunKeepsSingleLogin(cfg: Config, session: Option<Session>, now: int, es: seq<Event>)
    requires LastingRun(cfg, Init(cfg, session, now), es)
    requires !ValidSession(cfg, session, now) && NextLoginIsStored(cfg, session)
    ensures var s := Run(cfg, Init(cfg, session, now), es);
      BeforeLogin(cfg, s, AccessOf(session)) || AfterLogin(s, AccessOf(session))
  {
    if es != [] {
      RunKeepsSingleLogin(cfg, session, now, es[..|es| - 1]);
      RunConserves(cfg, session, now, es[..|es| - 1]);
      StepKeepsSingleLogin(cfg, Run(cfg, Init(cfg, session, now), es[..|es| - 1]), AccessOf(session), es[|es| - 1]);
    }
  }

  /** From a session that is missing, or that a storing login will replace, any number of requests
      in any interleaving log in successfully at most once while that token lasts; and every request
      that needs a login and has got past it has that one token. One that is sent without a login has
      what was stored when it started: no token, the first session's or that one. */
  lemma OneLoginServesAll(cfg: Config, session: Option<Session>, now: int, es: seq<Event>)
    requires LastingRun(cfg, Init(cfg, session, now), es)
    requires !ValidSession(cfg, session, now) && NextLoginIsStored(cfg, session)
    ensures var s := Run(cfg, Init(cfg, session, now), es);
      && |s.logins| <= 1
      && (forall j :: j in s.jobs && PastLogin(s.jobs[j]) ==>
            || (|s.logins| == 1 && s.logins[0].access.Some? && AuthOf(s.jobs[j]) == s.logins[0].access)
            || (j in s.plain && (AuthOf(s.jobs[j]) == None || AuthOf(s.jobs[j]) == AccessOf(session))))
  {
    RunKeepsSingleLogin(cfg, session, now, es);
    var s, was := Run(cfg, Init(cfg, session, now), es), AccessOf(session);
    forall j | j in s.jobs && PastLogin(s.jobs[j])
      ensures (|s.logins| == 1 && s.logins[0].access.Some? && AuthOf(s.jobs[j]) == s.logins[0].access)
              || (j in s.plain && (AuthOf(s.jobs[j]) == None || AuthOf(s.jobs[j]) == was))
    {
      if BeforeLogin(cfg, s, was) {
        assert JobBefore(s, was, j);
      } else {
        assert JobAfter(s, was, j, s.logins[0].access) && ValidSession(cfg, Some(s.logins[0]), s.now);
      }
    }
  }

  // ---- the session whose renewal is not stored ----

  lemma RunSnoc(cfg: Config, s: State, es: seq<Event>, e: Event)
    requires ValidRun(cfg, s, es) && Enabled(Run(cfg, s, es), e)
    ensures ValidRun(cfg, s, es + [e]) && Run(cfg, s, es + [e]) == Step(cfg, Run(cfg, s, es), e)
    ensures LastingRun(cfg, s, es) && Lasting(cfg, Run(cfg, s, es + [e])) ==> LastingRun(cfg, s, es + [e])
  {
    assert (es + [e])[..|es|] == es;
  }

  /** One request that finds no usable session and logs in with a token that never expires. */
  function LoginRun(j: Job, token: Token): seq<Event> {
    [Start(j, false), TakeLock(j), LoginSend(j, true), LoginOk(j, token, None, false)]
  }

  /** Its run, from a state in which nobody else is busy. */
  lemma LoginRunIsLasting(cfg: Config, s: State, es: seq<Event>, j: Job, token: Token)
    requires LastingRun(cfg, s, es)
    requires var t := Run(cfg, s, es);
      j !in t.jobs && t.lock == None && t.free > 0 && !ValidSession(cfg, t.session, t.now)
    ensures LastingRun(cfg, s, es + LoginRun(j, token))
    ensures var t := Run(cfg, s, es);
      var u := Run(cfg, s, es + LoginRun(j, token));
      var (cleared, store) := UnderLock(cfg, t.session, t.now);
      var got := Session(Some(token), None, false);
      && u.logins == t.logins + [got] && u.lock == None && u.free == t.free && u.now == t.now
      && u.jobs.Keys == t.jobs.Keys + {j}
      && u.session == if store then Some(got) else cleared
  {
    var run := LoginRun(j, token);
    RunSnoc(cfg, s, es, run[0]);
    var e1 := es + [run[0]];
    RunSnoc(cfg, s, e1, run[1]);
    var e2 := e1 + [run[1]];
    RunSnoc(cfg, s, e2, run[2]);
    var e3 := e2 + [run[2]];
    RunSnoc(cfg, s, e3, run[3]);
    assert es + run == e3 + [run[3]];
  }

  /** Exactly when one login is enough. An expired session that is renewed without being stored,
      because it has no refresh token or because `refresh` does not store, costs a second one. */
  lemma OneLoginIff(cfg: Config, session: Option<Session>, now: int)
    requires !ValidSession(cfg, session, now)
    ensures (forall es :: LastingRun(cfg, Init(cfg, session, now), es) ==>
               |Run(cfg, Init(cfg, session, now), es).logins| <= 1)
            <==> NextLoginIsStored(cfg, session)
  {
    var s := Init(cfg, session, now);
    if NextLoginIsStored(cfg, session) {
      forall es | LastingRun(cfg, s, es) ensures |Run(cfg, s, es).logins| <= 1 {
        OneLoginServesAll(cfg, session, now, es);
      }
    } else {
      LoginRunIsLasting(cfg, s, [], 0, 7);
      var es := [] + LoginRun(0, 7);
      assert !ValidSession(cfg, Run(cfg, s, es).session, now);
      LoginRunIsLasting(cfg, s, es, 1, 8);
      assert |Run(cfg, s, es + LoginRun(1, 8)).logins| == 2;
    }
  }

  // ---- the connector object ----

  /** OAuthSessionData: the access token is cleared in place when it has expired. */
  class AuthSession {
    var accessToken: Option<Token>
    const expiresAt: Option<int>
    const refreshable: bool

    constructor (accessToken: Option<Token>, expiresAt: Option<int>, refreshable: bool)
      ensures View() == Session(accessToken, expiresAt, refreshable)
    {
      this.accessToken, this.expiresAt, this.refreshable := accessToken, expiresAt, refreshable;
    }

    ghost function View(): Session
      reads this
    {
      Session(accessToken, expiresAt, refreshable)
    }
  }

  /** Where the token of a login under the lock comes from: a plain login that the request stores,
      a refresh, or the re-login of an expired session, which nobody stores. */
  datatype Path = PlainLogin | ViaRefresh | Relogin

  /** The stored session of one API user (one entry of SHARED_TOKENS). */
  class TokenStorage {
    const advance: int
    const refreshStores: bool
    var stored: AuthSession?

    constructor (advance: int, refreshStores: bool)
      ensures View() == None && this.advance == advance && this.refreshStores == refreshStores
    {
      this.advance, this.refreshStores, stored := advance, refreshStores, null;
    }

    ghost function Cfg(maxConnections: Option<int>): Config {
      Config(maxConnections, advance, refreshStores)
    }

    ghost function View(): Option<Session>
      reads this, if stored == null then {} else {stored}
    {
      if stored == null then None else Some(stored.View())
    }

    /** The test of the lock-free fast path, repeated under the lock. */
    method HasValidSession(now: int, ghost maxConnections: Option<int>) returns (valid: bool)
      ensures valid == ValidSession(Cfg(maxConnections), View(), now)
    {
      if stored == null || stored.accessToken == None {
        return false;
      }
      if stored.expiresAt == None {
        return true;
      }
      if now > stored.expiresAt.value {
        return false;
      }
      if stored.refreshable && stored.expiresAt.value - now < advance {
        return false;
      }
      return true;
    }

    /** `session_in_progress` up to its await, for a session that is not valid. */
    method SessionInProgress(now: int, ghost maxConnections: Option<int>) returns (path: Path)
      requires !ValidSession(Cfg(maxConnections), View(), now)
      modifies if stored == null then {} else {stored}
      ensures stored == old(stored)
      ensures (View(), path == PlainLogin || (path == ViaRefresh && refreshStores))
              == UnderLock(Cfg(maxConnections), old(View()), now)
    {
      if stored == null {
        return PlainLogin;
      }
      if stored.accessToken.Some? && stored.expiresAt.Some? {
        if now > stored.expiresAt.value {
          stored.accessToken := None;
          return if stored.refreshable then ViaRefresh else Relogin;
        }
        return ViaRefresh;
      }
      return PlainLogin;
    }

    /** What happens to the session a login under the lock returned. */
    method LoggedIn(path: Path, got: AuthSession)
      modifies this
      ensures View() == if path == PlainLogin || (path == ViaRefresh && refreshStores) then Some(got.View()) else old(View())
    {
      if path == PlainLogin || (path == ViaRefresh && refreshStores) {
        stored := got;
      }
    }
  }
}
