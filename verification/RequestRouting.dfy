/**
 One outbound request and the site tracker (app/bss/async_http_api.py, `_send_rest_request`,
 `_request_targets`, `_note_site_unreachable`, `_note_site_slow`).

 The answers of the network are inputs, one per attempt. While an attempt is awaited other
 coroutines run, so each attempt also comes with the tracker events that happen during it.
 */
module RequestRouting {
  import opened SiteTracker
  import opened SiteRuns

  /** What one attempt ends with. `SlowTimeout` is a read or write timeout; `NotHttp` an
      exception outside httpx.HTTPError, which nothing here catches. */
  datatype Outcome = Replied | StatusError | ConnectRefused | ConnectTimeout | SlowTimeout | PoolTimeout | Broken | NotHttp
  {
    predicate Unreachable() { this == ConnectRefused || this == ConnectTimeout }
    predicate Timeout() { this == ConnectTimeout || this == SlowTimeout || this == PoolTimeout }
  }

  datatype Verdict = Returned | RaisedTimeout | RaisedError | Propagated | FellThrough

  datatype Exchange = Exchange(verdict: Verdict, attempts: seq<string>, state: State)

  function ServerOf(site: Site, api: string, standby: string): string {
    if site == Main then api else standby
  }

  function Servers(sites: seq<Site>, api: string, standby: string): (r: seq<string>)
    ensures |r| == |sites|
  {
    seq(|sites|, i requires 0 <= i < |sites| => ServerOf(sites[i], api, standby))
  }

  /** What a failed attempt tells the tracker. Only the main server's failures count. */
  function Report(cfg: Config, tracked: bool, api: string, s: State, base: string, o: Outcome): State {
    if !tracked || base != api then s
    else if o.Unreachable() then AfterUnreachable(s)
    else if o == SlowTimeout then AfterSlow(cfg, s)
    else s
  }

  function Raise(o: Outcome): Verdict {
    if o == NotHttp then Propagated else if o.Timeout() then RaisedTimeout else RaisedError
  }

  /** The exchange over a list of targets. */
  function Send(cfg: Config, tracked: bool, api: string, s: State, targets: seq<string>,
                outcomes: seq<Outcome>, meanwhile: seq<seq<Event>>): Exchange
    requires |outcomes| == |meanwhile| && |targets| <= |outcomes|
    decreases |targets|
  {
    if targets == [] then Exchange(FellThrough, [], s)
    else
      var base, o := targets[0], outcomes[0];
      var during := if tracked then Run(cfg, s, meanwhile[0]) else s;
      if o == Replied then Exchange(Returned, [base], during)
      else
        var told := Report(cfg, tracked, api, during, base, o);
        if o.Unreachable() && |targets| > 1 then
          var rest := Send(cfg, tracked, api, told, targets[1..], outcomes[1..], meanwhile[1..]);
          rest.(attempts := [base] + rest.attempts)
        else Exchange(Raise(o), [base], told)
  }

  /** A request without an explicit server on a connector with failover. */
  function Routed(cfg: Config, api: string, standby: string, s: State, now: int,
                  outcomes: seq<Outcome>, meanwhile: seq<seq<Event>>): Exchange
    requires |outcomes| == |meanwhile| == 2
  {
    Send(cfg, true, api, AfterRequest(cfg, s, now), Servers(Targets(s), api, standby), outcomes, meanwhile)
  }

  method Interleave(site: SiteState, events: seq<Event>)
    modifies site
    ensures site.View() == Run(site.Cfg(), old(site.View()), events)
    ensures site.Cfg() == old(site.Cfg())
  {
    var i := 0;
    assert events[..0] == [];
    while i < |events|
      invariant 0 <= i <= |events|
      invariant site.Cfg() == old(site.Cfg())
      invariant site.View() == Run(site.Cfg(), old(site.View()), events[..i])
    {
      RunSnoc(site.Cfg(), old(site.View()), events[..i], events[i]);
      assert events[..i + 1] == events[..i] + [events[i]];
      match events[i] {
        case Tick(main, standby) => site.PollOnce(main, standby);
        case Request(now) => var _ := site.NextTargets(now);
        case Unreachable => site.ReportUnreachable();
        case Slow => site.ReportSlow();
        case ConfirmDone(answer) => site.ConfirmOutage(answer);
        case ProbeDone(answer) => site.RunProbe(answer);
      }
      i := i + 1;
    }
    assert events[..i] == events;
  }

  class Connector {
    const apiServer: string
    const standbyServer: string
    const site: SiteState?

    constructor (apiServer: string, site: SiteState?, standbyServer: string)
      ensures this.apiServer == apiServer && this.site == site && this.standbyServer == standbyServer
    {
      this.apiServer, this.site, this.standbyServer := apiServer, site, standbyServer;
    }

    ghost function TrackerState(): State
      reads this, if site == null then {} else {site}
    {
      if site == null then INITIAL else site.View()
    }

    ghost function TrackerConfig(): Config
      reads this, if site == null then {} else {site}
    {
      if site == null then Config(1, 1, 0, false, false) else site.Cfg()
    }

    /** An explicit server disables failover; otherwise the tracker decides, if there is one. */
    method RequestTargets(server: string, now: int) returns (targets: seq<string>)
      modifies if site == null then {} else {site}
      ensures TrackerConfig() == old(TrackerConfig())
      ensures server != "" || site == null || standbyServer == "" ==>
        TrackerState() == old(TrackerState()) && targets == [if server != "" then server else apiServer]
      ensures !(server != "" || site == null || standbyServer == "") ==>
        && TrackerState() == AfterRequest(TrackerConfig(), old(TrackerState()), now)
        && targets == Servers(Targets(old(TrackerState())), apiServer, standbyServer)
      ensures 1 <= |targets| <= 2
    {
      if server != "" {
        return [server];
      }
      if site != null && standbyServer != "" {
        var sites := site.NextTargets(now);
        return Servers(sites, apiServer, standbyServer);
      }
      return [apiServer];
    }

    method NoteFailure(base: string, o: Outcome)
      modifies if site == null then {} else {site}
      ensures TrackerConfig() == old(TrackerConfig())
      ensures TrackerState() == Report(TrackerConfig(), site != null, apiServer, old(TrackerState()), base, o)
    {
      if site != null && base == apiServer {
        if o.Unreachable() {
          site.ReportUnreachable();
        } else if o == SlowTimeout {
          site.ReportSlow();
        }
      }
    }

    /** The loop over targets. */
    method SendToTargets(targets: seq<string>, outcomes: seq<Outcome>, meanwhile: seq<seq<Event>>)
      returns (verdict: Verdict, attempts: seq<string>)
      requires |outcomes| == |meanwhile| && |targets| <= |outcomes|
      modifies if site == null then {} else {site}
      ensures Exchange(verdict, attempts, TrackerState())
              == Send(old(TrackerConfig()), site != null, apiServer, old(TrackerState()), targets, outcomes, meanwhile)
    {
      attempts := [];
      var index := 0;
      ghost var whole := Send(TrackerConfig(), site != null, apiServer, TrackerState(), targets, outcomes, meanwhile);
      while index < |targets|
        invariant 0 <= index <= |targets|
        invariant TrackerConfig() == old(TrackerConfig())
        invariant var rest := Send(TrackerConfig(), site != null, apiServer, TrackerState(),
                                   targets[index..], outcomes[index..], meanwhile[index..]);
          whole == rest.(attempts := attempts + rest.attempts)
      {
        var base, o := targets[index], outcomes[index];
        attempts := attempts + [base];
        if site != null {
          Interleave(site, meanwhile[index]);
        }
        if o == Replied {
          return Returned, attempts;
        }
        NoteFailure(base, o);
        if o.Unreachable() && index < |targets| - 1 {
          index := index + 1;
          continue;
        }
        return Raise(o), attempts;
      }
      verdict := FellThrough;
    }

    method SendRestRequest(server: string, now: int, outcomes: seq<Outcome>, meanwhile: seq<seq<Event>>)
      returns (verdict: Verdict, attempts: seq<string>)
      requires |outcomes| == |meanwhile| == 2
      modifies if site == null then {} else {site}
      ensures verdict != FellThrough && 1 <= |attempts| <= 2
      ensures server == "" && site != null && standbyServer != "" ==>
        Exchange(verdict, attempts, TrackerState())
        == Routed(old(TrackerConfig()), apiServer, standbyServer, old(TrackerState()), now, outcomes, meanwhile)
      ensures server != "" || site == null || standbyServer == "" ==>
        var base := if server != "" then server else apiServer;
        && attempts == [base]
        && Exchange(verdict, attempts, TrackerState())
           == Send(old(TrackerConfig()), site != null, apiServer, old(TrackerState()), [base], outcomes, meanwhile)
    {
      var targets := RequestTargets(server, now);
      AlwaysEnds(TrackerConfig(), site != null, apiServer, TrackerState(), targets, outcomes, meanwhile);
      verdict, attempts := SendToTargets(targets, outcomes, meanwhile);
    }
  }

  // ---- properties of every exchange ----

  /** The loop never runs off its end, and makes at most one attempt per target, in order. */
  lemma {:induction false} AlwaysEnds(cfg: Config, tracked: bool, api: string, s: State, targets: seq<string>,
                                      outcomes: seq<Outcome>, meanwhile: seq<seq<Event>>)
    requires |outcomes| == |meanwhile| && 0 < |targets| <= |outcomes|
    ensures var r := Send(cfg, tracked, api, s, targets, outcomes, meanwhile);
      r.verdict != FellThrough && 0 < |r.attempts| <= |targets| && r.attempts == targets[..|r.attempts|]
    decreases |targets|
  {
    if |targets| > 1 && outcomes[0].Unreachable() {
      var during := if tracked then Run(cfg, s, meanwhile[0]) else s;
      var told := Report(cfg, tracked, api, during, targets[0], outcomes[0]);
      AlwaysEnds(cfg, tracked, api, told, targets[1..], outcomes[1..], meanwhile[1..]);
    }
  }

  /** How the exchange ends, read off the outcome of its last attempt; every attempt before that could
      not connect, and one that could not connect is the last only when no target is left. */
  lemma {:induction false} EndsAsItsLastAttempt(cfg: Config, tracked: bool, api: string, s: State, targets: seq<string>,
                                                outcomes: seq<Outcome>, meanwhile: seq<seq<Event>>)
    requires |outcomes| == |meanwhile| && 0 < |targets| <= |outcomes|
    ensures var r := Send(cfg, tracked, api, s, targets, outcomes, meanwhile);
      && 0 < |r.attempts| <= |targets|
      && (forall i :: 0 <= i < |r.attempts| - 1 ==> outcomes[i] == ConnectRefused || outcomes[i] == ConnectTimeout)
      && var last := outcomes[|r.attempts| - 1];
         && ((last == ConnectRefused || last == ConnectTimeout) ==> |r.attempts| == |targets|)
         && (r.verdict == Returned <==> last == Replied)
         && (r.verdict == RaisedTimeout <==> last == ConnectTimeout || last == SlowTimeout || last == PoolTimeout)
         && (r.verdict == RaisedError <==> last == StatusError || last == ConnectRefused || last == Broken)
         && (r.verdict == Propagated <==> last == NotHttp)
    decreases |targets|
  {
    if |targets| > 1 && outcomes[0].Unreachable() {
      var during := if tracked then Run(cfg, s, meanwhile[0]) else s;
      var told := Report(cfg, tracked, api, during, targets[0], outcomes[0]);
      EndsAsItsLastAttempt(cfg, tracked, api, told, targets[1..], outcomes[1..], meanwhile[1..]);
    }
  }

  /** The events that an attempt reports to the tracker. */
  function Reported(api: string, base: string, o: Outcome): seq<Event> {
    if base == api && (o == ConnectRefused || o == ConnectTimeout) then [Unreachable]
    else if base == api && o == SlowTimeout then [Slow]
    else []
  }

  /** What happens to the tracker during the attempts made. */
  function EventsOf(api: string, attempts: seq<string>, outcomes: seq<Outcome>, meanwhile: seq<seq<Event>>): seq<Event>
    requires |attempts| <= |outcomes| == |meanwhile|
  {
    if attempts == [] then []
    else meanwhile[0] + Reported(api, attempts[0], outcomes[0]) + EventsOf(api, attempts[1..], outcomes[1..], meanwhile[1..])
  }

  lemma {:induction false} RunJoins(cfg: Config, s: State, a: seq<Event>, b: seq<Event>)
    ensures Run(cfg, s, a + b) == Run(cfg, Run(cfg, s, a), b)
  {
    if b == [] {
      assert a + b == a;
    } else {
      assert (a + b)[..|a + b| - 1] == a + b[..|b| - 1];
      RunJoins(cfg, s, a, b[..|b| - 1]);
    }
  }

  lemma ReportIsARun(cfg: Config, api: string, s: State, base: string, o: Outcome)
    ensures Report(cfg, true, api, s, base, o) == Run(cfg, s, Reported(api, base, o))
  {
    assert [] + [Unreachable] == [Unreachable] && [] + [Slow] == [Slow];
    RunSnoc(cfg, s, [], Unreachable);
    RunSnoc(cfg, s, [], Slow);
    assert Run(cfg, s, []) == s;
  }

  lemma {:induction false} SendIsARun(cfg: Config, api: string, s: State, targets: seq<string>,
                                      outcomes: seq<Outcome>, meanwhile: seq<seq<Event>>)
    requires |outcomes| == |meanwhile| && |targets| <= |outcomes|
    ensures var r := Send(cfg, true, api, s, targets, outcomes, meanwhile);
      |r.attempts| <= |outcomes| && r.state == Run(cfg, s, EventsOf(api, r.attempts, outcomes, meanwhile))
    decreases |targets|
  {
    if targets == [] {
      assert Run(cfg, s, []) == s;
    } else {
      var base, o, here := targets[0], outcomes[0], meanwhile[0];
      var reported := Reported(api, base, o);
      var r := Send(cfg, true, api, s, targets, outcomes, meanwhile);
      RunJoins(cfg, s, here, reported);
      ReportIsARun(cfg, api, Run(cfg, s, here), base, o);
      if o.Unreachable() && |targets| > 1 {
        SendIsARun(cfg, api, Run(cfg, s, here + reported), targets[1..], outcomes[1..], meanwhile[1..]);
        RunJoins(cfg, s, here + reported, EventsOf(api, r.attempts[1..], outcomes[1..], meanwhile[1..]));
      } else {
        assert r.attempts == [base] && r.attempts[1..] == [];
        assert here + reported + [] == here + reported;
      }
    }
  }

  /** To the tracker an exchange is a run: the request, and for every attempt what happened meanwhile
      and what its failure reports. */
  lemma ExchangeIsARun(cfg: Config, api: string, standby: string, s: State, now: int,
                       outcomes: seq<Outcome>, meanwhile: seq<seq<Event>>)
    requires |outcomes| == |meanwhile| == 2
    ensures var r := Routed(cfg, api, standby, s, now, outcomes, meanwhile);
      |r.attempts| <= 2 && r.state == Run(cfg, s, [Request(now)] + EventsOf(api, r.attempts, outcomes, meanwhile))
  {
    assert [] + [Request(now)] == [Request(now)];
    RunSnoc(cfg, s, [], Request(now));
    assert Run(cfg, s, []) == s;
    SendIsARun(cfg, api, AfterRequest(cfg, s, now), Servers(Targets(s), api, standby), outcomes, meanwhile);
    var r := Routed(cfg, api, standby, s, now, outcomes, meanwhile);
    RunJoins(cfg, s, [Request(now)], EventsOf(api, r.attempts, outcomes, meanwhile));
  }

  /** A request routed while modes decide makes one attempt, on the active site. If modes still
      decide when it fails, its failure leaves the decision as it found it. */
  lemma ModeAwareRequestStaysOnOneSite(cfg: Config, api: string, standby: string, s: State, now: int,
                                       outcomes: seq<Outcome>, meanwhile: seq<seq<Event>>)
    requires |outcomes| == |meanwhile| == 2 && s.d.modeAware
    ensures var r := Routed(cfg, api, standby, s, now, outcomes, meanwhile);
      var during := Run(cfg, AfterRequest(cfg, s, now), meanwhile[0]);
      && r.attempts == [if s.d.active == Main then api else standby]
      && (during.d.modeAware ==> r.state == during)
  {
    assert Servers(Targets(s), api, standby) == [ServerOf(s.d.active, api, standby)];
  }

  /** Exactly when the report of a failed attempt changes the decision: the main server failed to
      connect, or was slow with nothing to ask, while the tracker was reactive. */
  lemma ReportMovesIff(cfg: Config, api: string, s: State, base: string, o: Outcome)
    ensures Report(cfg, true, api, s, base, o).d != s.d <==>
      && base == api && !s.d.modeAware
      && (((o == ConnectRefused || o == ConnectTimeout) && (s.d.active == Main || s.d.normalStreak != 0))
          || (o == SlowTimeout && s.d.active == Main && !s.confirmInFlight && !cfg.hasProbe))
  {
  }

  /** Exactly when a request routed while modes decide moves the tracker: its one attempt was on the
      main server and failed, and modes had stopped deciding by then. The regime is read when the
      failure is reported, not when the request is routed. */
  lemma ModeAwareRequestMovesIff(cfg: Config, api: string, standby: string, s: State, now: int,
                                 outcomes: seq<Outcome>, meanwhile: seq<seq<Event>>)
    requires |outcomes| == |meanwhile| == 2 && s.d.modeAware
    ensures var r := Routed(cfg, api, standby, s, now, outcomes, meanwhile);
      var during := Run(cfg, AfterRequest(cfg, s, now), meanwhile[0]);
      r.state.d != during.d <==>
        && (s.d.active == Main || api == standby) && !during.d.modeAware
        && (((outcomes[0] == ConnectRefused || outcomes[0] == ConnectTimeout) && (during.d.active == Main || during.d.normalStreak != 0))
            || (outcomes[0] == SlowTimeout && during.d.active == Main && !during.confirmInFlight && !cfg.hasProbe))
  {
    assert Servers(Targets(s), api, standby) == [ServerOf(s.d.active, api, standby)];
    var during := Run(cfg, AfterRequest(cfg, s, now), meanwhile[0]);
    ReportMovesIff(cfg, api, during, ServerOf(s.d.active, api, standby), outcomes[0]);
  }

  /** And it does happen, to a tracker that a first request and a first tick have brought there. */
  lemma RegimeLostMidRequest(api: string, standby: string)
    ensures var cfg := Config(2, 3, 60, true, true);
      var es := [Request(0), Tick(Normal, Secondary)];
      var s := Run(cfg, INITIAL, es);
      var r := Routed(cfg, api, standby, s, 0, [ConnectRefused, Replied], [[Tick(Unknown, Unknown)], []]);
      ValidRun(cfg, INITIAL, es) && s.d.modeAware && r.attempts == [api] && r.state.d.active == Standby
  {
    FirstModesReported();
    var s := INITIAL.(d := Decision(Main, 0, 0, true), monitorOn := true);
    ModesEndMeanwhile(Config(2, 3, 60, true, true), s, api, standby);
  }

  lemma FirstModesReported()
    ensures var cfg := Config(2, 3, 60, true, true);
      var es := [Request(0), Tick(Normal, Secondary)];
      ValidRun(cfg, INITIAL, es)
      && Run(cfg, INITIAL, es) == INITIAL.(d := Decision(Main, 0, 0, true), monitorOn := true)
  {
    var cfg := Config(2, 3, 60, true, true);
    assert [] + [Request(0)] == [Request(0)];
    RunSnoc(cfg, INITIAL, [], Request(0));
    assert [Request(0)] + [Tick(Normal, Secondary)] == [Request(0), Tick(Normal, Secondary)];
    RunSnoc(cfg, INITIAL, [Request(0)], Tick(Normal, Secondary));
  }

  lemma ModesEndMeanwhile(cfg: Config, s: State, api: string, standby: string)
    requires s.d == Decision(Main, 0, 0, true)
    ensures var r := Routed(cfg, api, standby, s, 0, [ConnectRefused, Replied], [[Tick(Unknown, Unknown)], []]);
      r.attempts == [api] && r.state.d.active == Standby
  {
    var during := Run(cfg, AfterRequest(cfg, s, 0), [Tick(Unknown, Unknown)]);
    assert [] + [Tick(Unknown, Unknown)] == [Tick(Unknown, Unknown)];
    RunSnoc(cfg, AfterRequest(cfg, s, 0), [], Tick(Unknown, Unknown));
    assert during.d == Decision(Main, 0, 0, false);
    var m: seq<seq<Event>> := [[Tick(Unknown, Unknown)], []];
    assert m[0] == [Tick(Unknown, Unknown)];
    assert Servers(Targets(s), api, standby) == [api];
  }

  /** A request routed reactively makes a second attempt exactly when it started on the main site
      and could not connect; the second attempt is then on the standby site, and is the last. */
  lemma ReactiveRequestFailsOverOnce(cfg: Config, api: string, standby: string, s: State, now: int,
                                     outcomes: seq<Outcome>, meanwhile: seq<seq<Event>>)
    requires |outcomes| == |meanwhile| == 2 && !s.d.modeAware
    ensures var r := Routed(cfg, api, standby, s, now, outcomes, meanwhile);
      && (r.attempts == [api, standby] <==> s.d.active == Main && (outcomes[0] == ConnectRefused || outcomes[0] == ConnectTimeout))
      && (r.attempts != [api, standby] ==> r.attempts == [if s.d.active == Main then api else standby])
  {
    if s.d.active == Main {
      assert Servers(Targets(s), api, standby) == [api, standby];
      var during := Run(cfg, AfterRequest(cfg, s, now), meanwhile[0]);
      var told := Report(cfg, true, api, during, api, outcomes[0]);
      assert [api, standby][1..] == [standby];
      AlwaysEnds(cfg, true, api, told, [standby], outcomes[1..], meanwhile[1..]);
    } else {
      assert Servers(Targets(s), api, standby) == [standby];
    }
  }

  /** That holds even when the tracker starts to follow modes during the first attempt: then one
      request reaches for both sites although the tracker keeps the main one. */
  lemma StraddlingRequestTouchesBothSites(api: string, standby: string)
    ensures var cfg := Config(2, 3, 60, true, true);
      var r := Routed(cfg, api, standby, INITIAL, 0, [ConnectRefused, Replied], [[Tick(Normal, Secondary)], []]);
      r.attempts == [api, standby] && r.verdict == Returned && r.state.d.modeAware && r.state.d.active == Main
  {
    var cfg := Config(2, 3, 60, true, true);
    var s := AfterRequest(cfg, INITIAL, 0);
    assert Servers(Targets(INITIAL), api, standby) == [api, standby];
    assert [] + [Tick(Normal, Secondary)] == [Tick(Normal, Secondary)];
    RunSnoc(cfg, s, [], Tick(Normal, Secondary));
    TwoAttempts(cfg, api, s, standby, [Tick(Normal, Secondary)]);
  }

  lemma TwoAttempts(cfg: Config, api: string, s: State, standby: string, during: seq<Event>)
    ensures Send(cfg, true, api, s, [api, standby], [ConnectRefused, Replied], [during, []])
            == Exchange(Returned, [api, standby], AfterUnreachable(Run(cfg, s, during)))
  {
    var m: seq<seq<Event>> := [during, []];
    assert m[1..] == [[]] && [ConnectRefused, Replied][1..] == [Replied] && [api, standby][1..] == [standby];
    var told := AfterUnreachable(Run(cfg, s, during));
    assert Send(cfg, true, api, told, [standby], [Replied], [[]]) == Exchange(Returned, [standby], told);
  }
}
