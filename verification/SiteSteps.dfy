/**
 What every event does to a tracker, event by event and answer by answer
 (app/bss/adapters/portaswitch/failover.py:193-365): when the site changes, what the streaks count,
 which checks and probes run. The conditions are written out over the answers of the sites.
 */
module SiteSteps {
  import opened Prelude
  import opened SiteTracker
  import opened SiteRuns

  const MODES: set<Answer> := {Normal, Secondary, Standalone, ReadOnly}

  // ---- who decides ----

  /** The regime behind a tick: silence of both sites leaves it, otherwise one reported mode is enough. */
  predicate FollowsModes(before: bool, main: Answer, standby: Answer) {
    if main == NoAnswer && standby == NoAnswer then before else main in MODES || standby in MODES
  }

  function Regime(ts: seq<(Answer, Answer)>): bool {
    ts != [] && FollowsModes(Regime(ts[..|ts| - 1]), ts[|ts| - 1].0, ts[|ts| - 1].1)
  }

  /** In every run the latest tick that was answered at all decides who decides. */
  lemma {:induction false} RegimeIsReported(cfg: Config, es: seq<Event>)
    ensures Run(cfg, INITIAL, es).d.modeAware == Regime(Ticks(es))
  {
    if es != [] {
      var before, e := es[..|es| - 1], es[|es| - 1];
      assert before + [e] == es;
      RegimeIsReported(cfg, before);
      RunSnoc(cfg, INITIAL, before, e);
      RegimeAfter(cfg, Run(cfg, INITIAL, before), e);
      if e.Tick? {
        RegimeSnoc(Ticks(before), (e.main, e.standby));
      } else {
        assert Ticks(before) + [] == Ticks(before);
      }
    }
  }

  lemma RegimeSnoc(ts: seq<(Answer, Answer)>, t: (Answer, Answer))
    ensures Regime(ts + [t]) == FollowsModes(Regime(ts), t.0, t.1)
  {
    assert (ts + [t])[..|ts|] == ts;
  }

  // ---- the check behind a slow request ----

  /** A check is under way: a slow request on the main site started it, while nothing else decided and
      none was running, and it has not answered since. */
  predicate CheckPending(cfg: Config, es: seq<Event>) {
    es != [] &&
    var before, e := es[..|es| - 1], es[|es| - 1];
    match e
    case Slow => CheckPending(cfg, before) ||
                 (cfg.hasProbe && !Regime(Ticks(before)) && Run(cfg, INITIAL, before).d.active == Main)
    case ConfirmDone(_) => false
    case _ => CheckPending(cfg, before)
  }

  lemma {:induction false} ChecksComeFromSlowRequests(cfg: Config, es: seq<Event>)
    ensures Run(cfg, INITIAL, es).confirmInFlight == CheckPending(cfg, es)
  {
    if es != [] {
      ChecksComeFromSlowRequests(cfg, es[..|es| - 1]);
      RegimeIsReported(cfg, es[..|es| - 1]);
    }
  }

  /** Exactly when a tracker that does not follow modes leaves the main site, in every run: on a connect
      failure; on a slow request that it has no probe to check with; or when the check that a slow
      request started finds the main site silent or secondary. */
  lemma ReactiveMoveIff(cfg: Config, es: seq<Event>, e: Event)
    requires ValidRun(cfg, INITIAL, es + [e]) && Run(cfg, INITIAL, es).d.active == Main
    requires !Regime(Ticks(es)) && !Regime(Ticks(es + [e]))
    ensures Run(cfg, INITIAL, es + [e]).d.active == Standby <==>
      || e == Unreachable
      || (e == Slow && !cfg.hasProbe && !CheckPending(cfg, es))
      || (CheckPending(cfg, es) && (e == ConfirmDone(NoAnswer) || e == ConfirmDone(Secondary)))
  {
    RunSnoc(cfg, INITIAL, es, e);
    RegimeIsReported(cfg, es);
    RegimeIsReported(cfg, es + [e]);
    ChecksComeFromSlowRequests(cfg, es);
  }

  /** Any other answer of the check leaves the site, the streaks and the regime as they were; and so does
      every answer while modes decide. The check is over. */
  lemma OtherwiseTheCheckChangesNothing(cfg: Config, es: seq<Event>, answer: Answer)
    requires (answer != NoAnswer && answer != Secondary) || Regime(Ticks(es))
    ensures Run(cfg, INITIAL, es + [ConfirmDone(answer)]) == Run(cfg, INITIAL, es).(confirmInFlight := false)
  {
    RunSnoc(cfg, INITIAL, es, ConfirmDone(answer));
    RegimeIsReported(cfg, es);
  }

  // ---- every change of the site ----

  /** What a streak has counted when a tick looks at it: a change of the regime starts it over. */
  function Counted(d: Decision, aware: bool, streak: nat): nat {
    if d.modeAware == aware then streak else 0
  }

  /** A tick on which the main site is out while the standby site is there, but not standalone. */
  predicate MainOut(main: Answer, standby: Answer) {
    standby != NoAnswer && standby != Standalone && (main == NoAnswer || main == Secondary)
  }

  lemma MovesToStandbyIff(cfg: Config, s: State, e: Event)
    requires cfg.Valid() && s.d.active == Main
    ensures Step(cfg, s, e).d.active == Standby <==>
      match e
      case Tick(main, standby) =>
        FollowsModes(s.d.modeAware, main, standby) &&
        (standby == Standalone || (MainOut(main, standby) && Counted(s.d, true, s.d.downStreak) + 1 >= cfg.mainDown))
      case Unreachable => !s.d.modeAware
      case Slow => !s.d.modeAware && !cfg.hasProbe && !s.confirmInFlight
      case ConfirmDone(answer) => !s.d.modeAware && (answer == NoAnswer || answer == Secondary)
      case ProbeDone(_) => false
      case Request(_) => false
  {
  }

  lemma MovesToMainIff(cfg: Config, s: State, e: Event)
    requires cfg.Valid() && s.d.active == Standby
    ensures Step(cfg, s, e).d.active == Main <==>
      match e
      case Tick(main, standby) =>
        FollowsModes(s.d.modeAware, main, standby) && main == Normal && standby != Standalone
        && Counted(s.d, true, s.d.normalStreak) + 1 >= cfg.switchBack
      case ProbeDone(answer) => answer == Normal && s.d.normalStreak + 1 >= cfg.switchBack
      case _ => false
  {
  }

  /** What the return streak is behind an event that leaves the site: only a good observation on the
      standby site, or a normal answer to a probe, adds one; a bad one, a reported failure and a change of
      the regime clear it. */
  lemma ReturnStreakAfter(cfg: Config, s: State, e: Event)
    requires cfg.Valid() && Step(cfg, s, e).d.active == s.d.active
    ensures Step(cfg, s, e).d.normalStreak ==
      match e
      case Tick(main, standby) =>
        var aware := FollowsModes(s.d.modeAware, main, standby);
        var before := Counted(s.d, aware, s.d.normalStreak);
        if !aware || s.d.active == Main then before
        else if main == Normal && standby != Standalone then before + 1 else 0
      case ProbeDone(answer) =>
        if answer != Normal || s.d.normalStreak + 1 >= cfg.switchBack then 0 else s.d.normalStreak + 1
      case Unreachable => if s.d.modeAware then s.d.normalStreak else 0
      case ConfirmDone(answer) =>
        if !s.d.modeAware && (answer == NoAnswer || answer == Secondary) then 0 else s.d.normalStreak
      case Slow => s.d.normalStreak
      case Request(_) => s.d.normalStreak
  {
  }

  /** Behind a change of the site it is empty. */
  lemma ReturnStreakIsCleared(cfg: Config, s: State, e: Event)
    requires cfg.Valid() && Step(cfg, s, e).d.active != s.d.active
    ensures Step(cfg, s, e).d.normalStreak == 0
  {
  }

  /** The same for the down streak, which only ticks look at. */
  lemma DownStreakAfter(cfg: Config, s: State, e: Event)
    requires cfg.Valid()
    ensures var t := Step(cfg, s, e);
      t.d.downStreak ==
        match e
        case Tick(main, standby) =>
          var aware := FollowsModes(s.d.modeAware, main, standby);
          var before := Counted(s.d, aware, s.d.downStreak);
          if t.d.active != s.d.active then 0
          else if !aware || s.d.active == Standby then before
          else if MainOut(main, standby) then before + 1 else 0
        case _ => s.d.downStreak
  {
  }

  // ---- probes and the monitor ----

  /** Exactly when the switch-back probe starts, from which request its time is taken, and when it ends. */
  lemma ProbeRunsIff(cfg: Config, s: State, e: Event)
    requires Enabled(s, e)
    ensures var t := Step(cfg, s, e);
      && (!s.probeInFlight ==>
            (t.probeInFlight <==>
               && e.Request? && cfg.hasProbe && !s.d.modeAware && s.d.active == Standby
               && (s.lastProbe == None || e.now - s.lastProbe.value >= cfg.recheck)))
      && (s.probeInFlight ==> (!t.probeInFlight <==> e.ProbeDone?))
      && t.lastProbe == (if !s.probeInFlight && t.probeInFlight then Some(e.now) else s.lastProbe)
      && (t.monitorOn <==> s.monitorOn || (e.Request? && cfg.hasProbe && cfg.hasStandbyProbe))
      && t.confirmInFlight == (if e == Slow then
            s.confirmInFlight || (cfg.hasProbe && !s.d.modeAware && s.d.active == Main)
          else s.confirmInFlight && !e.ConfirmDone?)
  {
  }

  /** Only ticks change who decides, and a request or a slow one that only starts a check decides nothing. */
  lemma RegimeAfter(cfg: Config, s: State, e: Event)
    ensures Step(cfg, s, e).d.modeAware == if e.Tick? then FollowsModes(s.d.modeAware, e.main, e.standby) else s.d.modeAware
    ensures e.Request? ==> Step(cfg, s, e).d == s.d
  {
  }

  /** The sites a request may try: the active one while modes decide, otherwise the standby site behind
      the main one. */
  lemma TargetsAre(s: State)
    ensures s.d.modeAware ==> Targets(s) == [s.d.active]
    ensures !s.d.modeAware && s.d.active == Main ==> Targets(s) == [Main, Standby]
    ensures !s.d.modeAware && s.d.active == Standby ==> Targets(s) == [Standby]
  {
  }
}
