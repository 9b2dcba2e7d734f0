/**
 Whole runs of one tracker: any interleaving of monitor ticks, requests, failure reports and
 probe answers. The histories (`Ticks`, `CountedLog`) are computed from what the sites
 answered, never from the tracker's own counters, so the theorems say that the counters
 count what they are meant to count.
 */
module SiteRuns {
  import opened Prelude
  import opened SiteTracker

  datatype Event =
    | Tick(main: Answer, standby: Answer)
    | Request(now: int)
    | Unreachable
    | Slow
    | ConfirmDone(answer: Answer)
    | ProbeDone(answer: Answer)

  function Step(cfg: Config, s: State, e: Event): State {
    match e
    case Tick(main, standby) => AfterTick(cfg, s, main, standby)
    case Request(now) => AfterRequest(cfg, s, now)
    case Unreachable => AfterUnreachable(s)
    case Slow => AfterSlow(cfg, s)
    case ConfirmDone(answer) => AfterConfirm(s, answer)
    case ProbeDone(answer) => AfterProbe(cfg, s, answer)
  }

  /** The monitor ticks once it was started; an answer arrives only for a probe that was. */
  predicate Enabled(s: State, e: Event) {
    match e
    case Tick(_, _) => s.monitorOn
    case ConfirmDone(_) => s.confirmInFlight
    case ProbeDone(_) => s.probeInFlight
    case _ => true
  }

  function Run(cfg: Config, s: State, es: seq<Event>): State {
    if es == [] then s else Step(cfg, Run(cfg, s, es[..|es| - 1]), es[|es| - 1])
  }

  predicate ValidRun(cfg: Config, s: State, es: seq<Event>) {
    es == [] ||
    (ValidRun(cfg, s, es[..|es| - 1]) && Enabled(Run(cfg, s, es[..|es| - 1]), es[|es| - 1]))
  }

  lemma RunSnoc(cfg: Config, s: State, es: seq<Event>, e: Event)
    ensures Run(cfg, s, es + [e]) == Step(cfg, Run(cfg, s, es), e)
    ensures ValidRun(cfg, s, es + [e]) == (ValidRun(cfg, s, es) && Enabled(Run(cfg, s, es), e))
    ensures Ticks(es + [e]) == Ticks(es) + (if e.Tick? then [(e.main, e.standby)] else [])
  {
    assert (es + [e])[..|es|] == es;
  }

  /** The tick answers of a run, in order. */
  function Ticks(es: seq<Event>): (ts: seq<(Answer, Answer)>)
    ensures |ts| <= |es|
  {
    if es == [] then []
    else
      var e := es[|es| - 1];
      Ticks(es[..|es| - 1]) + (if e.Tick? then [(e.main, e.standby)] else [])
  }

  /** The last `k` ticks: the standby site answers without claiming standalone, the main site is
      silent or secondary. */
  predicate LastAreDown(ts: seq<(Answer, Answer)>, k: int) {
    k <= |ts| && forall i :: 0 <= i && |ts| - k <= i < |ts| ==>
      (ts[i].0 == NoAnswer || ts[i].0 == Secondary) && ts[i].1 != NoAnswer && ts[i].1 != Standalone
  }

  /** The last `k` ticks: the main site is normal, the standby site not standalone. */
  predicate LastAreReturns(ts: seq<(Answer, Answer)>, k: int) {
    k <= |ts| && forall i :: 0 <= i && |ts| - k <= i < |ts| ==> ts[i].0 == Normal && ts[i].1 != Standalone
  }

  // ---- what every step keeps ----

  /** Between steps a streak never reaches its threshold, and a down streak exists only while
      the monitor is deciding on the main site. */
  predicate Sane(cfg: Config, s: State) {
    && s.d.normalStreak < cfg.switchBack
    && s.d.downStreak < cfg.mainDown
    && (s.d.downStreak > 0 ==> s.d.modeAware && s.d.active == Main)
  }

  lemma {:induction false} StreaksStayBelowThresholds(cfg: Config, es: seq<Event>)
    requires cfg.Valid()
    ensures Sane(cfg, Run(cfg, INITIAL, es))
  {
    if es != [] {
      StreaksStayBelowThresholds(cfg, es[..|es| - 1]);
    }
  }

  /** Modes decide only behind the monitor, and that runs only when both sites can be asked. */
  lemma {:induction false} ModesNeedTheMonitor(cfg: Config, es: seq<Event>)
    requires ValidRun(cfg, INITIAL, es)
    ensures var s := Run(cfg, INITIAL, es);
      && (s.d.modeAware ==> s.monitorOn)
      && (s.monitorOn <==> cfg.hasProbe && cfg.hasStandbyProbe && exists i :: 0 <= i < |es| && es[i].Request?)
  {
    if es != [] {
      var before, e := es[..|es| - 1], es[|es| - 1];
      ModesNeedTheMonitor(cfg, before);
      assert (exists i :: 0 <= i < |es| && es[i].Request?) <==> e.Request? || exists i :: 0 <= i < |before| && before[i].Request? by {
        assert forall i :: 0 <= i < |before| ==> before[i] == es[i];
        if e.Request? { assert es[|es| - 1].Request?; }
      }
    }
  }

  // ---- every move to the standby site is earned ----

  lemma {:induction false} DownStreakCountsTicks(cfg: Config, es: seq<Event>)
    requires cfg.Valid()
    ensures LastAreDown(Ticks(es), Run(cfg, INITIAL, es).d.downStreak)
  {
    if es != [] {
      var before := es[..|es| - 1];
      DownStreakCountsTicks(cfg, before);
      StreaksStayBelowThresholds(cfg, before);
    }
  }

  /** While operating modes decide, a move to the standby site happens on a tick, and either the
      standby site said standalone or the last `mainDown` ticks all counted as down. */
  lemma EveryMoveToStandbyIsEarned(cfg: Config, es: seq<Event>, e: Event)
    requires cfg.Valid()
    requires Run(cfg, INITIAL, es).d.modeAware || Step(cfg, Run(cfg, INITIAL, es), e).d.modeAware
    requires Run(cfg, INITIAL, es).d.active == Main
    requires Step(cfg, Run(cfg, INITIAL, es), e).d.active == Standby
    ensures e.Tick?
    ensures e.standby == Standalone || LastAreDown(Ticks(es + [e]), cfg.mainDown)
  {
    assert (es + [e])[..|es|] == es;
    DownStreakCountsTicks(cfg, es);
    StreaksStayBelowThresholds(cfg, es);
  }

  // ---- every move back to the main site is earned ----

  /** Whether an event is an observation that counts for or against the return to the main site:
      every switch-back probe answer, and every tick decided on the standby site. */
  function Counted(cfg: Config, s: State, e: Event): Option<bool> {
    match e
    case ProbeDone(answer) => Some(answer == Normal)
    case Tick(main, standby) =>
      if AwareAfter(s.d.modeAware, main, standby) && s.d.active == Standby
      then Some(ReturnTick(main, standby)) else None
    case _ => None
  }

  function CountedLog(cfg: Config, es: seq<Event>): seq<bool> {
    if es == [] then []
    else
      var before := es[..|es| - 1];
      var c := Counted(cfg, Run(cfg, INITIAL, before), es[|es| - 1]);
      CountedLog(cfg, before) + (if c == None then [] else [c.value])
  }

  predicate LastAreTrue(log: seq<bool>, k: int) {
    k <= |log| && forall i :: 0 <= i && |log| - k <= i < |log| ==> log[i]
  }

  lemma {:induction false} NormalStreakCountsObservations(cfg: Config, es: seq<Event>)
    requires cfg.Valid()
    ensures LastAreTrue(CountedLog(cfg, es), Run(cfg, INITIAL, es).d.normalStreak)
  {
    if es != [] {
      NormalStreakCountsObservations(cfg, es[..|es| - 1]);
    }
  }

  /** In either regime, the tracker returns to the main site only after `switchBack` counted
      observations in a row that were all in favour. */
  lemma EveryReturnToMainIsEarned(cfg: Config, es: seq<Event>, e: Event)
    requires cfg.Valid()
    requires Run(cfg, INITIAL, es).d.active == Standby
    requires Step(cfg, Run(cfg, INITIAL, es), e).d.active == Main
    ensures e.Tick? || e.ProbeDone?
    ensures LastAreTrue(CountedLog(cfg, es + [e]), cfg.switchBack)
  {
    assert (es + [e])[..|es|] == es;
    NormalStreakCountsObservations(cfg, es);
    StreaksStayBelowThresholds(cfg, es);
  }

  // ---- the same for ticks alone, when no reactive probe straddles the change of regime ----

  /** No switch-back probe was in flight at any tick that made the tracker mode-aware. */
  predicate CleanHandover(cfg: Config, es: seq<Event>) {
    es == [] ||
    (var before := es[..|es| - 1];
     var s := Run(cfg, INITIAL, before);
     CleanHandover(cfg, before) &&
     (!s.d.modeAware && Step(cfg, s, es[|es| - 1]).d.modeAware ==> !s.probeInFlight))
  }

  /** Routing never starts a switch-back probe while modes decide. */
  lemma {:induction false} NoProbeStartsWhileModeAware(cfg: Config, es: seq<Event>)
    requires cfg.Valid() && ValidRun(cfg, INITIAL, es) && CleanHandover(cfg, es)
    ensures Run(cfg, INITIAL, es).d.modeAware ==> !Run(cfg, INITIAL, es).probeInFlight
  {
    if es != [] {
      NoProbeStartsWhileModeAware(cfg, es[..|es| - 1]);
    }
  }

  lemma {:induction false} NormalStreakCountsTicks(cfg: Config, es: seq<Event>)
    requires cfg.Valid() && ValidRun(cfg, INITIAL, es) && CleanHandover(cfg, es)
    ensures var s := Run(cfg, INITIAL, es);
      s.d.modeAware ==> LastAreReturns(Ticks(es), s.d.normalStreak) && (s.d.active == Main ==> s.d.normalStreak == 0)
  {
    if es != [] {
      var before := es[..|es| - 1];
      NormalStreakCountsTicks(cfg, before);
      NoProbeStartsWhileModeAware(cfg, before);
    }
  }

  /** While operating modes decide, and no reactive probe was left over, the return to the main
      site needs the last `switchBack` ticks to report a normal main site next to a standby
      site that is no longer standalone. */
  lemma EveryModeAwareReturnIsEarned(cfg: Config, es: seq<Event>, e: Event)
    requires cfg.Valid() && ValidRun(cfg, INITIAL, es + [e]) && CleanHandover(cfg, es + [e])
    requires Run(cfg, INITIAL, es).d.modeAware || Step(cfg, Run(cfg, INITIAL, es), e).d.modeAware
    requires Run(cfg, INITIAL, es).d.active == Standby
    requires Step(cfg, Run(cfg, INITIAL, es), e).d.active == Main
    ensures e.Tick? && LastAreReturns(Ticks(es + [e]), cfg.switchBack)
  {
    assert (es + [e])[..|es|] == es;
    NormalStreakCountsTicks(cfg, es);
    NoProbeStartsWhileModeAware(cfg, es);
  }

  /** Exactly when something other than a tick can move a mode-aware tracker: a left-over
      reactive probe, on the standby site, one `normal` short of the threshold. */
  lemma OffTickMoveIff(cfg: Config, s: State)
    requires cfg.Valid() && s.d.modeAware
    ensures (exists e: Event :: !e.Tick? && Enabled(s, e) && Step(cfg, s, e).d.active != s.d.active)
            <==> (s.probeInFlight && s.d.active == Standby && s.d.normalStreak + 1 >= cfg.switchBack)
  {
    if s.probeInFlight && s.d.active == Standby && s.d.normalStreak + 1 >= cfg.switchBack {
      var e := ProbeDone(Normal);
      assert !e.Tick? && Enabled(s, e) && Step(cfg, s, e).d.active != s.d.active;
    }
  }

  /** And it does happen, with the default thresholds: a probe started reactively brings the
      tracker back to the main site after one good tick instead of two. */
  lemma LeftOverProbeReturnsEarly()
    ensures var cfg := Config(2, 3, 60, true, true);
      var es := [Unreachable, Request(0), Tick(Normal, Secondary)];
      && ValidRun(cfg, INITIAL, es + [ProbeDone(Normal)])
      && Run(cfg, INITIAL, es).d.modeAware && Run(cfg, INITIAL, es).d.active == Standby
      && Run(cfg, INITIAL, es + [ProbeDone(Normal)]).d.active == Main
      && !LastAreReturns(Ticks(es + [ProbeDone(Normal)]), cfg.switchBack)
  {
    var cfg := Config(2, 3, 60, true, true);
    assert [] + [Unreachable] == [Unreachable];
    RunSnoc(cfg, INITIAL, [], Unreachable);
    assert [Unreachable] + [Request(0)] == [Unreachable, Request(0)];
    RunSnoc(cfg, INITIAL, [Unreachable], Request(0));
    assert [Unreachable, Request(0)] + [Tick(Normal, Secondary)] == [Unreachable, Request(0), Tick(Normal, Secondary)];
    RunSnoc(cfg, INITIAL, [Unreachable, Request(0)], Tick(Normal, Secondary));
    RunSnoc(cfg, INITIAL, [Unreachable, Request(0), Tick(Normal, Secondary)], ProbeDone(Normal));
  }
}
