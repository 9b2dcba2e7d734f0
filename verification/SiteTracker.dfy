/**
 The active-site tracker of the disaster-recovery failover
 (app/bss/adapters/portaswitch/failover.py, class SiteState).

 The tracker is a mutable object. Every method of `SiteState` below is one atomic section
 of the original (nothing runs between two awaits), and is proved against a function on
 `State` values: `AfterTick`, `AfterRequest`, ... The functions are what the run theorems
 of SiteRuns, Replicas and RequestRouting talk about.

 Probes are inputs. `NoAnswer` is Python's None (no answer, an exception, a probe that
 outlived its interval); `Unknown` is the "unknown" constant and any string outside the
 four operating modes, which the code treats the same way.
 */
module SiteTracker {
  import opened Prelude

  datatype Site = Main | Standby

  datatype Answer = NoAnswer | Unknown | Normal | Secondary | Standalone | ReadOnly
  {
    /** The site implements operating modes and reported one. */
    predicate Known() {
      this == Normal || this == Secondary || this == Standalone || this == ReadOnly
    }
  }

  /** Thresholds (at least one, see the constructor), probe interval and which probes are set. */
  datatype Config = Config(switchBack: nat, mainDown: nat, recheck: int, hasProbe: bool, hasStandbyProbe: bool)
  {
    predicate Valid() {
      switchBack >= 1 && mainDown >= 1
    }
  }

  /** What decides where requests go. */
  datatype Decision = Decision(active: Site, normalStreak: nat, downStreak: nat, modeAware: bool)

  /** The whole tracker: the decision, and the out-of-band work in progress. */
  datatype State = State(
    d: Decision,
    probeInFlight: bool,
    confirmInFlight: bool,
    lastProbe: Option<int>,
    monitorOn: bool)

  const INITIAL := State(Decision(Main, 0, 0, false), false, false, None, false)

  // ---- one monitor tick ----

  /** A tick on which the main site counts as down: the standby site answers, without claiming
      standalone, and the main site is silent or says it is secondary. */
  predicate DownTick(main: Answer, standby: Answer) {
    standby != NoAnswer && standby != Standalone && (main == NoAnswer || main == Secondary)
  }

  /** A tick that counts towards the return to the main site. */
  predicate ReturnTick(main: Answer, standby: Answer) {
    main == Normal && standby != Standalone
  }

  /** Whether the tracker follows the operating modes after a tick. Silence decides nothing. */
  predicate AwareAfter(aware: bool, main: Answer, standby: Answer) {
    if main == NoAnswer && standby == NoAnswer then aware else main.Known() || standby.Known()
  }

  function Switched(d: Decision, site: Site): Decision {
    Decision(site, 0, 0, d.modeAware)
  }

  function WithMode(d: Decision, aware: bool): Decision {
    if aware == d.modeAware then d else Decision(d.active, 0, 0, aware)
  }

  function OnMain(cfg: Config, d: Decision, main: Answer, standby: Answer): Decision {
    if standby == Standalone then Switched(d, Standby)
    else if !DownTick(main, standby) then d.(downStreak := 0)
    else if d.downStreak + 1 >= cfg.mainDown then Switched(d, Standby)
    else d.(downStreak := d.downStreak + 1)
  }

  function OnStandby(cfg: Config, d: Decision, main: Answer, standby: Answer): Decision {
    if !ReturnTick(main, standby) then d.(normalStreak := 0)
    else if d.normalStreak + 1 >= cfg.switchBack then Switched(d, Main)
    else d.(normalStreak := d.normalStreak + 1)
  }

  function Decide(cfg: Config, d: Decision, main: Answer, standby: Answer): Decision {
    var w := WithMode(d, AwareAfter(d.modeAware, main, standby));
    if !w.modeAware then w
    else if w.active == Main then OnMain(cfg, w, main, standby)
    else OnStandby(cfg, w, main, standby)
  }

  function AfterTick(cfg: Config, s: State, main: Answer, standby: Answer): State {
    s.(d := Decide(cfg, s.d, main, standby))
  }

  // ---- what requests and out-of-band probes do ----

  /** A main-site request failed to connect. */
  function AfterUnreachable(s: State): State {
    if s.d.modeAware then s else s.(d := s.d.(active := Standby, normalStreak := 0))
  }

  /** A main-site request timed out after the site accepted it. */
  function AfterSlow(cfg: Config, s: State): State {
    if s.d.modeAware || s.d.active != Main || s.confirmInFlight then s
    else if !cfg.hasProbe then AfterUnreachable(s)
    else s.(confirmInFlight := true)
  }

  /** The check started by a slow request got its answer. */
  function AfterConfirm(s: State, answer: Answer): State {
    (if answer == NoAnswer || answer == Secondary then AfterUnreachable(s) else s).(confirmInFlight := false)
  }

  predicate ProbeDue(cfg: Config, s: State, now: int) {
    cfg.hasProbe && !s.probeInFlight && (s.lastProbe == None || now - s.lastProbe.value >= cfg.recheck)
  }

  function WithMonitor(cfg: Config, s: State): State {
    s.(monitorOn := s.monitorOn || (cfg.hasProbe && cfg.hasStandbyProbe))
  }

  /** Routing one request: starts the monitor and, reactively on the standby, a due probe. */
  function AfterRequest(cfg: Config, s: State, now: int): State {
    var w := WithMonitor(cfg, s);
    if !w.d.modeAware && w.d.active == Standby && ProbeDue(cfg, w, now)
    then w.(lastProbe := Some(now), probeInFlight := true)
    else w
  }

  /** The sites one request may try, in order. */
  function Targets(s: State): seq<Site> {
    if s.d.modeAware then [s.d.active]
    else if s.d.active == Main then [Main, Standby]
    else [Standby]
  }

  function DecideOnProbe(cfg: Config, d: Decision, answer: Answer): Decision {
    if answer != Normal then d.(normalStreak := 0)
    else if d.normalStreak + 1 >= cfg.switchBack then d.(active := Main, normalStreak := 0)
    else d.(normalStreak := d.normalStreak + 1)
  }

  /** The out-of-band switch-back probe got its answer. It does not look at `modeAware`. */
  function AfterProbe(cfg: Config, s: State, answer: Answer): State {
    s.(probeInFlight := false, d := DecideOnProbe(cfg, s.d, answer))
  }

  /** The mutable tracker. */
  class SiteState {
    const switchBackThreshold: nat
    const mainDownThreshold: nat
    const recheckInterval: int
    var hasProbe: bool
    var hasStandbyProbe: bool
    var active: Site
    var normalStreak: nat
    var mainDownStreak: nat
    var modeAware: bool
    var probeInFlight: bool
    var confirmInFlight: bool
    var lastProbe: Option<int>
    var monitorStarted: bool

    ghost function Cfg(): Config
      reads this
    {
      Config(switchBackThreshold, mainDownThreshold, recheckInterval, hasProbe, hasStandbyProbe)
    }

    ghost function Decided(): Decision
      reads this
    {
      Decision(active, normalStreak, mainDownStreak, modeAware)
    }

    ghost function View(): State
      reads this
    {
      State(Decided(), probeInFlight, confirmInFlight, lastProbe, monitorStarted)
    }

    constructor (recheckInterval: int, switchBackThreshold: int, mainDownThreshold: int)
      ensures View() == INITIAL
      ensures Cfg() == Config(Max(1, switchBackThreshold), Max(1, mainDownThreshold), recheckInterval, false, false)
      ensures Cfg().Valid()
    {
      this.recheckInterval := recheckInterval;
      this.switchBackThreshold := Max(1, switchBackThreshold);
      this.mainDownThreshold := Max(1, mainDownThreshold);
      hasProbe, hasStandbyProbe := false, false;
      active := Main;
      normalStreak, mainDownStreak := 0, 0;
      modeAware, probeInFlight, confirmInFlight, monitorStarted := false, false, false, false;
      lastProbe := None;
    }

    method SetProbe()
      modifies this`hasProbe
      ensures hasProbe && View() == old(View())
    {
      hasProbe := true;
    }

    method SetStandbyProbe()
      modifies this`hasStandbyProbe
      ensures hasStandbyProbe && View() == old(View())
    {
      hasStandbyProbe := true;
    }

    method EnsureMonitor()
      modifies this`monitorStarted
      ensures View() == WithMonitor(Cfg(), old(View()))
    {
      if monitorStarted || !hasProbe || !hasStandbyProbe {
        return;
      }
      monitorStarted := true;
    }

    /** Orders the servers to try for the next request. */
    method NextTargets(now: int) returns (targets: seq<Site>)
      modifies this
      ensures View() == AfterRequest(old(Cfg()), old(View()), now)
      ensures Cfg() == old(Cfg())
      ensures targets == Targets(old(View()))
    {
      EnsureMonitor();
      if modeAware {
        return [if active == Main then Main else Standby];
      }
      if active == Main {
        return [Main, Standby];
      }
      MaybeScheduleProbe(now);
      return [Standby];
    }

    method MaybeScheduleProbe(now: int)
      modifies this`lastProbe, this`probeInFlight
      ensures View() == if ProbeDue(Cfg(), old(View()), now)
                        then old(View()).(lastProbe := Some(now), probeInFlight := true) else old(View())
    {
      if !hasProbe || probeInFlight {
        return;
      }
      if lastProbe != None && now - lastProbe.value < recheckInterval {
        return;
      }
      lastProbe := Some(now);
      probeInFlight := true;
    }

    method ReportUnreachable()
      modifies this`active, this`normalStreak
      ensures View() == AfterUnreachable(old(View()))
    {
      if modeAware {
        return;
      }
      active := Standby;
      normalStreak := 0;
    }

    method ReportSlow()
      modifies this`active, this`normalStreak, this`confirmInFlight
      ensures View() == AfterSlow(Cfg(), old(View()))
    {
      if modeAware {
        return;
      }
      if active != Main || confirmInFlight {
        return;
      }
      if !hasProbe {
        ReportUnreachable();
        return;
      }
      confirmInFlight := true;
    }

    /** The rest of the outage check, once the probe it awaits has answered. */
    method ConfirmOutage(answer: Answer)
      modifies this`active, this`normalStreak, this`confirmInFlight
      ensures View() == AfterConfirm(old(View()), answer)
    {
      if answer == NoAnswer || answer == Secondary {
        ReportUnreachable();
      }
      confirmInFlight := false;
    }

    method Switch(site: Site)
      modifies this`active, this`normalStreak, this`mainDownStreak
      ensures Decided() == Switched(old(Decided()), site)
    {
      active := site;
      mainDownStreak := 0;
      normalStreak := 0;
    }

    /** First half of a tick: what the sites report decides who decides. */
    method FollowModes(mainMode: Answer, standbyMode: Answer)
      modifies this`modeAware, this`normalStreak, this`mainDownStreak
      ensures Decided() == WithMode(old(Decided()), AwareAfter(old(modeAware), mainMode, standbyMode))
    {
      if mainMode != NoAnswer || standbyMode != NoAnswer {
        var aware := mainMode.Known() || standbyMode.Known();
        if aware != modeAware {
          modeAware := aware;
          mainDownStreak := 0;
          normalStreak := 0;
        }
      }
    }

    /** Second half of a tick while the main site is active. */
    method DecideOnMain(mainMode: Answer, standbyMode: Answer)
      modifies this`active, this`normalStreak, this`mainDownStreak
      ensures Decided() == OnMain(Cfg(), old(Decided()), mainMode, standbyMode)
    {
      if standbyMode == Standalone {
        Switch(Standby);
        return;
      }
      if standbyMode != NoAnswer && (mainMode == NoAnswer || mainMode == Secondary) {
        mainDownStreak := mainDownStreak + 1;
        if mainDownStreak >= mainDownThreshold {
          Switch(Standby);
        }
      } else {
        mainDownStreak := 0;
      }
    }

    /** Second half of a tick while the standby site is active. */
    method DecideOnStandby(mainMode: Answer, standbyMode: Answer)
      modifies this`active, this`normalStreak, this`mainDownStreak
      ensures Decided() == OnStandby(Cfg(), old(Decided()), mainMode, standbyMode)
    {
      if mainMode == Normal && standbyMode != Standalone {
        normalStreak := normalStreak + 1;
        if normalStreak >= switchBackThreshold {
          Switch(Main);
        }
      } else {
        normalStreak := 0;
      }
    }

    /** One monitor tick, once both probes have answered. */
    method PollOnce(mainMode: Answer, standbyMode: Answer)
      modifies this`active, this`normalStreak, this`mainDownStreak, this`modeAware
      ensures View() == AfterTick(Cfg(), old(View()), mainMode, standbyMode)
    {
      FollowModes(mainMode, standbyMode);
      if !modeAware {
        return;
      }
      if active == Main {
        DecideOnMain(mainMode, standbyMode);
      } else {
        DecideOnStandby(mainMode, standbyMode);
      }
    }

    /** The rest of the switch-back probe, once it has answered. */
    method RunProbe(answer: Answer)
      modifies this`active, this`normalStreak, this`probeInFlight
      ensures View() == AfterProbe(Cfg(), old(View()), answer)
    {
      if answer == Normal {
        normalStreak := normalStreak + 1;
        if normalStreak >= switchBackThreshold {
          active := Main;
          normalStreak := 0;
        }
      } else {
        normalStreak := 0;
      }
      probeInFlight := false;
    }
  }
}
