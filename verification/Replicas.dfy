/**
 Two replicas of the adapter, each with its own tracker, its own requests and its own history.
 The monitors ask the sites at the same instants, so the replicas see the same tick answers;
 everything else differs. The theorem: whatever the two trackers held before, a decisive
 window of ticks brings them to the same site, and they stay together afterwards.
 */
module Replicas {
  import opened SiteTracker
  import opened SiteRuns

  type TickAnswers = (Answer, Answer)

  /** After such a tick the tracker follows operating modes. */
  predicate Reports(t: TickAnswers) {
    t.0.Known() || t.1.Known()
  }

  /** After such a tick a tracker that follows operating modes still does. */
  predicate KeepsModes(t: TickAnswers) {
    Reports(t) || (t.0 == NoAnswer && t.1 == NoAnswer)
  }

  predicate AllKeepModes(ts: seq<TickAnswers>) {
    forall i :: 0 <= i < |ts| ==> KeepsModes(ts[i])
  }

  predicate AllReturns(w: seq<TickAnswers>) {
    forall i :: 0 <= i < |w| ==> w[i].0 == Normal && w[i].1 != Standalone
  }

  predicate AllDown(w: seq<TickAnswers>) {
    forall i :: 0 <= i < |w| ==> (w[i].0 == NoAnswer || w[i].0 == Secondary) && w[i].1 != NoAnswer && Reports(w[i])
  }

  /** Windows that force the same site on every replica: the standby site says standalone; or
      the main site is normal often enough; or it is down often enough. */
  predicate Decisive(cfg: Config, w: seq<TickAnswers>) {
    || (|w| == 1 && w[0].1 == Standalone)
    || (|w| == cfg.switchBack && AllReturns(w))
    || (|w| == cfg.mainDown && AllDown(w))
  }

  /** The streak that the next ticks will look at. */
  function RelevantStreak(d: Decision): nat {
    if d.active == Main then d.downStreak else d.normalStreak
  }

  predicate InStep(a: Decision, b: Decision) {
    a.modeAware && b.modeAware && a.active == b.active && RelevantStreak(a) == RelevantStreak(b)
  }

  // ---- local events do not matter while modes decide ----

  function TickRun(cfg: Config, d: Decision, ts: seq<TickAnswers>): Decision {
    if ts == [] then d
    else var t := ts[|ts| - 1]; Decide(cfg, TickRun(cfg, d, ts[..|ts| - 1]), t.0, t.1)
  }

  /** The run decided exactly what its ticks alone decide, and modes still decide. */
  predicate FollowsTicks(cfg: Config, s: State, es: seq<Event>) {
    && Run(cfg, s, es).d == TickRun(cfg, s.d, Ticks(es))
    && Run(cfg, s, es).d.modeAware && !Run(cfg, s, es).probeInFlight
  }

  /** From a tracker without a reactive probe in flight, a run that begins with a tick and keeps
      seeing operating modes decides exactly what its ticks alone decide. */
  lemma {:induction false} OnlyTicksDecide(cfg: Config, s: State, es: seq<Event>)
    requires cfg.Valid() && !s.probeInFlight && ValidRun(cfg, s, es)
    requires |es| > 0 && es[0].Tick?
    requires Reports((es[0].main, es[0].standby))
    requires AllKeepModes(Ticks(es))
    ensures FollowsTicks(cfg, s, es)
  {
    var before, e := es[..|es| - 1], es[|es| - 1];
    assert before + [e] == es;
    if before == [] {
      FirstDecides(cfg, s, e);
    } else {
      TicksBefore(cfg, s, before, e);
      OnlyTicksDecide(cfg, s, before);
      OneMoreDecides(cfg, s, before, e);
    }
  }

  lemma TicksBefore(cfg: Config, s: State, before: seq<Event>, e: Event)
    requires AllKeepModes(Ticks(before + [e])) && ValidRun(cfg, s, before + [e])
    ensures AllKeepModes(Ticks(before)) && (e.Tick? ==> KeepsModes((e.main, e.standby)))
    ensures ValidRun(cfg, s, before) && Enabled(Run(cfg, s, before), e)
  {
    RunSnoc(cfg, s, before, e);
    var ts := Ticks(before + [e]);
    assert ts[..|Ticks(before)|] == Ticks(before);
    if e.Tick? {
      assert ts[|Ticks(before)|] == (e.main, e.standby);
    }
  }

  lemma FirstDecides(cfg: Config, s: State, e: Event)
    requires cfg.Valid() && !s.probeInFlight && e.Tick? && Reports((e.main, e.standby))
    ensures FollowsTicks(cfg, s, [e])
  {
    assert [e] == [] + [e];
    RunSnoc(cfg, s, [], e);
    assert Run(cfg, s, []) == s && Ticks([]) == [];
    TickRunSnoc(cfg, s.d, [], (e.main, e.standby));
    assert TickRun(cfg, s.d, []) == s.d;
    assert [] + [(e.main, e.standby)] == [(e.main, e.standby)];
  }

  lemma TickRunSnoc(cfg: Config, d: Decision, ts: seq<TickAnswers>, t: TickAnswers)
    ensures TickRun(cfg, d, ts + [t]) == Decide(cfg, TickRun(cfg, d, ts), t.0, t.1)
  {
    assert (ts + [t])[..|ts|] == ts;
  }

  lemma OneMoreDecides(cfg: Config, s: State, before: seq<Event>, e: Event)
    requires cfg.Valid() && Enabled(Run(cfg, s, before), e) && (e.Tick? ==> KeepsModes((e.main, e.standby)))
    requires FollowsTicks(cfg, s, before)
    ensures FollowsTicks(cfg, s, before + [e])
  {
    RunSnoc(cfg, s, before, e);
    StepDecides(cfg, Run(cfg, s, before), e);
    if e.Tick? {
      TickRunSnoc(cfg, s.d, Ticks(before), (e.main, e.standby));
    } else {
      assert Ticks(before) + [] == Ticks(before);
    }
  }

  lemma StepDecides(cfg: Config, s: State, e: Event)
    requires cfg.Valid() && s.d.modeAware && !s.probeInFlight && Enabled(s, e)
    requires e.Tick? ==> KeepsModes((e.main, e.standby))
    ensures Step(cfg, s, e).d == if e.Tick? then Decide(cfg, s.d, e.main, e.standby) else s.d
    ensures Step(cfg, s, e).d.modeAware && !Step(cfg, s, e).probeInFlight
  {
  }

  // ---- ticks alone ----

  lemma StepKeepsInStep(cfg: Config, a: Decision, b: Decision, t: TickAnswers)
    requires cfg.Valid() && InStep(a, b) && KeepsModes(t)
    ensures InStep(Decide(cfg, a, t.0, t.1), Decide(cfg, b, t.0, t.1))
  {
  }

  /** Where one tracker stands after `|w|` return ticks: on the main site, or counting. */
  lemma {:induction false} ReturnsBringToMain(cfg: Config, d: Decision, w: seq<TickAnswers>)
    requires cfg.Valid() && AllReturns(w) && |w| > 0
    ensures var r := TickRun(cfg, d, w);
      && r.modeAware
      && (r.active == Main ==> r.downStreak == 0)
      && (r.active == Standby ==> |w| <= r.normalStreak < cfg.switchBack)
  {
    var before := w[..|w| - 1];
    if before == [] {
      assert TickRun(cfg, d, before) == d;
    } else {
      ReturnsBringToMain(cfg, d, before);
    }
  }

  /** Where one tracker stands after `|w|` down ticks: on the standby site, or counting. */
  lemma {:induction false} DownBringsToStandby(cfg: Config, d: Decision, w: seq<TickAnswers>)
    requires cfg.Valid() && AllDown(w) && |w| > 0
    ensures var r := TickRun(cfg, d, w);
      && r.modeAware
      && (r.active == Standby ==> r.normalStreak == 0)
      && (r.active == Main ==> |w| <= r.downStreak < cfg.mainDown)
  {
    var before := w[..|w| - 1];
    if before == [] {
      assert TickRun(cfg, d, before) == d;
    } else {
      DownBringsToStandby(cfg, d, before);
    }
  }

  /** A decisive window agrees on a site, whatever the two trackers held. */
  lemma DecisiveWindowAgrees(cfg: Config, a: Decision, b: Decision, w: seq<TickAnswers>)
    requires cfg.Valid() && Decisive(cfg, w)
    ensures InStep(TickRun(cfg, a, w), TickRun(cfg, b, w))
    ensures RelevantStreak(TickRun(cfg, a, w)) == 0
    ensures TickRun(cfg, a, w).active == if AllReturns(w) then Main else Standby
  {
    if |w| == cfg.switchBack && AllReturns(w) {
      ReturnsBringToMain(cfg, a, w);
      ReturnsBringToMain(cfg, b, w);
    } else if |w| == cfg.mainDown && AllDown(w) {
      DownBringsToStandby(cfg, a, w);
      DownBringsToStandby(cfg, b, w);
    } else {
      assert w[..0] == [];
      assert TickRun(cfg, a, []) == a && TickRun(cfg, b, []) == b;
    }
  }

  lemma {:induction false} InStepForever(cfg: Config, a: Decision, b: Decision, w: seq<TickAnswers>, rest: seq<TickAnswers>)
    requires cfg.Valid() && Decisive(cfg, w)
    requires AllKeepModes(rest)
    ensures InStep(TickRun(cfg, a, w + rest), TickRun(cfg, b, w + rest))
  {
    if rest == [] {
      assert w + rest == w;
      DecisiveWindowAgrees(cfg, a, b, w);
    } else {
      var before := rest[..|rest| - 1];
      assert (w + rest)[..|w + rest| - 1] == w + before;
      InStepForever(cfg, a, b, w, before);
      StepKeepsInStep(cfg, TickRun(cfg, a, w + before), TickRun(cfg, b, w + before), rest[|rest| - 1]);
    }
  }

  lemma DecisiveTickReports(cfg: Config, w: seq<TickAnswers>, i: nat)
    requires Decisive(cfg, w) && i < |w|
    ensures Reports(w[i])
  {
  }

  /** The theorem. Two replicas with the same thresholds, in arbitrary states but without a
      reactive probe in flight, run their own events around the same ticks. Once the ticks have
      begun with a decisive window, both serve the same site and hold the same streak. */
  lemma ReplicasSelfStabilise(cfg: Config, a: State, b: State, ea: seq<Event>, eb: seq<Event>,
                              w: seq<TickAnswers>, rest: seq<TickAnswers>)
    requires cfg.Valid() && !a.probeInFlight && !b.probeInFlight
    requires ValidRun(cfg, a, ea) && ValidRun(cfg, b, eb)
    requires |ea| > 0 && ea[0].Tick? && |eb| > 0 && eb[0].Tick?
    requires Decisive(cfg, w) && Ticks(ea) == w + rest && Ticks(eb) == w + rest
    requires AllKeepModes(rest)
    ensures InStep(Run(cfg, a, ea).d, Run(cfg, b, eb).d)
    ensures Targets(Run(cfg, a, ea)) == Targets(Run(cfg, b, eb))
  {
    forall i | 0 <= i < |w + rest| ensures KeepsModes((w + rest)[i]) {
      if i < |w| { DecisiveTickReports(cfg, w, i); }
    }
    FirstTick(ea);
    FirstTick(eb);
    DecisiveTickReports(cfg, w, 0);
    OnlyTicksDecide(cfg, a, ea);
    OnlyTicksDecide(cfg, b, eb);
    InStepForever(cfg, a.d, b.d, w, rest);
  }

  /** The two replicas agree behind every decisive window, however they go on. */
  ghost predicate AlwaysAgree(cfg: Config, a: State, b: State) {
    forall ea, eb, w, rest ::
      StartsWithTick(cfg, a, ea) && StartsWithTick(cfg, b, eb) && Decisive(cfg, w) && AllKeepModes(rest)
      && Ticks(ea) == w + rest && Ticks(eb) == w + rest ==>
        InStep(Run(cfg, a, ea).d, Run(cfg, b, eb).d)
  }

  predicate StartsWithTick(cfg: Config, s: State, es: seq<Event>) {
    ValidRun(cfg, s, es) && |es| > 0 && es[0].Tick?
  }

  /** For any two trackers whose monitors run: they do if and only if neither has a reactive probe in
      flight. */
  lemma AlwaysAgreeIff(cfg: Config, a: State, b: State)
    requires cfg.Valid() && a.monitorOn && b.monitorOn
    ensures AlwaysAgree(cfg, a, b) <==> !a.probeInFlight && !b.probeInFlight
  {
    if !a.probeInFlight && !b.probeInFlight {
      forall ea, eb, w, rest |
        StartsWithTick(cfg, a, ea) && StartsWithTick(cfg, b, eb) && Decisive(cfg, w) && AllKeepModes(rest)
        && Ticks(ea) == w + rest && Ticks(eb) == w + rest
        ensures InStep(Run(cfg, a, ea).d, Run(cfg, b, eb).d)
      {
        ReplicasSelfStabilise(cfg, a, b, ea, eb, w, rest);
      }
    } else {
      var w: seq<TickAnswers> := [(NoAnswer, Standalone)];
      var one, two := [Tick(NoAnswer, Standalone)], [Tick(NoAnswer, Standalone), ProbeDone(Normal)];
      StandaloneTick(cfg, a);
      StandaloneTick(cfg, b);
      assert w + [] == w && Decisive(cfg, w) && AllKeepModes([]);
      if a.probeInFlight {
        assert !InStep(Run(cfg, a, two).d, Run(cfg, b, one).d);
      } else {
        assert !InStep(Run(cfg, a, one).d, Run(cfg, b, two).d);
      }
    }
  }

  /** A standby site that says standalone, and behind it a left-over probe that says the main site is
      normal. */
  lemma StandaloneTick(cfg: Config, s: State)
    requires cfg.Valid() && s.monitorOn
    ensures var one, two := [Tick(NoAnswer, Standalone)], [Tick(NoAnswer, Standalone), ProbeDone(Normal)];
      && StartsWithTick(cfg, s, one) && Ticks(one) == Ticks(two) == [(NoAnswer, Standalone)]
      && Run(cfg, s, one).d == Decision(Standby, 0, Run(cfg, s, one).d.downStreak, true)
      && (s.probeInFlight ==> StartsWithTick(cfg, s, two))
      && !InStep(Run(cfg, s, two).d, Decision(Standby, 0, 0, true))
      && (Run(cfg, s, two).d.active == Main || Run(cfg, s, two).d.normalStreak != 0)
  {
    var tick := Tick(NoAnswer, Standalone);
    assert [] + [tick] == [tick] && [tick] + [ProbeDone(Normal)] == [tick, ProbeDone(Normal)];
    assert Run(cfg, s, []) == s && Ticks([]) == [];
    RunSnoc(cfg, s, [], tick);
    RunSnoc(cfg, s, [tick], ProbeDone(Normal));
  }

  lemma {:induction false} FirstTick(es: seq<Event>)
    requires |es| > 0 && es[0].Tick?
    ensures |Ticks(es)| > 0 && Ticks(es)[0] == (es[0].main, es[0].standby)
  {
    var before := es[..|es| - 1];
    if before != [] {
      FirstTick(before);
    } else {
      assert Ticks(before) == [];
    }
  }

  // ---- which tick sequences synchronise the replicas ----

  predicate ContainsDecisive(cfg: Config, ts: seq<TickAnswers>) {
    exists i, j :: 0 <= i <= j <= |ts| && Decisive(cfg, ts[i..j])
  }

  lemma {:induction false} TickRunSplit(cfg: Config, d: Decision, ts: seq<TickAnswers>, us: seq<TickAnswers>)
    ensures TickRun(cfg, d, ts + us) == TickRun(cfg, TickRun(cfg, d, ts), us)
  {
    if us == [] {
      assert ts + us == ts;
    } else {
      assert (ts + us)[..|ts + us| - 1] == ts + us[..|us| - 1];
      TickRunSplit(cfg, d, ts, us[..|us| - 1]);
    }
  }

  lemma PrefixContainsDecisive(cfg: Config, ts: seq<TickAnswers>, n: nat)
    requires n <= |ts| && ContainsDecisive(cfg, ts[..n])
    ensures ContainsDecisive(cfg, ts)
  {
    var i, j :| 0 <= i <= j <= |ts[..n]| && Decisive(cfg, ts[..n][i..j]);
    assert ts[..n][i..j] == ts[i..j];
  }

  lemma SuffixContainsDecisive(cfg: Config, ts: seq<TickAnswers>, n: nat)
    requires n <= |ts| && Decisive(cfg, ts[|ts| - n..])
    ensures ContainsDecisive(cfg, ts)
  {
    assert ts[|ts| - n..|ts|] == ts[|ts| - n..];
  }

  const FRESH_MAIN := Decision(Main, 0, 0, true)
  const FRESH_STANDBY := Decision(Standby, 0, 0, true)

  lemma {:induction false} UndecidedStaysOnMain(cfg: Config, ts: seq<TickAnswers>)
    requires cfg.Valid() && !ContainsDecisive(cfg, ts)
    requires AllKeepModes(ts)
    ensures var r := TickRun(cfg, FRESH_MAIN, ts);
      r.active == Main && r.modeAware && r.downStreak < cfg.mainDown && LastAreDown(ts, r.downStreak)
  {
    if ts != [] {
      var n := |ts| - 1;
      if ContainsDecisive(cfg, ts[..n]) { PrefixContainsDecisive(cfg, ts, n); }
      UndecidedStaysOnMain(cfg, ts[..n]);
      var streak := TickRun(cfg, FRESH_MAIN, ts[..n]).downStreak;
      if ts[n].1 == Standalone {
        assert ts[|ts| - 1..] == [ts[n]];
        SuffixContainsDecisive(cfg, ts, 1);
      } else if DownTick(ts[n].0, ts[n].1) && streak + 1 == cfg.mainDown {
        SuffixContainsDecisive(cfg, ts, streak + 1);
      }
    }
  }

  lemma {:induction false} UndecidedStaysOnStandby(cfg: Config, ts: seq<TickAnswers>)
    requires cfg.Valid() && !ContainsDecisive(cfg, ts)
    requires AllKeepModes(ts)
    ensures var r := TickRun(cfg, FRESH_STANDBY, ts);
      r.active == Standby && r.modeAware && r.normalStreak < cfg.switchBack && LastAreReturns(ts, r.normalStreak)
  {
    if ts != [] {
      var n := |ts| - 1;
      if ContainsDecisive(cfg, ts[..n]) { PrefixContainsDecisive(cfg, ts, n); }
      UndecidedStaysOnStandby(cfg, ts[..n]);
      var streak := TickRun(cfg, FRESH_STANDBY, ts[..n]).normalStreak;
      if ReturnTick(ts[n].0, ts[n].1) && streak + 1 == cfg.switchBack {
        SuffixContainsDecisive(cfg, ts, streak + 1);
      }
    }
  }

  /** The windows are exactly what it takes: a sequence of ticks that keeps reporting modes brings
      every two mode-aware trackers together if and only if a decisive window occurs in it. */
  lemma SynchronisesIff(cfg: Config, ts: seq<TickAnswers>)
    requires cfg.Valid() && AllKeepModes(ts)
    ensures (forall a: Decision, b: Decision :: a.modeAware && b.modeAware ==>
               InStep(TickRun(cfg, a, ts), TickRun(cfg, b, ts)))
            <==> ContainsDecisive(cfg, ts)
  {
    if ContainsDecisive(cfg, ts) {
      var i, j :| 0 <= i <= j <= |ts| && Decisive(cfg, ts[i..j]);
      var pre, w, rest := ts[..i], ts[i..j], ts[j..];
      assert ts == pre + (w + rest);
      forall a: Decision, b: Decision | a.modeAware && b.modeAware
        ensures InStep(TickRun(cfg, a, ts), TickRun(cfg, b, ts))
      {
        TickRunSplit(cfg, a, pre, w + rest);
        TickRunSplit(cfg, b, pre, w + rest);
        InStepForever(cfg, TickRun(cfg, a, pre), TickRun(cfg, b, pre), w, rest);
      }
    } else {
      UndecidedStaysOnMain(cfg, ts);
      UndecidedStaysOnStandby(cfg, ts);
      assert !InStep(TickRun(cfg, FRESH_MAIN, ts), TickRun(cfg, FRESH_STANDBY, ts));
      assert FRESH_MAIN.modeAware && FRESH_STANDBY.modeAware;
    }
  }
}
