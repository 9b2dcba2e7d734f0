/**
 Which mode-aware trackers return to the main site only on ticks that earn it
 (app/bss/adapters/portaswitch/failover.py:269-319, 344-365): exactly those without a left-over
 reactive probe, running or already counted.
 */
module EarnedReturns {
  import opened SiteTracker
  import opened SiteRuns
  import opened Replicas

  /** The event takes the tracker from the standby site to the main one. */
  predicate Returns(cfg: Config, s: State, es: seq<Event>, e: Event) {
    Run(cfg, s, es).d.active == Standby && Step(cfg, Run(cfg, s, es), e).d.active == Main
  }

  /** A run from `s` that keeps modes reported. */
  predicate Continues(cfg: Config, s: State, es: seq<Event>) {
    ValidRun(cfg, s, es) && AllKeepModes(Ticks(es))
  }

  /** From `s`, whose past ticks were `past`, every return happens on a tick, the last of `switchBack`
      ticks in a row that report a normal main site next to a standby that is not standalone. */
  ghost predicate ReturnsAreEarned(cfg: Config, s: State, past: seq<TickAnswers>) {
    forall es, e :: Continues(cfg, s, es + [e]) && Returns(cfg, s, es, e) ==>
      e.Tick? && LastAreReturns(past + Ticks(es + [e]), cfg.switchBack)
  }

  /** The return streak counts ticks, as far as it can lead to a return. */
  predicate StreakIsTicks(s: State, past: seq<TickAnswers>) {
    s.d.active == Standby ==> LastAreReturns(past, s.d.normalStreak)
  }

  /** What such a tracker keeps. */
  predicate Earning(s: State, past: seq<TickAnswers>) {
    s.d.modeAware && !s.probeInFlight && StreakIsTicks(s, past)
  }

  lemma TickKeepsEarning(cfg: Config, s: State, past: seq<TickAnswers>, t: TickAnswers)
    requires cfg.Valid() && Earning(s, past) && KeepsModes(t)
    ensures Earning(AfterTick(cfg, s, t.0, t.1), past + [t])
    ensures s.d.active == Standby && AfterTick(cfg, s, t.0, t.1).d.active == Main ==>
      LastAreReturns(past + [t], cfg.switchBack)
  {
  }

  lemma {:induction false} RunKeepsEarning(cfg: Config, s: State, past: seq<TickAnswers>, es: seq<Event>)
    requires cfg.Valid() && Earning(s, past) && Continues(cfg, s, es)
    ensures Earning(Run(cfg, s, es), past + Ticks(es))
  {
    if es == [] {
      assert past + [] == past;
    } else {
      var before, e := es[..|es| - 1], es[|es| - 1];
      assert before + [e] == es;
      TicksBefore(cfg, s, before, e);
      RunKeepsEarning(cfg, s, past, before);
      EventKeepsEarning(cfg, s, past, before, e);
    }
  }

  lemma EventKeepsEarning(cfg: Config, s: State, past: seq<TickAnswers>, before: seq<Event>, e: Event)
    requires cfg.Valid() && Earning(Run(cfg, s, before), past + Ticks(before))
    requires Enabled(Run(cfg, s, before), e) && (e.Tick? ==> KeepsModes((e.main, e.standby)))
    ensures Earning(Run(cfg, s, before + [e]), past + Ticks(before + [e]))
    ensures Returns(cfg, s, before, e) ==>
      e.Tick? && LastAreReturns(past + Ticks(before + [e]), cfg.switchBack)
  {
    RunSnoc(cfg, s, before, e);
    if e.Tick? {
      var t := (e.main, e.standby);
      assert past + Ticks(before + [e]) == past + Ticks(before) + [t];
      TickKeepsEarning(cfg, Run(cfg, s, before), past + Ticks(before), t);
    } else {
      assert Ticks(before + [e]) == Ticks(before);
      StepDecides(cfg, Run(cfg, s, before), e);
    }
  }

  lemma WithoutProbesReturnsAreEarned(cfg: Config, s: State, past: seq<TickAnswers>)
    requires cfg.Valid() && Earning(s, past)
    ensures ReturnsAreEarned(cfg, s, past)
  {
    forall es, e | Continues(cfg, s, es + [e]) && Returns(cfg, s, es, e)
      ensures e.Tick? && LastAreReturns(past + Ticks(es + [e]), cfg.switchBack)
    {
      TicksBefore(cfg, s, es, e);
      RunKeepsEarning(cfg, s, past, es);
      EventKeepsEarning(cfg, s, past, es, e);
    }
  }

  // ---- the runs that show the condition is needed ----

  const GOOD: Event := Tick(Normal, Secondary)

  function GoodTicks(n: nat): seq<Event> {
    if n == 0 then [] else GoodTicks(n - 1) + [GOOD]
  }

  /** A continuation that ends mode-aware on the standby site with a return streak of `k`. */
  predicate Counting(cfg: Config, s: State, es: seq<Event>, k: nat) {
    var d := Run(cfg, s, es).d;
    Continues(cfg, s, es) && Run(cfg, s, es).monitorOn && d.modeAware && d.active == Standby && d.normalStreak == k
  }

  /** The ticks of `more` are those of `es` and `n` others. */
  predicate MoreTicks(es: seq<Event>, more: seq<Event>, n: nat) {
    |Ticks(more)| == |Ticks(es)| + n && Ticks(more)[..|Ticks(es)|] == Ticks(es)
  }

  lemma OneGoodTick(cfg: Config, s: State, es: seq<Event>, k: nat)
    requires cfg.Valid() && Counting(cfg, s, es, k)
    ensures Continues(cfg, s, es + [GOOD]) && MoreTicks(es, es + [GOOD], 1)
    ensures k + 1 < cfg.switchBack ==> Counting(cfg, s, es + [GOOD], k + 1)
    ensures k + 1 >= cfg.switchBack ==> Returns(cfg, s, es, GOOD)
  {
    RunSnoc(cfg, s, es, GOOD);
    assert Ticks(es + [GOOD]) == Ticks(es) + [(Normal, Secondary)];
  }

  /** Good ticks are counted while they stay below the threshold. */
  lemma {:induction false} GoodTicksCount(cfg: Config, s: State, es: seq<Event>, k: nat, n: nat)
    requires cfg.Valid() && Counting(cfg, s, es, k) && k + n < cfg.switchBack
    ensures Counting(cfg, s, es + GoodTicks(n), k + n) && MoreTicks(es, es + GoodTicks(n), n)
  {
    if n == 0 {
      assert es + GoodTicks(0) == es;
    } else {
      GoodTicksCount(cfg, s, es, k, n - 1);
      var before := es + GoodTicks(n - 1);
      assert es + GoodTicks(n) == before + [GOOD];
      OneGoodTick(cfg, s, before, k + n - 1);
      MoreTicksAdd(es, before, before + [GOOD], n - 1);
    }
  }

  lemma MoreTicksAdd(es: seq<Event>, mid: seq<Event>, more: seq<Event>, n: nat)
    requires MoreTicks(es, mid, n) && MoreTicks(mid, more, 1)
    ensures MoreTicks(es, more, n + 1)
  {
    var a := |Ticks(es)|;
    assert Ticks(more)[..a] == Ticks(more)[..a + n][..a];
  }

  /** From a streak that the ticks do not back, good ticks bring an unearned return. */
  lemma UnbackedStreakReturns(cfg: Config, s: State, past: seq<TickAnswers>, es: seq<Event>, k: nat)
    requires cfg.Valid() && Counting(cfg, s, es, k) && k < cfg.switchBack
    requires !LastAreReturns(past + Ticks(es), k)
    ensures !ReturnsAreEarned(cfg, s, past)
  {
    var n: nat := cfg.switchBack - k - 1;
    GoodTicksCount(cfg, s, es, k, n);
    var before := es + GoodTicks(n);
    OneGoodTick(cfg, s, before, k + n);
    MoreTicksAdd(es, before, before + [GOOD], n);
    assert Continues(cfg, s, before + [GOOD]) && Returns(cfg, s, before, GOOD);
    if LastAreReturns(past + Ticks(before + [GOOD]), cfg.switchBack) {
      var ts, all := past + Ticks(es), past + Ticks(before + [GOOD]);
      assert all[..|ts|] == past + Ticks(before + [GOOD])[..|Ticks(es)|];
      LastBefore(ts, all, k, n + 1);
    }
  }

  lemma LastBefore(ts: seq<TickAnswers>, all: seq<TickAnswers>, k: nat, m: nat)
    requires |all| == |ts| + m && all[..|ts|] == ts && LastAreReturns(all, k + m)
    ensures LastAreReturns(ts, k)
  {
    forall i | 0 <= i && |ts| - k <= i < |ts| ensures ReturnTick(ts[i].0, ts[i].1) {
      assert all[i] == all[..|ts|][i];
    }
  }

  /** A probe in flight, answered behind a tick that clears the streak, counts as a tick that never was. */
  lemma LeftOverProbeReturns(cfg: Config, s: State, past: seq<TickAnswers>)
    requires cfg.Valid() && s.monitorOn && s.d.modeAware && s.probeInFlight
    ensures !ReturnsAreEarned(cfg, s, past)
  {
    var clear, good := Tick(NoAnswer, Standalone), ProbeDone(Normal);
    var first: seq<Event> := [clear];
    assert [] + [clear] == first;
    RunSnoc(cfg, s, [], clear);
    assert Run(cfg, s, []) == s && Ticks([]) == [];
    RunSnoc(cfg, s, first, good);
    assert Ticks(first + [good]) == [(NoAnswer, Standalone)];
    assert Continues(cfg, s, first + [good]);
    if cfg.switchBack == 1 {
      assert Returns(cfg, s, first, good);
    } else {
      var ts := past + Ticks(first + [good]);
      assert ts[|ts| - 1] == (NoAnswer, Standalone);
      UnbackedStreakReturns(cfg, s, past, first + [good], 1);
    }
  }

  // ---- the theorems ----

  /** A mode-aware tracker earns every return, in every continuation that keeps modes reported, if and
      only if no reactive probe is in flight and, on the standby site, its streak counts ticks. With an
      empty streak that is: if and only if no probe is in flight. (The monitor is on whenever modes
      decide, see ModesNeedTheMonitor.) */
  lemma ReturnsAreEarnedIff(cfg: Config, s: State, past: seq<TickAnswers>)
    requires cfg.Valid() && s.monitorOn && s.d.modeAware && s.d.normalStreak < cfg.switchBack
    ensures ReturnsAreEarned(cfg, s, past) <==> !s.probeInFlight && StreakIsTicks(s, past)
    ensures s.d.normalStreak == 0 ==> (ReturnsAreEarned(cfg, s, past) <==> !s.probeInFlight)
  {
    if s.probeInFlight {
      LeftOverProbeReturns(cfg, s, past);
    } else if StreakIsTicks(s, past) {
      WithoutProbesReturnsAreEarned(cfg, s, past);
    } else {
      assert Continues(cfg, s, []) && past + Ticks([]) == past;
      UnbackedStreakReturns(cfg, s, past, [], s.d.normalStreak);
    }
  }

  /** So a clean handover is exactly what it takes: at the tick that makes a tracker follow modes, in
      any run, every later return is earned while modes last if and only if no switch-back probe is in
      flight at that tick. */
  lemma CleanHandoverIff(cfg: Config, es: seq<Event>, e: Event)
    requires cfg.Valid() && ValidRun(cfg, INITIAL, es + [e]) && e.Tick?
    requires !Run(cfg, INITIAL, es).d.modeAware && Run(cfg, INITIAL, es + [e]).d.modeAware
    ensures ReturnsAreEarned(cfg, Run(cfg, INITIAL, es + [e]), Ticks(es + [e]))
            <==> !Run(cfg, INITIAL, es).probeInFlight
  {
    RunSnoc(cfg, INITIAL, es, e);
    StreaksStayBelowThresholds(cfg, es + [e]);
    ReturnsAreEarnedIff(cfg, Run(cfg, INITIAL, es + [e]), Ticks(es + [e]));
  }
}
