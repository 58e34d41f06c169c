/**
 When the gate opens, in numbers, and what an opened round is worth: a wave, or all that is left, or the
 retries whose window is over.
 */
module WaveSizes {
  import opened Wrappers
  import opened WaveGate
  import opened WaveRuns

  /** A retry is parked, on a clock that has run for the release window. */
  predicate RetryIsDue(cfg: Config, w: World, at: real) {
    Parked(w.st) != {} && at - w.st.since.GetOr(at) >= cfg.Window()
  }

  /** The refill fraction a setting means, if it is a number. */
  function Fraction(setting: Setting): Option<real> {
    if setting == NotANumber then None
    else if setting == Unreadable then Some(0.2)
    else if setting == PlusInfinity || (setting.Number? && setting.value > 1.0) then Some(1.0)
    else if setting == MinusInfinity || setting.value < 0.0 then Some(0.0)
    else Some(setting.value)
  }

  lemma FractionIsRefill(cfg: Config)
    ensures cfg.Refill() == Fraction(cfg.refillSetting)
  {}

  /** The jobs a wave takes at least. */
  function Wave(cfg: Config): Option<real> {
    var fraction := Fraction(cfg.refillSetting);
    if fraction.None? then None else Some(fraction.value * cfg.nParallel as real)
  }

  lemma SameProduct(x: real, y: real, n: real)
    requires x == y
    ensures x * n == y * n
  {}

  lemma WaveIsMinWave(cfg: Config)
    ensures cfg.MinWave() == Wave(cfg)
  {
    FractionIsRefill(cfg);
    if cfg.Refill().Some? {
      SameProduct(cfg.Refill().value, Fraction(cfg.refillSetting).value, cfg.nParallel as real);
      assert cfg.MinWave().value == Wave(cfg).value;
    }
  }

  /** The backlog fills a wave, and so do the free slots. */
  predicate FillsAWave(wave: real, active: nat, slots: nat, backlog: nat) {
    backlog as real >= wave && (slots - active) as real >= wave
  }

  /** Even with every running job failed, no wave would come together. */
  predicate TooFewForAWave(wave: real, active: nat, backlog: nat, offered: nat) {
    (active + backlog + offered) as real < wave
  }

  lemma SizeIs(cfg: Config, active: nat, backlog: nat, offered: nat)
    ensures OpensBySize(cfg, active, backlog, offered) <==>
      || cfg.nParallel >= cfg.nParallelMax || backlog + offered == 0
      || (Wave(cfg).Some? &&
           (FillsAWave(Wave(cfg).value, active, cfg.nParallel, backlog) || TooFewForAWave(Wave(cfg).value, active, backlog, offered)))
  {
    WaveIsMinWave(cfg);
  }

  lemma DueIs(cfg: Config, skip: set<JobNum>, w: World, e: Event)
    requires Inv(cfg, skip, w) && Enabled(w, e) && e.Poll? && e.readable
    ensures Due(cfg, Held(w, e), e.at) <==> RetryIsDue(cfg, w, e.at)
  {
    HeldIsReady(cfg, skip, w, e);
    RoomForRetries(cfg, skip, w, e);
  }

  /**
   A round that can read law's tree opens exactly if jobs are unlimited, or nothing waits, or a parked retry is
   due, or backlog and free slots both fill a wave, or nothing left in the production could.
   */
  lemma OpensExactlyWhen(cfg: Config, skip: set<JobNum>, start: State, ws: seq<World>, run: seq<Event>, n: nat)
    requires IsRun(cfg, skip, start, ws, run) && n < |run| && run[n].Poll? && run[n].readable
    ensures var active, backlog, offered := |run[n].still|, |ws[n].st.unsubmitted|, |run[n].offered|;
      Opened(cfg, ws[n], run[n]) <==>
        || cfg.nParallel >= cfg.nParallelMax || backlog + offered == 0 || RetryIsDue(cfg, ws[n], run[n].at)
        || (Wave(cfg).Some? &&
             (FillsAWave(Wave(cfg).value, active, cfg.nParallel, backlog) || TooFewForAWave(Wave(cfg).value, active, backlog, offered)))
  {
    InvAlways(cfg, skip, start, ws, run, n);
    DueIs(cfg, skip, ws[n], run[n]);
    SizeIs(cfg, |run[n].still|, |ws[n].st.unsubmitted|, |run[n].offered|);
  }

  lemma UnreadableNeverOpens(cfg: Config, w: World, e: Event)
    requires e.Poll? && !e.readable
    ensures !Opened(cfg, w, e)
  {}

  function Least(a: nat, b: nat): nat { if a < b then a else b }

  lemma SubmittedApart(cfg: Config, skip: set<JobNum>, st: State, active: set<JobNum>, offered: seq<Job>, fill: nat)
    requires Ready(cfg, skip, st, active, offered) && fill <= |st.unsubmitted|
    ensures var submitted := Live(offered, skip) + st.unsubmitted[..fill];
      |active + Nums(submitted)| == |active| + |Live(offered, skip)| + fill
  {
    var retries, first := Live(offered, skip), st.unsubmitted[..fill];
    LiveIs(offered, skip);
    OncePerSplit(st.unsubmitted, fill);
    NumsSplit(st.unsubmitted, fill);
    OncePerConcat(retries, first);
    NumsConcat(retries, first);
    assert Nums(first) !! active;
    UnionCount(active, Nums(retries + first));
  }

  lemma GateSubmits(cfg: Config, skip: set<JobNum>, st: State, nActive: nat, offered: seq<Job>, now: real, law: Round)
    requires LawSubmit(st, offered, skip, cfg.nParallel - nActive) == law
    ensures AfterGate(cfg, st, offered, skip, nActive, now, true).submitted == law.submitted
  {}

  lemma RoundTakes(cfg: Config, skip: set<JobNum>, st: State, active: set<JobNum>, offered: seq<Job>, now: real)
    returns (fill: nat)
    requires Nums(st.unsubmitted) !! skip && |active| + |Live(offered, skip)| <= cfg.nParallel
    ensures fill <= |st.unsubmitted|
    ensures |active| + |Live(offered, skip)| + fill == Least(cfg.nParallel, |active| + |Live(offered, skip)| + |st.unsubmitted|)
    ensures AfterGate(cfg, st, offered, skip, |active|, now, true).submitted == Live(offered, skip) + st.unsubmitted[..fill]
  {
    var slots := cfg.nParallel - |active|;
    fill := Filled(skip, st, offered, slots);
    LawTakesRetries(skip, st, offered, slots);
    GateSubmits(cfg, skip, st, |active|, offered, now, FillRound(skip, st, offered, fill));
  }

  lemma RoundFills(cfg: Config, skip: set<JobNum>, st: State, active: set<JobNum>, offered: seq<Job>, now: real)
    requires Ready(cfg, skip, st, active, offered)
    ensures var r := AfterGate(cfg, st, offered, skip, |active|, now, true);
      |active + Nums(r.submitted)| == Least(cfg.nParallel, |active| + |Live(offered, skip)| + |st.unsubmitted|)
  {
    LiveIs(offered, skip);
    var fill := RoundTakes(cfg, skip, st, active, offered, now);
    SubmittedApart(cfg, skip, st, active, offered, fill);
  }

  /** An opened round fills the free slots, or takes all there is. */
  lemma OpenedRoundFills(cfg: Config, skip: set<JobNum>, start: State, ws: seq<World>, run: seq<Event>, n: nat)
    requires IsRun(cfg, skip, start, ws, run) && n < |run| && Opened(cfg, ws[n], run[n])
    ensures var live := |Nums(run[n].offered) - skip|;
      |ws[n + 1].active| == Least(cfg.nParallel, |run[n].still| + live + |ws[n].st.unsubmitted|)
  {
    var w, e := ws[n], run[n];
    InvAlways(cfg, skip, start, ws, run, n);
    SubmitIsAfterGate(cfg, skip, w, e);
    HeldIsReady(cfg, skip, w, e);
    RoundFills(cfg, skip, Held(w, e), e.still, e.offered, e.at);
    LiveIs(e.offered, skip);
    NumsCount(Live(e.offered, skip));
  }

  /**
   No trickle of jobs becomes a CRAB task of its own: an opened round with a limit on the jobs, something waiting
   and no retry due hands law a whole wave, or there are fewer jobs left in all.
   */
  lemma WaveIsWorthIt(cfg: Config, skip: set<JobNum>, start: State, ws: seq<World>, run: seq<Event>, n: nat)
    requires IsRun(cfg, skip, start, ws, run) && n < |run| && Opened(cfg, ws[n], run[n])
    requires cfg.nParallel < cfg.nParallelMax && |ws[n].st.unsubmitted| + |run[n].offered| > 0
    requires !RetryIsDue(cfg, ws[n], run[n].at)
    ensures Wave(cfg).Some?
    ensures (|ws[n + 1].active| - |run[n].still|) as real >= Wave(cfg).value
            || TooFewForAWave(Wave(cfg).value, |run[n].still|, |ws[n].st.unsubmitted|, |run[n].offered|)
  {
    OpensExactlyWhen(cfg, skip, start, ws, run, n);
    OpenedRoundFills(cfg, skip, start, ws, run, n);
  }

  /** The release window in seconds: the minutes set, none if those are negative, 45 if they are no finite number. */
  lemma WindowIs(cfg: Config)
    ensures cfg.releaseSetting.Number? && cfg.releaseSetting.value >= 0.0 ==> cfg.Window() == cfg.releaseSetting.value * 60.0
    ensures cfg.releaseSetting.Number? && cfg.releaseSetting.value < 0.0 ==> cfg.Window() == 0.0
    ensures !cfg.releaseSetting.Number? ==> cfg.Window() == 2700.0
  {}
}
