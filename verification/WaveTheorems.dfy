/** What the wave gate guarantees over whole runs: no retry starves, no job is lost, the gate never sticks. */
module WaveTheorems {
  import opened Wrappers
  import opened WaveGate
  import opened WaveRuns

  // ---- every opened round takes all retries ----------------------------------------------------

  /** Every retry parked, and every live one offered, is active after a round the gate lets through. */
  lemma OpenedRoundTakesAllRetries(cfg: Config, skip: set<JobNum>, start: State, ws: seq<World>, run: seq<Event>, n: nat)
    requires IsRun(cfg, skip, start, ws, run) && n < |run| && Opened(cfg, ws[n], run[n])
    ensures Parked(ws[n + 1].st) == {}
    ensures Parked(ws[n].st) + (Nums(run[n].offered) - skip) <= ws[n + 1].active
  {
    var w, e := ws[n], run[n];
    InvAlways(cfg, skip, start, ws, run, n);
    SubmitIsAfterGate(cfg, skip, w, e);
    HeldIsReady(cfg, skip, w, e);
    AfterGateKeepsInv(cfg, skip, Held(w, e), e.still, e.offered, e.at, true,
                      Submit(cfg, Offered(w, e), e.offered, skip, |e.still|, e.readable, e.at));
  }

  /** A round that is held or skipped keeps what was parked, and adds what it was offered. */
  lemma HeldRoundParks(cfg: Config, skip: set<JobNum>, start: State, ws: seq<World>, run: seq<Event>, n: nat)
    requires IsRun(cfg, skip, start, ws, run) && n < |run| && run[n].Poll? && !Opened(cfg, ws[n], run[n])
    ensures Parked(ws[n + 1].st) == Parked(ws[n].st) + (Nums(run[n].offered) - skip)
    ensures ws[n + 1].st == Park(Held(ws[n], run[n]), run[n].offered, skip, run[n].at)
    ensures ws[n + 1].active == run[n].still
  {
    var w, e := ws[n], run[n];
    InvAlways(cfg, skip, start, ws, run, n);
    SubmitIsAfterGate(cfg, skip, w, e);
    HeldIsReady(cfg, skip, w, e);
    ParkKeepsInv(cfg, skip, Held(w, e), e.still, e.offered, e.at);
  }

  // ---- the clock -------------------------------------------------------------------------------

  lemma RoundSetsClock(cfg: Config, skip: set<JobNum>, w: World, e: Event)
    requires e.Poll? && e.readable
    ensures var st := Step(cfg, skip, w, e).st; st.since.Some? <==> Parked(st) != {}
  {}

  lemma ParkClock(st: State, offered: seq<Job>, skip: set<JobNum>, now: real)
    ensures var st' := Park(st, offered, skip, now);
            && (st.since.Some? && Parked(st') != {} ==> st'.since == st.since)
            && (st'.since.Some? ==> st'.since == st.since || st'.since == Some(now))
            && ((st.since.Some? <==> Parked(st) != {}) || Live(offered, skip) != [] ==>
                (st'.since.Some? <==> Parked(st') != {}))
  {}

  /** A round nothing restarts the clock in: parked retries stay on the clock they have. */
  lemma HeldKeepsClock(cfg: Config, w: World, e: Event)
    requires e.Poll? && Parked(Held(w, e)) == Parked(w.st)
    ensures var st := Held(w, e);
            && (w.st.since.Some? && Parked(w.st) != {} ==> st.since == w.st.since)
            && (st.since.Some? ==> st.since == w.st.since || st.since == Some(e.at))
  {}

  predicate NoRestart(run: seq<Event>, i: nat, j: nat)
    requires j <= |run|
  {
    forall k | i <= k < j :: run[k].Poll?
  }

  lemma {:induction false} TimesGrow(cfg: Config, skip: set<JobNum>, start: State, ws: seq<World>, run: seq<Event>, i: nat, j: nat)
    requires IsRun(cfg, skip, start, ws, run) && i <= j <= |run| && NoRestart(run, i, j)
    ensures ws[i].now <= ws[j].now
  {
    if i < j { TimesGrow(cfg, skip, start, ws, run, i, j - 1); }
  }

  /** A clock that runs was started at some moment of the run so far. */
  lemma {:induction false} ClockInPast(cfg: Config, skip: set<JobNum>, start: State, ws: seq<World>, run: seq<Event>, n: nat)
    requires IsRun(cfg, skip, start, ws, run) && n <= |run|
    ensures ws[n].st.since.Some? ==> ws[n].st.since.value <= ws[n].now
  {
    if n > 0 && run[n - 1].Poll? {
      ClockInPast(cfg, skip, start, ws, run, n - 1);
      SubmitClock(cfg, skip, start, ws, run, n - 1);
    }
  }

  /** What a poll does to the clock: it stops, runs on, or starts at this poll. */
  lemma SubmitClock(cfg: Config, skip: set<JobNum>, start: State, ws: seq<World>, run: seq<Event>, n: nat)
    requires IsRun(cfg, skip, start, ws, run) && n < |run| && run[n].Poll?
    ensures var since := ws[n + 1].st.since;
            since == None || since == ws[n].st.since || since == Some(run[n].at)
  {
    var w, e := ws[n], run[n];
    SubmitIsAfterGate(cfg, skip, w, e);
    InvAlways(cfg, skip, start, ws, run, n);
    HeldIsReady(cfg, skip, w, e);
    HeldKeepsClock(cfg, w, e);
    ParkClock(Held(w, e), e.offered, skip, e.at);
  }

  /** An opening leaves no earlier clock running. */
  lemma OpeningResetsClock(cfg: Config, skip: set<JobNum>, w: World, e: Event)
    requires Opened(cfg, w, e)
    ensures var since := Step(cfg, skip, w, e).st.since; since == None || since == Some(e.at)
  {}

  /** A round that parks a retry, or one that is not skipped, leaves the clock of the parked running. */
  lemma ClockStarts(cfg: Config, skip: set<JobNum>, start: State, ws: seq<World>, run: seq<Event>, i: nat, n: JobNum)
    requires IsRun(cfg, skip, start, ws, run) && i < |run| && run[i].Poll?
    requires run[i].readable || n !in Parked(ws[i].st)
    requires n in Parked(ws[i + 1].st)
    ensures ws[i + 1].st.since.Some? && ws[i + 1].st.since.value <= run[i].at
  {
    var w, e := ws[i], run[i];
    ClockInPast(cfg, skip, start, ws, run, i);
    SubmitClock(cfg, skip, start, ws, run, i);
    if e.readable {
      RoundSetsClock(cfg, skip, w, e);
    } else {
      HeldRoundParks(cfg, skip, start, ws, run, i);
      LiveIs(e.offered, skip);
      ParkClock(Held(w, e), e.offered, skip, e.at);
    }
  }

  /**
   The clock runs exactly while a retry is parked, after every round, skipped ones too -- from the start of
   the poll loop on, and after a restart from the first round that could read law's tree.
   */
  lemma {:induction false} ClockRunsWhileParked(cfg: Config, skip: set<JobNum>, start: State, ws: seq<World>, run: seq<Event>,
                                                i: nat, j: nat)
    requires IsRun(cfg, skip, start, ws, run) && i <= j <= |run| && NoRestart(run, i, j)
    requires i > 0 ==> run[i - 1].Poll? && run[i - 1].readable
    ensures ws[j].st.since.Some? <==> Parked(ws[j].st) != {}
  {
    if j > 0 && run[j - 1].Poll? && run[j - 1].readable {
      RoundSetsClock(cfg, skip, ws[j - 1], run[j - 1]);
    } else if j > i {
      var w, e := ws[j - 1], run[j - 1];
      ClockRunsWhileParked(cfg, skip, start, ws, run, i, j - 1);
      HeldRoundParks(cfg, skip, start, ws, run, j - 1);
      InvAlways(cfg, skip, start, ws, run, j - 1);
      HeldIsReady(cfg, skip, w, e);
      ParkClock(Held(w, e), e.offered, skip, e.at);
    }
  }

  /** A retry that stays parked from round `i` on has been on a clock since round `i` or earlier. */
  lemma {:induction false} ParkedOnOneClock(cfg: Config, skip: set<JobNum>, start: State, ws: seq<World>, run: seq<Event>,
                                            i: nat, j: nat, n: JobNum)
    requires IsRun(cfg, skip, start, ws, run) && i < j <= |run| && NoRestart(run, i, j)
    requires run[i].readable || n !in Parked(ws[i].st)
    requires forall k | i < k <= j :: n in Parked(ws[k].st)
    ensures ws[j].st.since.Some? && ws[j].st.since.value <= run[i].at
  {
    if j == i + 1 {
      ClockStarts(cfg, skip, start, ws, run, i, n);
    } else {
      var w, e := ws[j - 1], run[j - 1];
      ParkedOnOneClock(cfg, skip, start, ws, run, i, j - 1, n);
      StaysParkedMeansHeld(cfg, skip, start, ws, run, j - 1, n);
      HeldRoundParks(cfg, skip, start, ws, run, j - 1);
      InvAlways(cfg, skip, start, ws, run, j - 1);
      HeldIsReady(cfg, skip, w, e);
      HeldKeepsClock(cfg, w, e);
      ParkClock(Held(w, e), e.offered, skip, e.at);
    }
  }

  lemma StaysParkedMeansHeld(cfg: Config, skip: set<JobNum>, start: State, ws: seq<World>, run: seq<Event>, k: nat, n: JobNum)
    requires IsRun(cfg, skip, start, ws, run) && k < |run| && n in Parked(ws[k + 1].st)
    ensures !Opened(cfg, ws[k], run[k])
  {
    if Opened(cfg, ws[k], run[k]) { OpenedRoundTakesAllRetries(cfg, skip, start, ws, run, k); }
  }

  /** A retry still parked after a round that was not skipped has waited less than the release window. */
  lemma WaitsLessThanTheWindow(cfg: Config, skip: set<JobNum>, start: State, ws: seq<World>, run: seq<Event>,
                               i: nat, j: nat, n: JobNum)
    requires IsRun(cfg, skip, start, ws, run) && i < j < |run| && NoRestart(run, i, j + 1) && run[j].readable
    requires run[i].readable || n !in Parked(ws[i].st)
    requires forall k | i < k <= j + 1 :: n in Parked(ws[k].st)
    ensures run[j].at - run[i].at < cfg.Window()
  {
    var w, e := ws[j], run[j];
    ParkedOnOneClock(cfg, skip, start, ws, run, i, j, n);
    StaysParkedMeansHeld(cfg, skip, start, ws, run, j, n);
    InvAlways(cfg, skip, start, ws, run, j);
    HeldIsReady(cfg, skip, w, e);
    HeldKeepsClock(cfg, w, e);
    NotDue(cfg, Held(w, e), |e.still|, |e.offered|, e.at);
  }

  lemma NotDue(cfg: Config, st: State, nActive: nat, nRetry: nat, now: real)
    requires !Opens(cfg, st, nActive, nRetry, now) && st.since.Some?
    ensures now - st.since.value < cfg.Window()
  {}

  /**
   No retry starves: parked by round `i`, it is active again by the first round that is not skipped a
   release window later -- so it waits at most the window and one gap between such rounds.
   */
  lemma {:induction false} RetryIsReleased(cfg: Config, skip: set<JobNum>, start: State, ws: seq<World>, run: seq<Event>,
                                           i: nat, j: nat, n: JobNum) returns (k: nat)
    requires IsRun(cfg, skip, start, ws, run) && i < j < |run| && NoRestart(run, i, j + 1) && run[j].readable
    requires n !in Parked(ws[i].st) && n in Parked(ws[i + 1].st)
    requires run[j].at >= run[i].at + cfg.Window()
    ensures i < k <= j && Opened(cfg, ws[k], run[k]) && n in ws[k + 1].active
    ensures forall m | i < m <= k :: n in Parked(ws[m].st)
  {
    k := i + 1;
    while !Opened(cfg, ws[k], run[k])
      invariant i < k <= j && forall m | i < m <= k :: n in Parked(ws[m].st)
      decreases j - k
    {
      HeldRoundParks(cfg, skip, start, ws, run, k);
      if k == j { WaitsLessThanTheWindow(cfg, skip, start, ws, run, i, j, n); }
      k := k + 1;
    }
    OpenedRoundTakesAllRetries(cfg, skip, start, ws, run, k);
  }

  // ---- openings --------------------------------------------------------------------------------

  /** Only the clock opens this round. */
  predicate OpenedByClock(cfg: Config, w: World, e: Event) {
    e.Poll? && Opened(cfg, w, e) && !OpensBySize(cfg, |e.still|, |Held(w, e).unsubmitted|, |e.offered|)
  }

  lemma PollTimes(cfg: Config, skip: set<JobNum>, start: State, ws: seq<World>, run: seq<Event>, i: nat, j: nat)
    requires IsRun(cfg, skip, start, ws, run) && i <= j < |run| && NoRestart(run, i, j + 1)
    ensures run[i].at <= run[j].at
  {
    if i < j { TimesGrow(cfg, skip, start, ws, run, i + 1, j); }
  }

  lemma ClockSinceOpening(cfg: Config, skip: set<JobNum>, start: State, ws: seq<World>, run: seq<Event>, i: nat, j: nat)
    requires IsRun(cfg, skip, start, ws, run) && i < j <= |run| && NoRestart(run, i, j)
    requires ws[i + 1].st.since == None || ws[i + 1].st.since == Some(run[i].at)
    ensures ws[j].st.since.Some? ==> ws[j].st.since.value >= run[i].at
  {
    for k := i + 1 to j
      invariant ws[k].st.since.Some? ==> ws[k].st.since.value >= run[i].at
    {
      SubmitClock(cfg, skip, start, ws, run, k);
      PollTimes(cfg, skip, start, ws, run, i, k);
    }
  }

  /** The gate does not dribble: the clock alone opens it no sooner than a window after any opening. */
  lemma ClockOpeningsAreSpaced(cfg: Config, skip: set<JobNum>, start: State, ws: seq<World>, run: seq<Event>, i: nat, j: nat)
    requires IsRun(cfg, skip, start, ws, run) && i < j < |run| && NoRestart(run, i, j)
    requires Opened(cfg, ws[i], run[i]) && OpenedByClock(cfg, ws[j], run[j])
    ensures run[j].at >= run[i].at + cfg.Window()
  {
    OpeningResetsClock(cfg, skip, ws[i], run[i]);
    ClockSinceOpening(cfg, skip, start, ws, run, i, j);
    TimesGrow(cfg, skip, start, ws, run, i + 1, j);
    InvAlways(cfg, skip, start, ws, run, j);
    HeldIsReady(cfg, skip, ws[j], run[j]);
    HeldKeepsClock(cfg, ws[j], run[j]);
  }

  /** What opens a round whatever the size of a wave: no limit, nothing waiting, or a clock that is due. */
  predicate OpensByItself(cfg: Config, w: World, e: Event)
    requires e.Poll?
  {
    cfg.Unlimited() || |Held(w, e).unsubmitted| + |e.offered| == 0 || Due(cfg, Held(w, e), e.at)
  }

  /**
   The gate does not stick: with nothing active it opens at this poll or the next if the refill fraction is
   a number, and if it is not, only where the size of a wave does not matter.
   */
  lemma OpensWithinTwoPolls(cfg: Config, skip: set<JobNum>, start: State, ws: seq<World>, run: seq<Event>, n: nat)
    requires IsRun(cfg, skip, start, ws, run) && n + 1 < |run|
    requires run[n].Poll? && run[n].readable && run[n].still == {} && run[n + 1].Poll? && run[n + 1].readable
    ensures Opened(cfg, ws[n], run[n]) || Opened(cfg, ws[n + 1], run[n + 1])
            <==> cfg.refillSetting != NotANumber || OpensByItself(cfg, ws[n], run[n]) || OpensByItself(cfg, ws[n + 1], run[n + 1])
  {
    if cfg.refillSetting != NotANumber && !Opened(cfg, ws[n], run[n]) { OpensAtSecondPoll(cfg, skip, start, ws, run, n); }
  }

  lemma OpensAtSecondPoll(cfg: Config, skip: set<JobNum>, start: State, ws: seq<World>, run: seq<Event>, n: nat)
    requires IsRun(cfg, skip, start, ws, run) && n + 1 < |run| && cfg.refillSetting != NotANumber
    requires run[n].Poll? && run[n].readable && run[n].still == {} && run[n + 1].Poll? && run[n + 1].readable
    requires !Opened(cfg, ws[n], run[n])
    ensures Opened(cfg, ws[n + 1], run[n + 1])
  {
    var e, e' := run[n], run[n + 1];
    HeldRoundParks(cfg, skip, start, ws, run, n);
    NothingLeftToOffer(ws[n + 1], e');
    ParkedLength(Held(ws[n], e), e.offered, skip, e.at);
    LiveIs(e.offered, skip);
    NothingActive(cfg, |Held(ws[n], e).unsubmitted|, |e.offered|, |Held(ws[n + 1], e').unsubmitted|);
  }

  lemma NothingLeftToOffer(w: World, e: Event)
    requires e.Poll? && Enabled(w, e) && w.active == {}
    ensures e.still == {} && |e.offered| == 0
  {
    assert Nums(e.offered) == {};
  }

  lemma ParkedLength(st: State, offered: seq<Job>, skip: set<JobNum>, now: real)
    ensures |Park(st, offered, skip, now).unsubmitted| == |st.unsubmitted| + |Live(offered, skip)|
  {}

  /** With nothing running, a wave held back is parked whole, or can no longer be filled. */
  lemma NothingActive(cfg: Config, backlog: nat, retries: nat, backlog': nat)
    requires backlog' <= backlog + retries && cfg.refillSetting != NotANumber
    ensures OpensBySize(cfg, 0, backlog, retries) || OpensBySize(cfg, 0, backlog', 0)
  {
    assert cfg.MinWave().value <= cfg.nParallel as real by { Fraction(cfg.Refill().value, cfg.nParallel as real); }
  }

  lemma Fraction(f: real, n: real)
    requires 0.0 <= f <= 1.0 && n >= 0.0
    ensures f * n <= n
  {}

  // ---- a fraction that is not a number ---------------------------------------------------------

  /** Nothing was ever submitted, so no retry exists and the clock has nothing to run for. */
  ghost predicate Untouched(w: World, start: World) {
    w.active == {} && w.st.attempts == {} && w.st.since == None && w.st.unsubmitted == start.st.unsubmitted
  }

  lemma NothingOffered(w: World, e: Event, start: World)
    requires e.Poll? && Enabled(w, e) && Untouched(w, start)
    ensures e.still == {} && e.offered == [] && Held(w, e) == w.st
  {
    NothingLeftToOffer(w, e);
    assert w.st.attempts + Nums(e.offered) == {};
    assert Offered(w, e) == w.st;
    assert Parked(w.st) == {};
  }

  lemma NeverBySize(cfg: Config, w: World, e: Event)
    requires cfg.refillSetting == NotANumber && !cfg.Unlimited() && w.st.unsubmitted != [] && w.st.since == None
    requires e.Poll? && Held(w, e) == w.st
    ensures !Opened(cfg, w, e)
  {}

  lemma StaysUntouched(cfg: Config, skip: set<JobNum>, w: World, e: Event, start: World)
    requires cfg.refillSetting == NotANumber && !cfg.Unlimited() && start.st.unsubmitted != []
    requires Enabled(w, e) && Untouched(w, start) && Nums(w.st.unsubmitted) !! skip
    ensures Untouched(Step(cfg, skip, w, e), start) && !Opened(cfg, w, e)
  {
    LiveIs(w.st.unsubmitted, skip);
    if e.Poll? {
      NothingOffered(w, e, start);
      NeverBySize(cfg, w, e);
      SubmitIsAfterGate(cfg, skip, w, e);
      assert Park(w.st, [], skip, e.at) == w.st;
    }
  }

  /**
   A production whose fraction is not a number never submits anything: with a limit on its jobs and one of
   them waiting, no round of any run opens the gate, over any polls and restarts.
   */
  lemma {:induction false} NotANumberNeverSubmits(cfg: Config, skip: set<JobNum>, start: State, ws: seq<World>, run: seq<Event>, n: nat)
    requires IsRun(cfg, skip, start, ws, run) && n <= |run|
    requires cfg.refillSetting == NotANumber && !cfg.Unlimited() && Live(start.unsubmitted, skip) != []
    ensures Untouched(ws[n], ws[0]) && ws[n].st.unsubmitted == Live(start.unsubmitted, skip)
    ensures n < |run| ==> !Opened(cfg, ws[n], run[n])
  {
    if n > 0 {
      NotANumberNeverSubmits(cfg, skip, start, ws, run, n - 1);
      InvAlways(cfg, skip, start, ws, run, n - 1);
      StaysUntouched(cfg, skip, ws[n - 1], run[n - 1], ws[0]);
    }
    if n < |run| {
      InvAlways(cfg, skip, start, ws, run, n);
      StaysUntouched(cfg, skip, ws[n], run[n], ws[0]);
    }
  }
}
