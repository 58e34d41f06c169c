/**
 Where the guarantee for healthy jobs ends: on storage that overwrites by deleting and uploading again,
 a listing can miss the flag of a job that is beating, and a job that finished removes it. A flag counted
 before is then read as a job on its way out, and the job is safe for good; one never counted is read as a
 job that never started, and the job is failed once the grace is over -- exactly then, but for old flags
 that others of the job's branches left.
 */
module WatchdogGap {
  import opened Wrappers
  import opened Watchdog
  import opened WatchdogRuns
  import opened WatchdogTiming

  // ---- listings that may miss the flag ---------------------------------------------------------

  ghost predicate MayMiss(flags: map<Branch, int>, branch: Branch, beats: seq<int>, gap: int, at: int)
    requires beats != []
  {
    branch !in flags || Shows(flags, branch, beats, gap, at)
  }

  /** No flag of the job counts, none ever was counted, and the grace is over. */
  predicate NeverStarted(cfg: Config, t: Track, flags: map<Branch, int>, branches: seq<Branch>, now: int, at: int) {
    JudgedAge(t, flags, branches, now, at).None? && !t.flagged && now - t.firstRunning.GetOr(now) >= cfg.Grace()
  }

  /** The flags of the job that count, left by others of its branches, are a threshold old. */
  predicate LeftBehind(cfg: Config, t: Track, flags: map<Branch, int>, branches: seq<Branch>, now: int, at: int) {
    var newest := Newest(flags, branches, t.firstSeen.GetOr(at) - STAMP_RESOLUTION);
    newest.Some? && now - newest.value >= cfg.Stale()
  }

  /** The beating branch has no flag in the listing, and what there is of the job makes it look dead. */
  predicate LooksDead(cfg: Config, t: Track, flags: map<Branch, int>, branches: seq<Branch>, branch: Branch, now: int, at: int) {
    branch !in flags && (NeverStarted(cfg, t, flags, branches, now, at) || LeftBehind(cfg, t, flags, branches, now, at))
  }

  /** The exact condition, for one query of a job one of whose branches beats. */
  lemma StalledExactlyIfMissing(cfg: Config, st: State, t: Track, branches: seq<Branch>, branch: Branch, beats: seq<int>,
                                gap: int, poll: int, at: int)
    requires Beating(beats, gap) && poll >= 60 && gap >= 0 && gap + poll <= cfg.Stale() && branch in branches
    requires st.listing.Some? && MayMiss(st.listing.value.flags, branch, beats, gap, st.listing.value.at)
    requires st.listing.value.at <= at < st.listing.value.at + cfg.Interval() + poll
    requires Paired(cfg, t, poll) && beats[0] <= t.firstSeen.GetOr(at) + cfg.Stale() - poll
    ensures Stalled(cfg, t, st.listing.value.flags, branches, st.listing.value.at, at)
            <==> LooksDead(cfg, t, st.listing.value.flags, branches, branch, st.listing.value.at, at)
  {
    if branch in st.listing.value.flags {
      HealthyIsNotStalled(cfg, st, t, branches, branch, beats, gap, poll, at);
    }
  }

  /** A job of one branch leaves nothing behind: it looks dead exactly if it looks as if it had never started. */
  lemma OneBranchLooksDead(cfg: Config, t: Track, flags: map<Branch, int>, branch: Branch, now: int, at: int)
    ensures LooksDead(cfg, t, flags, [branch], branch, now, at)
            <==> branch !in flags && !t.flagged && now - t.firstRunning.GetOr(now) >= cfg.Grace()
  {
    NewestCounts(flags, [branch], t.firstSeen.GetOr(at) - STAMP_RESOLUTION);
  }

  /** As `Healthy`, but any listing may miss the flag: between delete and upload, or after the branch's end. */
  ghost predicate Beats(cfg: Config, run: seq<Event>, key: Key, branches: seq<Branch>, branch: Branch, beats: seq<int>,
                        gap: int, poll: int)
    requires beats != []
  {
    && branch in branches
    && (forall e <- run :: e.Query? && Reports(e.entries, key) ==> beats[0] <= e.at + cfg.Stale() - poll)
    && (forall e <- run :: e.Callback? && key in e.jobs ==> e.jobs[key].branches == branches)
    && (forall e <- run :: e.Callback? && e.flags.Some? ==> MayMiss(e.flags.value, branch, beats, gap, e.listedAt))
  }

  ghost predicate Understood(cfg: Config, st: State, key: Key, branches: seq<Branch>, branch: Branch, beats: seq<int>,
                             gap: int, poll: int)
    requires beats != []
  {
    && (key in st.byId ==> st.byId[key].branches == branches)
    && (st.listing.Some? ==> MayMiss(st.listing.value.flags, branch, beats, gap, st.listing.value.at))
    && (key in st.firstSeen ==> beats[0] <= st.firstSeen[key] + cfg.Stale() - poll)
  }

  lemma UnderstoodAfterQuery(cfg: Config, st: State, entries: seq<Entry>, at: int, key: Key, branches: seq<Branch>, branch: Branch,
                             beats: seq<int>, gap: int, poll: int)
    requires beats != [] && Understood(cfg, st, key, branches, branch, beats, gap, poll)
    requires Reports(entries, key) ==> beats[0] <= at + cfg.Stale() - poll
    ensures Understood(cfg, AfterQuery(cfg, st, entries, at), key, branches, branch, beats, gap, poll)
  {
    var st' := AfterQuery(cfg, st, entries, at);
    JudgeTracks(cfg, st, entries, at, key);
    assert key in st'.firstSeen ==> st'.firstSeen[key] == TrackOf(st', key).firstSeen.value;
    assert key in st.firstSeen ==> st.firstSeen[key] == TrackOf(st, key).firstSeen.value;
  }

  lemma UnderstoodAfterCallback(cfg: Config, d: Driver, e: Event, key: Key, branches: seq<Branch>, branch: Branch,
                                beats: seq<int>, gap: int, poll: int)
    requires beats != [] && e.Callback? && Understood(cfg, d.st, key, branches, branch, beats, gap, poll)
    requires key in e.jobs ==> e.jobs[key].branches == branches
    requires e.flags.Some? ==> MayMiss(e.flags.value, branch, beats, gap, e.listedAt)
    ensures Understood(cfg, Step(cfg, d, e).st, key, branches, branch, beats, gap, poll)
  {}

  lemma {:induction false} StaysUnderstood(cfg: Config, run: seq<Event>, n: nat, key: Key, branches: seq<Branch>, branch: Branch,
                                          beats: seq<int>, gap: int, poll: int)
    requires n <= |run| && beats != [] && Beats(cfg, run, key, branches, branch, beats, gap, poll)
    ensures Understood(cfg, Before(cfg, run, n).st, key, branches, branch, beats, gap, poll)
  {
    for k := 0 to n
      invariant Understood(cfg, Before(cfg, run, k).st, key, branches, branch, beats, gap, poll)
    {
      var d, e := Before(cfg, run, k), run[k];
      assert e in run;
      if e.Query? {
        UnderstoodAfterQuery(cfg, d.st, e.entries, e.at, key, branches, branch, beats, gap, poll);
      } else {
        UnderstoodAfterCallback(cfg, d, e, key, branches, branch, beats, gap, poll);
      }
    }
  }

  /** What query `n` of a run finds of the job. */
  ghost predicate FoundDead(cfg: Config, run: seq<Event>, n: nat, key: Key, branches: seq<Branch>, branch: Branch)
    requires n < |run|
  {
    var st := Before(cfg, run, n).st;
    && cfg.enabled && st.listing.Some? && key in st.byId && run[n].Query? && Reports(run[n].entries, key)
    && LooksDead(cfg, TrackOf(st, key), st.listing.value.flags, branches, branch, st.listing.value.at, run[n].at)
  }

  /**
   Over every run, a job that beats is failed by a query only if the listing in force misses its flag, and
   either nothing of the job counts, nothing ever did and the grace is over, or all that counts was left by
   others of its branches a threshold ago -- and if so, it is failed unless the fault guard or a cap stands in
   the way.
   */
  lemma {:induction false} FailedExactlyIfMissing(cfg: Config, run: seq<Event>, n: nat, key: Key, branches: seq<Branch>, branch: Branch,
                                                 beats: seq<int>, gap: int, poll: int)
    requires Timely(run, poll) && Beating(beats, gap) && Beats(cfg, run, key, branches, branch, beats, gap, poll)
    requires poll >= 60 && cfg.Interval() > 0 && gap >= 0 && gap + poll <= cfg.Stale() && n < |run|
    ensures key in Condemned(cfg, run, n) ==> FoundDead(cfg, run, n, key, branches, branch)
    ensures FoundDead(cfg, run, n, key, branches, branch) ==>
      Unhindered(cfg, Before(cfg, run, n).st, run[n].entries, run[n].at, key) ==> key in Condemned(cfg, run, n)
  {
    var st, e := Before(cfg, run, n).st, run[n];
    if e.Query? && st.listing.Some? && key in st.byId && Reports(e.entries, key) {
      ClocksAgreeAlways(cfg, run, n, poll);
      ListingIsCurrent(cfg, run, n, poll);
      StaysUnderstood(cfg, run, n, key, branches, branch, beats, gap, poll);
      StalledExactlyIfMissing(cfg, st, TrackOf(st, key), branches, branch, beats, gap, poll, e.at);
      if FoundDead(cfg, run, n, key, branches, branch) && Unhindered(cfg, st, e.entries, e.at, key) {
        SuspectIsCondemned(cfg, st, e.entries, e.at, key);
      }
    }
    if key in Condemned(cfg, run, n) {
      var id :| id in Verdicts(cfg, st, e.entries, e.at) && id.key == key;
      CondemnedByTheRule(cfg, st, e.entries, e.at, id);
    }
  }

  /** Query `i` counted a flag of the job. */
  ghost predicate Counted(cfg: Config, run: seq<Event>, i: nat, key: Key, branches: seq<Branch>) {
    && Sighting(cfg, run, i, key)
    && var flags := Before(cfg, run, i).st.listing.value.flags;
    exists b <- branches :: b in flags && flags[b] >= FirstSeen(cfg, run, i, key) - STAMP_RESOLUTION
  }

  lemma CountingIsRemembered(cfg: Config, run: seq<Event>, i: nat, key: Key, branches: seq<Branch>)
    requires Counted(cfg, run, i, key, branches) && Before(cfg, run, i).st.byId[key].branches == branches
    ensures key !in Condemned(cfg, run, i) ==> TrackOf(Before(cfg, run, i + 1).st, key).flagged
  {
    var st, since := Before(cfg, run, i).st, FirstSeen(cfg, run, i, key) - STAMP_RESOLUTION;
    var b :| b in branches && b in st.listing.value.flags && st.listing.value.flags[b] >= since;
    JudgeTracks(cfg, st, run[i].entries, run[i].at, key);
    NewestIsAtLeast(st.listing.value.flags, branches, since, b);
  }

  /** Only a verdict on the job makes the driver forget that its flag was counted. */
  lemma {:induction false} MarkStays(cfg: Config, run: seq<Event>, i: nat, n: nat, key: Key)
    requires i <= n <= |run| && TrackOf(Before(cfg, run, i).st, key).flagged
    requires forall m :: i <= m < n ==> key !in Condemned(cfg, run, m)
    ensures TrackOf(Before(cfg, run, n).st, key).flagged
  {
    if i < n {
      MarkStays(cfg, run, i, n - 1, key);
      var d, e := Before(cfg, run, n - 1), run[n - 1];
      assert key !in Condemned(cfg, run, n - 1);
      if e.Query? {
        JudgeTracks(cfg, d.st, e.entries, e.at, key);
      } else {
        assert TrackOf(Step(cfg, d, e).st, key) == TrackOf(d.st, key);
      }
    }
  }

  /** The first verdict on the job from event `i` on. */
  lemma {:induction false} FirstVerdict(cfg: Config, run: seq<Event>, i: nat, n: nat, key: Key) returns (m: nat)
    requires i <= n < |run| && key in Condemned(cfg, run, n)
    ensures i <= m <= n && key in Condemned(cfg, run, m) && forall k :: i <= k < m ==> key !in Condemned(cfg, run, k)
  {
    if k :| i <= k < n && key in Condemned(cfg, run, k) { m := FirstVerdict(cfg, run, i, k, key); } else { m := n; }
  }

  /** Whatever flags of the job a listing shows that misses the beating one are younger than the threshold. */
  predicate LeavesNone(cfg: Config, flags: map<Branch, int>, branches: seq<Branch>, branch: Branch, now: int) {
    branch !in flags ==> forall b <- branches :: b in flags ==> now - flags[b] < cfg.Stale()
  }

  /** Each branch removes its flag at its end, as `Heartbeat` does; a job of one branch has none to leave. */
  ghost predicate CleansUp(cfg: Config, run: seq<Event>, branches: seq<Branch>, branch: Branch) {
    forall e <- run :: e.Callback? && e.flags.Some? ==> LeavesNone(cfg, e.flags.value, branches, branch, e.listedAt)
  }

  lemma OneBranchCleansUp(cfg: Config, run: seq<Event>, branch: Branch)
    ensures CleansUp(cfg, run, [branch], branch)
  {}

  lemma {:induction false} StaysClean(cfg: Config, run: seq<Event>, n: nat, branches: seq<Branch>, branch: Branch)
    requires n <= |run| && CleansUp(cfg, run, branches, branch)
    ensures var st := Before(cfg, run, n).st;
      st.listing.Some? ==> LeavesNone(cfg, st.listing.value.flags, branches, branch, st.listing.value.at)
  {
    for k := 0 to n
      invariant var st := Before(cfg, run, k).st;
        st.listing.Some? ==> LeavesNone(cfg, st.listing.value.flags, branches, branch, st.listing.value.at)
    {
      ListingAfter(cfg, Before(cfg, run, k), run[k]);
      assert run[k] in run;
    }
  }

  /** A query leaves the listing in force; a callback may replace it by its own, or by none. */
  lemma ListingAfter(cfg: Config, d: Driver, e: Event)
    ensures var was, now := d.st.listing, Step(cfg, d, e).st.listing;
      now == was || now == None || (e.Callback? && e.flags.Some? && now == Some(Listing(e.listedAt, e.flags.value)))
  {
    if e.Query? { JudgeTracks(cfg, d.st, e.entries, e.at, Key(0, "")); }
  }

  lemma CleanIsNotLeftBehind(cfg: Config, t: Track, flags: map<Branch, int>, branches: seq<Branch>, branch: Branch, now: int, at: int)
    requires LeavesNone(cfg, flags, branches, branch, now) && t.flagged
    ensures !LooksDead(cfg, t, flags, branches, branch, now, at)
  {
    NewestCounts(flags, branches, t.firstSeen.GetOr(at) - STAMP_RESOLUTION);
  }

  /** Having counted a flag at query `i`, no later query is the first to find the job dead. */
  lemma {:induction false} CountedIsNotDead(cfg: Config, run: seq<Event>, i: nat, m: nat, key: Key, branches: seq<Branch>, branch: Branch)
    requires i < m < |run| && Counted(cfg, run, i, key, branches) && Before(cfg, run, i).st.byId[key].branches == branches
    requires forall k :: i <= k < m ==> key !in Condemned(cfg, run, k)
    requires CleansUp(cfg, run, branches, branch)
    ensures !FoundDead(cfg, run, m, key, branches, branch)
  {
    CountingIsRemembered(cfg, run, i, key, branches);
    assert key !in Condemned(cfg, run, i);
    MarkStays(cfg, run, i + 1, m, key);
    StaysClean(cfg, run, m, branches, branch);
    var st := Before(cfg, run, m).st;
    if st.listing.Some? {
      CleanIsNotLeftBehind(cfg, TrackOf(st, key), st.listing.value.flags, branches, branch, st.listing.value.at, run[m].at);
    }
  }

  lemma CountedNowIsNotDead(cfg: Config, t: Track, flags: map<Branch, int>, branches: seq<Branch>, branch: Branch, b: Branch,
                            now: int, at: int)
    requires LeavesNone(cfg, flags, branches, branch, now)
    requires b in branches && b in flags && flags[b] >= t.firstSeen.GetOr(at) - STAMP_RESOLUTION
    ensures !LooksDead(cfg, t, flags, branches, branch, now, at)
  {
    NewestIsAtLeast(flags, branches, t.firstSeen.GetOr(at) - STAMP_RESOLUTION, b);
    NewestCounts(flags, branches, t.firstSeen.GetOr(at) - STAMP_RESOLUTION);
  }

  /** The query that counts a flag does not itself fail the job. */
  lemma CountingIsNoVerdict(cfg: Config, run: seq<Event>, i: nat, key: Key, branches: seq<Branch>, branch: Branch)
    requires i < |run| && Counted(cfg, run, i, key, branches) && CleansUp(cfg, run, branches, branch)
    ensures !FoundDead(cfg, run, i, key, branches, branch)
  {
    var st := Before(cfg, run, i).st;
    var flags := st.listing.value.flags;
    var b :| b in branches && b in flags && flags[b] >= FirstSeen(cfg, run, i, key) - STAMP_RESOLUTION;
    StaysClean(cfg, run, i, branches, branch);
    CountedNowIsNotDead(cfg, TrackOf(st, key), flags, branches, branch, b, st.listing.value.at, run[i].at);
  }

  /** From the query that counts a flag to the first verdict, none finds the job dead. */
  lemma {:induction false} CountedIsNeverDead(cfg: Config, run: seq<Event>, i: nat, m: nat, key: Key, branches: seq<Branch>, branch: Branch)
    requires i <= m < |run| && Counted(cfg, run, i, key, branches) && Before(cfg, run, i).st.byId[key].branches == branches
    requires forall k :: i <= k < m ==> key !in Condemned(cfg, run, k)
    requires CleansUp(cfg, run, branches, branch)
    ensures !FoundDead(cfg, run, m, key, branches, branch)
  {
    if i < m {
      CountedIsNotDead(cfg, run, i, m, key, branches, branch);
    } else {
      CountingIsNoVerdict(cfg, run, i, key, branches, branch);
    }
  }

  lemma {:induction false} BranchesAreKnown(cfg: Config, run: seq<Event>, n: nat, key: Key, branches: seq<Branch>, branch: Branch,
                                           beats: seq<int>, gap: int, poll: int)
    requires n <= |run| && beats != [] && Beats(cfg, run, key, branches, branch, beats, gap, poll)
    ensures key in Before(cfg, run, n).st.byId ==> Before(cfg, run, n).st.byId[key].branches == branches
  {
    StaysUnderstood(cfg, run, n, key, branches, branch, beats, gap, poll);
  }

  /** A job of which a flag was counted once, and which cleans up, is never failed afterwards, whatever later listings miss. */
  lemma CountedOnceIsNeverFailed(cfg: Config, run: seq<Event>, i: nat, n: nat, key: Key, branches: seq<Branch>, branch: Branch,
                                 beats: seq<int>, gap: int, poll: int)
    requires Timely(run, poll) && Beating(beats, gap) && Beats(cfg, run, key, branches, branch, beats, gap, poll)
    requires poll >= 60 && cfg.Interval() > 0 && gap >= 0 && gap + poll <= cfg.Stale()
    requires CleansUp(cfg, run, branches, branch)
    requires Counted(cfg, run, i, key, branches) && i <= n < |run|
    ensures key !in Condemned(cfg, run, n)
  {
    if key in Condemned(cfg, run, n) {
      var m := FirstVerdict(cfg, run, i, n, key);
      BranchesAreKnown(cfg, run, i, key, branches, branch, beats, gap, poll);
      CountedIsNeverDead(cfg, run, i, m, key, branches, branch);
      FailedExactlyIfMissing(cfg, run, m, key, branches, branch, beats, gap, poll);
    }
  }

  /** For a job of one branch nothing else is asked: counted once, it is safe; never counted, it fails when the grace is over. */
  lemma {:induction false} OneBranch(cfg: Config, run: seq<Event>, i: nat, n: nat, key: Key, branch: Branch,
                                     beats: seq<int>, gap: int, poll: int)
    requires Timely(run, poll) && Beating(beats, gap) && Beats(cfg, run, key, [branch], branch, beats, gap, poll)
    requires poll >= 60 && cfg.Interval() > 0 && gap >= 0 && gap + poll <= cfg.Stale() && i <= n < |run|
    ensures Counted(cfg, run, i, key, [branch]) ==> key !in Condemned(cfg, run, n)
    ensures key in Condemned(cfg, run, n) ==>
      var st := Before(cfg, run, n).st;
      && st.listing.Some? && branch !in st.listing.value.flags && !TrackOf(st, key).flagged
      && st.listing.value.at - TrackOf(st, key).firstRunning.GetOr(st.listing.value.at) >= cfg.Grace()
  {
    if Counted(cfg, run, i, key, [branch]) {
      OneBranchCleansUp(cfg, run, branch);
      CountedOnceIsNeverFailed(cfg, run, i, n, key, [branch], branch, beats, gap, poll);
    } else if key in Condemned(cfg, run, n) {
      var st := Before(cfg, run, n).st;
      FailedExactlyIfMissing(cfg, run, n, key, [branch], branch, beats, gap, poll);
      OneBranchLooksDead(cfg, TrackOf(st, key), st.listing.value.flags, branch, st.listing.value.at, run[n].at);
    }
  }

  // ---- and it does happen ----------------------------------------------------------------------

  const CFG := DEFAULTS.(intervalMinutes := 10)
  const KEY := Key(1, "task")
  const ID := JobId(KEY, "project")
  const JOBS := map[KEY := Known("1", [SEVEN])]
  const SEVEN := Branch("7")
  const POLL := 589
  const BEATS := [1190, 1801]
  const NOTHING: Option<map<Branch, int>> := Some(map[])

  /** The flag is written for the second time from 1790 to 1801, and the directory listed at 1800. */
  const RUN := [
    Callback(0, 0, JOBS, NOTHING), Query(580, [Entry(ID, true)]), Callback(580, 580, JOBS, NOTHING),
    Callback(1160, 1160, JOBS, NOTHING), Callback(1740, 1740, JOBS, Some(map[SEVEN := 1140])),
    Callback(1800, 1800, JOBS, NOTHING), Query(1801, [Entry(ID, true)])]

  const LISTED_AT_0 := INITIAL.(listing := Some(Listing(0, map[])), byId := JOBS)
  const SIGHTED := LISTED_AT_0.(firstRunning := map[KEY := 0], firstSeen := map[KEY := 580])
  const LISTED_AT_1800 := SIGHTED.(listing := Some(Listing(1800, map[])))

  lemma FirstSightIsNoVerdict()
    ensures Judge(CFG, LISTED_AT_0, [Entry(ID, true)], None, 580) == (SIGHTED, map[])
  {
    assert Newest(map[], [SEVEN], 520).None?;
    var scan := ScanUpTo(CFG, LISTED_AT_0, [Entry(ID, true)], 1, 0, 580);
    assert scan == Observe(CFG, ScanUpTo(CFG, LISTED_AT_0, [Entry(ID, true)], 0, 0, 580), Entry(ID, true), 0, 580);
    assert scan.suspects == [] && scan.st == SIGHTED;
  }

  lemma RunSights()
    ensures Before(CFG, RUN, 1) == Driver(LISTED_AT_0, Some(0))
    ensures Before(CFG, RUN, 2) == Driver(SIGHTED, Some(0))
  {
    var jobs := map k | k in JOBS && JOBS[k].branches != [] :: JOBS[k];
    assert jobs == JOBS;
    assert Before(CFG, RUN, 0) == Driver(INITIAL, None);
    assert Before(CFG, RUN, 1) == Driver(LISTED_AT_0, Some(0));
    FirstSightIsNoVerdict();
    assert KeysOf(map[]) == {};
    assert Forget(SIGHTED, {}) == SIGHTED;
  }

  lemma RunReaches()
    ensures Before(CFG, RUN, 6) == Driver(LISTED_AT_1800, Some(1800))
  {
    var jobs := map k | k in JOBS && JOBS[k].branches != [] :: JOBS[k];
    assert jobs == JOBS;
    RunSights();
    assert Before(CFG, RUN, 3) == Driver(SIGHTED, Some(0));
    assert Before(CFG, RUN, 4) == Driver(SIGHTED.(listing := Some(Listing(1160, map[]))), Some(1160));
    assert Before(CFG, RUN, 5) == Before(CFG, RUN, 4);
  }

  lemma RunIsTimely()
    ensures Timely(RUN, POLL)
  {}

  lemma LastQueryIsUnhindered()
    ensures Unhindered(CFG, LISTED_AT_1800, [Entry(ID, true)], 1801, KEY)
    ensures Reports([Entry(ID, true)], KEY)
  {
    var st, entries := LISTED_AT_1800, [Entry(ID, true)];
    assert RunningUpTo(st, entries, 0) == 0 && RunningIn(st, entries) <= 1;
    assert StalledUpTo(CFG, st, entries, 0, 1800, 1801) == 0 && StalledIn(CFG, st, entries, 1801) <= 1;
    assert entries[0].running;
  }

  lemma LastQueryCondemns()
    ensures KEY in Condemned(CFG, RUN, 6)
  {
    RunReaches();
    LastQueryIsUnhindered();
    assert Newest(map[], [SEVEN], 520).None?;
    SuspectIsCondemned(CFG, LISTED_AT_1800, [Entry(ID, true)], 1801, KEY);
  }

  lemma BeatsShow()
    ensures Beating(BEATS, 611) && forall e <- RUN :: e.Query? ==> BEATS[0] <= e.at + CFG.Stale() - POLL
    ensures forall e <- RUN :: e.Callback? && e.listedAt != 1800 ==> Shows(e.flags.value, SEVEN, BEATS, 611, e.listedAt)
  {
    assert LastBeat(BEATS, 1740) == LastBeat(BEATS[..1], 1740) == 1190;
  }

  /** Everything `HealthyJobIsNeverFailed` asks for holds, but for the one listing at 1800. */
  lemma OverwriteGapFailsAHealthyJob()
    ensures Accept(Some(CFG)).Ok? && Timely(RUN, POLL) && Beating(BEATS, 611) && 611 + POLL <= CFG.Stale()
    ensures forall e <- RUN :: e.Query? ==> BEATS[0] <= e.at + CFG.Stale() - POLL
    ensures forall e <- RUN :: e.Callback? && e.listedAt != 1800 ==> Shows(e.flags.value, SEVEN, BEATS, 611, e.listedAt)
    ensures KEY in Condemned(CFG, RUN, 6)
  {
    RunIsTimely();
    BeatsShow();
    LastQueryCondemns();
  }
}
