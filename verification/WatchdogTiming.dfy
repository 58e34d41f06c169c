/**
 The two timing guarantees of the watchdog, for every run and every phase: a job that keeps
 beating is never failed, and one that stops is failed within a bound -- and not before it is stale.
 */
module WatchdogTiming {
  import opened Wrappers
  import opened Watchdog
  import opened WatchdogRuns

  // ---- beats -----------------------------------------------------------------------------------

  /** A modification time as the listing shows it: to the minute. */
  function Minute(t: int): int { t - t % 60 }

  /** Landings of a job's beats: in order, never more than `gap` apart. */
  ghost predicate Beating(beats: seq<int>, gap: int) {
    beats != [] && forall i :: 0 < i < |beats| ==> beats[i - 1] <= beats[i] <= beats[i - 1] + gap
  }

  /** The newest beat landed by `t`. */
  function LastBeat(beats: seq<int>, t: int): int
    requires beats != [] && beats[0] <= t
  {
    if beats[|beats| - 1] <= t then beats[|beats| - 1] else LastBeat(beats[..|beats| - 1], t)
  }

  lemma {:induction false} LastBeatIsRecent(beats: seq<int>, gap: int, t: int)
    requires Beating(beats, gap) && beats[0] <= t <= beats[|beats| - 1] + gap
    ensures LastBeat(beats, t) <= t <= LastBeat(beats, t) + gap
  {
    if beats[|beats| - 1] > t { LastBeatIsRecent(beats[..|beats| - 1], gap, t); }
  }

  // ---- what every run keeps --------------------------------------------------------------------

  /** After event `n - 1` is over, and before event `n` begins. */
  ghost predicate ClocksAgree(cfg: Config, run: seq<Event>, n: nat, poll: int)
    requires n <= |run|
  {
    var d, last := Before(cfg, run, n), LastCallback(run, n);
    && (d.lastUpdate.Some? <==> last.Some?)
    && (d.st.listing.Some? ==> last.Some? && cfg.enabled)
    && (last.Some? ==> n > 0 && last.value <= run[n - 1].End())
    && (last.Some? ==> d.lastUpdate.value <= last.value < d.lastUpdate.value + cfg.Interval())
    && (d.st.listing.Some? ==> d.lastUpdate.value <= d.st.listing.value.at <= run[n - 1].End())
    && (forall k :: Paired(cfg, TrackOf(d.st, k), poll))
  }

  /** Both clocks of a job start together: the query reads a listing less than an interval and a poll old. */
  ghost predicate Paired(cfg: Config, t: Track, poll: int) {
    && (t.firstRunning.Some? <==> t.firstSeen.Some?)
    && (t.firstSeen.Some? ==>
          t.firstRunning.value <= t.firstSeen.value < t.firstRunning.value + cfg.Interval() + poll)
  }

  /** A query never reads a listing an interval and a poll old, however the phases fall. */
  lemma {:induction false} ListingIsCurrent(cfg: Config, run: seq<Event>, n: nat, poll: int)
    requires n < |run| && Timely(run, poll) && ClocksAgree(cfg, run, n, poll)
    requires Before(cfg, run, n).st.listing.Some?
    ensures Before(cfg, run, n).st.listing.value.at <= run[n].at
      < Before(cfg, run, n).st.listing.value.at + cfg.Interval() + poll
  {}

  lemma JudgeTracks(cfg: Config, st: State, entries: seq<Entry>, at: int, key: Key)
    ensures var st' := AfterQuery(cfg, st, entries, at);
      && st'.listing == st.listing && st'.byId == st.byId
      && TrackOf(st', key) ==
         (if key in KeysOf(Verdicts(cfg, st, entries, at)) then Track(None, None, false)
          else if cfg.enabled && st.listing.Some? && key in st.byId && Reports(entries, key)
          then Sighted(TrackOf(st, key), st.listing.value.flags, st.byId[key].branches, st.listing.value.at, at)
          else TrackOf(st, key))
  {
    if cfg.enabled && st.listing.Some? {
      ScanTracks(cfg, st, entries, |entries|, st.listing.value.at, at, key);
      assert entries[..|entries|] == entries;
    }
  }

  lemma ClocksAfterCallback(cfg: Config, run: seq<Event>, n: nat, poll: int)
    requires n < |run| && Timely(run, poll) && ClocksAgree(cfg, run, n, poll)
    requires run[n].Callback? && cfg.Interval() > 0
    ensures ClocksAgree(cfg, run, n + 1, poll)
  {
    var d, d' := Before(cfg, run, n), Before(cfg, run, n + 1);
    assert n > 0 ==> run[n - 1].End() <= run[n].at;
    forall k ensures Paired(cfg, TrackOf(d'.st, k), poll) {
      assert TrackOf(d'.st, k) == TrackOf(d.st, k);
    }
  }

  lemma ClocksAfterQuery(cfg: Config, run: seq<Event>, n: nat, poll: int)
    requires n < |run| && Timely(run, poll) && ClocksAgree(cfg, run, n, poll)
    requires run[n].Query?
    ensures ClocksAgree(cfg, run, n + 1, poll)
  {
    var d, e := Before(cfg, run, n), run[n];
    var st' := AfterQuery(cfg, d.st, e.entries, e.at);
    assert n > 0 ==> run[n - 1].End() <= e.at;
    forall k ensures Paired(cfg, TrackOf(st', k), poll) {
      JudgeTracks(cfg, d.st, e.entries, e.at, k);
      assert Paired(cfg, TrackOf(d.st, k), poll);
      if d.st.listing.Some? { ListingIsCurrent(cfg, run, n, poll); }
    }
    JudgeTracks(cfg, d.st, e.entries, e.at, Key(0, ""));
  }

  lemma ClocksAgreeAlways(cfg: Config, run: seq<Event>, n: nat, poll: int)
    requires n <= |run| && Timely(run, poll) && cfg.Interval() > 0
    ensures ClocksAgree(cfg, run, n, poll)
  {
    for k := 0 to n
      invariant ClocksAgree(cfg, run, k, poll)
    {
      if run[k].Query? { ClocksAfterQuery(cfg, run, k, poll); } else { ClocksAfterCallback(cfg, run, k, poll); }
    }
  }

  // ---- a healthy job ---------------------------------------------------------------------------

  /** The storage shows the job's newest beat, or a newer write; before the first beat, anything. */
  ghost predicate Shows(flags: map<Branch, int>, branch: Branch, beats: seq<int>, gap: int, at: int)
    requires beats != []
  {
    beats[0] <= at ==>
      at <= beats[|beats| - 1] + gap && branch in flags && flags[branch] >= Minute(LastBeat(beats, at))
  }

  /**
   Job `key` beats for `branch` throughout the run. Nothing is assumed of the flag before the first
   beat: an earlier attempt may have left one under the same name, and may even still write it.
   */
  ghost predicate Healthy(cfg: Config, run: seq<Event>, key: Key, branch: Branch, beats: seq<int>, gap: int, poll: int)
    requires beats != []
  {
    && (forall e <- run :: e.Query? && Reports(e.entries, key) ==> beats[0] <= e.at + cfg.Stale() - poll)
    && (forall e <- run :: e.Callback? && key in e.jobs ==> branch in e.jobs[key].branches)
    && (forall e <- run :: e.Callback? && e.flags.Some? ==> Shows(e.flags.value, branch, beats, gap, e.listedAt))
  }

  lemma {:induction false} NewestIsAtLeast(flags: map<Branch, int>, branches: seq<Branch>, since: int, b: Branch)
    requires b in branches && b in flags && flags[b] >= since
    ensures Newest(flags, branches, since).Some? && Newest(flags, branches, since).value >= flags[b]
  {
    if branches[0] != b { NewestIsAtLeast(flags, branches[1..], since, b); }
    else if b in branches[1..] { NewestIsAtLeast(flags, branches[1..], since, b); }
  }

  lemma {:induction false} NewestCounts(flags: map<Branch, int>, branches: seq<Branch>, since: int)
    ensures var s := Newest(flags, branches, since);
      s.Some? ==> s.value >= since && exists b <- branches :: b in flags && flags[b] == s.value
  {
    if branches != [] { NewestCounts(flags, branches[1..], since); }
  }

  /** What the driver knows of a healthy job before each event. */
  ghost predicate Watched(cfg: Config, st: State, key: Key, branch: Branch, beats: seq<int>, gap: int, poll: int)
    requires beats != []
  {
    && (key in st.byId ==> branch in st.byId[key].branches)
    && (st.listing.Some? ==> Shows(st.listing.value.flags, branch, beats, gap, st.listing.value.at))
    && (key in st.firstSeen ==> beats[0] <= st.firstSeen[key] + cfg.Stale() - poll)
  }

  /** The heart of the matter: on any such state, no query finds the job stalled. */
  lemma HealthyIsNotStalled(cfg: Config, st: State, t: Track, branches: seq<Branch>, branch: Branch,
                            beats: seq<int>, gap: int, poll: int, at: int)
    requires Beating(beats, gap) && poll >= 60 && gap >= 0 && gap + poll <= cfg.Stale() && branch in branches
    requires st.listing.Some? && Shows(st.listing.value.flags, branch, beats, gap, st.listing.value.at)
    requires st.listing.value.at <= at < st.listing.value.at + cfg.Interval() + poll
    requires Paired(cfg, t, poll)
    requires beats[0] <= t.firstSeen.GetOr(at) + cfg.Stale() - poll
    ensures !Stalled(cfg, t, st.listing.value.flags, branches, st.listing.value.at, at)
  {
    var now, flags := st.listing.value.at, st.listing.value.flags;
    var since := t.firstSeen.GetOr(at) - STAMP_RESOLUTION;
    NewestCounts(flags, branches, since);
    if beats[0] <= now {
      LastBeatIsRecent(beats, gap, now);
      if flags[branch] >= since { NewestIsAtLeast(flags, branches, since, branch); }
    }
  }

  lemma WatchedAfterQuery(cfg: Config, st: State, entries: seq<Entry>, at: int, key: Key, branch: Branch,
                          beats: seq<int>, gap: int, poll: int)
    requires beats != [] && Watched(cfg, st, key, branch, beats, gap, poll)
    requires Reports(entries, key) ==> beats[0] <= at + cfg.Stale() - poll
    ensures Watched(cfg, AfterQuery(cfg, st, entries, at), key, branch, beats, gap, poll)
  {
    var st' := AfterQuery(cfg, st, entries, at);
    JudgeTracks(cfg, st, entries, at, key);
    assert key in st'.firstSeen ==> st'.firstSeen[key] == TrackOf(st', key).firstSeen.value;
    assert key in st.firstSeen ==> st.firstSeen[key] == TrackOf(st, key).firstSeen.value;
  }

  lemma WatchedAfterCallback(cfg: Config, d: Driver, e: Event, key: Key, branch: Branch, beats: seq<int>, gap: int, poll: int)
    requires beats != [] && e.Callback? && Watched(cfg, d.st, key, branch, beats, gap, poll)
    requires key in e.jobs ==> branch in e.jobs[key].branches
    requires e.flags.Some? ==> Shows(e.flags.value, branch, beats, gap, e.listedAt)
    ensures Watched(cfg, Step(cfg, d, e).st, key, branch, beats, gap, poll)
  {}

  lemma {:induction false} HealthyStaysWatched(cfg: Config, run: seq<Event>, n: nat, key: Key, branch: Branch, beats: seq<int>,
                                              gap: int, poll: int)
    requires n <= |run| && beats != [] && Healthy(cfg, run, key, branch, beats, gap, poll)
    ensures Watched(cfg, Before(cfg, run, n).st, key, branch, beats, gap, poll)
  {
    for k := 0 to n
      invariant Watched(cfg, Before(cfg, run, k).st, key, branch, beats, gap, poll)
    {
      var e := run[k];
      assert e in run;
      if e.Query? {
        WatchedAfterQuery(cfg, Before(cfg, run, k).st, e.entries, e.at, key, branch, beats, gap, poll);
      } else {
        WatchedAfterCallback(cfg, Before(cfg, run, k), e, key, branch, beats, gap, poll);
      }
    }
  }

  /**
   No run, at any phase, fails a job whose beats land at most `gap` apart, if `gap + poll` stays
   within the threshold and the first beat lands within the threshold less a poll of every
   sighting. Other jobs, failed listings and flags of earlier attempts may do what they like.
   */
  lemma HealthyJobIsNeverFailed(cfg: Config, run: seq<Event>, key: Key, branch: Branch,
                                beats: seq<int>, gap: int, poll: int)
    requires Timely(run, poll) && Beating(beats, gap) && Healthy(cfg, run, key, branch, beats, gap, poll)
    requires poll >= 60 && cfg.Interval() > 0 && gap >= 0 && gap + poll <= cfg.Stale()
    ensures forall n :: 0 <= n < |run| ==> key !in Condemned(cfg, run, n)
  {
    forall n | 0 <= n < |run| && key in Condemned(cfg, run, n) ensures false {
      var st, e := Before(cfg, run, n).st, run[n];
      var id :| id in Verdicts(cfg, st, e.entries, e.at) && id.key == key;
      CondemnedByTheRule(cfg, st, e.entries, e.at, id);
      ClocksAgreeAlways(cfg, run, n, poll);
      ListingIsCurrent(cfg, run, n, poll);
      HealthyStaysWatched(cfg, run, n, key, branch, beats, gap, poll);
      assert Reports(e.entries, key);
      HealthyIsNotStalled(cfg, st, TrackOf(st, key), st.byId[key].branches, branch, beats, gap, poll, e.at);
    }
  }

  // ---- a job that stopped ----------------------------------------------------------------------

  /** The job's flags show nothing after `stop`, and one of them still counts. */
  ghost predicate Stopped(flags: map<Branch, int>, branches: seq<Branch>, stop: int, since: int) {
    && (forall b <- branches :: b in flags ==> flags[b] <= stop)
    && (exists b <- branches :: b in flags && flags[b] >= since)
  }

  /** Query `i` saw the job running, on a listing that worked. */
  ghost predicate Sighting(cfg: Config, run: seq<Event>, i: nat, key: Key) {
    && i < |run| && run[i].Query? && Reports(run[i].entries, key)
    && var st := Before(cfg, run, i).st; cfg.enabled && st.listing.Some? && key in st.byId
  }

  /** From `stop` on the listings work, show the job's flag as it was left, and law still names the job. */
  ghost predicate StopsBeating(run: seq<Event>, key: Key, branches: seq<Branch>, stop: int, since: int) {
    forall e <- run :: e.Callback? && e.listedAt >= stop ==>
      && e.flags.Some? && Stopped(e.flags.value, branches, stop, since)
      && key in e.jobs && e.jobs[key].branches == branches && branches != []
  }

  /** When the attempt sighted by query `i` was first seen running. */
  function FirstSeen(cfg: Config, run: seq<Event>, i: nat, key: Key): int
    requires i < |run|
  {
    TrackOf(Before(cfg, run, i).st, key).firstSeen.GetOr(run[i].at)
  }

  lemma {:induction false} SightingLasts(cfg: Config, run: seq<Event>, i: nat, n: nat, key: Key)
    requires Sighting(cfg, run, i, key) && i < n <= |run|
    requires forall m :: i <= m < n ==> key !in Condemned(cfg, run, m)
    ensures TrackOf(Before(cfg, run, n).st, key).firstSeen == Some(FirstSeen(cfg, run, i, key))
  {
    var d, e := Before(cfg, run, n - 1), run[n - 1];
    if i < n - 1 { SightingLasts(cfg, run, i, n - 1, key); }
    if e.Query? {
      JudgeTracks(cfg, d.st, e.entries, e.at, key);
      assert key !in Condemned(cfg, run, n - 1);
    } else {
      assert TrackOf(Step(cfg, d, e).st, key) == TrackOf(d.st, key);
    }
  }

  /** Every listing in force was taken after the stop, once enough time has passed. */
  ghost predicate KnowsTheStop(d: Driver, last: Option<int>, key: Key, branches: seq<Branch>, stop: int, since: int) {
    && (d.lastUpdate.Some? && d.lastUpdate.value >= stop ==>
          d.st.listing.Some? && Stopped(d.st.listing.value.flags, branches, stop, since))
    && (last.Some? && last.value >= stop ==>
          key in d.st.byId && d.st.byId[key].branches == branches && branches != [])
  }

  lemma StopStaysLearnt(cfg: Config, d: Driver, last: Option<int>, e: Event, key: Key, branches: seq<Branch>,
                        stop: int, since: int)
    requires cfg.enabled && KnowsTheStop(d, last, key, branches, stop, since) && e.at <= e.End()
    requires e.Callback? && e.listedAt >= stop ==>
      && e.flags.Some? && Stopped(e.flags.value, branches, stop, since)
      && key in e.jobs && e.jobs[key].branches == branches && branches != []
    ensures KnowsTheStop(Step(cfg, d, e), if e.Callback? then Some(e.at) else last, key, branches, stop, since)
  {
    if e.Query? { JudgeTracks(cfg, d.st, e.entries, e.at, key); }
  }

  lemma {:induction false} StopIsLearnt(cfg: Config, run: seq<Event>, n: nat, key: Key, branches: seq<Branch>,
                                        stop: int, since: int, poll: int)
    requires n <= |run| && cfg.enabled && Timely(run, poll) && StopsBeating(run, key, branches, stop, since)
    ensures KnowsTheStop(Before(cfg, run, n), LastCallback(run, n), key, branches, stop, since)
  {
    for k := 0 to n
      invariant KnowsTheStop(Before(cfg, run, k), LastCallback(run, k), key, branches, stop, since)
    {
      assert run[k] in run;
      StopStaysLearnt(cfg, Before(cfg, run, k), LastCallback(run, k), run[k], key, branches, stop, since);
    }
  }

  /** Fewer than ten run, or no more than the fraction of them are stalled. */
  predicate Plausible(fraction: real, running: nat, stalled: nat) {
    running < 10 || stalled as real <= fraction * running as real
  }

  ghost predicate Credible(cfg: Config, st: State, entries: seq<Entry>, at: int)
    requires st.listing.Some?
  {
    Plausible(cfg.maxStaleFraction, RunningIn(st, entries), StalledIn(cfg, st, entries, at))
  }

  /**
   Neither the fault guard nor a cap stands in the way of condemning `key` at this query: few jobs run or few
   enough of them are stalled, and the verdicts left are enough for all of those. That no other watched
   job runs one of its branches is law's own doing; such a job could use up the branch's verdicts.
   */
  ghost predicate Unhindered(cfg: Config, st: State, entries: seq<Entry>, at: int, key: Key)
    requires st.listing.Some? && key in st.byId
  {
    && !cfg.dryRun
    && Credible(cfg, st, entries, at)
    && st.issued + StalledIn(cfg, st, entries, at) <= cfg.maxPerInterval
    && cfg.maxPerBranch > 0 && (forall b <- st.byId[key].branches :: Count(st.perBranch, b) < cfg.maxPerBranch)
    && (forall k <- st.byId :: k != key ==> forall b <- st.byId[k].branches :: b !in st.byId[key].branches)
  }

  lemma {:induction false} RescuedLess(perBranch: map<Branch, nat>, branches: seq<Branch>, cap: int)
    requires cap > 0 && forall b <- branches :: Count(perBranch, b) < cap
    ensures MostRescued(perBranch, branches) < cap
  {
    if branches != [] { RescuedLess(perBranch, branches[1..], cap); }
  }

  /** More than a fraction of them, and more than its whole part: the same, once there is any. */
  lemma TruncIsExact(x: real, n: nat)
    requires n > 0
    ensures n > Trunc(x) <==> n as real > x
  {}

  lemma FaultIs(cfg: Config, running: nat, stalled: nat)
    requires stalled > 0
    ensures StorageFault(cfg, running, stalled) <==> !Plausible(cfg.maxStaleFraction, running, stalled)
  {
    TruncIsExact(cfg.maxStaleFraction * running as real, stalled);
  }

  lemma {:induction false} ChargeElsewhere(perBranch: map<Branch, nat>, charged: seq<Branch>, n: nat, branches: seq<Branch>)
    requires n <= |charged| && forall b <- charged :: b !in branches
    ensures MostRescued(Charge(perBranch, charged, n), branches) == MostRescued(perBranch, branches)
  {
    if n > 0 {
      ChargeElsewhere(perBranch, charged, n - 1, branches);
      OneMoreElsewhere(Charge(perBranch, charged, n - 1), charged[n - 1], branches);
    }
  }

  lemma {:induction false} OneMoreElsewhere(perBranch: map<Branch, nat>, b: Branch, branches: seq<Branch>)
    requires b !in branches
    ensures MostRescued(perBranch[b := Count(perBranch, b) + 1], branches) == MostRescued(perBranch, branches)
  {
    if branches != [] { OneMoreElsewhere(perBranch, b, branches[1..]); }
  }

  /** Under the caps, a suspect is condemned whatever its place in the order. */
  lemma {:induction false} UnhinderedIsIssued(cfg: Config, start: Issue, suspects: seq<Suspect>, n: nat, key: Key,
                                          branches: seq<Branch>)
    requires n <= |suspects| && !cfg.dryRun && start.issued + |suspects| <= cfg.maxPerInterval
    requires MostRescued(start.perBranch, branches) < cfg.maxPerBranch
    requires forall s <- suspects ::
      if s.id.key == key then s.branches == branches else forall b <- s.branches :: b !in branches
    ensures var i := IssueUpTo(cfg, start, suspects, n);
      && i.issued <= start.issued + n
      && (if exists s <- suspects[..n] :: s.id.key == key then key in KeysOf(i.out)
          else MostRescued(i.perBranch, branches) == MostRescued(start.perBranch, branches))
  {
    if n > 0 {
      UnhinderedIsIssued(cfg, start, suspects, n - 1, key, branches);
      var i, s := IssueUpTo(cfg, start, suspects, n - 1), suspects[n - 1];
      assert suspects[..n] == suspects[..n - 1] + [s];
      assert s in suspects;
      var i' := IssueOne(cfg, i, s);
      forall id <- i.out ensures id in i'.out {}
      if s.id.key == key {
        assert key in KeysOf(i.out) || s.id in i'.out;
      } else {
        ChargeElsewhere(i.perBranch, s.branches, |s.branches|, branches);
      }
    }
  }

  lemma SuspectBranches(cfg: Config, st: State, s: Suspect, now: int, at: int, key: Key)
    requires st.listing.Some? && key in st.byId && SuspectOf(cfg, st, s, now, at)
    requires forall k <- st.byId :: k != key ==> forall b <- st.byId[k].branches :: b !in st.byId[key].branches
    ensures if s.id.key == key then s.branches == st.byId[key].branches
            else forall b <- s.branches :: b !in st.byId[key].branches
  {}

  /** What a query sorts and issues verdicts from. */
  function Sorted(cfg: Config, st: State, entries: seq<Entry>, at: int): seq<Suspect>
    requires st.listing.Some?
  {
    SortByJobNum(ScanUpTo(cfg, st, entries, |entries|, st.listing.value.at, at).suspects)
  }

  lemma StalledIsSorted(cfg: Config, st: State, entries: seq<Entry>, at: int, key: Key)
    requires st.listing.Some? && key in st.byId && Reports(entries, key)
    requires Stalled(cfg, TrackOf(st, key), st.listing.value.flags, st.byId[key].branches, st.listing.value.at, at)
    ensures exists s <- Sorted(cfg, st, entries, at) :: s.id.key == key
  {
    var now := st.listing.value.at;
    var suspects := ScanUpTo(cfg, st, entries, |entries|, now, at).suspects;
    SortMembers(suspects);
    ScanSuspects(cfg, st, entries, |entries|, now, at);
    assert entries[..|entries|] == entries;
    var i :| 0 <= i < |entries| && entries[i].running && entries[i].id.key == key;
    assert entries[i] in entries;
    assert SuspectFor(st, entries[i], now, at) in suspects;
  }

  lemma SortedAreApart(cfg: Config, st: State, entries: seq<Entry>, at: int, key: Key)
    requires st.listing.Some? && key in st.byId
    requires forall k <- st.byId :: k != key ==> forall b <- st.byId[k].branches :: b !in st.byId[key].branches
    ensures forall s <- Sorted(cfg, st, entries, at) ::
      if s.id.key == key then s.branches == st.byId[key].branches
      else forall b <- s.branches :: b !in st.byId[key].branches
  {
    var now := st.listing.value.at;
    var suspects := ScanUpTo(cfg, st, entries, |entries|, now, at).suspects;
    SortMembers(suspects);
    ScanSuspects(cfg, st, entries, |entries|, now, at);
    forall s <- Sorted(cfg, st, entries, at)
      ensures if s.id.key == key then s.branches == st.byId[key].branches
              else forall b <- s.branches :: b !in st.byId[key].branches
    {
      SuspectBranches(cfg, st, s, now, at, key);
    }
  }

  lemma {:induction false} JudgeIssues(cfg: Config, st: State, entries: seq<Entry>, at: int, scan: Scan, sorted: seq<Suspect>)
    requires cfg.enabled && st.listing.Some? && scan == ScanUpTo(cfg, st, entries, |entries|, st.listing.value.at, at)
    requires scan.suspects != [] && !StorageFault(cfg, scan.running, |scan.suspects|)
    requires sorted == Sorted(cfg, st, entries, at)
    ensures var i := IssueUpTo(cfg, Issue(scan.st.perBranch, scan.st.issued, map[]), sorted, |sorted|);
      Judge(cfg, st, entries, None, at) == (scan.st.(perBranch := i.perBranch, issued := i.issued), i.out)
  {}

  lemma {:induction false} JudgeStops(cfg: Config, st: State, entries: seq<Entry>, at: int, scan: Scan)
    requires cfg.enabled && st.listing.Some? && scan == ScanUpTo(cfg, st, entries, |entries|, st.listing.value.at, at)
    requires scan.suspects == [] || StorageFault(cfg, scan.running, |scan.suspects|)
    ensures Judge(cfg, st, entries, None, at) == (scan.st, map[])
  {}

  lemma {:induction false} ScanOfQuery(cfg: Config, st: State, entries: seq<Entry>, at: int)
    requires st.listing.Some?
    ensures var scan := ScanUpTo(cfg, st, entries, |entries|, st.listing.value.at, at);
      && |scan.suspects| == |Sorted(cfg, st, entries, at)| == StalledIn(cfg, st, entries, at)
      && scan.running == RunningIn(st, entries)
      && scan.st.perBranch == st.perBranch && scan.st.issued == st.issued
  {
    var scan := ScanUpTo(cfg, st, entries, |entries|, st.listing.value.at, at);
    ScanCounts(cfg, st, entries, |entries|, st.listing.value.at, at);
    ScanTracks(cfg, st, entries, |entries|, st.listing.value.at, at, Key(0, ""));
    SortMembers(scan.suspects);
  }

  lemma CredibleIsNoFault(cfg: Config, st: State, entries: seq<Entry>, at: int)
    requires st.listing.Some? && StalledIn(cfg, st, entries, at) > 0
    ensures Credible(cfg, st, entries, at) <==> !StorageFault(cfg, RunningIn(st, entries), StalledIn(cfg, st, entries, at))
  {
    FaultIs(cfg, RunningIn(st, entries), StalledIn(cfg, st, entries, at));
  }

  /** What a query leaves of the caps, and what it answers. */
  ghost predicate Answers(cfg: Config, st: State, entries: seq<Entry>, at: int, i: Issue) {
    && Verdicts(cfg, st, entries, at) == i.out
    && AfterQuery(cfg, st, entries, at).issued == i.issued && AfterQuery(cfg, st, entries, at).perBranch == i.perBranch
  }

  /** A query that is enabled, has a listing and finds no fault answers what issuing to its suspects gives. */
  lemma {:induction false} QueryIssues(cfg: Config, st: State, entries: seq<Entry>, at: int)
    requires cfg.enabled && st.listing.Some? && Credible(cfg, st, entries, at)
    ensures var sorted := Sorted(cfg, st, entries, at);
      && |sorted| == StalledIn(cfg, st, entries, at)
      && Answers(cfg, st, entries, at, IssueUpTo(cfg, Issue(st.perBranch, st.issued, map[]), sorted, |sorted|))
  {
    var scan, sorted := ScanUpTo(cfg, st, entries, |entries|, st.listing.value.at, at), Sorted(cfg, st, entries, at);
    ScanOfQuery(cfg, st, entries, at);
    if scan.suspects == [] {
      JudgeStops(cfg, st, entries, at, scan);
    } else {
      CredibleIsNoFault(cfg, st, entries, at);
      JudgeIssues(cfg, st, entries, at, scan, sorted);
    }
  }

  lemma {:induction false} StoppedAnswers(cfg: Config, st: State, entries: seq<Entry>, at: int, scan: Scan)
    requires cfg.enabled && st.listing.Some? && scan == ScanUpTo(cfg, st, entries, |entries|, st.listing.value.at, at)
    requires scan.suspects == [] || StorageFault(cfg, scan.running, |scan.suspects|)
    requires scan.st.perBranch == st.perBranch && scan.st.issued == st.issued
    ensures Answers(cfg, st, entries, at, Issue(st.perBranch, st.issued, map[]))
  {
    JudgeStops(cfg, st, entries, at, scan);
  }

  /**
   The storage-fault guard: with ten watched jobs running or more, and more than the fraction of them stalled
   at once, a query condemns nobody and spends nothing.
   */
  lemma FaultSilencesQuery(cfg: Config, st: State, entries: seq<Entry>, at: int)
    requires cfg.enabled && st.listing.Some? && !Credible(cfg, st, entries, at)
    ensures Answers(cfg, st, entries, at, Issue(st.perBranch, st.issued, map[]))
  {
    var scan := ScanUpTo(cfg, st, entries, |entries|, st.listing.value.at, at);
    ScanOfQuery(cfg, st, entries, at);
    if StalledIn(cfg, st, entries, at) > 0 { CredibleIsNoFault(cfg, st, entries, at); }
    StoppedAnswers(cfg, st, entries, at, scan);
  }

  lemma SuspectIsCondemned(cfg: Config, st: State, entries: seq<Entry>, at: int, key: Key)
    requires cfg.enabled && st.listing.Some? && key in st.byId && Reports(entries, key)
    requires Stalled(cfg, TrackOf(st, key), st.listing.value.flags, st.byId[key].branches, st.listing.value.at, at)
    requires Unhindered(cfg, st, entries, at, key)
    ensures key in KeysOf(Verdicts(cfg, st, entries, at))
  {
    var sorted := Sorted(cfg, st, entries, at);
    QueryIssues(cfg, st, entries, at);
    RescuedLess(st.perBranch, st.byId[key].branches, cfg.maxPerBranch);
    StalledIsSorted(cfg, st, entries, at, key);
    SortedAreApart(cfg, st, entries, at, key);
    assert sorted[..|sorted|] == sorted;
    UnhinderedIsIssued(cfg, Issue(st.perBranch, st.issued, map[]), sorted, |sorted|, key, st.byId[key].branches);
  }

  /** A counted flag that has not moved since `stop`, listed a threshold later, is stalled. */
  lemma StoppedIsStalled(cfg: Config, t: Track, flags: map<Branch, int>, branches: seq<Branch>, stop: int, now: int, at: int)
    requires t.firstSeen.Some? && Stopped(flags, branches, stop, t.firstSeen.value - STAMP_RESOLUTION)
    requires now >= stop + cfg.Stale()
    ensures Stalled(cfg, t, flags, branches, now, at)
  {
    var since := t.firstSeen.value - STAMP_RESOLUTION;
    NewestCounts(flags, branches, since);
    var b :| b in branches && b in flags && flags[b] >= since;
    NewestIsAtLeast(flags, branches, since, b);
  }

  /** Late enough, the listing in force was taken a threshold after the stop, by a driver that knows the job. */
  lemma {:induction false} LateQueryKnows(cfg: Config, run: seq<Event>, i: nat, n: nat, key: Key, branches: seq<Branch>,
                                         stop: int, since: int, poll: int)
    requires Timely(run, poll) && cfg.Interval() > 0 && cfg.Stale() >= 0
    requires Sighting(cfg, run, i, key) && i < n < |run| && StopsBeating(run, key, branches, stop, since)
    requires run[n].at >= stop + cfg.Grace() + poll
    ensures var st := Before(cfg, run, n).st;
      && st.listing.Some? && st.listing.value.at >= stop + cfg.Stale()
      && Stopped(st.listing.value.flags, branches, stop, since)
      && key in st.byId && st.byId[key].branches == branches
  {
    ClocksAgreeAlways(cfg, run, i, poll);
    ClocksAgreeAlways(cfg, run, n, poll);
    CallbacksStay(run, i, n);
    StopIsLearnt(cfg, run, n, key, branches, stop, since, poll);
  }

  /**
   A job still reported running whose beats stopped at `stop` is condemned no later than the
   threshold, one interval and two polls afterwards: some query of each poll-long window reports
   it, the window here being the last one the bound leaves.
   */
  lemma {:induction false} StalledJobIsDetected(cfg: Config, run: seq<Event>, i: nat, n: nat, key: Key, branches: seq<Branch>,
                                               stop: int, poll: int)
    requires Timely(run, poll) && cfg.Interval() > 0 && cfg.Stale() >= 0
    requires Sighting(cfg, run, i, key) && i < n < |run|
    requires StopsBeating(run, key, branches, stop, FirstSeen(cfg, run, i, key) - STAMP_RESOLUTION)
    requires run[n].Query? && Reports(run[n].entries, key)
    requires stop + cfg.Grace() + poll <= run[n].at <= stop + cfg.Grace() + 2 * poll
    requires var st := Before(cfg, run, n).st;
      st.listing.Some? && key in st.byId ==> Unhindered(cfg, st, run[n].entries, run[n].at, key)
    ensures exists m :: i <= m <= n && key in Condemned(cfg, run, m) && run[m].at <= stop + cfg.Grace() + 2 * poll
  {
    if forall m :: i <= m < n ==> key !in Condemned(cfg, run, m) {
      var since := FirstSeen(cfg, run, i, key) - STAMP_RESOLUTION;
      SightingLasts(cfg, run, i, n, key);
      LateQueryKnows(cfg, run, i, n, key, branches, stop, since, poll);
      var st := Before(cfg, run, n).st;
      StoppedIsStalled(cfg, TrackOf(st, key), st.listing.value.flags, branches, stop, st.listing.value.at, run[n].at);
      SuspectIsCondemned(cfg, st, run[n].entries, run[n].at, key);
    } else {
      var m :| i <= m < n && key in Condemned(cfg, run, m);
      TimeAdvances(run, poll, m, n);
    }
  }

  // ---- a job that never beats ------------------------------------------------------------------

  /** No flag of the job counts: there is none, or only older ones an earlier attempt left. */
  ghost predicate Silent(flags: map<Branch, int>, branches: seq<Branch>, since: int) {
    forall b <- branches :: b in flags ==> flags[b] < since
  }

  lemma {:induction false} SilentHasNoAge(flags: map<Branch, int>, branches: seq<Branch>, since: int)
    requires Silent(flags, branches, since)
    ensures Newest(flags, branches, since).None?
  {
    if branches != [] { SilentHasNoAge(flags, branches[1..], since); }
  }

  /** When the listing was taken on which query `i` saw the job running. */
  function FirstRunning(cfg: Config, run: seq<Event>, i: nat, key: Key): int
    requires Sighting(cfg, run, i, key)
  {
    var st := Before(cfg, run, i).st;
    TrackOf(st, key).firstRunning.GetOr(st.listing.value.at)
  }

  /** The driver knows the job and a listing that works, on which no flag of it counts. */
  ghost predicate SilentState(st: State, key: Key, branches: seq<Branch>, since: int) {
    && st.listing.Some? && Silent(st.listing.value.flags, branches, since)
    && key in st.byId && st.byId[key].branches == branches && key !in st.seenFlag
  }

  /** From query `i` to event `n` every listing works and stays silent, and law still names the job. */
  ghost predicate StaysSilent(run: seq<Event>, i: nat, n: nat, key: Key, branches: seq<Branch>, since: int)
    requires n <= |run|
  {
    branches != [] && forall k | i < k < n && run[k].Callback? ::
      && run[k].flags.Some? && Silent(run[k].flags.value, branches, since)
      && key in run[k].jobs && run[k].jobs[key].branches == branches
  }

  lemma {:induction false} SilenceLasts(cfg: Config, run: seq<Event>, i: nat, n: nat, key: Key, branches: seq<Branch>)
    requires Sighting(cfg, run, i, key) && i < n <= |run|
    requires SilentState(Before(cfg, run, i).st, key, branches, FirstSeen(cfg, run, i, key) - STAMP_RESOLUTION)
    requires StaysSilent(run, i, n, key, branches, FirstSeen(cfg, run, i, key) - STAMP_RESOLUTION)
    requires forall m :: i <= m < n ==> key !in Condemned(cfg, run, m)
    ensures SilentState(Before(cfg, run, n).st, key, branches, FirstSeen(cfg, run, i, key) - STAMP_RESOLUTION)
    ensures TrackOf(Before(cfg, run, n).st, key)
            == Track(Some(FirstRunning(cfg, run, i, key)), Some(FirstSeen(cfg, run, i, key)), false)
  {
    var d, e := Before(cfg, run, n - 1), run[n - 1];
    if i < n - 1 { SilenceLasts(cfg, run, i, n - 1, key, branches); }
    if e.Query? {
      SilentHasNoAge(d.st.listing.value.flags, branches, FirstSeen(cfg, run, i, key) - STAMP_RESOLUTION);
      JudgeTracks(cfg, d.st, e.entries, e.at, key);
      assert key !in Condemned(cfg, run, n - 1);
      assert TrackOf(Step(cfg, d, e).st, key).flagged == (key in Step(cfg, d, e).st.seenFlag);
    } else {
      assert TrackOf(Step(cfg, d, e).st, key) == TrackOf(d.st, key);
    }
  }

  /** Silent on a listing a grace after the one it was first seen on, the job is stalled. */
  lemma SilentIsStalled(cfg: Config, t: Track, flags: map<Branch, int>, branches: seq<Branch>, now: int, at: int)
    requires t.firstSeen.Some? && t.firstRunning.Some? && !t.flagged
    requires Silent(flags, branches, t.firstSeen.value - STAMP_RESOLUTION) && now - t.firstRunning.value >= cfg.Grace()
    ensures Stalled(cfg, t, flags, branches, now, at)
  {
    SilentHasNoAge(flags, branches, t.firstSeen.value - STAMP_RESOLUTION);
  }

  /**
   A job that is reported running and never beats is condemned no later than the grace, one interval and
   two polls after the listing it was first seen on: the branch for a job without a flag, in time.
   */
  lemma {:induction false} SilentJobIsDetected(cfg: Config, run: seq<Event>, i: nat, n: nat, key: Key, branches: seq<Branch>, poll: int)
    requires Timely(run, poll) && cfg.Interval() > 0
    requires Sighting(cfg, run, i, key) && i < n < |run|
    requires SilentState(Before(cfg, run, i).st, key, branches, FirstSeen(cfg, run, i, key) - STAMP_RESOLUTION)
    requires StaysSilent(run, i, n, key, branches, FirstSeen(cfg, run, i, key) - STAMP_RESOLUTION)
    requires run[n].Query? && Reports(run[n].entries, key)
    requires var due := FirstRunning(cfg, run, i, key) + cfg.Grace() + cfg.Interval();
      due + poll <= run[n].at <= due + 2 * poll
    requires var st := Before(cfg, run, n).st;
      st.listing.Some? && key in st.byId ==> Unhindered(cfg, st, run[n].entries, run[n].at, key)
    ensures exists m :: i <= m <= n && key in Condemned(cfg, run, m)
              && run[m].at <= FirstRunning(cfg, run, i, key) + cfg.Grace() + cfg.Interval() + 2 * poll
  {
    if forall m :: i <= m < n ==> key !in Condemned(cfg, run, m) {
      SilenceLasts(cfg, run, i, n, key, branches);
      ClocksAgreeAlways(cfg, run, n, poll);
      ListingIsCurrent(cfg, run, n, poll);
      var st := Before(cfg, run, n).st;
      SilentIsStalled(cfg, TrackOf(st, key), st.listing.value.flags, branches, st.listing.value.at, run[n].at);
      SuspectIsCondemned(cfg, st, run[n].entries, run[n].at, key);
    } else {
      var m :| i <= m < n && key in Condemned(cfg, run, m);
      TimeAdvances(run, poll, m, n);
    }
  }

  lemma {:induction false} CallbacksStay(run: seq<Event>, i: nat, n: nat)
    requires i <= n <= |run| && LastCallback(run, i).Some?
    ensures LastCallback(run, n).Some?
  {
    if i < n { CallbacksStay(run, i, n - 1); }
  }

  lemma TimeAdvances(run: seq<Event>, poll: int, m: nat, n: nat)
    requires Timely(run, poll) && m <= n < |run|
    ensures run[m].at <= run[n].at
  {
    assert run[m].at <= run[m].End();
  }

  /** The age is that of a flag that counts, whose last write is a threshold less a minute ago. */
  ghost predicate OldEnough(cfg: Config, flags: map<Branch, int>, branches: seq<Branch>, since: int, age: int, now: int, at: int) {
    exists b <- branches ::
      && b in flags && flags[b] >= since && age == now - flags[b]
      && forall beat :: Minute(beat) == flags[b] ==> at > beat + cfg.Stale() - 60
  }

  lemma AgeIsOldEnough(cfg: Config, flags: map<Branch, int>, branches: seq<Branch>, since: int, now: int, at: int)
    requires Age(flags, branches, now, since).Some? && Age(flags, branches, now, since).value >= cfg.Stale() > 0 && now <= at
    ensures OldEnough(cfg, flags, branches, since, Age(flags, branches, now, since).value, now, at)
  {
    NewestCounts(flags, branches, since);
    var b :| b in branches && b in flags && flags[b] == Newest(flags, branches, since).value;
    forall beat | Minute(beat) == flags[b] ensures at > beat + cfg.Stale() - 60 {}
  }

  /** What a verdict says is so: an old flag, or a missing one and the grace over. */
  ghost predicate InTime(cfg: Config, st: State, key: Key, age: Option<int>, at: int)
    requires st.listing.Some? && key in st.byId
  {
    var t := TrackOf(st, key);
    match age
    case Some(a) =>
      OldEnough(cfg, st.listing.value.flags, st.byId[key].branches, t.firstSeen.GetOr(at) - STAMP_RESOLUTION, a, st.listing.value.at, at)
    case None => !t.flagged && t.firstRunning.Some? && at >= t.firstRunning.value + cfg.Grace()
  }

  lemma StalledInTime(cfg: Config, st: State, key: Key, at: int)
    requires st.listing.Some? && key in st.byId && st.listing.value.at <= at && cfg.Stale() > 0 && cfg.Interval() > 0
    requires var t := TrackOf(st, key);
      Stalled(cfg, t, st.listing.value.flags, st.byId[key].branches, st.listing.value.at, at)
    ensures InTime(cfg, st, key, JudgedAge(TrackOf(st, key), st.listing.value.flags, st.byId[key].branches, st.listing.value.at, at), at)
  {
    var t, flags, branches := TrackOf(st, key), st.listing.value.flags, st.byId[key].branches;
    if JudgedAge(t, flags, branches, st.listing.value.at, at).Some? {
      AgeIsOldEnough(cfg, flags, branches, t.firstSeen.GetOr(at) - STAMP_RESOLUTION, st.listing.value.at, at);
    }
  }

  /**
   And never early: a verdict on a flag's age comes no sooner than the threshold after the minute
   the flag's last write is listed in, one on a missing flag no sooner than the grace after the
   listing in force when the job was first seen running -- and never once a flag of it was counted.
   */
  lemma {:induction false} NeverCondemnedEarly(cfg: Config, run: seq<Event>, n: nat, poll: int, id: JobId)
    requires Timely(run, poll) && cfg.Interval() > 0 && cfg.Stale() > 0
    requires n < |run| && run[n].Query? && id in Verdicts(cfg, Before(cfg, run, n).st, run[n].entries, run[n].at)
    ensures var st := Before(cfg, run, n).st;
      && st.listing.Some? && id.key in st.byId
      && InTime(cfg, st, id.key, Verdicts(cfg, st, run[n].entries, run[n].at)[id], run[n].at)
  {
    var st, e := Before(cfg, run, n).st, run[n];
    CondemnedByTheRule(cfg, st, e.entries, e.at, id);
    ClocksAgreeAlways(cfg, run, n, poll);
    ListingIsCurrent(cfg, run, n, poll);
    StalledInTime(cfg, st, id.key, e.at);
  }
}
