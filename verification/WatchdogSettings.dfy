/** What the settings mean: the defaults in numbers, a watchdog switched off, the order of job numbers, ages. */
module WatchdogSettings {
  import opened Wrappers
  import opened Watchdog
  import opened WatchdogRuns
  import opened WatchdogTiming
  import opened WatchdogCaps
  import opened WatchdogGuard

  // ---- the defaults ----------------------------------------------------------------------------

  /** By default no branch is ever failed twice, and no more than five jobs between two listings. */
  lemma {:induction false} DefaultCaps(run: seq<Event>, n: nat, b: Branch)
    requires n <= |run|
    ensures VerdictsOn(DEFAULTS, run, n, b) <= 1 && SinceListing(DEFAULTS, run, n) <= 5
  {
    BranchIsRescuedAtMost(DEFAULTS, run, n, b);
    IntervalIsCapped(DEFAULTS, run, n);
  }

  /** By default ten running jobs of which more than half are stalled are a fault of the storage; fewer jobs never, nor fewer stalls. */
  lemma DefaultGuard(st: State, entries: seq<Entry>, at: int)
    requires st.listing.Some?
    ensures Credible(DEFAULTS, st, entries, at) <==>
            RunningIn(st, entries) < 10 || 2 * StalledIn(DEFAULTS, st, entries, at) <= RunningIn(st, entries)
    ensures !Credible(DEFAULTS, st, entries, at) ==> Verdicts(DEFAULTS, st, entries, at) == map[]
  {
    if !Credible(DEFAULTS, st, entries, at) { FaultSilencesQuery(DEFAULTS, st, entries, at); }
  }

  /** A first verdict is there to be given, where nothing was: the caps leave room for it. */
  lemma DefaultsGiveAVerdict(st: State, entries: seq<Entry>, at: int, e: Entry)
    requires st.listing.Some? && Credible(DEFAULTS, st, entries, at) && st.issued <= 4
    requires e in entries && Qualifies(DEFAULTS, st, e, st.listing.value.at, at)
    requires forall b <- st.byId[e.id.key].branches :: Count(st.perBranch, b) == 0
    ensures Verdicts(DEFAULTS, st, entries, at) != map[]
  {
    RoomMeansAVerdict(DEFAULTS, st, entries, at, e);
  }

  /** By default and with five-minute polls a job whose counted beats stopped is failed within 100 minutes, if nothing spares it. */
  lemma {:induction false} DefaultDelay(run: seq<Event>, i: nat, n: nat, key: Key, branches: seq<Branch>, stop: int)
    requires Timely(run, 300) && Sighting(DEFAULTS, run, i, key) && i < n < |run|
    requires StopsBeating(run, key, branches, stop, FirstSeen(DEFAULTS, run, i, key) - 60)
    requires run[n].Query? && Reports(run[n].entries, key) && stop + 95 * 60 <= run[n].at <= stop + 100 * 60
    requires var st := Before(DEFAULTS, run, n).st;
      st.listing.Some? && key in st.byId ==> Unhindered(DEFAULTS, st, run[n].entries, run[n].at, key)
    ensures exists m :: i <= m <= n && key in Condemned(DEFAULTS, run, m) && run[m].at <= stop + 100 * 60
  {
    StalledJobIsDetected(DEFAULTS, run, i, n, key, branches, stop, 300);
  }

  /** By default no flag less than an hour old is a stall, nor a missing one before 90 minutes of running. */
  lemma DefaultPatience(st: State, entries: seq<Entry>, at: int, e: Entry)
    requires st.listing.Some? && e in entries && Qualifies(DEFAULTS, st, e, st.listing.value.at, at)
    ensures var known := st.byId[e.id.key]; var age := SuspectFor(st, e, st.listing.value.at, at).age;
      && (age.Some? ==> age.value >= 60 * 60)
      && (age.None? ==> e.id.key in st.firstRunning && st.listing.value.at - st.firstRunning[e.id.key] >= 90 * 60)
  {}

  // ---- switched off ----------------------------------------------------------------------------

  /** Without settings the watchdog is off: in no run does it list anything, remember a job, or fail one. */
  lemma {:induction false} NoSettingsNoVerdicts(run: seq<Event>, n: nat)
    requires n < |run|
    ensures Accept(None).Ok?
    ensures var cfg := Accept(None).value; Out(cfg, run, n) == map[] && Before(cfg, run, n).st.listing == None
  {
    if n > 0 { NoSettingsNoVerdicts(run, n - 1); }
  }

  /** Settings are accepted exactly if two checks or more may be missed and the interval has ten minutes. */
  lemma AcceptedExactlyWhen(cfg: Config)
    ensures Accept(Some(cfg)).Ok? <==> cfg.missedChecks >= 2 && cfg.intervalMinutes >= 10
    ensures Accept(Some(cfg)).Ok? ==> Accept(Some(cfg)).value == cfg
  {}

  /** The last list of jobs the callback published; a job without branches is never one of those watched. */
  function Published(run: seq<Event>, n: nat): map<Key, Known>
    requires n <= |run|
  {
    if n == 0 then map[] else if run[n - 1].Callback? then run[n - 1].jobs else Published(run, n - 1)
  }

  lemma {:induction false} WatchedArePublished(cfg: Config, run: seq<Event>, n: nat, key: Key)
    requires n <= |run|
    ensures var byId, jobs := Before(cfg, run, n).st.byId, Published(run, n);
      && (key in byId <==> key in jobs && jobs[key].branches != [])
      && (key in byId ==> byId[key] == jobs[key])
  {
    if n > 0 {
      WatchedArePublished(cfg, run, n - 1, key);
      if run[n - 1].Query? { JudgeTracks(cfg, Before(cfg, run, n - 1).st, run[n - 1].entries, run[n - 1].at, key); }
    }
  }

  // ---- the order of verdicts -------------------------------------------------------------------

  /** The texts agree up to `i`, and there the first goes on with the smaller character. */
  predicate LessAt(a: string, b: string, i: nat) {
    i < |a| && i < |b| && a[..i] == b[..i] && a[i] < b[i]
  }

  /** Job numbers are ordered as texts: the shorter first where it begins the longer, else by the first difference. */
  lemma {:induction false} TextOrder(a: string, b: string)
    ensures StrLe(a, b) <==> a <= b || exists i: nat :: LessAt(a, b, i)
  {
    if a != [] && b != [] {
      TextOrder(a[1..], b[1..]);
      if a[0] == b[0] { TailOrder(a, b); } else { assert a[0] < b[0] ==> LessAt(a, b, 0); }
    }
  }

  lemma TailOrder(a: string, b: string)
    requires a != [] && b != [] && a[0] == b[0]
    ensures a <= b <==> a[1..] <= b[1..]
    ensures (exists i: nat :: LessAt(a, b, i)) <==> exists i: nat :: LessAt(a[1..], b[1..], i)
  {
    assert a == [a[0]] + a[1..] && b == [b[0]] + b[1..];
    if i: nat :| LessAt(a, b, i) {
      assert a[1..][..i - 1] == a[..i][1..] && b[1..][..i - 1] == b[..i][1..];
      assert LessAt(a[1..], b[1..], i - 1);
    }
    if i: nat :| LessAt(a[1..], b[1..], i) {
      assert a[..i + 1] == [a[0]] + a[1..][..i] && b[..i + 1] == [b[0]] + b[1..][..i];
      assert LessAt(a, b, i + 1);
    }
  }

  // ---- ages ------------------------------------------------------------------------------------

  /** A job's age is that of the newest of its flags that counts; one stamped ahead of the clock counts as fresh. */
  lemma AgeIsOfTheNewest(flags: map<Branch, int>, branches: seq<Branch>, now: int, since: int)
    ensures var age := Age(flags, branches, now, since);
      && (age.None? <==> forall b <- branches :: b in flags ==> flags[b] < since)
      && (age.Some? ==> age.value >= 0)
      && (age.Some? ==> forall b <- branches :: b in flags && flags[b] >= since ==> age.value == 0 || age.value <= now - flags[b])
      && (age.Some? ==> exists b <- branches ::
            b in flags && flags[b] >= since && age.value == if flags[b] > now then 0 else now - flags[b])
  {
    NewestCounts(flags, branches, since);
    forall b <- branches | b in flags && flags[b] >= since
      ensures Newest(flags, branches, since).Some? && Newest(flags, branches, since).value >= flags[b]
    {
      NewestIsAtLeast(flags, branches, since, b);
    }
  }
}
