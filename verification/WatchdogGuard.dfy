/**
 What stands between a stalled job and a verdict, and nothing else does: the storage-fault guard, the two
 caps, and a dry run. The caps are counted exactly.
 */
module WatchdogGuard {
  import opened Wrappers
  import opened Watchdog
  import opened WatchdogRuns
  import opened WatchdogTiming
  import opened WatchdogCaps

  // ---- the storage-fault guard -----------------------------------------------------------------

  /** Every watched job the query reports running is stalled. */
  ghost predicate AllStalled(cfg: Config, st: State, entries: seq<Entry>, at: int)
    requires st.listing.Some?
  {
    forall e <- entries :: e.running && e.id.key in st.byId ==> Qualifies(cfg, st, e, st.listing.value.at, at)
  }

  lemma {:induction false} StalledAreAll(cfg: Config, st: State, entries: seq<Entry>, at: int, n: nat)
    requires st.listing.Some? && n <= |entries| && AllStalled(cfg, st, entries, at)
    ensures StalledUpTo(cfg, st, entries, n, st.listing.value.at, at) == RunningUpTo(st, entries, n)
  {
    if n > 0 {
      StalledAreAll(cfg, st, entries, at, n - 1);
      assert entries[n - 1] in entries;
    }
  }

  lemma AllIsTooMany(f: real, n: nat)
    requires f < 1.0 && n >= 10
    ensures !Plausible(f, n, n)
  {
    assert f * n as real < n as real;
  }

  /** A query to which every running job is stalled at once, ten or more of them, fails nobody. */
  lemma MassStallFailsNobody(cfg: Config, run: seq<Event>, n: nat)
    requires n < |run| && run[n].Query? && cfg.maxStaleFraction < 1.0
    requires var st := Before(cfg, run, n).st;
      st.listing.Some? ==> RunningIn(st, run[n].entries) >= 10 && AllStalled(cfg, st, run[n].entries, run[n].at)
    ensures Condemned(cfg, run, n) == {} && Before(cfg, run, n + 1).st.issued == Before(cfg, run, n).st.issued
  {
    var st, e := Before(cfg, run, n).st, run[n];
    if cfg.enabled && st.listing.Some? {
      StalledAreAll(cfg, st, e.entries, e.at, |e.entries|);
      AllIsTooMany(cfg.maxStaleFraction, RunningIn(st, e.entries));
      FaultSilencesQuery(cfg, st, e.entries, e.at);
    }
  }

  /** The flags of a job stand still from `stop` on, though it was sighted at query `i` and not failed since. */
  ghost predicate Frozen(cfg: Config, run: seq<Event>, i: nat, n: nat, key: Key, branches: seq<Branch>, stop: int)
    requires n <= |run|
  {
    && i < n && Sighting(cfg, run, i, key) && (forall m :: i <= m < n ==> key !in Condemned(cfg, run, m))
    && StopsBeating(run, key, branches, stop, FirstSeen(cfg, run, i, key) - STAMP_RESOLUTION)
  }

  lemma {:induction false} FrozenIsStalled(cfg: Config, run: seq<Event>, i: nat, n: nat, key: Key,
                                           branches: seq<Branch>, stop: int, poll: int)
    requires n < |run| && Timely(run, poll) && cfg.Interval() > 0 && cfg.Stale() >= 0
    requires Frozen(cfg, run, i, n, key, branches, stop) && run[n].at >= stop + cfg.Grace() + poll
    ensures var st := Before(cfg, run, n).st;
      && st.listing.Some? && key in st.byId && st.byId[key].branches == branches
      && Stalled(cfg, TrackOf(st, key), st.listing.value.flags, branches, st.listing.value.at, run[n].at)
  {
    SightingLasts(cfg, run, i, n, key);
    LateQueryKnows(cfg, run, i, n, key, branches, stop, FirstSeen(cfg, run, i, key) - STAMP_RESOLUTION, poll);
    var st := Before(cfg, run, n).st;
    StoppedIsStalled(cfg, TrackOf(st, key), st.listing.value.flags, branches, stop, st.listing.value.at, run[n].at);
  }

  /**
   Writing to the storage breaks at `stop` while reading it goes on: once every flag is a threshold old, no
   query with ten jobs running or more fails any of them, healthy as they are.
   */
  lemma {:induction false} BrokenWritesFailNobody(cfg: Config, run: seq<Event>, n: nat, stop: int, poll: int, sighted: map<Key, nat>)
    requires n < |run| && run[n].Query? && Timely(run, poll) && cfg.Interval() > 0 && cfg.Stale() >= 0
    requires cfg.maxStaleFraction < 1.0 && run[n].at >= stop + cfg.Grace() + poll
    requires var st := Before(cfg, run, n).st;
      && RunningIn(st, run[n].entries) >= 10
      && forall key <- st.byId :: Reports(run[n].entries, key) ==>
        key in sighted && Frozen(cfg, run, sighted[key], n, key, st.byId[key].branches, stop)
    ensures Condemned(cfg, run, n) == {}
  {
    var st, e := Before(cfg, run, n).st, run[n];
    if st.listing.Some? {
      forall x <- e.entries | x.running && x.id.key in st.byId ensures Qualifies(cfg, st, x, st.listing.value.at, e.at) {
        var i :| 0 <= i < |e.entries| && e.entries[i] == x;
        assert Reports(e.entries, x.id.key);
        FrozenIsStalled(cfg, run, sighted[x.id.key], n, x.id.key, st.byId[x.id.key].branches, stop, poll);
      }
    }
    MassStallFailsNobody(cfg, run, n);
  }

  // ---- the caps --------------------------------------------------------------------------------

  lemma {:induction false} ChargeIs(perBranch: map<Branch, nat>, branches: seq<Branch>, n: nat, b: Branch)
    requires n <= |branches|
    ensures Count(Charge(perBranch, branches, n), b) == Count(perBranch, b) + multiset(branches[..n])[b]
  {
    if n > 0 {
      ChargeIs(perBranch, branches, n - 1, b);
      assert branches[..n] == branches[..n - 1] + [branches[n - 1]];
    }
  }

  /** Nothing issued is taken back, and no charge. */
  ghost predicate Further(i: Issue, i': Issue) {
    i.out.Keys <= i'.out.Keys && i.issued <= i'.issued && forall b :: Count(i.perBranch, b) <= Count(i'.perBranch, b)
  }

  lemma IssueOneGoesFurther(cfg: Config, i: Issue, s: Suspect)
    ensures Further(i, IssueOne(cfg, i, s))
  {
    forall b ensures Count(i.perBranch, b) <= Count(Charge(i.perBranch, s.branches, |s.branches|), b) {
      ChargeIs(i.perBranch, s.branches, |s.branches|, b);
    }
  }

  lemma {:induction false} CapReached(perBranch: map<Branch, nat>, branches: seq<Branch>, cap: int)
    requires MostRescued(perBranch, branches) >= cap > 0
    ensures exists b <- branches :: Count(perBranch, b) >= cap
  {
    if Count(perBranch, branches[0]) < cap {
      CapReached(perBranch, branches[1..], cap);
      var b :| b in branches[1..] && Count(perBranch, b) >= cap;
      assert b in branches;
    }
  }

  /** A suspect is condemned, or a cap is reached. */
  ghost predicate Settled(cfg: Config, i: Issue, s: Suspect) {
    || s.id in i.out || i.issued >= cfg.maxPerInterval || cfg.maxPerBranch <= 0
    || exists b <- s.branches :: Count(i.perBranch, b) >= cfg.maxPerBranch
  }

  lemma IssueOneSettles(cfg: Config, i: Issue, s: Suspect)
    requires !cfg.dryRun
    ensures Settled(cfg, IssueOne(cfg, i, s), s)
  {
    if cfg.maxPerBranch > 0 && MostRescued(i.perBranch, s.branches) >= cfg.maxPerBranch {
      CapReached(i.perBranch, s.branches, cfg.maxPerBranch);
    }
  }

  lemma {:induction false} IssueSettles(cfg: Config, start: Issue, suspects: seq<Suspect>, n: nat, k: nat)
    requires k < n <= |suspects| && !cfg.dryRun
    ensures Settled(cfg, IssueUpTo(cfg, start, suspects, n), suspects[k])
  {
    var i := IssueUpTo(cfg, start, suspects, n - 1);
    if k == n - 1 {
      IssueOneSettles(cfg, i, suspects[k]);
    } else {
      IssueSettles(cfg, start, suspects, n - 1, k);
      IssueOneGoesFurther(cfg, i, suspects[n - 1]);
    }
  }

  lemma EntryIsSorted(cfg: Config, st: State, entries: seq<Entry>, at: int, e: Entry)
    requires st.listing.Some? && e in entries && Qualifies(cfg, st, e, st.listing.value.at, at)
    ensures SuspectFor(st, e, st.listing.value.at, at) in Sorted(cfg, st, entries, at)
  {
    ScanSuspects(cfg, st, entries, |entries|, st.listing.value.at, at);
    assert entries[..|entries|] == entries;
    SortMembers(ScanUpTo(cfg, st, entries, |entries|, st.listing.value.at, at).suspects);
  }

  /**
   Where there is no storage fault and no dry run, a stalled job is passed over for one reason only: after the
   query a cap is reached, the interval's or that of one of its branches.
   */
  lemma PassedOverOnlyByCaps(cfg: Config, st: State, entries: seq<Entry>, at: int, e: Entry)
    requires cfg.enabled && !cfg.dryRun && st.listing.Some? && Credible(cfg, st, entries, at)
    requires e in entries && Qualifies(cfg, st, e, st.listing.value.at, at)
    ensures var st' := AfterQuery(cfg, st, entries, at);
      || e.id in Verdicts(cfg, st, entries, at) || st'.issued >= cfg.maxPerInterval || cfg.maxPerBranch <= 0
      || exists b <- st.byId[e.id.key].branches :: Count(st'.perBranch, b) >= cfg.maxPerBranch
  {
    var sorted := Sorted(cfg, st, entries, at);
    QueryIssues(cfg, st, entries, at);
    EntryIsSorted(cfg, st, entries, at, e);
    var k :| 0 <= k < |sorted| && sorted[k] == SuspectFor(st, e, st.listing.value.at, at);
    IssueSettles(cfg, Issue(st.perBranch, st.issued, map[]), sorted, |sorted|, k);
  }

  /** A job with room under both caps: some job is condemned. */
  lemma RoomMeansAVerdict(cfg: Config, st: State, entries: seq<Entry>, at: int, e: Entry)
    requires cfg.enabled && !cfg.dryRun && st.listing.Some? && Credible(cfg, st, entries, at)
    requires e in entries && Qualifies(cfg, st, e, st.listing.value.at, at)
    requires st.issued < cfg.maxPerInterval && cfg.maxPerBranch > 0
    requires forall b <- st.byId[e.id.key].branches :: Count(st.perBranch, b) < cfg.maxPerBranch
    ensures Verdicts(cfg, st, entries, at) != map[]
  {
    var sorted, start := Sorted(cfg, st, entries, at), Issue(st.perBranch, st.issued, map[]);
    QueryIssues(cfg, st, entries, at);
    EntryIsSorted(cfg, st, entries, at, e);
    var k :| 0 <= k < |sorted| && sorted[k] == SuspectFor(st, e, st.listing.value.at, at);
    IssueSettles(cfg, start, sorted, |sorted|, k);
    NothingIssued(cfg, start, sorted, |sorted|);
  }

  lemma {:induction false} NothingIssued(cfg: Config, start: Issue, suspects: seq<Suspect>, n: nat)
    requires n <= |suspects|
    ensures IssueUpTo(cfg, start, suspects, n).out == map[] ==> IssueUpTo(cfg, start, suspects, n) == start
  {
    if n > 0 {
      NothingIssued(cfg, start, suspects, n - 1);
      var i, s := IssueUpTo(cfg, start, suspects, n - 1), suspects[n - 1];
      assert s.id in i.out[s.id := s.age];
    }
  }

  lemma DryRunFailsNobody(cfg: Config, st: State, entries: seq<Entry>, at: int)
    requires cfg.dryRun
    ensures Verdicts(cfg, st, entries, at) == map[]
    ensures AfterQuery(cfg, st, entries, at).issued == st.issued && AfterQuery(cfg, st, entries, at).perBranch == st.perBranch
  {
    if cfg.enabled && st.listing.Some? {
      if Credible(cfg, st, entries, at) {
        QueryIssues(cfg, st, entries, at);
        DryRunIssuesNothing(cfg, Issue(st.perBranch, st.issued, map[]), Sorted(cfg, st, entries, at), |Sorted(cfg, st, entries, at)|);
      } else {
        FaultSilencesQuery(cfg, st, entries, at);
      }
    }
  }

  lemma {:induction false} DryRunIssuesNothing(cfg: Config, start: Issue, suspects: seq<Suspect>, n: nat)
    requires n <= |suspects| && cfg.dryRun
    ensures IssueUpTo(cfg, start, suspects, n) == start
  {
    if n > 0 { DryRunIssuesNothing(cfg, start, suspects, n - 1); }
  }

  // ---- and what is counted -------------------------------------------------------------------

  /** A query names each job id once, as the keys of a dictionary are. */
  ghost predicate NamedOnce(entries: seq<Entry>) {
    forall i, j :: 0 <= i < j < |entries| ==> entries[i].id != entries[j].id
  }

  ghost predicate Apart(s: seq<Suspect>) { forall i, j :: 0 <= i < j < |s| ==> s[i].id != s[j].id }

  lemma {:induction false} ScanIsApart(cfg: Config, st: State, entries: seq<Entry>, n: nat, now: int, seen: int)
    requires st.listing.Some? && n <= |entries| && NamedOnce(entries)
    ensures Apart(ScanUpTo(cfg, st, entries, n, now, seen).suspects)
  {
    if n > 0 {
      ScanIsApart(cfg, st, entries, n - 1, now, seen);
      ScanAdds(cfg, st, entries, n - 1, now, seen);
      ScanSuspects(cfg, st, entries, n - 1, now, seen);
      var before := ScanUpTo(cfg, st, entries, n - 1, now, seen).suspects;
      forall s <- before ensures s.id != entries[n - 1].id {
        assert Entry(s.id, true) in entries[..n - 1];
        var i :| 0 <= i < n - 1 && entries[i] == Entry(s.id, true);
      }
    }
  }

  lemma {:induction false} InsertIsApart(s: seq<Suspect>, x: Suspect)
    requires Apart(s) && forall y <- s :: y.id != x.id
    ensures Apart(Insert(s, x)) && forall y <- Insert(s, x) :: y in s || y == x
  {
    if s != [] && !StrLe(s[|s| - 1].jobNum, x.jobNum) {
      InsertIsApart(s[..|s| - 1], x);
      var last := s[|s| - 1];
      assert last in s;
      forall y <- Insert(s[..|s| - 1], x) ensures y.id != last.id {
        if y != x { var i :| 0 <= i < |s| - 1 && s[i] == y; }
      }
    }
  }

  lemma {:induction false} SortIsApart(s: seq<Suspect>)
    requires Apart(s)
    ensures Apart(SortByJobNum(s)) && forall y <- SortByJobNum(s) :: y in s
  {
    if s != [] {
      SortIsApart(s[..|s| - 1]);
      InsertIsApart(SortByJobNum(s[..|s| - 1]), s[|s| - 1]);
    }
  }

  ghost predicate NoTwice(branches: seq<Branch>) { forall b :: multiset(branches)[b] <= 1 }

  lemma IssuedIsCounted(cfg: Config, i: Issue, s: Suspect)
    requires s.id !in i.out
    ensures IssueOne(cfg, i, s).issued - |IssueOne(cfg, i, s).out| == i.issued - |i.out|
  {}

  lemma ChargeIsCounted(cfg: Config, byId: map<Key, Known>, i: Issue, s: Suspect, b: Branch)
    requires s.id !in i.out && s.id.key in byId && byId[s.id.key].branches == s.branches && NoTwice(s.branches)
    ensures var i' := IssueOne(cfg, i, s);
      Count(i'.perBranch, b) - |Hit(byId, i'.out, b)| == Count(i.perBranch, b) - |Hit(byId, i.out, b)|
  {
    var i' := IssueOne(cfg, i, s);
    if i' != i {
      ChargeIs(i.perBranch, s.branches, |s.branches|, b);
      assert s.branches[..|s.branches|] == s.branches;
      HitIs(byId, i.out, s, b);
    }
  }

  lemma HitIs(byId: map<Key, Known>, out: map<JobId, Option<int>>, s: Suspect, b: Branch)
    requires s.id !in out && s.id.key in byId && byId[s.id.key].branches == s.branches && NoTwice(s.branches)
    ensures |Hit(byId, out[s.id := s.age], b)| == |Hit(byId, out, b)| + multiset(s.branches)[b]
  {
    assert multiset(s.branches)[b] == if b in s.branches then 1 else 0;
    assert Hit(byId, out[s.id := s.age], b) == Hit(byId, out, b) + if b in s.branches then {s.id} else {};
  }

  lemma {:induction false} IssueIsExact(cfg: Config, byId: map<Key, Known>, start: Issue, suspects: seq<Suspect>, n: nat, b: Branch)
    requires n <= |suspects| && Apart(suspects) && start.out == map[]
    requires forall s <- suspects :: s.id.key in byId && byId[s.id.key].branches == s.branches && NoTwice(s.branches)
    ensures var i := IssueUpTo(cfg, start, suspects, n);
      && i.issued == start.issued + |i.out|
      && Count(i.perBranch, b) == Count(start.perBranch, b) + |Hit(byId, i.out, b)|
      && forall id <- i.out :: exists k :: 0 <= k < n && suspects[k].id == id
  {
    if n > 0 {
      IssueIsExact(cfg, byId, start, suspects, n - 1, b);
      assert suspects[n - 1] in suspects;
      IssuedIsCounted(cfg, IssueUpTo(cfg, start, suspects, n - 1), suspects[n - 1]);
      ChargeIsCounted(cfg, byId, IssueUpTo(cfg, start, suspects, n - 1), suspects[n - 1], b);
    } else {
      assert Hit(byId, map[], b) == {};
    }
  }

  /** Every branch of a job is listed once, as law lists them. */
  ghost predicate ListedOnce(byId: map<Key, Known>) { forall k <- byId :: NoTwice(byId[k].branches) }

  lemma QueryIsExact(cfg: Config, st: State, entries: seq<Entry>, at: int, b: Branch)
    requires NamedOnce(entries) && ListedOnce(st.byId)
    ensures var out, st' := Verdicts(cfg, st, entries, at), AfterQuery(cfg, st, entries, at);
      st'.issued == st.issued + |out| && Count(st'.perBranch, b) == Count(st.perBranch, b) + |Hit(st.byId, out, b)|
  {
    assert Hit(st.byId, map[], b) == {};
    if cfg.enabled && st.listing.Some? {
      if Credible(cfg, st, entries, at) {
        var suspects, sorted := ScanUpTo(cfg, st, entries, |entries|, st.listing.value.at, at).suspects, Sorted(cfg, st, entries, at);
        QueryIssues(cfg, st, entries, at);
        ScanIsApart(cfg, st, entries, |entries|, st.listing.value.at, at);
        SortIsApart(suspects);
        ScanSuspects(cfg, st, entries, |entries|, st.listing.value.at, at);
        IssueIsExact(cfg, st.byId, Issue(st.perBranch, st.issued, map[]), sorted, |sorted|, b);
      } else {
        FaultSilencesQuery(cfg, st, entries, at);
      }
    }
  }

  ghost predicate Plain(run: seq<Event>) {
    forall e <- run :: if e.Query? then NamedOnce(e.entries) else ListedOnce(e.jobs)
  }

  lemma StepIsExact(cfg: Config, d: Driver, e: Event, b: Branch)
    requires ListedOnce(d.st.byId) && if e.Query? then NamedOnce(e.entries) else ListedOnce(e.jobs)
    ensures ListedOnce(Step(cfg, d, e).st.byId)
    ensures var out := if e.Query? then Verdicts(cfg, d.st, e.entries, e.at) else map[];
      Count(Step(cfg, d, e).st.perBranch, b) == Count(d.st.perBranch, b) + |Hit(d.st.byId, out, b)|
    ensures e.Query? ==> Step(cfg, d, e).st.issued == d.st.issued + |Verdicts(cfg, d.st, e.entries, e.at)|
    ensures e.Callback? ==>
      Step(cfg, d, e).st.issued == if cfg.enabled && Due(d.lastUpdate, e.at, cfg.Interval()) then 0 else d.st.issued
    ensures !cfg.enabled ==> Step(cfg, d, e).st.issued == d.st.issued
  {
    assert Hit(d.st.byId, map[], b) == {};
    if e.Query? {
      QueryIsExact(cfg, d.st, e.entries, e.at, b);
      JudgeTracks(cfg, d.st, e.entries, e.at, Key(0, ""));
    }
  }

  /**
   What is charged is what was issued: over every run the count of a branch is the number of its verdicts, and
   the count of the interval that of the verdicts since the last listing, which gives it all back.
   */
  lemma {:induction false} ChargedIsIssued(cfg: Config, run: seq<Event>, n: nat, b: Branch)
    requires n <= |run| && Plain(run)
    ensures var st := Before(cfg, run, n).st;
      && ListedOnce(st.byId) && st.issued == SinceListing(cfg, run, n) && (!cfg.enabled ==> st.issued == 0)
      && Count(st.perBranch, b) == VerdictsOn(cfg, run, n, b)
  {
    if n > 0 {
      ChargedIsIssued(cfg, run, n - 1, b);
      assert run[n - 1] in run;
      StepIsExact(cfg, Before(cfg, run, n - 1), run[n - 1], b);
    }
  }
}
