/** What the watchdog may cost a production, over whole runs: per branch, and per interval. */
module WatchdogCaps {
  import opened Wrappers
  import opened Watchdog
  import opened WatchdogRuns

  /** The condemned jobs that run branch `b`. */
  function Hit(byId: map<Key, Known>, out: map<JobId, Option<int>>, b: Branch): set<JobId> {
    set id <- out.Keys | id.key in byId && b in byId[id.key].branches
  }

  /** Verdicts event `n` issues. */
  function Out(cfg: Config, run: seq<Event>, n: nat): map<JobId, Option<int>>
    requires n < |run|
  {
    if run[n].Query? then Verdicts(cfg, Before(cfg, run, n).st, run[n].entries, run[n].at) else map[]
  }

  /** Verdicts branch `b` has got before event `n`, whatever job carried it. */
  function VerdictsOn(cfg: Config, run: seq<Event>, n: nat, b: Branch): nat
    requires n <= |run|
  {
    if n == 0 then 0
    else VerdictsOn(cfg, run, n - 1, b) + |Hit(Before(cfg, run, n - 1).st.byId, Out(cfg, run, n - 1), b)|
  }

  /** Verdicts issued since the flag directory was last listed, or since the start. */
  function SinceListing(cfg: Config, run: seq<Event>, n: nat): nat
    requires n <= |run|
  {
    if n == 0 then 0
    else if run[n - 1].Callback? && Due(Before(cfg, run, n - 1).lastUpdate, run[n - 1].at, cfg.Interval()) then 0
    else SinceListing(cfg, run, n - 1) + |Out(cfg, run, n - 1)|
  }

  lemma {:induction false} ChargeCounts(perBranch: map<Branch, nat>, branches: seq<Branch>, n: nat, b: Branch)
    requires n <= |branches|
    ensures Count(Charge(perBranch, branches, n), b) >= Count(perBranch, b) + (if b in branches[..n] then 1 else 0)
  {
    if n > 0 {
      ChargeCounts(perBranch, branches, n - 1, b);
      assert branches[..n] == branches[..n - 1] + [branches[n - 1]];
    }
  }

  lemma {:induction false} MostRescuedBounds(perBranch: map<Branch, nat>, branches: seq<Branch>, b: Branch)
    requires b in branches
    ensures Count(perBranch, b) <= MostRescued(perBranch, branches)
  {
    if branches[0] != b { MostRescuedBounds(perBranch, branches[1..], b); }
  }

  /** `earlier` verdicts on `b`, all of them counted, stay within the cap through one round of issuing. */
  ghost predicate WithinBranchCap(cfg: Config, byId: map<Key, Known>, i: Issue, earlier: nat, b: Branch) {
    var total := earlier + |Hit(byId, i.out, b)|;
    total <= Count(i.perBranch, b) && (total > 0 ==> total <= cfg.maxPerBranch)
  }

  lemma IssueOneWithinCap(cfg: Config, byId: map<Key, Known>, i: Issue, s: Suspect, earlier: nat, b: Branch)
    requires WithinBranchCap(cfg, byId, i, earlier, b)
    requires s.id.key in byId && byId[s.id.key].branches == s.branches
    ensures WithinBranchCap(cfg, byId, IssueOne(cfg, i, s), earlier, b)
  {
    var i' := IssueOne(cfg, i, s);
    if i' != i {
      ChargeCounts(i.perBranch, s.branches, |s.branches|, b);
      assert s.branches[..|s.branches|] == s.branches;
      var h, h' := Hit(byId, i.out, b), Hit(byId, i'.out, b);
      if b in s.branches {
        MostRescuedBounds(i.perBranch, s.branches, b);
        assert h' == h + {s.id};
        assert |h'| <= |h| + 1;
      } else {
        assert h' == h;
      }
    }
  }

  lemma {:induction false} IssueWithinCap(cfg: Config, byId: map<Key, Known>, start: Issue, suspects: seq<Suspect>, n: nat,
                                          earlier: nat, b: Branch)
    requires n <= |suspects| && WithinBranchCap(cfg, byId, start, earlier, b)
    requires forall s <- suspects :: s.id.key in byId && byId[s.id.key].branches == s.branches
    ensures WithinBranchCap(cfg, byId, IssueUpTo(cfg, start, suspects, n), earlier, b)
  {
    if n > 0 {
      IssueWithinCap(cfg, byId, start, suspects, n - 1, earlier, b);
      assert suspects[n - 1] in suspects;
      IssueOneWithinCap(cfg, byId, IssueUpTo(cfg, start, suspects, n - 1), suspects[n - 1], earlier, b);
    }
  }

  lemma QueryWithinCap(cfg: Config, st: State, entries: seq<Entry>, at: int, earlier: nat, b: Branch)
    requires earlier <= Count(st.perBranch, b) && (earlier > 0 ==> earlier <= cfg.maxPerBranch)
    ensures var total := earlier + |Hit(st.byId, Verdicts(cfg, st, entries, at), b)|;
      total <= Count(AfterQuery(cfg, st, entries, at).perBranch, b) && (total > 0 ==> total <= cfg.maxPerBranch)
  {
    assert Hit(st.byId, map[], b) == {};
    if cfg.enabled && st.listing.Some? {
      var now := st.listing.value.at;
      var scan := ScanUpTo(cfg, st, entries, |entries|, now, at);
      ScanSuspects(cfg, st, entries, |entries|, now, at);
      ScanTracks(cfg, st, entries, |entries|, now, at, Key(0, ""));
      var sorted := SortByJobNum(scan.suspects);
      SortMembers(scan.suspects);
      IssueWithinCap(cfg, st.byId, Issue(scan.st.perBranch, scan.st.issued, map[]), sorted, |sorted|, earlier, b);
    }
  }

  /** Over every run no branch gets more verdicts than the cap; forgetting a job does not give any back. */
  lemma {:induction false} BranchIsRescuedAtMost(cfg: Config, run: seq<Event>, n: nat, b: Branch)
    requires n <= |run|
    ensures VerdictsOn(cfg, run, n, b) <= Max(0, cfg.maxPerBranch)
    ensures VerdictsOn(cfg, run, n, b) <= Count(Before(cfg, run, n).st.perBranch, b)
  {
    if n > 0 {
      BranchIsRescuedAtMost(cfg, run, n - 1, b);
      var d, e := Before(cfg, run, n - 1), run[n - 1];
      if e.Query? { QueryWithinCap(cfg, d.st, e.entries, e.at, VerdictsOn(cfg, run, n - 1, b), b); }
      else { assert Hit(d.st.byId, map[], b) == {}; }
    }
  }

  lemma {:induction false} IssueCounts(cfg: Config, start: Issue, suspects: seq<Suspect>, n: nat)
    requires n <= |suspects| && start.out == map[]
    ensures var i := IssueUpTo(cfg, start, suspects, n);
      start.issued + |i.out| <= i.issued && (i.issued > start.issued ==> i.issued <= cfg.maxPerInterval)
  {
    if n > 0 {
      IssueCounts(cfg, start, suspects, n - 1);
      var i, s := IssueUpTo(cfg, start, suspects, n - 1), suspects[n - 1];
      assert i.out[s.id := s.age].Keys == i.out.Keys + {s.id};
      assert |i.out[s.id := s.age].Keys| <= |i.out.Keys| + 1;
      assert forall m: map<JobId, Option<int>> :: |m| == |m.Keys|;
    }
  }

  lemma QueryCounts(cfg: Config, st: State, entries: seq<Entry>, at: int)
    ensures var out, st' := Verdicts(cfg, st, entries, at), AfterQuery(cfg, st, entries, at);
      st.issued + |out| <= st'.issued && (st'.issued > st.issued ==> st'.issued <= cfg.maxPerInterval)
  {
    if cfg.enabled && st.listing.Some? {
      var scan := ScanUpTo(cfg, st, entries, |entries|, st.listing.value.at, at);
      ScanTracks(cfg, st, entries, |entries|, st.listing.value.at, at, Key(0, ""));
      var sorted := SortByJobNum(scan.suspects);
      IssueCounts(cfg, Issue(scan.st.perBranch, scan.st.issued, map[]), sorted, |sorted|);
    }
  }

  /** What is spent of the interval is charged, and the charge stays within the cap. */
  predicate Within(cfg: Config, spent: nat, issued: nat) {
    spent <= issued && (issued > 0 ==> issued <= cfg.maxPerInterval)
  }

  lemma StepStaysWithin(cfg: Config, d: Driver, e: Event, spent: nat)
    requires Within(cfg, spent, d.st.issued)
    ensures e.Query? ==> Within(cfg, spent + |Verdicts(cfg, d.st, e.entries, e.at)|, Step(cfg, d, e).st.issued)
    ensures e.Callback? && !Due(d.lastUpdate, e.at, cfg.Interval()) ==> Within(cfg, spent, Step(cfg, d, e).st.issued)
    ensures e.Callback? && Due(d.lastUpdate, e.at, cfg.Interval()) ==>
      Within(cfg, if cfg.enabled then 0 else spent, Step(cfg, d, e).st.issued)
  {
    if e.Query? { QueryCounts(cfg, d.st, e.entries, e.at); }
  }

  /** And no more verdicts than the interval's cap fall between two listings of the flags. */
  lemma {:induction false} IntervalIsCapped(cfg: Config, run: seq<Event>, n: nat)
    requires n <= |run|
    ensures Within(cfg, SinceListing(cfg, run, n), Before(cfg, run, n).st.issued)
    ensures SinceListing(cfg, run, n) <= Max(0, cfg.maxPerInterval)
  {
    if n > 0 {
      IntervalIsCapped(cfg, run, n - 1);
      StepStaysWithin(cfg, Before(cfg, run, n - 1), run[n - 1], SinceListing(cfg, run, n - 1));
    }
  }
}
