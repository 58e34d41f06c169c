/**
 Which site a poll bans, told by the run alone: by the outcomes inside the window, the jobs in flight, and
 the end of the site's last ban. Rates are divisions here, as the program forms them.
 */
module SiteJudgement {
  import opened Lists
  import opened Wrappers
  import opened SiteStats
  import opened SiteRuns
  import opened SiteTheorems

  // ---- what a record holds ---------------------------------------------------------------------

  /** Every outcome of a site before event `n`, forgotten or not. */
  function OutcomesOf(run: seq<Event>, n: nat, s: Site): seq<Outcome>
    requires n <= |run|
  {
    if n == 0 then []
    else
      var e := run[n - 1];
      OutcomesOf(run, n - 1, s) + if e.JobEnded? && e.site == Some(s) then [Outcome(e.at, e.ok)] else []
  }

  function WindowSeconds(cfg: Config): real { cfg.windowHours * 3600.0 }

  predicate Prunes(cfg: Config, e: Event) { (e.JobEnded? && e.site.Some?) || (e.Poll? && cfg.enabled) }

  /** What was older than this when the records were last pruned is gone. */
  function Cutoff(cfg: Config, run: seq<Event>, n: nat): real
    requires n <= |run|
  {
    if n == 0 then -WindowSeconds(cfg)
    else if Prunes(cfg, run[n - 1]) then run[n - 1].at - WindowSeconds(cfg)
    else Cutoff(cfg, run, n - 1)
  }

  function Within(events: seq<Outcome>, cutoff: real): seq<Outcome> { KeptUpTo(events, cutoff, |events|) }

  lemma {:induction false} KeptPrefix(a: seq<Outcome>, b: seq<Outcome>, cutoff: real, k: nat)
    requires k <= |a|
    ensures KeptUpTo(a + b, cutoff, k) == KeptUpTo(a, cutoff, k)
  {
    if k > 0 { KeptPrefix(a, b, cutoff, k - 1); }
  }

  /** Pruning keeps, in order, exactly the outcomes that are not older than the cutoff. */
  lemma WithinAppend(events: seq<Outcome>, e: Outcome, cutoff: real)
    ensures Within([], cutoff) == []
    ensures Within(events + [e], cutoff) == if e.at >= cutoff then Within(events, cutoff) + [e] else Within(events, cutoff)
  {
    KeptPrefix(events, [e], cutoff, |events|);
  }

  lemma {:induction false} PrunedTwice(events: seq<Outcome>, first: real, then_: real, k: nat)
    requires k <= |events| && first <= then_
    ensures Within(KeptUpTo(events, first, k), then_) == KeptUpTo(events, then_, k)
  {
    if k > 0 {
      var rest := KeptUpTo(events, first, k - 1);
      PrunedTwice(events, first, then_, k - 1);
      WithinAppend(rest, events[k - 1], then_);
      assert rest + [] == rest;
    }
  }

  lemma {:induction false} CutoffIsPast(cfg: Config, run: seq<Event>, n: nat)
    requires Ordered(run) && n <= |run|
    ensures Cutoff(cfg, run, n) <= Clock(run, n) - WindowSeconds(cfg) && Clock(run, n) >= 0.0
  {
    for k := 0 to n
      invariant Cutoff(cfg, run, k) <= Clock(run, k) - WindowSeconds(cfg) && Clock(run, k) >= 0.0
    {}
  }

  lemma StepWindow(cfg: Config, st: State, e: Event, s: Site, all: seq<Outcome>, cutoff: real)
    requires RecordOf(st, s).events == Within(all, cutoff)
    requires Prunes(cfg, e) ==> cutoff <= e.at - WindowSeconds(cfg)
    ensures var all' := all + if e.JobEnded? && e.site == Some(s) then [Outcome(e.at, e.ok)] else [];
      RecordAfter(cfg, st, e, s).events == Within(all', if Prunes(cfg, e) then e.at - WindowSeconds(cfg) else cutoff)
  {
    assert all + [] == all;
    if Prunes(cfg, e) {
      var now := e.at - WindowSeconds(cfg);
      PrunedTwice(all, cutoff, now, |all|);
      if e.JobEnded? && e.site == Some(s) {
        WithinAppend(all, Outcome(e.at, e.ok), now);
        WithinAppend(Within(all, cutoff), Outcome(e.at, e.ok), now);
      }
    }
  }

  lemma NextWindow(cfg: Config, run: seq<Event>, n: nat, s: Site)
    requires Ordered(run) && n < |run|
    requires RecordOf(Before(cfg, run, n), s).events == Within(OutcomesOf(run, n, s), Cutoff(cfg, run, n))
    ensures RecordOf(Before(cfg, run, n + 1), s).events == Within(OutcomesOf(run, n + 1, s), Cutoff(cfg, run, n + 1))
  {
    CutoffIsPast(cfg, run, n);
    StepRecord(cfg, Before(cfg, run, n), run[n], s);
    StepWindow(cfg, Before(cfg, run, n), run[n], s, OutcomesOf(run, n, s), Cutoff(cfg, run, n));
  }

  /** A record holds the site's outcomes since the cutoff of the last pruning, and no others. */
  lemma {:induction false} RecordIsWindow(cfg: Config, run: seq<Event>, n: nat, s: Site)
    requires Ordered(run) && n <= |run|
    ensures RecordOf(Before(cfg, run, n), s).events == Within(OutcomesOf(run, n, s), Cutoff(cfg, run, n))
  {
    for k := 0 to n
      invariant RecordOf(Before(cfg, run, k), s).events == Within(OutcomesOf(run, k, s), Cutoff(cfg, run, k))
    {
      NextWindow(cfg, run, k, s);
    }
  }

  /** The outcomes a poll judges a site by. */
  function Judgeable(cfg: Config, run: seq<Event>, n: nat, s: Site): seq<Outcome>
    requires n < |run| && run[n].Poll?
  {
    Within(OutcomesOf(run, n, s), run[n].at - WindowSeconds(cfg))
  }

  lemma WithinTwice(all: seq<Outcome>, kept: seq<Outcome>, first: real, later: real)
    requires kept == Within(all, first) && first <= later
    ensures Within(kept, later) == Within(all, later)
  {
    PrunedTwice(all, first, later, |all|);
  }

  lemma {:induction false} CutoffGrows(cfg: Config, run: seq<Event>, n: nat)
    requires Ordered(run) && n < |run| && !run[n].Flight?
    ensures Cutoff(cfg, run, n) <= run[n].at - WindowSeconds(cfg)
  {
    CutoffIsPast(cfg, run, n);
  }

  lemma {:induction false} PollSees(cfg: Config, run: seq<Event>, n: nat, s: Site, kept: seq<Outcome>, first: real)
    requires n < |run| && run[n].Poll? && kept == Within(OutcomesOf(run, n, s), first)
    requires first <= run[n].at - WindowSeconds(cfg)
    ensures Within(kept, run[n].at - WindowSeconds(cfg)) == Judgeable(cfg, run, n, s)
  {
    WithinTwice(OutcomesOf(run, n, s), kept, first, run[n].at - WindowSeconds(cfg));
  }

  lemma {:induction false} PollSeesWindow(cfg: Config, run: seq<Event>, n: nat, s: Site)
    requires Ordered(run) && n < |run| && run[n].Poll?
    ensures Within(RecordOf(Before(cfg, run, n), s).events, run[n].at - WindowSeconds(cfg)) == Judgeable(cfg, run, n, s)
  {
    RecordIsWindow(cfg, run, n, s);
    CutoffGrows(cfg, run, n);
    PollSees(cfg, run, n, s, RecordOf(Before(cfg, run, n), s).events, Cutoff(cfg, run, n));
  }

  // ---- counting --------------------------------------------------------------------------------

  /** Which of the first `k` outcomes are `lo` or later, and which of those are failures. */
  function Since(events: seq<Outcome>, lo: real, k: nat): set<nat>
    requires k <= |events|
  {
    set i: nat | i < k && events[i].at >= lo
  }

  function FailedSince(events: seq<Outcome>, lo: real, k: nat): set<nat>
    requires k <= |events|
  {
    set i: nat | i < k && events[i].at >= lo && !events[i].ok
  }

  function JobsSince(events: seq<Outcome>, lo: real): nat { |Since(events, lo, |events|)| }

  function FailuresSince(events: seq<Outcome>, lo: real): nat { |FailedSince(events, lo, |events|)| }

  lemma {:induction false} EndedIsCount(events: seq<Outcome>, lo: real, k: nat)
    requires k <= |events|
    ensures EndedUpTo(events, lo, k) == Tally(|Since(events, lo, k)|, |FailedSince(events, lo, k)|)
  {
    if k == 0 {
      assert Since(events, lo, 0) == {} && FailedSince(events, lo, 0) == {};
    } else {
      EndedIsCount(events, lo, k - 1);
      SinceNext(events, lo, k - 1);
      FailedSinceNext(events, lo, k - 1);
    }
  }

  lemma OneMore(a: set<nat>, b: set<nat>, k: nat, more: bool)
    requires k !in a && b == if more then a + {k} else a
    ensures |b| == |a| + if more then 1 else 0
  {}

  lemma SinceNext(events: seq<Outcome>, lo: real, k: nat)
    requires k < |events|
    ensures |Since(events, lo, k + 1)| == |Since(events, lo, k)| + if events[k].at >= lo then 1 else 0
  {
    var a, b := Since(events, lo, k), Since(events, lo, k + 1);
    forall i ensures i in b <==> i in a || (i == k && events[k].at >= lo) {}
    OneMore(a, b, k, events[k].at >= lo);
  }

  lemma FailedSinceNext(events: seq<Outcome>, lo: real, k: nat)
    requires k < |events|
    ensures |FailedSince(events, lo, k + 1)| == |FailedSince(events, lo, k)| + if events[k].at >= lo && !events[k].ok then 1 else 0
  {
    var a, b := FailedSince(events, lo, k), FailedSince(events, lo, k + 1);
    forall i ensures i in b <==> i in a || (i == k && events[k].at >= lo && !events[k].ok) {}
    OneMore(a, b, k, events[k].at >= lo && !events[k].ok);
  }

  lemma {:induction false} AllIsCount(events: seq<Outcome>)
    requires forall i | 0 <= i < |events| :: events[i].at >= 0.0
    ensures AllUpTo(events, |events|) == Tally(JobsSince(events, 0.0), FailuresSince(events, 0.0))
  {
    AllIsSinceZero(events, |events|);
    EndedIsCount(events, 0.0, |events|);
  }

  // ---- rates -----------------------------------------------------------------------------------

  function Rate(failures: nat, jobs: nat): real { if jobs == 0 then 0.0 else failures as real / jobs as real }

  /** Enough failures, a high share of them, and one far above the share elsewhere, where enough jobs ran. */
  predicate Deserves(cfg: Config, atLeast: int, own: Tally, others: Tally) {
    && own.jobs > 0 && own.failures >= atLeast && Rate(own.failures, own.jobs) >= cfg.minFailureRate
    && others.jobs >= cfg.minBaselineJobs
    && Rate(own.failures, own.jobs) >= cfg.relativeFactor * Rate(others.failures, others.jobs)
  }

  lemma ShareOf(q: real, x: real, y: real, r: real)
    requires y > 0.0 && q * y == x
    ensures q >= r <==> x >= r * y
  {
    if q >= r { Scaled(r, q, y); } else { Shrunk(q, r, y); }
  }

  lemma ShareIs(x: real, y: real, r: real)
    requires y > 0.0
    ensures x / y >= r <==> x >= r * y
  {
    ShareOf(x / y, x, y, r);
  }

  lemma Shrunk(x: real, y: real, z: real)
    requires x < y && z > 0.0
    ensures x * z < y * z
  {}

  lemma Ratios(a: real, b: real, c: real, d: real, f: real)
    requires b > 0.0 && d > 0.0
    ensures a / b >= f * (c / d) <==> a * d >= f * (c * b)
  {
    ShareIs(a, b, f * (c / d));
    var q := c / d;
    assert q * d == c;
    assert f * q * b * d == f * (c * b) by { Reordered(f, q, b, d); }
    if a >= f * q * b { Scaled(f * q * b, a, d); } else { Shrunk(a, f * q * b, d); }
  }

  lemma Reordered(f: real, q: real, b: real, d: real)
    ensures f * q * b * d == f * (q * d * b)
  {}

  lemma ProductsAsReals(a: nat, b: nat)
    ensures (a * b) as real == a as real * b as real
  {}

  lemma FarAboveIs(factor: real, own: Tally, others: Tally)
    requires own.jobs > 0
    ensures (others.jobs == 0 || (own.failures * others.jobs) as real >= factor * (others.failures * own.jobs) as real)
            <==> Rate(own.failures, own.jobs) >= factor * Rate(others.failures, others.jobs)
  {
    if others.jobs == 0 {
      ShareIs(own.failures as real, own.jobs as real, 0.0);
      assert factor * 0.0 == 0.0;
    } else {
      ProductsAsReals(own.failures, others.jobs);
      ProductsAsReals(others.failures, own.jobs);
      Ratios(own.failures as real, own.jobs as real, others.failures as real, others.jobs as real, factor);
    }
  }

  /** The tests compare products; they say what the rates do. */
  lemma StandsIsDeserves(cfg: Config, own: Tally, atLeast: int, others: Tally)
    ensures Stands(cfg, own, atLeast, others) <==> Deserves(cfg, atLeast, own, others)
  {
    if own.jobs > 0 {
      ShareIs(own.failures as real, own.jobs as real, cfg.minFailureRate);
      FarAboveIs(cfg.relativeFactor, own, others);
    }
  }

  // ---- the judgement of a poll -----------------------------------------------------------------

  /** The jobs in flight, as last told. */
  function InFlight(run: seq<Event>, n: nat, s: Site): nat
    requires n <= |run|
  {
    if n == 0 then 0
    else if run[n - 1].Flight? then (if s in run[n - 1].counts then run[n - 1].counts[s] else 0)
    else InFlight(run, n - 1, s)
  }

  lemma {:induction false} RunningIsInFlight(cfg: Config, run: seq<Event>, n: nat, s: Site)
    requires n <= |run|
    ensures Before(cfg, run, n).Running(s) == InFlight(run, n, s)
  {
    if n > 0 { RunningIsInFlight(cfg, run, n - 1, s); }
  }

  /** What a poll counts for a site: the jobs in flight and all that ended, or what ended since a moment. */
  function Sent(cfg: Config, run: seq<Event>, n: nat, s: Site, since: Option<real>): Tally
    requires n < |run| && run[n].Poll?
  {
    var events := Judgeable(cfg, run, n, s);
    match since
    case None => Tally(InFlight(run, n, s) + JobsSince(events, 0.0), FailuresSince(events, 0.0))
    case Some(lo) => Tally(JobsSince(events, lo), FailuresSince(events, lo))
  }

  /** The same of all other sites among `order`. */
  function SentElsewhere(cfg: Config, run: seq<Event>, n: nat, order: seq<Site>, s: Site, since: Option<real>, k: nat): Tally
    requires n < |run| && run[n].Poll? && k <= |order|
  {
    if k == 0 then Tally(0, 0)
    else
      var rest, w := SentElsewhere(cfg, run, n, order, s, since, k - 1), Sent(cfg, run, n, order[k - 1], since);
      if order[k - 1] == s then rest else Tally(rest.jobs + w.jobs, rest.failures + w.failures)
  }

  function Elsewhere(cfg: Config, run: seq<Event>, n: nat, s: Site, since: Option<real>): Tally
    requires n < |run| && run[n].Poll?
  {
    var order := Before(cfg, run, n).order;
    SentElsewhere(cfg, run, n, order, s, since, |order|)
  }

  /** The state a poll judges, once it has pruned and lifted. */
  function Judging(cfg: Config, run: seq<Event>, n: nat): State
    requires n < |run| && run[n].Poll?
  {
    Expire(Prune(cfg, Before(cfg, run, n), run[n].at), run[n].at)
  }

  lemma {:induction false} JudgingIs(cfg: Config, run: seq<Event>, n: nat, s: Site)
    requires Ordered(run) && n < |run| && run[n].Poll? && s in Before(cfg, run, n).sites
    ensures var st := Judging(cfg, run, n);
      && s in st.sites && st.sites[s].events == Judgeable(cfg, run, n, s)
      && st.order == Before(cfg, run, n).order && st.Running(s) == InFlight(run, n, s)
  {
    PollSeesWindow(cfg, run, n, s);
    RunningIsInFlight(cfg, run, n, s);
  }

  lemma JudgeableTimes(cfg: Config, run: seq<Event>, n: nat, s: Site)
    requires Sane(cfg) && Ordered(run) && n < |run| && run[n].Poll?
    ensures EventsWithin(Judgeable(cfg, run, n, s), run[n].at)
  {
    ConsistentAlways(cfg, run, n, s);
    PollSeesWindow(cfg, run, n, s);
    PrunedWithin(RecordOf(Before(cfg, run, n), s).events, run[n].at - WindowSeconds(cfg), run[n].at);
  }

  lemma {:induction false} WeightIsSent(cfg: Config, run: seq<Event>, n: nat, s: Site, since: Option<real>)
    requires Sane(cfg) && Ordered(run) && n < |run| && run[n].Poll? && s in Before(cfg, run, n).sites
    ensures Weight(Judging(cfg, run, n), s, since) == Sent(cfg, run, n, s, since)
  {
    JudgingIs(cfg, run, n, s);
    JudgeableTimes(cfg, run, n, s);
    var events := Judgeable(cfg, run, n, s);
    if since.None? { AllIsCount(events); } else { EndedIsCount(events, since.value, |events|); }
  }

  lemma OneMoreElsewhere(cfg: Config, run: seq<Event>, n: nat, st: State, order: seq<Site>, s: Site, since: Option<real>, k: nat)
    requires n < |run| && run[n].Poll? && k < |order| && st.order == order
    requires Weight(st, order[k], since) == Sent(cfg, run, n, order[k], since)
    requires OthersUpTo(st, s, since, k) == SentElsewhere(cfg, run, n, order, s, since, k)
    ensures OthersUpTo(st, s, since, k + 1) == SentElsewhere(cfg, run, n, order, s, since, k + 1)
  {}

  lemma {:induction false} OthersAreElsewhere(cfg: Config, run: seq<Event>, n: nat, s: Site, since: Option<real>)
    requires Sane(cfg) && Ordered(run) && n < |run| && run[n].Poll?
    requires Before(cfg, run, n).Valid()
    ensures Others(Judging(cfg, run, n), s, since) == Elsewhere(cfg, run, n, s, since)
  {
    var st, order := Judging(cfg, run, n), Before(cfg, run, n).order;
    assert st.order == order;
    for i := 0 to |order|
      invariant OthersUpTo(st, s, since, i) == SentElsewhere(cfg, run, n, order, s, since, i)
    {
      assert order[i] in order;
      WeightIsSent(cfg, run, n, order[i], since);
      OneMoreElsewhere(cfg, run, n, st, order, s, since, i);
    }
  }

  lemma {:induction false} OwnIsSent(cfg: Config, run: seq<Event>, n: nat, s: Site, lift: real)
    requires Sane(cfg) && Ordered(run) && n < |run| && run[n].Poll? && s in Before(cfg, run, n).sites
    ensures Counts(Judging(cfg, run, n), s, lift) == Tally(InFlight(run, n, s) + Sent(cfg, run, n, s, Some(lift)).jobs,
                                                           Sent(cfg, run, n, s, Some(lift)).failures)
    ensures Ended(Judging(cfg, run, n).sites[s].events, lift) == Sent(cfg, run, n, s, Some(lift))
  {
    JudgingIs(cfg, run, n, s);
    JudgeableTimes(cfg, run, n, s);
    var events := Judgeable(cfg, run, n, s);
    AllIsCount(events);
    EndedIsCount(events, lift, |events|);
  }

  /**
   Most of what the site was sent since its last ban ended has failed, and far more of it than of all that the
   window holds of the other sites.
   */
  predicate FailsStanding(cfg: Config, run: seq<Event>, n: nat, s: Site, lift: real)
    requires n < |run| && run[n].Poll?
  {
    var own := Sent(cfg, run, n, s, Some(lift));
    Deserves(cfg, cfg.minFailures, Tally(InFlight(run, n, s) + own.jobs, own.failures), Elsewhere(cfg, run, n, s, None))
  }

  /** So has most of what ended there within the burst window, of which the last ban may cut off a part. */
  predicate FailsBurst(cfg: Config, run: seq<Event>, n: nat, s: Site, lift: real)
    requires n < |run| && run[n].Poll?
  {
    var start := run[n].at - cfg.burstMinutes * 60.0;
    var since := Some(if start < lift then lift else start);
    Deserves(cfg, cfg.burstFailures, Sent(cfg, run, n, s, since), Elsewhere(cfg, run, n, s, since))
  }

  lemma {:induction false} StandingIs(cfg: Config, run: seq<Event>, n: nat, s: Site, lift: real)
    requires Sane(cfg) && Ordered(run) && n < |run| && run[n].Poll? && s in Before(cfg, run, n).sites
    requires Before(cfg, run, n).Valid()
    requires s in Judging(cfg, run, n).sites && Judging(cfg, run, n).sites[s].clearedAt == lift
    ensures IsFailing(cfg, Judging(cfg, run, n), s) <==> FailsStanding(cfg, run, n, s, lift)
  {
    var st := Judging(cfg, run, n);
    OwnIsSent(cfg, run, n, s, lift);
    OthersAreElsewhere(cfg, run, n, s, None);
    StandsIsDeserves(cfg, Counts(st, s, lift), cfg.minFailures, Others(st, s, None));
  }

  lemma {:induction false} BurstIs(cfg: Config, run: seq<Event>, n: nat, s: Site, lift: real)
    requires Sane(cfg) && Ordered(run) && n < |run| && run[n].Poll? && s in Before(cfg, run, n).sites
    requires Before(cfg, run, n).Valid()
    requires s in Judging(cfg, run, n).sites && Judging(cfg, run, n).sites[s].clearedAt == lift
    ensures IsBurst(cfg, Judging(cfg, run, n), s, run[n].at) <==> FailsBurst(cfg, run, n, s, lift)
  {
    var st := Judging(cfg, run, n);
    var since := BurstSince(cfg, st.sites[s], run[n].at);
    OwnIsSent(cfg, run, n, s, since);
    OthersAreElsewhere(cfg, run, n, s, Some(since));
    StandsIsDeserves(cfg, Ended(st.sites[s].events, since), cfg.burstFailures, Others(st, s, Some(since)));
  }

  lemma {:induction false} ValidAlways(cfg: Config, run: seq<Event>, n: nat)
    requires n <= |run|
    ensures Before(cfg, run, n).Valid()
  {
    if n > 0 {
      ValidAlways(cfg, run, n - 1);
      StepStaysValid(cfg, Before(cfg, run, n - 1), run[n - 1]);
    }
  }

  lemma StepStaysValid(cfg: Config, st: State, e: Event)
    requires st.Valid()
    ensures Step(cfg, st, e).Valid()
  {
    if e.JobEnded? && e.site.Some? && e.site.value !in st.sites { DistinctAppend(st.order, e.site.value); }
  }

  lemma {:induction false} KnownIfHeard(cfg: Config, run: seq<Event>, n: nat, s: Site)
    requires n <= |run|
    ensures s in Before(cfg, run, n).sites <==> OutcomesOf(run, n, s) != []
  {
    if n > 0 { KnownIfHeard(cfg, run, n - 1, s); }
  }

  /** What a poll of an enabled quarantine makes of a site it knows. */
  lemma {:induction false} PollJudges(cfg: Config, run: seq<Event>, n: nat, s: Site)
    requires Sane(cfg) && Ordered(run) && n < |run| && run[n].Poll? && cfg.enabled && s in Before(cfg, run, n).sites
    ensures var lift, st := LastUntil(BansOf(cfg, run, n, s)), Judging(cfg, run, n);
      && s in st.sites && (st.sites[s].until <= run[n].at <==> lift <= run[n].at)
      && (lift <= run[n].at ==> st.sites[s].clearedAt == lift)
      && (NewBan(cfg, Before(cfg, run, n), run[n], s).Some? <==> Offends(cfg, st, s, run[n].at))
  {
    ConsistentAlways(cfg, run, n, s);
    PollRecord(cfg, Before(cfg, run, n), run[n].at, s);
  }

  lemma NoPollNoBan(cfg: Config, st: State, now: real, s: Site)
    requires !cfg.enabled || s !in st.sites
    ensures NewBan(cfg, st, Poll(now), s).None?
  {}

  /**
   A poll bans a site exactly if bans are enabled, the site has ever ended a job, its last ban is over, and it
   fails the standing test or the burst test.
   */
  lemma {:induction false} BannedExactlyWhen(cfg: Config, run: seq<Event>, n: nat, s: Site)
    requires Sane(cfg) && Ordered(run) && n < |run| && run[n].Poll?
    ensures var lift := LastUntil(BansOf(cfg, run, n, s));
      NewBan(cfg, Before(cfg, run, n), run[n], s).Some? <==>
        && cfg.enabled && OutcomesOf(run, n, s) != [] && lift <= run[n].at
        && (FailsStanding(cfg, run, n, s, lift) || FailsBurst(cfg, run, n, s, lift))
  {
    var lift := LastUntil(BansOf(cfg, run, n, s));
    KnownIfHeard(cfg, run, n, s);
    if cfg.enabled && s in Before(cfg, run, n).sites {
      ValidAlways(cfg, run, n);
      PollJudges(cfg, run, n, s);
      if lift <= run[n].at {
        StandingIs(cfg, run, n, s, lift);
        BurstIs(cfg, run, n, s, lift);
      }
    } else {
      NoPollNoBan(cfg, Before(cfg, run, n), run[n].at, s);
    }
  }
}
