/** What the quarantines guarantee: evidence is used once, bans escalate once per offence, our own bug spares a site. */
module SiteTheorems {
  import opened Lists
  import opened Wrappers
  import opened SiteStats
  import opened SiteRuns

  // ---- bans of one site ------------------------------------------------------------------------

  /** When the last ban ends, 0 before the first. */
  function LastUntil(bans: seq<Ban>): real { if bans == [] then 0.0 else bans[|bans| - 1].until }

  /** The ban a poll imposes begins at the poll, no earlier than the end of the last, and lasts what it should. */
  lemma {:induction false} NextBan(cfg: Config, run: seq<Event>, n: nat, s: Site)
    requires Sane(cfg) && Ordered(run) && n < |run| && NewBan(cfg, Before(cfg, run, n), run[n], s).Some?
    ensures IsNext(cfg, Before(cfg, run, n), run[n], s, BansOf(cfg, run, n, s))
  {
    ConsistentAlways(cfg, run, n, s);
    BanIsNext(cfg, Before(cfg, run, n), run[n], s, BansOf(cfg, run, n, s), Clock(run, n));
  }

  predicate IsNext(cfg: Config, st: State, e: Event, s: Site, bans: seq<Ban>) {
    && e.Poll? && s in st.sites && Refreshed(cfg, RecordOf(st, s), e.at).clearedAt == LastUntil(bans) <= e.at
    && NewBan(cfg, st, e, s) == Some(Ban(e.at, e.at + BanSeconds(cfg, |bans|)))
  }

  lemma BanIsNext(cfg: Config, st: State, e: Event, s: Site, bans: seq<Ban>, before: real)
    requires NewBan(cfg, st, e, s).Some? && Consistent(RecordOf(st, s), bans, before) && before <= e.at
    ensures IsNext(cfg, st, e, s, bans)
  {}

  /** One event before a ban has run out changes nothing of it. */
  lemma BanOutlastsEvent(cfg: Config, st: State, e: Event, s: Site)
    requires s in st.sites && st.sites[s].until > 0.0 && (!e.Flight? ==> e.at < st.sites[s].until)
    ensures var rec := RecordOf(Step(cfg, st, e), s);
      && s in Step(cfg, st, e).sites && rec.quarantines == st.sites[s].quarantines
      && rec.until == st.sites[s].until && rec.clearedAt == st.sites[s].clearedAt
    ensures NewBan(cfg, st, e, s).None?
  {}

  /**
   While a ban runs, no poll and no further failure imposes another, lengthens it or counts it again: from
   any moment on, until its end, the record keeps its count, its deadline and its last lift.
   */
  lemma {:induction false} PollingThroughABan(cfg: Config, run: seq<Event>, i: nat, n: nat, s: Site)
    requires i <= n <= |run| && s in Before(cfg, run, i).sites && Before(cfg, run, i).sites[s].until > 0.0
    requires forall k | i <= k < n :: !run[k].Flight? ==> run[k].at < Before(cfg, run, i).sites[s].until
    ensures var was, now := RecordOf(Before(cfg, run, i), s), RecordOf(Before(cfg, run, n), s);
      && s in Before(cfg, run, n).sites && now.quarantines == was.quarantines
      && now.until == was.until && now.clearedAt == was.clearedAt
    ensures BansOf(cfg, run, n, s) == BansOf(cfg, run, i, s)
  {
    if i < n {
      PollingThroughABan(cfg, run, i, n - 1, s);
      BanOutlastsEvent(cfg, Before(cfg, run, n - 1), run[n - 1], s);
    }
  }

  /** Each ban lasts at least as long as the one before it, and twice as long below the ceiling. */
  lemma BansGrow(cfg: Config, q: nat)
    requires Sane(cfg)
    ensures BanSeconds(cfg, q) <= BanSeconds(cfg, q + 1) <= cfg.maxQuarantineHours * 3600.0
    ensures q < 20 && 2.0 * BanSeconds(cfg, q) <= cfg.maxQuarantineHours * 3600.0 ==>
            BanSeconds(cfg, q + 1) == 2.0 * BanSeconds(cfg, q)
  {
    if q < 20 {
      Pow2Positive(q);
      var hours := cfg.quarantineHours * Pow2(q);
      assert cfg.quarantineHours * Pow2(q + 1) == 2.0 * hours && hours > 0.0;
    }
  }

  // ---- evidence --------------------------------------------------------------------------------

  /** How many of the first `k` times are `lo` or later. */
  function FromUpTo(times: seq<real>, lo: real, k: nat): nat
    requires k <= |times|
  {
    if k == 0 then 0 else FromUpTo(times, lo, k - 1) + if times[k - 1] >= lo then 1 else 0
  }

  function From(times: seq<real>, lo: real): nat { FromUpTo(times, lo, |times|) }

  lemma {:induction false} FromPrefix(a: seq<real>, b: seq<real>, lo: real, k: nat)
    requires k <= |a|
    ensures FromUpTo(a + b, lo, k) == FromUpTo(a, lo, k)
  {
    if k > 0 { FromPrefix(a, b, lo, k - 1); }
  }

  lemma FromAppend(times: seq<real>, t: real, lo: real)
    ensures From(times + [t], lo) == From(times, lo) + if t >= lo then 1 else 0
  {
    FromPrefix(times, [t], lo, |times|);
  }

  lemma {:induction false} FromBounds(times: seq<real>, lo: real, hi: real, k: nat)
    requires k <= |times| && lo <= hi
    ensures FromUpTo(times, hi, k) <= FromUpTo(times, lo, k) <= k
  {
    if k > 0 { FromBounds(times, lo, hi, k - 1); }
  }

  lemma {:induction false} NoneFrom(times: seq<real>, lo: real, k: nat)
    requires k <= |times| && forall i | 0 <= i < |times| :: times[i] < lo
    ensures FromUpTo(times, lo, k) == 0
  {
    if k > 0 { NoneFrom(times, lo, k - 1); }
  }

  lemma {:induction false} FailedBefore(run: seq<Event>, n: nat, s: Site)
    requires Ordered(run) && n <= |run|
    ensures forall i | 0 <= i < |Failed(run, n, s)| :: Failed(run, n, s)[i] <= Clock(run, n)
  {
    if n > 0 { FailedBefore(run, n - 1, s); }
  }

  lemma {:induction false} EndedPrefix(a: seq<Outcome>, b: seq<Outcome>, lo: real, k: nat)
    requires k <= |a|
    ensures EndedUpTo(a + b, lo, k) == EndedUpTo(a, lo, k)
  {
    if k > 0 { EndedPrefix(a, b, lo, k - 1); }
  }

  lemma EndedAppend(events: seq<Outcome>, e: Outcome, lo: real)
    ensures Ended(events + [e], lo).jobs == Ended(events, lo).jobs + if e.at >= lo then 1 else 0
    ensures Ended(events + [e], lo).failures == Ended(events, lo).failures + if e.at >= lo && !e.ok then 1 else 0
  {
    EndedPrefix(events, [e], lo, |events|);
  }

  lemma {:induction false} PruningForgets(events: seq<Outcome>, cutoff: real, lo: real, k: nat)
    requires k <= |events|
    ensures Ended(KeptUpTo(events, cutoff, k), lo).failures <= EndedUpTo(events, lo, k).failures
  {
    if k > 0 {
      var kept := KeptUpTo(events, cutoff, k - 1);
      PruningForgets(events, cutoff, lo, k - 1);
      EndedAppend(kept, events[k - 1], lo);
      assert kept + [] == kept;
    }
  }

  predicate FailsHere(e: Event, s: Site) { e.JobEnded? && e.site == Some(s) && !e.ok }

  /** A job that ended adds its own failure at most, whatever the pruning drops. */
  lemma JobAddsOne(events: seq<Outcome>, e: Outcome, cutoff: real, lo: real)
    ensures Ended(KeptUpTo(events + [e], cutoff, |events| + 1), lo).failures
            <= Ended(events, lo).failures + if e.at >= lo && !e.ok then 1 else 0
  {
    EndedAppend(events, e, lo);
    PruningForgets(events + [e], cutoff, lo, |events| + 1);
  }

  lemma RecordGainsNoMore(cfg: Config, st: State, e: Event, s: Site, lo: real)
    ensures Ended(RecordAfter(cfg, st, e, s).events, lo).failures
            <= Ended(RecordOf(st, s).events, lo).failures + if FailsHere(e, s) && e.at >= lo then 1 else 0
  {
    var events := RecordOf(st, s).events;
    match e
    case Flight(_) =>
    case JobEnded(site, ok, at) =>
      var cutoff := at - cfg.windowHours * 3600.0;
      if site == Some(s) {
        JobAddsOne(events, Outcome(at, ok), cutoff, lo);
      } else {
        PruningForgets(events, cutoff, lo, |events|);
      }
    case Poll(at) =>
      PruningForgets(events, at - cfg.windowHours * 3600.0, lo, |events|);
  }

  lemma FailedStep(run: seq<Event>, n: nat, s: Site, lo: real)
    requires n < |run|
    ensures From(Failed(run, n + 1, s), lo) ==
            From(Failed(run, n, s), lo) + if FailsHere(run[n], s) && run[n].at >= lo then 1 else 0
    ensures |Failed(run, n + 1, s)| == |Failed(run, n, s)| + if FailsHere(run[n], s) then 1 else 0
  {
    if FailsHere(run[n], s) {
      FromAppend(Failed(run, n, s), run[n].at, lo);
    } else {
      assert Failed(run, n, s) + [] == Failed(run, n, s);
    }
  }

  lemma RecordStaysTrue(cfg: Config, run: seq<Event>, n: nat, s: Site, lo: real)
    requires n < |run| && Ended(RecordOf(Before(cfg, run, n), s).events, lo).failures <= From(Failed(run, n, s), lo)
    ensures Ended(RecordOf(Before(cfg, run, n + 1), s).events, lo).failures <= From(Failed(run, n + 1, s), lo)
  {
    StepRecord(cfg, Before(cfg, run, n), run[n], s);
    RecordGainsNoMore(cfg, Before(cfg, run, n), run[n], s, lo);
    FailedStep(run, n, s, lo);
  }

  /** The failures a record holds since any moment did happen since then. */
  lemma {:induction false} RecordsAreTrue(cfg: Config, run: seq<Event>, n: nat, s: Site, lo: real)
    requires n <= |run|
    ensures Ended(RecordOf(Before(cfg, run, n), s).events, lo).failures <= From(Failed(run, n, s), lo)
  {
    for k := 0 to n
      invariant Ended(RecordOf(Before(cfg, run, k), s).events, lo).failures <= From(Failed(run, k, s), lo)
    {
      RecordStaysTrue(cfg, run, k, s, lo);
    }
  }

  lemma {:induction false} AllIsSinceZero(events: seq<Outcome>, k: nat)
    requires k <= |events| && forall i | 0 <= i < |events| :: events[i].at >= 0.0
    ensures AllUpTo(events, k) == EndedUpTo(events, 0.0, k)
  {
    if k > 0 { AllIsSinceZero(events, k - 1); }
  }

  lemma {:induction false} LaterIsFewer(events: seq<Outcome>, lo: real, hi: real, k: nat)
    requires k <= |events| && lo <= hi
    ensures EndedUpTo(events, hi, k).failures <= EndedUpTo(events, lo, k).failures
  {
    if k > 0 { LaterIsFewer(events, lo, hi, k - 1); }
  }

  function MinInt(a: int, b: int): int { if a < b then a else b }

  /** The fewest failures any ban needs. */
  function Price(cfg: Config): int { MinInt(cfg.minFailures, cfg.burstFailures) }

  /** An offender has at least the price in failures since its last ban was lifted. */
  lemma OffenceHasEvidence(cfg: Config, st: State, s: Site, now: real)
    requires s in st.sites && Offends(cfg, st, s, now)
    requires forall i | 0 <= i < |st.sites[s].events| :: st.sites[s].events[i].at >= 0.0
    ensures Ended(st.sites[s].events, st.sites[s].clearedAt).failures >= Price(cfg)
  {
    var rec := st.sites[s];
    AllIsSinceZero(rec.events, |rec.events|);
    LaterIsFewer(rec.events, rec.clearedAt, BurstSince(cfg, rec, now), |rec.events|);
  }

  /**
   A ban rests on failures since the ban before it was lifted; the ones that earned an earlier ban are
   older than that and cannot arm another.
   */
  lemma {:induction false} BanHasFreshEvidence(cfg: Config, run: seq<Event>, n: nat, s: Site)
    requires Sane(cfg) && Ordered(run) && n < |run| && NewBan(cfg, Before(cfg, run, n), run[n], s).Some?
    ensures From(Failed(run, n, s), LastUntil(BansOf(cfg, run, n, s))) >= Price(cfg)
  {
    var st := Before(cfg, run, n);
    NextBan(cfg, run, n, s);
    ConsistentAlways(cfg, run, n, s);
    BanHasEvidence(cfg, st, run[n].at, s);
    RecordsAreTrue(cfg, run, n, s, Refreshed(cfg, RecordOf(st, s), run[n].at).clearedAt);
  }

  /** A poll that bans finds the price in failures recorded since the last ban was lifted. */
  lemma BanHasEvidence(cfg: Config, st: State, now: real, s: Site)
    requires NewBan(cfg, st, Poll(now), s).Some? && s in st.sites && EventsWithin(st.sites[s].events, now)
    ensures Ended(st.sites[s].events, Refreshed(cfg, st.sites[s], now).clearedAt).failures >= Price(cfg)
  {
    var rec, cutoff := st.sites[s], now - cfg.windowHours * 3600.0;
    var lo := Refreshed(cfg, rec, now).clearedAt;
    PollRecord(cfg, st, now, s);
    PrunedWithin(rec.events, cutoff, now);
    OffenceHasEvidence(cfg, Expire(Prune(cfg, st, now), now), s, now);
    PruningForgets(rec.events, cutoff, lo, |rec.events|);
  }

  /** The bans are paid for, and the failures since the last one's end are still unspent. */
  predicate Earned(cfg: Config, bans: seq<Ban>, failed: seq<real>) {
    |bans| * Price(cfg) + From(failed, LastUntil(bans)) <= |failed|
  }

  lemma {:induction false} NoneAfterBan(cfg: Config, run: seq<Event>, n: nat, s: Site, q: nat)
    requires Sane(cfg) && Ordered(run) && n < |run| && run[n].Poll?
    ensures From(Failed(run, n, s), run[n].at + BanSeconds(cfg, q)) == 0
  {
    BanSecondsPositive(cfg, q);
    FailedBefore(run, n, s);
    NoneFrom(Failed(run, n, s), run[n].at + BanSeconds(cfg, q), |Failed(run, n, s)|);
  }

  /** A ban that may follow `bans` at time `now`: after the last one, of the next length, on fresh failures. */
  predicate Follows(cfg: Config, bans: seq<Ban>, ban: Ban, now: real, failed: seq<real>) {
    && ban == Ban(now, now + BanSeconds(cfg, |bans|)) && LastUntil(bans) <= now < ban.until
    && From(failed, LastUntil(bans)) >= Price(cfg) && From(failed, ban.until) == 0
  }

  /** What an event adds to the bans of a site: nothing, or one that follows the others. */
  lemma {:induction false} BanStep(cfg: Config, run: seq<Event>, n: nat, s: Site)
    requires Sane(cfg) && Ordered(run) && n < |run|
    ensures var ban := NewBan(cfg, Before(cfg, run, n), run[n], s);
            ban.Some? ==> run[n].Poll? && Follows(cfg, BansOf(cfg, run, n, s), ban.value, run[n].at, Failed(run, n, s))
  {
    if NewBan(cfg, Before(cfg, run, n), run[n], s).Some? {
      var bans := BansOf(cfg, run, n, s);
      NextBan(cfg, run, n, s);
      BanHasFreshEvidence(cfg, run, n, s);
      NoneAfterBan(cfg, run, n, s, |bans|);
      BanSecondsPositive(cfg, |bans|);
    }
  }

  /** The i-th ban lasts the base doubled i times, up to the ceiling, and starts when the one before is over. */
  ghost predicate Escalating(cfg: Config, bans: seq<Ban>) {
    && (forall i | 0 <= i < |bans| :: bans[i].until - bans[i].from == BanSeconds(cfg, i) > 0.0)
    && forall i | 0 < i < |bans| :: bans[i - 1].until <= bans[i].from
  }

  lemma FollowerEscalates(cfg: Config, bans: seq<Ban>, ban: Ban, now: real, failed: seq<real>)
    requires Escalating(cfg, bans) && Follows(cfg, bans, ban, now, failed)
    ensures Escalating(cfg, bans + [ban])
  {}

  lemma OneMore(n: nat, price: int)
    ensures (n + 1) * price == n * price + price
  {}

  lemma FollowerIsEarned(cfg: Config, bans: seq<Ban>, ban: Ban, now: real, failed: seq<real>)
    requires Earned(cfg, bans, failed) && Follows(cfg, bans, ban, now, failed)
    ensures Earned(cfg, bans + [ban], failed)
  {
    OneMore(|bans|, Price(cfg));
    assert LastUntil(bans + [ban]) == ban.until;
  }

  lemma GrownIsFine(cfg: Config, bans: seq<Ban>, ban: Option<Ban>, now: real, failed: seq<real>)
    requires Escalating(cfg, bans) && Earned(cfg, bans, failed) && (ban.Some? ==> Follows(cfg, bans, ban.value, now, failed))
    ensures Escalating(cfg, Grown(bans, ban)) && Earned(cfg, Grown(bans, ban), failed)
  {
    if ban.Some? {
      FollowerEscalates(cfg, bans, ban.value, now, failed);
      FollowerIsEarned(cfg, bans, ban.value, now, failed);
    }
  }

  lemma EscalationStep(cfg: Config, run: seq<Event>, k: nat, s: Site)
    requires Sane(cfg) && Ordered(run) && k < |run|
    requires Escalating(cfg, BansOf(cfg, run, k, s)) && Earned(cfg, BansOf(cfg, run, k, s), Failed(run, k, s))
    ensures Escalating(cfg, BansOf(cfg, run, k + 1, s)) && Earned(cfg, BansOf(cfg, run, k + 1, s), Failed(run, k + 1, s))
  {
    var bans, ban := BansOf(cfg, run, k, s), NewBan(cfg, Before(cfg, run, k), run[k], s);
    BanStep(cfg, run, k, s);
    GrownIsFine(cfg, bans, ban, if run[k].Poll? then run[k].at else 0.0, Failed(run, k, s));
    FailedStep(run, k, s, LastUntil(Grown(bans, ban)));
  }

  /**
   Bans escalate exactly once per offence, and no two of one site overlap. Evidence is never reused: the
   bans of a site, times the fewest failures one needs, never exceed the failures recorded there -- even
   less those since the end of the last ban.
   */
  lemma {:induction false} BansEscalateAndAreEarned(cfg: Config, run: seq<Event>, n: nat, s: Site)
    requires Sane(cfg) && Ordered(run) && n <= |run|
    ensures Escalating(cfg, BansOf(cfg, run, n, s)) && Earned(cfg, BansOf(cfg, run, n, s), Failed(run, n, s))
    ensures |BansOf(cfg, run, n, s)| * MinInt(cfg.minFailures, cfg.burstFailures) <= |Failed(run, n, s)|
  {
    for k := 0 to n
      invariant Escalating(cfg, BansOf(cfg, run, k, s)) && Earned(cfg, BansOf(cfg, run, k, s), Failed(run, k, s))
    {
      EscalationStep(cfg, run, k, s);
    }
  }

  // ---- our own bug -----------------------------------------------------------------------------

  /** No site that counts in the baseline has a lower failure rate. */
  ghost predicate LowestRate(st: State, s: Site, own: Tally, since: Option<real>) {
    forall o <- st.sites :: o != s ==>
      own.failures * Weight(st, o, since).jobs <= Weight(st, o, since).failures * own.jobs
  }

  lemma AddRates(f: nat, n: nat, f1: nat, n1: nat, f2: nat, n2: nat)
    requires f * n1 <= f1 * n && f * n2 <= f2 * n
    ensures f * (n1 + n2) <= (f1 + f2) * n
  {}

  /** A rate no higher than each of several is no higher than their weighted mean. */
  lemma {:induction false} MeanIsNoLower(st: State, s: Site, own: Tally, since: Option<real>, k: nat)
    requires LowestRate(st, s, own, since) && k <= |st.order|
    ensures own.failures * OthersUpTo(st, s, since, k).jobs <= OthersUpTo(st, s, since, k).failures * own.jobs
  {
    if k > 0 {
      MeanIsNoLower(st, s, own, since, k - 1);
      var rest, w := OthersUpTo(st, s, since, k - 1), Weight(st, st.order[k - 1], since);
      if st.order[k - 1] != s {
        WeightIsHigher(st, s, own, since, st.order[k - 1]);
        AddRates(own.failures, own.jobs, rest.failures, rest.jobs, w.failures, w.jobs);
      }
    }
  }

  lemma WeightIsHigher(st: State, s: Site, own: Tally, since: Option<real>, o: Site)
    requires LowestRate(st, s, own, since) && o != s
    ensures own.failures * Weight(st, o, since).jobs <= Weight(st, o, since).failures * own.jobs
  {}

  lemma NotFarAbove(factor: real, f: nat, n: nat, others: Tally)
    requires factor > 1.0 && f >= 1 && others.jobs >= 1 && f * others.jobs <= others.failures * n
    ensures (f * others.jobs) as real < factor * (others.failures * n) as real
  {
    var a, b := f * others.jobs, others.failures * n;
    assert a > 0;
    FactorExceeds(factor, a, b);
  }

  lemma FactorExceeds(factor: real, a: int, b: int)
    requires factor > 1.0 && 0 < a <= b
    ensures a as real < factor * b as real
  {}

  /** A site that fails no more often than the others does not stand out, by any factor above one. */
  lemma LowestDoesNotStandOut(cfg: Config, st: State, s: Site, own: Tally, atLeast: int, since: Option<real>)
    requires cfg.relativeFactor > 1.0 && cfg.minBaselineJobs >= 1 && atLeast >= 1
    requires LowestRate(st, s, own, since)
    ensures !Stands(cfg, own, atLeast, Others(st, s, since))
  {
    var others := Others(st, s, since);
    MeanIsNoLower(st, s, own, since, |st.order|);
    DoesNotStandOut(cfg, own, atLeast, others);
  }

  lemma DoesNotStandOut(cfg: Config, own: Tally, atLeast: int, others: Tally)
    requires cfg.relativeFactor > 1.0 && cfg.minBaselineJobs >= 1 && atLeast >= 1
    requires own.failures * others.jobs <= others.failures * own.jobs
    ensures !Stands(cfg, own, atLeast, others)
  {
    if own.failures >= 1 && others.jobs >= 1 {
      NotFarAbove(cfg.relativeFactor, own.failures, own.jobs, others);
    }
  }

  /** Nothing recorded at the site is older than its last lift, so the lift hides nothing. */
  predicate NoLiftInside(rec: Record) { forall i | 0 <= i < |rec.events| :: rec.events[i].at >= rec.clearedAt }

  lemma {:induction false} LiftHidesNothing(events: seq<Outcome>, lo: real, k: nat)
    requires k <= |events| && forall i | 0 <= i < |events| :: events[i].at >= lo
    ensures EndedUpTo(events, lo, k) == AllUpTo(events, k)
  {
    if k > 0 { LiftHidesNothing(events, lo, k - 1); }
  }

  /**
   With no earlier lift in its record, a site no worse than any other passes neither test -- the standing
   one over all jobs, the burst one over the burst window.
   */
  lemma LowestRateIsSpared(cfg: Config, st: State, s: Site, now: real)
    requires s in st.sites && NoLiftInside(st.sites[s])
    requires cfg.relativeFactor > 1.0 && cfg.minBaselineJobs >= 1 && cfg.minFailures >= 1 && cfg.burstFailures >= 1
    ensures LowestRate(st, s, Counts(st, s, 0.0), None) ==> !IsFailing(cfg, st, s)
    ensures var since := BurstSince(cfg, st.sites[s], now);
            LowestRate(st, s, Ended(st.sites[s].events, since), Some(since)) ==> !IsBurst(cfg, st, s, now)
  {
    var rec := st.sites[s];
    LiftHidesNothing(rec.events, rec.clearedAt, |rec.events|);
    if LowestRate(st, s, Counts(st, s, 0.0), None) {
      LowestDoesNotStandOut(cfg, st, s, Counts(st, s, rec.clearedAt), cfg.minFailures, None);
    }
    var since := BurstSince(cfg, rec, now);
    if LowestRate(st, s, Ended(rec.events, since), Some(since)) {
      LowestDoesNotStandOut(cfg, st, s, Ended(rec.events, since), cfg.burstFailures, Some(since));
    }
  }

  lemma RatesOrder(f1: nat, n1: nat, f2: nat, n2: nat, f3: nat, n3: nat)
    requires n2 > 0 && f1 * n2 <= f2 * n1 && f2 * n3 <= f3 * n2
    ensures f1 * n3 <= f3 * n1
  {}

  predicate NoHigher(st: State, since: Option<real>, a: Site, b: Site) {
    Weight(st, a, since).failures * Weight(st, b, since).jobs <= Weight(st, b, since).failures * Weight(st, a, since).jobs
  }

  /** Among sites that all had jobs there is one that fails no more often than any other. */
  lemma LowestExists(st: State, since: Option<real>, k: nat) returns (s: Site)
    requires 0 < k <= |st.order| && forall o <- st.order :: Weight(st, o, since).jobs > 0
    ensures s in st.order && forall i | 0 <= i < k :: NoHigher(st, since, s, st.order[i])
  {
    s := st.order[0];
    for i := 1 to k
      invariant s in st.order && forall j | 0 <= j < i :: NoHigher(st, since, s, st.order[j])
    {
      if !NoHigher(st, since, s, st.order[i]) {
        var t := st.order[i];
        forall j | 0 <= j < i ensures NoHigher(st, since, t, st.order[j]) {
          var a, b, c := Weight(st, t, since), Weight(st, s, since), Weight(st, st.order[j], since);
          RatesOrder(a.failures, a.jobs, b.failures, b.jobs, c.failures, c.jobs);
        }
        s := t;
      }
    }
  }

  /** Over one window for all, some site had no jobs or fails no more often than any other. */
  lemma LowestSite(st: State, since: Option<real>) returns (s: Site)
    requires st.Valid() && st.order != []
    ensures s in st.sites && (Weight(st, s, since).jobs == 0 || LowestRate(st, s, Weight(st, s, since), since))
  {
    if o :| o in st.order && Weight(st, o, since).jobs == 0 {
      s := o;
    } else {
      s := LowestExists(st, since, |st.order|);
      forall o <- st.sites ensures NoHigher(st, since, s, o) {
        assert o in st.order;
        var i :| 0 <= i < |st.order| && st.order[i] == o;
      }
    }
  }

  /** A site with no jobs, or no more failures than elsewhere, does not stand out. */
  lemma LowestIsSpared(cfg: Config, st: State, s: Site, atLeast: int, since: Option<real>)
    requires cfg.relativeFactor > 1.0 && cfg.minBaselineJobs >= 1 && atLeast >= 1
    requires Weight(st, s, since).jobs == 0 || LowestRate(st, s, Weight(st, s, since), since)
    ensures !Stands(cfg, Weight(st, s, since), atLeast, Others(st, s, since))
  {
    if Weight(st, s, since).jobs > 0 { LowestDoesNotStandOut(cfg, st, s, Weight(st, s, since), atLeast, since); }
  }

  lemma LiftCountsAll(st: State, s: Site)
    requires s in st.sites && NoLiftInside(st.sites[s])
    ensures Counts(st, s, st.sites[s].clearedAt) == Weight(st, s, None)
  {
    LiftHidesNothing(st.sites[s].events, st.sites[s].clearedAt, |st.sites[s].events|);
  }

  /**
   Our own bug cannot make every site fail the standing test: with no lift inside a record, whatever fails
   everywhere, some site passes.
   */
  lemma SomeSiteIsSpared(cfg: Config, st: State) returns (s: Site)
    requires st.Valid() && st.order != [] && forall o <- st.sites :: NoLiftInside(st.sites[o])
    requires cfg.relativeFactor > 1.0 && cfg.minBaselineJobs >= 1 && cfg.minFailures >= 1
    ensures s in st.sites && !IsFailing(cfg, st, s)
  {
    s := LowestSite(st, None);
    LowestIsSpared(cfg, st, s, cfg.minFailures, None);
    LiftCountsAll(st, s);
  }

  /** Nor can it make every site a burst, with no lift inside the burst window. */
  lemma SomeSiteIsNoBurst(cfg: Config, st: State, now: real) returns (s: Site)
    requires st.Valid() && st.order != []
    requires forall o <- st.sites :: st.sites[o].clearedAt <= now - cfg.burstMinutes * 60.0
    requires cfg.relativeFactor > 1.0 && cfg.minBaselineJobs >= 1 && cfg.burstFailures >= 1
    ensures s in st.sites && !IsBurst(cfg, st, s, now)
  {
    var since := Some(now - cfg.burstMinutes * 60.0);
    s := LowestSite(st, since);
    LowestIsSpared(cfg, st, s, cfg.burstFailures, since);
  }

  // ---- and when it can ban them all ------------------------------------------------------------

  lemma {:induction false} AllOf(events: seq<Outcome>, before: real)
    requires forall i | 0 <= i < |events| :: events[i].at >= before
    ensures AllUpTo(events, |events|) == Ended(events, before)
  {
    LiftHidesNothing(events, before, |events|);
  }

  function TwoSites(a: Site, ra: Record, b: Site, rb: Record): State {
    State(map[a := ra, b := rb], [a, b], map[])
  }

  lemma TwoAreValid(a: Site, ra: Record, b: Site, rb: Record)
    requires a != b
    ensures TwoSites(a, ra, b, rb).Valid()
  {
    DistinctAppend([a], b);
    assert [a] + [b] == [a, b];
  }

  lemma OthersOfTwo(a: Site, ra: Record, b: Site, rb: Record, since: Option<real>)
    requires a != b
    ensures var st := TwoSites(a, ra, b, rb);
      Others(st, a, since) == Weight(st, b, since) && Others(st, b, since) == Weight(st, a, since)
  {
    var st := TwoSites(a, ra, b, rb);
    assert OthersUpTo(st, a, since, 1) == Tally(0, 0);
    assert OthersUpTo(st, b, since, 1) == Weight(st, a, since);
  }

  /**
   `k` jobs are enough for every threshold, and `m` times as many of one kind for the rates: for the defaults
   20 and 2 will do.
   */
  predicate Suffice(cfg: Config, m: nat, k: nat) {
    && m >= 1 && k >= 1 && cfg.minFailures <= k && cfg.burstFailures <= k && cfg.minBaselineJobs <= k
    && cfg.relativeFactor <= m as real && cfg.minFailureRate * (m + 1) as real <= m as real
  }

  /** For every setting that can be met at all, there are such numbers. */
  lemma SufficeExist(cfg: Config) returns (m: nat, k: nat)
    requires cfg.minFailureRate < 1.0
    ensures Suffice(cfg, m, k)
  {
    k := PositiveAbove(Max(cfg.minFailures as real, Max(cfg.burstFailures as real, cfg.minBaselineJobs as real)));
    var odds := cfg.minFailureRate / (1.0 - cfg.minFailureRate);
    m := PositiveAbove(Max(cfg.relativeFactor, odds));
    OddsCover(cfg.minFailureRate, odds, m as real);
  }

  lemma PositiveAbove(x: real) returns (n: nat)
    ensures n >= 1 && n as real >= x
  {
    n := if x < 1.0 then 1 else x.Floor + 1;
  }

  lemma OddsCover(rate: real, odds: real, m: real)
    requires rate < 1.0 && odds == rate / (1.0 - rate) && m >= odds
    ensures rate * (m + 1.0) <= m
  {
    Scaled(odds, m, 1.0 - rate);
    assert odds * (1.0 - rate) == rate;
  }

  lemma Scaled(x: real, y: real, z: real)
    requires x <= y && z >= 0.0
    ensures x * z <= y * z
  {}

  lemma RatesMeet(rate: real, m: real, failures: real, jobs: real)
    requires rate * (m + 1.0) <= m && m * jobs <= (m + 1.0) * failures && jobs >= 0.0 && m >= 0.0
    ensures failures >= rate * jobs
  {
    Scaled(rate * (m + 1.0), m, jobs);
    Regrouped(rate, m + 1.0, jobs);
    Divided(rate * jobs, failures, m + 1.0);
  }

  lemma AsReals(m: nat, jobs: nat, failures: nat)
    requires m * jobs <= (m + 1) * failures
    ensures m as real * jobs as real <= (m as real + 1.0) * failures as real
  {
    assert (m * jobs) as real == m as real * jobs as real;
    assert ((m + 1) * failures) as real == (m + 1) as real * failures as real;
  }

  lemma HighRate(rate: real, m: nat, failures: nat, jobs: nat)
    requires rate * (m + 1) as real <= m as real && m * jobs <= (m + 1) * failures
    ensures failures as real >= rate * jobs as real
  {
    AsReals(m, jobs, failures);
    RatesMeet(rate, m as real, failures as real, jobs as real);
  }

  lemma Regrouped(x: real, y: real, z: real)
    ensures x * y * z == y * (x * z)
  {}

  lemma Divided(x: real, y: real, z: real)
    requires z > 0.0 && z * x <= z * y
    ensures x <= y
  {}

  lemma TimesIsFar(factor: real, m: nat, x: nat, y: nat)
    requires factor <= m as real && x >= m * y
    ensures x as real >= factor * y as real
  {
    Scaled(factor, m as real, y as real);
    assert (m * y) as real == m as real * y as real;
    assert x as real >= (m * y) as real;
  }

  lemma FarAbove(cfg: Config, m: nat, k: nat, own: Tally, atLeast: int, others: Tally)
    requires Suffice(cfg, m, k) && atLeast <= k <= own.failures && own.jobs > 0 && others.jobs >= k
    requires m * own.jobs <= (m + 1) * own.failures
    requires own.failures * others.jobs >= m * (others.failures * own.jobs)
    ensures Stands(cfg, own, atLeast, others)
  {
    HighRate(cfg.minFailureRate, m, own.failures, own.jobs);
    TimesIsFar(cfg.relativeFactor, m, own.failures * others.jobs, others.failures * own.jobs);
  }

  function Repeat(e: Outcome, n: nat): seq<Outcome> { if n == 0 then [] else Repeat(e, n - 1) + [e] }

  /** `m * k` jobs that ended alike, and later `k` more; the last ban was lifted at `lift`, 0 if there was none. */
  function History(m: nat, k: nat, early: bool, late: bool, past: real, now: real, lift: real): Record {
    Record(Repeat(Outcome(past, early), m * k) + Repeat(Outcome(now, late), k), 0.0, if lift == 0.0 then 0 else 1, lift)
  }

  function Failing(n: nat, ok: bool): nat { if ok then 0 else n }

  function Whole(m: nat, k: nat, early: bool, late: bool): Tally { Tally(m * k + k, Failing(m * k, early) + Failing(k, late)) }

  function Late(k: nat, late: bool): Tally { Tally(k, Failing(k, late)) }

  lemma {:induction false} RepeatIs(e: Outcome, n: nat)
    ensures |Repeat(e, n)| == n && forall i | 0 <= i < n :: Repeat(e, n)[i] == e
  {
    if n > 0 { RepeatIs(e, n - 1); }
  }

  lemma {:induction false} EndedConcat(a: seq<Outcome>, b: seq<Outcome>, lo: real, k: nat)
    requires k <= |b|
    ensures EndedUpTo(a + b, lo, |a| + k).jobs == Ended(a, lo).jobs + EndedUpTo(b, lo, k).jobs
    ensures EndedUpTo(a + b, lo, |a| + k).failures == Ended(a, lo).failures + EndedUpTo(b, lo, k).failures
  {
    if k == 0 { EndedPrefix(a, b, lo, |a|); } else { EndedConcat(a, b, lo, k - 1); }
  }

  lemma {:induction false} EndedRepeat(e: Outcome, n: nat, lo: real)
    ensures Ended(Repeat(e, n), lo).jobs == (if e.at < lo then 0 else n)
    ensures Ended(Repeat(e, n), lo).failures == (if e.at < lo then 0 else Failing(n, e.ok))
  {
    if n > 0 {
      EndedRepeat(e, n - 1, lo);
      EndedAppend(Repeat(e, n - 1), e, lo);
    }
  }

  lemma HistoryEnds(m: nat, k: nat, early: bool, late: bool, past: real, now: real, lift: real, since: real)
    requires past <= now && since <= now
    ensures Ended(History(m, k, early, late, past, now, lift).events, since)
            == if past < since then Late(k, late) else Whole(m, k, early, late)
  {
    var a, b := Repeat(Outcome(past, early), m * k), Repeat(Outcome(now, late), k);
    EndedRepeat(Outcome(past, early), m * k, since);
    EndedRepeat(Outcome(now, late), k, since);
    EndedConcat(a, b, since, |b|);
  }

  lemma HistoryTimes(m: nat, k: nat, early: bool, late: bool, past: real, now: real, lift: real)
    requires past <= now
    ensures forall e <- History(m, k, early, late, past, now, lift).events :: e.at >= past
  {
    RepeatIs(Outcome(past, early), m * k);
    RepeatIs(Outcome(now, late), k);
  }

  lemma EndedEver(m: nat, k: nat, early: bool, late: bool, past: real, now: real, lift: real)
    requires past <= now
    ensures var events := History(m, k, early, late, past, now, lift).events;
      AllUpTo(events, |events|) == Whole(m, k, early, late)
  {
    HistoryEnds(m, k, early, late, past, now, lift, past);
    HistoryTimes(m, k, early, late, past, now, lift);
    AllOf(History(m, k, early, late, past, now, lift).events, past);
  }

  /** All of the late jobs failed, where all of the early ones elsewhere did not. */
  lemma LateStandsOut(cfg: Config, m: nat, k: nat, atLeast: int, others: Tally)
    requires Suffice(cfg, m, k) && atLeast <= k && others == Whole(m, k, true, false)
    ensures Stands(cfg, Late(k, false), atLeast, others)
  {
    assert k * (m * k + k) == m * (k * k) + k * k;
    FarAbove(cfg, m, k, Late(k, false), atLeast, others);
  }

  /** All of the late jobs failed, and none elsewhere. */
  lemma OnlyLateFails(cfg: Config, m: nat, k: nat, atLeast: int)
    requires Suffice(cfg, m, k) && atLeast <= k
    ensures Stands(cfg, Late(k, false), atLeast, Late(k, true))
  {
    FarAbove(cfg, m, k, Late(k, false), atLeast, Late(k, true));
  }

  /** The early ones failed here and the late ones elsewhere. */
  lemma EarlyStandsOut(cfg: Config, m: nat, k: nat, atLeast: int)
    requires Suffice(cfg, m, k) && atLeast <= k
    ensures Stands(cfg, Whole(m, k, false, true), atLeast, Whole(m, k, true, false))
  {
    var n := m * k;
    assert n >= k;
    assert n * (n + k) == m * (k * (n + k));
    assert m * (n + k) == (m + 1) * n;
    FarAbove(cfg, m, k, Whole(m, k, false, true), atLeast, Whole(m, k, true, false));
  }

  lemma FailsSinceLift(cfg: Config, m: nat, k: nat, st: State, s: Site, r: Record, o: Site)
    requires Suffice(cfg, m, k) && s in st.sites && o in st.sites && st.sites[s] == st.sites[o] == r && r.clearedAt != 0.0
    requires st.Running(s) == st.Running(o) == 0 && Others(st, s, None) == Weight(st, o, None)
    requires Ended(r.events, r.clearedAt) == Late(k, false) && AllUpTo(r.events, |r.events|) == Whole(m, k, true, false)
    ensures IsFailing(cfg, st, s)
  {
    LateStandsOut(cfg, m, k, cfg.minFailures, Whole(m, k, true, false));
  }

  /** The lifts are needed: sites that have failed only since their last lift all fail the standing test. */
  lemma LiftsCanBanAll(cfg: Config, m: nat, k: nat, a: Site, b: Site, past: real, lift: real, now: real)
    requires a != b && Suffice(cfg, m, k) && 0.0 <= past < lift <= now
    ensures var r := History(m, k, true, false, past, now, lift);
      var st := TwoSites(a, r, b, r);
      st.Valid() && forall s <- st.sites :: IsFailing(cfg, st, s)
  {
    var r := History(m, k, true, false, past, now, lift);
    var st := TwoSites(a, r, b, r);
    HistoryEnds(m, k, true, false, past, now, lift, lift);
    EndedEver(m, k, true, false, past, now, lift);
    TwoAreValid(a, r, b, r);
    OthersOfTwo(a, r, b, r, None);
    FailsSinceLift(cfg, m, k, st, a, r, b);
    FailsSinceLift(cfg, m, k, st, b, r, a);
  }

  /** So it is with one lift inside the burst window: that site is compared over a part of it only. */
  lemma BurstLiftCanBanAll(cfg: Config, m: nat, k: nat, a: Site, b: Site, past: real, lift: real, now: real)
    requires a != b && Suffice(cfg, m, k) && 0.0 <= now - cfg.burstMinutes * 60.0 <= past < lift <= now
    ensures var ra, rb := History(m, k, false, true, past, now, 0.0), History(m, k, true, false, past, now, lift);
      var st := TwoSites(a, ra, b, rb);
      st.Valid() && forall s <- st.sites :: IsBurst(cfg, st, s, now)
  {
    var ra, rb := History(m, k, false, true, past, now, 0.0), History(m, k, true, false, past, now, lift);
    var start := now - cfg.burstMinutes * 60.0;
    HistoryEnds(m, k, false, true, past, now, 0.0, start);
    HistoryEnds(m, k, true, false, past, now, lift, start);
    HistoryEnds(m, k, false, true, past, now, 0.0, lift);
    HistoryEnds(m, k, true, false, past, now, lift, lift);
    TwoAreValid(a, ra, b, rb);
    OthersOfTwo(a, ra, b, rb, Some(start));
    OthersOfTwo(a, ra, b, rb, Some(lift));
    EarlyStandsOut(cfg, m, k, cfg.burstFailures);
    OnlyLateFails(cfg, m, k, cfg.burstFailures);
  }

  lemma {:induction false} RecentIsKept(events: seq<Outcome>, cutoff: real, k: nat)
    requires k <= |events| && forall i | 0 <= i < |events| :: events[i].at >= cutoff
    ensures KeptUpTo(events, cutoff, k) == events[..k]
  {
    if k > 0 { RecentIsKept(events, cutoff, k - 1); }
  }

  /** Nothing to forget and nothing to lift: a poll bans exactly the offenders of the state it meets. */
  lemma PollBans(cfg: Config, st: State, now: real)
    requires cfg.enabled && Sane(cfg)
    requires forall s <- st.sites :: st.sites[s].until == 0.0
    requires forall s <- st.sites :: forall e <- st.sites[s].events :: e.at >= now - cfg.windowHours * 3600.0
    ensures forall s <- st.sites :: s in Judged(cfg, st, now).sites
    ensures forall s <- st.sites :: Offends(cfg, st, s, now) ==> Judged(cfg, st, now).sites[s].until > now
  {
    var cutoff := now - cfg.windowHours * 3600.0;
    forall s <- st.sites ensures Pruned(st.sites[s], cutoff) == st.sites[s] {
      var events := st.sites[s].events;
      RecentIsKept(events, cutoff, |events|);
      assert events[..|events|] == events;
    }
    assert Prune(cfg, st, now).sites == st.sites;
    assert Expire(Prune(cfg, st, now), now).sites == st.sites;
    forall s <- st.sites ensures BanSeconds(cfg, st.sites[s].quarantines) > 0.0 {
      BanSecondsPositive(cfg, st.sites[s].quarantines);
    }
  }

  lemma BothTestsTogether(cfg: Config, m: nat, k: nat, a: Site, b: Site, past: real, now: real)
    requires a != b && Suffice(cfg, m, k) && 0.0 <= past < now - cfg.burstMinutes * 60.0 <= now
    ensures var ra, rb := History(m, k, true, false, past, now, 0.0), History(m, k, false, true, past, now, 0.0);
      var st := TwoSites(a, ra, b, rb);
      st.Valid() && Offends(cfg, st, a, now) && Offends(cfg, st, b, now)
  {
    var ra, rb := History(m, k, true, false, past, now, 0.0), History(m, k, false, true, past, now, 0.0);
    var start := now - cfg.burstMinutes * 60.0;
    HistoryEnds(m, k, true, false, past, now, 0.0, start);
    HistoryEnds(m, k, false, true, past, now, 0.0, start);
    EndedEver(m, k, true, false, past, now, 0.0);
    EndedEver(m, k, false, true, past, now, 0.0);
    TwoAreValid(a, ra, b, rb);
    OthersOfTwo(a, ra, b, rb, Some(start));
    OthersOfTwo(a, ra, b, rb, None);
    OnlyLateFails(cfg, m, k, cfg.burstFailures);
    EarlyStandsOut(cfg, m, k, cfg.minFailures);
    assert IsBurst(cfg, TwoSites(a, ra, b, rb), a, now);
    assert IsFailing(cfg, TwoSites(a, ra, b, rb), b);
  }

  /**
   And together the two tests can ban every site in one poll with no lift anywhere: one that was good and
   has just failed is a burst, and the other, which was bad and has just recovered, fails the standing test.
   */
  lemma BothTestsCanBanAll(cfg: Config, m: nat, k: nat, a: Site, b: Site, past: real, now: real)
    requires a != b && Suffice(cfg, m, k) && Sane(cfg) && cfg.enabled
    requires 0.0 <= past < now - cfg.burstMinutes * 60.0 <= now && past >= now - cfg.windowHours * 3600.0
    ensures var st := TwoSites(a, History(m, k, true, false, past, now, 0.0), b, History(m, k, false, true, past, now, 0.0));
      var st' := Judged(cfg, st, now);
      st.Valid() && forall s <- st.sites :: st.sites[s].clearedAt == 0.0 && s in st'.sites && st'.sites[s].until > now
  {
    var st := TwoSites(a, History(m, k, true, false, past, now, 0.0), b, History(m, k, false, true, past, now, 0.0));
    HistoryTimes(m, k, true, false, past, now, 0.0);
    HistoryTimes(m, k, false, true, past, now, 0.0);
    BothTestsTogether(cfg, m, k, a, b, past, now);
    PollBans(cfg, st, now);
  }
}
